/** `GET /api/logs/recent` (`app/api/logs/recent/route.ts`): the raw agent
    log of the last `minutes` minutes as a plain-text download. The file
    system is a map from resolved path to file contents (a path exists when
    it is a key); `JSON.parse` and `new Date(...).getTime()` are parameters. */
module LogsRecent {
  import opened Wrappers
  import opened Json
  import opened Text
  import opened Params
  import opened Seqs
  import opened TailScan

  const MinMinutes: int := 1
  const MaxMinutes: int := 720
  const DefaultMinutes: int := 10

  /** The log's file name and the three places it is looked for when no
      explicit path is configured: the working directory and its parent and
      grandparent. */
  const LogName: string := "agent-metrics.log"
  const DefaultCandidates: seq<string> := [LogName, "../" + LogName, "../../" + LogName]

  /** `parseInt(minutes || "10")`, clamped to 1 .. 720, 10 when it is not a
      number. */
  function Minutes(raw: Option<string>): (m: int)
    ensures MinMinutes <= m <= MaxMinutes
    ensures !Given(raw) ==> m == DefaultMinutes
    ensures ParseInt(ParamText(raw, "10")).None? ==> m == DefaultMinutes
    ensures (ParseInt(ParamText(raw, "10")).Some? ==>
      m == Max(MinMinutes, Min(ParseInt(ParamText(raw, "10")).value, MaxMinutes)))
  {
    assert DecimalValue("10") == 10 by {
      assert "10"[..1] == "1";
      assert "1"[..0] == "";
    }
    MissingParamReadsFallback(raw, "10", DefaultMinutes, MinMinutes, MaxMinutes);
    IntParam(raw, "10", DefaultMinutes, MinMinutes, MaxMinutes)
  }

  /** The first of `paths` that exists. */
  function FirstExisting(paths: seq<string>, files: map<string, string>): (r: Option<string>)
    ensures r.Some? ==> r.value in files && r.value in paths
    ensures r.None? <==> forall i :: 0 <= i < |paths| ==> paths[i] !in files
    ensures (r.Some? ==> exists i :: (0 <= i < |paths| && paths[i] == r.value
      && forall j :: 0 <= j < i ==> paths[j] !in files))
  {
    if |paths| == 0 then None
    else if paths[0] in files then
      assert paths[0] == paths[0];
      Some(paths[0])
    else
      var r := FirstExisting(paths[1..], files);
      if r.Some? then
        var i :| 0 <= i < |paths[1..]| && paths[1..][i] == r.value && forall j :: 0 <= j < i ==> paths[1..][j] !in files;
        assert paths[i + 1] == r.value;
        r
      else r
  }

  /** `resolveLogPath()`: the configured path when it is set and exists,
      otherwise the first default location that exists. */
  function ResolveLogPath(env: Option<string>, files: map<string, string>): (r: Option<string>)
    ensures Given(env) && env.value in files ==> r == env
    ensures !(Given(env) && env.value in files) ==> r == FirstExisting(DefaultCandidates, files)
    ensures r.Some? ==> r.value in files
  {
    if Given(env) && env.value in files then env
    else FirstExisting(DefaultCandidates, files)
  }

  /** The path is missing only when neither the configured path nor any
      default location exists. */
  lemma NotFoundIffNothingExists(env: Option<string>, files: map<string, string>)
    ensures ResolveLogPath(env, files).None? <==>
      !(Given(env) && env.value in files) && forall p :: p in DefaultCandidates ==> p !in files
  {
    var r := FirstExisting(DefaultCandidates, files);
    if r.None? {
      forall p | p in DefaultCandidates ensures p !in files {
        var i :| 0 <= i < |DefaultCandidates| && DefaultCandidates[i] == p;
      }
    }
  }

  // Splitting and joining lines

  /** The position of the first `'\n'` in a string that has one. */
  function NewlineAt(t: string): (i: nat)
    requires '\n' in t
    ensures i < |t| && t[i] == '\n' && '\n' !in t[..i]
  {
    if t[0] == '\n' then 0
    else
      assert '\n' in t[1..] by {
        var k :| 0 <= k < |t| && t[k] == '\n';
        assert t[1..][k - 1] == '\n';
      }
      var j := NewlineAt(t[1..]);
      assert t[..j + 1] == [t[0]] + t[1..][..j];
      j + 1
  }

  /** A piece before a line break loses one `'\r'`: the break is `\r?\n`. */
  function DropCarriageReturn(p: string): (r: string)
    ensures |p| > 0 && p[|p| - 1] == '\r' ==> r + "\r" == p
    ensures !(|p| > 0 && p[|p| - 1] == '\r') ==> r == p
  {
    if |p| > 0 && p[|p| - 1] == '\r' then p[..|p| - 1] else p
  }

  /** `text.split(/\r?\n/)`. */
  function SplitLines(t: string): (r: seq<string>)
    ensures |r| > 0
    ensures forall i :: 0 <= i < |r| ==> '\n' !in r[i]
    decreases |t|
  {
    if '\n' !in t then [t]
    else
      var i := NewlineAt(t);
      var piece := DropCarriageReturn(t[..i]);
      assert '\n' !in piece by {
        assert piece == t[..i][..|piece|];
        forall k | 0 <= k < |piece| ensures piece[k] != '\n' {
          assert piece[k] == t[..i][k];
        }
      }
      [piece] + SplitLines(t[i + 1..])
  }

  /** `.filter(Boolean)` on the pieces: the empty ones go. */
  function NonEmpty(ls: seq<string>): (r: seq<string>)
    ensures |r| <= |ls|
    ensures forall l :: l in r <==> l in ls && l != ""
  {
    if |ls| == 0 then []
    else (if ls[0] != "" then [ls[0]] else []) + NonEmpty(ls[1..])
  }

  /** `lines.join("\n")`. */
  function Join(ls: seq<string>): string
  {
    if |ls| == 0 then ""
    else if |ls| == 1 then ls[0]
    else ls[0] + "\n" + Join(ls[1..])
  }

  /** A line as the scan can meet it again: no break inside and no `'\r'`
      that a break would swallow. */
  predicate Plain(l: string) {
    '\n' !in l && !(|l| > 0 && l[|l| - 1] == '\r')
  }

  /** Joining plain lines and splitting the download again gives the lines
      back. */
  lemma {:induction false} SplitJoin(ls: seq<string>)
    requires |ls| > 0
    requires forall i :: 0 <= i < |ls| ==> Plain(ls[i])
    ensures SplitLines(Join(ls)) == ls
  {
    assert Plain(ls[0]);
    if |ls| > 1 {
      var a := ls[0];
      var t := Join(ls);
      assert t == a + "\n" + Join(ls[1..]);
      assert t[|a|] == '\n';
      assert t[..|a|] == a;
      FirstNewline(a, Join(ls[1..]));
      assert t[|a| + 1..] == Join(ls[1..]);
      SplitJoin(ls[1..]);
    }
  }

  /** The first break of `a + "\n" + b` is the one after `a` when `a` has
      none. */
  lemma {:induction false} FirstNewline(a: string, b: string)
    requires '\n' !in a
    ensures '\n' in a + "\n" + b
    ensures NewlineAt(a + "\n" + b) == |a|
    decreases |a|
  {
    var t := a + "\n" + b;
    assert t[|a|] == '\n';
    if |a| > 0 {
      assert t[0] == a[0];
      assert '\n' !in a[1..];
      assert t[1..] == a[1..] + "\n" + b;
      FirstNewline(a[1..], b);
    }
  }

  // The scan

  /** The time of a log line: `obj?.timestamp ? new Date(obj.timestamp).getTime() : NaN`,
      where a line that does not parse is skipped like one without a time. */
  function LineStamp(parse: string -> Option<Value>, parseTime: Value -> Option<int>, line: string): (r: Option<int>)
    ensures r.Some? ==> parse(line).Some? && TruthyOpt(Field(parse(line), "timestamp"))
    ensures (parse(line).Some? && TruthyOpt(Field(parse(line), "timestamp")) ==>
      r == parseTime(Field(parse(line), "timestamp").value))
  {
    match parse(line)
    case None => None
    case Some(obj) =>
      var t := Field(Some(obj), "timestamp");
      if TruthyOpt(t) then parseTime(t.value) else None
  }

  /** The stamp function the scan uses. */
  function StampOf(parse: string -> Option<Value>, parseTime: Value -> Option<int>): string -> Option<int> {
    (l: string) => LineStamp(parse, parseTime, l)
  }

  datatype LogResponse = NotFound | Download(body: string)

  /** The route: resolve the log, split its text into non-empty lines, scan
      back from the end and join the kept lines in file order. */
  function GetRecentLogs(minutes: Option<string>, env: Option<string>, files: map<string, string>, now: int,
                         parse: string -> Option<Value>, parseTime: Value -> Option<int>): (r: LogResponse)
    ensures r.NotFound? <==> ResolveLogPath(env, files).None?
    ensures r.Download? ==> (
      var lines := NonEmpty(SplitLines(files[ResolveLogPath(env, files).value]));
      var cutoff := now - Minutes(minutes) * 60 * 1000;
      var stamp := StampOf(parse, parseTime);
      r.body == Join(Eligible(lines, stamp, cutoff)))
  {
    match ResolveLogPath(env, files)
    case None => NotFound
    case Some(path) =>
      var lines := NonEmpty(SplitLines(files[path]));
      var cutoff := now - Minutes(minutes) * 60 * 1000;
      var stamp := StampOf(parse, parseTime);
      var kept := Scan(lines, stamp, cutoff, None);
      ScanWithoutLimit(lines, stamp, cutoff);
      Download(Join(kept))
  }

  /** Every line of the download is a non-empty line of the log without a
      break in it, and carries a time no older than the cutoff. */
  lemma DownloadedLinesAreRecent(text: string, parse: string -> Option<Value>, parseTime: Value -> Option<int>, cutoff: int)
    ensures var lines := NonEmpty(SplitLines(text));
      forall l :: l in Eligible(lines, StampOf(parse, parseTime), cutoff) ==> (
        && l != "" && '\n' !in l
        && LineStamp(parse, parseTime, l).Some? && LineStamp(parse, parseTime, l).value >= cutoff)
  {
    var pieces := SplitLines(text);
    var lines := NonEmpty(pieces);
    var stamp := StampOf(parse, parseTime);
    var e := Eligible(lines, stamp, cutoff);
    ScanWithoutLimit(lines, stamp, cutoff);
    ScanBounds(lines, stamp, cutoff, None);
    forall l | l in e
      ensures l != "" && '\n' !in l && LineStamp(parse, parseTime, l).Some? && LineStamp(parse, parseTime, l).value >= cutoff
    {
      assert l in lines[StopPoint(lines, stamp, cutoff)..];
      assert l in lines;
      var i :| 0 <= i < |pieces| && pieces[i] == l;
      assert stamp(l) == LineStamp(parse, parseTime, l);
    }
  }
}
