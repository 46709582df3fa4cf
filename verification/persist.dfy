/** The durable per-device log of `lib/persist.ts`: one file of JSON lines per
    device, named after the sanitised device id, read back from the end with a
    time cutoff and a limit. The metrics directory is a listing of files in
    `readdir` order, each file its sequence of lines; `None` is a directory
    that does not exist. */
module Persist {
  import opened Wrappers
  import opened Text
  import opened Seqs
  import opened Samples
  import opened TailScan

  /** The characters `safeId` keeps: `[a-zA-Z0-9._-]`. */
  predicate SafeChar(c: char) {
    IsAsciiLower(c) || IsAsciiUpper(c) || IsDigit(c) || c == '.' || c == '_' || c == '-'
  }

  /** `replace(/[^a-zA-Z0-9._-]/g, "_")`. */
  function Sanitize(s: string): (r: string)
    ensures |r| == |s|
    ensures forall i :: 0 <= i < |s| ==> r[i] == if SafeChar(s[i]) then s[i] else '_'
  {
    if |s| == 0 then [] else Sanitize(s[..|s| - 1]) + [if SafeChar(s[|s| - 1]) then s[|s| - 1] else '_']
  }

  const MaxIdLength: nat := 120

  /** `safeId(id)`: a non-empty file stem of at most 120 safe characters; the
      empty id becomes `unknown`, safe characters stay in place and every
      other character becomes `_`. */
  function SafeId(id: string): (r: string)
    ensures 0 < |r| <= MaxIdLength
    ensures forall i :: 0 <= i < |r| ==> SafeChar(r[i])
    ensures id == "" ==> r == "unknown"
    ensures id != "" ==> (|r| == Min(|id|, MaxIdLength)
      && forall i :: 0 <= i < |r| ==> r[i] == if SafeChar(id[i]) then id[i] else '_')
  {
    Take(Sanitize(if id == "" then "unknown" else id), MaxIdLength)
  }

  /** Sanitising a sanitised id changes nothing. */
  lemma SafeIdIdempotent(id: string)
    ensures SafeId(SafeId(id)) == SafeId(id)
  {
    var r := SafeId(id);
    var rr := SafeId(r);
    assert |rr| == |r|;
    forall i | 0 <= i < |r| ensures rr[i] == r[i] {
    }
  }

  /** Two different device ids can share one log file. */
  lemma SafeIdMerges()
    ensures "a/b" != "a_b" && SafeId("a/b") == SafeId("a_b")
  {
    assert SafeId("a/b")[1] == '_';
    assert SafeId("a/b") == "a_b";
    assert SafeId("a_b") == "a_b";
  }

  const LogSuffix := ".jsonl"

  /** `deviceFile(id)`, as a name inside the metrics directory. */
  function DeviceFile(id: string): (f: string)
    ensures EndsWith(f, LogSuffix)
    ensures StripSuffix(f, LogSuffix) == SafeId(id)
  {
    assert (SafeId(id) + LogSuffix)[|SafeId(id)|..] == LogSuffix;
    assert (SafeId(id) + LogSuffix)[..|SafeId(id)|] == SafeId(id);
    SafeId(id) + LogSuffix
  }

  /** An id recovered from a device's file name leads back to the same file. */
  lemma RecoveredIdFindsSameFile(id: string)
    ensures DeviceFile(StripSuffix(DeviceFile(id), LogSuffix)) == DeviceFile(id)
  {
    SafeIdIdempotent(id);
  }

  /** A file named just `.jsonl` yields the empty id, whose own file is
      `unknown.jsonl`: recovery is exact only for names `deviceFile` makes. */
  lemma BareSuffixFileIsNotRecovered()
    ensures StripSuffix(LogSuffix, LogSuffix) == ""
    ensures DeviceFile(StripSuffix(LogSuffix, LogSuffix)) != LogSuffix
  {
    assert DeviceFile("") == "unknown" + LogSuffix;
  }

  datatype FileEntry = FileEntry(name: string, lines: seq<Line>)

  type MetricsDir = Option<seq<FileEntry>>

  /** The lines of the file called `name`, if it exists. */
  function Lookup(es: seq<FileEntry>, name: string): (r: Option<seq<Line>>)
    ensures r.Some? <==> exists i :: 0 <= i < |es| && es[i].name == name
    ensures r.Some? ==> exists i :: 0 <= i < |es| && es[i].name == name && es[i].lines == r.value
  {
    if |es| == 0 then None
    else if es[0].name == name then Some(es[0].lines)
    else
      var r := Lookup(es[1..], name);
      assert r.Some? ==> exists i :: 1 <= i < |es| && es[i].name == name && es[i].lines == r.value by {
        if r.Some? {
          var i :| 0 <= i < |es[1..]| && es[1..][i].name == name && es[1..][i].lines == r.value;
          assert es[i + 1] == es[1..][i];
        }
      }
      r
  }

  /** The records of parsed lines (the scan never keeps a malformed one). */
  function Records(ls: seq<Line>): (r: seq<Record>)
    requires forall l :: l in ls ==> l.Parsed?
    ensures |r| == |ls|
    ensures forall i :: 0 <= i < |ls| ==> ls[i] == Parsed(r[i])
  {
    if |ls| == 0 then [] else Records(ls[..|ls| - 1]) + [ls[|ls| - 1].rec]
  }

  /** The per-file read: the backward scan of one file's lines. */
  function ScanFile(lines: seq<Line>, cutoff: int, limit: int): (r: seq<Record>)
    ensures forall x :: x in r ==> x.ts.Some? && x.ts.value >= cutoff
    ensures |r| <= Max(limit, 1)
  {
    var kept := Scan(lines, LineTime, cutoff, Some(limit));
    ScanBounds(lines, LineTime, cutoff, Some(limit));
    var r := Records(kept);
    assert forall x :: x in r ==> Parsed(x) in kept by {
      forall x | x in r ensures Parsed(x) in kept {
        var i :| 0 <= i < |r| && r[i] == x;
      }
    }
    r
  }

  /** `readRecentDeviceSamples(deviceId, cutoffMs, limit)`: nothing when the
      device's file is missing; otherwise the newest records at or after the
      cutoff, at most `limit` of them (one, for a limit below one), in file
      order, none from before the last record older than the cutoff. */
  function ReadRecentDeviceSamples(dir: MetricsDir, deviceId: string, cutoff: int, limit: int)
    : (r: seq<Record>)
    ensures forall x :: x in r ==> x.ts.Some? && x.ts.value >= cutoff
    ensures |r| <= Max(limit, 1)
    ensures (dir.None? || Lookup(dir.value, DeviceFile(deviceId)).None?) ==> r == []
  {
    match dir
    case None => []
    case Some(es) =>
      match Lookup(es, DeviceFile(deviceId))
      case None => []
      case Some(lines) => ScanFile(lines, cutoff, limit)
  }

  /** The read, in terms of the file: the newest `min(limit, k)` of the `k`
      timed records after the stop point, in file order. */
  lemma ReadIsNewestEligible(lines: seq<Line>, cutoff: int, limit: int)
    ensures var e := LastN(Eligible(lines, LineTime, cutoff), Max(limit, 1));
      var r := ScanFile(lines, cutoff, limit);
      |r| == |e| && forall i :: 0 <= i < |r| ==> e[i] == Parsed(r[i])
  {
    ScanIsNewestEligible(lines, LineTime, cutoff, Some(limit));
  }

  /** `appendMetricSample`: one more line at the end of the device's file,
      creating the directory and the file when missing. */
  function AppendMetricSample(dir: MetricsDir, rec: Record): (r: MetricsDir)
    ensures r.Some?
  {
    var name := DeviceFile(rec.sample.deviceId);
    var es := dir.GetOr([]);
    Some(AppendTo(es, name, Parsed(rec)))
  }

  function AppendTo(es: seq<FileEntry>, name: string, l: Line): (r: seq<FileEntry>)
    ensures Lookup(r, name) == Some(Lookup(es, name).GetOr([]) + [l])
    ensures forall other :: other != name ==> Lookup(r, other) == Lookup(es, other)
  {
    if |es| == 0 then
      assert Lookup([FileEntry(name, [l])], name) == Some([l]);
      assert Lookup(es, name).GetOr([]) + [l] == [l];
      [FileEntry(name, [l])]
    else if es[0].name == name then [es[0].(lines := es[0].lines + [l])] + es[1..]
    else
      var rest := AppendTo(es[1..], name, l);
      assert ([es[0]] + rest)[1..] == rest;
      [es[0]] + rest
  }

  /** Reading right after an append returns the appended record last, when
      its time is at or after the cutoff. */
  lemma ReadAfterAppend(dir: MetricsDir, rec: Record, cutoff: int, limit: int)
    requires rec.ts.Some? && rec.ts.value >= cutoff
    ensures var r := ReadRecentDeviceSamples(AppendMetricSample(dir, rec), rec.sample.deviceId, cutoff, limit);
      |r| > 0 && r[|r| - 1] == rec
  {
    var name := DeviceFile(rec.sample.deviceId);
    var lines := dir.GetOr([]);
    var old_ := Lookup(dir.GetOr([]), name).GetOr([]);
    var ls := old_ + [Parsed(rec)];
    assert ls[..|ls| - 1] == old_;
    var kept := Scan(ls, LineTime, cutoff, Some(limit));
    assert |kept| > 0 && kept[|kept| - 1] == Parsed(rec);
  }

  /** The names of the directory ending in `.jsonl`, in listing order. */
  function LogNames(es: seq<FileEntry>): (r: seq<string>)
    ensures forall n :: n in r <==> exists i :: 0 <= i < |es| && es[i].name == n && EndsWith(n, LogSuffix)
  {
    if |es| == 0 then []
    else
      var rest := LogNames(es[1..]);
      var r := (if EndsWith(es[0].name, LogSuffix) then [es[0].name] else []) + rest;
      assert forall n :: n in rest <==> exists i :: 1 <= i < |es| && es[i].name == n && EndsWith(n, LogSuffix) by {
        forall n ensures n in rest <==> exists i :: 1 <= i < |es| && es[i].name == n && EndsWith(n, LogSuffix) {
          if n in rest {
            var j :| 0 <= j < |es[1..]| && es[1..][j].name == n && EndsWith(n, LogSuffix);
            assert es[j + 1] == es[1..][j];
          }
          if exists i :: 1 <= i < |es| && es[i].name == n && EndsWith(n, LogSuffix) {
            var i :| 1 <= i < |es| && es[i].name == n && EndsWith(n, LogSuffix);
            assert es[1..][i - 1] == es[i];
          }
        }
      }
      r
  }

  function StripAll(names: seq<string>): (r: seq<string>)
    ensures |r| == |names|
    ensures forall i :: 0 <= i < |names| ==> r[i] == StripSuffix(names[i], LogSuffix)
  {
    if |names| == 0 then [] else StripAll(names[..|names| - 1]) + [StripSuffix(names[|names| - 1], LogSuffix)]
  }

  /** `listPersistedDeviceIds()`: the `.jsonl` files of the metrics directory,
      in listing order, with the suffix taken off. */
  function ListPersistedDeviceIds(dir: MetricsDir): (r: seq<string>)
    ensures dir.None? ==> r == []
    ensures dir.Some? ==> (|r| == |LogNames(dir.value)|
      && forall i :: 0 <= i < |r| ==> r[i] + LogSuffix == LogNames(dir.value)[i])
    ensures forall id :: id in r ==> exists i :: 0 <= i < |dir.value| && dir.value[i].name == id + LogSuffix
    ensures dir.Some? ==> forall i :: 0 <= i < |dir.value| && EndsWith(dir.value[i].name, LogSuffix) ==>
      StripSuffix(dir.value[i].name, LogSuffix) in r
  {
    match dir
    case None => []
    case Some(es) =>
      var names := LogNames(es);
      var r := StripAll(names);
      assert forall id :: id in r ==> id + LogSuffix in names by {
        forall id | id in r ensures id + LogSuffix in names {
          var i :| 0 <= i < |r| && r[i] == id;
          assert names[i] in names;
        }
      }
      assert forall i :: 0 <= i < |es| && EndsWith(es[i].name, LogSuffix) ==> StripSuffix(es[i].name, LogSuffix) in r by {
        forall i | 0 <= i < |es| && EndsWith(es[i].name, LogSuffix)
          ensures StripSuffix(es[i].name, LogSuffix) in r
        {
          assert es[i].name in names;
          var j :| 0 <= j < |names| && names[j] == es[i].name;
          assert r[j] == StripSuffix(es[i].name, LogSuffix);
        }
      }
      r
  }

  /** The sort key of `readRecentSamplesAllDevices`: the record's time (every
      record the per-file read returns has one). */
  function Time(x: Record): int {
    x.ts.GetOr(0)
  }

  predicate SortedByTime(s: seq<Record>) {
    forall i, j :: 0 <= i < j < |s| ==> Time(s[i]) <= Time(s[j])
  }

  lemma SortedSnoc(a: seq<Record>, v: Record)
    requires SortedByTime(a)
    requires forall y :: y in a ==> Time(y) <= Time(v)
    ensures SortedByTime(a + [v])
  {
    forall i, j | 0 <= i < j < |a| + 1 ensures Time((a + [v])[i]) <= Time((a + [v])[j]) {
      if j == |a| {
        assert (a + [v])[i] in a;
      }
    }
  }

  /** Places `x` after every element no later than it (a stable insertion). */
  function Insert(s: seq<Record>, x: Record): (r: seq<Record>)
    requires SortedByTime(s)
    ensures SortedByTime(r)
    ensures multiset(r) == multiset(s) + multiset{x}
    ensures |r| == |s| + 1
    decreases |s|
  {
    if |s| == 0 || Time(s[|s| - 1]) <= Time(x) then
      SortedBoundedByLast(s, Time(x));
      SortedSnoc(s, x);
      s + [x]
    else
      var init := s[..|s| - 1];
      var last := s[|s| - 1];
      assert s == init + [last];
      SortedBoundedByLast(init + [last], Time(last));
      var mid := Insert(init, x);
      BoundedByMultiset(init, x, mid, Time(last));
      SortedSnoc(mid, last);
      mid + [last]
  }

  /** In a sorted sequence whose last record is no later than `t`, every
      record is. */
  lemma SortedBoundedByLast(s: seq<Record>, t: int)
    requires SortedByTime(s)
    requires |s| == 0 || Time(s[|s| - 1]) <= t
    ensures forall y :: y in s ==> Time(y) <= t
  {
    forall y | y in s ensures Time(y) <= t {
      var i :| 0 <= i < |s| && s[i] == y;
    }
  }

  /** A bound on every record of `init` and on `x` bounds every record of a
      sequence holding the same records. */
  lemma BoundedByMultiset(init: seq<Record>, x: Record, mid: seq<Record>, t: int)
    requires forall y :: y in init ==> Time(y) <= t
    requires Time(x) <= t
    requires multiset(mid) == multiset(init) + multiset{x}
    ensures forall y :: y in mid ==> Time(y) <= t
  {
    forall y | y in mid ensures Time(y) <= t {
      assert y in multiset(mid);
      if y != x {
        assert y in multiset(init);
      }
    }
  }

  /** `merged.sort((a, b) => time(a) - time(b))`, a stable sort. */
  function SortByTime(s: seq<Record>): (r: seq<Record>)
    ensures SortedByTime(r)
    ensures multiset(r) == multiset(s)
    ensures |r| == |s|
  {
    if |s| == 0 then []
    else
      assert s == s[..|s| - 1] + [s[|s| - 1]];
      Insert(SortByTime(s[..|s| - 1]), s[|s| - 1])
  }

  /** The per-device reads of `readRecentSamplesAllDevices`, concatenated in
      listing order; each file is read through the id recovered from its name. */
  function Gather(dir: MetricsDir, names: seq<string>, cutoff: int, perDevice: int): (r: seq<Record>)
    ensures forall x :: x in r ==> x.ts.Some? && x.ts.value >= cutoff
  {
    if |names| == 0 then []
    else
      Gather(dir, names[..|names| - 1], cutoff, perDevice)
      + ReadRecentDeviceSamples(dir, StripSuffix(names[|names| - 1], LogSuffix), cutoff, perDevice)
  }

  const PerDeviceCap: int := 200

  /** The records every file contributes, before merging. */
  function Merged(dir: MetricsDir, cutoff: int, limit: int): seq<Record>
    requires dir.Some?
  {
    Gather(dir, LogNames(dir.value), cutoff, Min(limit, PerDeviceCap))
  }

  /** `readRecentSamplesAllDevices(cutoffMs, limit)`: the merged per-device
      reads sorted by time, of which the newest `limit` are kept. */
  function ReadRecentSamplesAllDevices(dir: MetricsDir, cutoff: int, limit: int): (r: seq<Record>)
    ensures dir.None? ==> r == []
    ensures SortedByTime(r)
    ensures forall x :: x in r ==> x.ts.Some? && x.ts.value >= cutoff
    ensures limit >= 1 ==> |r| <= limit
  {
    match dir
    case None => []
    case Some(es) =>
      var all := Merged(dir, cutoff, limit);
      var sorted := SortByTime(all);
      var r := SliceFromEnd(sorted, limit);
      var k := |sorted| - |r|;
      assert r == sorted[k..];
      SortedKeepsRecent(all, cutoff);
      SuffixSorted(sorted, k);
      r
  }

  /** Sorting neither adds records nor loses the cutoff. */
  lemma SortedKeepsRecent(all: seq<Record>, cutoff: int)
    requires forall x :: x in all ==> x.ts.Some? && x.ts.value >= cutoff
    ensures forall x :: x in SortByTime(all) ==> x.ts.Some? && x.ts.value >= cutoff
  {
    var sorted := SortByTime(all);
    forall x | x in sorted ensures x.ts.Some? && x.ts.value >= cutoff {
      assert x in multiset(sorted);
      assert x in multiset(all);
    }
  }

  /** Every device contributes at most `min(limit, 200)` records (for a
      positive limit), and the merge keeps the newest `limit` records of the
      union: whatever it drops is no later than anything it keeps. */
  lemma AllDevicesKeepsNewest(dir: MetricsDir, cutoff: int, limit: int)
    requires dir.Some? && limit >= 1
    ensures forall id :: |ReadRecentDeviceSamples(dir, id, cutoff, Min(limit, PerDeviceCap))| <= Min(limit, PerDeviceCap)
    ensures var all := Merged(dir, cutoff, limit);
      var r := ReadRecentSamplesAllDevices(dir, cutoff, limit);
      && multiset(r) <= multiset(all)
      && |r| == Min(limit, |all|)
      && forall x, y :: x in all && multiset(all)[x] > multiset(r)[x] && y in r ==> Time(x) <= Time(y)
  {
    var all := Merged(dir, cutoff, limit);
    var sorted := SortByTime(all);
    var r := ReadRecentSamplesAllDevices(dir, cutoff, limit);
    assert r == SliceFromEnd(sorted, limit) == LastN(sorted, limit);
    var k := |sorted| - |r|;
    assert r == sorted[k..];
    assert |r| == Min(limit, |all|);
    SuffixKeepsNewest(sorted, k);
    assert multiset(sorted) == multiset(all);
    assert multiset(r) <= multiset(all);
    forall x, y | x in all && multiset(all)[x] > multiset(r)[x] && y in r
      ensures Time(x) <= Time(y)
    {
      assert x in multiset(sorted);
      assert x in sorted;
      assert multiset(sorted)[x] > multiset(sorted[k..])[x];
    }
  }

  lemma SuffixSorted(s: seq<Record>, k: nat)
    requires SortedByTime(s) && k <= |s|
    ensures SortedByTime(s[k..])
    ensures forall x :: x in s[k..] ==> x in s
  {
    forall x | x in s[k..] ensures x in s {
      var i :| 0 <= i < |s[k..]| && s[k..][i] == x;
      assert s[k + i] == x;
    }
  }

  /** Dropping a prefix of a sorted sequence drops only records no later than
      any kept one. */
  lemma SuffixKeepsNewest(s: seq<Record>, k: nat)
    requires SortedByTime(s) && k <= |s|
    ensures multiset(s[k..]) <= multiset(s)
    ensures forall x, y :: x in s && multiset(s)[x] > multiset(s[k..])[x] && y in s[k..] ==> Time(x) <= Time(y)
  {
    assert s == s[..k] + s[k..];
    assert multiset(s) == multiset(s[..k]) + multiset(s[k..]);
    forall x, y | x in s && multiset(s)[x] > multiset(s[k..])[x] && y in s[k..]
      ensures Time(x) <= Time(y)
    {
      assert x in multiset(s[..k]);
      assert x in s[..k];
      var i :| 0 <= i < k && s[i] == x;
      var j :| k <= j < |s| && s[j] == y;
    }
  }
}
