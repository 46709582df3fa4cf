/** Parsed JSON values and the handful of JavaScript operators the routes apply
    to them: optional-chained field access, `??`, truthiness and `typeof`.
    Numbers are finite reals: a NaN or an infinity never reaches the model,
    mirroring the `Number.isFinite` guards of the routes. */
module Json {
  import opened Wrappers
  import opened Text

  datatype Value =
    | JNull
    | JBool(b: bool)
    | JNum(n: real)
    | JStr(s: string)
    | JArr(items: seq<Value>)
    | JObj(fields: map<string, Value>)

  /** `v?.k`: the field of an object, undefined for every other value. */
  function Field(v: Option<Value>, k: string): (r: Option<Value>)
    ensures r.Some? <==> v.Some? && v.value.JObj? && k in v.value.fields
    ensures r.Some? ==> r.value == v.value.fields[k]
  {
    match v
    case Some(JObj(m)) => if k in m then Some(m[k]) else None
    case _ => None
  }

  /** `a ?? b`: `a` unless it is undefined or null. */
  function Coalesce(a: Option<Value>, b: Option<Value>): (r: Option<Value>)
    ensures a.Some? && a.value != JNull ==> r == a
    ensures a.None? || a.value == JNull ==> r == b
  {
    if a.Some? && a.value != JNull then a else b
  }

  /** JavaScript truthiness of a present value. */
  predicate Truthy(v: Value) {
    match v
    case JNull => false
    case JBool(b) => b
    case JNum(n) => n != 0.0
    case JStr(s) => s != ""
    case JArr(_) => true
    case JObj(_) => true
  }

  /** Truthiness of a possibly undefined value (`undefined` is falsy). */
  predicate TruthyOpt(v: Option<Value>) {
    v.Some? && Truthy(v.value)
  }

  /** `a || b` on possibly undefined values. */
  function Or(a: Option<Value>, b: Option<Value>): (r: Option<Value>)
    ensures TruthyOpt(a) ==> r == a
    ensures !TruthyOpt(a) ==> r == b
  {
    if TruthyOpt(a) then a else b
  }

  /** `typeof v === "object"` for a present, non-null value (arrays included). */
  predicate IsObjectLike(v: Value) {
    v.JObj? || v.JArr?
  }

  /** The number in `v` when `typeof v === "number"`. */
  function AsNumber(v: Option<Value>): (r: Option<real>)
    ensures r.Some? <==> v.Some? && v.value.JNum?
    ensures r.Some? ==> v.value == JNum(r.value)
  {
    match v
    case Some(JNum(n)) => Some(n)
    case _ => None
  }

  /** The string in `v` when `typeof v === "string"`. */
  function AsString(v: Option<Value>): (r: Option<string>)
    ensures r.Some? <==> v.Some? && v.value.JStr?
    ensures r.Some? ==> v.value == JStr(r.value)
  {
    match v
    case Some(JStr(s)) => Some(s)
    case _ => None
  }

  /** The boolean in `v` when `typeof v === "boolean"`. */
  function AsBool(v: Option<Value>): (r: Option<bool>)
    ensures r.Some? <==> v.Some? && v.value.JBool?
    ensures r.Some? ==> v.value == JBool(r.value)
  {
    match v
    case Some(JBool(b)) => Some(b)
    case _ => None
  }

  // `String(v)`, the text a value turns into when it is used as a key.

  /** The digits after the decimal point of `f` in `[0, 1)`, at most `fuel`
      of them, ending where the expansion ends. */
  function FracDigits(f: real, fuel: nat): (r: string)
    requires 0.0 <= f < 1.0
    ensures |r| <= fuel && (forall i :: 0 <= i < |r| ==> IsDigit(r[i]))
    decreases fuel
  {
    if f == 0.0 || fuel == 0 then ""
    else
      var d := (f * 10.0).Floor;
      [DigitChar(d)] + FracDigits(f * 10.0 - d as real, fuel - 1)
  }

  /** `String(n)` for a finite number in plain decimal notation. */
  function NumberText(n: real): (r: string)
    ensures |r| > 0
  {
    if n < 0.0 then "-" + MagnitudeText(-n) else MagnitudeText(n)
  }

  function MagnitudeText(n: real): (r: string)
    requires n >= 0.0
    ensures |r| > 0 && IsDigit(r[0])
  {
    var i := n.Floor;
    NatText(i) + (if n == i as real then "" else "." + FracDigits(n - i as real, 20))
  }

  /** Whether `String(v)` returns at all. A parsed JSON value is never
      callable, so an object whose own `toString` key shadows the inherited
      method makes the conversion fall through to `valueOf`, which returns
      the object itself, and `String` throws a TypeError; an array converts
      through its items, so it throws exactly when a non-null item does. */
  predicate Printable(v: Value)
    decreases v
  {
    match v
    case JObj(m) => "toString" !in m
    case JArr(items) => forall i :: 0 <= i < |items| ==> items[i] == JNull || Printable(items[i])
    case _ => true
  }

  /** `String(v)` on an optional property: `undefined` prints. */
  predicate PrintableOpt(v: Option<Value>)
  {
    v.None? || Printable(v.value)
  }

  /** Scalars and plain objects print; an own `toString` key, directly or
      inside an array, does not. */
  lemma PrintableCases(s: string, n: real, m: map<string, Value>)
    ensures Printable(JStr(s)) && Printable(JNum(n)) && Printable(JNull)
    ensures Printable(JObj(m)) <==> "toString" !in m
    ensures !Printable(JObj(map["toString" := JNum(1.0)]))
    ensures !Printable(JArr([JNull, JObj(map["toString" := JNum(1.0)])]))
    ensures Printable(JArr([JNull, JStr(s)]))
  {
    var bad := JObj(map["toString" := JNum(1.0)]);
    assert [JNull, bad][1] == bad;
  }

  /** `String(v)` when it returns (see `Printable`): a string is itself,
      `null` and booleans are their names, an array joins its items' texts
      with commas (a null item gives nothing) and an object is
      `[object Object]`. For a value that is not `Printable` the model's
      text is what `String` never produces: the caller throws instead. */
  function ToText(v: Value): (r: string)
    decreases v, 1
  {
    match v
    case JNull => "null"
    case JBool(b) => if b then "true" else "false"
    case JNum(n) => NumberText(n)
    case JStr(s) => s
    case JArr(items) => JoinText(items, |items|)
    case JObj(_) => "[object Object]"
  }

  /** `items.slice(0, n).join(",")`. */
  function JoinText(items: seq<Value>, n: nat): (r: string)
    requires n <= |items|
    decreases JArr(items), 0, n
  {
    if n == 0 then ""
    else
      var last := if items[n - 1] == JNull then "" else ToText(items[n - 1]);
      if n == 1 then last else JoinText(items, n - 1) + "," + last
  }

  /** A string is its own text; a whole number's text is its numeral,
      which `parseInt` reads back; `true` reads as "true". */
  lemma TextOfScalars(s: string, n: int)
    ensures ToText(JStr(s)) == s
    ensures ParseInt(ToText(JNum(n as real))) == Some(n)
    ensures ToText(JBool(true)) == "true"
  {
    if n < 0 {
      var m := NatText(-n);
      assert ToText(JNum(n as real)) == "-" + MagnitudeText((-n) as real);
      assert MagnitudeText((-n) as real) == m;
      NatTextRoundTrip(-n);
      ParseIntOfNegativeNumeral("-" + m);
      assert ("-" + m)[1..] == m;
    } else {
      assert ToText(JNum(n as real)) == NatText(n);
      NatTextRoundTrip(n);
      ParseIntOfNumeral(NatText(n));
    }
  }
}
