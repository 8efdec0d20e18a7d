/** Python values as the source receives them from JSON: dicts, lists and scalars, with the
    truthiness, `dict.get`, `float()`, `int()`, `len()` and `str()` the source applies to them. */
module PyValue {
  import opened Wrappers
  import opened PyStrings

  /** A JSON-shaped Python value. `Null` is Python's `None`; a `Float` carries its exact value and
      the text `str()` renders it as; a `Dict` lists its entries in insertion order, each key
      once: a `Dict` that repeats a key stands for no Python dict. */
  datatype Value =
    | Null
    | Bool(b: bool)
    | Int(i: int)
    | Float(f: real, repr: string)
    | Str(s: string)
    | List(elems: seq<Value>)
    | Dict(entries: seq<(string, Value)>)

  /** Python truthiness: `bool(v)`. */
  predicate Truthy(v: Value)
  {
    match v
    case Null => false
    case Bool(b) => b
    case Int(i) => i != 0
    case Float(f, _) => f != 0.0
    case Str(s) => s != ""
    case List(es) => es != []
    case Dict(es) => es != []
  }

  /** `a or b` */
  function Or(a: Value, b: Value): Value
  {
    if Truthy(a) then a else b
  }

  /** `key in d` */
  predicate HasKey(entries: seq<(string, Value)>, key: string)
  {
    entries != [] && (entries[0].0 == key || HasKey(entries[1..], key))
  }

  /** `d.get(key, default)` */
  function GetOr(entries: seq<(string, Value)>, key: string, default: Value): Value
  {
    if entries == [] then default
    else if entries[0].0 == key then entries[0].1
    else GetOr(entries[1..], key, default)
  }

  /** `d.get(key)` */
  function Get(entries: seq<(string, Value)>, key: string): Value
  {
    GetOr(entries, key, Null)
  }

  lemma {:induction false} GetOrMissing(entries: seq<(string, Value)>, key: string, default: Value)
    requires !HasKey(entries, key)
    ensures GetOr(entries, key, default) == default
  {
    if entries != [] { GetOrMissing(entries[1..], key, default); }
  }

  /** A literal `{k1: v1, ...}` whose key is `key` finds the value at the first entry with that key. */
  lemma {:induction false} GetOrFound(entries: seq<(string, Value)>, key: string, default: Value, j: nat)
    requires j < |entries| && entries[j].0 == key
    requires forall k :: 0 <= k < j ==> entries[k].0 != key
    ensures HasKey(entries, key) && GetOr(entries, key, default) == entries[j].1
  {
    if j > 0 { GetOrFound(entries[1..], key, default, j - 1); }
  }

  /** `x` truncated toward zero, as `int(x)` does for a float. */
  function Truncate(x: real): (r: int)
    ensures x >= 0.0 ==> r as real <= x < r as real + 1.0
    ensures x < 0.0 ==> r as real - 1.0 < x <= r as real
  {
    if x >= 0.0 then x.Floor else -((-x).Floor)
  }

  /** Optional sign and the text after it. */
  function SplitSign(t: string): (bool, string)
  {
    if t != [] && (t[0] == '+' || t[0] == '-') then (t[0] == '-', t[1..]) else (false, t)
  }

  /** `int(s)` for a stripped string: an optional sign and decimal digits. */
  function ParseIntLiteral(t: string): Option<int>
  {
    var (negative, body) := SplitSign(t);
    if IsDigits(body) then Some(if negative then 0 - DigitsValue(body) as int else DigitsValue(body) as int) else None
  }

  /** The value of `ip.fp` for digit strings `ip` and `fp`. */
  function DecimalValue(ip: string, fp: string): real
    requires AllDigits(ip) && AllDigits(fp)
  {
    DigitsValue(ip) as real + DigitsValue(fp) as real / Pow10(|fp|) as real
  }

  /** `float(s)` for a stripped string in plain decimal notation: an optional sign, then digits
      with an optional fraction (`12`, `12.5`, `12.`, `.5`). */
  function ParseFloatLiteral(t: string): Option<real>
  {
    var (negative, body) := SplitSign(t);
    var magnitude: Option<real> :=
      match Find(body, ".")
      case None => if IsDigits(body) then Some(DigitsValue(body) as real) else None
      case Some(p) =>
        var ip := body[..p];
        var fp := body[p + 1..];
        if AllDigits(ip) && AllDigits(fp) && (ip != [] || fp != []) then Some(DecimalValue(ip, fp)) else None;
    match magnitude
    case None => None
    case Some(m) => Some(if negative then -m else m)
  }

  /** `float(v)`; `None` where Python raises. */
  function ToFloat(v: Value): Option<real>
  {
    match v
    case Bool(b) => Some(if b then 1.0 else 0.0)
    case Int(i) => Some(i as real)
    case Float(f, _) => Some(f)
    case Str(s) => ParseFloatLiteral(Strip(s))
    case _ => None
  }

  /** `int(v)`; `None` where Python raises. */
  function ToInt(v: Value): Option<int>
  {
    match v
    case Bool(b) => Some(if b then 1 else 0)
    case Int(i) => Some(i)
    case Float(f, _) => Some(Truncate(f))
    case Str(s) => ParseIntLiteral(Strip(s))
    case _ => None
  }

  /** `isinstance(v, int)`: a bool is an int in Python. */
  predicate IsPyInt(v: Value)
  {
    v.Int? || v.Bool?
  }

  /** `isinstance(v, (int, float))` */
  predicate IsNumber(v: Value)
  {
    v.Int? || v.Bool? || v.Float?
  }

  /** The numeric value of an int, bool or float. */
  function NumberValue(v: Value): real
    requires IsNumber(v)
  {
    match v
    case Bool(b) => if b then 1.0 else 0.0
    case Int(i) => i as real
    case Float(f, _) => f
  }

  /** `len(v)`; `None` where Python raises. */
  function Len(v: Value): Option<nat>
  {
    match v
    case Str(s) => Some(|s|)
    case List(es) => Some(|es|)
    case Dict(es) => Some(|es|)
    case _ => None
  }

  /** The elements `for x in v` visits: a list's elements, a string's characters, a dict's keys;
      `None` where Python raises TypeError. */
  function Iterate(v: Value): (r: Option<seq<Value>>)
    ensures r.Some? ==> Len(v) == Some(|r.value|)
  {
    match v
    case List(es) => Some(es)
    case Str(s) => Some(seq(|s|, k requires 0 <= k < |s| => Str([s[k]])))
    case Dict(es) => Some(seq(|es|, k requires 0 <= k < |es| => Str(es[k].0)))
    case _ => None
  }

  /** `str(v)` for a value that is not a list or a dict. */
  function ScalarStr(v: Value): string
  {
    match v
    case Null => "None"
    case Bool(b) => if b then "True" else "False"
    case Int(i) => IntToString(i)
    case Float(_, r) => r
    case Str(s) => s
    case _ => ""
  }

  /** `repr(v)`, with strings quoted in single quotes. */
  function Repr(v: Value): string
    decreases v
  {
    match v
    case Str(s) => "'" + s + "'"
    case List(es) => "[" + Join(seq(|es|, k requires 0 <= k < |es| => Repr(es[k])), ", ") + "]"
    case Dict(es) =>
      "{" + Join(seq(|es|, k requires 0 <= k < |es| => "'" + es[k].0 + "': " + Repr(es[k].1)), ", ") + "}"
    case _ => ScalarStr(v)
  }

  /** `str(v)` */
  function PyStr(v: Value): string
  {
    if v.List? || v.Dict? then Repr(v) else ScalarStr(v)
  }
}
