/**
  Decoded JSON payload values and the few Python operations the handlers
  apply to them: truthiness, `dict.get`, `dict[key]`, iteration and `int()`.
  Each Python operation that can raise returns the class of the exception it
  would raise, so that every handler can route it the way its own `except`
  clauses do.
 */
module JsonValue {
  import opened Wrappers

  /** A decoded JSON value. Floating-point numbers are not part of the model. */
  datatype Json =
    | JNull
    | JBool(b: bool)
    | JInt(i: int)
    | JStr(s: string)
    | JList(items: seq<Json>)
    | JObject(fields: map<string, Json>)

  /** The Python exception classes the handlers distinguish. */
  datatype Exc = ValueErr | TypeErr | KeyErr | AttributeErr

  /** Python truthiness: `None`, `False`, `0`, and empty strings, lists and dicts are falsy. */
  predicate Truthy(j: Json) {
    match j
    case JNull => false
    case JBool(b) => b
    case JInt(i) => i != 0
    case JStr(s) => |s| > 0
    case JList(items) => |items| > 0
    case JObject(fields) => |fields| > 0
  }

  /** `j.get(key)`: a missing key reads as `None`; on anything but a dict the method does not exist. */
  function Get(j: Json, key: string): (r: Result<Json, Exc>)
    ensures r.Err? <==> !j.JObject?
    ensures r.Ok? && key !in j.fields ==> !Truthy(r.value)
  {
    match j
    case JObject(fields) => Ok(if key in fields then fields[key] else JNull)
    case _ => Err(AttributeErr)
  }

  /** `j[key]` with a string key: a missing key raises KeyError, a non-dict raises TypeError. */
  function Index(j: Json, key: string): (r: Result<Json, Exc>)
    ensures r.Ok? <==> j.JObject? && key in j.fields
    ensures r.Ok? ==> r.value == j.fields[key]
    ensures r.Err? && j.JObject? ==> r.error == KeyErr
    ensures r.Err? && !j.JObject? ==> r.error == TypeErr
  {
    match j
    case JObject(fields) => if key in fields then Ok(fields[key]) else Err(KeyErr)
    case _ => Err(TypeErr)
  }

  /**
    The elements a Python `for` loop visits: the items of a list, the
    one-character strings of a string. A dict is iterated by its keys; the
    model visits an empty dict as an empty loop and rejects a non-empty one.
    Scalars are not iterable.
   */
  function Elements(j: Json): (r: Result<seq<Json>, Exc>)
    ensures j.JList? ==> r == Ok(j.items)
    ensures j.JStr? ==> r == Ok(seq(|j.s|, i requires 0 <= i < |j.s| => JStr([j.s[i]])))
    ensures r.Ok? && !Truthy(j) ==> r.value == []
    ensures (j.JNull? || j.JBool? || j.JInt?) ==> r == Err(TypeErr)
  {
    match j
    case JList(items) => Ok(items)
    case JStr(s) => Ok(seq(|s|, i requires 0 <= i < |s| => JStr([s[i]])))
    case JObject(fields) => if |fields| == 0 then Ok([]) else Err(AttributeErr)
    case _ => Err(TypeErr)
  }

  predicate IsDigit(c: char) {
    '0' <= c <= '9'
  }

  predicate IsDigits(d: string) {
    |d| > 0 && forall i | 0 <= i < |d| :: IsDigit(d[i])
  }

  /** The value of a string of decimal digits, most significant first. */
  function DigitsValue(d: string): nat
    requires forall i | 0 <= i < |d| :: IsDigit(d[i])
    decreases |d|
  {
    if |d| == 0 then 0
    else
      assert IsDigit(d[|d| - 1]);
      DigitsValue(d[..|d| - 1]) * 10 + (d[|d| - 1] as int - '0' as int)
  }

  /** Python's `int(s)` on a string: an optional sign followed by decimal digits. */
  function ParseDecimal(s: string): (r: Option<int>)
    ensures r.Some? ==> |s| > 0
    ensures IsDigits(s) ==> r.Some? && r.value >= 0
  {
    if |s| > 0 && (s[0] == '-' || s[0] == '+') then
      var d := s[1..];
      if IsDigits(d) then Some(if s[0] == '-' then -(DigitsValue(d) as int) else DigitsValue(d)) else None
    else if IsDigits(s) then Some(DigitsValue(s))
    else None
  }

  function DigitChar(n: nat): (c: char)
    requires n < 10
    ensures IsDigit(c) && c as int - '0' as int == n
  {
    ('0' as int + n) as char
  }

  /** Python's `str(n)` for a non-negative integer. */
  function ShowNat(n: nat): (r: string)
    ensures IsDigits(r)
  {
    if n < 10 then [DigitChar(n)] else ShowNat(n / 10) + [DigitChar(n % 10)]
  }

  /** Python's `str(i)` for an integer. */
  function ShowInt(i: int): string {
    if i < 0 then "-" + ShowNat(-i) else ShowNat(i)
  }

  lemma {:induction false} DigitsValueOfShowNat(n: nat)
    ensures DigitsValue(ShowNat(n)) == n
  {
    if n >= 10 {
      var prefix := ShowNat(n / 10);
      var d := prefix + [DigitChar(n % 10)];
      assert d[..|d| - 1] == prefix;
      DigitsValueOfShowNat(n / 10);
    }
  }

  /** `int(str(i)) == i`: the decimal reading of a printed integer gives it back. */
  lemma ParseShowInt(i: int)
    ensures ParseDecimal(ShowInt(i)) == Some(i)
  {
    if i < 0 {
      var s := ShowInt(i);
      assert s[1..] == ShowNat(-i);
      DigitsValueOfShowNat(-i);
    } else {
      DigitsValueOfShowNat(i);
    }
  }

  /**
    Python's `int(x)`: integers pass, booleans become 0 or 1, strings are
    parsed in base 10 (ValueError if they are not numerals), and None, lists
    and dicts raise TypeError.
   */
  function ToInt(j: Json): (r: Result<int, Exc>)
    ensures j.JInt? ==> r == Ok(j.i)
    ensures j == JBool(true) ==> r == Ok(1)
    ensures j == JBool(false) ==> r == Ok(0)
    ensures j.JStr? ==> (r.Ok? <==> ParseDecimal(j.s).Some?)
    ensures j.JStr? && r.Ok? ==> r.value == ParseDecimal(j.s).value
    ensures j.JStr? && r.Err? ==> r.error == ValueErr
    ensures (j.JNull? || j.JList? || j.JObject?) ==> r == Err(TypeErr)
  {
    match j
    case JInt(i) => Ok(i)
    case JBool(b) => Ok(if b then 1 else 0)
    case JStr(s) => (match ParseDecimal(s) case Some(v) => Ok(v) case None => Err(ValueErr))
    case _ => Err(TypeErr)
  }
}
