/** Python-level values and the small string operations of the Python runtime
    that the scripts rely on: truth tests, `str()` of scalars, `int()` on operator
    input, `str.lower()`, `str.strip()` and the `in` substring test. */
module PyValues {

  datatype Option<T> = None | Some(value: T)

  /** A Python object of the kinds `response.json()` produces.  `Null` is Python's
      `None`, so a failed call and a JSON `null` body look the same, as in Python. */
  datatype Value =
    | Null
    | Bool(b: bool)
    | Int(i: int)
    | Str(s: string)
    | List(items: seq<Value>)
    | Dict(entries: map<string, Value>)

  /** The `{}` the API wrappers return for an empty body. */
  const EmptyDict: Value := Dict(map[])

  /** Python's truth test, `if v:`. */
  predicate Truthy(v: Value) {
    match v
    case Null => false
    case Bool(b) => b
    case Int(i) => i != 0
    case Str(s) => s != ""
    case List(items) => items != []
    case Dict(entries) => entries != map[]
  }

  /** `d.get(key)`: the entry, or `None` when the key is absent. */
  function Get(entries: map<string, Value>, key: string): Value {
    if key in entries then entries[key] else Null
  }

  /** Python's truth test on an optional string argument (`None` and `""` are false). */
  predicate Given(s: Option<string>) {
    s.Some? && s.value != ""
  }

  /** The process environment, `os.environ`. */
  type Environ = map<string, string>

  /** `os.environ.get(name)`. */
  function EnvGet(env: Environ, name: string): (r: Option<string>)
    ensures r.Some? <==> name in env
  {
    if name in env then Some(env[name]) else None
  }

  /** `os.environ.get(name, default)`: an empty variable is returned as it is. */
  function EnvGetOr(env: Environ, name: string, fallback: string): string {
    if name in env then env[name] else fallback
  }

  /** `a or b` on optional strings: `a` unless it is `None` or empty. */
  function OrElse(a: Option<string>, b: Option<string>): (r: Option<string>)
    ensures Given(a) ==> r == a
    ensures !Given(a) ==> r == b
  {
    if Given(a) then a else b
  }

  // ---------------------------------------------------------------- digits

  predicate IsDigit(c: char) {
    '0' <= c <= '9'
  }

  predicate AllDigits(s: string) {
    forall i :: 0 <= i < |s| ==> IsDigit(s[i])
  }

  function DigitChar(d: nat): (c: char)
    requires d < 10
    ensures IsDigit(c)
  {
    ('0' as int + d) as char
  }

  function DigitValue(c: char): (d: nat)
    requires IsDigit(c)
    ensures d < 10 && DigitChar(d) == c
  {
    c as int - '0' as int
  }

  /** `str(n)` for a non-negative integer: its decimal digits, no leading zero. */
  function NatToString(n: nat): (s: string)
    ensures s != [] && AllDigits(s)
    ensures |s| > 1 ==> s[0] != '0'
    decreases n
  {
    if n < 10 then [DigitChar(n)] else NatToString(n / 10) + [DigitChar(n % 10)]
  }

  /** `str(i)` for any integer. */
  function IntToString(i: int): (s: string)
    ensures s != [] && IsDigit(s[|s| - 1])
    ensures s[0] == '-' || IsDigit(s[0])
  {
    if i < 0 then "-" + NatToString(-i) else NatToString(i)
  }

  /** `str(v)` for the scalar kinds; see README for lists and dicts. */
  function Render(v: Value): string {
    match v
    case Null => "None"
    case Bool(b) => if b then "True" else "False"
    case Int(i) => IntToString(i)
    case Str(s) => s
    case List(_) => ""
    case Dict(_) => ""
  }

  // ---------------------------------------------------------------- int()

  /** The ASCII characters `str.isspace()` accepts, which `int()` and `str.strip()` drop. */
  predicate IsSpace(c: char) {
    c == ' ' || c == '\t' || c == '\n' || c == '\r'
    || c == '\U{0B}' || c == '\U{0C}'
    || c == '\U{1C}' || c == '\U{1D}' || c == '\U{1E}' || c == '\U{1F}'
  }

  function TrimStart(s: string): (r: string)
    ensures |r| <= |s| && r == s[|s| - |r|..]
    ensures r == [] || !IsSpace(r[0])
  {
    if s != [] && IsSpace(s[0]) then TrimStart(s[1..]) else s
  }

  function TrimEnd(s: string): (r: string)
    ensures |r| <= |s| && r == s[..|r|]
    ensures r == [] || !IsSpace(r[|r| - 1])
  {
    if s != [] && IsSpace(s[|s| - 1]) then TrimEnd(s[..|s| - 1]) else s
  }

  /** `s.strip()` restricted to the characters of IsSpace. */
  function Strip(s: string): string {
    TrimEnd(TrimStart(s))
  }

  predicate DigitsOrUnderscores(s: string) {
    forall i :: 0 <= i < |s| ==> IsDigit(s[i]) || s[i] == '_'
  }

  /** The digit part `int()` accepts: digits, with single underscores between digits. */
  predicate IsDigitGroup(s: string) {
    && s != []
    && IsDigit(s[0])
    && IsDigit(s[|s| - 1])
    && DigitsOrUnderscores(s)
    && forall i :: 0 < i < |s| - 1 && s[i] == '_' ==> IsDigit(s[i - 1]) && IsDigit(s[i + 1])
  }

  /** The number a digit group denotes, underscores ignored. */
  function GroupValue(s: string): nat
    requires DigitsOrUnderscores(s)
  {
    if s == [] then 0
    else if s[|s| - 1] == '_' then GroupValue(s[..|s| - 1])
    else GroupValue(s[..|s| - 1]) * 10 + DigitValue(s[|s| - 1])
  }

  /** `int(s)` on a string: `Some(n)` where Python returns `n`, `None` where it raises ValueError. */
  function ParseInt(s: string): (r: Option<int>)
    ensures r.Some? ==> exists i :: 0 <= i < |s| && IsDigit(s[i])
  {
    var t := Strip(s);
    if t != [] && (t[0] == '+' || t[0] == '-') then
      if IsDigitGroup(t[1..]) then
        var n: int := GroupValue(t[1..]);
        assert IsDigit(t[1..][0]);
        StripKeepsChar(s, 1);
        var v: int := if t[0] == '-' then -n else n;
        Some(v)
      else None
    else if IsDigitGroup(t) then
      StripKeepsChar(s, 0);
      Some(GroupValue(t))
    else None
  }

  lemma StripKeepsChar(s: string, k: nat)
    requires k < |Strip(s)|
    ensures exists i :: 0 <= i < |s| && s[i] == Strip(s)[k]
  {
    var a := TrimStart(s);
    var t := TrimEnd(a);
    assert t[k] == a[k];
    assert a[k] == s[|s| - |a| + k];
  }

  lemma {:induction false} GroupValueOfNat(n: nat)
    ensures IsDigitGroup(NatToString(n))
    ensures GroupValue(NatToString(n)) == n
    decreases n
  {
    var s := NatToString(n);
    if n >= 10 {
      GroupValueOfNat(n / 10);
      assert s[..|s| - 1] == NatToString(n / 10);
    }
  }

  lemma StripIntToString(i: int)
    ensures Strip(IntToString(i)) == IntToString(i)
  {
    var s := IntToString(i);
    assert !IsSpace(s[0]);
    assert TrimStart(s) == s;
    assert !IsSpace(s[|s| - 1]);
    assert TrimEnd(s) == s;
  }

  /** `int(str(i)) == i`: what the catalog prints as a number reads back as that number. */
  lemma ParseIntToString(i: int)
    ensures ParseInt(IntToString(i)) == Some(i)
  {
    if i < 0 {
      ParseIntOfNegative(i);
    } else {
      ParseIntOfNonNegative(i);
    }
  }

  lemma ParseIntOfNegative(i: int)
    requires i < 0
    ensures ParseInt(IntToString(i)) == Some(i)
  {
    var s := IntToString(i);
    NegativeDigits(i);
    StripIntToString(i);
    ParseIntSigned(s);
  }

  /** `str(i)` of a negative number is a minus sign followed by a digit group of `-i`. */
  lemma NegativeDigits(i: int)
    requires i < 0
    ensures var s := IntToString(i);
      s != [] && s[0] == '-' && IsDigitGroup(s[1..]) && GroupValue(s[1..]) == -i
  {
    var n: nat := -i;
    var digits := NatToString(n);
    GroupValueOfNat(n);
    SignedDigits(digits);
    assert IntToString(i) == "-" + digits;
  }

  /** A minus sign in front of a digit group: the group follows the sign. */
  lemma SignedDigits(digits: string)
    ensures ("-" + digits)[0] == '-' && ("-" + digits)[1..] == digits
  {
  }

  lemma ParseIntOfNonNegative(i: int)
    requires i >= 0
    ensures ParseInt(IntToString(i)) == Some(i)
  {
    var s := IntToString(i);
    assert IsDigitGroup(s) && GroupValue(s) == i by {
      assert s == NatToString(i);
      GroupValueOfNat(i);
    }
    assert Strip(s) == s by {
      StripIntToString(i);
    }
    ParseIntUnsigned(s);
  }

  /** `int()` of a stripped, signed digit group. */
  lemma ParseIntSigned(t: string)
    requires Strip(t) == t && t != [] && t[0] == '-' && IsDigitGroup(t[1..])
    ensures ParseInt(t) == Some(-(GroupValue(t[1..]) as int))
  {
  }

  /** `int()` of a stripped, unsigned digit group. */
  lemma ParseIntUnsigned(t: string)
    requires Strip(t) == t && IsDigitGroup(t)
    ensures ParseInt(t) == Some(GroupValue(t))
  {
    assert t[0] != '+' && t[0] != '-';
  }

  // ---------------------------------------------------------------- lower(), in

  function LowerChar(c: char): char {
    if 'A' <= c <= 'Z' then (c as int + 32) as char else c
  }

  /** `s.lower()` on ASCII letters. */
  function Lower(s: string): (r: string)
    ensures |r| == |s|
    ensures forall i :: 0 <= i < |s| ==> r[i] == LowerChar(s[i])
  {
    if s == [] then [] else [LowerChar(s[0])] + Lower(s[1..])
  }

  /** `choice.lower() == 'q'` holds for exactly the two answers `q` and `Q`. */
  lemma LowerIsQ(s: string)
    ensures Lower(s) == "q" <==> s == "q" || s == "Q"
  {
    if Lower(s) == "q" {
      assert |s| == 1 && LowerChar(s[0]) == 'q';
    }
  }

  /** `sub in s` for strings. */
  predicate Contains(s: string, sub: string)
    decreases |s|
  {
    sub <= s || (s != [] && Contains(s[1..], sub))
  }

  predicate OccursAt(s: string, sub: string, k: int) {
    0 <= k && k + |sub| <= |s| && s[k..k + |sub|] == sub
  }

  /** `sub in s` holds exactly when `sub` occurs at some position of `s`. */
  lemma ContainsAt(s: string, sub: string)
    ensures Contains(s, sub) <==> exists k :: OccursAt(s, sub, k)
  {
    if Contains(s, sub) {
      ContainsOccurs(s, sub);
    }
    if exists k :: OccursAt(s, sub, k) {
      var k :| OccursAt(s, sub, k);
      OccursContains(s, sub, k);
    }
  }

  lemma {:induction false} ContainsOccurs(s: string, sub: string)
    requires Contains(s, sub)
    ensures exists k :: OccursAt(s, sub, k)
    decreases |s|
  {
    if sub <= s {
      assert OccursAt(s, sub, 0);
    } else {
      ContainsOccurs(s[1..], sub);
      var k :| OccursAt(s[1..], sub, k);
      assert s[k + 1..k + 1 + |sub|] == s[1..][k..k + |sub|];
      assert OccursAt(s, sub, k + 1);
    }
  }

  lemma {:induction false} OccursContains(s: string, sub: string, k: int)
    requires OccursAt(s, sub, k)
    ensures Contains(s, sub)
    decreases k
  {
    if k == 0 {
      assert s[..|sub|] == sub;
    } else {
      assert s[1..][k - 1..k - 1 + |sub|] == s[k..k + |sub|];
      OccursContains(s[1..], sub, k - 1);
    }
  }
}
