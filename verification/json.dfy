/** JSON values and the parts of JavaScript's dynamic semantics the
    importers and stores rely on: truthiness, property access, `String()`
    conversion, `Object.entries`, and member assignment.

    The text form of JSON is not modelled: `JSON.parse` and
    `JSON.stringify` are supplied as an oracle (`JsonCodec`). Numbers are
    integers. An object whose key occurs twice is read through the first
    occurrence. */
module Json {
  import opened Wrappers
  import opened Strs

  datatype Json =
    | JNull
    | JBool(b: bool)
    | JNum(n: int)
    | JStr(s: string)
    | JArr(items: seq<Json>)
    | JObj(members: seq<Member>)

  datatype Member = Member(key: string, value: Json)

  /** `JSON.parse`, `JSON.stringify(v)` and `JSON.stringify(v, null, 2)`.
      `parse` yields `None` where the runtime throws a SyntaxError. */
  datatype JsonCodec = JsonCodec(
    parse: string -> Option<Json>,
    stringify: Json -> string,
    pretty: Json -> string)

  /** An object with each key at most once, at every depth. */
  predicate WellFormed(j: Json) {
    match j
    case JArr(xs) => forall i :: 0 <= i < |xs| ==> WellFormed(xs[i])
    case JObj(ms) =>
      (forall i, k :: 0 <= i < k < |ms| ==> ms[i].key != ms[k].key) &&
      (forall i :: 0 <= i < |ms| ==> WellFormed(ms[i].value))
    case _ => true
  }

  /** What a faithful JSON runtime guarantees: printing a well-formed value,
      compactly or indented, and parsing the text gives the value back, and
      the text is never empty. */
  ghost predicate Lawful(c: JsonCodec) {
    forall j :: WellFormed(j) ==>
      c.parse(c.stringify(j)) == Some(j) && c.stringify(j) != "" &&
      c.parse(c.pretty(j)) == Some(j)
  }

  /** `JSON.stringify(JSON.parse(d), null, 2)` where the parse succeeds,
      else `d` unchanged: how the importers tidy a request body. */
  function Reformat(d: string, c: JsonCodec): (r: string)
    ensures c.parse(d).None? ==> r == d
    ensures c.parse(d).Some? ==> r == c.pretty(c.parse(d).value)
  {
    match c.parse(d)
    case Some(j) => c.pretty(j)
    case None => d
  }

  /** Under a lawful runtime, tidying a body twice is tidying it once, and
      the tidied text still denotes the same value. */
  lemma ReformatIdempotent(d: string, c: JsonCodec)
    requires Lawful(c)
    requires c.parse(d).Some? ==> WellFormed(c.parse(d).value)
    ensures c.parse(Reformat(d, c)) == c.parse(d)
    ensures Reformat(Reformat(d, c), c) == Reformat(d, c)
  {
  }

  /** JavaScript truthiness of a value that may be `undefined` (`None`). */
  predicate Truthy(v: Option<Json>) {
    match v
    case None => false
    case Some(JNull) => false
    case Some(JBool(b)) => b
    case Some(JNum(n)) => n != 0
    case Some(JStr(s)) => s != ""
    case Some(_) => true
  }

  /** The value stored under `key`, first occurrence first. */
  function Lookup(ms: seq<Member>, key: string): (r: Option<Json>)
    ensures r.None? <==> forall i :: 0 <= i < |ms| ==> ms[i].key != key
    ensures r.Some? ==> exists i :: 0 <= i < |ms| && ms[i].key == key && ms[i].value == r.value
    ensures r.Some? ==> r.value < JObj(ms)
    decreases |ms|
  {
    if |ms| == 0 then None
    else if ms[0].key == key then
      assert ms[0] in ms;
      Some(ms[0].value)
    else
      var r := Lookup(ms[1..], key);
      if r.Some? then
        assert forall m :: m in ms[1..] ==> m in ms;
        r
      else r
  }

  /** Property access `v.key`: the member of an object, `undefined` for
      every other value. (Access on `null` throws; callers handle it.) */
  function Prop(v: Option<Json>, key: string): (r: Option<Json>)
    ensures r.Some? ==> v.Some? && v.value.JObj? && r.value < v.value
    ensures v.Some? && v.value.JObj? ==> r == Lookup(v.value.members, key)
  {
    match v
    case Some(JObj(ms)) => Lookup(ms, key)
    case _ => None
  }

  /** `Object.keys(v)`. */
  function Keys(v: Json): (r: seq<string>)
    ensures v.JObj? ==> |r| == |v.members|
    ensures v.JArr? ==> |r| == |v.items|
  {
    match v
    case JObj(ms) => seq(|ms|, i requires 0 <= i < |ms| => ms[i].key)
    case JArr(xs) => seq(|xs|, i requires 0 <= i < |xs| => NatToString(i))
    case JStr(s) => seq(|s|, i requires 0 <= i < |s| => NatToString(i))
    case _ => []
  }

  /** `v.length` for a value other than `null` (access on `null` throws;
      callers handle it): the element count of an array, the character
      count of a string, an object's own `length` member, and `undefined`
      for numbers and booleans. */
  function LengthOf(v: Json): (r: Option<Json>)
    ensures v.JObj? ==> r == Lookup(v.members, "length")
    ensures v.JArr? || v.JStr? ==> r.Some? && r.value.JNum? && r.value.n >= 0
    ensures v.JNull? || v.JBool? || v.JNum? ==> r.None?
  {
    match v
    case JArr(xs) => Some(JNum(|xs|))
    case JStr(s) => Some(JNum(|s|))
    case JObj(ms) => Lookup(ms, "length")
    case _ => None
  }

  // ------------------------------------------------------- ToNumber

  /** The sign of `Number(s)` for a string, following StringToNumber
      (ECMAScript 2015, section 7.1.3.1): -1, 0 or 1, and `None` for NaN.
      Surrounding white space is ignored and the empty string is 0; then
      come `0x`, `0o` and `0b` literals, or a decimal literal with an
      optional sign, optional fraction and exponent, or `Infinity`. */
  function StringSign(s: string): (r: Option<int>)
    ensures r.Some? ==> -1 <= r.value <= 1
  {
    TrimmedSign(Trim(s))
  }

  /** The sign of a numeral already stripped of white space. */
  function TrimmedSign(t: string): (r: Option<int>)
    ensures r.Some? ==> -1 <= r.value <= 1
  {
    if t == "" then Some(0)
    else if |t| >= 2 && t[0] == '0' && (t[1] == 'x' || t[1] == 'X') then RadixSign(t[2..], 16)
    else if |t| >= 2 && t[0] == '0' && (t[1] == 'o' || t[1] == 'O') then RadixSign(t[2..], 8)
    else if |t| >= 2 && t[0] == '0' && (t[1] == 'b' || t[1] == 'B') then RadixSign(t[2..], 2)
    else if t[0] == '+' then UnsignedSign(t[1..])
    else if t[0] == '-' then
      match UnsignedSign(t[1..])
      case Some(k) => Some(-k)
      case None => None
    else UnsignedSign(t)
  }

  /** A digit of the given base (2, 8 or 16; hexadecimal in either case). */
  predicate IsRadixDigit(c: char, base: nat) {
    if base == 16 then IsDigit(c) || 'a' <= c <= 'f' || 'A' <= c <= 'F'
    else '0' <= c && (c as int) < '0' as int + base
  }

  function RadixSign(d: string, base: nat): (r: Option<int>)
    ensures r.Some? <==> |d| > 0 && forall i :: 0 <= i < |d| ==> IsRadixDigit(d[i], base)
    ensures r == Some(1) <==> r.Some? && exists i :: 0 <= i < |d| && d[i] != '0'
  {
    if |d| > 0 && forall i :: 0 <= i < |d| ==> IsRadixDigit(d[i], base) then
      Some(if exists i :: 0 <= i < |d| && d[i] != '0' then 1 else 0)
    else None
  }

  predicate AllDigits(s: string) {
    forall i :: 0 <= i < |s| ==> IsDigit(s[i])
  }

  /** Some digit is not `0`. */
  predicate NonZeroDigit(s: string) {
    exists i :: 0 <= i < |s| && '1' <= s[i] <= '9'
  }

  /** Position of the first `e` or `E`, or the length. */
  function ExponentAt(u: string): (k: nat)
    ensures k <= |u|
    ensures forall i :: 0 <= i < k ==> u[i] != 'e' && u[i] != 'E'
    ensures k < |u| ==> u[k] == 'e' || u[k] == 'E'
  {
    if |u| == 0 || u[0] == 'e' || u[0] == 'E' then 0 else 1 + ExponentAt(u[1..])
  }

  /** Digits with at most one `.` and at least one digit. */
  predicate Mantissa(m: string) {
    var p := IndexOf(m, '.');
    if p < 0 then |m| > 0 && AllDigits(m)
    else |m| > 1 && AllDigits(m[..p]) && AllDigits(m[p + 1..])
  }

  /** An optional sign and at least one digit. */
  predicate ExponentDigits(e: string) {
    if |e| > 0 && (e[0] == '+' || e[0] == '-') then |e| > 1 && AllDigits(e[1..])
    else |e| > 0 && AllDigits(e)
  }

  /** A decimal literal without sign: positive when a digit of the
      mantissa is not `0`. */
  function UnsignedSign(u: string): (r: Option<int>)
    ensures r.Some? ==> 0 <= r.value <= 1
  {
    if u == "Infinity" then Some(1)
    else
      var k := ExponentAt(u);
      if Mantissa(u[..k]) && (k == |u| || ExponentDigits(u[k + 1..])) then
        Some(if NonZeroDigit(u[..k]) then 1 else 0)
      else None
  }

  /** The sign of `Number(v)` (ToNumber, section 7.1.3) for a JSON value or
      `undefined`: `undefined` is NaN, `null` 0, a boolean 0 or 1; an array
      converts through its `String()` text, an object through
      `[object Object]`, which is NaN. */
  function NumberSign(v: Option<Json>): (r: Option<int>)
    ensures r.Some? ==> -1 <= r.value <= 1
    ensures v.Some? && v.value.JNum? ==> r == Some(if v.value.n > 0 then 1 else if v.value.n < 0 then -1 else 0)
    ensures v.Some? && v.value.JStr? ==> r == StringSign(v.value.s)
    ensures v.None? || (v.Some? && v.value.JObj?) ==> r.None?
  {
    match v
    case None => None
    case Some(JNull) => Some(0)
    case Some(JBool(b)) => Some(if b then 1 else 0)
    case Some(JNum(n)) => Some(if n > 0 then 1 else if n < 0 then -1 else 0)
    case Some(JStr(s)) => StringSign(s)
    case Some(JArr(_)) => StringSign(JsonToStr(v.value))
    case Some(JObj(_)) => None
  }

  /** `v > 0`: both sides are converted to numbers, and NaN compares
      false. */
  predicate Positive(v: Option<Json>) {
    NumberSign(v) == Some(1)
  }

  /** A decimal numeral compares with 0 as the number it renders: the text
      `String(m)` and the number `m` have the same sign. */
  lemma NaturalSign(m: nat)
    ensures StringSign(NatToString(m)) == Some(if m > 0 then 1 else 0)
  {
    DigitsSign(m);
    PlainSign(NatToString(m));
  }

  /** The text `String(-m)` of a negative number is negative. */
  lemma NegativeSign(m: nat)
    requires m > 0
    ensures StringSign("-" + NatToString(m)) == Some(-1)
  {
    DigitsSign(m);
    NegatedSign(NatToString(m));
  }

  /** Trimmed text that starts with a digit, and not with `0` when it is
      longer than one character, is read as a decimal numeral. */
  lemma PlainSign(d: string)
    requires Trimmed(d) && |d| > 0 && IsDigit(d[0]) && (|d| >= 2 ==> d[0] != '0')
    ensures StringSign(d) == UnsignedSign(d)
  {
    TrimNoop(d);
    assert TrimmedSign(d) == UnsignedSign(d);
  }

  /** A minus sign before a trimmed decimal negates its sign. */
  lemma NegatedSign(d: string)
    requires Trimmed(d) && |d| > 0 && UnsignedSign(d).Some?
    ensures StringSign("-" + d) == Some(-UnsignedSign(d).value)
  {
    var t := "-" + d;
    assert t[1..] == d;
    assert Trimmed(t) by { assert t[0] == '-' && t[|t| - 1] == d[|d| - 1]; }
    TrimNoop(t);
    assert TrimmedSign(t) == Some(-UnsignedSign(d).value) by {
      assert t != "" && t[0] == '-';
    }
  }

  /** A rendered natural number reads as a plain decimal literal whose sign
      is that of the number. */
  lemma {:induction false} DigitsSign(m: nat)
    ensures UnsignedSign(NatToString(m)) == Some(if m > 0 then 1 else 0)
    ensures Trimmed(NatToString(m))
  {
    var d := NatToString(m);
    assert d != "Infinity" by { assert IsDigit(d[0]); }
    NoExponent(d);
    assert d[..|d|] == d;
    assert IndexOf(d, '.') == -1 by { assert '.' !in d; }
    if m > 0 {
      if |d| > 1 {
        assert '1' <= d[0] <= '9';
      } else {
        assert d == [DigitChar(m)];
        assert '1' <= d[0] <= '9';
      }
    } else {
      assert d == "0";
    }
  }

  /** A string of digits has no exponent marker. */
  lemma NoExponent(d: string)
    requires AllDigits(d)
    ensures ExponentAt(d) == |d|
  {
    var k := ExponentAt(d);
    assert k < |d| ==> IsDigit(d[k]);
  }

  /** White space in front of a numeral does not change how it reads. */
  lemma LeadingSpaceIgnored(v: string)
    requires Trimmed(v)
    ensures StringSign(" " + v) == StringSign(v)
  {
    TrimAfterSpace(v);
    TrimNoop(v);
  }

  /** Hexadecimal is read, but a sign before `0x` is not allowed. */
  lemma HexNumerals()
    ensures TrimmedSign("0x10") == Some(1)
    ensures TrimmedSign("-0x10").None?
  {
    assert "0x10"[2..] == "10" && "10"[0] != '0';
    assert "-0x10"[1..] == "0x10";
  }

  /** An exponent needs digits, and `-0` is zero. */
  lemma DecimalNumerals()
    ensures TrimmedSign("1e").None?
    ensures TrimmedSign("-0") == Some(0)
  {
    assert "1e"[..1] == "1" && "1e"[2..] == "";
    assert "-0"[1..] == "0" && "0"[..1] == "0";
  }

  /** JavaScript `String(v)` for a JSON value or `undefined`. */
  function ToStr(v: Option<Json>): string {
    match v
    case None => "undefined"
    case Some(j) => JsonToStr(j)
  }

  function JsonToStr(j: Json): string
    decreases j, 1
  {
    match j
    case JNull => "null"
    case JBool(b) => if b then "true" else "false"
    case JNum(n) => IntToString(n)
    case JStr(s) => s
    case JArr(xs) => ArrayToStr(j, xs)
    case JObj(_) => "[object Object]"
  }

  /** `Array.prototype.toString`: elements joined by commas, with `null`
      elements shown as the empty string. */
  function ArrayToStr(whole: Json, xs: seq<Json>): string
    requires forall x :: x in xs ==> x < whole
    decreases whole, 0, |xs|
  {
    if |xs| == 0 then ""
    else
      assert xs[0] in xs;
      assert forall x :: x in xs[1..] ==> x in xs;
      var head := if xs[0].JNull? then "" else JsonToStr(xs[0]);
      if |xs| == 1 then head else head + "," + ArrayToStr(whole, xs[1..])
  }

  /** `v.key = value` on an object's member list: an existing key keeps its
      position and takes the new value, a new key goes last. */
  function SetMember(ms: seq<Member>, key: string, value: Json): (r: seq<Member>)
    ensures Lookup(r, key) == Some(value)
    ensures forall k :: k != key ==> Lookup(r, k) == Lookup(ms, k)
    ensures |r| == |ms| || |r| == |ms| + 1
    ensures (exists i :: 0 <= i < |ms| && ms[i].key == key) ==> |r| == |ms|
    decreases |ms|
  {
    if |ms| == 0 then [Member(key, value)]
    else if ms[0].key == key then [Member(key, value)] + ms[1..]
    else [ms[0]] + SetMember(ms[1..], key, value)
  }

  /** Keys of a member list, each at most once. */
  predicate UniqueKeys(ms: seq<Member>) {
    forall i, k :: 0 <= i < k < |ms| ==> ms[i].key != ms[k].key
  }

  /** Setting a member keeps the keys unique, and every member is the new
      one or an old one. */
  lemma {:induction false} SetMemberKeys(ms: seq<Member>, key: string, value: Json)
    requires UniqueKeys(ms)
    ensures UniqueKeys(SetMember(ms, key, value))
    ensures forall i :: 0 <= i < |SetMember(ms, key, value)| ==>
      SetMember(ms, key, value)[i] == Member(key, value) || SetMember(ms, key, value)[i] in ms
    decreases |ms|
  {
    SetMemberFrom(ms, key, value);
    var r := SetMember(ms, key, value);
    if |ms| > 0 {
      var tail := ms[1..];
      if ms[0].key == key {
        assert r == [Member(key, value)] + tail;
        assert forall i :: 1 <= i < |r| ==> r[i] == ms[i];
      } else {
        SetMemberKeys(tail, key, value);
        var rt := SetMember(tail, key, value);
        assert r == [ms[0]] + rt;
        forall i | 1 <= i < |r|
          ensures r[i].key != ms[0].key
        {
          assert r[i] == rt[i - 1];
        }
      }
    }
  }

  /** Every member after setting is the new one or an old one. */
  lemma {:induction false} SetMemberFrom(ms: seq<Member>, key: string, value: Json)
    ensures forall i :: 0 <= i < |SetMember(ms, key, value)| ==>
      SetMember(ms, key, value)[i] == Member(key, value) || SetMember(ms, key, value)[i] in ms
    decreases |ms|
  {
    if |ms| > 0 && ms[0].key != key {
      SetMemberFrom(ms[1..], key, value);
      assert forall m :: m in ms[1..] ==> m in ms;
    }
  }

  /** Setting a well-formed value keeps an object well-formed. */
  lemma SetMemberWellFormed(ms: seq<Member>, key: string, value: Json)
    requires WellFormed(JObj(ms)) && WellFormed(value)
    ensures WellFormed(JObj(SetMember(ms, key, value)))
  {
    SetMemberKeys(ms, key, value);
    var r := SetMember(ms, key, value);
    forall i | 0 <= i < |r|
      ensures WellFormed(r[i].value)
    {
      if r[i] != Member(key, value) {
        var m :| 0 <= m < |ms| && ms[m] == r[i];
      }
    }
  }

  /** The own enumerable properties `{...v}` copies out of a value. */
  function SpreadMembers(v: Json): (r: seq<Member>)
    ensures v.JObj? ==> r == v.members
  {
    match v
    case JObj(ms) => ms
    case JArr(xs) => seq(|xs|, i requires 0 <= i < |xs| => Member(NatToString(i), xs[i]))
    case JStr(s) => seq(|s|, i requires 0 <= i < |s| => Member(NatToString(i), JStr([s[i]])))
    case _ => []
  }
}
