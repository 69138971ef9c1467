/** Character and string helpers shared by the model: ASCII case mapping,
    the whitespace sets recognised by `trim()`, `\s` and Python's `strip()`, substring
    search, splitting and joining on one character, literal replace-all and
    decimal rendering of numbers.

    Only ASCII case mapping is modelled; the Unicode case tables of the
    JavaScript and Python runtimes are not. */
module Strs {

  /** Whitespace recognised by `String.prototype.trim` and the
      regular-expression class `\s`: the ECMAScript WhiteSpace and
      LineTerminator characters (tab, line feed, vertical tab, form feed,
      carriage return, space, no-break space, ogham space mark, the
      U+2000..U+200A spaces, line and paragraph separators, narrow no-break
      space, medium mathematical space, ideographic space and the byte
      order mark). */
  predicate IsSpace(c: char) {
    c == ' ' || c == '\t' || c == '\n' || c == '\r' || c == '\U{B}' || c == '\U{C}' ||
    c == '\U{A0}' || c == '\U{1680}' || ('\U{2000}' <= c <= '\U{200A}') ||
    c == '\U{2028}' || c == '\U{2029}' || c == '\U{202F}' || c == '\U{205F}' ||
    c == '\U{3000}' || c == '\U{FEFF}'
  }

  predicate IsUpper(c: char) { 'A' <= c <= 'Z' }
  predicate IsLower(c: char) { 'a' <= c <= 'z' }
  predicate IsDigit(c: char) { '0' <= c <= '9' }
  predicate IsQuote(c: char) { c == '\'' || c == '"' }

  /** Characters of the class `[a-z0-9]`. */
  predicate IsLowerAlnum(c: char) { IsLower(c) || IsDigit(c) }

  /** Characters of the class `[a-zA-Z0-9]`. */
  predicate IsAlnum(c: char) { IsLower(c) || IsUpper(c) || IsDigit(c) }

  function LowerChar(c: char): (r: char)
    ensures !IsUpper(r)
    ensures IsUpper(c) || r == c
  {
    if IsUpper(c) then (c as int + 32) as char else c
  }

  function UpperChar(c: char): (r: char)
    ensures !IsLower(r)
    ensures IsLower(c) || r == c
  {
    if IsLower(c) then (c as int - 32) as char else c
  }

  /** `toLowerCase()` / `lower()` on the ASCII range. */
  function ToLower(s: string): (r: string)
    ensures |r| == |s|
    ensures forall i :: 0 <= i < |r| ==> r[i] == LowerChar(s[i])
  {
    seq(|s|, i requires 0 <= i < |s| => LowerChar(s[i]))
  }

  /** `toUpperCase()` / `upper()` on the ASCII range. */
  function ToUpper(s: string): (r: string)
    ensures |r| == |s|
    ensures forall i :: 0 <= i < |r| ==> r[i] == UpperChar(s[i])
  {
    seq(|s|, i requires 0 <= i < |s| => UpperChar(s[i]))
  }

  /** Replaces every character outside `[a-z0-9]` by `fill` (after the
      caller has lower-cased), as `replace(/[^a-z0-9]/g, fill)` does. */
  function SlugChars(s: string, fill: char): (r: string)
    ensures |r| == |s|
    ensures forall i :: 0 <= i < |r| ==> (if IsLowerAlnum(s[i]) then r[i] == s[i] else r[i] == fill)
  {
    seq(|s|, i requires 0 <= i < |s| => if IsLowerAlnum(s[i]) then s[i] else fill)
  }

  /** Replaces every character outside `[a-zA-Z0-9]` by `fill`. */
  function AlnumChars(s: string, fill: char): (r: string)
    ensures |r| == |s|
    ensures forall i :: 0 <= i < |r| ==> (if IsAlnum(s[i]) then r[i] == s[i] else r[i] == fill)
  {
    seq(|s|, i requires 0 <= i < |s| => if IsAlnum(s[i]) then s[i] else fill)
  }

  /** Replaces every occurrence of the character `a` by `b`. */
  function ReplaceChar(s: string, a: char, b: char): (r: string)
    ensures |r| == |s|
    ensures forall i :: 0 <= i < |r| ==> r[i] == (if s[i] == a then b else s[i])
  {
    seq(|s|, i requires 0 <= i < |s| => if s[i] == a then b else s[i])
  }

  /** `s.endsWith(suffix)`. */
  predicate EndsWith(s: string, suffix: string) {
    |suffix| <= |s| && s[|s| - |suffix|..] == suffix
  }

  /** `s.includes(sub)` / Python `sub in s`: some position of `s` starts
      with `sub`. */
  predicate Contains(s: string, sub: string)
    decreases |s|
  {
    sub <= s || (|s| > 0 && Contains(s[1..], sub))
  }

  lemma {:induction false} ContainsAt(s: string, sub: string, i: nat)
    requires i + |sub| <= |s| && s[i..i + |sub|] == sub
    ensures Contains(s, sub)
    decreases i
  {
    if i == 0 {
      assert sub <= s;
    } else {
      assert s[1..][i - 1..i - 1 + |sub|] == s[i..i + |sub|];
      ContainsAt(s[1..], sub, i - 1);
    }
  }

  lemma {:induction false} ContainsWitness(s: string, sub: string) returns (i: nat)
    requires Contains(s, sub)
    ensures i + |sub| <= |s| && s[i..i + |sub|] == sub
    decreases |s|
  {
    if sub <= s {
      i := 0;
    } else {
      var j := ContainsWitness(s[1..], sub);
      assert s[1..][j..j + |sub|] == s[j + 1..j + 1 + |sub|];
      i := j + 1;
    }
  }

  /** A string that contains a non-empty `sub` contains its first character. */
  lemma ContainsFirstChar(s: string, sub: string)
    requires |sub| > 0 && Contains(s, sub)
    ensures sub[0] in s
  {
    var i := ContainsWitness(s, sub);
    assert s[i] == s[i..i + |sub|][0];
  }

  /** Index of the first `c` in `s`, or -1 (`indexOf`). */
  function IndexOf(s: string, c: char): (r: int)
    ensures -1 <= r < |s|
    ensures r == -1 <==> c !in s
    ensures r >= 0 ==> s[r] == c && c !in s[..r]
    decreases |s|
  {
    if |s| == 0 then -1
    else if s[0] == c then 0
    else
      var k := IndexOf(s[1..], c);
      assert s[1..] == s[1..];
      if k == -1 then -1
      else
        assert s[..k + 1] == [s[0]] + s[1..][..k];
        k + 1
  }

  /** Splits on every occurrence of `c`, keeping empty pieces
      (`split(c)` in JavaScript and Python). */
  function SplitOn(s: string, c: char): (r: seq<string>)
    ensures |r| >= 1
    ensures forall p :: p in r ==> c !in p
    decreases |s|
  {
    var i := IndexOf(s, c);
    if i == -1 then [s]
    else [s[..i]] + SplitOn(s[i + 1..], c)
  }

  /** The first `c` of `a + b` is the head of `b` when `a` has none. */
  lemma IndexOfAfter(a: string, b: string, c: char)
    requires c !in a && |b| > 0 && b[0] == c
    ensures IndexOf(a + b, c) == |a|
  {
    var s := a + b;
    var r := IndexOf(s, c);
    assert s[|a|] == c;
  }

  /** Joins pieces with the separator `c` (`join(c)`). */
  function JoinWith(parts: seq<string>, c: char): string
    decreases |parts|
  {
    if |parts| == 0 then ""
    else if |parts| == 1 then parts[0]
    else parts[0] + [c] + JoinWith(parts[1..], c)
  }

  /** Splitting and re-joining on the same character gives back the input. */
  lemma {:induction false} JoinSplit(s: string, c: char)
    ensures JoinWith(SplitOn(s, c), c) == s
    decreases |s|
  {
    var i := IndexOf(s, c);
    if i != -1 {
      var rest := SplitOn(s[i + 1..], c);
      JoinSplit(s[i + 1..], c);
      JoinCons(s[..i], rest, c);
      assert s == s[..i] + [c] + s[i + 1..];
    }
  }

  /** Joining one more piece in front adds it and a separator. */
  lemma JoinCons(p: string, rest: seq<string>, c: char)
    requires |rest| >= 1
    ensures JoinWith([p] + rest, c) == p + [c] + JoinWith(rest, c)
  {
    assert ([p] + rest)[1..] == rest;
  }

  /** Joining pieces free of `c` and splitting again gives back the pieces. */
  lemma {:induction false} SplitJoin(parts: seq<string>, c: char)
    requires |parts| >= 1
    requires forall p :: p in parts ==> c !in p
    ensures SplitOn(JoinWith(parts, c), c) == parts
    decreases |parts|
  {
    if |parts| == 1 {
      assert c !in parts[0];
    } else {
      var tail := JoinWith(parts[1..], c);
      var s := parts[0] + [c] + tail;
      assert c !in parts[0];
      assert s[|parts[0]|] == c;
      assert s[..|parts[0]|] == parts[0];
      assert IndexOf(s, c) == |parts[0]|;
      assert s[|parts[0]| + 1..] == tail;
      SplitJoin(parts[1..], c);
      assert parts == [parts[0]] + parts[1..];
    }
  }

  predicate NoEmpty(ts: seq<string>) {
    forall t :: t in ts ==> t != ""
  }

  /** The non-empty strings of a list, in order (`filter(Boolean)`). */
  function NonEmpty(ps: seq<string>): (r: seq<string>)
    ensures NoEmpty(r)
    ensures |r| <= |ps|
    ensures forall p :: p in r ==> p in ps
  {
    if |ps| == 0 then []
    else if ps[0] == "" then NonEmpty(ps[1..])
    else [ps[0]] + NonEmpty(ps[1..])
  }

  /** Filtering a list without empty strings keeps it whole. */
  lemma {:induction false} NonEmptyNoop(ps: seq<string>)
    requires NoEmpty(ps)
    ensures NonEmpty(ps) == ps
    decreases |ps|
  {
    if |ps| > 0 {
      assert ps[0] in ps;
      assert forall p :: p in ps[1..] ==> p in ps;
      NonEmptyNoop(ps[1..]);
      assert ps == [ps[0]] + ps[1..];
    }
  }

  /** Python's whitespace for `str.strip()` and `str.split()`: the
      JavaScript set without the byte order mark, plus the information
      separators U+001C..U+001F and next line U+0085. */
  predicate IsPySpace(c: char) {
    (IsSpace(c) && c != '\U{FEFF}') || ('\U{1C}' <= c <= '\U{1F}') || c == '\U{85}'
  }

  /** Strips leading characters of the class `sp`. */
  function StripStart(s: string, sp: char -> bool): (r: string)
    ensures |r| <= |s| && r == s[|s| - |r|..]
    ensures forall i :: 0 <= i < |s| - |r| ==> sp(s[i])
    ensures |r| > 0 ==> !sp(r[0])
    decreases |s|
  {
    if |s| > 0 && sp(s[0]) then StripStart(s[1..], sp) else s
  }

  /** Strips trailing characters of the class `sp`. */
  function StripEnd(s: string, sp: char -> bool): (r: string)
    ensures |r| <= |s| && r == s[..|r|]
    ensures forall i :: |r| <= i < |s| ==> sp(s[i])
    ensures |r| > 0 ==> !sp(r[|r| - 1])
    decreases |s|
  {
    if |s| > 0 && sp(s[|s| - 1]) then StripEnd(s[..|s| - 1], sp) else s
  }

  /** The input without leading or trailing characters of the class `sp`. */
  function Strip(s: string, sp: char -> bool): (r: string)
    ensures |r| > 0 ==> !sp(r[0]) && !sp(r[|r| - 1])
    ensures var k := |s| - |StripStart(s, sp)|;
      k + |r| <= |s| && r == s[k..k + |r|] &&
      (forall i :: 0 <= i < k ==> sp(s[i])) &&
      (forall i :: k + |r| <= i < |s| ==> sp(s[i]))
  {
    var t := StripStart(s, sp);
    var r := StripEnd(t, sp);
    StripSlices(s, t, r, sp);
    r
  }

  /** Where the stripped text sits inside the input: `t` is a suffix of
      `s` and `r` a prefix of `t` followed only by characters of `sp`. */
  lemma StripSlices(s: string, t: string, r: string, sp: char -> bool)
    requires |t| <= |s| && t == s[|s| - |t|..]
    requires |r| <= |t| && r == t[..|r|]
    requires forall i :: |r| <= i < |t| ==> sp(t[i])
    ensures var k := |s| - |t|;
      r == s[k..k + |r|] && forall i :: k + |r| <= i < |s| ==> sp(s[i])
  {
    var k := |s| - |t|;
    assert r == s[k..][..|r|] == s[k..k + |r|];
    forall i | k + |r| <= i < |s|
      ensures sp(s[i])
    {
      assert s[i] == t[i - k];
    }
  }

  /** A string with no character of `sp` at either end is its own strip. */
  lemma StripNoop(s: string, sp: char -> bool)
    requires |s| == 0 || (!sp(s[0]) && !sp(s[|s| - 1]))
    ensures Strip(s, sp) == s
  {
  }

  /** Stripping discards a space written in front of a string with no
      character of `sp` at either end. */
  lemma StripAfterSpace(v: string, sp: char -> bool)
    requires sp(' ')
    requires |v| == 0 || (!sp(v[0]) && !sp(v[|v| - 1]))
    ensures Strip(" " + v, sp) == v
  {
    var s := " " + v;
    assert s[1..] == v;
    assert StripStart(s, sp) == v by {
      assert StripStart(s, sp) == StripStart(s[1..], sp);
    }
    assert StripEnd(v, sp) == v;
  }

  /** `trim()`: the input without leading or trailing whitespace. */
  function Trim(s: string): (r: string)
    ensures |r| > 0 ==> !IsSpace(r[0]) && !IsSpace(r[|r| - 1])
    ensures var k := |s| - |StripStart(s, IsSpace)|;
      k + |r| <= |s| && r == s[k..k + |r|] &&
      (forall i :: 0 <= i < k ==> IsSpace(s[i])) &&
      (forall i :: k + |r| <= i < |s| ==> IsSpace(s[i]))
  {
    Strip(s, IsSpace)
  }

  /** Python `str.strip()` with no argument. */
  function PyStrip(s: string): (r: string)
    ensures |r| > 0 ==> !IsPySpace(r[0]) && !IsPySpace(r[|r| - 1])
    ensures var k := |s| - |StripStart(s, IsPySpace)|;
      k + |r| <= |s| && r == s[k..k + |r|] &&
      (forall i :: 0 <= i < k ==> IsPySpace(s[i])) &&
      (forall i :: k + |r| <= i < |s| ==> IsPySpace(s[i]))
  {
    Strip(s, IsPySpace)
  }

  /** No whitespace at either end. */
  predicate Trimmed(s: string) {
    |s| == 0 || (!IsSpace(s[0]) && !IsSpace(s[|s| - 1]))
  }

  /** No Python whitespace at either end. */
  predicate PyStripped(s: string) {
    |s| == 0 || (!IsPySpace(s[0]) && !IsPySpace(s[|s| - 1]))
  }

  /** A string with no whitespace at either end is its own trim. */
  lemma TrimNoop(s: string)
    requires Trimmed(s)
    ensures Trim(s) == s
  {
    StripNoop(s, IsSpace);
  }

  /** Trimming discards a space written in front of a trimmed string. */
  lemma TrimAfterSpace(v: string)
    requires Trimmed(v)
    ensures Trim(" " + v) == v
  {
    StripAfterSpace(v, IsSpace);
  }

  lemma PyStripNoop(s: string)
    requires PyStripped(s)
    ensures PyStrip(s) == s
  {
    StripNoop(s, IsPySpace);
  }

  lemma PyStripAfterSpace(v: string)
    requires PyStripped(v)
    ensures PyStrip(" " + v) == v
  {
    StripAfterSpace(v, IsPySpace);
  }

  /** Replaces every non-overlapping occurrence of `pat`, scanning left to
      right (`replace` with a global pattern, Python `str.replace`). */
  function ReplaceAll(s: string, pat: string, rep: string): string
    requires |pat| > 0
    decreases |s|
  {
    if |s| == 0 then ""
    else if pat <= s then rep + ReplaceAll(s[|pat|..], pat, rep)
    else [s[0]] + ReplaceAll(s[1..], pat, rep)
  }

  /** A character absent from the input and the replacement is absent from
      the result. */
  lemma {:induction false} ReplaceAllKeepsOut(s: string, pat: string, rep: string, c: char)
    requires |pat| > 0 && c !in s && c !in rep
    ensures c !in ReplaceAll(s, pat, rep)
    decreases |s|
  {
    if |s| > 0 {
      if pat <= s {
        assert forall x :: x in s[|pat|..] ==> x in s;
        ReplaceAllKeepsOut(s[|pat|..], pat, rep, c);
      } else {
        assert forall x :: x in s[1..] ==> x in s;
        ReplaceAllKeepsOut(s[1..], pat, rep, c);
      }
    }
  }

  /** Replacing a pattern that does not occur changes nothing. */
  lemma {:induction false} ReplaceAllAbsent(s: string, pat: string, rep: string)
    requires |pat| > 0 && !Contains(s, pat)
    ensures ReplaceAll(s, pat, rep) == s
    decreases |s|
  {
    if |s| > 0 {
      ReplaceAllAbsent(s[1..], pat, rep);
      assert s == [s[0]] + s[1..];
    }
  }

  /** Replacing a pattern by itself changes nothing. */
  lemma {:induction false} ReplaceAllSelf(s: string, pat: string)
    requires |pat| > 0
    ensures ReplaceAll(s, pat, pat) == s
    decreases |s|
  {
    if |s| > 0 {
      if pat <= s {
        ReplaceAllSelf(s[|pat|..], pat);
        assert s == pat + s[|pat|..];
      } else {
        ReplaceAllSelf(s[1..], pat);
        assert s == [s[0]] + s[1..];
      }
    }
  }

  function DigitChar(d: nat): (r: char)
    requires d < 10
    ensures IsDigit(r)
  {
    ('0' as int + d) as char
  }

  function DigitValue(c: char): (r: nat)
    requires IsDigit(c)
    ensures r < 10
  {
    c as int - '0' as int
  }

  /** Decimal rendering of a natural number, as `String(n)` / `str(n)`. */
  function NatToString(n: nat): (r: string)
    ensures |r| >= 1
    ensures forall i :: 0 <= i < |r| ==> IsDigit(r[i])
    ensures |r| > 1 ==> r[0] != '0'
    decreases n
  {
    if n < 10 then [DigitChar(n)]
    else NatToString(n / 10) + [DigitChar(n % 10)]
  }

  /** Decimal rendering of an integer, with a leading `-` when negative. */
  function IntToString(n: int): (r: string)
    ensures |r| >= 1
  {
    if n < 0 then "-" + NatToString(-n) else NatToString(n)
  }

  /** The value of a string of decimal digits. */
  function ParseDigits(s: string): nat
    requires forall i :: 0 <= i < |s| ==> IsDigit(s[i])
    decreases |s|
  {
    if |s| == 0 then 0
    else ParseDigits(s[..|s| - 1]) * 10 + DigitValue(s[|s| - 1])
  }

  /** Reading back a rendered natural number gives the number. */
  lemma {:induction false} ParseNatToString(n: nat)
    ensures ParseDigits(NatToString(n)) == n
    decreases n
  {
    if n >= 10 {
      var s := NatToString(n);
      assert s[..|s| - 1] == NatToString(n / 10);
      ParseNatToString(n / 10);
    }
  }

  /** Distinct numbers render to distinct strings. */
  lemma NatToStringInjective(a: nat, b: nat)
    requires NatToString(a) == NatToString(b)
    ensures a == b
  {
    ParseNatToString(a);
    ParseNatToString(b);
  }

  /** `String(n).padStart(2, '0')` for a natural number. */
  function Pad2(n: nat): (r: string)
    ensures |r| >= 2
    ensures forall i :: 0 <= i < |r| ==> IsDigit(r[i])
    ensures ParseDigits(r) == n
  {
    ParseNatToString(n);
    if n < 10 then
      var r := "0" + NatToString(n);
      assert r[..|r| - 1] == "0";
      r
    else NatToString(n)
  }
}
