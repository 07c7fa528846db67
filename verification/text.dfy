/** The pieces of Go's standard library that the selection menu and the
    listings rely on: unicode.IsSpace, strings.TrimSpace, strings.Fields,
    strconv.ParseInt(s, 10, 64), the decimal form printed by %d and the
    space padding of fmt's %Ns / %-Ns verbs. Strings are sequences of
    Unicode code points. */
module Text {

  datatype Option<T> = None | Some(value: T)

  /** unicode.IsSpace: the characters with the Unicode White_Space property,
      U+0009..U+000D, U+0020, U+0085, U+00A0, U+1680, U+2000..U+200A,
      U+2028, U+2029, U+202F, U+205F and U+3000. */
  predicate IsSpace(c: char) {
    var n := c as int;
    if n < 0x85 then 9 <= n <= 13 || n == 32 else RareSpace(n)
  }

  /** The White_Space characters from U+0085 upwards. */
  predicate RareSpace(n: int) {
    n == 0x85 || n == 0xA0 || n == 0x1680
    || (0x2000 <= n <= 0x200A) || n == 0x2028 || n == 0x2029 || n == 0x202F || n == 0x205F || n == 0x3000
  }

  /** A field of strings.Fields: non-empty and free of white space. */
  predicate IsToken(t: string) {
    t != [] && forall i :: 0 <= i < |t| ==> !IsSpace(t[i])
  }

  /** s without its leading white space. */
  function TrimLeft(s: string): (r: string)
    ensures |r| <= |s| && (r == [] || !IsSpace(r[0]))
  {
    if s != [] && IsSpace(s[0]) then TrimLeft(s[1..]) else s
  }

  /** s without its trailing white space. */
  function TrimRight(s: string): (r: string)
    ensures |r| <= |s| && (r == [] || !IsSpace(r[|r| - 1]))
  {
    if s != [] && IsSpace(s[|s| - 1]) then TrimRight(s[..|s| - 1]) else s
  }

  /** TrimLeft drops exactly a run of white space from the front. */
  lemma {:induction false} TrimLeftShape(s: string)
    ensures var r := TrimLeft(s);
            r == s[|s| - |r|..] && forall i :: 0 <= i < |s| - |r| ==> IsSpace(s[i])
  {
    if s != [] && IsSpace(s[0]) {
      TrimLeftShape(s[1..]);
    }
  }

  /** TrimRight drops exactly a run of white space from the back. */
  lemma {:induction false} TrimRightShape(s: string)
    ensures var r := TrimRight(s);
            r == s[..|r|] && forall i :: |r| <= i < |s| ==> IsSpace(s[i])
  {
    if s != [] && IsSpace(s[|s| - 1]) {
      TrimRightShape(s[..|s| - 1]);
    }
  }

  /** strings.TrimSpace: drops the leading and trailing white space. */
  function TrimSpace(s: string): (r: string)
    ensures r == [] || (!IsSpace(r[0]) && !IsSpace(r[|r| - 1]))
  {
    TrimRightShape(TrimLeft(s));
    TrimRight(TrimLeft(s))
  }

  /** What TrimSpace leaves is the middle of s, starting at lo, with only
      white space on either side of it. */
  lemma TrimSpaceShape(s: string)
    ensures var r := TrimSpace(s); var lo := |s| - |TrimLeft(s)|;
            lo + |r| <= |s| && r == s[lo..lo + |r|]
            && (forall i :: 0 <= i < lo ==> IsSpace(s[i]))
            && (forall i :: lo + |r| <= i < |s| ==> IsSpace(s[i]))
  {
    var t := TrimLeft(s);
    TrimLeftShape(s);
    TrimRightShape(t);
    SliceOfSuffix(s, t, TrimRight(t));
  }

  /** For t a suffix of s and r a prefix of t: r sits in s right where t
      begins, and whatever of s follows r is what of t follows r. */
  lemma SliceOfSuffix(s: string, t: string, r: string)
    requires |t| <= |s| && t == s[|s| - |t|..]
    requires |r| <= |t| && r == t[..|r|]
    ensures var lo := |s| - |t|;
            r == s[lo..lo + |r|] && forall i :: lo + |r| <= i < |s| ==> s[i] == t[i - lo]
  {
  }

  /** Trimming text that has no white space at either end leaves it as it is;
      in particular TrimSpace is idempotent. */
  lemma TrimSpaceOfTrimmed(s: string)
    requires s == [] || (!IsSpace(s[0]) && !IsSpace(s[|s| - 1]))
    ensures TrimSpace(s) == s
  {
  }

  lemma {:induction false} TrimLeftSpaces(k: nat, t: string)
    requires t == [] || !IsSpace(t[0])
    ensures TrimLeft(Repeat(' ', k) + t) == t
  {
    if k > 0 {
      assert (Repeat(' ', k) + t)[1..] == Repeat(' ', k - 1) + t;
      TrimLeftSpaces(k - 1, t);
    } else {
      assert Repeat(' ', k) + t == t;
    }
  }

  /** The length of the leading token of t: the index of its first white
      space character, or |t| when it has none. */
  function TokenEnd(t: string): (k: nat)
    ensures k <= |t|
    ensures k < |t| ==> IsSpace(t[k])
  {
    if t == [] || IsSpace(t[0]) then 0 else 1 + TokenEnd(t[1..])
  }

  /** Everything before TokenEnd(t) is a non-space character. */
  lemma {:induction false} TokenEndRun(t: string)
    ensures forall i :: 0 <= i < TokenEnd(t) ==> !IsSpace(t[i])
  {
    if t != [] && !IsSpace(t[0]) {
      TokenEndRun(t[1..]);
    }
  }

  /** strings.Fields: the maximal runs of non-space characters, in order. */
  function Fields(s: string): seq<string>
    decreases |s|
  {
    var t := TrimLeft(s);
    if t == [] then []
    else
      var k := TokenEnd(t);
      [t[..k]] + Fields(t[k..])
  }

  /** Every field is non-empty and free of white space. */
  lemma {:induction false} FieldsAreTokens(s: string)
    ensures forall i :: 0 <= i < |Fields(s)| ==> IsToken(Fields(s)[i])
    decreases |s|
  {
    var t := TrimLeft(s);
    if t != [] {
      TokenEndRun(t);
      FieldsAreTokens(t[TokenEnd(t)..]);
    }
  }

  /** Tokens written out with one blank between neighbours. */
  function JoinSpaced(ts: seq<string>): string
  {
    if ts == [] then []
    else if |ts| == 1 then ts[0]
    else ts[0] + " " + JoinSpaced(ts[1..])
  }

  lemma FieldsSkipsSpace(rest: string)
    ensures Fields(" " + rest) == Fields(rest)
  {
    assert (" " + rest)[1..] == rest;
  }

  lemma FieldsOfTokenThen(t: string, rest: string)
    requires IsToken(t)
    requires rest == [] || rest[0] == ' '
    ensures Fields(t + rest) == [t] + Fields(rest)
  {
    var s := t + rest;
    assert s[0] == t[0];
    assert TrimLeft(s) == s;
    assert s[..|t|] == t;
    assert s[|t|..] == rest;
    assert |t| < |s| ==> IsSpace(s[|t|]);
    TokenEndRun(s);
    assert TokenEnd(s) == |t|;
  }

  /** Fields undoes JoinSpaced: splitting on white space recovers the tokens. */
  lemma {:induction false} FieldsOfJoin(ts: seq<string>)
    requires forall i :: 0 <= i < |ts| ==> IsToken(ts[i])
    ensures Fields(JoinSpaced(ts)) == ts
  {
    if ts == [] {
    } else if |ts| == 1 {
      FieldsOfTokenThen(ts[0], []);
      assert ts[0] + [] == ts[0];
    } else {
      var rest := JoinSpaced(ts[1..]);
      assert JoinSpaced(ts) == ts[0] + (" " + rest);
      FieldsOfTokenThen(ts[0], " " + rest);
      FieldsSkipsSpace(rest);
      FieldsOfJoin(ts[1..]);
    }
  }

  /** A string made of n copies of c (strings.Repeat). The count is a
      nat: strings.Repeat panics on a negative count, and alignCenter only
      passes counts that are at least zero. */
  function Repeat(c: char, n: nat): (r: string)
    ensures |r| == n
  {
    if n == 0 then [] else [c] + Repeat(c, n - 1)
  }

  /** Every character of Repeat(c, n) is c. */
  lemma {:induction false} RepeatIsAll(c: char, n: nat)
    ensures forall i :: 0 <= i < |Repeat(c, n)| ==> Repeat(c, n)[i] == c
    decreases n
  {
    if n > 0 {
      RepeatIsAll(c, n - 1);
    }
  }

  /** The number of blanks fmt adds to s in a field of width w: none when
      s already fills it. */
  function PadCount(s: string, w: nat): nat
  {
    if |s| < w then w - |s| else 0
  }

  /** fmt's %<w>s: right-aligns s in a field of width w, padding with
      spaces; never truncates. */
  function PadLeft(s: string, w: nat): (r: string)
    ensures |r| == if |s| < w then w else |s|
  {
    Repeat(' ', PadCount(s, w)) + s
  }

  /** fmt's %-<w>s: left-aligns s in a field of width w, padding with
      spaces; never truncates. */
  function PadRight(s: string, w: nat): (r: string)
    ensures |r| == if |s| < w then w else |s|
  {
    s + Repeat(' ', PadCount(s, w))
  }

  /** The padded field holds s at the aligned end and spaces elsewhere. */
  lemma PadShapes(s: string, w: nat)
    ensures var r := PadLeft(s, w);
            r[|r| - |s|..] == s && forall i :: 0 <= i < |r| - |s| ==> r[i] == ' '
    ensures var r := PadRight(s, w);
            r[..|s|] == s && forall i :: |s| <= i < |r| ==> r[i] == ' '
  {
    RepeatIsAll(' ', PadCount(s, w));
  }

  predicate IsDigit(c: char) {
    '0' <= c <= '9'
  }

  /** Every character of s is an ASCII digit. */
  predicate AllDigits(s: string) {
    s == [] || (IsDigit(s[|s| - 1]) && AllDigits(s[..|s| - 1]))
  }

  lemma {:induction false} AllDigitsAt(s: string)
    ensures AllDigits(s) <==> forall i :: 0 <= i < |s| ==> IsDigit(s[i])
  {
    if s != [] {
      AllDigitsAt(s[..|s| - 1]);
    }
  }

  function DigitChar(d: nat): (c: char)
    requires d < 10
    ensures IsDigit(c) && (c as int) - ('0' as int) == d
  {
    (('0' as int) + d) as char
  }

  /** The base-10 value of a string of ASCII digits. */
  function DigitsValue(s: string): nat
    requires AllDigits(s)
  {
    if s == [] then 0
    else DigitsValue(s[..|s| - 1]) * 10 + ((s[|s| - 1] as int) - ('0' as int))
  }

  /** The decimal form of n that %d and strconv print: no sign, no leading zero. */
  function NatToString(n: nat): (r: string)
    ensures r != [] && AllDigits(r)
    ensures r[0] == '0' ==> n == 0
    decreases n
  {
    if n < 10 then [DigitChar(n)]
    else
      var r := NatToString(n / 10) + [DigitChar(n % 10)];
      assert r[..|r| - 1] == NatToString(n / 10);
      r
  }

  /** The decimal form of a number is a single field. */
  lemma NatToStringIsToken(n: nat)
    ensures IsToken(NatToString(n))
  {
    AllDigitsAt(NatToString(n));
  }

  lemma {:induction false} NatToStringValue(n: nat)
    ensures DigitsValue(NatToString(n)) == n
    decreases n
  {
    var r := NatToString(n);
    if n >= 10 {
      NatToStringValue(n / 10);
      assert r[..|r| - 1] == NatToString(n / 10);
    } else {
      assert r[..|r| - 1] == [];
    }
  }

  const MinInt64: int := -0x8000_0000_0000_0000
  const MaxInt64: int := 0x7FFF_FFFF_FFFF_FFFF

  /** strconv.ParseInt(s, 10, 64): an optional '+' or '-' followed by one or
      more ASCII digits whose value fits in 64 bits; None is the error
      return (syntax error or out of range). */
  function ParseInt(s: string): (r: Option<int>)
    ensures r.Some? ==> MinInt64 <= r.value <= MaxInt64
  {
    if s == [] then None
    else
      var neg := s[0] == '-';
      var digits := if s[0] == '+' || s[0] == '-' then s[1..] else s;
      if digits == [] || !AllDigits(digits) then None
      else
        var v: int := if neg then -(DigitsValue(digits) as int) else DigitsValue(digits);
        if MinInt64 <= v <= MaxInt64 then Some(v) else None
  }

  /** What %d prints, strconv.ParseInt reads back. */
  lemma ParseIntOfNatToString(n: nat)
    requires n <= MaxInt64
    ensures ParseInt(NatToString(n)) == Some(n)
  {
    AllDigitsAt(NatToString(n));
    NatToStringValue(n);
  }
}
