/** The text primitives the /proc readers are made of. */
module Text {
  import opened Common

  /** What a reader of untrusted text can do: panic on a bad slice, give up, or parse. */
  datatype Outcome<+T> = Panics | Fails | Parses(value: T)

  function Find(s: string, c: char): (r: Option<nat>)
    ensures r.Some? ==> r.value < |s| && s[r.value] == c && c !in s[..r.value]
    ensures r.None? ==> c !in s
  {
    if |s| == 0 then None
    else if s[0] == c then Some(0)
    else match Find(s[1..], c)
      case None => None
      case Some(i) =>
        assert s[..i + 1] == [s[0]] + s[1..][..i];
        Some(i + 1)
  }

  function RFind(s: string, c: char): (r: Option<nat>)
    ensures r.Some? ==> r.value < |s| && s[r.value] == c && c !in s[r.value + 1..]
    ensures r.None? ==> c !in s
  {
    if |s| == 0 then None
    else if s[|s| - 1] == c then Some(|s| - 1)
    else
      var r := RFind(s[..|s| - 1], c);
      assert s == s[..|s| - 1] + [s[|s| - 1]];
      assert r.Some? ==> s[r.value + 1..] == s[..|s| - 1][r.value + 1..] + [s[|s| - 1]];
      r
  }

  lemma FindIs(s: string, c: char, k: nat)
    requires k < |s| && s[k] == c && forall j | 0 <= j < k :: s[j] != c
    ensures Find(s, c) == Some(k)
  {
    assert forall i | k < i <= |s| :: s[..i][k] == c;
  }

  lemma RFindIs(s: string, c: char, k: nat)
    requires k < |s| && s[k] == c && forall j | k < j < |s| :: s[j] != c
    ensures RFind(s, c) == Some(k)
  {
    assert forall i | 0 <= i <= k :: s[i..][k - i] == c;
  }

  /** Three texts with a separator character between each. */
  function Join3(a: string, c: char, b: string, d: char, e: string): string {
    a + [c] + b + [d] + e
  }

  ghost predicate IsJoin3(s: string, a: string, c: char, b: string, d: char, e: string) {
    && |s| == |a| + 1 + |b| + 1 + |e| && s[|a|] == c && s[|a| + 1 + |b|] == d
    && (forall j | 0 <= j < |a| :: s[j] == a[j])
    && s[|a| + 1..|a| + 1 + |b|] == b
    && s[|a| + 2 + |b|..] == e
    && forall j | 0 <= j < |e| :: s[|a| + 2 + |b| + j] == e[j]
  }

  lemma Join3Parts(a: string, c: char, b: string, d: char, e: string)
    ensures IsJoin3(Join3(a, c, b, d, e), a, c, b, d, e)
  {
  }

  /** The Unicode White_Space property. */
  predicate IsWhitespace(c: char) {
    || '\t' <= c <= '\r' || c == ' ' || c == '\U{85}' || c == '\U{A0}' || c == '\U{1680}'
    || '\U{2000}' <= c <= '\U{200A}' || c == '\U{2028}' || c == '\U{2029}' || c == '\U{202F}'
    || c == '\U{205F}' || c == '\U{3000}'
  }

  function SkipSpace(s: string): (r: string)
    ensures |r| <= |s| && (|r| > 0 ==> !IsWhitespace(r[0]))
  {
    if |s| == 0 || !IsWhitespace(s[0]) then s else SkipSpace(s[1..])
  }

  function TokenLength(s: string): (n: nat)
    ensures n <= |s| && (|s| > 0 && !IsWhitespace(s[0]) ==> n > 0)
  {
    if |s| == 0 || IsWhitespace(s[0]) then 0 else 1 + TokenLength(s[1..])
  }

  /** `split_whitespace` */
  function SplitWhitespace(s: string): seq<string>
    decreases |s|
  {
    var t := SkipSpace(s);
    if |t| == 0 then [] else
      var n := TokenLength(t);
      [t[..n]] + SplitWhitespace(t[n..])
  }

  predicate IsToken(s: string) {
    |s| > 0 && forall i | 0 <= i < |s| :: !IsWhitespace(s[i])
  }

  /** Every token preceded by one space. */
  function Spaced(tokens: seq<string>): string {
    if |tokens| == 0 then "" else " " + tokens[0] + Spaced(tokens[1..])
  }

  lemma {:induction false} TokenEnds(token: string, rest: string)
    requires forall i | 0 <= i < |token| :: !IsWhitespace(token[i])
    requires |rest| > 0 ==> IsWhitespace(rest[0])
    ensures TokenLength(token + rest) == |token|
  {
    if |token| == 0 {
      assert token + rest == rest;
    } else {
      assert (token + rest)[1..] == token[1..] + rest;
      TokenEnds(token[1..], rest);
    }
  }

  lemma SplitSkipsOne(s: string)
    requires |s| > 0 && IsWhitespace(s[0])
    ensures SplitWhitespace(s) == SplitWhitespace(s[1..])
  {
  }

  lemma SplitAtToken(t: string)
    requires |t| > 0 && !IsWhitespace(t[0])
    ensures SplitWhitespace(t) == [t[..TokenLength(t)]] + SplitWhitespace(t[TokenLength(t)..])
  {
  }

  lemma SpaceInFront(token: string, rest: string)
    ensures " " + token + rest == [' '] + (token + rest)
  {
  }

  lemma SplitOne(token: string, rest: string)
    requires IsToken(token) && (|rest| > 0 ==> IsWhitespace(rest[0]))
    ensures SplitWhitespace(" " + token + rest) == [token] + SplitWhitespace(rest)
  {
    var t := token + rest;
    SpaceInFront(token, rest);
    SplitSkipsOne([' '] + t);
    assert ([' '] + t)[1..] == t && t[0] == token[0];
    TokenEnds(token, rest);
    SplitAtToken(t);
    assert t[..|token|] == token && t[|token|..] == rest;
  }

  lemma SpacedStep(tokens: seq<string>, tail: string)
    requires |tokens| > 0
    ensures Spaced(tokens) + tail == " " + tokens[0] + (Spaced(tokens[1..]) + tail)
  {
  }

  lemma Reattach(tokens: seq<string>, more: seq<string>)
    requires |tokens| > 0
    ensures [tokens[0]] + (tokens[1..] + more) == tokens + more
  {
  }

  /** Splitting undoes spacing. */
  lemma {:induction false} SplitSpaced(tokens: seq<string>, tail: string)
    requires forall i | 0 <= i < |tokens| :: IsToken(tokens[i])
    requires |tail| > 0 ==> IsWhitespace(tail[0])
    ensures SplitWhitespace(Spaced(tokens) + tail) == tokens + SplitWhitespace(tail)
    decreases |tokens|
  {
    if |tokens| == 0 {
      assert Spaced(tokens) + tail == tail;
      assert tokens + SplitWhitespace(tail) == SplitWhitespace(tail);
    } else {
      SplitSpaced(tokens[1..], tail);
      SplitOne(tokens[0], Spaced(tokens[1..]) + tail);
      SpacedStep(tokens, tail);
      Reattach(tokens, SplitWhitespace(tail));
    }
  }

  // ---------------------------------------------------------------------------------
  // Decimal numbers.

  predicate IsDigit(c: char) {
    '0' <= c <= '9'
  }

  predicate AllDigits(s: string) {
    forall i | 0 <= i < |s| :: IsDigit(s[i])
  }

  function Value(s: string): nat
    requires AllDigits(s)
  {
    if |s| == 0 then 0 else Value(s[..|s| - 1]) * 10 + (s[|s| - 1] - '0') as int
  }

  function Digit(d: nat): char
    requires d < 10
  {
    '0' + d as char
  }

  function Decimal(n: nat): string {
    if n < 10 then [Digit(n)] else Decimal(n / 10) + [Digit(n % 10)]
  }

  /** `parse` at an unsigned type: an optional plus sign, digits, no overflow. */
  function ParseUnsigned(s: string, limit: nat): Option<nat> {
    var digits := if |s| > 0 && s[0] == '+' then s[1..] else s;
    if |digits| > 0 && AllDigits(digits) && Value(digits) < limit then Some(Value(digits)) else None
  }

  /** `parse` at `i32`. */
  function ParseI32(s: string): Option<int> {
    if |s| > 0 && s[0] == '-' then
      var digits := s[1..];
      if |digits| > 0 && AllDigits(digits) && Value(digits) <= 0x8000_0000 then
        var n: int := Value(digits);
        Some(-n)
      else None
    else match ParseUnsigned(s, 0x8000_0000)
      case None => None
      case Some(n) => Some(n)
  }

  function DecimalInt(n: int): string {
    if n < 0 then "-" + Decimal(-n) else Decimal(n)
  }

  lemma {:induction false} DecimalIsDigits(n: nat)
    ensures AllDigits(Decimal(n)) && |Decimal(n)| > 0 && Value(Decimal(n)) == n
  {
    if n < 10 {
      assert Decimal(n)[..0] == [];
    } else {
      DecimalIsDigits(n / 10);
      assert Decimal(n)[..|Decimal(n)| - 1] == Decimal(n / 10);
    }
  }

  /** A printed number is read back if and only if it fits. */
  lemma ParseDecimal(n: nat, limit: nat)
    ensures ParseUnsigned(Decimal(n), limit) == if n < limit then Some(n) else None
    ensures ParseI32(Decimal(n)) == if n < 0x8000_0000 then Some(n) else None
  {
    DecimalIsDigits(n);
    assert IsDigit(Decimal(n)[0]);
  }

  lemma ParseMinus(s: string, digits: string)
    requires |s| > 0 && s[0] == '-' && s[1..] == digits && |digits| > 0 && AllDigits(digits)
    ensures ParseI32(s) == if Value(digits) <= 0x8000_0000 then Some(-(Value(digits) as int)) else None
  {
  }

  lemma MinusFirst(n: int)
    requires n < 0
    ensures |DecimalInt(n)| > 0 && DecimalInt(n)[0] == '-' && DecimalInt(n)[1..] == Decimal(-n)
  {
  }

  /** A signed number likewise. */
  lemma ParseDecimalInt(n: int)
    ensures ParseI32(DecimalInt(n)) == if -0x8000_0000 <= n < 0x8000_0000 then Some(n) else None
  {
    if n < 0 {
      MinusFirst(n);
      DecimalIsDigits(-n);
      ParseMinus(DecimalInt(n), Decimal(-n));
    } else {
      ParseDecimal(n, 0x8000_0000);
    }
  }

  lemma DecimalIntIsToken(n: int, c: char)
    requires !IsDigit(c) && c != '-'
    ensures IsToken(DecimalInt(n)) && c !in DecimalInt(n)
  {
    DecimalIsDigits(if n < 0 then -n else n);
  }
}
