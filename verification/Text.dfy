// String operations shared by the parsers.
module Text {

  // White_Space of Unicode, which Rust's `char::is_whitespace` uses.
  predicate IsUnicodeSpace(c: char) {
    || '\t' <= c <= '\r' || c == ' ' || c == '\U{0085}' || c == '\U{00A0}' || c == '\U{1680}'
    || '\U{2000}' <= c <= '\U{200A}' || c == '\U{2028}' || c == '\U{2029}' || c == '\U{202F}'
    || c == '\U{205F}' || c == '\U{3000}'
  }

  // Python's `str.isspace` for one character also accepts the four separators.
  predicate IsPythonSpace(c: char) {
    IsUnicodeSpace(c) || '\U{001C}' <= c <= '\U{001F}'
  }

  predicate EndsWith(s: string, suffix: string) {
    |suffix| <= |s| && s[|s| - |suffix|..] == suffix
  }

  function TrimStart(s: string, space: char -> bool): string {
    if s != [] && space(s[0]) then TrimStart(s[1..], space) else s
  }

  function TrimEnd(s: string, space: char -> bool): string {
    if s != [] && space(s[|s| - 1]) then TrimEnd(s[..|s| - 1], space) else s
  }

  function Trim(s: string, space: char -> bool): string {
    TrimEnd(TrimStart(s, space), space)
  }

  // Trimming the end of a text after one that ends in no space leaves the latter alone.
  lemma {:induction false} TrimEndAfter(s: string, t: string, space: char -> bool)
    requires s != [] && !space(s[|s| - 1])
    ensures TrimEnd(s + t, space) == s + TrimEnd(t, space)
    decreases |t|
  {
    if t == [] {
      assert s + t == s;
    } else if space(t[|t| - 1]) {
      assert (s + t)[..|s + t| - 1] == s + t[..|t| - 1];
      TrimEndAfter(s, t[..|t| - 1], space);
    }
  }

  predicate AllOf(s: string, space: char -> bool) {
    forall c :: c in s ==> space(c)
  }

  lemma {:induction false} TrimStartDrops(gap: string, s: string, space: char -> bool)
    requires AllOf(gap, space)
    ensures TrimStart(gap + s, space) == TrimStart(s, space)
  {
    if gap == [] {
      assert gap + s == s;
    } else {
      assert gap[0] in gap && (gap + s)[1..] == gap[1..] + s;
      assert forall c :: c in gap[1..] ==> c in gap;
      TrimStartDrops(gap[1..], s, space);
    }
  }

  lemma {:induction false} TrimEndDrops(s: string, gap: string, space: char -> bool)
    requires AllOf(gap, space)
    ensures TrimEnd(s + gap, space) == TrimEnd(s, space)
    decreases |gap|
  {
    if gap == [] {
      assert s + gap == s;
    } else {
      var front, last := gap[..|gap| - 1], gap[|gap| - 1];
      assert last in gap && forall c :: c in front ==> c in gap;
      assert (s + gap)[..|s + gap| - 1] == s + front && (s + gap)[|s + gap| - 1] == last;
      TrimEndDrops(s, front, space);
    }
  }

  // Trimming takes away exactly the white space around a text that has none at its ends.
  lemma TrimDropsAround(before: string, s: string, after: string, space: char -> bool)
    requires AllOf(before, space) && AllOf(after, space)
    requires s != [] && !space(s[0]) && !space(s[|s| - 1])
    ensures Trim(before + (s + after), space) == s
  {
    TrimStartDrops(before, s + after, space);
    assert (s + after)[0] == s[0];
    TrimEndDrops(s, after, space);
  }

  function SplitOn(s: string, sep: char): (parts: seq<string>)
    ensures parts != []
  {
    if s == [] then [[]]
    else
      var rest := SplitOn(s[1..], sep);
      if s[0] == sep then [[]] + rest
      else [[s[0]] + rest[0]] + rest[1..]
  }

  function Before(s: string, sep: char): string {
    if s == [] || s[0] == sep then [] else [s[0]] + Before(s[1..], sep)
  }

  // Header and media-type names are compared with ASCII text only.
  function Lower(s: string): string {
    seq(|s|, i requires 0 <= i < |s| =>
      if 'A' <= s[i] <= 'Z' then (s[i] - 'A') + 'a' else s[i])
  }

  // ----- Decimal integers, as Python's `str` writes them -----

  function DigitChar(d: nat): char
    requires d < 10
  {
    '0' + d as char
  }

  function NatText(n: nat): (s: string)
    ensures s != [] && s[0] != '-'
  {
    if n < 10 then [DigitChar(n)] else NatText(n / 10) + [DigitChar(n % 10)]
  }

  function IntText(n: int): string {
    if n < 0 then "-" + NatText(-n) else NatText(n)
  }

  function DigitsValue(s: string): int {
    if s == [] then 0 else 10 * DigitsValue(s[..|s| - 1]) + (s[|s| - 1] as int - '0' as int)
  }

  lemma {:induction false} NatTextValue(n: nat)
    ensures DigitsValue(NatText(n)) == n
  {
    if n < 10 {
      assert [DigitChar(n)][..0] == "";
    } else {
      NatTextValue(n / 10);
      var s := NatText(n);
      assert s[..|s| - 1] == NatText(n / 10) && s[|s| - 1] == DigitChar(n % 10);
    }
  }

  lemma IntTextIsInjective(a: int, b: int)
    requires IntText(a) == IntText(b)
    ensures a == b
  {
    assert IntText(a)[0] == IntText(b)[0];
    if a < 0 && b < 0 {
      assert IntText(a)[1..] == NatText(-a) && IntText(b)[1..] == NatText(-b);
      NatTextValue(-a);
      NatTextValue(-b);
    } else if a >= 0 && b >= 0 {
      NatTextValue(a);
      NatTextValue(b);
    }
  }
}
