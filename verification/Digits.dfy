/** Numbers as strings of digits in base 2 or 16, as Python's `format` writes and `int` reads them, and the
    translation of a string piece by piece. */
module Digits {

  function Digit(d: nat): char
    requires d < 16
  {
    if d < 10 then ('0' as int + d) as char else ('a' as int + d - 10) as char
  }

  function ValueOfDigit(c: char): (d: nat)
    ensures d < 16
  {
    if '0' <= c <= '9' then c as int - '0' as int
    else if 'a' <= c <= 'f' then c as int - 'a' as int + 10
    else if 'A' <= c <= 'F' then c as int - 'A' as int + 10
    else 0
  }

  predicate IsHexDigit(c: char) {
    '0' <= c <= '9' || 'a' <= c <= 'f' || 'A' <= c <= 'F'
  }

  const SMALL_DIGITS := "0123456789abcdef"
  const CAPITAL_DIGITS := "0123456789ABCDEF"

  /** Digits stand for their places, small or capital. */
  lemma DigitsInOrder(d: nat)
    requires d < 16
    ensures Digit(d) == SMALL_DIGITS[d] && ValueOfDigit(SMALL_DIGITS[d]) == d && ValueOfDigit(CAPITAL_DIGITS[d]) == d
  {
  }

  lemma HexDigitsExactly(c: char)
    ensures IsHexDigit(c) <==> c in SMALL_DIGITS || c in CAPITAL_DIGITS
  {
    if IsHexDigit(c) {
      var v := ValueOfDigit(c);
      assert c == SMALL_DIGITS[v] || c == CAPITAL_DIGITS[v];
    }
  }

  /** At least `width` digits, with zeros in front. */
  function Format(v: nat, base: nat, width: nat): string
    requires base == 2 || base == 16
    decreases v, width
  {
    if v < base && width <= 1 then [Digit(v)]
    else Format(v / base, base, if width > 0 then width - 1 else 0) + [Digit(v % base)]
  }

  /** The value of a string of digits; other characters count as zero. */
  function Parse(s: string, base: nat): nat
    requires base == 2 || base == 16
  {
    if s == "" then 0 else Parse(s[..|s| - 1], base) * base + ValueOfDigit(s[|s| - 1])
  }

  function Power(base: nat, n: nat): nat {
    if n == 0 then 1 else base * Power(base, n - 1)
  }

  /** A digit of this base as `Format` writes it. */
  predicate IsDigit(c: char, base: nat) {
    ValueOfDigit(c) < base && Digit(ValueOfDigit(c)) == c
  }

  lemma {:induction false} ParseOfFormat(v: nat, base: nat, width: nat)
    requires base == 2 || base == 16
    ensures Parse(Format(v, base, width), base) == v
    decreases v, width
  {
    var s := Format(v, base, width);
    if v < base && width <= 1 {
      assert s[..0] == "";
    } else {
      var before := Format(v / base, base, if width > 0 then width - 1 else 0);
      assert s[..|s| - 1] == before;
      ParseOfFormat(v / base, base, if width > 0 then width - 1 else 0);
    }
  }

  lemma {:induction false} FormatOfParse(s: string, base: nat)
    requires (base == 2 || base == 16) && s != "" && forall i :: 0 <= i < |s| ==> IsDigit(s[i], base)
    ensures Format(Parse(s, base), base, |s|) == s
  {
    var before, last := s[..|s| - 1], s[|s| - 1];
    assert s == before + [last] && IsDigit(last, base);
    LastDigit(s, base);
    if |s| == 1 {
      assert Parse(before, base) == 0;
    } else {
      FormatOfParse(before, base);
    }
    hide Parse;
  }

  lemma LastDigit(s: string, base: nat)
    requires (base == 2 || base == 16) && s != "" && ValueOfDigit(s[|s| - 1]) < base
    ensures Parse(s, base) / base == Parse(s[..|s| - 1], base) && Parse(s, base) % base == ValueOfDigit(s[|s| - 1])
  {
    QuotientAndRest(Parse(s[..|s| - 1], base), ValueOfDigit(s[|s| - 1]), base);
    assert Parse(s, base) == Parse(s[..|s| - 1], base) * base + ValueOfDigit(s[|s| - 1]);
    hide Parse, ValueOfDigit;
  }

  lemma QuotientAndRest(p: nat, d: nat, base: nat)
    requires (base == 2 || base == 16) && d < base
    ensures (p * base + d) / base == p && (p * base + d) % base == d
  {
  }

  lemma {:induction false} FormatWidth(v: nat, base: nat, width: nat)
    requires (base == 2 || base == 16) && width > 0 && v < Power(base, width)
    ensures var s := Format(v, base, width); |s| == width && forall i :: 0 <= i < |s| ==> IsDigit(s[i], base)
    decreases width
  {
    if width > 1 {
      FormatWidth(v / base, base, width - 1);
    }
  }

  lemma {:induction false} FormatTooWide(v: nat, base: nat, width: nat)
    requires (base == 2 || base == 16) && v >= Power(base, width)
    ensures |Format(v, base, width)| > width
    decreases width
  {
    if width > 0 {
      FormatTooWide(v / base, base, width - 1);
    }
  }

  lemma {:induction false} ParseIsBelow(s: string, base: nat)
    requires (base == 2 || base == 16) && forall i :: 0 <= i < |s| ==> ValueOfDigit(s[i]) < base
    ensures Parse(s, base) < Power(base, |s|)
  {
    if s != "" {
      ParseIsBelow(s[..|s| - 1], base);
    }
  }

  // ----- translation piece by piece -----

  /** `f` of the first `k` characters, of the next `k`, and so on, joined. */
  function Through(s: string, k: nat, f: string -> string): string
    requires k > 0
  {
    if s == "" then "" else if |s| <= k then f(s) else f(s[..k]) + Through(s[k..], k, f)
  }

  lemma ThroughMore(piece: string, rest: string, k: nat, f: string -> string)
    requires |piece| == k > 0
    ensures Through(piece + rest, k, f) == f(piece) + Through(rest, k, f)
  {
    if rest == "" {
      assert piece + rest == piece;
    } else {
      assert (piece + rest)[..k] == piece && (piece + rest)[k..] == rest;
    }
  }

  /** Consists of pieces of length `k`. */
  predicate Whole(s: string, k: nat)
    requires k > 0
  {
    s == "" || (|s| >= k && Whole(s[k..], k))
  }

  lemma {:induction false} WholeLength(s: string, k: nat, n: nat)
    requires k > 0 && |s| == n * k
    ensures Whole(s, k)
  {
    if n > 0 {
      assert |s[k..]| == (n - 1) * k;
      WholeLength(s[k..], k, n - 1);
    }
  }

  ghost predicate AllOf(s: string, ok: char -> bool) {
    forall i :: 0 <= i < |s| ==> ok(s[i])
  }

  /** When `f` takes pieces of `k` characters `okIn` to pieces of `m` characters `okOut`. */
  lemma {:induction false} ThroughShape(
    s: string, k: nat, m: nat, f: string -> string, okIn: char -> bool, okOut: char -> bool)
    requires k > 0 && Whole(s, k) && AllOf(s, okIn)
    requires forall c: string :: |c| == k && AllOf(c, okIn) ==> |f(c)| == m && AllOf(f(c), okOut)
    ensures |Through(s, k, f)| * k == |s| * m && AllOf(Through(s, k, f), okOut)
  {
    if s != "" {
      hide Through;
      var first, rest := s[..k], s[k..];
      assert s == first + rest;
      assert AllOf(first, okIn) && AllOf(rest, okIn);
      ThroughMore(first, rest, k, f);
      ThroughShape(rest, k, m, f, okIn, okOut);
      Distribute(k, |rest|, m, |Through(rest, k, f)|);
    }
  }

  lemma Distribute(k: nat, n: nat, m: nat, l: nat)
    requires l * k == n * m
    ensures (m + l) * k == (k + n) * m
  {
    assert (m + l) * k == m * k + l * k;
    assert (k + n) * m == k * m + n * m;
  }

  /** Translating pieces of `k` to pieces of `m`, and these by `g`, is to translate the first ones by `h`. */
  lemma {:induction false} ThroughTwice(
    s: string, k: nat, m: nat, f: string -> string, g: string -> string, h: string -> string, ok: char -> bool)
    requires k > 0 && m > 0 && Whole(s, k) && AllOf(s, ok)
    requires forall c: string :: |c| == k && AllOf(c, ok) ==> |f(c)| == m && g(f(c)) == h(c)
    ensures Through(Through(s, k, f), m, g) == Through(s, k, h)
  {
    if s != "" {
      hide Through;
      var first, rest := s[..k], s[k..];
      assert s == first + rest;
      assert AllOf(first, ok) && AllOf(rest, ok);
      ThroughMore(first, rest, k, f);
      ThroughMore(first, rest, k, h);
      ThroughMore(f(first), Through(rest, k, f), m, g);
      ThroughTwice(rest, k, m, f, g, h, ok);
    }
  }

  lemma {:induction false} ThroughSame(s: string, k: nat)
    requires k > 0 && Whole(s, k)
    ensures Through(s, k, c => c) == s
  {
    if s != "" {
      hide Through;
      ThroughMore(s[..k], s[k..], k, c => c);
      assert s == s[..k] + s[k..];
      ThroughSame(s[k..], k);
    }
  }

  /** Splits a string in pieces of equal length, and joins what each becomes. */
  method TranslateByPieces(s: string, k: nat, f: string -> string) returns (t: string)
    requires k > 0
    ensures t == Through(s, k, f)
  {
    t := "";
    var rest := s;
    while |rest| > k
      invariant t + Through(rest, k, f) == Through(s, k, f)
    {
      var piece, others := rest[..k], rest[k..];
      t, rest := t + f(piece), others;
    }
    if rest != "" {
      t := t + f(rest);
    }
  }

  /** Each piece is translated where it stands. */
  lemma {:induction false} PieceAt(s: string, k: nat, m: nat, f: string -> string, ok: char -> bool, n: nat)
    requires k > 0 && AllOf(s, ok) && (n + 1) * k <= |s|
    requires forall c: string :: |c| == k && AllOf(c, ok) ==> |f(c)| == m
    ensures |Through(s, k, f)| >= (n + 1) * m
    ensures Through(s, k, f)[n * m..(n + 1) * m] == f(s[n * k..(n + 1) * k])
  {
    hide Through;
    assert (n + 1) * k == n * k + k && (n + 1) * m == n * m + m && n * k >= 0 && n * m >= 0;
    var first, rest := s[..k], s[k..];
    assert s == first + rest && AllOf(first, ok) && AllOf(rest, ok);
    ThroughMore(first, rest, k, f);
    if n > 0 {
      PieceAt(rest, k, m, f, ok, n - 1);
      assert n * k == (n - 1) * k + k && n * m == (n - 1) * m + m;
      assert s[n * k..(n + 1) * k] == rest[(n - 1) * k..n * k];
    }
  }
}
