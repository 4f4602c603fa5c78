/** The string building blocks the views use: space padding with
    `String.repeat`, `String.valueOf` of a 64-bit id, and the first word of
    a name as `split(" ")[0]` yields it. */
module Text {

  import opened Wrappers

  predicate AllSpaces(s: string)
  {
    forall i | 0 <= i < |s| :: s[i] == ' '
  }

  /** `" ".repeat(n)` for a count Java accepts. */
  function Spaces(n: nat): (r: string)
    ensures |r| == n && AllSpaces(r)
  {
    seq(n, _ => ' ')
  }

  /** `" ".repeat(width - s.length()) + s`: `s` right-aligned in a field of
      `width` characters. `repeat` throws on a negative count, so a value
      wider than its field has no padded form. */
  function AlignRight(width: int, s: string): (r: Option<string>)
    ensures r.Some? <==> |s| <= width
    ensures r.Some? ==>
      && |r.value| == width
      && r.value[width - |s|..] == s
      && AllSpaces(r.value[..width - |s|])
  {
    if width - |s| < 0 then None
    else
      var padded := Spaces(width - |s|) + s;
      assert padded[..width - |s|] == Spaces(width - |s|);
      Some(padded)
  }

  /** `s + " ".repeat(width - s.length())`: `s` left-aligned in a field of
      `width` characters, with the same failure when it does not fit. */
  function AlignLeft(s: string, width: int): (r: Option<string>)
    ensures r.Some? <==> |s| <= width
    ensures r.Some? ==>
      && |r.value| == width
      && r.value[..|s|] == s
      && AllSpaces(r.value[|s|..])
  {
    if width - |s| < 0 then None
    else
      var padded := s + Spaces(width - |s|);
      assert padded[|s|..] == Spaces(width - |s|);
      Some(padded)
  }

  /** Drops the leading spaces of `s`: how a reader recovers a right-aligned
      value from its field. */
  function StripLeading(s: string): (r: string)
    ensures |r| <= |s|
    ensures r == s[|s| - |r|..]
    ensures |r| > 0 ==> r[0] != ' '
    ensures AllSpaces(s[..|s| - |r|])
  {
    if |s| == 0 || s[0] != ' ' then s
    else
      var rest := StripLeading(s[1..]);
      assert s[1..][..|s| - 1 - |rest|] == s[1..|s| - |rest|];
      rest
  }

  /** Padding loses nothing: stripping the spaces of a right-aligned field
      gives back the value, as long as the value does not itself start with
      a space. */
  lemma AlignRightRoundTrip(width: int, s: string)
    requires |s| <= width
    requires |s| == 0 || s[0] != ' '
    ensures StripLeading(AlignRight(width, s).value) == s
  {
  }

  // ---------------------------------------------------------------------
  // Decimal notation of an integer, as `String.valueOf(long)` writes it
  // ---------------------------------------------------------------------

  predicate IsDigit(c: char)
  {
    '0' <= c <= '9'
  }

  function DigitChar(d: int): (c: char)
    requires 0 <= d < 10
    ensures IsDigit(c) && c as int - '0' as int == d
  {
    ('0' as int + d) as char
  }

  /** The decimal digits of `n`, most significant first, without leading
      zeros. */
  function Digits(n: nat): (r: string)
    ensures |r| > 0
    ensures forall i | 0 <= i < |r| :: IsDigit(r[i])
  {
    if n < 10 then [DigitChar(n)] else Digits(n / 10) + [DigitChar(n % 10)]
  }

  /** `String.valueOf(n)`: a minus sign for negative values, then the
      digits of the magnitude. */
  function Decimal(n: int): (r: string)
    ensures |r| > 0
    ensures r[0] == '-' <==> n < 0
    ensures forall i | (if n < 0 then 1 else 0) <= i < |r| :: IsDigit(r[i])
  {
    if n < 0 then "-" + Digits(-n) else Digits(n)
  }

  /** The value of a string of decimal digits. */
  function DigitsValue(s: string): int
  {
    if |s| == 0 then 0 else DigitsValue(s[..|s| - 1]) * 10 + (s[|s| - 1] as int - '0' as int)
  }

  /** How a reader turns a printed id back into a number. */
  function ParseDecimal(s: string): int
  {
    if |s| > 0 && s[0] == '-' then -DigitsValue(s[1..]) else DigitsValue(s)
  }

  lemma {:induction false} DigitsRoundTrip(n: nat)
    ensures DigitsValue(Digits(n)) == n
  {
    if n >= 10 {
      DigitsRoundTrip(n / 10);
      var d := Digits(n);
      assert d[..|d| - 1] == Digits(n / 10);
    }
  }

  /** Printing loses nothing: the printed id reads back as the id. */
  lemma DecimalRoundTrip(n: int)
    ensures ParseDecimal(Decimal(n)) == n
  {
    if n < 0 {
      DigitsRoundTrip(-n);
      assert Decimal(n)[1..] == Digits(-n);
    } else {
      DigitsRoundTrip(n);
    }
  }

  function Pow10(k: nat): nat
  {
    if k == 0 then 1 else 10 * Pow10(k - 1)
  }

  /** A number has exactly k digits when it lies in [10^(k-1), 10^k). */
  lemma {:induction false} DigitsLength(n: nat, k: nat)
    requires 1 <= k && n < Pow10(k) && (k == 1 || Pow10(k - 1) <= n)
    ensures |Digits(n)| == k
    decreases k
  {
    if n >= 10 {
      assert k > 1;
      if k == 2 {
        assert n / 10 < 10;
      } else {
        assert Pow10(k - 2) <= n / 10 < Pow10(k - 1);
      }
      DigitsLength(n / 10, k - 1);
    }
  }

  lemma {:induction false} DigitsAtMost(n: nat, k: nat)
    requires 1 <= k && n < Pow10(k)
    ensures |Digits(n)| <= k
    decreases k
  {
    if n >= 10 {
      assert k > 1;
      DigitsAtMost(n / 10, k - 1);
    }
  }

  lemma Pow10Nineteen()
    ensures Pow10(18) == 1_000_000_000_000_000_000
    ensures Pow10(19) == 10_000_000_000_000_000_000
  {
    assert Pow10(1) == 10;
    assert Pow10(2) == 100;
    assert Pow10(3) == 1000;
    assert Pow10(4) == 10000;
    assert Pow10(5) == 100000;
    assert Pow10(6) == 1000000;
    assert Pow10(7) == 10000000;
    assert Pow10(8) == 100000000;
    assert Pow10(9) == 1000000000;
    assert Pow10(10) == 10000000000;
    assert Pow10(11) == 100000000000;
    assert Pow10(12) == 1000000000000;
    assert Pow10(13) == 10000000000000;
    assert Pow10(14) == 100000000000000;
    assert Pow10(15) == 1000000000000000;
    assert Pow10(16) == 10000000000000000;
    assert Pow10(17) == 100000000000000000;
    assert Pow10(18) == 1000000000000000000;
    assert Pow10(19) == 10000000000000000000;
  }

  /** Any 64-bit value prints in at most 20 characters, and a non-negative
      one in at most 19. */
  lemma LongWidth(n: int)
    requires -0x8000_0000_0000_0000 <= n < 0x8000_0000_0000_0000
    ensures |Decimal(n)| <= 20
    ensures n >= 0 ==> |Decimal(n)| <= 19
  {
    Pow10Nineteen();
    if n < 0 {
      DigitsAtMost(-n, 19);
    } else {
      DigitsAtMost(n, 19);
    }
  }

  /** The one 64-bit value that does not fit in 19 characters:
      `Long.MIN_VALUE` prints in 20. */
  lemma LongMinWidth()
    ensures |Decimal(-0x8000_0000_0000_0000)| == 20
  {
    Pow10Nineteen();
    DigitsLength(0x8000_0000_0000_0000, 19);
  }

  // ---------------------------------------------------------------------
  // First word of a name
  // ---------------------------------------------------------------------

  /** The characters of `s` before its first space (all of `s` if it has
      none). */
  function UpToSpace(s: string): (r: string)
    ensures |r| <= |s| && r == s[..|r|]
    ensures forall i | 0 <= i < |r| :: r[i] != ' '
    ensures |r| < |s| ==> s[|r|] == ' '
  {
    if |s| == 0 || s[0] == ' ' then "" else [s[0]] + UpToSpace(s[1..])
  }

  /** `s.split(" ")[0]`. Java drops trailing empty pieces, so a non-empty
      string of spaces splits into no pieces at all and indexing throws;
      otherwise the first piece is everything before the first space
      (empty when `s` starts with one). */
  function FirstWord(s: string): (r: Option<string>)
    ensures r.None? <==> |s| > 0 && AllSpaces(s)
    ensures r.Some? ==> r.value == UpToSpace(s)
  {
    if |s| > 0 && AllSpaces(s) then None else Some(UpToSpace(s))
  }
}
