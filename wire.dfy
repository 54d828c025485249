/**
 * The text conventions the versus mode relies on, as Rust's standard
 * library defines them: `isize` formatting and parsing, decimal float
 * parsing, `split_whitespace`, and the truncation a datagram suffers when
 * it is received into a fixed-size buffer. Each byte of a payload is one
 * character here: payloads are ASCII.
 */
module Wire {
  import opened Wrappers

  const ISIZE_MIN: int := -0x8000_0000_0000_0000
  const ISIZE_MAX: int := 0x7FFF_FFFF_FFFF_FFFF

  function Pow10(n: nat): (p: nat)
    ensures p >= 1
  {
    if n == 0 then 1 else 10 * Pow10(n - 1)
  }

  // ---------------------------------------------------------------------------
  // Digits

  predicate IsDigit(c: char)
  {
    '0' <= c <= '9'
  }

  predicate AllDigits(s: string)
  {
    forall i :: 0 <= i < |s| ==> IsDigit(s[i])
  }

  function DigitChar(d: nat): (c: char)
    requires d < 10
    ensures IsDigit(c) && c as int - '0' as int == d
  {
    ('0' as int + d) as char
  }

  /** The value of a string of decimal digits, most significant first. */
  function DigitsValue(s: string): (v: nat)
    requires AllDigits(s)
    ensures v < Pow10(|s|)
    decreases |s|
  {
    if s == [] then 0
    else DigitsValue(s[..|s| - 1]) * 10 + (s[|s| - 1] as int - '0' as int)
  }

  /** The decimal digits of `n`, without leading zeros. */
  function NatToString(n: nat): (s: string)
    ensures s != [] && AllDigits(s)
    ensures s[0] == '0' ==> n == 0
    decreases n
  {
    if n < 10 then [DigitChar(n)] else NatToString(n / 10) + [DigitChar(n % 10)]
  }

  /** Formatting `n` the way `isize::to_string` does: a minus sign for negative values, then the digits. */
  function IntToString(n: int): (s: string)
    ensures s != [] && (n < 0 <==> s[0] == '-')
  {
    if n < 0 then "-" + NatToString(-n) else NatToString(n)
  }

  lemma {:induction false} DigitsOfNat(n: nat)
    ensures DigitsValue(NatToString(n)) == n
    decreases n
  {
    if n >= 10 {
      var s := NatToString(n);
      DigitsOfNat(n / 10);
      assert s[..|s| - 1] == NatToString(n / 10);
    }
  }

  /** `n` has at most `k` digits exactly when it is below 10^k. */
  lemma {:induction false} NatLength(n: nat, k: nat)
    requires k >= 1
    ensures |NatToString(n)| <= k <==> n < Pow10(k)
    decreases n
  {
    if n >= 10 {
      if k == 1 {
        assert Pow10(1) == 10;
      } else {
        NatLength(n / 10, k - 1);
        assert n / 10 < Pow10(k - 1) <==> n < 10 * Pow10(k - 1);
      }
    }
  }

  /** The text of an integer fits in four bytes exactly when it lies in [-999, 9999]. */
  lemma IntLength4(n: int)
    ensures |IntToString(n)| <= 4 <==> -999 <= n <= 9999
  {
    assert Pow10(4) == 10000 && Pow10(3) == 1000;
    if n < 0 {
      NatLength(-n, 3);
    } else {
      NatLength(n, 4);
    }
  }

  // ---------------------------------------------------------------------------
  // Parsing

  /** Whether `t` starts with a minus sign. */
  predicate Negative(t: string)
  {
    t != [] && t[0] == '-'
  }

  /** `t` without its optional leading sign. */
  function Magnitude(t: string): (m: string)
    ensures |t| - 1 <= |m| <= |t| && m == t[|t| - |m|..]
    ensures |m| < |t| <==> t != [] && (t[0] == '-' || t[0] == '+')
  {
    if t != [] && (t[0] == '-' || t[0] == '+') then t[1..] else t
  }

  /**
   * `str::parse::<isize>`: an optional sign, at least one digit and nothing
   * else, and a value in range.
   */
  function ParseIsize(t: string): (r: Option<int>)
    ensures r.Some? ==> ISIZE_MIN <= r.value <= ISIZE_MAX
    ensures r.Some? ==> t != [] && (IsDigit(t[0]) || t[0] == '-' || t[0] == '+')
    ensures r.Some? <==> var m := Magnitude(t);
      m != [] && AllDigits(m) &&
      ISIZE_MIN <= (if Negative(t) then -(DigitsValue(m) as int) else DigitsValue(m)) <= ISIZE_MAX
    ensures r.Some? ==> (AllDigits(Magnitude(t)) &&
      r.value == (if Negative(t) then -(DigitsValue(Magnitude(t)) as int) else DigitsValue(Magnitude(t))))
  {
    var digits := Magnitude(t);
    if digits == [] || !AllDigits(digits) then None
    else
      var v: int := if Negative(t) then -(DigitsValue(digits) as int) else DigitsValue(digits);
      if ISIZE_MIN <= v <= ISIZE_MAX then Some(v) else None
  }

  /** Parsing the text `isize::to_string` makes gives the number back. */
  lemma ParseIsizeOfInt(n: int)
    requires ISIZE_MIN <= n <= ISIZE_MAX
    ensures ParseIsize(IntToString(n)) == Some(n)
  {
    var t := IntToString(n);
    if n < 0 {
      DigitsOfNat(-n);
      assert Negative(t) && Magnitude(t) == NatToString(-n);
    } else {
      DigitsOfNat(n);
      assert !Negative(t) && Magnitude(t) == NatToString(n);
    }
  }

  /** The first index of `c` in `s`, or `|s|`. */
  function Find(s: string, c: char): (k: nat)
    ensures k <= |s| && (k < |s| ==> s[k] == c)
    ensures forall j :: 0 <= j < k ==> s[j] != c
  {
    if s == [] || s[0] == c then 0 else 1 + Find(s[1..], c)
  }

  /** The value of the digits after a decimal point: 0.d1d2... */
  function FractionValue(s: string): (v: real)
    requires AllDigits(s)
    ensures 0.0 <= v < 1.0
  {
    if s == [] then 0.0
    else ((s[0] as int - '0' as int) as real + FractionValue(s[1..])) / 10.0
  }

  /**
   * `str::parse::<f32>` on plain decimal text: an optional sign, digits, and
   * at most one point, with at least one digit on one side of it. The value
   * is exact.
   */
  function ParseDecimal(t: string): (r: Option<real>)
    ensures r.Some? ==> t != []
  {
    var body := Magnitude(t);
    var k := Find(body, '.');
    var whole := body[..k];
    var fraction := if k < |body| then body[k + 1..] else [];
    if |whole| + |fraction| == 0 || !AllDigits(whole) || !AllDigits(fraction) then None
    else
      var v := DigitsValue(whole) as real + FractionValue(fraction);
      Some(if Negative(t) then -v else v)
  }

  /** Integer text read as a float gives the same number. */
  lemma ParseDecimalOfInt(n: int)
    ensures ParseDecimal(IntToString(n)) == Some(n as real)
  {
    var t := IntToString(n);
    var m: nat := if n < 0 then -n else n;
    var digits := NatToString(m);
    DigitsOfNat(m);
    assert Negative(t) == (n < 0) && Magnitude(t) == digits;
    assert Find(digits, '.') == |digits|;
    assert digits[..|digits|] == digits;
  }

  // ---------------------------------------------------------------------------
  // Splitting

  /** The Unicode White_Space property, which `char::is_whitespace` tests. */
  predicate IsWhitespace(c: char)
  {
    var n := c as int;
    (9 <= n <= 13) || n == 0x20 || n == 0x85 || n == 0xA0 || n == 0x1680 ||
    (0x2000 <= n <= 0x200A) || n == 0x2028 || n == 0x2029 || n == 0x202F || n == 0x205F || n == 0x3000
  }

  predicate NoWhitespace(s: string)
  {
    forall i :: 0 <= i < |s| ==> !IsWhitespace(s[i])
  }

  /** Length of the run of non-whitespace characters at the head of `s`. */
  function Run(s: string): (n: nat)
    ensures n <= |s| && NoWhitespace(s[..n]) && (n < |s| ==> IsWhitespace(s[n]))
  {
    if s == [] || IsWhitespace(s[0]) then 0
    else
      var n := 1 + Run(s[1..]);
      assert s[..n] == [s[0]] + s[1..][..n - 1];
      n
  }

  /** `str::split_whitespace`: the maximal non-whitespace runs, in order. */
  function SplitWhitespace(s: string): (words: seq<string>)
    ensures forall w :: w in words ==> w != [] && NoWhitespace(w)
    decreases |s|
  {
    if s == [] then []
    else if IsWhitespace(s[0]) then SplitWhitespace(s[1..])
    else
      var n := Run(s);
      [s[..n]] + SplitWhitespace(s[n..])
  }

  lemma {:induction false} RunOfWord(w: string, rest: string)
    requires NoWhitespace(w) && (rest == [] || IsWhitespace(rest[0]))
    ensures Run(w + rest) == |w|
    decreases |w|
  {
    if w != [] {
      assert (w + rest)[1..] == w[1..] + rest;
      RunOfWord(w[1..], rest);
    }
  }

  /** A word followed by whitespace or the end of the text is split off whole. */
  lemma SplitWord(w: string, rest: string)
    requires w != [] && NoWhitespace(w) && (rest == [] || IsWhitespace(rest[0]))
    ensures SplitWhitespace(w + rest) == [w] + SplitWhitespace(rest)
  {
    RunOfWord(w, rest);
    assert (w + rest)[..|w|] == w;
    assert (w + rest)[|w|..] == rest;
  }

  /** Two words joined by one space split back into the two words. */
  lemma SplitPair(a: string, b: string)
    requires a != [] && NoWhitespace(a) && b != [] && NoWhitespace(b)
    ensures SplitWhitespace(a + " " + b) == [a, b]
  {
    assert a + " " + b == a + (" " + b);
    SplitWord(a, " " + b);
    assert (" " + b)[1..] == b;
    SplitWord(b, []);
    assert b + [] == b;
  }

  lemma DigitsHaveNoWhitespace(n: int)
    ensures NoWhitespace(IntToString(n))
  {
    var s := IntToString(n);
    forall i | 0 <= i < |s| ensures !IsWhitespace(s[i]) {
      if n < 0 && i > 0 {
        assert s[i] == NatToString(-n)[i - 1];
      }
    }
  }

  // ---------------------------------------------------------------------------
  // Receiving

  /** A datagram received into a buffer of `capacity` bytes: anything past the buffer is lost. */
  function Recv(datagram: string, capacity: nat): (r: string)
    ensures |r| == if |datagram| <= capacity then |datagram| else capacity
    ensures r == datagram[..|r|]
  {
    if |datagram| <= capacity then datagram else datagram[..capacity]
  }
}
