/**
 * The readable order number the `pre("save")` hook gives a new order:
 * `CMD-<year>-<count + 1, left-padded with '0' to five characters>`, for example `CMD-2025-00421`.
 * The module also gives a parser for that shape, which is what makes the numbers comparable:
 * parsing a generated number gives back its year and its sequence number.
 */
module OrderNumber {
  import opened Wrappers

  const Prefix: string := "CMD-"
  const Width: nat := 5

  predicate IsDigit(c: char) {
    '0' <= c <= '9'
  }

  predicate AllDigits(s: string) {
    forall i :: 0 <= i < |s| ==> IsDigit(s[i])
  }

  function DigitChar(d: nat): (c: char)
    requires d < 10
    ensures IsDigit(c) && c as int - '0' as int == d
  {
    ('0' as int + d) as char
  }

  /** The number a string of decimal digits denotes (leading zeros allowed). */
  function ValueOf(s: string): nat
    requires AllDigits(s)
  {
    if s == [] then 0
    else
      var front := s[..|s| - 1];
      assert forall i :: 0 <= i < |front| ==> front[i] == s[i];
      ValueOf(front) * 10 + (s[|s| - 1] as int - '0' as int)
  }

  /** `String(n)` for a non-negative integer: its decimal digits, which denote `n`. */
  function Decimal(n: nat): (r: string)
    ensures 1 <= |r| && AllDigits(r)
    ensures |r| == 1 || r[0] != '0'
    ensures ValueOf(r) == n
    decreases n
  {
    if n < 10 then [DigitChar(n)]
    else
      var front := Decimal(n / 10);
      var r := front + [DigitChar(n % 10)];
      assert r[..|r| - 1] == front;
      r
  }

  /** `k` copies of the padding character `'0'`. */
  function Zeros(k: nat): (r: string)
    ensures |r| == k && AllDigits(r)
    ensures forall i :: 0 <= i < k ==> r[i] == '0'
  {
    seq(k, _ => '0')
  }

  /** `s.padStart(width, "0")`: `s` itself when it is already long enough, otherwise `s` behind enough zeros. */
  function PadStart(s: string, width: nat): (r: string)
    ensures |r| >= width && |r| >= |s|
    ensures r[|r| - |s|..] == s
    ensures forall i :: 0 <= i < |r| - |s| ==> r[i] == '0'
    ensures |s| < width ==> |r| == width
    ensures |s| >= width ==> r == s
  {
    if |s| >= width then s else Zeros(width - |s|) + s
  }

  /** The order number for the `count`-th order (counting from zero) of `year`. */
  function Format(year: nat, count: nat): (r: string)
    ensures |r| >= |Prefix| + 2 + Width
    ensures r[..|Prefix|] == Prefix
  {
    Prefix + Decimal(year) + "-" + PadStart(Decimal(count + 1), Width)
  }

  /** The year and the one-based sequence number an order number carries. */
  datatype Numbered = Numbered(year: nat, sequence: nat)

  /** The index of the first occurrence of `c` in `s`. */
  function FirstIndexOf(s: string, c: char): (r: Option<nat>)
    ensures r.Some? ==> r.value < |s| && s[r.value] == c && forall i :: 0 <= i < r.value ==> s[i] != c
    ensures r.None? ==> forall i :: 0 <= i < |s| ==> s[i] != c
  {
    if s == [] then None
    else if s[0] == c then Some(0)
    else match FirstIndexOf(s[1..], c)
      case None => None
      case Some(k) => Some(k + 1)
  }

  /**
   * Reads a number of the hook's shape: `CMD-`, decimal year digits, `-`, at least five
   * decimal digits denoting a positive sequence number. Anything else is `None`.
   */
  function Parse(s: string): (r: Option<Numbered>)
    ensures r.Some? ==> r.value.sequence >= 1
  {
    if |s| < |Prefix| || s[..|Prefix|] != Prefix then None
    else
      var rest := s[|Prefix|..];
      match FirstIndexOf(rest, '-')
      case None => None
      case Some(k) =>
        var year := rest[..k];
        var digits := rest[k + 1..];
        if year != [] && AllDigits(year) && |digits| >= Width && AllDigits(digits) && ValueOf(digits) >= 1
        then Some(Numbered(ValueOf(year), ValueOf(digits)))
        else None
  }

  lemma {:induction false} ValueOfZeros(k: nat)
    ensures ValueOf(Zeros(k)) == 0
  {
    if k > 0 {
      assert Zeros(k)[..k - 1] == Zeros(k - 1);
      ValueOfZeros(k - 1);
    }
  }

  /** Leading zeros do not change the value of a digit string. */
  lemma {:induction false} ValueOfLeadingZeros(k: nat, s: string)
    requires AllDigits(s)
    ensures AllDigits(Zeros(k) + s)
    ensures ValueOf(Zeros(k) + s) == ValueOf(s)
  {
    var z := Zeros(k) + s;
    assert AllDigits(z) by {
      forall i | 0 <= i < |z| ensures IsDigit(z[i]) {
        if i < k { assert z[i] == Zeros(k)[i]; } else { assert z[i] == s[i - k]; }
      }
    }
    if s == [] {
      assert z == Zeros(k);
      ValueOfZeros(k);
    } else {
      var front := s[..|s| - 1];
      assert AllDigits(front) by {
        forall i | 0 <= i < |front| ensures IsDigit(front[i]) { assert front[i] == s[i]; }
      }
      assert z[..|z| - 1] == Zeros(k) + front;
      assert z[|z| - 1] == s[|s| - 1];
      ValueOfLeadingZeros(k, front);
    }
  }

  /** The padded sequence part of an order number still denotes the sequence number. */
  lemma PaddedValue(n: nat)
    ensures AllDigits(PadStart(Decimal(n), Width))
    ensures ValueOf(PadStart(Decimal(n), Width)) == n
  {
    var d := Decimal(n);
    if |d| < Width {
      ValueOfLeadingZeros(Width - |d|, d);
    }
  }

  /** In `y + "-" + p` with `y` made of digits, the first dash is the one right after `y`. */
  lemma {:induction false} FirstDashAfterDigits(y: string, p: string)
    requires AllDigits(y)
    ensures FirstIndexOf(y + "-" + p, '-') == Some(|y|)
  {
    if y != [] {
      assert (y + "-" + p)[1..] == y[1..] + "-" + p;
      FirstDashAfterDigits(y[1..], p);
    }
  }

  /** `Parse` reads back the parts of a well-formed number. */
  lemma ParseParts(y: string, p: string)
    requires y != [] && AllDigits(y)
    requires |p| >= Width && AllDigits(p) && ValueOf(p) >= 1
    ensures Parse(Prefix + (y + "-" + p)) == Some(Numbered(ValueOf(y), ValueOf(p)))
  {
    var rest := y + "-" + p;
    var s := Prefix + rest;
    assert s[..|Prefix|] == Prefix && s[|Prefix|..] == rest;
    FirstDashAfterDigits(y, p);
    assert rest[..|y|] == y;
    assert rest[|y| + 1..] == p;
  }

  /** Round trip: parsing a generated order number gives back its year and `count + 1`. */
  lemma ParseFormat(year: nat, count: nat)
    ensures Parse(Format(year, count)) == Some(Numbered(year, count + 1))
  {
    var y := Decimal(year);
    var p := PadStart(Decimal(count + 1), Width);
    PaddedValue(count + 1);
    assert Prefix + y + "-" + p == Prefix + (y + "-" + p);
    ParseParts(y, p);
  }

  /** The example the hook's comment gives: the 421st order of 2025. */
  lemma FormatExample()
    ensures Format(2025, 420) == "CMD-2025-00421"
  {
  }

  /** Distinct (year, count) pairs never produce the same order number. */
  lemma FormatInjective(y1: nat, c1: nat, y2: nat, c2: nat)
    ensures Format(y1, c1) == Format(y2, c2) <==> y1 == y2 && c1 == c2
  {
    ParseFormat(y1, c1);
    ParseFormat(y2, c2);
  }
}
