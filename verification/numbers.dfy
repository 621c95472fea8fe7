/** Zero-padding of the integers inside a sort key: every maximal run of
    decimal digits is replaced by `'%08d' % int(run)`, the run's integer
    value written with at least eight digits. */
module Numbers {
  import opened Strings

  /** The minimum width of a padded number. */
  const PadWidth: nat := 8

  predicate IsDigit(c: char) {
    '0' <= c <= '9'
  }

  predicate AllDigits(s: string) {
    forall i :: 0 <= i < |s| ==> IsDigit(s[i])
  }

  predicate NoDigits(s: string) {
    forall i :: 0 <= i < |s| ==> !IsDigit(s[i])
  }

  function DigitValue(c: char): nat
    requires IsDigit(c)
  {
    c as int - '0' as int
  }

  function DigitChar(d: nat): (c: char)
    requires d < 10
    ensures IsDigit(c) && DigitValue(c) == d
  {
    ('0' as int + d) as char
  }

  /** The value of a string of decimal digits, which is what `int(ds)`
      returns for a non-empty run. The empty string has value 0 here; no
      caller passes it as a run. */
  function Value(ds: string): nat
    requires AllDigits(ds)
  {
    if |ds| == 0 then 0
    else Value(ds[..|ds| - 1]) * 10 + DigitValue(ds[|ds| - 1])
  }

  /** Python's `str(v)` for a non-negative integer: its decimal digits with
      no leading zero. */
  function Decimal(v: nat): (r: string)
    ensures |r| >= 1 && AllDigits(r)
    ensures |r| > 1 ==> r[0] != '0'
    ensures v < 10 <==> |r| == 1
  {
    if v < 10 then [DigitChar(v)] else Decimal(v / 10) + [DigitChar(v % 10)]
  }

  /** Reading back the decimal form of `v` gives `v`. */
  lemma {:induction false} ValueOfDecimal(v: nat)
    ensures Value(Decimal(v)) == v
  {
    if v >= 10 {
      ValueOfDecimal(v / 10);
      var r := Decimal(v);
      assert r[..|r| - 1] == Decimal(v / 10);
    }
  }

  function Zeros(n: nat): (r: string)
    ensures |r| == n && AllDigits(r)
    ensures forall i :: 0 <= i < n ==> r[i] == '0'
  {
    if n == 0 then "" else Zeros(n - 1) + "0"
  }

  /** Leading zeros do not change the value of a digit string. */
  lemma {:induction false} ValueIgnoresLeadingZeros(n: nat, ds: string)
    requires AllDigits(ds)
    ensures AllDigits(Zeros(n) + ds)
    ensures Value(Zeros(n) + ds) == Value(ds)
  {
    var w := Zeros(n) + ds;
    assert AllDigits(w) by {
      assert forall i :: 0 <= i < n ==> w[i] == Zeros(n)[i];
      assert forall i :: n <= i < |w| ==> w[i] == ds[i - n];
    }
    if |ds| == 0 {
      assert w == Zeros(n);
      ValueOfZeros(n);
    } else {
      ValueIgnoresLeadingZeros(n, ds[..|ds| - 1]);
      assert w[..|w| - 1] == Zeros(n) + ds[..|ds| - 1];
    }
  }

  lemma {:induction false} ValueOfZeros(n: nat)
    ensures Value(Zeros(n)) == 0
  {
    if n > 0 {
      ValueOfZeros(n - 1);
      var z := Zeros(n - 1) + "0";
      assert z[..n - 1] == Zeros(n - 1);
      assert Value(z) == Value(Zeros(n - 1)) * 10 + DigitValue('0');
    }
  }

  /** Python's `'%08d' % v`: the decimal form of `v`, zero-padded on the left
      to at least eight digits. */
  function ZeroPad(v: nat): (r: string)
    ensures |r| == if |Decimal(v)| < PadWidth then PadWidth else |Decimal(v)|
    ensures AllDigits(r)
    ensures Value(r) == v
  {
    var d := Decimal(v);
    var z := if |d| < PadWidth then PadWidth - |d| else 0;
    ValueIgnoresLeadingZeros(z, d);
    ValueOfDecimal(v);
    Zeros(z) + d
  }

  /** Length of the maximal run of digits that starts `s`. */
  function DigitRun(s: string): (n: nat)
    ensures n <= |s|
    ensures AllDigits(s[..n])
    ensures n == |s| || !IsDigit(s[n])
  {
    if |s| > 0 && IsDigit(s[0]) then
      var k := DigitRun(s[1..]);
      assert s[..k + 1] == [s[0]] + s[1..][..k];
      k + 1
    else 0
  }

  /** `_naturalize_numbers`: each maximal run of ASCII digits, left to
      right, is read as an integer and written back with at least eight
      digits, zero-padded on the left. Padding does not change whether a
      string is empty or starts with a digit, nor the non-digit character
      it starts with; `NaturalizeNumbersKeepsPieces` states that it keeps
      every piece. */
  function NaturalizeNumbers(s: string): (r: string)
    ensures |r| == 0 <==> |s| == 0
    ensures |s| > 0 && !IsDigit(s[0]) ==> r[0] == s[0]
    ensures |s| > 0 && IsDigit(s[0]) ==> IsDigit(r[0])
  {
    if |s| == 0 then ""
    else if IsDigit(s[0]) then
      var n := DigitRun(s);
      ZeroPad(Value(s[..n])) + NaturalizeNumbers(s[n..])
    else [s[0]] + NaturalizeNumbers(s[1..])
  }

  /** What a string looks like once each digit run is read as a number: a
      sequence of plain characters and numbers. Two numbers are never
      adjacent, since a run of digits is maximal. */
  datatype Piece = Text(c: char) | Number(value: nat)

  function Pieces(s: string): seq<Piece>
  {
    if |s| == 0 then []
    else if IsDigit(s[0]) then
      var n := DigitRun(s);
      [Number(Value(s[..n]))] + Pieces(s[n..])
    else [Text(s[0])] + Pieces(s[1..])
  }

  /** Padding keeps every non-digit character, every number's value, and
      their order: the output reads as the same pieces as the input. */
  lemma {:induction false} NaturalizeNumbersKeepsPieces(s: string)
    ensures Pieces(NaturalizeNumbers(s)) == Pieces(s)
  {
    if |s| > 0 {
      var out := NaturalizeNumbers(s);
      if IsDigit(s[0]) {
        var n := DigitRun(s);
        var v := Value(s[..n]);
        var p := ZeroPad(v);
        var rest := NaturalizeNumbers(s[n..]);
        NaturalizeNumbersKeepsPieces(s[n..]);
        DigitRunOfRun(p, rest);
        assert out[..|p|] == p;
        assert out[|p|..] == rest;
      } else {
        NaturalizeNumbersKeepsPieces(s[1..]);
        assert out[1..] == NaturalizeNumbers(s[1..]);
      }
    }
  }

  /** A run of digits followed by a non-digit (or by nothing) is a maximal
      run. */
  lemma {:induction false} DigitRunOfRun(ds: string, rest: string)
    requires |ds| > 0 && AllDigits(ds)
    requires |rest| == 0 || !IsDigit(rest[0])
    ensures DigitRun(ds + rest) == |ds|
  {
    var w := ds + rest;
    if |ds| > 1 {
      assert w[1..] == ds[1..] + rest;
      DigitRunOfRun(ds[1..], rest);
    } else {
      assert w[1..] == rest;
    }
  }

  /** The string each piece stands for once numbers are zero-padded. */
  function Render(ps: seq<Piece>): string
  {
    if |ps| == 0 then ""
    else match ps[0]
      case Text(c) => [c] + Render(ps[1..])
      case Number(v) => ZeroPad(v) + Render(ps[1..])
  }

  /** Padding is determined by the pieces alone. */
  lemma {:induction false} NaturalizeNumbersRendersPieces(s: string)
    ensures NaturalizeNumbers(s) == Render(Pieces(s))
  {
    if |s| > 0 {
      if IsDigit(s[0]) {
        NaturalizeNumbersRendersPieces(s[DigitRun(s)..]);
      } else {
        NaturalizeNumbersRendersPieces(s[1..]);
      }
    }
  }

  /** Padding an already padded key changes nothing. */
  lemma NaturalizeNumbersIdempotent(s: string)
    ensures NaturalizeNumbers(NaturalizeNumbers(s)) == NaturalizeNumbers(s)
  {
    NaturalizeNumbersRendersPieces(NaturalizeNumbers(s));
    NaturalizeNumbersKeepsPieces(s);
    NaturalizeNumbersRendersPieces(s);
  }

  /** A string without digits is left alone. */
  lemma {:induction false} NaturalizeNumbersNoDigits(s: string)
    requires NoDigits(s)
    ensures NaturalizeNumbers(s) == s
  {
    if |s| > 0 {
      NaturalizeNumbersNoDigits(s[1..]);
      assert s == [s[0]] + s[1..];
    }
  }

  /** Every character of the output is a digit or a character of the input,
      so padding never introduces a capital letter. */
  lemma {:induction false} NaturalizeNumbersKeepsLowerCase(s: string)
    ensures IsLowerCase(s) ==> IsLowerCase(NaturalizeNumbers(s))
  {
    if |s| > 0 && IsLowerCase(s) {
      LowerCaseAppend([s[0]], s[1..]);
      assert s == [s[0]] + s[1..];
      if IsDigit(s[0]) {
        var n := DigitRun(s);
        LowerCaseAppend(s[..n], s[n..]);
        assert s == s[..n] + s[n..];
        NaturalizeNumbersKeepsLowerCase(s[n..]);
        LowerCaseAppend(ZeroPad(Value(s[..n])), NaturalizeNumbers(s[n..]));
      } else {
        NaturalizeNumbersKeepsLowerCase(s[1..]);
        LowerCaseAppend([s[0]], NaturalizeNumbers(s[1..]));
      }
    }
  }

  /** One step of `NaturalizeNumbers` over a leading maximal run. */
  lemma NaturalizeNumbersRunThen(ds: string, rest: string)
    requires |ds| > 0 && AllDigits(ds)
    requires |rest| == 0 || !IsDigit(rest[0])
    ensures NaturalizeNumbers(ds + rest) == ZeroPad(Value(ds)) + NaturalizeNumbers(rest)
  {
    var w := ds + rest;
    DigitRunOfRun(ds, rest);
    assert w[..|ds|] == ds;
    assert w[|ds|..] == rest;
  }

  /** Text without digits passes through unchanged in front of the rest. */
  lemma {:induction false} NaturalizeNumbersTextThen(t: string, rest: string)
    requires NoDigits(t)
    ensures NaturalizeNumbers(t + rest) == t + NaturalizeNumbers(rest)
  {
    var w := t + rest;
    if |t| == 0 {
      assert w == rest;
    } else {
      assert w[0] == t[0] && !IsDigit(t[0]);
      assert w[1..] == t[1..] + rest;
      NaturalizeNumbersTextThen(t[1..], rest);
      assert t == [t[0]] + t[1..];
    }
  }

  /** A maximal run of digits becomes its zero-padded value. */
  lemma NaturalizeNumbersOfRun(ds: string)
    requires |ds| > 0 && AllDigits(ds)
    ensures NaturalizeNumbers(ds) == ZeroPad(Value(ds))
  {
    NaturalizeNumbersRunThen(ds, "");
    assert ds + "" == ds;
  }

  /** A digit string in canonical form: no leading zero unless it is "0". */
  predicate IsCanonical(ds: string) {
    |ds| >= 1 && AllDigits(ds) && (|ds| > 1 ==> ds[0] != '0')
  }

  lemma {:induction false} ValuePositive(ds: string)
    requires IsCanonical(ds) && ds[0] != '0'
    ensures Value(ds) > 0
  {
    if |ds| > 1 {
      var p := ds[..|ds| - 1];
      assert p[0] == ds[0];
      ValuePositive(p);
    }
  }

  /** Writing out the value of a canonical digit string gives the string
      back: `Decimal` and `Value` are inverse on canonical strings. */
  lemma {:induction false} DecimalOfValue(ds: string)
    requires IsCanonical(ds)
    ensures Decimal(Value(ds)) == ds
  {
    if |ds| > 1 {
      var p := ds[..|ds| - 1];
      assert p[0] == ds[0];
      ValuePositive(p);
      DecimalOfValue(p);
      assert ds == p + [ds[|ds| - 1]];
    }
  }

  /** A canonical run is padded on the left with zeros up to eight digits,
      and a longer one is kept as it is. */
  lemma ZeroPadCanonical(ds: string)
    requires IsCanonical(ds)
    ensures ZeroPad(Value(ds)) == Zeros(if |ds| < PadWidth then PadWidth - |ds| else 0) + ds
  {
    DecimalOfValue(ds);
  }
}
