/**
 * Hexadecimal digits and numbers as colour codes use them: reading a run
 * of hex digits, `Number.prototype.toString(16)`, and fixed-width
 * lower-case renderings, with the round trips between them.
 */
module Hex {
  import opened Strs

  predicate IsHexDigit(c: char)
  {
    '0' <= c <= '9' || 'a' <= c <= 'f' || 'A' <= c <= 'F'
  }

  predicate AllHex(s: string)
  {
    forall i :: 0 <= i < |s| ==> IsHexDigit(s[i])
  }

  function DigitValue(c: char): (v: nat)
    requires IsHexDigit(c)
    ensures v < 16
  {
    if '0' <= c <= '9' then c as int - '0' as int
    else if 'a' <= c <= 'f' then c as int - 'a' as int + 10
    else c as int - 'A' as int + 10
  }

  /** The lower-case digit of a value below 16. */
  function LowerDigit(v: nat): (c: char)
    requires v < 16
    ensures IsHexDigit(c) && DigitValue(c) == v
    ensures !('A' <= c <= 'F')
  {
    if v < 10 then ('0' as int + v) as char else ('a' as int + v - 10) as char
  }

  /** A hex digit in lower case. */
  function LowerChar(c: char): char
    requires IsHexDigit(c)
  {
    LowerDigit(DigitValue(c))
  }

  /** A run of hex digits in lower case. */
  function Lowercase(s: string): (r: string)
    requires AllHex(s)
    ensures |r| == |s|
    ensures forall i :: 0 <= i < |s| ==> r[i] == LowerChar(s[i])
  {
    if s == [] then [] else Lowercase(s[..|s| - 1]) + [LowerChar(s[|s| - 1])]
  }

  function Pow16(n: nat): (p: nat)
    ensures p >= 1
  {
    if n == 0 then 1 else 16 * Pow16(n - 1)
  }

  lemma {:induction false} Pow16Add(a: nat, b: nat)
    ensures Pow16(a + b) == Pow16(a) * Pow16(b)
  {
    if b > 0 {
      Pow16Add(a, b - 1);
    }
  }

  lemma AllHexSlice(s: string, i: nat, j: nat)
    requires AllHex(s) && i <= j <= |s|
    ensures AllHex(s[i..j])
  {
    forall k | 0 <= k < j - i ensures IsHexDigit(s[i..j][k]) {
      assert s[i..j][k] == s[i + k];
    }
  }

  /** The value of a run of hex digits, most significant first. */
  function ParseDigits(s: string): (v: nat)
    requires AllHex(s)
    ensures v < Pow16(|s|)
  {
    if s == [] then 0 else ParseDigits(s[..|s| - 1]) * 16 + DigitValue(s[|s| - 1])
  }

  /** `width` lower-case digits of `v`, zero-filled on the left. */
  function FixedHex(v: nat, width: nat): (r: string)
    requires v < Pow16(width)
    ensures |r| == width && AllHex(r)
    ensures forall i :: 0 <= i < |r| ==> !('A' <= r[i] <= 'F')
  {
    if width == 0 then [] else
      var r := FixedHex(v / 16, width - 1) + [LowerDigit(v % 16)];
      assert forall i :: 0 <= i < width - 1 ==> r[i] == FixedHex(v / 16, width - 1)[i];
      r
  }

  /** `v.toString(16)`: lower-case digits without leading zeros (`"0"` for zero). */
  function ToHexString(v: nat): (r: string)
    ensures |r| >= 1 && AllHex(r)
  {
    if v < 16 then [LowerDigit(v)] else
      var r := ToHexString(v / 16) + [LowerDigit(v % 16)];
      assert forall i :: 0 <= i < |r| - 1 ==> r[i] == ToHexString(v / 16)[i];
      r
  }

  /** Rendering the value of a run of digits at its own width gives the run back, lower-cased. */
  lemma {:induction false} FixedHexOfParse(s: string)
    requires AllHex(s)
    ensures FixedHex(ParseDigits(s), |s|) == Lowercase(s)
  {
    if s != [] {
      var p := s[..|s| - 1];
      var c := s[|s| - 1];
      assert AllHex(p);
      FixedHexOfParse(p);
      var v := ParseDigits(s);
      assert v == ParseDigits(p) * 16 + DigitValue(c);
      DivMod16(v, ParseDigits(p), DigitValue(c));
      assert FixedHex(v, |s|) == FixedHex(ParseDigits(p), |p|) + [LowerDigit(DigitValue(c))];
      assert Lowercase(s) == Lowercase(p) + [LowerChar(c)];
    }
  }

  /** Reading a fixed-width rendering gives the value back. */
  lemma {:induction false} ParseOfFixedHex(v: nat, width: nat)
    requires v < Pow16(width)
    ensures ParseDigits(FixedHex(v, width)) == v
  {
    if width > 0 {
      var r := FixedHex(v, width);
      ParseOfFixedHex(v / 16, width - 1);
      assert r[..width - 1] == FixedHex(v / 16, width - 1);
    }
  }

  /** Zero renders as zeros only. */
  lemma {:induction false} FixedHexZero(width: nat)
    ensures FixedHex(0, width) == seq(width, _ => '0')
  {
    if width > 0 {
      FixedHexZero(width - 1);
    }
  }

  /** `padStart(width, '0')` of `toString(16)` is the fixed-width rendering whenever the value fits. */
  lemma {:induction false} PaddedHex(v: nat, width: nat)
    requires 1 <= width && v < Pow16(width)
    ensures PadStart(ToHexString(v), width, '0') == FixedHex(v, width)
  {
    if v < 16 {
      FixedHexZero(width - 1);
      assert FixedHex(v, width) == FixedHex(0, width - 1) + [LowerDigit(v)];
    } else {
      assert width >= 2;
      PaddedHex(v / 16, width - 1);
      var x := ToHexString(v / 16);
      assert |x| <= width - 1;
      assert PadStart(x + [LowerDigit(v % 16)], width, '0') == PadStart(x, width - 1, '0') + [LowerDigit(v % 16)];
    }
  }

  /** A fixed-width rendering splits into the renderings of the high and low parts. */
  lemma {:induction false} FixedHexSplit(hi: nat, lo: nat, k: nat, w: nat)
    requires hi < Pow16(k) && lo < Pow16(w)
    ensures hi * Pow16(w) + lo < Pow16(k + w)
    ensures FixedHex(hi * Pow16(w) + lo, k + w) == FixedHex(hi, k) + FixedHex(lo, w)
  {
    Pow16Add(k, w);
    MulBound(hi, Pow16(k), lo, Pow16(w));
    if w > 0 {
      var p := Pow16(w - 1);
      var v := hi * Pow16(w) + lo;
      var q := hi * p + lo / 16;
      assert v == q * 16 + lo % 16 by {
        assert hi * Pow16(w) == (hi * p) * 16;
        assert lo == (lo / 16) * 16 + lo % 16;
        assert q * 16 == (hi * p) * 16 + (lo / 16) * 16;
      }
      DivMod16(v, q, lo % 16);
      assert lo / 16 < p by {
        MulBound(lo / 16, p, 0, 16);
      }
      FixedHexSplit(hi, lo / 16, k, w - 1);
    }
  }

  lemma MulBound(hi: nat, bound: nat, lo: nat, unit: nat)
    requires hi < bound && lo < unit
    ensures hi * unit + lo < bound * unit
  {
    assert hi * unit + unit == (hi + 1) * unit;
    assert (hi + 1) * unit <= bound * unit;
  }

  lemma DivMod16(v: nat, q: nat, r: nat)
    requires r < 16 && v == q * 16 + r
    ensures v / 16 == q && v % 16 == r
  {
  }

  /** The value of a concatenation of digit runs. */
  lemma {:induction false} ParseSplit(a: string, b: string)
    requires AllHex(a) && AllHex(b)
    ensures AllHex(a + b)
    ensures ParseDigits(a + b) == ParseDigits(a) * Pow16(|b|) + ParseDigits(b)
  {
    var s := a + b;
    assert AllHex(s);
    if b != [] {
      var b' := b[..|b| - 1];
      assert s[..|s| - 1] == a + b';
      assert AllHex(b');
      ParseSplit(a, b');
      var pa := ParseDigits(a);
      var pb := ParseDigits(b');
      var d := DigitValue(b[|b| - 1]);
      assert ParseDigits(s) == (pa * Pow16(|b'|) + pb) * 16 + d;
      assert ParseDigits(b) == pb * 16 + d;
      assert Pow16(|b|) == Pow16(|b'|) * 16;
      Regroup(pa, pb, d, Pow16(|b'|));
    } else {
      assert s == a;
    }
  }

  lemma Regroup(pa: int, pb: int, d: int, unit: int)
    ensures (pa * unit + pb) * 16 + d == pa * (unit * 16) + (pb * 16 + d)
  {
  }
}
