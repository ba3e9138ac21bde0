/** Struct layout (src/ast/type.cpp:107-133): the offsets the layout helper computes are aligned, in
    order and as small as possible, unless the struct outgrows 32 bits. */
module Layout {
  const U32_RANGE: int := 0x1_0000_0000

  /** Size and alignment of a field's type. */
  datatype Part = Part(size: nat, align: nat)

  // ---------- Powers of two and alignment ----------

  predicate IsPowerOf2(n: nat) { n == 1 || (n > 1 && n % 2 == 0 && IsPowerOf2(n / 2)) }

  /** Bitwise and. */
  function BitAnd(x: nat, y: nat): nat {
    if x == 0 || y == 0 then 0
    else (if x % 2 == 1 && y % 2 == 1 then 1 else 0) + 2 * BitAnd(x / 2, y / 2)
  }

  /** MathUtil::IsAligned masks the low bits. */
  predicate IsAligned(value: nat, alignment: nat)
    requires alignment > 0
  {
    BitAnd(value, alignment - 1) == 0
  }

  function AlignTo(value: nat, align: nat): nat
    requires align > 0
  {
    (value + align - 1) / align * align
  }

  /** The mask tests divisibility when the alignment is a power of two. */
  lemma {:induction false} AlignedIsMultiple(v: nat, a: nat)
    requires IsPowerOf2(a)
    ensures IsAligned(v, a) <==> v % a == 0
    decreases a
  {
    if a > 1 {
      AlignedIsMultiple(v / 2, a / 2);
      assert a == 2 * (a / 2) && (a - 1) / 2 == a / 2 - 1 && (a - 1) % 2 == 1;
      if v > 0 {
        assert BitAnd(v, a - 1) == (if v % 2 == 1 then 1 else 0) + 2 * BitAnd(v / 2, a / 2 - 1);
      }
      HalfMultiple(v, a / 2);
    }
  }

  lemma HalfMultiple(v: nat, h: nat)
    requires h > 0
    ensures v % (2 * h) == 0 <==> v % 2 == 0 && (v / 2) % h == 0
  {
    if v % (2 * h) == 0 {
      var q := v / (2 * h);
      assert v == 2 * (h * q);
      MultipleOf(h * q, h, q);
    }
    if v % 2 == 0 && (v / 2) % h == 0 {
      var q := v / 2 / h;
      assert v / 2 == h * q;
      assert v == (2 * h) * q;
      MultipleOf(v, 2 * h, q);
    }
  }

  lemma AtLeastOnce(a: nat, x: nat)
    requires x >= 1
    ensures a * x >= a
  {
    assert a * x == a + a * (x - 1);
  }

  lemma Apart(a: nat, x: int, y: int)
    ensures a * (x - y) == a * x - a * y
  {
  }

  lemma MultipleOf(v: nat, a: nat, q: nat)
    requires a > 0 && v == a * q
    ensures v % a == 0 && v / a == q
  {
    var d, r := v / a, v % a;
    assert v == a * d + r;
    Apart(a, q, d);
    Apart(a, d, q);
    if q > d {
      AtLeastOnce(a, q - d);
    } else if q < d {
      AtLeastOnce(a, d - q);
    }
  }

  lemma {:induction false} PowersDivide(a: nat, b: nat)
    requires IsPowerOf2(a) && IsPowerOf2(b) && a <= b
    ensures b % a == 0
    decreases a
  {
    if a > 1 {
      PowersDivide(a / 2, b / 2);
      HalfMultiple(b, a / 2);
    }
  }

  lemma DividesTrans(v: nat, b: nat, a: nat)
    requires a > 0 && b > 0 && v % b == 0 && b % a == 0
    ensures v % a == 0
  {
    var q, p := v / b, b / a;
    assert v == b * q == (a * p) * q == a * (p * q);
    MultipleOf(v, a, p * q);
  }

  /** AlignTo is the least multiple at or above a value. */
  lemma AlignToLeast(v: nat, a: nat, w: nat)
    requires a > 0
    ensures v <= AlignTo(v, a) < v + a && AlignTo(v, a) % a == 0
    ensures v <= w && w % a == 0 ==> AlignTo(v, a) <= w
    ensures v % a == 0 ==> AlignTo(v, a) == v
  {
    var q, r := (v + a - 1) / a, (v + a - 1) % a;
    assert v + a - 1 == a * q + r;
    MultipleOf(a * q, a, q);
    AlignUp(v, a, q, w);
    AlignUp(v, a, q, v);
  }

  lemma AlignUp(v: nat, a: nat, q: nat, w: nat)
    requires a > 0 && a * q < v + a
    ensures v <= w && w % a == 0 ==> a * q <= w
  {
    if v <= w && w % a == 0 {
      var p := w / a;
      assert w == a * p;
      if q > p {
        AtLeastOnce(a, q - p);
        Apart(a, q, p);
      }
    }
  }

  // ---------- The ideal layout, on unbounded numbers ----------

  predicate Aligned(parts: seq<Part>) { forall i :: 0 <= i < |parts| ==> IsPowerOf2(parts[i].align) }

  /** Where the first n fields end when they are placed one after the other. */
  function End(parts: seq<Part>, n: nat): nat
    requires Aligned(parts) && n <= |parts|
    decreases n, 0
  {
    if n == 0 then 0 else Start(parts, n - 1) + parts[n - 1].size
  }

  /** The first aligned place for field i behind the fields before it. */
  function Start(parts: seq<Part>, i: nat): nat
    requires Aligned(parts) && i < |parts|
    decreases i, 1
  {
    AlignTo(End(parts, i), parts[i].align)
  }

  /** The largest alignment of the first n fields. */
  function MaxAlign(parts: seq<Part>, n: nat): nat
    requires n <= |parts|
  {
    if n == 0 then 0
    else
      var m := MaxAlign(parts, n - 1);
      if parts[n - 1].align > m then parts[n - 1].align else m
  }

  function StructAlign(parts: seq<Part>): (a: nat)
    ensures a > 0
  {
    var m := MaxAlign(parts, |parts|);
    if m == 0 then 1 else m
  }

  function Total(parts: seq<Part>): nat
    requires Aligned(parts)
  {
    AlignTo(End(parts, |parts|), StructAlign(parts))
  }

  lemma {:induction false} MaxAlignBounds(parts: seq<Part>, n: nat)
    requires Aligned(parts) && n <= |parts|
    ensures n > 0 ==> IsPowerOf2(MaxAlign(parts, n))
    ensures forall i :: 0 <= i < n ==> parts[i].align <= MaxAlign(parts, n)
  {
    if n > 0 {
      MaxAlignBounds(parts, n - 1);
    }
  }

  // ---------- Sound and least ----------

  /** A layout a compiler could choose: fields in order, aligned, not overlapping, within a size that
      keeps every field aligned in arrays of the struct. */
  predicate IsLayout(parts: seq<Part>, offsets: seq<nat>, size: nat)
    requires Aligned(parts)
  {
    && |offsets| == |parts|
    && (forall i :: 0 <= i < |parts| ==> offsets[i] % parts[i].align == 0)
    && (forall i :: 0 < i < |parts| ==> offsets[i - 1] + parts[i - 1].size <= offsets[i])
    && (|parts| > 0 ==> offsets[|parts| - 1] + parts[|parts| - 1].size <= size)
    && (forall i :: 0 <= i < |parts| ==> size % parts[i].align == 0)
  }

  function Starts(parts: seq<Part>): (r: seq<nat>)
    requires Aligned(parts)
    ensures |r| == |parts| && forall i :: 0 <= i < |parts| ==> r[i] == Start(parts, i)
  {
    seq(|parts|, i requires 0 <= i < |parts| => Start(parts, i))
  }

  lemma TotalIsMultiple(parts: seq<Part>, i: nat)
    requires Aligned(parts) && i < |parts|
    ensures Total(parts) % parts[i].align == 0
  {
    MaxAlignBounds(parts, |parts|);
    AlignToLeast(End(parts, |parts|), StructAlign(parts), 0);
    PowersDivide(parts[i].align, StructAlign(parts));
    DividesTrans(Total(parts), StructAlign(parts), parts[i].align);
  }

  lemma {:induction false} IdealIsLayout(parts: seq<Part>)
    requires Aligned(parts)
    ensures IsLayout(parts, Starts(parts), Total(parts))
  {
    MaxAlignBounds(parts, |parts|);
    AlignToLeast(End(parts, |parts|), StructAlign(parts), 0);
    forall i | 0 <= i < |parts| ensures Start(parts, i) % parts[i].align == 0 && Total(parts) % parts[i].align == 0 {
      AlignToLeast(End(parts, i), parts[i].align, 0);
      TotalIsMultiple(parts, i);
    }
    forall i | 0 < i < |parts| ensures Start(parts, i - 1) + parts[i - 1].size <= Start(parts, i) {
      AlignToLeast(Start(parts, i - 1) + parts[i - 1].size, parts[i].align, 0);
    }
  }

  lemma {:induction false} StartLeast(parts: seq<Part>, offsets: seq<nat>, size: nat, i: nat)
    requires Aligned(parts) && IsLayout(parts, offsets, size) && i < |parts|
    ensures Start(parts, i) <= offsets[i]
    decreases i
  {
    if i > 0 {
      StartLeast(parts, offsets, size, i - 1);
      AlignToLeast(Start(parts, i - 1) + parts[i - 1].size, parts[i].align, offsets[i]);
    } else {
      AlignToLeast(0, parts[0].align, offsets[0]);
    }
  }

  lemma {:induction false} MaxAlignTaken(parts: seq<Part>, n: nat) returns (i: nat)
    requires 0 < n <= |parts|
    ensures i < n && parts[i].align == MaxAlign(parts, n)
  {
    if n == 1 || parts[n - 1].align > MaxAlign(parts, n - 1) {
      i := n - 1;
    } else {
      i := MaxAlignTaken(parts, n - 1);
    }
  }

  /** The computed layout is pointwise least: no layout of the same fields has a smaller offset or size. */
  lemma {:induction false} Least(parts: seq<Part>, offsets: seq<nat>, size: nat)
    requires Aligned(parts) && IsLayout(parts, offsets, size)
    ensures forall i :: 0 <= i < |parts| ==> Start(parts, i) <= offsets[i]
    ensures Total(parts) <= size
  {
    MaxAlignBounds(parts, |parts|);
    forall i | 0 <= i < |parts| ensures Start(parts, i) <= offsets[i] {
      StartLeast(parts, offsets, size, i);
    }
    if |parts| > 0 {
      var i := MaxAlignTaken(parts, |parts|);
      AlignToLeast(End(parts, |parts|), StructAlign(parts), size);
    } else {
      AlignToLeast(0, 1, 0);
    }
  }

  /** In an array of the struct every field of every element is aligned. */
  lemma {:induction false} ArraysStayAligned(parts: seq<Part>, i: nat, k: nat)
    requires Aligned(parts) && i < |parts|
    ensures (k * Total(parts) + Start(parts, i)) % parts[i].align == 0
  {
    MaxAlignBounds(parts, |parts|);
    TotalIsMultiple(parts, i);
    AlignToLeast(End(parts, i), parts[i].align, 0);
    SumOfMultiples(Total(parts), Start(parts, i), parts[i].align, k);
  }

  lemma SumOfMultiples(t: nat, s: nat, a: nat, k: nat)
    requires a > 0 && t % a == 0 && s % a == 0
    ensures (k * t + s) % a == 0
  {
    var p, q := t / a, s / a;
    assert t == a * p && s == a * q;
    assert k * t == a * (k * p);
    assert k * t + s == a * (k * p + q);
    MultipleOf(k * t + s, a, k * p + q);
  }

  // ---------- The helper, on 32-bit numbers ----------

  function Wrap(n: nat): nat { n % U32_RANGE }

  lemma {:induction false} ProductIsPower(a: nat, b: nat)
    requires IsPowerOf2(a) && IsPowerOf2(b)
    ensures IsPowerOf2(a * b)
  {
    if a > 1 {
      ProductIsPower(a / 2, b);
      assert a * b == 2 * (a / 2 * b);
    }
  }

  lemma RangeIsPower()
    ensures IsPowerOf2(U32_RANGE)
  {
    ProductIsPower(2, 2);
    ProductIsPower(4, 4);
    ProductIsPower(16, 16);
    ProductIsPower(256, 256);
    ProductIsPower(65536, 65536);
  }

  /** Wrapping around does not disturb alignment. */
  lemma WrapAlign(x: nat, a: nat)
    requires IsPowerOf2(a) && a <= U32_RANGE
    ensures Wrap(AlignTo(Wrap(x), a)) == Wrap(AlignTo(x, a))
  {
    assert U32_RANGE % a == 0 by {
      RangeIsPower();
      PowersDivide(a, U32_RANGE);
    }
    hide IsPowerOf2, AlignTo;
    var y, m := Wrap(x), x / U32_RANGE;
    assert x == U32_RANGE * m + y;
    ShiftAlign(y, a, U32_RANGE * m);
    WrapShift(AlignTo(y, a), m);
  }

  lemma ShiftAlign(y: nat, a: nat, shift: nat)
    requires a > 0 && (exists m: nat :: shift == U32_RANGE * m) && U32_RANGE % a == 0
    ensures AlignTo(y + shift, a) == AlignTo(y, a) + shift
  {
    var m: nat :| shift == U32_RANGE * m;
    var c := U32_RANGE / a;
    assert U32_RANGE == a * c && shift == a * (c * m);
    var q, p := (y + a - 1) / a, (y + shift + a - 1) / a;
    MultipleOf(shift, a, c * m);
    QuotientShift(y + a - 1, a, c * m);
    assert (q + c * m) * a == q * a + a * (c * m);
  }

  lemma QuotientShift(v: nat, a: nat, n: nat)
    requires a > 0
    ensures (v + a * n) / a == v / a + n
  {
    var q, r := v / a, v % a;
    assert v + a * n == a * (q + n) + r;
    var d, t := (v + a * n) / a, (v + a * n) % a;
    Apart(a, q + n, d);
    Apart(a, d, q + n);
    if q + n > d {
      AtLeastOnce(a, q + n - d);
    } else if q + n < d {
      AtLeastOnce(a, d - q - n);
    }
  }

  lemma WrapShift(n: nat, m: nat)
    ensures Wrap(n + U32_RANGE * m) == Wrap(n)
  {
  }

  lemma WrapAdd(x: nat, n: nat)
    ensures Wrap(Wrap(x) + n) == Wrap(x + n)
  {
    var m := x / U32_RANGE;
    assert x + n == Wrap(x) + n + U32_RANGE * m;
    WrapShift(Wrap(x) + n, m);
  }

  class LayoutHelper {
    var size: nat
    var alignment: nat
    var offsets: seq<nat>

    /** The ideal layout, cut off to 32 bits. */
    constructor (parts: seq<Part>)
      requires Aligned(parts) && forall i :: 0 <= i < |parts| ==> parts[i].align < U32_RANGE
      ensures alignment == StructAlign(parts) && size == Wrap(Total(parts))
      ensures |offsets| == |parts| && forall i :: 0 <= i < |parts| ==> offsets[i] == Wrap(Start(parts, i))
    {
      size, alignment, offsets := 0, 0, [];
      new;
      hide Wrap, Start, Total, IsAligned, AlignTo, IsPowerOf2;
      ZeroFits();
      for i := 0 to |parts|
        invariant |offsets| == i && size == Wrap(End(parts, i)) && alignment == MaxAlign(parts, i)
        invariant forall k :: 0 <= k < i ==> offsets[k] == Wrap(Start(parts, k))
      {
        var part := parts[i];
        PlaceField(parts, i);
        if !IsAligned(size, part.align) {
          size := Wrap(AlignTo(size, part.align));
        }
        offsets := offsets + [size];
        size := Wrap(size + part.size);
        alignment := if part.align > alignment then part.align else alignment;
      }
      PadEnd(parts);
      if alignment == 0 {
        alignment := 1;
      }
      if !IsAligned(size, alignment) {
        size := Wrap(AlignTo(size, alignment));
      }
    }
  }

  lemma ZeroFits()
    ensures Wrap(0) == 0
  {
  }

  function Rounded(size: nat, align: nat): nat
    requires align > 0
  {
    if IsAligned(size, align) then size else Wrap(AlignTo(size, align))
  }

  lemma RoundedWrap(x: nat, a: nat)
    requires IsPowerOf2(a) && a <= U32_RANGE
    ensures Rounded(Wrap(x), a) == Wrap(AlignTo(x, a))
  {
    AlignedIsMultiple(Wrap(x), a);
    AlignToLeast(Wrap(x), a, 0);
    WrapAlign(x, a);
    WrapAdd(x, 0);
  }

  lemma PlaceField(parts: seq<Part>, i: nat)
    requires Aligned(parts) && i < |parts| && parts[i].align < U32_RANGE
    ensures Rounded(Wrap(End(parts, i)), parts[i].align) == Wrap(Start(parts, i))
    ensures Wrap(Wrap(Start(parts, i)) + parts[i].size) == Wrap(End(parts, i + 1))
  {
    hide Rounded, Wrap;
    RoundedWrap(End(parts, i), parts[i].align);
    WrapAdd(Start(parts, i), parts[i].size);
  }

  lemma PadEnd(parts: seq<Part>)
    requires Aligned(parts) && forall i :: 0 <= i < |parts| ==> parts[i].align < U32_RANGE
    ensures Rounded(Wrap(End(parts, |parts|)), StructAlign(parts)) == Wrap(Total(parts))
  {
    hide Rounded, Wrap, Start, End;
    MaxAlignBounds(parts, |parts|);
    MaxAlignFits(parts);
    RoundedWrap(End(parts, |parts|), StructAlign(parts));
  }

  lemma MaxAlignFits(parts: seq<Part>)
    requires Aligned(parts) && forall i :: 0 <= i < |parts| ==> parts[i].align < U32_RANGE
    ensures StructAlign(parts) <= U32_RANGE
  {
    if |parts| > 0 {
      var i := MaxAlignTaken(parts, |parts|);
    }
  }

  /** The helper's answer is a layout, and then the least one, exactly when the ideal size fits in
      32 bits. */
  lemma {:induction false} FitsExactly(parts: seq<Part>, offsets: seq<nat>, size: nat)
    requires Aligned(parts) && |offsets| == |parts| && size == Wrap(Total(parts))
    requires forall i :: 0 <= i < |parts| ==> offsets[i] == Wrap(Start(parts, i))
    ensures IsLayout(parts, offsets, size) <==> Total(parts) < U32_RANGE
  {
    hide IsLayout, Start, Total;
    if Total(parts) < U32_RANGE {
      AllBelowTotal(parts);
      forall i | 0 <= i < |parts| ensures offsets[i] == Starts(parts)[i] {
        assert Start(parts, i) < U32_RANGE;
      }
      assert offsets == Starts(parts);
      IdealIsLayout(parts);
    } else if IsLayout(parts, offsets, size) {
      Least(parts, offsets, size);
    }
  }

  /** A struct that does not fit: two byte arrays of 2^31 bytes get the size 0. */
  lemma LargeStructWraps()
    ensures var half := Part(0x8000_0000, 1);
            && Aligned([half, half]) && Total([half, half]) == U32_RANGE && Wrap(Total([half, half])) == 0
            && !IsLayout([half, half], [0, 0x8000_0000], 0)
  {
    var half := Part(0x8000_0000, 1);
    var parts := [half, half];
    assert MaxAlign(parts, 1) == 1 && MaxAlign(parts, 2) == 1;
    assert End(parts, 1) == 0x8000_0000 && Start(parts, 1) == 0x8000_0000;
    FitsExactly(parts, [0, 0x8000_0000], 0);
  }

  lemma {:induction false} AllBelowTotal(parts: seq<Part>)
    requires Aligned(parts)
    ensures forall i :: 0 <= i < |parts| ==> Start(parts, i) <= Total(parts)
  {
    AlignToLeast(End(parts, |parts|), StructAlign(parts), 0);
    forall i | 0 <= i < |parts| ensures Start(parts, i) <= Total(parts) {
      StartBelowEnd(parts, i, |parts| - 1);
    }
  }

  lemma {:induction false} StartBelowEnd(parts: seq<Part>, i: nat, j: nat)
    requires Aligned(parts) && i <= j < |parts|
    ensures Start(parts, i) <= Start(parts, j)
    decreases j
  {
    if i < j {
      StartBelowEnd(parts, i, j - 1);
      AlignToLeast(Start(parts, j - 1) + parts[j - 1].size, parts[j].align, 0);
    }
  }
}
