/** Column widths and narrowing (benchmark/sql/join_hash_table_benchmark.cpp:37-104): the bits recorded
    for a column are exactly those its values need, and columns that fit are narrowed without loss. */
module ColumnBits {
  import opened Division

  const U64_RANGE: nat := 0x1_0000_0000_0000_0000

  /** Conversion to an unsigned 64-bit integer. */
  function ToU64(v: int): (u: nat)
    ensures u < U64_RANGE
  {
    v % U64_RANGE
  }

  function BitOr(x: nat, y: nat): nat
    decreases x + y
  {
    if x == 0 then y
    else if y == 0 then x
    else (if x % 2 == 1 || y % 2 == 1 then 1 else 0) + 2 * BitOr(x / 2, y / 2)
  }

  /** An or stays below a power of two exactly when both operands do. */
  lemma {:induction false} OrBelow(x: nat, y: nat, b: nat)
    ensures BitOr(x, y) < Pow2(b) <==> x < Pow2(b) && y < Pow2(b)
    decreases b
  {
    if x > 0 && y > 0 && b > 0 {
      OrBelow(x / 2, y / 2, b - 1);
    } else if b == 0 && x > 0 && y > 0 {
      assert BitOr(x, y) >= 1 by { OrAtLeast(x, y); }
    }
  }

  lemma {:induction false} OrAtLeast(x: nat, y: nat)
    requires x > 0 && y > 0
    ensures BitOr(x, y) >= 1
    decreases x + y
  {
    if x % 2 == 0 && y % 2 == 0 {
      OrAtLeast(x / 2, y / 2);
    }
  }

  /** The zeros above the top one of an n-bit number; llvm counts all n for zero. */
  function LeadingZeros(x: nat, n: nat): (z: nat)
    ensures z <= n
  {
    if n == 0 || x >= Pow2(n - 1) then 0 else 1 + LeadingZeros(x, n - 1)
  }

  function Width(x: nat): nat { 64 - LeadingZeros(x, 64) }

  lemma {:induction false} ZerosExact(x: nat, n: nat, b: nat)
    requires x < Pow2(n)
    ensures n - LeadingZeros(x, n) <= b <==> x < Pow2(b)
    decreases n
  {
    if n == 0 {
      Pow2Grows(0, b);
    } else if x >= Pow2(n - 1) {
      if b >= n { Pow2Grows(n, b); } else { Pow2Grows(b, n - 1); }
    } else {
      ZerosExact(x, n - 1, b);
    }
  }

  lemma Pow2Values()
    ensures Pow2(64) == U64_RANGE && Pow2(63) == 0x8000_0000_0000_0000
  {
    assert Pow2(4) == 16;
    Pow2Add(4, 4);
    Pow2Add(8, 8);
    Pow2Add(16, 16);
    Pow2Add(32, 32);
    assert Pow2(64) == 2 * Pow2(63);
  }

  lemma WidthExact(x: nat, b: nat)
    requires x < U64_RANGE
    ensures Width(x) <= b <==> x < Pow2(b)
  {
    Pow2Values();
    ZerosExact(x, 64, b);
  }

  // ---------- The analysis ----------

  /** A row of a join table: a 32-bit key and 64-bit values. */
  datatype Row = Row(key: int, vals: seq<int>)

  /** The key is column 0. */
  function Cell(row: Row, col: nat): int
    requires col <= |row.vals|
  {
    if col == 0 then row.key else row.vals[col - 1]
  }

  predicate Rectangular(rows: seq<Row>, n: nat) { forall i :: 0 <= i < |rows| ==> |rows[i].vals| == n }

  /** The or of a column of the first rows. */
  function Ored(rows: seq<Row>, n: nat, col: nat, k: nat): nat
    requires Rectangular(rows, n) && col <= n && k <= |rows|
    decreases k
  {
    if k == 0 then 0 else BitOr(Ored(rows, n, col, k - 1), ToU64(Cell(rows[k - 1], col)))
  }

  lemma {:induction false} OredBelow(rows: seq<Row>, n: nat, col: nat, k: nat, b: nat)
    requires Rectangular(rows, n) && col <= n && k <= |rows|
    ensures Ored(rows, n, col, k) < Pow2(b) <==> forall i :: 0 <= i < k ==> ToU64(Cell(rows[i], col)) < Pow2(b)
    decreases k
  {
    if k > 0 {
      OredBelow(rows, n, col, k - 1, b);
      OrBelow(Ored(rows, n, col, k - 1), ToU64(Cell(rows[k - 1], col)), b);
    }
  }

  lemma OredIsWord(rows: seq<Row>, n: nat, col: nat, k: nat)
    requires Rectangular(rows, n) && col <= n && k <= |rows|
    ensures Ored(rows, n, col, k) < U64_RANGE
  {
    Pow2Values();
    OredBelow(rows, n, col, k, 64);
  }

  /** The least width: every value of the column fits b bits exactly when b is at least the width. */
  ghost predicate IsWidth(rows: seq<Row>, n: nat, col: nat, width: nat)
    requires Rectangular(rows, n) && col <= n
  {
    forall b: nat :: width <= b <==> forall i :: 0 <= i < |rows| ==> ToU64(Cell(rows[i], col)) < Pow2(b)
  }

  lemma ColumnWidth(rows: seq<Row>, n: nat, col: nat)
    requires Rectangular(rows, n) && col <= n
    ensures Ored(rows, n, col, |rows|) < U64_RANGE && IsWidth(rows, n, col, Width(Ored(rows, n, col, |rows|)))
  {
    OredIsWord(rows, n, col, |rows|);
    forall b: nat ensures Width(Ored(rows, n, col, |rows|)) <= b
        <==> forall i :: 0 <= i < |rows| ==> ToU64(Cell(rows[i], col)) < Pow2(b) {
      WidthExact(Ored(rows, n, col, |rows|), b);
      OredBelow(rows, n, col, |rows|, b);
    }
  }

  method Analyze(rows: seq<Row>, n: nat) returns (bits: seq<nat>)
    requires Rectangular(rows, n)
    ensures |bits| == n + 1 && forall col :: 0 <= col <= n ==> IsWidth(rows, n, col, bits[col])
  {
    hide IsWidth, Width, BitOr, ToU64;
    var bitsK := 0;
    var bitsV := new nat[n](_ => 0);
    for i := 0 to |rows|
      invariant bitsK == Ored(rows, n, 0, i)
      invariant forall j :: 0 <= j < n ==> bitsV[j] == Ored(rows, n, j + 1, i)
    {
      bitsK := BitOr(bitsK, ToU64(rows[i].key));
      for j := 0 to n
        invariant forall m :: 0 <= m < j ==> bitsV[m] == Ored(rows, n, m + 1, i + 1)
        invariant forall m :: j <= m < n ==> bitsV[m] == Ored(rows, n, m + 1, i)
      {
        bitsV[j] := BitOr(bitsV[j], ToU64(rows[i].vals[j]));
      }
    }
    bits := [Width(bitsK)];
    ColumnWidth(rows, n, 0);
    for j := 0 to n
      invariant forall m :: 0 <= m < n ==> bitsV[m] == Ored(rows, n, m + 1, |rows|)
      invariant |bits| == j + 1 && forall col :: 0 <= col <= j ==> IsWidth(rows, n, col, bits[col])
    {
      bits := bits + [Width(bitsV[j])];
      ColumnWidth(rows, n, j + 1);
    }
  }

  // ---------- Narrowing ----------

  /** A narrow integer type. */
  datatype Narrow = Narrow(width: nat, signed: bool) {
    /** The bits of its non-negative range. */
    function Room(): int { if signed then width - 1 else width }

    /** Two's complement conversion. */
    function Convert(v: int): int {
      var u := v % Pow2(width);
      if signed && width > 0 && u >= Pow2(width - 1) then u - Pow2(width) else u
    }
  }

  /** Conversion adds a multiple of the power of two and lands in the range of the type. */
  lemma ConvertIsCongruent(t: Narrow, v: int) returns (k: int)
    requires t.width > 0
    ensures t.Convert(v) == v + k * Pow2(t.width)
    ensures if t.signed then -(Pow2(t.width - 1) as int) <= t.Convert(v) < Pow2(t.width - 1)
            else 0 <= t.Convert(v) < Pow2(t.width)
  {
    var m := Pow2(t.width);
    assert v == v / m * m + v % m;
    k := if t.signed && v % m >= Pow2(t.width - 1) then -(v / m) - 1 else -(v / m);
    Product(m, -(v / m), 1);
  }

  lemma ConvertKeeps(t: Narrow, v: nat)
    requires t.width > 0
    ensures t.Convert(v) == v <==> v < Pow2(t.Room())
  {
    if v < Pow2(t.width) {
      Small(v, Pow2(t.width));
    } else {
      ConvertBelow(t, v);
    }
  }

  lemma Small(v: nat, m: nat)
    requires v < m
    ensures v % m == v
  {
  }

  lemma ConvertBelow(t: Narrow, v: int)
    requires t.width > 0
    ensures t.Convert(v) < Pow2(t.Room())
  {
  }

  /** A column is recorded with at most the room of the narrow type exactly when its values, read as
      unsigned, all convert to themselves; negative values read as huge ones. */
  lemma {:induction false} FitsIffLossless(rows: seq<Row>, n: nat, col: nat, width: nat, t: Narrow)
    requires Rectangular(rows, n) && col <= n && IsWidth(rows, n, col, width) && t.width > 0
    ensures width <= t.Room()
            <==> forall i :: 0 <= i < |rows| ==> t.Convert(ToU64(Cell(rows[i], col))) == ToU64(Cell(rows[i], col))
  {
    forall i | 0 <= i < |rows|
      ensures t.Convert(ToU64(Cell(rows[i], col))) == ToU64(Cell(rows[i], col))
              <==> ToU64(Cell(rows[i], col)) < Pow2(t.Room())
    {
      ConvertKeeps(t, ToU64(Cell(rows[i], col)));
    }
    var b: nat := t.Room();
    assert width <= b <==> forall i :: 0 <= i < |rows| ==> ToU64(Cell(rows[i], col)) < Pow2(b);
  }

  lemma OneMore(v: nat, m: nat)
    requires m > 0
    ensures (v + m) % m == v % m
  {
    Divided(v, m);
    Product(m, v / m, 1);
    QuotientIs(v + m, m, v / m + 1, v % m);
  }

  predicate IsI64(v: int) { -0x8000_0000_0000_0000 <= v < 0x8000_0000_0000_0000 }

  predicate AllI64(rows: seq<Row>, n: nat)
    requires Rectangular(rows, n)
  {
    forall i, col :: 0 <= i < |rows| && 0 <= col <= n ==> IsI64(Cell(rows[i], col))
  }

  predicate Fits(bits: seq<nat>, t: Narrow) { forall col :: 0 <= col < |bits| ==> bits[col] <= t.Room() }

  lemma {:induction false} ValueKept(rows: seq<Row>, n: nat, col: nat, width: nat, t: Narrow, i: nat)
    requires Rectangular(rows, n) && col <= n && IsWidth(rows, n, col, width) && 0 < t.width < 64
    requires width <= t.Room() && i < |rows| && IsI64(Cell(rows[i], col))
    ensures 0 <= Cell(rows[i], col) < Pow2(t.Room()) && t.Convert(Cell(rows[i], col)) == Cell(rows[i], col)
  {
    assert ToU64(Cell(rows[i], col)) < Pow2(t.Room());
    Pow2Grows(t.Room(), 63);
    Pow2Values();
    Unsigned(Cell(rows[i], col));
    ConvertKeeps(t, Cell(rows[i], col));
  }

  lemma Unsigned(v: int)
    requires IsI64(v)
    ensures ToU64(v) == if v < 0 then v + U64_RANGE else v
  {
  }

  function Compressed(row: Row, t: Narrow): (r: seq<int>)
    ensures |r| == |row.vals| + 1 && forall col :: 0 <= col <= |row.vals| ==> r[col] == t.Convert(Cell(row, col))
  {
    seq(|row.vals| + 1, col requires 0 <= col <= |row.vals| => t.Convert(Cell(row, col)))
  }

  /** Writes every row into its output row, converting each column. */
  method Compress(rows: seq<Row>, n: nat, t: Narrow, out: seq<array<int>>)
    requires Rectangular(rows, n) && |out| == |rows| && t.width > 0
    requires forall i :: 0 <= i < |out| ==> out[i].Length == n + 1
    requires forall i, j :: 0 <= i < j < |out| ==> out[i] != out[j]
    modifies out
    ensures forall i :: 0 <= i < |rows| ==> out[i][..] == Compressed(rows[i], t)
  {
    for i := 0 to |rows|
      invariant forall k :: 0 <= k < i ==> out[k][..] == Compressed(rows[k], t)
    {
      out[i][0] := t.Convert(rows[i].key);
      for j := 0 to n
        invariant forall k :: 0 <= k < i ==> out[k][..] == Compressed(rows[k], t)
        invariant forall col :: 0 <= col <= j ==> out[i][col] == t.Convert(Cell(rows[i], col))
      {
        out[i][j + 1] := t.Convert(rows[i].vals[j]);
      }
      assert out[i][..] == Compressed(rows[i], t);
    }
  }

  /** Lossless compression: when every recorded width fits the narrow type, each compressed row holds
      the values of its row, and comparing narrow keys agrees with comparing wide keys for every safe
      probe key. */
  lemma {:induction false} CompressionLossless(rows: seq<Row>, n: nat, bits: seq<nat>, t: Narrow, i: nat, probe: int)
    requires Rectangular(rows, n) && AllI64(rows, n) && 0 < t.width < 64 && i < |rows|
    requires |bits| == n + 1 && forall col :: 0 <= col <= n ==> IsWidth(rows, n, col, bits[col])
    requires Fits(bits, t)
    ensures forall col :: 0 <= col <= n ==> Compressed(rows[i], t)[col] == Cell(rows[i], col)
    ensures SafeProbe(t, probe) ==> (Compressed(rows[i], t)[0] == t.Convert(probe) <==> rows[i].key == probe)
  {
    forall col | 0 <= col <= n ensures Compressed(rows[i], t)[col] == Cell(rows[i], col) {
      ValueKept(rows, n, col, bits[col], t, i);
    }
    if SafeProbe(t, probe) {
      ValueKept(rows, n, 0, bits[0], t, i);
      SafeProbeAgrees(t, probe, rows[i].key);
    }
  }

  /** A probe key in the non-negative range of the narrow type, or one that a signed type turns negative. */
  predicate SafeProbe(t: Narrow, probe: int)
    requires t.width > 0
  {
    0 <= probe < Pow2(t.Room()) || (t.signed && probe % Pow2(t.width) >= Pow2(t.width - 1))
  }

  /** Comparing the narrow probe with a key tells what comparing the wide one does. */
  predicate Agrees(t: Narrow, probe: int, key: nat) { t.Convert(probe) == key <==> key == probe }

  lemma SafeProbeAgrees(t: Narrow, probe: int, key: nat)
    requires t.width > 0 && SafeProbe(t, probe) && key < Pow2(t.Room())
    ensures Agrees(t, probe, key)
  {
    if 0 <= probe < Pow2(t.Room()) {
      ConvertKeeps(t, probe);
    } else if key == probe {
      ConvertKeeps(t, key);
    }
  }

  /** Exactly the safe probe keys are compared correctly with every key in the range. */
  lemma ProbeExact(t: Narrow, probe: int)
    requires t.width > 0
    ensures SafeProbe(t, probe) <==> forall key: nat :: key < Pow2(t.Room()) ==> Agrees(t, probe, key)
  {
    if SafeProbe(t, probe) {
      forall key: nat | key < Pow2(t.Room()) ensures Agrees(t, probe, key) {
        SafeProbeAgrees(t, probe, key);
      }
    } else {
      ConvertBelow(t, probe);
      assert !Agrees(t, probe, t.Convert(probe));
    }
  }

  /** A probe key that is not safe: one full turn above a key it collides with it after conversion. */
  lemma ProbeOutsideCollides(t: Narrow, key: nat)
    requires t.width > 0 && key < Pow2(t.Room())
    ensures t.Convert(key + Pow2(t.width)) == t.Convert(key) && !SafeProbe(t, key + Pow2(t.width))
  {
    hide SafeProbe, Pow2;
    var probe := key + Pow2(t.width);
    OneMore(key, Pow2(t.width));
    ConvertKeeps(t, key);
    if SafeProbe(t, probe) { SafeProbeAgrees(t, probe, key); }
  }
}
