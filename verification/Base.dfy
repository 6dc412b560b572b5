/** Shared vocabulary: options, results, bytes and little-endian integers. */
module Base {
  datatype Option<+T> = None | Some(value: T)

  /** The error kinds of the modelled crates. `Panic` stands for an unwinding index or
      arithmetic panic: like any error inside an index transaction, it aborts it. */
  datatype Error =
    | NotFound | OutOfRange | Unaligned | Corrupt | Io | Config | Unsupported | Panic

  datatype Result<+T> = Ok(value: T) | Err(error: Error)

  type byte = b: int | 0 <= b < 256
  type bytes = seq<byte>

  function Min(a: int, b: int): int { if a < b then a else b }

  function Max(a: int, b: int): int { if a < b then b else a }

  function DivCeil(a: nat, b: nat): (q: nat)
    requires b > 0
  {
    (a + b - 1) / b
  }

  function Pow256(w: nat): (p: nat)
    ensures p > 0
  {
    if w == 0 then 1 else 256 * Pow256(w - 1)
  }

  /** `n.to_le_bytes()` of a `w`-byte integer. */
  function ToLE(n: nat, w: nat): (b: bytes)
    requires n < Pow256(w)
    ensures |b| == w
  {
    if w == 0 then [] else [n % 256] + ToLE(n / 256, w - 1)
  }

  /** `from_le_bytes`. */
  function FromLE(b: bytes): (n: nat)
    ensures n < Pow256(|b|)
  {
    if b == [] then 0 else b[0] + 256 * FromLE(b[1..])
  }

  lemma {:induction false} LittleEndianRoundTrip(n: nat, w: nat)
    requires n < Pow256(w)
    ensures FromLE(ToLE(n, w)) == n
  {
    if w > 0 {
      LittleEndianRoundTrip(n / 256, w - 1);
      assert ToLE(n, w)[1..] == ToLE(n / 256, w - 1);
    }
  }

  lemma ByteSplits(a: byte, n: nat)
    ensures (a + 256 * n) % 256 == a && (a + 256 * n) / 256 == n
  {
  }

  lemma {:induction false} LittleEndianBack(b: bytes)
    ensures ToLE(FromLE(b), |b|) == b
  {
    if b != [] {
      LittleEndianBack(b[1..]);
      ByteSplits(b[0], FromLE(b[1..]));
      assert b == [b[0]] + b[1..];
    }
  }

  lemma LittleEndianSame(a: bytes, b: bytes)
    requires |a| == |b| && FromLE(a) == FromLE(b)
    ensures a == b
  {
    LittleEndianBack(a);
    LittleEndianBack(b);
  }

  // ---- Slices of joined bytes ----

  lemma SliceTail(a: bytes, t: bytes)
    ensures (a + t)[|a|..|a| + |t|] == t
  {
  }

  lemma SliceHead(a: bytes, t: bytes, i: nat, j: nat)
    requires i <= j <= |a|
    ensures (a + t)[i..j] == a[i..j]
  {
  }

  lemma SubSlice(b: bytes, from: nat, to: nat, i: nat, j: nat)
    requires from <= to <= |b| && i <= j <= to - from
    ensures b[from..to][i..j] == b[from + i..from + j]
  {
    var x, y := b[from..to][i..j], b[from + i..from + j];
    forall k | 0 <= k < j - i ensures x[k] == y[k] { assert x[k] == b[from..to][i + k]; }
  }

  /** Integers of at most eight bytes, for the fixed-width fields of the formats. */
  lemma Widths()
    ensures Pow256(2) == 0x1_0000
    ensures Pow256(4) == 0x1_0000_0000
    ensures Pow256(8) == 0x1_0000_0000_0000_0000
  {
    assert Pow256(1) == 256 && Pow256(2) == 0x1_0000;
    assert Pow256(3) == 0x100_0000 && Pow256(4) == 0x1_0000_0000;
    assert Pow256(5) == 0x100_0000_0000 && Pow256(6) == 0x1_0000_0000_0000;
  }
}
