/** The RGBA8 pixel buffer: dataPixels and the row-major order in which
    both render loops append pixels. */
module Pixels {
  /** unsigned char */
  type Byte = b: int | 0 <= b < 256

  /** struct dataPixels */
  datatype DataPixels = DataPixels(r: Byte, g: Byte, b: Byte, a: Byte)

  /** The float-to-int conversion int(x), which truncates toward zero. */
  function Trunc(x: real): (n: int)
    ensures x >= 0.0 ==> n == x.Floor
    ensures (n as real) - 1.0 < x < (n as real) + 1.0
    ensures x >= 0.0 ==> n >= 0
    ensures x <= 0.0 ==> n <= 0
  {
    if x >= 0.0 then x.Floor else -((-x).Floor)
  }

  /** The int-to-unsigned-char conversion, which keeps the value mod 256. */
  function ToByte(n: int): (b: Byte)
    ensures 0 <= n < 256 ==> b == n
  {
    n % 256
  }

  /** Row j: the pixels (0, j) .. (w - 1, j). */
  function Row<T>(w: nat, j: nat, f: (nat, nat) -> T): (row: seq<T>)
    ensures |row| == w
    ensures forall i :: 0 <= i < w ==> row[i] == f(i, j)
  {
    seq(w, i requires 0 <= i < w => f(i, j))
  }

  /** The first i + 1 pixels of row j are its first i and pixel (i, j). */
  lemma RowPrefixStep<T>(w: nat, j: nat, f: (nat, nat) -> T, i: nat)
    requires i < w
    ensures Row(w, j, f)[..i + 1] == Row(w, j, f)[..i] + [f(i, j)]
  {
    var row := Row(w, j, f);
    assert row[..i + 1] == row[..i] + [row[i]];
  }

  /** Rows 0 .. h - 1 one after the other. */
  function RowMajor<T>(w: nat, h: nat, f: (nat, nat) -> T): seq<T> {
    if h == 0 then [] else RowMajor(w, h - 1, f) + Row(w, h - 1, f)
  }

  /** A pixel with full alpha. */
  ghost predicate OpaquePixel(px: DataPixels) {
    px.a == 255
  }

  /** The buffer holds w * h pixels. */
  lemma {:induction false} RowMajorLength<T>(w: nat, h: nat, f: (nat, nat) -> T)
    ensures |RowMajor(w, h, f)| == w * h
  {
    if h > 0 {
      RowMajorLength(w, h - 1, f);
      PrefixSize(w, h);
    }
  }

  /** Entry j * w + i of the buffer is pixel (i, j). */
  lemma {:induction false} RowMajorIndex<T>(w: nat, h: nat, f: (nat, nat) -> T, j: nat, i: nat)
    requires j < h && i < w
    ensures |RowMajor(w, h, f)| == w * h
    ensures j * w + i < w * h && RowMajor(w, h, f)[j * w + i] == f(i, j)
  {
    RowMajorLength(w, h, f);
    var pre := RowMajor(w, h - 1, f);
    var row := Row(w, h - 1, f);
    assert RowMajor(w, h, f) == pre + row;
    RowMajorLength(w, h - 1, f);
    PrefixSize(w, h);
    IndexBound(j, i, w, h);
    if j < h - 1 {
      IndexBound(j, i, w, h - 1);
      RowMajorIndex(w, h - 1, f, j, i);
    } else {
      assert j * w + i == |pre| + i;
    }
  }

  lemma PrefixSize(w: nat, h: nat)
    requires h > 0
    ensures w * (h - 1) == (h - 1) * w == w * h - w
  {
  }

  lemma IndexBound(j: nat, i: nat, w: nat, h: nat)
    requires j < h && i < w
    ensures j * w + i < w * h
  {
    assert (j + 1) * w == j * w + w;
    MulLeMono(j + 1, h, w);
  }

  lemma MulLeMono(a: nat, b: nat, w: nat)
    requires a <= b
    ensures a * w <= b * w
  {
    assert b * w - a * w == (b - a) * w;
  }

  /** A property every pixel has holds of every entry of the buffer. */
  lemma {:induction false} RowMajorAll<T>(w: nat, h: nat, f: (nat, nat) -> T, P: T -> bool)
    requires forall i: nat, j: nat :: i < w && j < h ==> P(f(i, j))
    ensures forall k :: 0 <= k < |RowMajor(w, h, f)| ==> P(RowMajor(w, h, f)[k])
  {
    if h > 0 {
      RowMajorAll(w, h - 1, f, P);
      var pre := RowMajor(w, h - 1, f);
      var row := Row(w, h - 1, f);
      assert RowMajor(w, h, f) == pre + row;
      forall k | 0 <= k < |pre + row|
        ensures P((pre + row)[k])
      {
        if k >= |pre| {
          assert (pre + row)[k] == f(k - |pre|, h - 1);
        }
      }
    }
  }
}
