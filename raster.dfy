/**
 * Raster extraction (`getPixelMatrix`, public/animations.js:35-53): the flat
 * RGBA byte buffer that `getImageData(0, 0, 64, 64)` returns becomes a
 * 64-by-64 row-major matrix of {r, g, b}; the alpha byte is dropped.
 *
 * The canvas itself is not part of this model: the buffer is an input.
 */
module Raster {
  const Width: nat := 64
  const Height: nat := 64
  /** Length of the RGBA buffer of a 64x64 region: four bytes per pixel. */
  const ImageDataLength: nat := 64 * 64 * 4

  /** One matrix entry; the source builds it as the object `{r, g, b}`. */
  datatype Pixel = Pixel(r: int, g: int, b: int)

  type Matrix = seq<seq<Pixel>>

  /** Offset of the red byte of pixel (x, y) in the buffer. */
  function ByteIndex(x: nat, y: nat): nat {
    (y * 64 + x) * 4
  }

  /** A buffer as `getImageData` delivers it: 16384 bytes, each in 0..255. */
  predicate IsImageData(data: seq<int>) {
    |data| == ImageDataLength && forall i :: 0 <= i < |data| ==> 0 <= data[i] < 256
  }

  /** Every byte extraction reads, including the blue byte of the last pixel, lies inside the buffer. */
  lemma ByteIndexInBounds(x: nat, y: nat)
    requires x < Width && y < Height
    ensures ByteIndex(x, y) + 3 < ImageDataLength
    ensures ByteIndex(x, y) % 4 == 0
  {
    assert y * 64 + x <= 63 * 64 + 63;
  }

  function PixelAt(data: seq<int>, x: nat, y: nat): Pixel
    requires |data| == ImageDataLength && x < Width && y < Height
  {
    ByteIndexInBounds(x, y);
    var i := ByteIndex(x, y);
    Pixel(data[i], data[i + 1], data[i + 2])
  }

  /** The matrix `getPixelMatrix` builds from `data`, as a value. */
  ghost function MatrixOf(data: seq<int>): (m: Matrix)
    requires |data| == ImageDataLength
    ensures |m| == Height && forall y :: 0 <= y < Height ==> |m[y]| == Width
    ensures forall y, x :: 0 <= y < Height && 0 <= x < Width ==>
      m[y][x] == Pixel(data[ByteIndex(x, y)], data[ByteIndex(x, y) + 1], data[ByteIndex(x, y) + 2])
  {
    seq(Height, y requires 0 <= y < Height => seq(Width, x requires 0 <= x < Width => PixelAt(data, x, y)))
  }

  /** Row `y` of the matrix, as the inner loop pushes it. */
  function Row(data: seq<int>, y: nat, n: nat): (row: seq<Pixel>)
    requires |data| == ImageDataLength && y < Height && n <= Width
  {
    seq(n, x requires 0 <= x < n => PixelAt(data, x, y))
  }

  /**
   * `getPixelMatrix()`: exactly 64 rows of 64 entries, entry [y][x] made of
   * bytes (y*64+x)*4, +1 and +2 of the buffer.
   */
  method GetPixelMatrix(data: seq<int>) returns (matrix: Matrix)
    requires |data| == ImageDataLength
    ensures |matrix| == Height
    ensures forall y :: 0 <= y < Height ==> |matrix[y]| == Width
    ensures forall y, x :: 0 <= y < Height && 0 <= x < Width ==>
      matrix[y][x] == Pixel(data[ByteIndex(x, y)], data[ByteIndex(x, y) + 1], data[ByteIndex(x, y) + 2])
    ensures matrix == MatrixOf(data)
  {
    matrix := [];
    var y := 0;
    while y < Height
      invariant 0 <= y <= Height && |matrix| == y
      invariant forall j :: 0 <= j < y ==> matrix[j] == Row(data, j, Width)
    {
      var row := [];
      var x := 0;
      while x < Width
        invariant 0 <= x <= Width
        invariant row == Row(data, y, x)
      {
        ByteIndexInBounds(x, y);
        var index := ByteIndex(x, y);
        row := row + [Pixel(data[index], data[index + 1], data[index + 2])];
        x := x + 1;
      }
      matrix := matrix + [row];
      y := y + 1;
    }
  }

  /** On a buffer of bytes, every channel of every entry lies in 0..255. */
  lemma ChannelsAreBytes(data: seq<int>, x: nat, y: nat)
    requires IsImageData(data) && x < Width && y < Height
    ensures 0 <= PixelAt(data, x, y).r < 256 && 0 <= PixelAt(data, x, y).g < 256
    ensures 0 <= PixelAt(data, x, y).b < 256
  {
    ByteIndexInBounds(x, y);
  }

  /** Extraction never looks at an alpha byte: buffers that differ only there give the same matrix. */
  lemma AlphaIgnored(data: seq<int>, other: seq<int>)
    requires |data| == ImageDataLength && |other| == ImageDataLength
    requires forall i :: 0 <= i < ImageDataLength && i % 4 != 3 ==> data[i] == other[i]
    ensures MatrixOf(data) == MatrixOf(other)
  {
    forall y, x | 0 <= y < Height && 0 <= x < Width
      ensures PixelAt(data, x, y) == PixelAt(other, x, y)
    {
      ByteIndexInBounds(x, y);
      var i := ByteIndex(x, y);
      assert (i + 1) % 4 == 1 && (i + 2) % 4 == 2;
    }
    assert forall y :: 0 <= y < Height ==> MatrixOf(data)[y] == MatrixOf(other)[y];
  }

  /** Distinct entries read disjoint bytes: (x, y) is recovered from the red byte's offset. */
  lemma ByteIndexInjective(x: nat, y: nat)
    requires x < Width && y < Height
    ensures ByteIndex(x, y) / 4 % 64 == x && ByteIndex(x, y) / 256 == y
  {
    var i := ByteIndex(x, y);
    assert i == 256 * y + 4 * x;
    assert i / 4 == 64 * y + x;
  }
}
