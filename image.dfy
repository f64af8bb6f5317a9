/** The image buffer of src/image.h: width * height pixels of numChannels elements each,
    stored row after row in one flat array.  `img[y]` yields a row proxy pointing at the
    start of row y, and `row[x]` the first element of pixel x in it; both are modelled by
    the element offsets they point at. */
module Images {
  import opened Vectors

  /** The element offset of row `row`, as the const `operator[]` computes it. */
  function RowOffset(width: int, numChannels: int, row: int): int {
    row * width * numChannels
  }

  /** The offset the non-const `operator[]` adds to the element pointer: the same product
      multiplied once more by the element size in bytes, although pointer arithmetic on a
      `T*` already counts in elements. */
  function RowOffsetAsWritten(width: int, numChannels: int, row: int, elementSize: int): int {
    row * width * numChannels * elementSize
  }

  /** `img[row][col]`: the row's offset plus col * numChannels. */
  function PixelOffset(width: int, numChannels: int, col: int, row: int): int {
    RowOffset(width, numChannels, row) + col * numChannels
  }

  class Image {
    const width: int
    const height: int
    const numChannels: int
    var data: array<int>

    /** The buffer holds exactly width * height * numChannels elements. */
    predicate Valid()
      reads this
    {
      0 <= width && 0 <= height && 0 <= numChannels &&
      data.Length == width * height * numChannels
    }

    /** `Image(width, height)`: a value-initialised (zeroed) buffer of the full size. */
    constructor (width: int, height: int, numChannels: int)
      requires 0 <= width && 0 <= height && 0 <= numChannels
      ensures this.width == width && this.height == height && this.numChannels == numChannels
      ensures Valid() && fresh(data)
      ensures forall i :: 0 <= i < data.Length ==> data[i] == 0
    {
      this.width := width;
      this.height := height;
      this.numChannels := numChannels;
      data := new int[width * height * numChannels](_ => 0);
    }

    /** `size()`. */
    function Size(): (s: Vec2i)
      reads this
      ensures s.x == width && s.y == height
    {
      Vec2i(width, height)
    }
  }

  // ---------------------------------------------------------------- properties

  /** The offset of pixel (x, y) is its row-major index times the channel count. */
  lemma PixelOffsetRowMajor(width: int, numChannels: int, x: int, y: int)
    ensures PixelOffset(width, numChannels, x, y) == (y * width + x) * numChannels
  {
    assert y * width * numChannels + x * numChannels == (y * width + x) * numChannels by {
      DistributeRight(y * width, x, numChannels);
    }
  }

  lemma DistributeRight(a: int, b: int, c: int)
    ensures a * c + b * c == (a + b) * c
  {
  }

  lemma MulLeft(a: int, b: int, c: int)
    requires a <= b && 0 <= c
    ensures a * c <= b * c
  {
  }

  /** Every pixel of the image owns numChannels elements inside the buffer. */
  lemma PixelInBounds(width: int, height: int, numChannels: int, x: int, y: int)
    requires 0 <= x < width && 0 <= y < height && 0 <= numChannels
    ensures 0 <= PixelOffset(width, numChannels, x, y)
    ensures PixelOffset(width, numChannels, x, y) + numChannels <= width * height * numChannels
  {
    PixelOffsetRowMajor(width, numChannels, x, y);
    var i := y * width + x;
    assert 0 <= y * width by {
      MulLeft(0, y, width);
    }
    assert i + 1 <= height * width by {
      MulLeft(y + 1, height, width);
      DistributeRight(y, 1, width);
    }
    MulLeft(0, i, numChannels);
    MulLeft(i + 1, height * width, numChannels);
    DistributeRight(i, 1, numChannels);
    assert height * width * numChannels == width * height * numChannels;
  }

  /** Distinct pixels own disjoint runs of elements. */
  lemma PixelsDisjoint(width: int, height: int, numChannels: int, x1: int, y1: int, x2: int, y2: int)
    requires 0 <= x1 < width && 0 <= y1 < height
    requires 0 <= x2 < width && 0 <= y2 < height
    requires 0 <= numChannels && (x1, y1) != (x2, y2)
    ensures var o1, o2 := PixelOffset(width, numChannels, x1, y1), PixelOffset(width, numChannels, x2, y2);
            o1 + numChannels <= o2 || o2 + numChannels <= o1
  {
    PixelOffsetRowMajor(width, numChannels, x1, y1);
    PixelOffsetRowMajor(width, numChannels, x2, y2);
    var i1, i2 := y1 * width + x1, y2 * width + x2;
    RowMajorInjective(width, x1, y1, x2, y2);
    if i1 < i2 {
      MulLeft(i1 + 1, i2, numChannels);
      DistributeRight(i1, 1, numChannels);
    } else {
      MulLeft(i2 + 1, i1, numChannels);
      DistributeRight(i2, 1, numChannels);
    }
  }

  /** The row-major index y * width + x tells pixels apart. */
  lemma RowMajorInjective(width: int, x1: int, y1: int, x2: int, y2: int)
    requires 0 <= x1 < width && 0 <= x2 < width && 0 <= y1 && 0 <= y2
    requires (x1, y1) != (x2, y2)
    ensures y1 * width + x1 != y2 * width + x2
  {
    if y1 == y2 {
    } else if y1 < y2 {
      MulLeft(y1 + 1, y2, width);
      DistributeRight(y1, 1, width);
    } else {
      MulLeft(y2 + 1, y1, width);
      DistributeRight(y2, 1, width);
    }
  }

  /** For one-byte elements (the char image the program renders) both row accessors
      point at the same element. */
  lemma RowOffsetsAgreeForBytes(width: int, numChannels: int, row: int)
    ensures RowOffsetAsWritten(width, numChannels, row, 1) == RowOffset(width, numChannels, row)
  {
  }

  /** For four-byte elements the non-const accessor already overshoots the buffer at the
      second row of a one-pixel-wide, two-row, three-channel image: it points at element 12
      of 6, where the const accessor points at element 3. */
  lemma RowOffsetAsWrittenOverruns()
    ensures RowOffsetAsWritten(1, 3, 1, 4) == 12 && 12 > 1 * 2 * 3
    ensures RowOffset(1, 3, 1) == 3 && RowOffset(1, 3, 1) + 3 <= 1 * 2 * 3
  {
  }

  /** In general, with elements of two bytes or more, the non-const accessor's last row of
      any image two or more rows high starts at or past the end of the buffer. */
  lemma RowOffsetAsWrittenPastEnd(width: int, height: int, numChannels: int, elementSize: int)
    requires 0 < width && 0 < numChannels && 2 <= height && 2 <= elementSize
    ensures RowOffsetAsWritten(width, numChannels, height - 1, elementSize)
            >= width * height * numChannels
  {
    var n := width * numChannels;
    assert height <= (height - 1) * elementSize by {
      MulLeft(2, elementSize, height - 1);
    }
    MulLeft(height, (height - 1) * elementSize, n);
    Reassociate(height - 1, width, numChannels, elementSize);
    Reassociate(1, width, numChannels, height);
  }

  lemma Reassociate(r: int, w: int, c: int, s: int)
    ensures r * w * c * s == (r * s) * (w * c)
  {
  }
}
