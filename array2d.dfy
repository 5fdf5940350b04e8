/**
 * vsg::Array2D<T>: a width x height block of values stored row by row in
 * one buffer, with the Data layout that says how many mipmap levels follow.
 *
 * The buffer pointer is an `array?<T>` (null when there is none).  Deleting a
 * buffer has no counterpart: a buffer the container drops is simply no longer
 * referenced.  computeValueCountIncludingMipmaps is not part of this model and
 * is passed to the members that call it as the parameter `mipmapCount`.
 */
module Array2D {
  import opened VkTypes

  /** The part of vsg::Data::Layout the container reads. */
  datatype Layout = Layout(maxNumMipmaps: nat)

  /** Data's default Layout, as taken here: no mipmap levels. */
  const DEFAULT_LAYOUT: Layout := Layout(0)

  /** computeValueCountIncludingMipmaps(width, height, depth, maxNumMipmaps) */
  type MipmapCount = (nat, nat, nat, nat) -> nat

  /** index(i, j): element (i, j) lives at row j, column i. */
  function LinearIndex(i: nat, j: nat, width: nat): nat
  {
    j * width + i
  }

  /** Every element inside the extent has its index inside the buffer. */
  lemma LinearIndexInBounds(i: nat, j: nat, width: nat, height: nat)
    requires i < width && j < height
    ensures LinearIndex(i, j, width) < width * height
  {
    calc {
      LinearIndex(i, j, width);
      == j * width + i;
      < j * width + width;
      == (j + 1) * width;
      <= { MulMonotone(j + 1, height, width); } height * width;
    }
  }

  lemma MulMonotone(a: nat, b: nat, c: nat)
    requires a <= b
    ensures a * c <= b * c
  {
  }

  /** Distinct elements inside the extent have distinct indices. */
  lemma LinearIndexInjective(i: nat, j: nat, i': nat, j': nat, width: nat)
    requires i < width && i' < width
    requires LinearIndex(i, j, width) == LinearIndex(i', j', width)
    ensures i == i' && j == j'
  {
    if j < j' {
      RowsAreOrdered(i, j, i', j', width);
    } else if j' < j {
      RowsAreOrdered(i', j', i, j, width);
    }
  }

  lemma RowsAreOrdered(i: nat, j: nat, i': nat, j': nat, width: nat)
    requires i < width && j < j'
    ensures LinearIndex(i, j, width) < LinearIndex(i', j', width)
  {
    MulMonotone(j + 1, j', width);
    assert j * width + i < (j + 1) * width;
  }

  /** The layout is a bijection: every buffer index is the index of one element. */
  lemma LinearIndexRoundTrip(k: nat, width: nat, height: nat)
    requires k < width * height
    ensures width > 0 && k % width < width && k / width < height
    ensures LinearIndex(k % width, k / width, width) == k
  {
    assert k == (k / width) * width + k % width;
  }

  class Array2D<T(0)> {
    var width: nat
    var height: nat
    var data: array?<T>
    var layout: Layout

    /** The extents are std::uint32_t. */
    ghost predicate Valid()
      reads this
    {
      width <= UINT32_MAX && height <= UINT32_MAX
    }

    /** Array2D(): no extent, no buffer. */
    constructor ()
      ensures Valid() && Empty()
      ensures width == 0 && height == 0 && data == null && layout == DEFAULT_LAYOUT
    {
      width, height, data, layout := 0, 0, null, DEFAULT_LAYOUT;
    }

    /** Array2D(width, height, data[, layout]): adopts a caller-supplied buffer. */
    constructor WithData(w: nat, h: nat, buffer: array?<T>, l: Layout := DEFAULT_LAYOUT)
      requires w <= UINT32_MAX && h <= UINT32_MAX
      ensures Valid()
      ensures width == w && height == h && data == buffer && layout == l
    {
      width, height, data, layout := w, h, buffer, l;
    }

    /** Array2D(width, height): allocates width * height values. */
    constructor Allocate(w: nat, h: nat)
      requires w <= UINT32_MAX && h <= UINT32_MAX
      ensures Valid()
      ensures width == w && height == h && layout == DEFAULT_LAYOUT
      ensures data != null && fresh(data) && data.Length == w * h
    {
      width, height, layout := w, h, DEFAULT_LAYOUT;
      data := new T[w * h];
    }

    /** size(): width * height without mipmaps, else the mipmap-inclusive value count. */
    function Size(mipmapCount: MipmapCount): nat
      reads this
    {
      if layout.maxNumMipmaps <= 1 then width * height
      else mipmapCount(width, height, 1, layout.maxNumMipmaps)
    }

    /** empty(): both extents are zero. */
    predicate Empty()
      reads this
    {
      width == 0 && height == 0
    }

    function ValueCount(mipmapCount: MipmapCount): nat
      reads this
    {
      Size(mipmapCount)
    }

    /** dataSize() for a value type of valueSize bytes. */
    function DataSize(mipmapCount: MipmapCount, valueSize: nat): nat
      reads this
    {
      Size(mipmapCount) * valueSize
    }

    function Dimensions(): nat
    {
      2
    }

    function Depth(): nat
    {
      1
    }

    function Index(i: nat, j: nat): nat
      reads this
    {
      LinearIndex(i, j, width)
    }

    /** at(i, j) / operator()(i, j) */
    function At(i: nat, j: nat): T
      reads this, data
      requires data != null && Index(i, j) < data.Length
    {
      data[Index(i, j)]
    }

    /** Without mipmaps the value count is the product of the three extents, and
        the byte size is that count times the value size. */
    lemma SizeIsProductOfExtents(mipmapCount: MipmapCount, valueSize: nat)
      requires layout.maxNumMipmaps <= 1
      ensures Dimensions() == 2
      ensures Size(mipmapCount) == width * height * Depth()
      ensures ValueCount(mipmapCount) == Size(mipmapCount)
      ensures DataSize(mipmapCount, valueSize) == width * height * valueSize
    {
    }

    /** empty() is stricter than a zero size: a 0 x h array has size 0 but is not empty. */
    lemma EmptyVersusZeroSize(mipmapCount: MipmapCount)
      requires layout.maxNumMipmaps <= 1
      ensures Empty() ==> Size(mipmapCount) == 0
      ensures width == 0 && height > 0 ==> Size(mipmapCount) == 0 && !Empty()
    {
    }

    /** set(i, j, v): writes one element; with (i, j) inside the extent no other element changes. */
    method Set(i: nat, j: nat, v: T)
      requires data != null && Index(i, j) < data.Length
      modifies data
      ensures data[..] == old(data[..])[Index(i, j) := v]
      ensures At(i, j) == v
      ensures i < width ==> forall i': nat, j': nat ::
        i' < width && (i', j') != (i, j) && Index(i', j') < data.Length ==> At(i', j') == old(At(i', j'))
    {
      data[Index(i, j)] := v;
      forall i': nat, j': nat | i < width && i' < width && (i', j') != (i, j) && Index(i', j') < data.Length
        ensures At(i', j') == old(At(i', j'))
      {
        if Index(i', j') == Index(i, j) {
          LinearIndexInjective(i, j, i', j', width);
        }
      }
    }

    /** set(i, v): writes the element at buffer index k. */
    method SetAt(k: nat, v: T)
      requires data != null && k < data.Length
      modifies data
      ensures data[..] == old(data[..])[k := v]
    {
      data[k] := v;
    }

    /** clear(): drops the buffer and the extent; the layout stays. */
    method Clear()
      modifies this
      ensures width == 0 && height == 0 && data == null && layout == old(layout)
      ensures Valid() && Empty()
    {
      width := 0;
      height := 0;
      data := null;
    }

    /** assign(width, height, data, layout): replaces layout, extent and buffer together. */
    method Assign(w: nat, h: nat, buffer: array?<T>, l: Layout := DEFAULT_LAYOUT)
      requires w <= UINT32_MAX && h <= UINT32_MAX
      modifies this
      ensures Valid()
      ensures width == w && height == h && data == buffer && layout == l
    {
      layout := l;
      width := w;
      height := h;
      data := buffer;
    }

    /** dataRelease(): hands the buffer to the caller and leaves the array empty. */
    method DataRelease() returns (released: array?<T>)
      modifies this
      ensures released == old(data)
      ensures data == null && width == 0 && height == 0 && layout == old(layout)
      ensures Empty()
    {
      released := data;
      data := null;
      width := 0;
      height := 0;
    }

    /**
     * read(input), with the input's contents as parameters: `readLayout` is the
     * layout Data::read leaves, (w, h) the "Width"/"Height" values, `hasData`
     * whether a "Data" property follows, and `values` the values read into the buffer.
     * The old buffer is kept when its size equals the new size; otherwise a new one
     * is allocated.  Extent and buffer change only when "Data" is present.
     */
    method Read(mipmapCount: MipmapCount, readLayout: Layout, w: nat, h: nat, hasData: bool, values: seq<T>)
      requires w <= UINT32_MAX && h <= UINT32_MAX
      requires Valid()
      requires data != null ==> Size(mipmapCount) <= data.Length
      requires hasData ==> |values| == mipmapCount(w, h, 1, readLayout.maxNumMipmaps)
      modifies this, data
      ensures Valid()
      ensures layout == readLayout
      ensures !hasData ==> width == old(width) && height == old(height) && data == old(data)
      ensures !hasData && data != null ==> data[..] == old(data[..])
      ensures hasData ==> width == w && height == h && data != null
      ensures hasData ==> |values| <= data.Length && data[..|values|] == values
      ensures hasData && old(data) != null && old(Size(mipmapCount)) == |values| ==> data == old(data)
      ensures hasData && !(old(data) != null && old(Size(mipmapCount)) == |values|) ==>
        fresh(data) && data.Length == |values|
    {
      var originalSize := Size(mipmapCount);
      layout := readLayout;
      var newSize := mipmapCount(w, h, 1, layout.maxNumMipmaps);
      if hasData {
        if data != null {
          if originalSize != newSize {
            data := new T[newSize];
          }
        } else {
          data := new T[newSize];
        }
        width := w;
        height := h;
        var buffer := data;
        forall k | 0 <= k < newSize {
          buffer[k] := values[k];
        }
        assert buffer[..newSize] == values;
      }
    }
  }
}
