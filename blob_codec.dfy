/** `array_to_blob` / `blob_to_array` of
    synthmap/projectManager/colmapParser.py: a numeric array is stored as
    the raw dump of its elements in row-major order, native (little-endian)
    byte order, with no shape or element type in the blob. Floating-point
    elements are carried as opaque bit patterns: no value is ever
    converted. */
module BlobCodec {
  import opened Wrappers

  type Byte = bv8

  /** The four element types the project stores use. */
  datatype DType = UInt8 | UInt32 | Float32 | Float64

  function ItemSize(d: DType): (w: nat)
    ensures w in {1, 4, 8}
  {
    match d
    case UInt8 => 1
    case UInt32 => 4
    case Float32 => 4
    case Float64 => 8
  }

  /** One array element: its type tag and its bit pattern. */
  datatype Element = U8(u8: bv8) | U32(u32: bv32) | F32(f32: bv32) | F64(f64: bv64)

  function TypeOf(e: Element): DType {
    match e
    case U8(_) => UInt8
    case U32(_) => UInt32
    case F32(_) => Float32
    case F64(_) => Float64
  }

  /** The shape of an array: one dimension (the `(-1,)` default) or two. */
  datatype Shape = Vector(length: nat) | Matrix(rows: nat, cols: nat)

  function Size(s: Shape): nat {
    match s
    case Vector(n) => n
    case Matrix(r, c) => r * c
  }

  /** An ndarray: element type, shape and the elements in row-major order. */
  datatype NdArray = NdArray(dtype: DType, shape: Shape, items: seq<Element>)

  ghost predicate WellFormed(a: NdArray) {
    && |a.items| == Size(a.shape)
    && forall i :: 0 <= i < |a.items| ==> TypeOf(a.items[i]) == a.dtype
  }

  /** The element at row i, column j of a two-dimensional array. */
  function At(a: NdArray, i: nat, j: nat): Element
    requires a.shape.Matrix? && WellFormed(a)
    requires i < a.shape.rows && j < a.shape.cols
  {
    RowMajorIndexInRange(i, j, a.shape.rows, a.shape.cols);
    a.items[i * a.shape.cols + j]
  }

  lemma RowMajorIndexInRange(i: nat, j: nat, rows: nat, cols: nat)
    requires i < rows && j < cols
    ensures i * cols + j < rows * cols
  {
    assert (i + 1) * cols <= rows * cols;
  }

  /** The little-endian bytes of one element. */
  function ElementBytes(e: Element): (bs: seq<Byte>)
    ensures |bs| == ItemSize(TypeOf(e))
  {
    match e
    case U8(b) => [b]
    case U32(w) => Word32Bytes(w)
    case F32(w) => Word32Bytes(w)
    case F64(w) => Word64Bytes(w)
  }

  function Word32Bytes(w: bv32): (bs: seq<Byte>)
    ensures |bs| == 4
  {
    [(w & 0xFF) as bv8, ((w >> 8) & 0xFF) as bv8, ((w >> 16) & 0xFF) as bv8, (w >> 24) as bv8]
  }

  function Word32FromBytes(bs: seq<Byte>): bv32
    requires |bs| == 4
  {
    (bs[0] as bv32) | ((bs[1] as bv32) << 8) | ((bs[2] as bv32) << 16) | ((bs[3] as bv32) << 24)
  }

  /** A 64-bit word little-endian: its low 32-bit half first. */
  function Word64Bytes(w: bv64): (bs: seq<Byte>)
    ensures |bs| == 8
  {
    Word32Bytes((w & 0xFFFF_FFFF) as bv32) + Word32Bytes((w >> 32) as bv32)
  }

  function Word64FromBytes(bs: seq<Byte>): bv64
    requires |bs| == 8
  {
    (Word32FromBytes(bs[..4]) as bv64) | ((Word32FromBytes(bs[4..]) as bv64) << 32)
  }

  /** Reinterprets ItemSize(d) bytes as one element of type d. */
  function ElementFromBytes(d: DType, bs: seq<Byte>): (e: Element)
    requires |bs| == ItemSize(d)
    ensures TypeOf(e) == d
  {
    match d
    case UInt8 => U8(bs[0])
    case UInt32 => U32(Word32FromBytes(bs))
    case Float32 => F32(Word32FromBytes(bs))
    case Float64 => F64(Word64FromBytes(bs))
  }

  lemma Word32RoundTrip(w: bv32)
    ensures Word32FromBytes(Word32Bytes(w)) == w
  {
  }

  lemma Word32BytesRoundTrip(bs: seq<Byte>)
    requires |bs| == 4
    ensures Word32Bytes(Word32FromBytes(bs)) == bs
  {
    var w := Word32FromBytes(bs);
    assert Word32Bytes(w)[0] == bs[0];
    assert Word32Bytes(w)[1] == bs[1];
    assert Word32Bytes(w)[2] == bs[2];
    assert Word32Bytes(w)[3] == bs[3];
  }

  /** Splitting a 64-bit word into halves and joining them is the identity. */
  lemma HalvesJoin(w: bv64)
    ensures (((w & 0xFFFF_FFFF) as bv32) as bv64) | ((((w >> 32) as bv32) as bv64) << 32) == w
  {
  }

  /** Joining two halves and splitting the result gives the halves back. */
  lemma JoinHalves(lo: bv32, hi: bv32)
    ensures (((lo as bv64) | ((hi as bv64) << 32)) & 0xFFFF_FFFF) as bv32 == lo
    ensures (((lo as bv64) | ((hi as bv64) << 32)) >> 32) as bv32 == hi
  {
  }

  lemma Word64RoundTrip(w: bv64)
    ensures Word64FromBytes(Word64Bytes(w)) == w
  {
    var lo, hi := (w & 0xFFFF_FFFF) as bv32, (w >> 32) as bv32;
    var bs := Word64Bytes(w);
    assert bs[..4] == Word32Bytes(lo) && bs[4..] == Word32Bytes(hi);
    Word32RoundTrip(lo);
    Word32RoundTrip(hi);
    HalvesJoin(w);
  }

  lemma Word64BytesRoundTrip(bs: seq<Byte>)
    requires |bs| == 8
    ensures Word64Bytes(Word64FromBytes(bs)) == bs
  {
    var lo, hi := Word32FromBytes(bs[..4]), Word32FromBytes(bs[4..]);
    JoinHalves(lo, hi);
    Word32BytesRoundTrip(bs[..4]);
    Word32BytesRoundTrip(bs[4..]);
    assert bs == bs[..4] + bs[4..];
  }

  /** Decoding the bytes of an element gives the element back. */
  lemma ElementRoundTrip(e: Element)
    ensures ElementFromBytes(TypeOf(e), ElementBytes(e)) == e
  {
    match e
    case U8(_) =>
    case U32(w) => Word32RoundTrip(w);
    case F32(w) => Word32RoundTrip(w);
    case F64(w) => Word64RoundTrip(w);
  }

  /** Encoding a decoded element gives the same bytes back. */
  lemma ElementBytesRoundTrip(d: DType, bs: seq<Byte>)
    requires |bs| == ItemSize(d)
    ensures ElementBytes(ElementFromBytes(d, bs)) == bs
  {
    match d
    case UInt8 =>
    case UInt32 => Word32BytesRoundTrip(bs);
    case Float32 => Word32BytesRoundTrip(bs);
    case Float64 => Word64BytesRoundTrip(bs);
  }

  /** The raw dump of a run of elements, first element first. */
  function ItemsBytes(items: seq<Element>): seq<Byte>
  {
    if items == [] then [] else ElementBytes(items[0]) + ItemsBytes(items[1..])
  }

  /** A non-empty buffer of whole w-byte chunks holds one chunk and whole
      chunks after it. */
  lemma ChunkStep(n: nat, w: nat)
    requires w in {1, 4, 8} && n % w == 0 && n != 0
    ensures n >= w && (n - w) % w == 0
  {
    if w == 1 {
    } else if w == 4 {
    } else {
    }
  }

  /** One more w-byte chunk keeps a whole number of chunks. */
  lemma ChunkAdd(n: nat, w: nat)
    requires w in {1, 4, 8} && n % w == 0
    ensures (n + w) % w == 0
  {
    if w == 1 {
    } else if w == 4 {
    } else {
    }
  }

  /** Offset arithmetic of a dump of w-byte chunks. */
  lemma ChunkOffset(i: nat, k: nat, w: nat, n: nat)
    requires w in {1, 4, 8} && i < n && k < w
    ensures 0 <= i * w + k < n * w
    ensures i > 0 ==> i * w + k == w + ((i - 1) * w + k)
  {
    if w == 1 {
    } else if w == 4 {
    } else {
    }
  }

  /** Cuts a buffer into ItemSize(d)-byte chunks and reinterprets each one. */
  function BytesItems(d: DType, bs: seq<Byte>): seq<Element>
    requires |bs| % ItemSize(d) == 0
    decreases |bs|
  {
    if |bs| == 0 then []
    else
      ChunkStep(|bs|, ItemSize(d));
      [ElementFromBytes(d, bs[..ItemSize(d)])] + BytesItems(d, bs[ItemSize(d)..])
  }

  /** `array_to_blob`, i.e. `ndarray.tobytes()`: every cell takes its
      type's width. */
  function ArrayToBlob(a: NdArray): (blob: seq<Byte>)
    ensures WellFormed(a) ==> |blob| == Size(a.shape) * ItemSize(a.dtype)
  {
    WellFormedBlobLength(a);
    ItemsBytes(a.items)
  }

  lemma WellFormedBlobLength(a: NdArray)
    ensures WellFormed(a) ==> |ItemsBytes(a.items)| == Size(a.shape) * ItemSize(a.dtype)
  {
    if WellFormed(a) {
      ItemsBytesLength(a.dtype, a.items);
    }
  }

  /** What `np.frombuffer(...).reshape(*shape)` is asked for: the default
      `(-1,)`, or a two-dimensional shape read from a table (where -1 asks
      numpy to infer that dimension). */
  datatype ShapeArg = Flat | Dims(rows: int, cols: int)

  datatype FormatError =
    | BufferNotMultipleOfItemSize  // raised by np.frombuffer
    | CannotReshape                // raised by ndarray.reshape

  /** numpy's reshape of `count` elements to `(rows, cols)`. */
  function Reshape(count: nat, shape: ShapeArg): (r: Result<Shape, FormatError>)
    ensures r.Ok? ==> Size(r.value) == count
  {
    match shape
    case Flat => Ok(Vector(count))
    case Dims(rows, cols) =>
      if rows >= 0 && cols >= 0 then
        (if rows * cols == count then Ok(Matrix(rows, cols)) else Err(CannotReshape))
      else if rows == -1 && cols > 0 then
        (if count % cols == 0 then Ok(Matrix(count / cols, cols)) else Err(CannotReshape))
      else if cols == -1 && rows > 0 then
        (if count % rows == 0 then Ok(Matrix(rows, count / rows)) else Err(CannotReshape))
      else Err(CannotReshape)
  }

  /** `blob_to_array(blob, dtype, shape)`. */
  function BlobToArray(blob: seq<Byte>, d: DType, shape: ShapeArg): (r: Result<NdArray, FormatError>)
    ensures |blob| % ItemSize(d) != 0 ==> r == Err(BufferNotMultipleOfItemSize)
    ensures r.Ok? ==> WellFormed(r.value) && r.value.dtype == d && |r.value.items| * ItemSize(d) == |blob|
  {
    if |blob| % ItemSize(d) != 0 then Err(BufferNotMultipleOfItemSize)
    else
      var items := BytesItems(d, blob);
      BytesItemsLength(d, blob);
      BytesItemsTyped(d, blob);
      match Reshape(|items|, shape)
      case Ok(s) => Ok(NdArray(d, s, items))
      case Err(e) => Err(e)
  }

  lemma {:induction false} BytesItemsLength(d: DType, bs: seq<Byte>)
    requires |bs| % ItemSize(d) == 0
    ensures |BytesItems(d, bs)| * ItemSize(d) == |bs|
    decreases |bs|
  {
    if |bs| != 0 {
      var w := ItemSize(d);
      ChunkStep(|bs|, w);
      var rest := bs[w..];
      BytesItemsLength(d, rest);
      var n := |BytesItems(d, rest)|;
      assert |BytesItems(d, bs)| == 1 + n;
      assert (1 + n) * w == w + n * w;
    }
  }

  lemma {:induction false} BytesItemsTyped(d: DType, bs: seq<Byte>)
    requires |bs| % ItemSize(d) == 0
    ensures forall i :: 0 <= i < |BytesItems(d, bs)| ==> TypeOf(BytesItems(d, bs)[i]) == d
    decreases |bs|
  {
    if |bs| != 0 {
      var w := ItemSize(d);
      ChunkStep(|bs|, w);
      BytesItemsTyped(d, bs[w..]);
      assert BytesItems(d, bs) == [ElementFromBytes(d, bs[..w])] + BytesItems(d, bs[w..]);
    }
  }

  /** The dump of elements of one type has one item size per element. */
  lemma {:induction false} ItemsBytesLength(d: DType, items: seq<Element>)
    requires forall i :: 0 <= i < |items| ==> TypeOf(items[i]) == d
    ensures |ItemsBytes(items)| == |items| * ItemSize(d)
  {
    if items != [] {
      ItemsBytesLength(d, items[1..]);
      assert ItemsBytes(items) == ElementBytes(items[0]) + ItemsBytes(items[1..]);
      MulSucc(|items| - 1, ItemSize(d));
    }
  }

  lemma MulSucc(n: nat, w: nat)
    ensures n * w + w == (n + 1) * w
  {
  }

  /** Byte k of element i sits at offset i * ItemSize + k of the dump. */
  lemma ItemsBytesAt(d: DType, items: seq<Element>, i: nat, k: nat)
    requires forall n :: 0 <= n < |items| ==> TypeOf(items[n]) == d
    requires i < |items| && k < ItemSize(d)
    ensures i * ItemSize(d) + k < |ItemsBytes(items)|
    ensures ItemsBytes(items)[i * ItemSize(d) + k] == ElementBytes(items[i])[k]
  {
    ByteAtOffset(d, items, i, k, i * ItemSize(d) + k);
  }

  /** The same, with the offset named so that the induction stays linear. */
  lemma {:induction false} ByteAtOffset(d: DType, items: seq<Element>, i: nat, k: nat, off: int)
    requires forall n :: 0 <= n < |items| ==> TypeOf(items[n]) == d
    requires i < |items| && k < ItemSize(d) && off == i * ItemSize(d) + k
    ensures 0 <= off < |ItemsBytes(items)|
    ensures ItemsBytes(items)[off] == ElementBytes(items[i])[k]
  {
    var w := ItemSize(d);
    var head, rest := ElementBytes(items[0]), ItemsBytes(items[1..]);
    assert ItemsBytes(items) == head + rest;
    assert |head| == w;
    if i == 0 {
      assert off == k;
      ConcatAt(head, rest, off);
    } else {
      assert off - w == (i - 1) * w + k by {
        ChunkOffset(i, k, w, |items|);
      }
      ByteAtOffset(d, items[1..], i - 1, k, off - w);
      assert items[1..][i - 1] == items[i];
      ConcatAt(head, rest, off);
    }
  }

  /** Indexing into a concatenation. */
  lemma ConcatAt(head: seq<Byte>, rest: seq<Byte>, off: int)
    requires 0 <= off < |head| + |rest|
    ensures off < |head| ==> (head + rest)[off] == head[off]
    ensures off >= |head| ==> (head + rest)[off] == rest[off - |head|]
  {
  }

  lemma {:induction false} ItemsRoundTrip(d: DType, items: seq<Element>)
    requires forall i :: 0 <= i < |items| ==> TypeOf(items[i]) == d
    ensures |ItemsBytes(items)| % ItemSize(d) == 0
    ensures BytesItems(d, ItemsBytes(items)) == items
  {
    if items != [] {
      ItemsRoundTrip(d, items[1..]);
      DecodeOneMore(d, items[0], items[1..], ItemsBytes(items[1..]));
      assert items == [items[0]] + items[1..];
    }
  }

  /** Decoding one more encoded element in front of a decodable buffer. */
  lemma DecodeOneMore(d: DType, x: Element, xs: seq<Element>, rest: seq<Byte>)
    requires TypeOf(x) == d && |rest| % ItemSize(d) == 0 && BytesItems(d, rest) == xs
    ensures |ElementBytes(x) + rest| % ItemSize(d) == 0
    ensures BytesItems(d, ElementBytes(x) + rest) == [x] + xs
  {
    var w := ItemSize(d);
    var head := ElementBytes(x);
    var bs := head + rest;
    assert |head| == w;
    SplitConcat(head, rest);
    ElementRoundTrip(x);
    ChunkAdd(|rest|, w);
    ChunkStep(|bs|, w);
  }

  lemma SplitConcat(a: seq<Byte>, b: seq<Byte>)
    ensures (a + b)[..|a|] == a && (a + b)[|a|..] == b
  {
  }

  lemma {:induction false} BytesRoundTrip(d: DType, bs: seq<Byte>)
    requires |bs| % ItemSize(d) == 0
    ensures ItemsBytes(BytesItems(d, bs)) == bs
    decreases |bs|
  {
    if |bs| != 0 {
      var w := ItemSize(d);
      ChunkStep(|bs|, w);
      var items := BytesItems(d, bs);
      var rest := BytesItems(d, bs[w..]);
      assert items == [ElementFromBytes(d, bs[..w])] + rest;
      assert items[1..] == rest;
      BytesRoundTrip(d, bs[w..]);
      ElementBytesRoundTrip(d, bs[..w]);
      assert ItemsBytes(items) == ElementBytes(items[0]) + ItemsBytes(rest);
      assert bs == bs[..w] + bs[w..];
    }
  }

  /** `array_to_blob` emits rows * cols * itemsize bytes, in row-major
      order: byte k of the element at (i, j) is byte (i*cols + j)*w + k. */
  lemma ArrayToBlobLayout(a: NdArray, i: nat, j: nat, k: nat)
    requires WellFormed(a) && a.shape.Matrix?
    requires i < a.shape.rows && j < a.shape.cols && k < ItemSize(a.dtype)
    ensures |ArrayToBlob(a)| == a.shape.rows * a.shape.cols * ItemSize(a.dtype)
    ensures (i * a.shape.cols + j) * ItemSize(a.dtype) + k < |ArrayToBlob(a)|
    ensures ArrayToBlob(a)[(i * a.shape.cols + j) * ItemSize(a.dtype) + k] == ElementBytes(At(a, i, j))[k]
  {
    ItemsBytesLength(a.dtype, a.items);
    RowMajorIndexInRange(i, j, a.shape.rows, a.shape.cols);
    ItemsBytesAt(a.dtype, a.items, i * a.shape.cols + j, k);
  }

  /** Round trip: decoding the dump of a two-dimensional array with its own
      element type and shape gives the identical array. */
  lemma MatrixRoundTrip(a: NdArray)
    requires WellFormed(a) && a.shape.Matrix?
    ensures BlobToArray(ArrayToBlob(a), a.dtype, Dims(a.shape.rows, a.shape.cols)) == Ok(a)
  {
    ItemsRoundTrip(a.dtype, a.items);
  }

  /** Round trip for one-dimensional arrays read back with the default
      shape. */
  lemma VectorRoundTrip(a: NdArray)
    requires WellFormed(a) && a.shape.Vector?
    ensures BlobToArray(ArrayToBlob(a), a.dtype, Flat) == Ok(a)
  {
    ItemsRoundTrip(a.dtype, a.items);
  }

  /** The other direction: whatever a blob decodes to is well formed and
      dumps back to the same bytes, so no byte is lost or altered. */
  lemma DecodedArrayDumpsBack(blob: seq<Byte>, d: DType, shape: ShapeArg)
    requires BlobToArray(blob, d, shape).Ok?
    ensures WellFormed(BlobToArray(blob, d, shape).value)
    ensures BlobToArray(blob, d, shape).value.dtype == d
    ensures ArrayToBlob(BlobToArray(blob, d, shape).value) == blob
  {
    BytesItemsTyped(d, blob);
    BytesRoundTrip(d, blob);
  }

  /** A blob read with an explicit, non-negative shape decodes exactly when
      its length is rows * cols * itemsize; there is no truncation. */
  lemma BlobLengthDecides(blob: seq<Byte>, d: DType, rows: nat, cols: nat)
    ensures BlobToArray(blob, d, Dims(rows, cols)).Ok? <==> |blob| == rows * cols * ItemSize(d)
  {
    var w, n := ItemSize(d), rows * cols;
    assert rows * cols * w == n * w;
    if |blob| % w == 0 {
      BytesItemsLength(d, blob);
      ScaledCount(|blob|, n, |BytesItems(d, blob)|, w);
    } else {
      ScaledCount(n * w, n, n, w);
    }
  }

  /** For w in {1, 4, 8}: a length of k whole w-byte chunks is n chunks
      exactly when k == n, and n * w is a whole number of chunks. */
  lemma ScaledCount(len: nat, n: nat, k: nat, w: nat)
    requires w in {1, 4, 8} && k * w == len
    ensures n == k <==> len == n * w
    ensures (n * w) % w == 0
  {
    if w == 1 {
    } else if w == 4 {
    } else {
    }
  }

  /** A uint8 array dumps to its own values, one byte each. */
  lemma {:induction false} ItemsBytesU8(items: seq<Element>, bytes: seq<Byte>)
    requires |bytes| == |items|
    requires forall i :: 0 <= i < |items| ==> items[i] == U8(bytes[i])
    ensures ItemsBytes(items) == bytes
  {
    if items != [] {
      ItemsBytesU8(items[1..], bytes[1..]);
      assert bytes == [bytes[0]] + bytes[1..];
    }
  }

  /** The uint8 sample of the project's tests: the 5x2 array
      [[6,227],[209,98],[49,179],[17,177],[96,183]] dumps to
      b"\x06\xe3\xd1b1\xb3\x11\xb1`\xb7". */
  lemma Uint8SampleBlob()
    ensures ArrayToBlob(NdArray(UInt8, Matrix(5, 2),
              [U8(6), U8(227), U8(209), U8(98), U8(49), U8(179), U8(17), U8(177), U8(96), U8(183)]))
            == [0x06, 0xe3, 0xd1, 0x62, 0x31, 0xb3, 0x11, 0xb1, 0x60, 0xb7]
  {
    ItemsBytesU8([U8(6), U8(227), U8(209), U8(98), U8(49), U8(179), U8(17), U8(177), U8(96), U8(183)],
                 [0x06, 0xe3, 0xd1, 0x62, 0x31, 0xb3, 0x11, 0xb1, 0x60, 0xb7]);
  }

  /** The first float32 of the tests' 3x3 sample, -0.641124, has bit
      pattern 0xBF2420B4 and is dumped as b"\xb4 $\xbf". */
  lemma Float32SampleBytes()
    ensures ElementBytes(F32(0xBF2420B4)) == [0xb4, 0x20, 0x24, 0xbf]
  {
  }
}
