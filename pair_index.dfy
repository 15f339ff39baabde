/** The COLMAP pair-id convention used by the project manager
    (synthmap/projectManager/colmapParser.py): an unordered pair of image
    ids is stored as one integer, `min * MAX_IMAGE_ID + max`. */
module PairIndex {

  /** 2^31 - 1, the bound COLMAP puts on image ids. */
  const MAX_IMAGE_ID: int := 0x7FFF_FFFF

  /** A valid image id in COLMAP's numbering. */
  predicate ValidImageId(id: int) {
    0 <= id < MAX_IMAGE_ID
  }

  /** `image_ids_to_pair_id`: swap so that the smaller id comes first, then
      combine. Nothing checks that the ids are below MAX_IMAGE_ID. */
  function ImageIdsToPairId(imageId1: int, imageId2: int): (pairId: int)
    ensures pairId == Min(imageId1, imageId2) * MAX_IMAGE_ID + Max(imageId1, imageId2)
    ensures ValidImageId(imageId1) && ValidImageId(imageId2) ==> 0 <= pairId
  {
    if imageId1 > imageId2 then imageId2 * MAX_IMAGE_ID + imageId1
    else imageId1 * MAX_IMAGE_ID + imageId2
  }

  /** `pair_id_to_image_ids`: the remainder is the second id, the exact
      quotient the first. (The source divides with `/` on floats and
      truncates with `int()`; that agrees with exact division while the
      pair id is below 2^53.) */
  function PairIdToImageIds(pairId: int): (ids: (int, int))
    ensures 0 <= ids.1 < MAX_IMAGE_ID
    ensures ids.0 * MAX_IMAGE_ID + ids.1 == pairId
  {
    var imageId2 := pairId % MAX_IMAGE_ID;
    ((pairId - imageId2) / MAX_IMAGE_ID, imageId2)
  }

  function Min(a: int, b: int): int { if a <= b then a else b }
  function Max(a: int, b: int): int { if a <= b then b else a }

  /** Division with remainder has exactly one solution. */
  lemma QuotientRemainderUnique(q: int, r: int, q': int, r': int)
    requires 0 <= r < MAX_IMAGE_ID && 0 <= r' < MAX_IMAGE_ID
    requires q * MAX_IMAGE_ID + r == q' * MAX_IMAGE_ID + r'
    ensures q == q' && r == r'
  {
    var k := q - q';
    assert k * MAX_IMAGE_ID == r' - r;
    assert -MAX_IMAGE_ID < k * MAX_IMAGE_ID < MAX_IMAGE_ID;
  }

  /** The encoding does not depend on the order of its arguments. */
  lemma PairIdSymmetric(a: int, b: int)
    ensures ImageIdsToPairId(a, b) == ImageIdsToPairId(b, a)
  {
  }

  /** Decoding an encoded pair of valid ids gives them back in ascending
      order, whatever order they were encoded in. */
  lemma PairIdRoundTrip(a: int, b: int)
    requires ValidImageId(a) && ValidImageId(b)
    ensures PairIdToImageIds(ImageIdsToPairId(a, b)) == (Min(a, b), Max(a, b))
  {
    var p := ImageIdsToPairId(a, b);
    var ids := PairIdToImageIds(p);
    assert p == Min(a, b) * MAX_IMAGE_ID + Max(a, b);
    QuotientRemainderUnique(ids.0, ids.1, Min(a, b), Max(a, b));
  }

  /** Every pair id with a non-negative first component is the encoding of
      the pair it decodes to: the encoding is onto the pair ids whose
      decoded ids are ordered. */
  lemma PairIdDecodeEncode(pairId: int)
    requires PairIdToImageIds(pairId).0 <= PairIdToImageIds(pairId).1
    ensures ImageIdsToPairId(PairIdToImageIds(pairId).0, PairIdToImageIds(pairId).1) == pairId
  {
  }

  /** Within the valid range two pairs share a pair id only when they are
      the same unordered pair. */
  lemma PairIdInjective(a: int, b: int, c: int, d: int)
    requires ValidImageId(a) && ValidImageId(b) && ValidImageId(c) && ValidImageId(d)
    requires ImageIdsToPairId(a, b) == ImageIdsToPairId(c, d)
    ensures (a == c && b == d) || (a == d && b == c)
  {
    PairIdRoundTrip(a, b);
    PairIdRoundTrip(c, d);
  }

  /** The value fixed by the COLMAP convention: (1, 2) is 2147483649. */
  lemma PairIdKnownValue()
    ensures ImageIdsToPairId(1, 2) == 2147483649
    ensures ImageIdsToPairId(2, 1) == 2147483649
    ensures PairIdToImageIds(2147483649) == (1, 2)
  {
    PairIdRoundTrip(1, 2);
  }

  /** Outside the valid range the encoding silently collides: the ids are
      not checked against MAX_IMAGE_ID. */
  lemma PairIdCollidesOutOfRange()
    ensures ImageIdsToPairId(0, MAX_IMAGE_ID + 1) == ImageIdsToPairId(1, 1)
    ensures !ValidImageId(MAX_IMAGE_ID + 1)
  {
  }
}
