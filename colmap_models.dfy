/** The COLMAP project model of synthmap/models/colmap.py: the pair-id
    helpers of `PairData`, the neighbour enumeration `yield_pairs_for`
    (which flips a pair's match columns in place), the referential
    validators of `ColmapProject`, and the six table loaders that
    `load_all` runs in a fixed order. SQLite is not modelled: a table is
    the sequence of rows `SELECT *` returns, or None when the query fails
    (the table is missing). */
module ColmapModels {
  import opened Wrappers
  import opened BlobCodec
  import PairIndex

  // ---------------------------------------------------------------------
  // PairData.ids_i2p / ids_p2i / p2i
  // ---------------------------------------------------------------------

  /** `ids_i2p`: order the two ids, then combine them. It is the same
      convention as the project manager's `image_ids_to_pair_id`. */
  function IdsI2P(imageId1: int, imageId2: int): (pairId: int)
    ensures pairId == PairIndex.ImageIdsToPairId(imageId1, imageId2)
    ensures pairId == PairIndex.Min(imageId1, imageId2) * PairIndex.MAX_IMAGE_ID + PairIndex.Max(imageId1, imageId2)
  {
    var (a, b) := if imageId1 > imageId2 then (imageId2, imageId1) else (imageId1, imageId2);
    a * PairIndex.MAX_IMAGE_ID + b
  }

  /** `ids_p2i`: the remainder is the second id, the quotient of what is
      left the first. Python's `%` by a positive divisor never yields a
      negative remainder, as Dafny's does not; the source's `/` is a
      correctly rounded true division of an exact multiple, so `int()`
      recovers the quotient exactly. */
  function IdsP2I(pairId: int): (ids: (int, int))
    ensures 0 <= ids.1 < PairIndex.MAX_IMAGE_ID
    ensures ids.0 * PairIndex.MAX_IMAGE_ID + ids.1 == pairId
    ensures ids == PairIndex.PairIdToImageIds(pairId)
  {
    var imageId2 := pairId % PairIndex.MAX_IMAGE_ID;
    var imageId1 := (pairId - imageId2) / PairIndex.MAX_IMAGE_ID;
    PairIndex.QuotientRemainderUnique(imageId1, imageId2,
      PairIndex.PairIdToImageIds(pairId).0, PairIndex.PairIdToImageIds(pairId).1);
    (imageId1, imageId2)
  }

  /** Round trip: decoding an encoded pair of valid ids gives them back in
      ascending order, whichever order they were given in. */
  lemma IdsRoundTrip(a: int, b: int)
    requires PairIndex.ValidImageId(a) && PairIndex.ValidImageId(b)
    ensures IdsP2I(IdsI2P(a, b)) == (PairIndex.Min(a, b), PairIndex.Max(a, b))
    ensures IdsI2P(a, b) == IdsI2P(b, a)
  {
    PairIndex.PairIdRoundTrip(a, b);
  }

  // ---------------------------------------------------------------------
  // ColmapProject.yield_pairs_for
  // ---------------------------------------------------------------------

  /** The image paired with `imageId` in pair `pairId`, if `imageId` is one
      of its two endpoints; the first endpoint is tested first. */
  function Partner(imageId: int, pairId: int): (r: Option<int>)
  {
    var (p1, p2) := IdsP2I(pairId);
    if imageId == p1 then Some(p2)
    else if imageId == p2 then Some(p1)
    else None
  }

  /** Whether `yield_pairs_for` flips the columns of the pair: `imageId` is
      its second endpoint and not its first. */
  predicate SwapsColumns(imageId: int, pairId: int)
  {
    var (p1, p2) := IdsP2I(pairId);
    imageId != p1 && imageId == p2
  }

  /** For a pair of valid ids, the partner of either endpoint is the other
      one, and an image that is neither endpoint has no partner. */
  lemma PartnerOfEncodedPair(a: int, b: int, c: int)
    requires PairIndex.ValidImageId(a) && PairIndex.ValidImageId(b)
    ensures Partner(a, IdsI2P(a, b)) == Some(b)
    ensures Partner(b, IdsI2P(a, b)) == Some(a)
    ensures c != a && c != b ==> Partner(c, IdsI2P(a, b)).None?
    ensures SwapsColumns(c, IdsI2P(a, b)) <==> (a != b && c == PairIndex.Max(a, b))
  {
    IdsRoundTrip(a, b);
  }

  /** A self-pair is found through the first endpoint: its partner is the
      image itself and its columns are not flipped. */
  lemma SelfPairNotSwapped(a: int)
    requires PairIndex.ValidImageId(a)
    ensures Partner(a, IdsI2P(a, a)) == Some(a)
    ensures !SwapsColumns(a, IdsI2P(a, a))
  {
    IdsRoundTrip(a, a);
  }

  /** Where column j of a row of `cols` columns goes when the columns are
      read right to left. */
  function MirrorIndex(k: nat, cols: nat): nat
    requires cols > 0
  {
    (k / cols) * cols + (cols - 1 - k % cols)
  }

  lemma MulAtLeast(d: int, c: int)
    ensures d >= 1 && c > 0 ==> d * c >= c
  {
    if d >= 1 && c > 0 {
      assert d * c == c + (d - 1) * c;
    }
  }

  lemma MulMonotone(a: int, b: int, c: int)
    ensures a <= b && c >= 0 ==> a * c <= b * c
  {
    if a <= b && c >= 0 {
      assert b * c == a * c + (b - a) * c;
    }
  }

  /** Euclidean division has one solution. */
  lemma DivModUnique(m: int, q: int, r: int, c: int)
    requires c > 0 && 0 <= r < c && m == q * c + r
    ensures m / c == q && m % c == r
  {
    var q', r' := m / c, m % c;
    assert (q - q') * c == r' - r;
    MulAtLeast(q - q', c);
    MulAtLeast(q' - q, c);
    assert (q' - q) * c == -((q - q') * c);
  }

  lemma MirrorIndexFacts(k: nat, rows: nat, cols: nat)
    requires cols > 0 && k < rows * cols
    ensures MirrorIndex(k, cols) < rows * cols
    ensures MirrorIndex(k, cols) / cols == k / cols
    ensures MirrorIndex(k, cols) % cols == cols - 1 - k % cols
    ensures MirrorIndex(MirrorIndex(k, cols), cols) == k
  {
    var q, r := k / cols, k % cols;
    var m := MirrorIndex(k, cols);
    DivModUnique(m, q, cols - 1 - r, cols);
    MulMonotone(rows, q, cols);
    assert q < rows;
    MulMonotone(q + 1, rows, cols);
    assert m < (q + 1) * cols;
  }

  /** `data[:, ::-1]`: the same matrix with every row read right to left
      (ReverseColumnsAt states it element by element). */
  function ReverseColumns(a: NdArray): (r: NdArray)
    requires WellFormed(a) && a.shape.Matrix?
    ensures WellFormed(r) && r.shape == a.shape && r.dtype == a.dtype
  {
    var rows, cols := a.shape.rows, a.shape.cols;
    if cols == 0 then a
    else
      var n := rows * cols;
      var items := seq(n, k requires 0 <= k < n => MirrorIndexFacts(k, rows, cols); a.items[MirrorIndex(k, cols)]);
      assert forall k :: 0 <= k < n ==> TypeOf(items[k]) == a.dtype by {
        forall k | 0 <= k < n ensures TypeOf(items[k]) == a.dtype {
          MirrorIndexFacts(k, rows, cols);
        }
      }
      NdArray(a.dtype, a.shape, items)
  }

  /** Row i of the flipped matrix is row i of the original read backwards. */
  lemma ReverseColumnsAt(a: NdArray, i: nat, j: nat)
    requires WellFormed(a) && a.shape.Matrix?
    requires i < a.shape.rows && j < a.shape.cols
    ensures At(ReverseColumns(a), i, j) == At(a, i, a.shape.cols - 1 - j)
  {
    var rows, cols := a.shape.rows, a.shape.cols;
    var k := i * cols + j;
    RowMajorIndexInRange(i, j, rows, cols);
    RowMajorIndexInRange(i, cols - 1 - j, rows, cols);
    DivModUnique(k, i, j, cols);
    MirrorIndexFacts(k, rows, cols);
  }

  /** Flipping the columns twice gives the matrix back. */
  lemma ReverseColumnsInvolutive(a: NdArray)
    requires WellFormed(a) && a.shape.Matrix?
    ensures ReverseColumns(ReverseColumns(a)) == a
  {
    var rows, cols := a.shape.rows, a.shape.cols;
    if cols > 0 {
      var b := ReverseColumns(ReverseColumns(a));
      forall k | 0 <= k < rows * cols
        ensures b.items[k] == a.items[k]
      {
        MirrorIndexFacts(k, rows, cols);
      }
    }
  }

  /** A `PairMatches` (or `PairGeometry`) object: `data` is None or the
      decoded `(rows, cols)` matrix, and `yield_pairs_for` may replace it. */
  class PairRecord {
    var pairId: int
    var rows: int
    var cols: int
    var data: Option<NdArray>

    ghost predicate Valid()
      reads this
    {
      SnapshotValid(Snapshot())
    }

    function Snapshot(): PairSnapshot
      reads this
    {
      PairSnapshot(pairId, rows, cols, data)
    }

    /** `p2i`: the two image ids of this pair. */
    function P2I(): (ids: (int, int))
      reads this
      ensures ids.0 * PairIndex.MAX_IMAGE_ID + ids.1 == pairId
      ensures 0 <= ids.1 < PairIndex.MAX_IMAGE_ID
    {
      IdsP2I(pairId)
    }
  }

  /** The value of a PairRecord at one moment. */
  datatype PairSnapshot = PairSnapshot(pairId: int, rows: int, cols: int, data: Option<NdArray>)

  ghost predicate SnapshotValid(s: PairSnapshot) {
    s.data.Some? ==> WellFormed(s.data.value) && s.data.value.shape.Matrix?
  }

  /** What one visit of `yield_pairs_for` leaves in a pair's `data`. */
  function Visited(imageId: int, s: PairSnapshot): (d: Option<NdArray>)
    requires SnapshotValid(s)
    ensures d.None? <==> s.data.None?
    ensures d.Some? ==> WellFormed(d.value) && d.value.shape == s.data.value.shape
  {
    if s.data.Some? && SwapsColumns(imageId, s.pairId) then Some(ReverseColumns(s.data.value))
    else s.data
  }

  ghost predicate AllValid(ss: seq<PairSnapshot>) {
    forall i :: 0 <= i < |ss| ==> SnapshotValid(ss[i])
  }

  /** The pairs after one `yield_pairs_for(imageId, ...)` has run through
      them: only `data` changes, and only where the columns are flipped. */
  function AfterVisit(imageId: int, ss: seq<PairSnapshot>): (r: seq<PairSnapshot>)
    requires AllValid(ss)
    ensures |r| == |ss| && AllValid(r)
  {
    seq(|ss|, i requires 0 <= i < |ss| => ss[i].(data := Visited(imageId, ss[i])))
  }

  /** A second `yield_pairs_for` for the same image undoes the flips of the
      first, so the pairs are back as they were. */
  lemma VisitTwiceRestores(imageId: int, ss: seq<PairSnapshot>)
    requires AllValid(ss)
    ensures AfterVisit(imageId, AfterVisit(imageId, ss)) == ss
  {
    var once := AfterVisit(imageId, ss);
    forall i | 0 <= i < |ss|
      ensures AfterVisit(imageId, once)[i] == ss[i]
    {
      var s := ss[i];
      if s.data.Some? && SwapsColumns(imageId, s.pairId) {
        ReverseColumnsInvolutive(s.data.value);
      }
    }
  }

  /** The (partner, position) pairs `yield_pairs_for` yields, in dict order:
      pairs without data and pairs without `imageId` are passed over. */
  function Yields(imageId: int, pairs: seq<PairSnapshot>): (ys: seq<(int, nat)>)
    ensures forall y :: y in ys ==> y.1 < |pairs|
  {
    if pairs == [] then []
    else
      var last := |pairs| - 1;
      var s := pairs[last];
      Yields(imageId, pairs[..last])
        + (if s.data.Some? && Partner(imageId, s.pairId).Some? then [(Partner(imageId, s.pairId).value, last)] else [])
  }

  /** A pair is yielded exactly when it has data and contains the image,
      with the other endpoint as partner. */
  lemma YieldsExactly(imageId: int, pairs: seq<PairSnapshot>)
    ensures forall p: int, i: nat :: (p, i) in Yields(imageId, pairs) <==>
              (i < |pairs| && pairs[i].data.Some? && Partner(imageId, pairs[i].pairId) == Some(p))
  {
    forall p: int, i: nat
      ensures (p, i) in Yields(imageId, pairs) <==>
                (i < |pairs| && pairs[i].data.Some? && Partner(imageId, pairs[i].pairId) == Some(p))
    {
      YieldedIff(imageId, pairs, p, i);
    }
  }

  /** The same for one (partner, position). */
  lemma {:induction false} YieldedIff(imageId: int, pairs: seq<PairSnapshot>, p: int, i: nat)
    ensures (p, i) in Yields(imageId, pairs) <==>
              (i < |pairs| && pairs[i].data.Some? && Partner(imageId, pairs[i].pairId) == Some(p))
  {
    if pairs != [] {
      var last := |pairs| - 1;
      var init := pairs[..last];
      YieldedIff(imageId, init, p, i);
      var s := pairs[last];
      var tail := if s.data.Some? && Partner(imageId, s.pairId).Some? then [(Partner(imageId, s.pairId).value, last)] else [];
      assert Yields(imageId, pairs) == Yields(imageId, init) + tail;
      if i < last {
        assert init[i] == pairs[i];
        assert (p, i) !in tail;
      } else if i == last {
        assert (p, i) !in Yields(imageId, init);
      }
    }
  }

  /** Positions strictly increase along the yields, so no pair is yielded
      twice and dict order is kept. */
  lemma {:induction false} YieldsInOrder(imageId: int, pairs: seq<PairSnapshot>)
    ensures forall m, n :: 0 <= m < n < |Yields(imageId, pairs)| ==>
              Yields(imageId, pairs)[m].1 < Yields(imageId, pairs)[n].1
  {
    if pairs != [] {
      var last := |pairs| - 1;
      YieldsInOrder(imageId, pairs[..last]);
      var front := Yields(imageId, pairs[..last]);
      assert forall m :: 0 <= m < |front| ==> front[m].1 < last by {
        forall m | 0 <= m < |front| ensures front[m].1 < last {
          assert front[m] in front;
        }
      }
      var ys := Yields(imageId, pairs);
      var s := pairs[last];
      var tail := if s.data.Some? && Partner(imageId, s.pairId).Some? then [(Partner(imageId, s.pairId).value, last)] else [];
      assert ys == front + tail;
      forall m, n | 0 <= m < n < |ys| ensures ys[m].1 < ys[n].1 {
        assert m < |front| && ys[m] == front[m];
        if n < |front| {
          assert ys[n] == front[n];
        } else {
          assert ys[n] == tail[n - |front|];
          assert ys[n].1 == last;
        }
      }
    }
  }

  /** Yielding over one more pair appends at most that pair. */
  lemma YieldsSnoc(imageId: int, ss: seq<PairSnapshot>, i: nat)
    requires i < |ss|
    ensures Yields(imageId, ss[..i + 1]) == Yields(imageId, ss[..i]) +
              if ss[i].data.Some? && Partner(imageId, ss[i].pairId).Some?
              then [(Partner(imageId, ss[i].pairId).value, i)] else []
  {
    assert ss[..i + 1][..i] == ss[..i];
  }

  function Snapshots(pairs: seq<PairRecord>): (ss: seq<PairSnapshot>)
    reads set i | 0 <= i < |pairs| :: pairs[i]
    ensures |ss| == |pairs|
    ensures forall i :: 0 <= i < |pairs| ==> ss[i] == pairs[i].Snapshot()
  {
    seq(|pairs|, i requires 0 <= i < |pairs| reads set j | 0 <= j < |pairs| :: pairs[j] => pairs[i].Snapshot())
  }

  /** One iteration of `yield_pairs_for`: the partner to yield, if any,
      with the pair's columns flipped when the image is its second
      endpoint. */
  method VisitPair(imageId: int, pair: PairRecord) returns (partner: Option<int>)
    requires SnapshotValid(pair.Snapshot())
    modifies pair
    ensures pair.Snapshot() == old(pair.Snapshot()).(data := Visited(imageId, old(pair.Snapshot())))
    ensures partner == if old(pair.data).Some? then Partner(imageId, pair.pairId) else None
  {
    partner := None;
    if pair.data.Some? {
      var (p1, p2) := pair.P2I();
      if imageId == p1 {
        partner := Some(p2);
      } else if imageId == p2 {
        pair.data := Some(ReverseColumns(pair.data.value));
        partner := Some(p1);
      }
    }
  }

  /** `yield_pairs_for(image_id, pair_dict)`, with the dict given by its
      values in iteration order. Every pair with data that contains the
      image is yielded with its partner; where the image is the second
      endpoint the pair's columns are flipped in place. Nothing else about
      the pairs changes. */
  method YieldPairsFor(imageId: int, pairs: seq<PairRecord>) returns (yielded: seq<(int, PairRecord)>)
    requires forall i, j :: 0 <= i < j < |pairs| ==> pairs[i] != pairs[j]
    requires AllValid(Snapshots(pairs))
    modifies set i | 0 <= i < |pairs| :: pairs[i]
    ensures AllValid(old(Snapshots(pairs)))
    ensures Snapshots(pairs) == AfterVisit(imageId, old(Snapshots(pairs)))
    ensures |yielded| == |Yields(imageId, old(Snapshots(pairs)))|
    ensures forall k :: 0 <= k < |yielded| ==>
              yielded[k] == (Yields(imageId, old(Snapshots(pairs)))[k].0, pairs[Yields(imageId, old(Snapshots(pairs)))[k].1])
  {
    ghost var before := Snapshots(pairs);
    ghost var after := AfterVisit(imageId, before);
    ghost var ys: seq<(int, nat)> := [];
    yielded := [];
    var i := 0;
    while i < |pairs|
      invariant 0 <= i <= |pairs|
      invariant forall j :: 0 <= j < |pairs| ==> pairs[j].Snapshot() == if j < i then after[j] else before[j]
      invariant ys == Yields(imageId, before[..i])
      invariant |yielded| == |ys|
      invariant forall k :: 0 <= k < |ys| ==> yielded[k] == (ys[k].0, pairs[ys[k].1])
    {
      YieldsSnoc(imageId, before, i);
      label visit:
      var partner := VisitPair(imageId, pairs[i]);
      forall j | 0 <= j < |pairs| && j != i
        ensures pairs[j].Snapshot() == old@visit(pairs[j].Snapshot())
      {
        assert pairs[j] != pairs[i];
      }
      if partner.Some? {
        yielded := yielded + [(partner.value, pairs[i])];
        ys := ys + [(partner.value, i)];
      }
      i := i + 1;
    }
    assert before[..i] == before;
  }
}
