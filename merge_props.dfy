/** What `create_entity_project` (synthmap/projectManager/colmapParser.py:
    392-540) guarantees about the database it builds, proved on the
    specification in module EntityMerge: every global image gets one new id,
    that of its first related row; the occurrences of an image whose
    projects disagree on its descriptors are skipped together with every
    match touching them; a match is re-keyed by the new ids of its two
    images; the new ids are distinct, and the image and match tables stay
    aligned. */
module EntityMergeProperties {
  import opened Wrappers
  import opened BlobCodec
  import opened ColmapCatalog
  import opened RelatedImages
  import opened PairIndex
  import opened StableSort
  import opened TempDatabase
  import opened EntityMerge

  /*
   * The related rows and the maps built from them (lines 404-410).
   */

  /** The rows obey the UNIQUE constraints of projectImages: within one
      project, a row's global id and local id determine each other. */
  ghost predicate Consistent(related: seq<RelatedRow>) {
    forall i, j :: 0 <= i < |related| && 0 <= j < |related| && related[i].projectId == related[j].projectId ==>
      (related[i].imageId == related[j].imageId <==> related[i].localId == related[j].localId)
  }

  /** The first pass reads the maps built from the same rows it walks. */
  ghost predicate BuiltFrom(ctx: Context, related: seq<RelatedRow>) {
    ctx.graph == ImageGraph(related) && ctx.count == ProjectCount(related)
  }

  /** The index of the first row of image g, or |rows| when there is none. */
  function FirstIndex(rows: seq<RelatedRow>, g: ImageId): (f: nat)
    ensures f <= |rows|
    ensures f < |rows| ==> rows[f].imageId == g
    ensures forall j :: 0 <= j < f ==> rows[j].imageId != g
    decreases |rows|
  {
    if rows == [] then 0
    else if rows[0].imageId == g then 0
    else
      var f := FirstIndex(rows[1..], g);
      assert forall j :: 1 <= j < |rows| ==> rows[j] == rows[1..][j - 1];
      1 + f
  }

  /** The key of the first row of the image of row j: the occurrence whose
      new id every occurrence of that image takes. */
  function CanonicalKey(related: seq<RelatedRow>, j: nat): Key
    requires j < |related|
  {
    KeyOf(related[FirstIndex(related, related[j].imageId)])
  }

  lemma ConsistentPrefix(related: seq<RelatedRow>, n: nat)
    requires Consistent(related) && n <= |related|
    ensures Consistent(related[..n])
  {
    assert forall i :: 0 <= i < n ==> related[..n][i] == related[i];
  }

  /** Each row's (project, image) maps to its own local id. */
  lemma {:induction false} GraphAt(related: seq<RelatedRow>, j: nat)
    requires Consistent(related) && j < |related|
    ensures (related[j].projectId, related[j].imageId) in ImageGraph(related)
    ensures ImageGraph(related)[(related[j].projectId, related[j].imageId)] == related[j].localId
    decreases |related|
  {
    var n := |related| - 1;
    if j < n {
      ConsistentPrefix(related, n);
      assert related[..n][j] == related[j];
      GraphAt(related[..n], j);
    }
  }

  /** Every entry of the graph comes from a row. */
  lemma {:induction false} GraphFrom(related: seq<RelatedRow>, q: ProjectId, g: ImageId)
    requires (q, g) in ImageGraph(related)
    ensures exists j :: (0 <= j < |related| && related[j].projectId == q && related[j].imageId == g
                         && related[j].localId == ImageGraph(related)[(q, g)])
    decreases |related|
  {
    var n := |related| - 1;
    var r := related[n];
    if (r.projectId, r.imageId) != (q, g) {
      GraphFrom(related[..n], q, g);
      var j :| 0 <= j < n && related[..n][j].projectId == q && related[..n][j].imageId == g
        && related[..n][j].localId == ImageGraph(related[..n])[(q, g)];
      assert related[j] == related[..n][j];
    }
  }

  /** Every project listed for an image comes from a row of that image. */
  lemma {:induction false} CountFrom(related: seq<RelatedRow>, g: ImageId, q: ProjectId)
    requires q in CountOf(ProjectCount(related), g)
    ensures exists j :: 0 <= j < |related| && related[j].imageId == g && related[j].projectId == q
    decreases |related|
  {
    var n := |related| - 1;
    var r := related[n];
    if !(r.imageId == g && r.projectId == q) {
      assert q in CountOf(ProjectCount(related[..n]), g);
      CountFrom(related[..n], g, q);
      var j :| 0 <= j < n && related[..n][j].imageId == g && related[..n][j].projectId == q;
      assert related[j] == related[..n][j];
    }
  }

  /** Every row's project is listed for its image. */
  lemma {:induction false} CountHas(related: seq<RelatedRow>, j: nat)
    requires j < |related|
    ensures related[j].projectId in CountOf(ProjectCount(related), related[j].imageId)
    decreases |related|
  {
    var n := |related| - 1;
    if j < n {
      assert related[..n][j] == related[j];
      CountHas(related[..n], j);
    }
  }

  /** Two rows of one image make its project list longer than one. */
  lemma {:induction false} CountTwo(related: seq<RelatedRow>, i: nat, j: nat)
    requires i < j < |related| && related[i].imageId == related[j].imageId
    ensures |CountOf(ProjectCount(related), related[i].imageId)| > 1
    decreases |related|
  {
    var n := |related| - 1;
    var g := related[i].imageId;
    assert related[..n][i] == related[i];
    if j == n {
      CountHas(related[..n], i);
    } else {
      assert related[..n][j] == related[j];
      CountTwo(related[..n], i, j);
    }
  }

  /** The occurrences of image g are exactly the keys of its rows. */
  lemma OccurrencesAreRowKeys(ctx: Context, related: seq<RelatedRow>, g: ImageId, occ: seq<Key>)
    requires Consistent(related) && BuiltFrom(ctx, related)
    requires Occurrences(ctx, g, CountOf(ctx.count, g)) == Ok(occ)
    ensures forall o :: o in occ ==> exists j :: 0 <= j < |related| && related[j].imageId == g && KeyOf(related[j]) == o
    ensures forall j :: 0 <= j < |related| && related[j].imageId == g ==> KeyOf(related[j]) in occ
    ensures forall j :: 0 <= j < |related| && related[j].imageId != g ==> KeyOf(related[j]) !in occ
  {
    var qs := CountOf(ctx.count, g);
    forall o | o in occ
      ensures exists j :: 0 <= j < |related| && related[j].imageId == g && KeyOf(related[j]) == o
    {
      var i :| 0 <= i < |occ| && occ[i] == o;
      CountFrom(related, g, qs[i]);
      var j :| 0 <= j < |related| && related[j].imageId == g && related[j].projectId == qs[i];
      GraphAt(related, j);
    }
    forall j | 0 <= j < |related| && related[j].imageId == g
      ensures KeyOf(related[j]) in occ
    {
      CountHas(related, j);
      var i :| 0 <= i < |qs| && qs[i] == related[j].projectId;
      GraphAt(related, j);
      assert occ[i] == KeyOf(related[j]);
    }
    forall j | 0 <= j < |related| && related[j].imageId != g
      ensures KeyOf(related[j]) !in occ
    {
      forall i | 0 <= i < |occ|
        ensures occ[i] != KeyOf(related[j])
      {
        CountFrom(related, g, qs[i]);
        var j2 :| 0 <= j2 < |related| && related[j2].imageId == g && related[j2].projectId == qs[i];
        GraphAt(related, j2);
        assert occ[i] == KeyOf(related[j2]);
      }
    }
  }

  /*
   * The first pass (lines 447-497): what it leaves for each row.
   */

  /** Image g has rows in more than one project (line 454). */
  ghost predicate Shared(ctx: Context, g: ImageId) {
    |CountOf(ctx.count, g)| > 1
  }

  /** The projects holding image g disagree on its descriptors (line 465). */
  ghost predicate ImageConflicts(ctx: Context, g: ImageId) {
    Shared(ctx, g) && Occurrences(ctx, g, CountOf(ctx.count, g)).Ok?
    && |Descriptors(ctx, Occurrences(ctx, g, CountOf(ctx.count, g)).value)| > 1
  }

  /** What the first pass has recorded for row j once the rows before i are
      processed: nothing until the first row of its image is reached; from
      then on a shared image points every occurrence at the canonical one,
      a conflicting image has all of its occurrences skipped and no id, and
      any other image has an id for its canonical occurrence. */
  ghost predicate RowState(ctx: Context, related: seq<RelatedRow>, i: nat, res: Resolution, j: nat)
    requires j < |related|
  {
    var g := related[j].imageId;
    var k := KeyOf(related[j]);
    var k0 := CanonicalKey(related, j);
    if FirstIndex(related, g) < i then
      (Shared(ctx, g) ==> k in res.excluded && res.excluded[k] == k0)
      && (!Shared(ctx, g) ==> k !in res.excluded && k in res.newIdxs)
      && (ImageConflicts(ctx, g) ==> k in res.skip && k !in res.newIdxs)
      && (!ImageConflicts(ctx, g) ==> k !in res.skip && k0 in res.newIdxs)
    else
      k !in res.excluded && k !in res.newIdxs && k !in res.skip
  }

  ghost predicate Processed(ctx: Context, related: seq<RelatedRow>, i: nat, res: Resolution) {
    forall j :: 0 <= j < |related| ==> RowState(ctx, related, i, res, j)
  }

  /** A step leaves key x as it was. */
  ghost predicate Untouched(a: Resolution, b: Resolution, x: Key) {
    (x in a.excluded <==> x in b.excluded) && (x in a.excluded ==> b.excluded[x] == a.excluded[x])
    && (x in a.newIdxs <==> x in b.newIdxs) && (x in a.skip <==> x in b.skip)
  }

  /** A row that is not excluded changes only its own key and the
      occurrences of its image. */
  lemma StepFrame(ctx: Context, st: Pass, r: RelatedRow, x: Key)
    requires Step(ctx, st, r).Ok? && KeyOf(r) !in st.res.excluded && x != KeyOf(r)
    requires Shared(ctx, r.imageId) ==>
      Occurrences(ctx, r.imageId, CountOf(ctx.count, r.imageId)).Ok?
      && x !in Occurrences(ctx, r.imageId, CountOf(ctx.count, r.imageId)).value
    ensures Untouched(st.res, Step(ctx, st, r).value.res, x)
  {
  }

  lemma KeyDeterminesImage(related: seq<RelatedRow>, a: nat, b: nat)
    requires Consistent(related) && a < |related| && b < |related|
    requires related[a].imageId != related[b].imageId
    ensures KeyOf(related[a]) != KeyOf(related[b])
  {
  }

  /** Moving past row i leaves the state of a row of another image as it
      was. */
  lemma RowStateLater(ctx: Context, related: seq<RelatedRow>, i: nat, res: Resolution, j: nat)
    requires j < |related| && FirstIndex(related, related[j].imageId) != i
    requires RowState(ctx, related, i, res, j)
    ensures RowState(ctx, related, i + 1, res, j)
  {
  }

  /** A row whose image was met before is excluded and changes nothing. */
  lemma StepLaterRow(ctx: Context, related: seq<RelatedRow>, i: nat, st: Pass)
    requires Consistent(related) && BuiltFrom(ctx, related) && i < |related|
    requires FirstIndex(related, related[i].imageId) < i
    requires Processed(ctx, related, i, st.res)
    ensures Step(ctx, st, related[i]) == Ok(st)
    ensures Processed(ctx, related, i + 1, st.res)
  {
    LaterRowExcluded(ctx, related, i, st.res);
    ProcessedPastLaterRow(ctx, related, i, i + 1, st.res);
  }

  /** A later row of an image is already in `excluded`. */
  lemma LaterRowExcluded(ctx: Context, related: seq<RelatedRow>, i: nat, res: Resolution)
    requires BuiltFrom(ctx, related) && i < |related|
    requires FirstIndex(related, related[i].imageId) < i
    requires Processed(ctx, related, i, res)
    ensures KeyOf(related[i]) in res.excluded
  {
    CountTwo(related, FirstIndex(related, related[i].imageId), i);
    assert RowState(ctx, related, i, res, i);
  }

  /** Passing a row whose image was met before keeps every row's state. */
  lemma ProcessedPastLaterRow(ctx: Context, related: seq<RelatedRow>, i: nat, next: nat, res: Resolution)
    requires i < |related| && next == i + 1
    requires FirstIndex(related, related[i].imageId) < i
    requires Processed(ctx, related, i, res)
    ensures Processed(ctx, related, next, res)
  {
    forall j | 0 <= j < |related|
      ensures RowState(ctx, related, next, res, j)
    {
      assert FirstIndex(related, related[j].imageId) != i;
      RowStateLater(ctx, related, i, res, j);
    }
  }

  /** The first row of an image resolves every row of that image and leaves
      the rows of other images as they were. */
  lemma StepFirstRow(ctx: Context, related: seq<RelatedRow>, i: nat, st: Pass)
    requires Consistent(related) && BuiltFrom(ctx, related) && i < |related|
    requires FirstIndex(related, related[i].imageId) == i
    requires Processed(ctx, related, i, st.res)
    requires Step(ctx, st, related[i]).Ok?
    ensures Processed(ctx, related, i + 1, Step(ctx, st, related[i]).value.res)
  {
    var r := related[i];
    var g := r.imageId;
    var k := KeyOf(r);
    var res' := Step(ctx, st, r).value.res;
    assert RowState(ctx, related, i, st.res, i);
    var occ: seq<Key> := [];
    if Shared(ctx, g) {
      occ := Occurrences(ctx, g, CountOf(ctx.count, g)).value;
      OccurrencesAreRowKeys(ctx, related, g, occ);
    }
    var next := i + 1;
    forall j | 0 <= j < |related|
      ensures RowState(ctx, related, next, res', j)
    {
      assert RowState(ctx, related, i, st.res, j);
      var rj := related[j];
      if rj.imageId == g {
        if j != i {
          CountTwo(related, i, j);
        }
      } else {
        var f := FirstIndex(related, rj.imageId);
        KeyDeterminesImage(related, j, i);
        KeyDeterminesImage(related, f, i);
        StepFrame(ctx, st, r, KeyOf(rj));
        StepFrame(ctx, st, r, KeyOf(related[f]));
      }
    }
  }

  /** The first n rows leave every row in the state RowState describes. */
  lemma {:induction false} FirstPassProcessed(ctx: Context, related: seq<RelatedRow>, n: nat)
    requires Consistent(related) && BuiltFrom(ctx, related) && n <= |related|
    requires FirstPass(ctx, related[..n]).Ok?
    ensures Processed(ctx, related, n, FirstPass(ctx, related[..n]).value.res)
  {
    if n == 0 {
      assert related[..0] == [];
      assert forall j :: 0 <= j < |related| ==> RowState(ctx, related, 0, InitialResolution(), j);
    } else {
      var m := n - 1;
      assert related[..n][..m] == related[..m];
      assert related[..n][m] == related[m];
      FirstPassProcessed(ctx, related, m);
      var st := FirstPass(ctx, related[..m]).value;
      if FirstIndex(related, related[m].imageId) < m {
        StepLaterRow(ctx, related, m, st);
      } else {
        StepFirstRow(ctx, related, m, st);
      }
    }
  }

  /** After the first pass every row resolves to the new id of the first
      row of its image (lines 474-475, 505-509), unless the projects holding
      that image disagree on its descriptors: then the row is skipped and
      has no id (lines 465-473, corrected as in EntityMerge.OnConflict). */
  lemma CanonicalResolution(ctx: Context, related: seq<RelatedRow>, j: nat)
    requires Consistent(related) && BuiltFrom(ctx, related) && j < |related|
    requires FirstPass(ctx, related).Ok?
    ensures var res := FirstPass(ctx, related).value.res;
      if ImageConflicts(ctx, related[j].imageId) then
        KeyOf(related[j]) in res.skip && Resolve(res, KeyOf(related[j])).None?
      else
        KeyOf(related[j]) !in res.skip && CanonicalKey(related, j) in res.newIdxs
        && Resolve(res, KeyOf(related[j])) == Some(res.newIdxs[CanonicalKey(related, j)])
  {
    var n := |related|;
    assert related[..n] == related;
    FirstPassProcessed(ctx, related, n);
    var res := FirstPass(ctx, related).value.res;
    assert RowState(ctx, related, n, res, j);
    var f := FirstIndex(related, related[j].imageId);
    if f < j {
      CountTwo(related, f, j);
    }
    if Shared(ctx, related[j].imageId) {
      var k0 := CanonicalKey(related, j);
      assert RowState(ctx, related, n, res, f);
      assert CanonicalKey(related, f) == k0;
    }
  }

  /*
   * The new ids (lines 474-475).
   */

  /** The counter starts at 0 and every id handed out lies in 1..new_idx,
      each key having its own. */
  ghost predicate FreshIds(res: Resolution) {
    0 <= res.newIdx
    && (forall k :: k in res.newIdxs ==> 1 <= res.newIdxs[k] <= res.newIdx)
    && (forall a, b :: a in res.newIdxs && b in res.newIdxs && a != b ==> res.newIdxs[a] != res.newIdxs[b])
  }

  /** A step either leaves the ids alone or gives the row's key the
      counter's next value. */
  lemma StepIdEffect(ctx: Context, st: Pass, r: RelatedRow)
    requires Step(ctx, st, r).Ok?
    ensures var res := Step(ctx, st, r).value.res;
      (res.newIdx == st.res.newIdx && res.newIdxs == st.res.newIdxs)
      || (res.newIdx == st.res.newIdx + 1 && res.newIdxs == st.res.newIdxs[KeyOf(r) := st.res.newIdx + 1])
  {
    var k := KeyOf(r);
    var qs := CountOf(ctx.count, r.imageId);
    if k !in st.res.excluded {
      if |qs| > 1 {
        var occ := Occurrences(ctx, r.imageId, qs).value;
        var st1 := Pass(st.res.(excluded := ExcludeAll(st.res.excluded, occ, k)), st.db);
        if |Descriptors(ctx, occ)| <= 1 {
          assert Step(ctx, st, r) == Assign(ctx, st1, r);
          AssignTakesNextId(ctx, st1, r);
        } else {
          assert Step(ctx, st, r) == Ok(OnConflict(st1, occ));
        }
      } else {
        assert Step(ctx, st, r) == Assign(ctx, st, r);
        AssignTakesNextId(ctx, st, r);
      }
    }
  }

  /** An id, once consumed, is never handed out again: each assignment takes
      the counter's next value, whatever its inserts do. */
  lemma StepKeepsFreshIds(ctx: Context, st: Pass, r: RelatedRow)
    requires FreshIds(st.res) && Step(ctx, st, r).Ok?
    ensures FreshIds(Step(ctx, st, r).value.res)
    ensures Step(ctx, st, r).value.res.newIdx == st.res.newIdx
      || (Step(ctx, st, r).value.res.newIdx == st.res.newIdx + 1
          && Step(ctx, st, r).value.res.newIdxs == st.res.newIdxs[KeyOf(r) := st.res.newIdx + 1])
  {
    var res := Step(ctx, st, r).value.res;
    StepIdEffect(ctx, st, r);
    if res.newIdx != st.res.newIdx {
      FreshIdsNext(st.res, KeyOf(r));
    }
  }

  /** An assignment gives the row's key the counter's next value. */
  lemma AssignTakesNextId(ctx: Context, st: Pass, r: RelatedRow)
    requires Assign(ctx, st, r).Ok?
    ensures Assign(ctx, st, r).value.res
         == st.res.(newIdx := st.res.newIdx + 1, newIdxs := st.res.newIdxs[KeyOf(r) := st.res.newIdx + 1])
    ensures ImageRowAt(ctx, KeyOf(r)).Some? && r.projectId in ctx.offsets
    ensures var row := ImageRowAt(ctx, KeyOf(r)).value;
      Assign(ctx, st, r).value.db
         == InsertImageGroup(st.db, st.res.newIdx + 1, PathJoin(ctx.offsets[r.projectId], row.name), row)
  {
  }

  /** Giving key k the counter's next value keeps the ids fresh. */
  lemma FreshIdsNext(res: Resolution, k: Key)
    requires FreshIds(res)
    ensures FreshIds(res.(newIdx := res.newIdx + 1, newIdxs := res.newIdxs[k := res.newIdx + 1]))
  {
  }

  lemma {:induction false} FirstPassFreshIds(ctx: Context, rows: seq<RelatedRow>)
    requires FirstPass(ctx, rows).Ok?
    ensures FreshIds(FirstPass(ctx, rows).value.res)
    decreases |rows|
  {
    if rows != [] {
      var init := rows[..|rows| - 1];
      FirstPassFreshIds(ctx, init);
      StepKeepsFreshIds(ctx, FirstPass(ctx, init).value, rows[|rows| - 1]);
    }
  }

  /** Two kept rows get the same new id exactly when they show the same
      global image. */
  lemma SameIdIffSameImage(ctx: Context, related: seq<RelatedRow>, a: nat, b: nat)
    requires Consistent(related) && BuiltFrom(ctx, related) && a < |related| && b < |related|
    requires FirstPass(ctx, related).Ok?
    requires !ImageConflicts(ctx, related[a].imageId) && !ImageConflicts(ctx, related[b].imageId)
    ensures Resolve(FirstPass(ctx, related).value.res, KeyOf(related[a])).Some?
    ensures Resolve(FirstPass(ctx, related).value.res, KeyOf(related[a]))
         == Resolve(FirstPass(ctx, related).value.res, KeyOf(related[b]))
        <==> related[a].imageId == related[b].imageId
  {
    CanonicalResolution(ctx, related, a);
    CanonicalResolution(ctx, related, b);
    FirstPassFreshIds(ctx, related);
    if related[a].imageId != related[b].imageId {
      KeyDeterminesImage(related, FirstIndex(related, related[a].imageId), FirstIndex(related, related[b].imageId));
    }
  }

  /*
   * The tables (lines 476-497 and 518-532).
   */

  /** An image's four rows are written together or not at all, every image
      id is one the counter has handed out, image names are unique and every
      match row has its two-view geometry. */
  ghost predicate Aligned(st: Pass) {
    var t := st.db;
    Constrained(t)
    && t.cameras.Keys == t.images.Keys && t.keypoints.Keys == t.images.Keys && t.descriptors.Keys == t.images.Keys
    && (forall id :: id in t.images ==> id <= st.res.newIdx)
    && t.geometries.Keys == t.matches.Keys
  }

  /** Lines 476-497 on a fresh id: when the images row is refused (a name
      already present, or an id outside the CHECK) none of the other three
      rows is written; otherwise all four are. */
  lemma ImageGroupAllOrNothing(t: Tables, id: int, name: string, row: ImageRow)
    requires id !in t.images && id !in t.cameras && id !in t.keypoints && id !in t.descriptors
    ensures var t' := InsertImageGroup(t, id, name, row);
      if NameTaken(t.images, name) || !(0 <= id < IMAGE_ID_BOUND) then t' == t
      else t' == t.(images := t.images[id := OutImage(name, id, row.priors)],
                    cameras := t.cameras[id := row.camera],
                    keypoints := t.keypoints[id := row.keypoints],
                    descriptors := t.descriptors[id := row.descriptors])
  {
  }

  /** Writing the image group under the next id keeps the tables aligned
      with the counter that now stands at that id. */
  lemma InsertGroupKeepsAligned(st: Pass, name: string, row: ImageRow, res: Resolution)
    requires Aligned(st) && res.newIdx == st.res.newIdx + 1
    ensures Aligned(Pass(res, InsertImageGroup(st.db, st.res.newIdx + 1, name, row)))
  {
    var id := st.res.newIdx + 1;
    ImageGroupAllOrNothing(st.db, id, name, row);
    if ImageInsertable(st.db, id, name) {
      ImageInsertKeepsConstraints(st.db, id, name, row.priors);
    }
  }

  /** An assignment keeps the tables aligned. */
  lemma AssignKeepsAligned(ctx: Context, st: Pass, r: RelatedRow)
    requires Aligned(st) && Assign(ctx, st, r).Ok?
    ensures Aligned(Assign(ctx, st, r).value)
  {
    AssignTakesNextId(ctx, st, r);
    var row := ImageRowAt(ctx, KeyOf(r)).value;
    var next := Assign(ctx, st, r).value;
    InsertGroupKeepsAligned(st, PathJoin(ctx.offsets[r.projectId], row.name), row, next.res);
    assert next == Pass(next.res, next.db);
  }

  lemma StepKeepsAligned(ctx: Context, st: Pass, r: RelatedRow)
    requires Aligned(st) && Step(ctx, st, r).Ok?
    ensures Aligned(Step(ctx, st, r).value)
  {
    var k := KeyOf(r);
    var qs := CountOf(ctx.count, r.imageId);
    if k !in st.res.excluded {
      if |qs| > 1 {
        var occ := Occurrences(ctx, r.imageId, qs).value;
        var st1 := Pass(st.res.(excluded := ExcludeAll(st.res.excluded, occ, k)), st.db);
        assert Aligned(st1);
        if |Descriptors(ctx, occ)| <= 1 {
          AssignKeepsAligned(ctx, st1, r);
        }
      } else {
        AssignKeepsAligned(ctx, st, r);
      }
    }
  }

  lemma {:induction false} FirstPassAligned(ctx: Context, rows: seq<RelatedRow>)
    requires FirstPass(ctx, rows).Ok?
    ensures Aligned(FirstPass(ctx, rows).value)
    ensures FirstPass(ctx, rows).value.db.matches == map[]
    decreases |rows|
  {
    if rows == [] {
      assert Constrained(EmptyTables());
    } else {
      var init := rows[..|rows| - 1];
      FirstPassAligned(ctx, init);
      StepKeepsAligned(ctx, FirstPass(ctx, init).value, rows[|rows| - 1]);
    }
  }

  /** A row whose images insert is refused still consumes its id: the
      counter moves on and the tables are left as they were. */
  lemma RefusedImageConsumesId(ctx: Context, st: Pass, r: RelatedRow)
    requires Aligned(st) && Assign(ctx, st, r).Ok?
    requires NameTaken(st.db.images, PathJoin(ctx.offsets[r.projectId], ImageRowAt(ctx, KeyOf(r)).value.name))
    ensures Assign(ctx, st, r).value.db == st.db
    ensures Assign(ctx, st, r).value.res.newIdx == st.res.newIdx + 1
    ensures Assign(ctx, st, r).value.res.newIdxs[KeyOf(r)] == st.res.newIdx + 1
  {
    var id := st.res.newIdx + 1;
    var row := ImageRowAt(ctx, KeyOf(r)).value;
    ImageGroupAllOrNothing(st.db, id, PathJoin(ctx.offsets[r.projectId], row.name), row);
  }

  /** The second pass keeps every match row paired with its geometry and
      writes no image rows. */
  lemma {:induction false} EmitProjectAligned(res: Resolution, t: Tables, p: ProjectId, ms: seq<MatchEntry>)
    requires t.geometries.Keys == t.matches.Keys && EmitProject(res, t, p, ms).Ok?
    ensures EmitProject(res, t, p, ms).value.geometries.Keys == EmitProject(res, t, p, ms).value.matches.Keys
    ensures EmitProject(res, t, p, ms).value.(matches := t.matches, geometries := t.geometries) == t
    ensures t.matches.Keys <= EmitProject(res, t, p, ms).value.matches.Keys
    decreases |ms|
  {
    if ms != [] {
      EmitProjectAligned(res, t, p, ms[..|ms| - 1]);
    }
  }

  /*
   * The second pass (lines 500-532).
   */

  /** A match of project p whose endpoints are the local ids of two related
      rows is dropped when either image is in conflict; otherwise it is
      inserted under the pair id of the two canonical new ids (lines
      502-532), or left out when that pair id is already present. */
  lemma EmittedPair(ctx: Context, related: seq<RelatedRow>, t: Tables, p: ProjectId, m: MatchEntry, a: nat, b: nat)
    requires Consistent(related) && BuiltFrom(ctx, related) && FirstPass(ctx, related).Ok?
    requires a < |related| && b < |related| && related[a].projectId == p && related[b].projectId == p
    requires m.id1 == related[a].localId && m.id2 == related[b].localId
    ensures var res := FirstPass(ctx, related).value.res;
      if ImageConflicts(ctx, related[a].imageId) || ImageConflicts(ctx, related[b].imageId) then
        EmitMatch(res, t, p, m) == Ok(t)
      else
        CanonicalKey(related, a) in res.newIdxs && CanonicalKey(related, b) in res.newIdxs
        && EmitMatch(res, t, p, m) == Ok(InsertPair(t, ImageIdsToPairId(res.newIdxs[CanonicalKey(related, a)], res.newIdxs[CanonicalKey(related, b)]), m.row))
  {
    CanonicalResolution(ctx, related, a);
    CanonicalResolution(ctx, related, b);
  }

  /** Every match kept for project p joins two of the related rows of p. */
  ghost predicate ProjectCovered(related: seq<RelatedRow>, p: ProjectId, ms: seq<MatchEntry>) {
    forall m :: m in ms ==>
      (exists a :: 0 <= a < |related| && related[a].projectId == p && related[a].localId == m.id1)
      && (exists b :: 0 <= b < |related| && related[b].projectId == p && related[b].localId == m.id2)
  }

  ghost predicate MatchesCovered(related: seq<RelatedRow>, imageData: map<ProjectId, ImageSet>) {
    forall p :: p in imageData ==> ProjectCovered(related, p, imageData[p].matches)
  }

  lemma {:induction false} EmitProjectTotal(ctx: Context, related: seq<RelatedRow>, t: Tables, p: ProjectId, ms: seq<MatchEntry>)
    requires Consistent(related) && BuiltFrom(ctx, related) && FirstPass(ctx, related).Ok?
    requires ProjectCovered(related, p, ms)
    ensures EmitProject(FirstPass(ctx, related).value.res, t, p, ms).Ok?
    decreases |ms|
  {
    if ms != [] {
      var init := ms[..|ms| - 1];
      var m := ms[|ms| - 1];
      assert forall x :: x in init ==> x in ms;
      EmitProjectTotal(ctx, related, t, p, init);
      var a :| 0 <= a < |related| && related[a].projectId == p && related[a].localId == m.id1;
      var b :| 0 <= b < |related| && related[b].projectId == p && related[b].localId == m.id2;
      EmittedPair(ctx, related, EmitProject(FirstPass(ctx, related).value.res, t, p, init).value, p, m, a, b);
    }
  }

  /** With the first pass done, the second raises no KeyError: every match
      endpoint either has a new id or is skipped. */
  lemma {:induction false} SecondPassTotal(ctx: Context, related: seq<RelatedRow>, t: Tables, ps: seq<ProjectId>)
    requires Consistent(related) && BuiltFrom(ctx, related) && FirstPass(ctx, related).Ok?
    requires MatchesCovered(related, ctx.imageData)
    ensures SecondPass(FirstPass(ctx, related).value.res, t, ctx.imageData, ps).Ok?
    decreases |ps|
  {
    if ps != [] {
      var init := ps[..|ps| - 1];
      var p := ps[|ps| - 1];
      SecondPassTotal(ctx, related, t, init);
      if p in ctx.imageData {
        EmitProjectTotal(ctx, related, SecondPass(FirstPass(ctx, related).value.res, t, ctx.imageData, init).value,
                         p, ctx.imageData[p].matches);
      }
    }
  }

  /*
   * The whole merge, on rows drawn from the catalog.
   */

  /** Every related row is the projectImages row its lookup finds. */
  ghost predicate Catalogued(pis: seq<ProjectImage>, related: seq<RelatedRow>) {
    forall j :: 0 <= j < |related| ==> LocalOf(pis, related[j].imageId, related[j].projectId) == Some(related[j].localId)
  }

  /** The rows `get_entity_related_images` joins are catalogued. */
  lemma JoinedRowsCatalogued(pis: seq<ProjectImage>, files: seq<ImageFile>, s: set<ImageId>, related: seq<RelatedRow>)
    requires UniqueProjectImages(pis)
    requires forall x :: x in related ==> x in JoinRows(pis, files, s)
    ensures Catalogued(pis, related)
  {
    forall j | 0 <= j < |related|
      ensures LocalOf(pis, related[j].imageId, related[j].projectId) == Some(related[j].localId)
    {
      var x := related[j];
      JoinRowsIff(pis, files, s, x);
      var k :| 0 <= k < |pis| && pis[k] == ProjectImage(x.imageId, x.projectId, x.localId);
      var l := LocalOf(pis, x.imageId, x.projectId).value;
      var k' :| 0 <= k' < |pis| && pis[k'] == ProjectImage(x.imageId, x.projectId, l);
      assert pis[k].projectId == pis[k'].projectId;
    }
  }

  /** Catalogued rows inherit the UNIQUE constraints. */
  lemma CataloguedConsistent(pis: seq<ProjectImage>, related: seq<RelatedRow>)
    requires UniqueProjectImages(pis) && Catalogued(pis, related)
    ensures Consistent(related)
  {
    forall i, j | 0 <= i < |related| && 0 <= j < |related| && related[i].projectId == related[j].projectId
      ensures related[i].imageId == related[j].imageId <==> related[i].localId == related[j].localId
    {
      var p := related[i].projectId;
      var a :| 0 <= a < |pis| && pis[a] == ProjectImage(related[i].imageId, p, related[i].localId);
      var b :| 0 <= b < |pis| && pis[b] == ProjectImage(related[j].imageId, p, related[j].localId);
      assert pis[a].projectId == pis[b].projectId;
    }
  }

  /** The matches `get_imageset_data` keeps for project p join two related
      rows of p. */
  lemma KeptMatchesCovered(pis: seq<ProjectImage>, related: seq<RelatedRow>, p: ProjectId, db: ProjectDb)
    requires Catalogued(pis, related) && WantedLocals(pis, p, ImageIdsOf(related, p)).Ok?
    ensures ProjectCovered(related, p, KeptMatches(db.pairs, WantedLocals(pis, p, ImageIdsOf(related, p)).value))
  {
    var gs := ImageIdsOf(related, p);
    var w := WantedLocals(pis, p, gs).value;
    forall m | m in KeptMatches(db.pairs, w)
      ensures exists a :: 0 <= a < |related| && related[a].projectId == p && related[a].localId == m.id1
      ensures exists b :: 0 <= b < |related| && related[b].projectId == p && related[b].localId == m.id2
    {
      KeptMatchesIff(db.pairs, w, m);
      var g1 :| g1 in gs && LocalOf(pis, g1, p) == Some(m.id1);
      var g2 :| g2 in gs && LocalOf(pis, g2, p) == Some(m.id2);
      var r1 :| r1 in related && r1.projectId == p && r1.imageId == g1;
      var r2 :| r2 in related && r2.projectId == p && r2.imageId == g2;
      var a :| 0 <= a < |related| && related[a] == r1;
      var b :| 0 <= b < |related| && related[b] == r2;
    }
  }

  lemma {:induction false} LoadedMatchesCovered(c: Catalog, related: seq<RelatedRow>, ps: seq<ProjectId>)
    requires Catalogued(c.projectImages, related) && LoadImageData(c, related, ps).Ok?
    ensures MatchesCovered(related, LoadImageData(c, related, ps).value)
    decreases |ps|
  {
    if ps != [] {
      var init := ps[..|ps| - 1];
      var p := ps[|ps| - 1];
      LoadedMatchesCovered(c, related, init);
      KeptMatchesCovered(c.projectImages, related, p, c.stores[c.colmapProjects[p].dbPath]);
    }
  }

  /** Once the preparation and the first pass succeed on catalogued rows,
      `create_entity_project` succeeds, and the database it writes has each
      image's four rows together, unique names, ids from the counter and
      every match row paired with its geometry. */
  lemma MergeWellFormed(c: Catalog, related: seq<RelatedRow>, relPath: (string, string) -> string)
    requires UniqueProjectImages(c.projectImages) && Catalogued(c.projectImages, related)
    requires Prepare(c, related, relPath).Ok?
    requires FirstPass(Prepare(c, related, relPath).value.0, related).Ok?
    ensures Merge(c, related, relPath).Ok?
    ensures var t := Merge(c, related, relPath).value;
      Constrained(t)
      && t.cameras.Keys == t.images.Keys && t.keypoints.Keys == t.images.Keys && t.descriptors.Keys == t.images.Keys
      && t.geometries.Keys == t.matches.Keys
  {
    var (ctx, emit) := Prepare(c, related, relPath).value;
    var order := ProjectOrder(related);
    var paths := ImagePaths(c.colmapProjects, order).value;
    assert ctx.imageData == LoadImageData(c, related, emit).value;
    CataloguedConsistent(c.projectImages, related);
    LoadedMatchesCovered(c, related, emit);
    var st := FirstPass(ctx, related).value;
    SecondPassTotal(ctx, related, st.db, emit);
    FirstPassAligned(ctx, related);
    SecondPassAligned(st.res, st.db, ctx.imageData, emit);
  }

  lemma {:induction false} SecondPassAligned(res: Resolution, t: Tables, imageData: map<ProjectId, ImageSet>, ps: seq<ProjectId>)
    requires t.geometries.Keys == t.matches.Keys && SecondPass(res, t, imageData, ps).Ok?
    ensures SecondPass(res, t, imageData, ps).value.geometries.Keys == SecondPass(res, t, imageData, ps).value.matches.Keys
    ensures SecondPass(res, t, imageData, ps).value.(matches := t.matches, geometries := t.geometries) == t
    decreases |ps|
  {
    if ps != [] {
      var init := ps[..|ps| - 1];
      var p := ps[|ps| - 1];
      SecondPassAligned(res, t, imageData, init);
      if p in imageData {
        EmitProjectAligned(res, SecondPass(res, t, imageData, init).value, p, imageData[p].matches);
      }
    }
  }

  /*
   * Preparation (lines 404-438).
   */

  /** `image_graph`'s keys: each project of the rows once, in order of its
      first row. */
  lemma {:induction false} ProjectOrderFacts(related: seq<RelatedRow>)
    ensures forall p :: p in ProjectOrder(related) <==> exists j :: 0 <= j < |related| && related[j].projectId == p
    ensures forall i, j :: 0 <= i < j < |ProjectOrder(related)| ==> ProjectOrder(related)[i] != ProjectOrder(related)[j]
    decreases |related|
  {
    if related != [] {
      var n := |related| - 1;
      ProjectOrderFacts(related[..n]);
      assert forall j :: 0 <= j < n ==> related[..n][j] == related[j];
    }
  }

  lemma {:induction false} LcpLongest(a: string, b: string, p: string)
    requires p <= a && p <= b
    ensures p <= Lcp(a, b)
    decreases |p|
  {
    if p != [] {
      LcpLongest(a[1..], b[1..], p[1..]);
    }
  }

  /** `os.path.commonprefix` is the longest string that prefixes every path. */
  lemma {:induction false} CommonPrefixLongest(ss: seq<string>, p: string)
    requires |ss| > 0 && forall i :: 0 <= i < |ss| ==> p <= ss[i]
    ensures p <= CommonPrefix(ss)
    decreases |ss|
  {
    if |ss| > 1 {
      var n := |ss| - 1;
      assert forall i :: 0 <= i < n ==> ss[..n][i] == ss[i];
      CommonPrefixLongest(ss[..n], p);
      LcpLongest(CommonPrefix(ss[..n]), ss[n], p);
    }
  }

  /** Projects are visited largest first; the order is a permutation of the
      projects, and projects of equal size keep their order. */
  lemma EmitOrderFacts(graph: map<(ProjectId, ImageId), LocalId>, order: seq<ProjectId>)
    ensures multiset(EmitOrder(graph, order)) == multiset(order)
    ensures forall i, j :: 0 <= i < j < |EmitOrder(graph, order)| ==>
      ImagesIn(graph, EmitOrder(graph, order)[i]) >= ImagesIn(graph, EmitOrder(graph, order)[j])
    ensures forall v :: WithKey(EmitOrder(graph, order), SizeKey(graph), v) == WithKey(order, SizeKey(graph), v)
  {
    var key := SizeKey(graph);
    SortByPermutes(order, key);
    SortByOrdered(order, key);
    var s := SortBy(order, key);
    forall i, j | 0 <= i < j < |s|
      ensures ImagesIn(graph, s[i]) >= ImagesIn(graph, s[j])
    {
      assert key(s[i]) <= key(s[j]);
    }
    forall v
      ensures WithKey(s, key, v) == WithKey(order, key, v)
    {
      SortByStable(order, key, v);
    }
  }

  /** `image_data` holds one image set per project of the emit order. */
  lemma {:induction false} LoadImageDataKeys(c: Catalog, related: seq<RelatedRow>, ps: seq<ProjectId>)
    requires LoadImageData(c, related, ps).Ok?
    ensures forall p :: p in LoadImageData(c, related, ps).value <==> p in ps
    decreases |ps|
  {
    if ps != [] {
      LoadImageDataKeys(c, related, ps[..|ps| - 1]);
      assert ps == ps[..|ps| - 1] + [ps[|ps| - 1]];
    }
  }

  /*
   * The conflict branch (lines 463-473).
   */

  /** As written, a row whose image's projects disagree on its descriptors
      raises TypeError (line 468 joins integers), where the intended step
      skips every occurrence of the image and assigns nothing. */
  lemma ConflictRaisesAsWritten(ctx: Context, st: Pass, r: RelatedRow)
    requires Conflicts(ctx, st, r)
    ensures StepAsWritten(ctx, st, r) == Err(JoinOfIntegers)
    ensures Step(ctx, st, r).Ok?
    ensures var occ := Occurrences(ctx, r.imageId, CountOf(ctx.count, r.imageId)).value;
      var st' := Step(ctx, st, r).value;
      (forall o :: o in occ ==> o in st'.res.skip && st'.res.excluded[o] == KeyOf(r))
      && st'.res.newIdxs == st.res.newIdxs && st'.res.newIdx == st.res.newIdx && st'.db == st.db
  {
  }

  /** The smallest input that reaches it: image 7 held by projects 1 and 2
      (local ids 3 and 5) with different descriptor bytes. */
  function ExampleRow(descriptor: Byte): ImageRow {
    ImageRow("a.jpg", 1, [], Camera(0, 0, 0, [], 0), Blob(0, 0, []), Blob(1, 1, [descriptor]))
  }

  function ExampleContext(): Context {
    Context(map[(1, 7) := 3, (2, 7) := 5], map[7 := [1, 2]],
            map[1 := ImageSet(map[3 := ExampleRow(1)], []), 2 := ImageSet(map[5 := ExampleRow(2)], [])],
            map[1 := "", 2 := ""])
  }

  function ExampleOccurrences(): seq<Key> {
    [(1, 3), (2, 5)]
  }

  lemma ExampleOccurrencesFound()
    ensures CountOf(ExampleContext().count, 7) == [1, 2]
    ensures Occurrences(ExampleContext(), 7, [1, 2]) == Ok(ExampleOccurrences())
  {
    var ctx := ExampleContext();
    var k13: Key := (1, 3);
    var k25: Key := (2, 5);
    var e: seq<Key> := [];
    var q1: seq<ProjectId> := [1];
    var q2: seq<ProjectId> := [1, 2];
    assert q1[..|q1| - 1] == [];
    assert q2[..|q2| - 1] == q1;
    assert ImageRowAt(ctx, k13) == Some(ExampleRow(1));
    assert ImageRowAt(ctx, k25) == Some(ExampleRow(2));
    assert Occurrences(ctx, 7, []) == Ok(e);
    assert Occurrences(ctx, 7, q1) == Ok(e + [k13]);
    assert e + [k13] == [k13];
    assert Occurrences(ctx, 7, q2) == Ok([k13] + [k25]);
    assert [k13] + [k25] == ExampleOccurrences();
  }

  lemma ExampleDescriptorsDiffer()
    ensures forall i :: 0 <= i < |ExampleOccurrences()| ==> ImageRowAt(ExampleContext(), ExampleOccurrences()[i]).Some?
    ensures |Descriptors(ExampleContext(), ExampleOccurrences())| == 2
  {
    var ctx := ExampleContext();
    var occ := ExampleOccurrences();
    assert ImageRowAt(ctx, occ[0]) == Some(ExampleRow(1));
    assert ImageRowAt(ctx, occ[1]) == Some(ExampleRow(2));
    var a: seq<Byte> := [1];
    var b: seq<Byte> := [2];
    assert Descriptors(ctx, occ) == {a, b};
    assert a != b by { assert a[0] != b[0]; }
  }

  /** On the example, the conflict branch is reached, and as written it
      raises. */
  lemma ConflictExample()
    ensures Conflicts(ExampleContext(), Pass(InitialResolution(), EmptyTables()), RelatedRow(7, 1, 3, "a.jpg"))
    ensures StepAsWritten(ExampleContext(), Pass(InitialResolution(), EmptyTables()), RelatedRow(7, 1, 3, "a.jpg"))
      == Err(JoinOfIntegers)
  {
    ExampleOccurrencesFound();
    ExampleDescriptorsDiffer();
  }

  lemma ExampleExclusions()
    ensures ExcludeAll(map[], ExampleOccurrences(), (1, 3)) == map[(1, 3) := (1, 3), (2, 5) := (1, 3)]
  {
  }

  /** On the example, the corrected step skips both copies, points both at
      the first, and hands out no id. */
  lemma ConflictExampleCorrected()
    ensures Step(ExampleContext(), Pass(InitialResolution(), EmptyTables()), RelatedRow(7, 1, 3, "a.jpg"))
      == Ok(Pass(Resolution(map[], map[(1, 3) := (1, 3), (2, 5) := (1, 3)], {(1, 3), (2, 5)}, 0), EmptyTables()))
  {
    ExampleOccurrencesFound();
    ExampleDescriptorsDiffer();
    ExampleExclusions();
    var ctx := ExampleContext();
    var occ := ExampleOccurrences();
    var k: Key := (1, 3);
    var st := Pass(InitialResolution(), EmptyTables());
    var st1 := Pass(st.res.(excluded := ExcludeAll(map[], occ, k)), st.db);
    assert Step(ctx, st, RelatedRow(7, 1, 3, "a.jpg")) == Ok(OnConflict(st1, occ));
    var skipped: set<Key> := {(1, 3), (2, 5)};
    assert st.res.skip + (set o | o in occ) == skipped;
  }

  /*
   * The Projects query of get_imageset_data, as written.
   */

  /** Every related row puts its project in the order. */
  lemma {:induction false} ProjectOrderHolds(related: seq<RelatedRow>, r: RelatedRow)
    requires r in related
    ensures r.projectId in ProjectOrder(related)
    decreases |related|
  {
    var init := related[..|related| - 1];
    if r != related[|related| - 1] {
      assert related == init + [related[|related| - 1]];
      ProjectOrderHolds(init, r);
    }
  }

  /** As written, the merge of a non-empty set of related rows raises the
      Projects query's error once every project has a ColmapProjects row:
      nothing is written. */
  lemma MergeAsWrittenFails(c: Catalog, related: seq<RelatedRow>, relPath: (string, string) -> string)
    requires related != [] && ImagePaths(c.colmapProjects, ProjectOrder(related)).Ok?
    ensures MergeAsWritten(c, related, relPath) == Err(Query(ProjectsColumnsMissing))
  {
    var order := ProjectOrder(related);
    ProjectOrderHolds(related, related[0]);
    var emit := EmitOrder(ImageGraph(related), order);
    SortByPermutes(order, SizeKey(ImageGraph(related)));
    assert |emit| == |order| by {
      assert |multiset(emit)| == |multiset(order)|;
    }
  }

  /** With no related rows no query runs, and the code as written agrees
      with the corrected merge. */
  lemma MergeAsWrittenAgreesWhenEmpty(c: Catalog, relPath: (string, string) -> string)
    ensures MergeAsWritten(c, [], relPath) == Merge(c, [], relPath)
  {
  }
}
