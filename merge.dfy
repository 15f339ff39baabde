/** `create_entity_project` (synthmap/projectManager/colmapParser.py:392-540)
    as the loops that run it, each proved to compute the matching part of
    the specification in module EntityMerge. */
module EntityProject {
  import opened Wrappers
  import opened BlobCodec
  import opened ColmapCatalog
  import opened RelatedImages
  import opened PairIndex
  import opened TempDatabase
  import opened EntityMerge

  /** Lines 404-410: one pass over the related rows fills `image_graph` and
      `project_count`. */
  method BuildImageGraph(related: seq<RelatedRow>)
    returns (graph: map<(ProjectId, ImageId), LocalId>, count: map<ImageId, seq<ProjectId>>, order: seq<ProjectId>)
    ensures graph == ImageGraph(related) && count == ProjectCount(related) && order == ProjectOrder(related)
  {
    graph, count, order := map[], map[], [];
    for i := 0 to |related|
      invariant graph == ImageGraph(related[..i])
      invariant count == ProjectCount(related[..i])
      invariant order == ProjectOrder(related[..i])
    {
      assert related[..i + 1][..i] == related[..i];
      var r := related[i];
      if r.projectId !in order {
        order := order + [r.projectId];
      }
      graph := graph[(r.projectId, r.imageId) := r.localId];
      count := count[r.imageId := CountOf(count, r.imageId) + [r.projectId]];
    }
    assert related[..|related|] == related;
  }

  /** Lines 430-438: `image_data`, one `get_imageset_data` call per project
      in emit order. */
  method LoadImageSets(c: Catalog, related: seq<RelatedRow>, emit: seq<ProjectId>)
    returns (r: Result<map<ProjectId, ImageSet>, MergeError>)
    ensures r == LoadImageData(c, related, emit)
  {
    var data: map<ProjectId, ImageSet> := map[];
    for i := 0 to |emit|
      invariant LoadImageData(c, related, emit[..i]) == Ok(data)
    {
      assert emit[..i + 1][..i] == emit[..i];
      var p := emit[i];
      if p !in c.colmapProjects {
        LoadImageDataFailureFinal(c, related, emit, i);
        return Err(NoImagePath(p));
      }
      var dbPath := c.colmapProjects[p].dbPath;
      if dbPath !in c.stores {
        LoadImageDataFailureFinal(c, related, emit, i);
        return Err(Query(StoreUnavailable(dbPath)));
      }
      var imageSet := GetImagesetData(c.projectImages, p, ImageIdsOf(related, p), c.stores[dbPath]);
      if imageSet.Err? {
        LoadImageDataFailureFinal(c, related, emit, i);
        return Err(Query(imageSet.error));
      }
      data := data[p := imageSet.value];
    }
    assert emit[..|emit|] == emit;
    r := Ok(data);
  }

  /** Lines 455-462: walk the occurrences of image g, collecting their
      descriptor blobs and pointing each at the canonical key k. */
  method ScanOccurrences(ctx: Context, g: ImageId, qs: seq<ProjectId>, excluded0: map<Key, Key>, k: Key)
    returns (r: Result<seq<Key>, MergeError>, descriptors: set<seq<Byte>>, excluded: map<Key, Key>)
    ensures r == Occurrences(ctx, g, qs)
    ensures r.Ok? ==> descriptors == Descriptors(ctx, r.value) && excluded == ExcludeAll(excluded0, r.value, k)
  {
    descriptors, excluded := {}, excluded0;
    var occ: seq<Key> := [];
    for j := 0 to |qs|
      invariant Occurrences(ctx, g, qs[..j]) == Ok(occ)
      invariant descriptors == Descriptors(ctx, occ)
      invariant excluded == ExcludeAll(excluded0, occ, k)
    {
      assert qs[..j + 1][..j] == qs[..j];
      var q := qs[j];
      if (q, g) !in ctx.graph {
        OccurrencesFailureFinal(ctx, g, qs, j);
        return Err(KeyMissing((q, g))), descriptors, excluded;
      }
      var pl := ctx.graph[(q, g)];
      var row := ImageRowAt(ctx, (q, pl));
      if row.None? {
        OccurrencesFailureFinal(ctx, g, qs, j);
        return Err(KeyMissing((q, pl))), descriptors, excluded;
      }
      DescriptorsAppend(ctx, occ, (q, pl));
      ExcludeAllAppend(excluded0, occ, (q, pl), k);
      descriptors := descriptors + {row.value.descriptors.data};
      excluded := excluded[(q, pl) := k];
      occ := occ + [(q, pl)];
    }
    assert qs[..|qs|] == qs;
    r := Ok(occ);
  }

  /** Lines 480-497: the four inserts of one image, the first that raises
      IntegrityError ending the group. */
  method InsertImageRows(db: TempDb, id: int, name: string, row: ImageRow)
    modifies db
    ensures db.Contents() == InsertImageGroup(old(db.Contents()), id, name, row)
  {
    var ok := db.InsertImage(id, name, row.priors);
    if ok {
      ok := db.InsertCamera(id, row.camera);
    }
    if ok {
      ok := db.InsertKeypoints(id, row.keypoints);
    }
    if ok {
      ok := db.InsertDescriptors(id, row.descriptors);
    }
  }

  /** Lines 474-497: the row's new id, and its image inserted under it. */
  method AssignId(ctx: Context, res: Resolution, db: TempDb, r: RelatedRow) returns (out: Result<Resolution, MergeError>)
    modifies db
    ensures Assign(ctx, Pass(res, old(db.Contents())), r).Ok? ==>
      out == Ok(Assign(ctx, Pass(res, old(db.Contents())), r).value.res)
      && db.Contents() == Assign(ctx, Pass(res, old(db.Contents())), r).value.db
    ensures Assign(ctx, Pass(res, old(db.Contents())), r).Err? ==>
      out == Err(Assign(ctx, Pass(res, old(db.Contents())), r).error) && db.Contents() == old(db.Contents())
  {
    var k := KeyOf(r);
    var id := res.newIdx + 1;
    var newIdxs := res.newIdxs[k := id];
    var row := ImageRowAt(ctx, k);
    if row.None? {
      return Err(KeyMissing(k));
    }
    if r.projectId !in ctx.offsets {
      return Err(KeyMissing(k));
    }
    var name := PathJoin(ctx.offsets[r.projectId], row.value.name);
    InsertImageRows(db, id, name, row.value);
    out := Ok(res.(newIdx := id, newIdxs := newIdxs));
  }

  /** Lines 449-497 for one related row: the row's new state, its inserts
      made on `db`. */
  method ProcessRow(ctx: Context, res: Resolution, db: TempDb, r: RelatedRow) returns (out: Result<Resolution, MergeError>)
    modifies db
    ensures Step(ctx, Pass(res, old(db.Contents())), r).Ok? ==>
      out == Ok(Step(ctx, Pass(res, old(db.Contents())), r).value.res)
      && db.Contents() == Step(ctx, Pass(res, old(db.Contents())), r).value.db
    ensures Step(ctx, Pass(res, old(db.Contents())), r).Err? ==>
      out == Err(Step(ctx, Pass(res, old(db.Contents())), r).error)
  {
    var k := KeyOf(r);
    if k in res.excluded {
      return Ok(res);
    }
    var qs := CountOf(ctx.count, r.imageId);
    if |qs| > 1 {
      var occ, descriptors, excluded := ScanOccurrences(ctx, r.imageId, qs, res.excluded, k);
      if occ.Err? {
        return Err(occ.error);
      }
      if |descriptors| > 1 {
        return Ok(res.(excluded := excluded, skip := res.skip + set o | o in occ.value));
      }
      out := AssignId(ctx, res.(excluded := excluded), db, r);
    } else {
      out := AssignId(ctx, res, db, r);
    }
  }

  /** Lines 447-497: the loop over the related rows. */
  method RunFirstPass(ctx: Context, related: seq<RelatedRow>, db: TempDb) returns (out: Result<Resolution, MergeError>)
    requires db.Contents() == EmptyTables()
    modifies db
    ensures FirstPass(ctx, related).Ok? ==> out == Ok(FirstPass(ctx, related).value.res) && db.Contents() == FirstPass(ctx, related).value.db
    ensures FirstPass(ctx, related).Err? ==> out == Err(FirstPass(ctx, related).error)
  {
    var res := InitialResolution();
    for i := 0 to |related|
      invariant FirstPass(ctx, related[..i]) == Ok(Pass(res, db.Contents()))
    {
      assert related[..i + 1][..i] == related[..i];
      var next := ProcessRow(ctx, res, db, related[i]);
      if next.Err? {
        FirstPassFailureFinal(ctx, related, i);
        return next;
      }
      res := next.value;
    }
    assert related[..|related|] == related;
    out := Ok(res);
  }

  /** Lines 501-532 for the matches of one project. */
  method EmitProjectMatches(res: Resolution, db: TempDb, p: ProjectId, ms: seq<MatchEntry>) returns (err: Option<MergeError>)
    modifies db
    ensures EmitProject(res, old(db.Contents()), p, ms).Ok? ==> err.None? && db.Contents() == EmitProject(res, old(db.Contents()), p, ms).value
    ensures EmitProject(res, old(db.Contents()), p, ms).Err? ==> err == Some(EmitProject(res, old(db.Contents()), p, ms).error)
  {
    ghost var t0 := db.Contents();
    for i := 0 to |ms|
      invariant EmitProject(res, t0, p, ms[..i]) == Ok(db.Contents())
    {
      assert ms[..i + 1][..i] == ms[..i];
      var m := ms[i];
      if (p, m.id1) in res.skip || (p, m.id2) in res.skip {
        continue;
      }
      var id1 := Resolve(res, (p, m.id1));
      if id1.None? {
        EmitProjectFailureFinal(res, t0, p, ms, i);
        return Some(NoNewId((p, m.id1)));
      }
      var id2 := Resolve(res, (p, m.id2));
      if id2.None? {
        EmitProjectFailureFinal(res, t0, p, ms, i);
        return Some(NoNewId((p, m.id2)));
      }
      var pairId := ImageIdsToPairId(id1.value, id2.value);
      var ok := db.InsertMatches(pairId, m.row.matches);
      if ok {
        ok := db.InsertGeometry(pairId, m.row.geometry);
      }
    }
    assert ms[..|ms|] == ms;
    err := None;
  }

  /** Lines 500-532: the loop over `image_data`. */
  method RunSecondPass(res: Resolution, db: TempDb, imageData: map<ProjectId, ImageSet>, emit: seq<ProjectId>) returns (err: Option<MergeError>)
    modifies db
    ensures SecondPass(res, old(db.Contents()), imageData, emit).Ok? ==>
      err.None? && db.Contents() == SecondPass(res, old(db.Contents()), imageData, emit).value
    ensures SecondPass(res, old(db.Contents()), imageData, emit).Err? ==>
      err == Some(SecondPass(res, old(db.Contents()), imageData, emit).error)
  {
    ghost var t0 := db.Contents();
    for i := 0 to |emit|
      invariant SecondPass(res, t0, imageData, emit[..i]) == Ok(db.Contents())
    {
      assert emit[..i + 1][..i] == emit[..i];
      var p := emit[i];
      if p in imageData {
        err := EmitProjectMatches(res, db, p, imageData[p].matches);
        if err.Some? {
          SecondPassFailureFinal(res, t0, imageData, emit, i);
          return err;
        }
      }
    }
    assert emit[..|emit|] == emit;
    err := None;
  }

  /** `create_entity_project`, from the related rows on: the tables it
      writes to `main.db`, or the exception it raises. */
  method MergeRelatedRows(c: Catalog, related: seq<RelatedRow>, relPath: (string, string) -> string)
    returns (r: Result<Tables, MergeError>)
    ensures r == Merge(c, related, relPath)
  {
    var graph, count, order := BuildImageGraph(related);
    var paths := ImagePaths(c.colmapProjects, order);
    if paths.Err? {
      return Err(paths.error);
    }
    var offsets := Offsets(c.colmapProjects, order, CommonPrefix(paths.value), relPath);
    var emit := EmitOrder(graph, order);
    var imageData := LoadImageSets(c, related, emit);
    if imageData.Err? {
      return Err(imageData.error);
    }
    var ctx := Context(graph, count, imageData.value, offsets);
    var db := new TempDb();
    var res := RunFirstPass(ctx, related, db);
    if res.Err? {
      return Err(res.error);
    }
    var err := RunSecondPass(res.value, db, imageData.value, emit);
    if err.Some? {
      return Err(err.value);
    }
    r := Ok(db.Contents());
  }

  /** `create_entity_project(db, entity_id)`: the related rows are those
      `get_entity_related_images` returns (their order among equal project
      ids is the one the set iteration gave). */
  method CreateEntityProject(c: Catalog, e: EntityId, relPath: (string, string) -> string)
    returns (ghost related: seq<RelatedRow>, r: Result<Tables, MergeError>)
    ensures RelatedImageSet(c, e).Err? ==> r == Err(Query(RelatedImageSet(c, e).error))
    ensures RelatedImageSet(c, e).Ok? ==>
      multiset(related) == multiset(JoinRows(c.projectImages, c.imageFiles, RelatedImageSet(c, e).value))
      && r == Merge(c, related, relPath)
  {
    var rows := GetEntityRelatedImages(c, e);
    if rows.Err? {
      related := [];
      return [], Err(Query(rows.error));
    }
    related := rows.value;
    r := MergeRelatedRows(c, rows.value, relPath);
  }

  /*
   * An exception ends each loop: once a prefix fails, the whole fails.
   */

  lemma {:induction false} LoadImageDataPrefixError(c: Catalog, related: seq<RelatedRow>, ps: seq<ProjectId>, n: nat)
    requires n <= |ps| && LoadImageData(c, related, ps[..n]).Err?
    ensures LoadImageData(c, related, ps) == LoadImageData(c, related, ps[..n])
    decreases |ps| - n
  {
    if n < |ps| {
      assert ps[..n + 1][..n] == ps[..n];
      LoadImageDataPrefixError(c, related, ps, n + 1);
    } else {
      assert ps[..n] == ps;
    }
  }

  lemma LoadImageDataFailureFinal(c: Catalog, related: seq<RelatedRow>, ps: seq<ProjectId>, i: nat)
    requires i < |ps| && LoadImageData(c, related, ps[..i]).Ok? && LoadImageData(c, related, ps[..i + 1]).Err?
    ensures LoadImageData(c, related, ps) == LoadImageData(c, related, ps[..i + 1])
  {
    LoadImageDataPrefixError(c, related, ps, i + 1);
  }

  lemma {:induction false} OccurrencesPrefixError(ctx: Context, g: ImageId, qs: seq<ProjectId>, n: nat)
    requires n <= |qs| && Occurrences(ctx, g, qs[..n]).Err?
    ensures Occurrences(ctx, g, qs) == Occurrences(ctx, g, qs[..n])
    decreases |qs| - n
  {
    if n < |qs| {
      assert qs[..n + 1][..n] == qs[..n];
      OccurrencesPrefixError(ctx, g, qs, n + 1);
    } else {
      assert qs[..n] == qs;
    }
  }

  lemma OccurrencesFailureFinal(ctx: Context, g: ImageId, qs: seq<ProjectId>, j: nat)
    requires j < |qs| && Occurrences(ctx, g, qs[..j]).Ok?
    requires (qs[j], g) !in ctx.graph || ImageRowAt(ctx, (qs[j], ctx.graph[(qs[j], g)])).None?
    ensures Occurrences(ctx, g, qs) ==
      if (qs[j], g) !in ctx.graph then Err(KeyMissing((qs[j], g))) else Err(KeyMissing((qs[j], ctx.graph[(qs[j], g)])))
  {
    assert qs[..j + 1][..j] == qs[..j];
    OccurrencesPrefixError(ctx, g, qs, j + 1);
  }

  lemma DescriptorsAppend(ctx: Context, occ: seq<Key>, k: Key)
    requires forall i :: 0 <= i < |occ| ==> ImageRowAt(ctx, occ[i]).Some?
    requires ImageRowAt(ctx, k).Some?
    ensures Descriptors(ctx, occ + [k]) == Descriptors(ctx, occ) + {ImageRowAt(ctx, k).value.descriptors.data}
  {
    var occ' := occ + [k];
    assert forall i :: 0 <= i < |occ| ==> occ'[i] == occ[i];
    assert occ'[|occ|] == k;
  }

  lemma ExcludeAllAppend(excluded: map<Key, Key>, occ: seq<Key>, o: Key, target: Key)
    ensures ExcludeAll(excluded, occ + [o], target) == ExcludeAll(excluded, occ, target)[o := target]
  {
    var lhs := ExcludeAll(excluded, occ + [o], target);
    var rhs := ExcludeAll(excluded, occ, target)[o := target];
    assert forall x :: x in occ + [o] <==> x in occ || x == o;
    assert forall x :: x in lhs <==> x in rhs;
  }

  lemma {:induction false} FirstPassPrefixError(ctx: Context, rows: seq<RelatedRow>, n: nat)
    requires n <= |rows| && FirstPass(ctx, rows[..n]).Err?
    ensures FirstPass(ctx, rows) == FirstPass(ctx, rows[..n])
    decreases |rows| - n
  {
    if n < |rows| {
      assert rows[..n + 1][..n] == rows[..n];
      FirstPassPrefixError(ctx, rows, n + 1);
    } else {
      assert rows[..n] == rows;
    }
  }

  lemma FirstPassFailureFinal(ctx: Context, rows: seq<RelatedRow>, i: nat)
    requires i < |rows| && FirstPass(ctx, rows[..i]).Ok? && Step(ctx, FirstPass(ctx, rows[..i]).value, rows[i]).Err?
    ensures FirstPass(ctx, rows) == Step(ctx, FirstPass(ctx, rows[..i]).value, rows[i])
  {
    assert rows[..i + 1][..i] == rows[..i];
    FirstPassPrefixError(ctx, rows, i + 1);
  }

  lemma {:induction false} EmitProjectPrefixError(res: Resolution, t: Tables, p: ProjectId, ms: seq<MatchEntry>, n: nat)
    requires n <= |ms| && EmitProject(res, t, p, ms[..n]).Err?
    ensures EmitProject(res, t, p, ms) == EmitProject(res, t, p, ms[..n])
    decreases |ms| - n
  {
    if n < |ms| {
      assert ms[..n + 1][..n] == ms[..n];
      EmitProjectPrefixError(res, t, p, ms, n + 1);
    } else {
      assert ms[..n] == ms;
    }
  }

  lemma EmitProjectFailureFinal(res: Resolution, t: Tables, p: ProjectId, ms: seq<MatchEntry>, i: nat)
    requires i < |ms| && EmitProject(res, t, p, ms[..i]).Ok?
    requires EmitMatch(res, EmitProject(res, t, p, ms[..i]).value, p, ms[i]).Err?
    ensures EmitProject(res, t, p, ms) == EmitMatch(res, EmitProject(res, t, p, ms[..i]).value, p, ms[i])
  {
    assert ms[..i + 1][..i] == ms[..i];
    EmitProjectPrefixError(res, t, p, ms, i + 1);
  }

  lemma {:induction false} SecondPassPrefixError(res: Resolution, t: Tables, imageData: map<ProjectId, ImageSet>, ps: seq<ProjectId>, n: nat)
    requires n <= |ps| && SecondPass(res, t, imageData, ps[..n]).Err?
    ensures SecondPass(res, t, imageData, ps) == SecondPass(res, t, imageData, ps[..n])
    decreases |ps| - n
  {
    if n < |ps| {
      assert ps[..n + 1][..n] == ps[..n];
      SecondPassPrefixError(res, t, imageData, ps, n + 1);
    } else {
      assert ps[..n] == ps;
    }
  }

  lemma SecondPassFailureFinal(res: Resolution, t: Tables, imageData: map<ProjectId, ImageSet>, ps: seq<ProjectId>, i: nat)
    requires i < |ps| && SecondPass(res, t, imageData, ps[..i]).Ok? && ps[i] in imageData
    requires EmitProject(res, SecondPass(res, t, imageData, ps[..i]).value, ps[i], imageData[ps[i]].matches).Err?
    ensures SecondPass(res, t, imageData, ps) ==
      EmitProject(res, SecondPass(res, t, imageData, ps[..i]).value, ps[i], imageData[ps[i]].matches)
  {
    assert ps[..i + 1][..i] == ps[..i];
    SecondPassPrefixError(res, t, imageData, ps, i + 1);
  }
}
