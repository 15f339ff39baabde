/** The specification of `create_entity_project`
    (synthmap/projectManager/colmapParser.py:392-540): from the related
    rows of an entity, build one COLMAP database in which each global image
    appears once under a fresh id and each match row is re-keyed by the new
    ids of its two endpoints.

    A key (project, local id) names one occurrence of an image. The nested
    dictionaries of the source (`image_graph`, `new_idxs`, `excluded`,
    `skip`) are flattened onto such keys. */
module EntityMerge {
  import opened Wrappers
  import opened BlobCodec
  import opened ColmapCatalog
  import opened RelatedImages
  import opened PairIndex
  import opened StableSort
  import opened TempDatabase

  type Key = (ProjectId, LocalId)

  function KeyOf(r: RelatedRow): Key {
    (r.projectId, r.localId)
  }

  /** The exceptions the merge can raise. */
  datatype MergeError =
    | Query(error: QueryError)
    /** a project without a ColmapProjects row: its `None` is subscripted */
    | NoImagePath(projectId: ProjectId)
    /** a KeyError on `image_graph`, `image_data` or `image_dir_offsets` */
    | KeyMissing(key: Key)
    /** a KeyError on `new_idxs` while emitting matches */
    | NoNewId(key: Key)
    /** the TypeError of `", ".join` over project ids, as written */
    | JoinOfIntegers

  /*
   * Lines 404-410: image_graph, project_count and the order of projects.
   */

  /** `image_graph`, flattened: (project, global image) to local id. */
  function ImageGraph(related: seq<RelatedRow>): map<(ProjectId, ImageId), LocalId>
    decreases |related|
  {
    if related == [] then map[]
    else
      var r := related[|related| - 1];
      ImageGraph(related[..|related| - 1])[(r.projectId, r.imageId) := r.localId]
  }

  /** `project_count`: for each global image, the project of each of its
      rows, in row order. */
  function ProjectCount(related: seq<RelatedRow>): map<ImageId, seq<ProjectId>>
    decreases |related|
  {
    if related == [] then map[]
    else
      var r := related[|related| - 1];
      var count := ProjectCount(related[..|related| - 1]);
      count[r.imageId := CountOf(count, r.imageId) + [r.projectId]]
  }

  /** A `defaultdict(list)` read. */
  function CountOf(count: map<ImageId, seq<ProjectId>>, g: ImageId): seq<ProjectId> {
    if g in count then count[g] else []
  }

  /** The keys of `image_graph` in insertion order: projects by first row. */
  function ProjectOrder(related: seq<RelatedRow>): seq<ProjectId>
    decreases |related|
  {
    if related == [] then []
    else
      var order := ProjectOrder(related[..|related| - 1]);
      var p := related[|related| - 1].projectId;
      if p in order then order else order + [p]
  }

  /** `len(image_graph[p])`: the number of distinct images of project p. */
  function ImagesIn(graph: map<(ProjectId, ImageId), LocalId>, p: ProjectId): nat {
    |set k | k in graph && k.0 == p|
  }

  /*
   * Lines 411-427: the new image root and each project's offset from it.
   */

  /** The longest common prefix of two strings. */
  function Lcp(a: string, b: string): (r: string)
    ensures r <= a && r <= b
    ensures |r| < |a| && |r| < |b| ==> a[|r|] != b[|r|]
    decreases |a|
  {
    if a == [] || b == [] || a[0] != b[0] then []
    else [a[0]] + Lcp(a[1..], b[1..])
  }

  /** `os.path.commonprefix`: character by character, empty for no paths. */
  function CommonPrefix(ss: seq<string>): (r: string)
    ensures forall i :: 0 <= i < |ss| ==> r <= ss[i]
    decreases |ss|
  {
    if |ss| == 0 then []
    else if |ss| == 1 then ss[0]
    else
      var init := CommonPrefix(ss[..|ss| - 1]);
      var r := Lcp(init, ss[|ss| - 1]);
      assert forall i :: 0 <= i < |ss| - 1 ==> ss[i] == ss[..|ss| - 1][i];
      r
  }

  /** `posixpath.join(a, b)`. */
  function PathJoin(a: string, b: string): (r: string)
    ensures b != [] && b[0] == '/' ==> r == b
    ensures (b == [] || b[0] != '/') ==> a <= r && |b| <= |r| && r[|r| - |b|..] == b
  {
    if b != [] && b[0] == '/' then b
    else if a == [] || a[|a| - 1] == '/' then a + b
    else a + "/" + b
  }

  /** The `image_path` of each project, in order; a project without a
      ColmapProjects row fails when its path is read. */
  function ImagePaths(paths: map<ProjectId, ColmapPaths>, order: seq<ProjectId>): (r: Result<seq<string>, MergeError>)
    ensures r.Ok? ==> |r.value| == |order| && forall i :: 0 <= i < |order| ==> order[i] in paths && r.value[i] == paths[order[i]].imagePath
    ensures r.Err? ==> exists i :: 0 <= i < |order| && order[i] !in paths && r.error == NoImagePath(order[i])
    decreases |order|
  {
    if order == [] then Ok([])
    else
      var init := order[..|order| - 1];
      var p := order[|order| - 1];
      match ImagePaths(paths, init)
      case Err(e) => Err(e)
      case Ok(ps) =>
        if p in paths then Ok(ps + [paths[p].imagePath]) else Err(NoImagePath(p))
  }

  /** `image_dir_offsets`: each project's image path relative to the new
      root, `os.path.relpath` being the parameter `relPath`. */
  function Offsets(paths: map<ProjectId, ColmapPaths>, order: seq<ProjectId>, root: string,
                   relPath: (string, string) -> string): (r: map<ProjectId, string>)
    ensures forall p :: p in r <==> p in order && p in paths
  {
    map p | p in order && p in paths :: relPath(paths[p].imagePath, root)
  }

  /*
   * Lines 430-438: each project's image set, largest project first.
   */

  function ImageIdsOf(related: seq<RelatedRow>, p: ProjectId): (gs: seq<ImageId>)
    ensures forall g :: g in gs <==> exists r :: r in related && r.projectId == p && r.imageId == g
    decreases |related|
  {
    if related == [] then []
    else
      var rest := ImageIdsOf(related[1..], p);
      assert forall r :: r in related <==> r == related[0] || r in related[1..];
      (if related[0].projectId == p then [related[0].imageId] else []) + rest
  }

  /** `sorted(image_graph.items(), key=len, reverse=True)`: a stable sort
      by descending image count. */
  function EmitOrder(graph: map<(ProjectId, ImageId), LocalId>, order: seq<ProjectId>): seq<ProjectId> {
    SortBy(order, SizeKey(graph))
  }

  /** The sort key of `reverse=True` by size: the negated image count. */
  function SizeKey(graph: map<(ProjectId, ImageId), LocalId>): ProjectId -> int {
    (q: ProjectId) => -(ImagesIn(graph, q) as int)
  }

  /** `image_data`, filled in emit order. */
  function LoadImageData(c: Catalog, related: seq<RelatedRow>, ps: seq<ProjectId>): Result<map<ProjectId, ImageSet>, MergeError>
    decreases |ps|
  {
    if ps == [] then Ok(map[])
    else
      match LoadImageData(c, related, ps[..|ps| - 1])
      case Err(e) => Err(e)
      case Ok(data) =>
        var p := ps[|ps| - 1];
        if p !in c.colmapProjects then Err(NoImagePath(p))
        else if c.colmapProjects[p].dbPath !in c.stores then Err(Query(StoreUnavailable(c.colmapProjects[p].dbPath)))
        else
          match ImagesetData(c.projectImages, p, ImageIdsOf(related, p), c.stores[c.colmapProjects[p].dbPath])
          case Err(e) => Err(Query(e))
          case Ok(imageSet) => Ok(data[p := imageSet])
  }

  /*
   * Lines 443-497: the first pass, over the related rows.
   */

  /** `new_idxs`, `excluded`, `skip` and the counter `new_idx`. */
  datatype Resolution = Resolution(newIdxs: map<Key, int>, excluded: map<Key, Key>, skip: set<Key>, newIdx: int)

  function InitialResolution(): Resolution {
    Resolution(map[], map[], {}, 0)
  }

  /** What the first pass reads: `image_graph`, `project_count`,
      `image_data` and `image_dir_offsets`. */
  datatype Context = Context(
    graph: map<(ProjectId, ImageId), LocalId>,
    count: map<ImageId, seq<ProjectId>>,
    imageData: map<ProjectId, ImageSet>,
    offsets: map<ProjectId, string>)

  datatype Pass = Pass(res: Resolution, db: Tables)

  /** `image_data[p]["images"][l]`, if present. */
  function ImageRowAt(ctx: Context, k: Key): Option<ImageRow> {
    if k.0 in ctx.imageData && k.1 in ctx.imageData[k.0].images then Some(ctx.imageData[k.0].images[k.1]) else None
  }

  /** The keys of the occurrences of image g in the projects qs (lines
      456-458), failing on the first one whose image data is missing
      (line 460). */
  function Occurrences(ctx: Context, g: ImageId, qs: seq<ProjectId>): (r: Result<seq<Key>, MergeError>)
    ensures r.Ok? ==> |r.value| == |qs| && forall i :: 0 <= i < |qs| ==>
      (qs[i], g) in ctx.graph && r.value[i] == (qs[i], ctx.graph[(qs[i], g)]) && ImageRowAt(ctx, r.value[i]).Some?
    decreases |qs|
  {
    if qs == [] then Ok([])
    else
      match Occurrences(ctx, g, qs[..|qs| - 1])
      case Err(e) => Err(e)
      case Ok(occ) =>
        var q := qs[|qs| - 1];
        if (q, g) !in ctx.graph then Err(KeyMissing((q, g)))
        else if ImageRowAt(ctx, (q, ctx.graph[(q, g)])).None? then Err(KeyMissing((q, ctx.graph[(q, g)])))
        else Ok(occ + [(q, ctx.graph[(q, g)])])
  }

  /** The set of descriptor blobs of the occurrences. */
  function Descriptors(ctx: Context, occ: seq<Key>): set<seq<Byte>>
    requires forall i :: 0 <= i < |occ| ==> ImageRowAt(ctx, occ[i]).Some?
  {
    set i | 0 <= i < |occ| :: ImageRowAt(ctx, occ[i]).value.descriptors.data
  }

  /** Line 462 for every occurrence: each points at `target`. */
  function ExcludeAll(excluded: map<Key, Key>, occ: seq<Key>, target: Key): (r: map<Key, Key>)
    ensures forall k :: k in r <==> k in excluded || k in occ
    ensures forall k :: k in r ==> r[k] == if k in occ then target else excluded[k]
  {
    excluded + map k | k in occ :: target
  }

  /** The four inserts of one image (lines 480-497): the images row first,
      then cameras, keypoints and descriptors; the first that raises
      IntegrityError ends the group. */
  function InsertImageGroup(t: Tables, id: int, name: string, row: ImageRow): Tables {
    if !ImageInsertable(t, id, name) then t
    else
      var t1 := t.(images := t.images[id := OutImage(name, id, row.priors)]);
      if id in t1.cameras then t1
      else
        var t2 := t1.(cameras := t1.cameras[id := row.camera]);
        if id in t2.keypoints then t2
        else
          var t3 := t2.(keypoints := t2.keypoints[id := row.keypoints]);
          if id in t3.descriptors then t3
          else t3.(descriptors := t3.descriptors[id := row.descriptors])
  }

  /** Lines 474-497: take the next id, record it for the row's key, and
      insert the row's image under it with its name re-rooted. */
  function Assign(ctx: Context, st: Pass, r: RelatedRow): Result<Pass, MergeError> {
    var k := KeyOf(r);
    var id := st.res.newIdx + 1;
    match ImageRowAt(ctx, k)
    case None => Err(KeyMissing(k))
    case Some(row) =>
      if r.projectId !in ctx.offsets then Err(KeyMissing(k))
      else
        var name := PathJoin(ctx.offsets[r.projectId], row.name);
        Ok(Pass(st.res.(newIdx := id, newIdxs := st.res.newIdxs[k := id]), InsertImageGroup(st.db, id, name, row)))
  }

  /** The conflict branch as its comment and lines 471-473 intend: every
      occurrence goes into `skip`, and the row gets no id. */
  function OnConflict(st: Pass, occ: seq<Key>): (r: Pass)
    ensures r.res.skip == st.res.skip + set k | k in occ
    ensures r.res.newIdxs == st.res.newIdxs && r.res.newIdx == st.res.newIdx && r.db == st.db
  {
    Pass(st.res.(skip := st.res.skip + set k | k in occ), st.db)
  }

  /** The conflict branch as written: its message formats the project ids
      with `", ".join`, which raises TypeError on integers before anything is
      skipped. */
  function OnConflictAsWritten(st: Pass, occ: seq<Key>): Result<Pass, MergeError> {
    Err(JoinOfIntegers)
  }

  /** Whether a row reaches the conflict branch: it is not excluded, its
      image has several rows, all their image data is present and their
      descriptor blobs are not all equal. */
  predicate Conflicts(ctx: Context, st: Pass, r: RelatedRow) {
    KeyOf(r) !in st.res.excluded && |CountOf(ctx.count, r.imageId)| > 1
    && Occurrences(ctx, r.imageId, CountOf(ctx.count, r.imageId)).Ok?
    && |Descriptors(ctx, Occurrences(ctx, r.imageId, CountOf(ctx.count, r.imageId)).value)| > 1
  }

  /** One iteration of the loop over the related rows (lines 448-497). */
  function Step(ctx: Context, st: Pass, r: RelatedRow): Result<Pass, MergeError> {
    var k := KeyOf(r);
    var qs := CountOf(ctx.count, r.imageId);
    if k in st.res.excluded then Ok(st)
    else if |qs| > 1 then
      match Occurrences(ctx, r.imageId, qs)
      case Err(e) => Err(e)
      case Ok(occ) =>
        var st1 := Pass(st.res.(excluded := ExcludeAll(st.res.excluded, occ, k)), st.db);
        if |Descriptors(ctx, occ)| > 1 then Ok(OnConflict(st1, occ))
        else Assign(ctx, st1, r)
    else Assign(ctx, st, r)
  }

  /** The iteration as written: a conflicting row raises. */
  function StepAsWritten(ctx: Context, st: Pass, r: RelatedRow): Result<Pass, MergeError> {
    if Conflicts(ctx, st, r) then
      var occ := Occurrences(ctx, r.imageId, CountOf(ctx.count, r.imageId)).value;
      OnConflictAsWritten(Pass(st.res.(excluded := ExcludeAll(st.res.excluded, occ, KeyOf(r))), st.db), occ)
    else Step(ctx, st, r)
  }

  /** The first pass over a run of rows, from the empty state. */
  function FirstPass(ctx: Context, rows: seq<RelatedRow>): Result<Pass, MergeError>
    decreases |rows|
  {
    if rows == [] then Ok(Pass(InitialResolution(), EmptyTables()))
    else
      match FirstPass(ctx, rows[..|rows| - 1])
      case Err(e) => Err(e)
      case Ok(st) => Step(ctx, st, rows[|rows| - 1])
  }

  /*
   * Lines 500-532: the second pass, over the kept matches.
   */

  /** The new id of an occurrence: through its canonical occurrence when
      excluded (lines 505-507), its own otherwise (line 509). */
  function Resolve(res: Resolution, k: Key): Option<int> {
    if k in res.excluded then
      if res.excluded[k] in res.newIdxs then Some(res.newIdxs[res.excluded[k]]) else None
    else if k in res.newIdxs then Some(res.newIdxs[k])
    else None
  }

  /** The two inserts of one pair (lines 518-532). */
  function InsertPair(t: Tables, pairId: int, row: PairRow): Tables {
    if pairId in t.matches then t
    else
      var t1 := t.(matches := t.matches[pairId := row.matches]);
      if pairId in t1.geometries then t1
      else t1.(geometries := t1.geometries[pairId := row.geometry])
  }

  /** One match of project p (lines 502-532). */
  function EmitMatch(res: Resolution, t: Tables, p: ProjectId, m: MatchEntry): Result<Tables, MergeError> {
    if (p, m.id1) in res.skip || (p, m.id2) in res.skip then Ok(t)
    else
      match Resolve(res, (p, m.id1))
      case None => Err(NoNewId((p, m.id1)))
      case Some(id1) =>
        match Resolve(res, (p, m.id2))
        case None => Err(NoNewId((p, m.id2)))
        case Some(id2) => Ok(InsertPair(t, ImageIdsToPairId(id1, id2), m.row))
  }

  function EmitProject(res: Resolution, t: Tables, p: ProjectId, ms: seq<MatchEntry>): Result<Tables, MergeError>
    decreases |ms|
  {
    if ms == [] then Ok(t)
    else
      match EmitProject(res, t, p, ms[..|ms| - 1])
      case Err(e) => Err(e)
      case Ok(t1) => EmitMatch(res, t1, p, ms[|ms| - 1])
  }

  /** The second pass over the projects of `image_data`, in its order. */
  function SecondPass(res: Resolution, t: Tables, imageData: map<ProjectId, ImageSet>, ps: seq<ProjectId>): Result<Tables, MergeError>
    decreases |ps|
  {
    if ps == [] then Ok(t)
    else
      match SecondPass(res, t, imageData, ps[..|ps| - 1])
      case Err(e) => Err(e)
      case Ok(t1) =>
        var p := ps[|ps| - 1];
        if p in imageData then EmitProject(res, t1, p, imageData[p].matches) else Ok(t1)
  }

  /*
   * The whole merge.
   */

  /** The state the first pass starts from, or the error raised before it. */
  function Prepare(c: Catalog, related: seq<RelatedRow>, relPath: (string, string) -> string): Result<(Context, seq<ProjectId>), MergeError> {
    var graph := ImageGraph(related);
    var order := ProjectOrder(related);
    match ImagePaths(c.colmapProjects, order)
    case Err(e) => Err(e)
    case Ok(paths) =>
      var offsets := Offsets(c.colmapProjects, order, CommonPrefix(paths), relPath);
      var emit := EmitOrder(graph, order);
      match LoadImageData(c, related, emit)
      case Err(e) => Err(e)
      case Ok(imageData) => Ok((Context(graph, ProjectCount(related), imageData, offsets), emit))
  }

  /** `image_data` as written: the first `get_imageset_data` call raises at
      its Projects query, so the dict is built only when there is no
      project. */
  function LoadImageDataAsWritten(c: Catalog, related: seq<RelatedRow>, ps: seq<ProjectId>): Result<map<ProjectId, ImageSet>, MergeError>
  {
    if ps == [] then Ok(map[])
    else
      match ImagesetDataAsWritten(c.projectImages, ps[0], ImageIdsOf(related, ps[0]))
      case Err(e) => Err(Query(e))
      case Ok(imageSet) => Ok(map[ps[0] := imageSet])
  }

  /** `create_entity_project` as written: the same steps as Merge, with
      `image_data` loaded through the failing Projects query. */
  function MergeAsWritten(c: Catalog, related: seq<RelatedRow>, relPath: (string, string) -> string): Result<Tables, MergeError> {
    var order := ProjectOrder(related);
    match ImagePaths(c.colmapProjects, order)
    case Err(e) => Err(e)
    case Ok(_) =>
      match LoadImageDataAsWritten(c, related, EmitOrder(ImageGraph(related), order))
      case Err(e) => Err(e)
      case Ok(_) => Merge(c, related, relPath)
  }

  /** `create_entity_project` on the given related rows, with each
      project's database found through ColmapProjects.db_path: the tables
      written to `main.db`, or the exception raised. */
  function Merge(c: Catalog, related: seq<RelatedRow>, relPath: (string, string) -> string): Result<Tables, MergeError> {
    match Prepare(c, related, relPath)
    case Err(e) => Err(e)
    case Ok((ctx, emit)) =>
      match FirstPass(ctx, related)
      case Err(e) => Err(e)
      case Ok(st) => SecondPass(st.res, st.db, ctx.imageData, emit)
  }
}
