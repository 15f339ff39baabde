/** The catalog queries of synthmap/projectManager/colmapParser.py that
    feed the merge: the pair filter of `get_imageset_data`, the one-hop
    neighbours of `list_project_matches_old`, and the union-then-sort of
    `get_entity_related_images`. */
module RelatedImages {
  import opened Wrappers
  import opened ColmapCatalog
  import opened PairIndex
  import opened StableSort

  /*
   * get_imageset_data
   */

  /** One match row kept by `get_imageset_data`: its decoded local ids and
      the joined row. */
  datatype MatchEntry = MatchEntry(id1: LocalId, id2: LocalId, row: PairRow)

  /** The dictionary `get_imageset_data` returns. */
  datatype ImageSet = ImageSet(images: map<LocalId, ImageRow>, matches: seq<MatchEntry>)

  /** The local ids of the requested global images (`gid2pid` over them);
      a global image the project does not hold has no row, and `.get` on the
      missing row raises. */
  function WantedLocals(pis: seq<ProjectImage>, p: ProjectId, imageIds: seq<ImageId>): (r: Result<set<LocalId>, QueryError>)
    ensures r.Ok? ==> forall l :: l in r.value <==> exists g :: g in imageIds && LocalOf(pis, g, p) == Some(l)
    ensures r.Err? <==> exists g :: g in imageIds && LocalOf(pis, g, p).None?
    decreases |imageIds|
  {
    if imageIds == [] then Ok({})
    else
      var init := imageIds[..|imageIds| - 1];
      var g := imageIds[|imageIds| - 1];
      assert imageIds == init + [g];
      assert forall g' :: g' in imageIds <==> g' in init || g' == g;
      match WantedLocals(pis, p, init)
      case Err(e) => Err(e)
      case Ok(w) =>
        match LocalOf(pis, g, p)
        case None => Err(NoProjectImage(g, p))
        case Some(l) => Ok(w + {l})
  }

  /** The pair rows whose two decoded endpoints are both wanted, in table
      order. */
  function KeptMatches(pairs: seq<PairRow>, wanted: set<LocalId>): seq<MatchEntry>
    decreases |pairs|
  {
    if pairs == [] then []
    else
      var init := KeptMatches(pairs[..|pairs| - 1], wanted);
      var row := pairs[|pairs| - 1];
      var ids := PairIdToImageIds(row.pairId);
      if ids.0 in wanted && ids.1 in wanted then init + [MatchEntry(ids.0, ids.1, row)] else init
  }

  /** A match row is kept exactly when both of its decoded endpoints are
      wanted; the entry carries those endpoints. */
  lemma {:induction false} KeptMatchesIff(pairs: seq<PairRow>, wanted: set<LocalId>, e: MatchEntry)
    ensures e in KeptMatches(pairs, wanted) <==>
      e.row in pairs && (e.id1, e.id2) == PairIdToImageIds(e.row.pairId) && e.id1 in wanted && e.id2 in wanted
    decreases |pairs|
  {
    if pairs != [] {
      var init := pairs[..|pairs| - 1];
      KeptMatchesIff(init, wanted, e);
      assert pairs == init + [pairs[|pairs| - 1]];
    }
  }

  /** The kept images: those of the joined rows whose local id is wanted. */
  function KeptImages(images: map<LocalId, ImageRow>, wanted: set<LocalId>): (r: map<LocalId, ImageRow>)
    ensures forall l :: l in r <==> l in images && l in wanted
    ensures forall l :: l in r ==> r[l] == images[l]
  {
    map l | l in images && l in wanted :: images[l]
  }

  /** The specification of `get_imageset_data` for project p. */
  function ImagesetData(pis: seq<ProjectImage>, p: ProjectId, imageIds: seq<ImageId>, db: ProjectDb): Result<ImageSet, QueryError> {
    match WantedLocals(pis, p, imageIds)
    case Err(e) => Err(e)
    case Ok(w) => Ok(ImageSet(KeptImages(db.images, w), KeptMatches(db.pairs, w)))
  }

  /** `get_imageset_data` as written: its first query, on the Projects
      table (lines 337-340), names columns that table does not have, so
      the call raises before it reads any image or opens any database. */
  function ImagesetDataAsWritten(pis: seq<ProjectImage>, p: ProjectId, imageIds: seq<ImageId>): Result<ImageSet, QueryError> {
    Err(ProjectsColumnsMissing)
  }

  /** As written the call fails for every project and every image list,
      even where the corrected lookup yields data. */
  lemma ImagesetDataAsWrittenFails(pis: seq<ProjectImage>, p: ProjectId, imageIds: seq<ImageId>, db: ProjectDb)
    requires ImagesetData(pis, p, imageIds, db).Ok?
    ensures ImagesetDataAsWritten(pis, p, imageIds) == Err(ProjectsColumnsMissing)
    ensures ImagesetDataAsWritten(pis, p, imageIds) != ImagesetData(pis, p, imageIds, db)
  {
  }

  /** `get_imageset_data(db, project_id, image_ids)`, with the project
      database found through its ColmapProjects row and given as `db`. */
  method GetImagesetData(pis: seq<ProjectImage>, p: ProjectId, imageIds: seq<ImageId>, db: ProjectDb)
    returns (r: Result<ImageSet, QueryError>)
    ensures r == ImagesetData(pis, p, imageIds, db)
  {
    var wanted: set<LocalId> := {};
    for i := 0 to |imageIds|
      invariant WantedLocals(pis, p, imageIds[..i]) == Ok(wanted)
    {
      assert imageIds[..i + 1][..i] == imageIds[..i];
      var l := LocalOf(pis, imageIds[i], p);
      if l.None? {
        WantedLocalsFailureFinal(pis, p, imageIds, i);
        return Err(NoProjectImage(imageIds[i], p));
      }
      wanted := wanted + {l.value};
    }
    assert imageIds[..|imageIds|] == imageIds;
    var images := KeptImages(db.images, wanted);
    var matches := FilterMatches(db.pairs, wanted);
    r := Ok(ImageSet(images, matches));
  }

  /** The loop over the matches rows, keeping those whose two endpoints
      are wanted. */
  method FilterMatches(pairs: seq<PairRow>, wanted: set<LocalId>) returns (matches: seq<MatchEntry>)
    ensures matches == KeptMatches(pairs, wanted)
  {
    matches := [];
    for i := 0 to |pairs|
      invariant matches == KeptMatches(pairs[..i], wanted)
    {
      assert pairs[..i + 1][..i] == pairs[..i];
      var ids := PairIdToImageIds(pairs[i].pairId);
      if ids.0 in wanted && ids.1 in wanted {
        matches := matches + [MatchEntry(ids.0, ids.1, pairs[i])];
      }
    }
    assert pairs[..|pairs|] == pairs;
  }

  lemma {:induction false} WantedLocalsPrefixError(pis: seq<ProjectImage>, p: ProjectId, imageIds: seq<ImageId>, n: nat)
    requires n <= |imageIds| && WantedLocals(pis, p, imageIds[..n]).Err?
    ensures WantedLocals(pis, p, imageIds) == WantedLocals(pis, p, imageIds[..n])
    decreases |imageIds| - n
  {
    if n < |imageIds| {
      assert imageIds[..n + 1][..n] == imageIds[..n];
      WantedLocalsPrefixError(pis, p, imageIds, n + 1);
    } else {
      assert imageIds[..n] == imageIds;
    }
  }

  lemma WantedLocalsFailureFinal(pis: seq<ProjectImage>, p: ProjectId, imageIds: seq<ImageId>, i: nat)
    requires i < |imageIds| && WantedLocals(pis, p, imageIds[..i]).Ok? && LocalOf(pis, imageIds[i], p).None?
    ensures WantedLocals(pis, p, imageIds) == Err(NoProjectImage(imageIds[i], p))
  {
    assert imageIds[..i + 1][..i] == imageIds[..i];
    WantedLocalsPrefixError(pis, p, imageIds, i + 1);
  }

  /*
   * list_project_matches_old
   */

  /** The local partner a matches pair id gives local image `local`, if the
      pair touches it: the second endpoint when `local` is the first, otherwise
      the first when `local` is the second. */
  function PartnerLocal(pairId: int, local: LocalId): Option<LocalId> {
    var ids := PairIdToImageIds(pairId);
    if ids.0 == local then Some(ids.1)
    else if ids.1 == local then Some(ids.0)
    else None
  }

  /** The loop over `SELECT pair_id FROM matches`. */
  function Partners(pis: seq<ProjectImage>, p: ProjectId, pairIds: seq<int>, local: LocalId): Result<seq<ImageId>, QueryError>
    decreases |pairIds|
  {
    if pairIds == [] then Ok([])
    else
      match Partners(pis, p, pairIds[..|pairIds| - 1], local)
      case Err(e) => Err(e)
      case Ok(ns) =>
        match PartnerLocal(pairIds[|pairIds| - 1], local)
        case None => Ok(ns)
        case Some(other) =>
          match GlobalOf(pis, p, other)
          case None => Err(NoPartner(p, other))
          case Some(h) => Ok(ns + [h])
  }

  /** The neighbours are exactly the global ids of the partners of the
      matches pair ids touching `local`; the loop fails exactly when such a partner
      has no catalog row. */
  lemma {:induction false} PartnersIff(pis: seq<ProjectImage>, p: ProjectId, pairIds: seq<int>, local: LocalId)
    ensures Partners(pis, p, pairIds, local).Err? <==>
      exists id :: id in pairIds && PartnerLocal(id, local).Some? && GlobalOf(pis, p, PartnerLocal(id, local).value).None?
    ensures Partners(pis, p, pairIds, local).Ok? ==> forall h ::
      h in Partners(pis, p, pairIds, local).value <==>
      exists id :: id in pairIds && PartnerLocal(id, local).Some? && GlobalOf(pis, p, PartnerLocal(id, local).value) == Some(h)
    decreases |pairIds|
  {
    if pairIds != [] {
      var init := pairIds[..|pairIds| - 1];
      PartnersIff(pis, p, init, local);
      assert pairIds == init + [pairIds[|pairIds| - 1]];
    }
  }

  /** A self-pair (both endpoints `local`) gives the image itself as its
      partner, once, through the first branch. */
  lemma SelfPairPartner(pairId: int, local: LocalId)
    requires 0 <= local < MAX_IMAGE_ID && pairId == ImageIdsToPairId(local, local)
    ensures PartnerLocal(pairId, local) == Some(local)
  {
    PairIdRoundTrip(local, local);
  }

  /** The specification of `list_project_matches_old(db, p, g)`. */
  function Neighbours(c: Catalog, p: ProjectId, g: ImageId): Result<seq<ImageId>, QueryError> {
    match LocalOf(c.projectImages, g, p)
    case None => Err(NoProjectImage(g, p))
    case Some(local) =>
      if p !in c.colmapProjects then Err(NoColmapProject(p))
      else if c.colmapProjects[p].dbPath !in c.stores then Err(StoreUnavailable(c.colmapProjects[p].dbPath))
      else Partners(c.projectImages, p, c.stores[c.colmapProjects[p].dbPath].matchIds, local)
  }

  /** The neighbours read the matches table alone: replacing a project
      database's joined rows, geometries included, changes nothing as long
      as its matches pair ids stay the same. */
  lemma NeighboursIgnoreGeometries(c: Catalog, p: ProjectId, g: ImageId, path: string, db: ProjectDb)
    requires path in c.stores && db.matchIds == c.stores[path].matchIds
    ensures Neighbours(c.(stores := c.stores[path := db]), p, g) == Neighbours(c, p, g)
  {
  }

  /** `list_project_matches_old(db, project_id, image_id)`. */
  method ListProjectMatches(c: Catalog, p: ProjectId, g: ImageId) returns (r: Result<seq<ImageId>, QueryError>)
    ensures r == Neighbours(c, p, g)
  {
    var local := LocalOf(c.projectImages, g, p);
    if local.None? {
      return Err(NoProjectImage(g, p));
    }
    if p !in c.colmapProjects {
      return Err(NoColmapProject(p));
    }
    var dbPath := c.colmapProjects[p].dbPath;
    if dbPath !in c.stores {
      return Err(StoreUnavailable(dbPath));
    }
    var pairIds := c.stores[dbPath].matchIds;
    var ret := [];
    for i := 0 to |pairIds|
      invariant Partners(c.projectImages, p, pairIds[..i], local.value) == Ok(ret)
    {
      assert pairIds[..i + 1][..i] == pairIds[..i];
      var ids := PairIdToImageIds(pairIds[i]);
      if local.value == ids.0 {
        var h := GlobalOf(c.projectImages, p, ids.1);
        if h.None? {
          PartnersFailureFinal(c.projectImages, p, pairIds, local.value, i);
          return Err(NoPartner(p, ids.1));
        }
        ret := ret + [h.value];
      } else if local.value == ids.1 {
        var h := GlobalOf(c.projectImages, p, ids.0);
        if h.None? {
          PartnersFailureFinal(c.projectImages, p, pairIds, local.value, i);
          return Err(NoPartner(p, ids.0));
        }
        ret := ret + [h.value];
      }
    }
    assert pairIds[..|pairIds|] == pairIds;
    r := Ok(ret);
  }

  lemma {:induction false} PartnersPrefixError(pis: seq<ProjectImage>, p: ProjectId, pairIds: seq<int>, local: LocalId, n: nat)
    requires n <= |pairIds| && Partners(pis, p, pairIds[..n], local).Err?
    ensures Partners(pis, p, pairIds, local) == Partners(pis, p, pairIds[..n], local)
    decreases |pairIds| - n
  {
    if n < |pairIds| {
      assert pairIds[..n + 1][..n] == pairIds[..n];
      PartnersPrefixError(pis, p, pairIds, local, n + 1);
    } else {
      assert pairIds[..n] == pairIds;
    }
  }

  lemma PartnersFailureFinal(pis: seq<ProjectImage>, p: ProjectId, pairIds: seq<int>, local: LocalId, i: nat)
    requires i < |pairIds| && Partners(pis, p, pairIds[..i], local).Ok?
    requires PartnerLocal(pairIds[i], local).Some? && GlobalOf(pis, p, PartnerLocal(pairIds[i], local).value).None?
    ensures Partners(pis, p, pairIds, local) == Err(NoPartner(p, PartnerLocal(pairIds[i], local).value))
  {
    assert pairIds[..i + 1][..i] == pairIds[..i];
    PartnersPrefixError(pis, p, pairIds, local, i + 1);
  }

  /*
   * get_entity_related_images
   */

  /** The union of the neighbours of g in each of the projects ps. */
  function ProjectNeighbours(c: Catalog, g: ImageId, ps: seq<ProjectId>): Result<set<ImageId>, QueryError>
    decreases |ps|
  {
    if ps == [] then Ok({})
    else
      match ProjectNeighbours(c, g, ps[..|ps| - 1])
      case Err(e) => Err(e)
      case Ok(s) =>
        match Neighbours(c, ps[|ps| - 1], g)
        case Err(e) => Err(e)
        case Ok(ns) => Ok(s + set h | h in ns)
  }

  /** The union of the neighbours of each image of gs, in every project
      that holds it. */
  function AllNeighbours(c: Catalog, gs: seq<ImageId>): Result<set<ImageId>, QueryError>
    decreases |gs|
  {
    if gs == [] then Ok({})
    else
      match AllNeighbours(c, gs[..|gs| - 1])
      case Err(e) => Err(e)
      case Ok(s) =>
        var g := gs[|gs| - 1];
        match ProjectNeighbours(c, g, ProjectsOf(c.projectImages, g))
        case Err(e) => Err(e)
        case Ok(ns) => Ok(s + ns)
  }

  /** The set `related_images`: the registered images and all their
      neighbours. */
  function RelatedImageSet(c: Catalog, e: EntityId): Result<set<ImageId>, QueryError> {
    var gs := Registered(c.imageEntities, e);
    match AllNeighbours(c, gs)
    case Err(err) => Err(err)
    case Ok(ns) => Ok((set g | g in gs) + ns)
  }

  lemma {:induction false} ProjectNeighboursIff(c: Catalog, g: ImageId, ps: seq<ProjectId>)
    requires ProjectNeighbours(c, g, ps).Ok?
    ensures forall p :: p in ps ==> Neighbours(c, p, g).Ok?
    ensures forall h :: h in ProjectNeighbours(c, g, ps).value <==>
      exists p :: p in ps && h in Neighbours(c, p, g).value
    decreases |ps|
  {
    if ps != [] {
      var init := ps[..|ps| - 1];
      ProjectNeighboursIff(c, g, init);
      assert ps == init + [ps[|ps| - 1]];
      assert forall p :: p in ps <==> p in init || p == ps[|ps| - 1];
    }
  }

  lemma {:induction false} AllNeighboursIff(c: Catalog, gs: seq<ImageId>)
    requires AllNeighbours(c, gs).Ok?
    ensures forall g :: g in gs ==> ProjectNeighbours(c, g, ProjectsOf(c.projectImages, g)).Ok?
    ensures forall h :: h in AllNeighbours(c, gs).value <==>
      exists g :: g in gs && h in ProjectNeighbours(c, g, ProjectsOf(c.projectImages, g)).value
    decreases |gs|
  {
    if gs != [] {
      var init := gs[..|gs| - 1];
      AllNeighboursIff(c, init);
      assert gs == init + [gs[|gs| - 1]];
      assert forall g :: g in gs <==> g in init || g == gs[|gs| - 1];
    }
  }

  /** An image is related to entity e exactly when it is registered to e,
      or is a neighbour of a registered image in some project holding it. */
  lemma RelatedImageSetIff(c: Catalog, e: EntityId, h: ImageId)
    requires RelatedImageSet(c, e).Ok?
    ensures h in RelatedImageSet(c, e).value <==>
      Registration(h, e) in c.imageEntities ||
      exists g, p :: Registration(g, e) in c.imageEntities && LocalOf(c.projectImages, g, p).Some?
        && Neighbours(c, p, g).Ok? && h in Neighbours(c, p, g).value
  {
    var gs := Registered(c.imageEntities, e);
    AllNeighboursIff(c, gs);
    if h !in gs && h in RelatedImageSet(c, e).value {
      var g :| g in gs && h in ProjectNeighbours(c, g, ProjectsOf(c.projectImages, g)).value;
      ProjectNeighboursIff(c, g, ProjectsOf(c.projectImages, g));
      var p :| p in ProjectsOf(c.projectImages, g) && h in Neighbours(c, p, g).value;
      assert Neighbours(c, p, g).Ok?;
    }
    if exists g, p :: Registration(g, e) in c.imageEntities && LocalOf(c.projectImages, g, p).Some?
        && Neighbours(c, p, g).Ok? && h in Neighbours(c, p, g).value {
      var g, p :| Registration(g, e) in c.imageEntities && LocalOf(c.projectImages, g, p).Some?
        && Neighbours(c, p, g).Ok? && h in Neighbours(c, p, g).value;
      assert g in gs;
      ProjectNeighboursIff(c, g, ProjectsOf(c.projectImages, g));
      assert p in ProjectsOf(c.projectImages, g);
    }
  }

  /** The rows of projectImages JOIN imageFiles for one projectImages row. */
  function FilesOf(files: seq<ImageFile>, pi: ProjectImage): seq<RelatedRow>
    decreases |files|
  {
    if files == [] then []
    else (if files[0].imageId == pi.imageId then [RelatedRow(pi.imageId, pi.projectId, pi.localId, files[0].filePath)] else [])
         + FilesOf(files[1..], pi)
  }

  /** projectImages JOIN imageFiles, restricted to the images of s. */
  function JoinRows(pis: seq<ProjectImage>, files: seq<ImageFile>, s: set<ImageId>): seq<RelatedRow>
    decreases |pis|
  {
    if pis == [] then []
    else (if pis[0].imageId in s then FilesOf(files, pis[0]) else []) + JoinRows(pis[1..], files, s)
  }

  lemma {:induction false} FilesOfIff(files: seq<ImageFile>, pi: ProjectImage, x: RelatedRow)
    ensures x in FilesOf(files, pi) <==>
      x.imageId == pi.imageId && x.projectId == pi.projectId && x.localId == pi.localId && ImageFile(x.imageId, x.filePath) in files
    decreases |files|
  {
    if files != [] {
      FilesOfIff(files[1..], pi, x);
      assert files == [files[0]] + files[1..];
    }
  }

  /** A joined row is related exactly when its image is in s and both of
      the rows it joins are in the catalog. */
  lemma {:induction false} JoinRowsIff(pis: seq<ProjectImage>, files: seq<ImageFile>, s: set<ImageId>, x: RelatedRow)
    ensures x in JoinRows(pis, files, s) <==>
      x.imageId in s && ProjectImage(x.imageId, x.projectId, x.localId) in pis && ImageFile(x.imageId, x.filePath) in files
    decreases |pis|
  {
    if pis != [] {
      JoinRowsIff(pis[1..], files, s, x);
      FilesOfIff(files, pis[0], x);
      assert pis == [pis[0]] + pis[1..];
    }
  }

  /** Splitting one image off the set splits the join's rows. */
  lemma {:induction false} JoinRowsSplit(pis: seq<ProjectImage>, files: seq<ImageFile>, s: set<ImageId>, g: ImageId)
    requires g in s
    ensures multiset(JoinRows(pis, files, s)) == multiset(JoinRows(pis, files, s - {g})) + multiset(JoinRows(pis, files, {g}))
    decreases |pis|
  {
    if pis != [] {
      JoinRowsSplit(pis[1..], files, s, g);
    }
  }

  function ProjectIdOf(x: RelatedRow): int {
    x.projectId
  }

  /** Lines 287-309 of `get_entity_related_images`: the registered images
      and, for each of them and each project holding it, its neighbours. */
  method CollectRelated(c: Catalog, e: EntityId) returns (r: Result<set<ImageId>, QueryError>)
    ensures r == RelatedImageSet(c, e)
  {
    var registered := Registered(c.imageEntities, e);
    var related := set g | g in registered;
    var found: set<ImageId> := {};
    for i := 0 to |registered|
      invariant AllNeighbours(c, registered[..i]) == Ok(found)
    {
      var g := registered[i];
      var viaG := CollectVia(c, g);
      if viaG.Err? {
        AllNeighboursFailureFinal(c, registered, i);
        return Err(viaG.error);
      }
      AllNeighboursStep(c, registered, i, found);
      found := found + viaG.value;
    }
    assert registered[..|registered|] == registered;
    r := Ok(related + found);
  }

  /** The inner loop of lines 296-308: the neighbours of one registered
      image, over every project that holds it. */
  method CollectVia(c: Catalog, g: ImageId) returns (r: Result<set<ImageId>, QueryError>)
    ensures r == ProjectNeighbours(c, g, ProjectsOf(c.projectImages, g))
  {
    var projectIds := ProjectsOf(c.projectImages, g);
    var viaG: set<ImageId> := {};
    for j := 0 to |projectIds|
      invariant ProjectNeighbours(c, g, projectIds[..j]) == Ok(viaG)
    {
      assert projectIds[..j + 1][..j] == projectIds[..j];
      var matches := ListProjectMatches(c, projectIds[j], g);
      if matches.Err? {
        ProjectNeighboursFailureFinal(c, g, projectIds, j);
        return Err(matches.error);
      }
      viaG := viaG + set h | h in matches.value;
    }
    assert projectIds[..|projectIds|] == projectIds;
    r := Ok(viaG);
  }

  /** Lines 310-321: the joined rows of each related image, the images taken
      in whatever order the set yields them. */
  method CollectRows(c: Catalog, related: set<ImageId>) returns (rows: seq<RelatedRow>)
    ensures multiset(rows) == multiset(JoinRows(c.projectImages, c.imageFiles, related))
  {
    rows := [];
    var remaining: set<ImageId> := related;
    while remaining != {}
      invariant multiset(rows) + multiset(JoinRows(c.projectImages, c.imageFiles, remaining))
                == multiset(JoinRows(c.projectImages, c.imageFiles, related))
      decreases remaining
    {
      if forall x :: x !in remaining {
        assert false;
      }
      var g :| g in remaining;
      JoinRowsSplit(c.projectImages, c.imageFiles, remaining, g);
      rows := rows + JoinRows(c.projectImages, c.imageFiles, {g});
      remaining := remaining - {g};
    }
    JoinRowsEmpty(c.projectImages, c.imageFiles);
  }

  /** `get_entity_related_images(db, entity_id)`. The set of related images
      is iterated in no particular order, so the result is specified up to
      the order of rows with equal project ids: it is ordered by project id
      and holds each joined row of each related image once. */
  method GetEntityRelatedImages(c: Catalog, e: EntityId) returns (r: Result<seq<RelatedRow>, QueryError>)
    ensures RelatedImageSet(c, e).Err? ==> r == Err(RelatedImageSet(c, e).error)
    ensures RelatedImageSet(c, e).Ok? ==>
      (r.Ok? && Ordered(r.value, ProjectIdOf)
       && multiset(r.value) == multiset(JoinRows(c.projectImages, c.imageFiles, RelatedImageSet(c, e).value)))
  {
    var related := CollectRelated(c, e);
    if related.Err? {
      return Err(related.error);
    }
    var relatedData := CollectRows(c, related.value);
    SortByOrdered(relatedData, ProjectIdOf);
    SortByPermutes(relatedData, ProjectIdOf);
    r := Ok(SortBy(relatedData, ProjectIdOf));
  }

  lemma {:induction false} JoinRowsEmpty(pis: seq<ProjectImage>, files: seq<ImageFile>)
    ensures JoinRows(pis, files, {}) == []
    decreases |pis|
  {
    if pis != [] {
      JoinRowsEmpty(pis[1..], files);
    }
  }

  lemma {:induction false} ProjectNeighboursPrefixError(c: Catalog, g: ImageId, ps: seq<ProjectId>, n: nat)
    requires n <= |ps| && ProjectNeighbours(c, g, ps[..n]).Err?
    ensures ProjectNeighbours(c, g, ps) == ProjectNeighbours(c, g, ps[..n])
    decreases |ps| - n
  {
    if n < |ps| {
      assert ps[..n + 1][..n] == ps[..n];
      ProjectNeighboursPrefixError(c, g, ps, n + 1);
    } else {
      assert ps[..n] == ps;
    }
  }

  lemma ProjectNeighboursFailureFinal(c: Catalog, g: ImageId, ps: seq<ProjectId>, j: nat)
    requires j < |ps| && ProjectNeighbours(c, g, ps[..j]).Ok? && Neighbours(c, ps[j], g).Err?
    ensures ProjectNeighbours(c, g, ps) == Err(Neighbours(c, ps[j], g).error)
  {
    assert ps[..j + 1][..j] == ps[..j];
    ProjectNeighboursPrefixError(c, g, ps, j + 1);
  }

  lemma {:induction false} AllNeighboursPrefixError(c: Catalog, gs: seq<ImageId>, n: nat)
    requires n <= |gs| && AllNeighbours(c, gs[..n]).Err?
    ensures AllNeighbours(c, gs) == AllNeighbours(c, gs[..n])
    decreases |gs| - n
  {
    if n < |gs| {
      assert gs[..n + 1][..n] == gs[..n];
      AllNeighboursPrefixError(c, gs, n + 1);
    } else {
      assert gs[..n] == gs;
    }
  }

  /** One more registered image whose neighbours are found. */
  lemma AllNeighboursStep(c: Catalog, gs: seq<ImageId>, i: nat, found: set<ImageId>)
    requires i < |gs| && AllNeighbours(c, gs[..i]) == Ok(found)
    requires ProjectNeighbours(c, gs[i], ProjectsOf(c.projectImages, gs[i])).Ok?
    ensures AllNeighbours(c, gs[..i + 1]) ==
              Ok(found + ProjectNeighbours(c, gs[i], ProjectsOf(c.projectImages, gs[i])).value)
  {
    assert gs[..i + 1][..i] == gs[..i];
  }

  lemma AllNeighboursFailureFinal(c: Catalog, gs: seq<ImageId>, i: nat)
    requires i < |gs| && AllNeighbours(c, gs[..i]).Ok?
    requires ProjectNeighbours(c, gs[i], ProjectsOf(c.projectImages, gs[i])).Err?
    ensures AllNeighbours(c, gs) == Err(ProjectNeighbours(c, gs[i], ProjectsOf(c.projectImages, gs[i])).error)
  {
    assert gs[..i + 1][..i] == gs[..i];
    AllNeighboursPrefixError(c, gs, i + 1);
  }
}
