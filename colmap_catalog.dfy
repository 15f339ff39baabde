/** The data the entity-project merge of
    synthmap/projectManager/colmapParser.py reads: the synthmap catalog
    (which global image is which local image of which COLMAP project, the
    image files, the entity registrations) and, per project, the rows its
    COLMAP database returns to the two join queries of `get_imageset_data`
    and to the matches query of `list_project_matches_old`.
    SQL itself is not modelled: a query is a function over these rows. */
module ColmapCatalog {
  import opened Wrappers
  import opened BlobCodec

  /** Images.id in the synthmap catalog. */
  type ImageId = int
  type ProjectId = int
  /** An image id inside one COLMAP project database. */
  type LocalId = int
  type EntityId = int

  /** A `rows`, `cols`, `data` triple of a COLMAP table. */
  datatype Blob = Blob(rows: int, cols: int, data: seq<Byte>)

  datatype Camera = Camera(model: int, width: int, height: int, params: seq<Byte>, priorFocalLength: int)

  /** One row of images JOIN cameras JOIN keypoints JOIN descriptors; the
      seven pose priors are nullable REALs, kept as bit patterns. */
  datatype ImageRow = ImageRow(name: string, cameraId: int, priors: seq<Option<bv64>>,
                               camera: Camera, keypoints: Blob, descriptors: Blob)

  datatype Geometry = Geometry(blob: Blob, config: int, f: seq<Byte>, e: seq<Byte>, h: seq<Byte>)

  /** One row of matches JOIN two_view_geometries. */
  datatype PairRow = PairRow(pairId: int, matches: Blob, geometry: Geometry)

  /** What one COLMAP project database returns: its joined image rows by
      local id, its joined pair rows in table order, and the `pair_id`
      column of the matches table alone (`SELECT pair_id FROM matches`), in
      table order. A matches row without a two_view_geometries row is in
      `matchIds` but not in `pairs`. */
  datatype ProjectDb = ProjectDb(images: map<LocalId, ImageRow>, pairs: seq<PairRow>, matchIds: seq<int>)

  /** A projectImages row: global image `imageId` is local image `localId`
      of project `projectId`. */
  datatype ProjectImage = ProjectImage(imageId: ImageId, projectId: ProjectId, localId: LocalId)

  datatype ImageFile = ImageFile(imageId: ImageId, filePath: string)

  datatype Registration = Registration(imageId: ImageId, entityId: EntityId)

  /** A ColmapProjects row. */
  datatype ColmapPaths = ColmapPaths(dbPath: string, imagePath: string)

  /** The catalog tables in table order, and the project databases that can
      be opened, by path. */
  datatype Catalog = Catalog(
    imageEntities: seq<Registration>,
    projectImages: seq<ProjectImage>,
    imageFiles: seq<ImageFile>,
    colmapProjects: map<ProjectId, ColmapPaths>,
    stores: map<string, ProjectDb>)

  /** A `RelatedImagesItem`. */
  datatype RelatedRow = RelatedRow(imageId: ImageId, projectId: ProjectId, localId: LocalId, filePath: string)

  /** The ways a catalog lookup fails: a `fetchone()` that found no row and
      is then subscripted, or a project database that cannot be opened. */
  datatype QueryError =
    | NoProjectImage(imageId: ImageId, projectId: ProjectId)
    | NoColmapProject(projectId: ProjectId)
    | NoPartner(projectId: ProjectId, localId: LocalId)
    | StoreUnavailable(dbPath: string)
    /** `SELECT file_path, db_path, image_path FROM Projects WHERE id=?`:
        the Projects table has none of these columns, so sqlite3 raises
        OperationalError */
    | ProjectsColumnsMissing

  /** `SELECT project_image_id FROM projectImages WHERE image_id=? AND
      project_id=?`, first row. */
  function LocalOf(pis: seq<ProjectImage>, g: ImageId, p: ProjectId): (r: Option<LocalId>)
    ensures r.Some? <==> exists k :: 0 <= k < |pis| && pis[k].imageId == g && pis[k].projectId == p
    ensures r.Some? ==> exists k :: 0 <= k < |pis| && pis[k] == ProjectImage(g, p, r.value)
    decreases |pis|
  {
    if pis == [] then None
    else if pis[0].imageId == g && pis[0].projectId == p then Some(pis[0].localId)
    else
      var r := LocalOf(pis[1..], g, p);
      assert forall k :: 1 <= k < |pis| ==> pis[k] == pis[1..][k - 1];
      r
  }

  /** `SELECT image_id FROM projectImages WHERE project_image_id=? AND
      project_id=?`, first row. */
  function GlobalOf(pis: seq<ProjectImage>, p: ProjectId, l: LocalId): (r: Option<ImageId>)
    ensures r.Some? <==> exists k :: 0 <= k < |pis| && pis[k].projectId == p && pis[k].localId == l
    ensures r.Some? ==> exists k :: 0 <= k < |pis| && pis[k] == ProjectImage(r.value, p, l)
    decreases |pis|
  {
    if pis == [] then None
    else if pis[0].projectId == p && pis[0].localId == l then Some(pis[0].imageId)
    else
      var r := GlobalOf(pis[1..], p, l);
      assert forall k :: 1 <= k < |pis| ==> pis[k] == pis[1..][k - 1];
      r
  }

  /** The projects global image g belongs to, in table order. */
  function ProjectsOf(pis: seq<ProjectImage>, g: ImageId): (ps: seq<ProjectId>)
    ensures forall p :: p in ps <==> exists k :: 0 <= k < |pis| && pis[k].imageId == g && pis[k].projectId == p
    decreases |pis|
  {
    if pis == [] then []
    else
      var rest := ProjectsOf(pis[1..], g);
      assert forall k :: 1 <= k < |pis| ==> pis[k] == pis[1..][k - 1];
      (if pis[0].imageId == g then [pis[0].projectId] else []) + rest
  }

  /** The images registered to entity e, in table order. */
  function Registered(regs: seq<Registration>, e: EntityId): (gs: seq<ImageId>)
    ensures forall g :: g in gs <==> Registration(g, e) in regs
    decreases |regs|
  {
    if regs == [] then []
    else (if regs[0].entityId == e then [regs[0].imageId] else []) + Registered(regs[1..], e)
  }

  /** The two UNIQUE constraints of projectImages, (image_id, project_id)
      and (project_id, project_image_id): within one project, global and
      local ids determine each other. */
  ghost predicate UniqueProjectImages(pis: seq<ProjectImage>) {
    forall i, j :: 0 <= i < |pis| && 0 <= j < |pis| && pis[i].projectId == pis[j].projectId ==>
      (pis[i].imageId == pis[j].imageId <==> pis[i].localId == pis[j].localId)
  }

  /** Under the constraints the two lookups are inverse to each other. */
  lemma LookupsInverse(pis: seq<ProjectImage>, g: ImageId, p: ProjectId, l: LocalId)
    requires UniqueProjectImages(pis)
    ensures LocalOf(pis, g, p) == Some(l) <==> GlobalOf(pis, p, l) == Some(g)
  {
    if LocalOf(pis, g, p) == Some(l) {
      var k :| 0 <= k < |pis| && pis[k] == ProjectImage(g, p, l);
      var g' := GlobalOf(pis, p, l).value;
      var k' :| 0 <= k' < |pis| && pis[k'] == ProjectImage(g', p, l);
      assert pis[k].projectId == pis[k'].projectId;
    }
    if GlobalOf(pis, p, l) == Some(g) {
      var k :| 0 <= k < |pis| && pis[k] == ProjectImage(g, p, l);
      var l' := LocalOf(pis, g, p).value;
      var k' :| 0 <= k' < |pis| && pis[k'] == ProjectImage(g, p, l');
      assert pis[k].projectId == pis[k'].projectId;
    }
  }
}
