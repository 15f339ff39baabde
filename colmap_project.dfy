/** `ColmapProject` of synthmap/models/colmap.py: six optional tables
    filled by one loader each from a COLMAP database, the referential
    validators, and `load_all`, which runs the loaders in a fixed order and
    stops at the first one that raises. A database table is the sequence of
    rows `SELECT *` returns, or None when the query fails. Blobs are byte
    sequences; an empty one stands for both the empty blob and NULL, which
    the loaders' truthiness tests treat alike. Only the camera's `params`
    is read without such a test, so there NULL is kept apart. */
module ColmapProjectModel {
  import opened Wrappers
  import opened BlobCodec

  // ---------------------------------------------------------------------
  // Rows, models, conversion
  // ---------------------------------------------------------------------

  /** A cameras row; `params` is a nullable BLOB, None for NULL. */
  datatype CameraDbRow = CameraDbRow(cameraId: int, model: int, width: int, height: int,
                                     params: Option<seq<Byte>>, priorFocalLength: int)
  /** The first four columns of an images row: id, name, camera id and the
      first pose prior, `prior_qw` (a nullable REAL). */
  datatype ImageDbRow = ImageDbRow(imageId: int, name: string, cameraId: int, priorQw: Option<bv64>)
  /** A keypoints, descriptors or matches row: key, rows, cols, data. */
  datatype DataDbRow = DataDbRow(id: int, rows: int, cols: int, data: seq<Byte>)
  datatype GeometryDbRow = GeometryDbRow(pairId: int, rows: int, cols: int, data: seq<Byte>,
                                         config: int, f: seq<Byte>, e: seq<Byte>, h: seq<Byte>)

  datatype CameraModel = CameraModel(cameraId: int, model: int, width: int, height: int,
                                     params: NdArray, priorFocalLength: int)
  datatype ImageModel = ImageModel(id: int, name: string, cameraId: int)
  /** `ImageKeypoints` / `ImageDescriptors`: `data` is a required array. */
  datatype ImageDataModel = ImageDataModel(imageId: int, rows: int, cols: int, data: NdArray)
  /** `PairMatches`: `data` is optional. */
  datatype PairModel = PairModel(pairId: int, rows: int, cols: int, data: Option<NdArray>)
  /** `PairGeometry`: the model has no `config` field, so the column is
      dropped. */
  datatype GeometryModel = GeometryModel(pairId: int, rows: int, cols: int, data: Option<NdArray>,
                                         f: Option<NdArray>, e: Option<NdArray>, h: Option<NdArray>)

  datatype LoadError =
    | QueryFailed                 // sqlite3 raised (e.g. no such table)
    | Malformed(e: FormatError)   // np.frombuffer or reshape raised
    | PriorsNotAModel             // pydantic: a REAL is not an ImagePrior
    | DataRequired                // pydantic: None for a required ndarray
    | NoBuffer                    // np.frombuffer(None) raises TypeError

  /** `Camera(..., params=np.frombuffer(row[4]), ...)`: the blob is read
      as float64 values whatever its length allows; a NULL blob makes
      `np.frombuffer` raise. */
  function CameraFromRow(row: CameraDbRow): (r: Result<CameraModel, LoadError>)
    ensures row.params.None? ==> r == Err(NoBuffer)
    ensures r.Ok? <==> row.params.Some? && |row.params.value| % 8 == 0
    ensures r.Ok? ==> r.value.cameraId == row.cameraId && r.value.params.shape == Vector(|row.params.value| / 8)
                      && r.value.params.dtype == Float64 && ArrayToBlob(r.value.params) == row.params.value
  {
    match row.params
    case None => Err(NoBuffer)
    case Some(blob) =>
      match BlobToArray(blob, Float64, Flat)
      case Err(e) => Err(Malformed(e))
      case Ok(params) =>
        DecodedArrayDumpsBack(blob, Float64, Flat);
        BytesItemsLength(Float64, blob);
        Ok(CameraModel(row.cameraId, row.model, row.width, row.height, params, row.priorFocalLength))
  }

  /** `Image(id=row[0], name=row[1], camera_id=row[2], priors=row[3])`:
      `priors` expects an ImagePrior, so a stored `prior_qw` fails
      validation and only NULL passes. */
  function ImageFromRow(row: ImageDbRow): (r: Result<ImageModel, LoadError>)
    ensures r.Ok? <==> row.priorQw.None?
    ensures r.Ok? ==> r.value == ImageModel(row.imageId, row.name, row.cameraId)
  {
    if row.priorQw.Some? then Err(PriorsNotAModel)
    else Ok(ImageModel(row.imageId, row.name, row.cameraId))
  }

  /** `data = None; if row[3]: data = frombuffer(row[3], dtype).reshape((rows,
      cols))`, as the keypoint, descriptor, match and geometry loaders do. */
  function DecodeOptional(blob: seq<Byte>, d: DType, rows: int, cols: int): (r: Result<Option<NdArray>, LoadError>)
    ensures |blob| == 0 ==> r == Ok(None)
    ensures r.Ok? && r.value.Some? ==>
              r.value.value.shape.Matrix? && r.value.value.dtype == d && WellFormed(r.value.value)
              && ArrayToBlob(r.value.value) == blob
  {
    if |blob| == 0 then Ok(None)
    else
      match BlobToArray(blob, d, Dims(rows, cols))
      case Err(e) => Err(Malformed(e))
      case Ok(a) =>
        DecodedArrayDumpsBack(blob, d, Dims(rows, cols));
        Ok(Some(a))
  }

  /** With a non-negative shape, a present blob decodes exactly when it
      holds rows * cols elements of the type: nothing is truncated or
      padded. */
  lemma DecodeOptionalOkIff(blob: seq<Byte>, d: DType, rows: nat, cols: nat)
    ensures |blob| > 0 ==> (DecodeOptional(blob, d, rows, cols).Ok? <==> |blob| == rows * cols * ItemSize(d))
  {
    BlobLengthDecides(blob, d, rows, cols);
  }

  /** Keypoints (float32) and descriptors (uint8): the model requires an
      array, so an empty blob fails validation. */
  function ImageDataFromRow(row: DataDbRow, d: DType): (r: Result<ImageDataModel, LoadError>)
    ensures |row.data| == 0 ==> r == Err(DataRequired)
    ensures r.Ok? ==> r.value.imageId == row.id && r.value.data.dtype == d
                      && r.value.data.shape.Matrix? && ArrayToBlob(r.value.data) == row.data
  {
    match DecodeOptional(row.data, d, row.rows, row.cols)
    case Err(e) => Err(e)
    case Ok(None) => Err(DataRequired)
    case Ok(Some(a)) => Ok(ImageDataModel(row.id, row.rows, row.cols, a))
  }

  function KeypointsFromRow(row: DataDbRow): Result<ImageDataModel, LoadError> {
    ImageDataFromRow(row, Float32)
  }

  function DescriptorsFromRow(row: DataDbRow): Result<ImageDataModel, LoadError> {
    ImageDataFromRow(row, UInt8)
  }

  /** Matches (uint32): an empty blob leaves `data` None. */
  function MatchesFromRow(row: DataDbRow): (r: Result<PairModel, LoadError>)
    ensures |row.data| == 0 ==> r == Ok(PairModel(row.id, row.rows, row.cols, None))
    ensures r.Ok? ==> r.value.pairId == row.id
  {
    match DecodeOptional(row.data, UInt32, row.rows, row.cols)
    case Err(e) => Err(e)
    case Ok(data) => Ok(PairModel(row.id, row.rows, row.cols, data))
  }

  /** `parse_blob`: a present F, E or H blob is a 3x3 float64 matrix. */
  function ParseMatrix3(blob: seq<Byte>): (r: Result<Option<NdArray>, LoadError>)
    ensures |blob| == 0 ==> r == Ok(None)
    ensures |blob| > 0 ==> (r.Ok? <==> |blob| == 72)
  {
    DecodeOptionalOkIff(blob, Float64, 3, 3);
    DecodeOptional(blob, Float64, 3, 3)
  }

  /** Two-view geometries: `data` as for matches, then F, E and H. */
  function GeometryFromRow(row: GeometryDbRow): (r: Result<GeometryModel, LoadError>)
    ensures r.Ok? <==> (DecodeOptional(row.data, UInt32, row.rows, row.cols).Ok?
                        && ParseMatrix3(row.f).Ok? && ParseMatrix3(row.e).Ok? && ParseMatrix3(row.h).Ok?)
    ensures r.Ok? ==> r.value.pairId == row.pairId
                      && (r.value.f.None? <==> |row.f| == 0) && (r.value.e.None? <==> |row.e| == 0)
                      && (r.value.h.None? <==> |row.h| == 0)
  {
    match DecodeOptional(row.data, UInt32, row.rows, row.cols)
    case Err(e) => Err(e)
    case Ok(data) =>
      match ParseMatrix3(row.f)
      case Err(e) => Err(e)
      case Ok(f) =>
        match ParseMatrix3(row.e)
        case Err(e) => Err(e)
        case Ok(e) =>
          match ParseMatrix3(row.h)
          case Err(err) => Err(err)
          case Ok(h) => Ok(GeometryModel(row.pairId, row.rows, row.cols, data, f, e, h))
  }

  function CameraKey(row: CameraDbRow): int { row.cameraId }
  function ImageKey(row: ImageDbRow): int { row.imageId }
  function DataKey(row: DataDbRow): int { row.id }
  function GeometryKey(row: GeometryDbRow): int { row.pairId }

  // ---------------------------------------------------------------------
  // The loader loop
  // ---------------------------------------------------------------------

  /** `for row in rows: table[key(row)] = convert(row)`: the table after the
      loop, and the error that ended it early, if any. Rows stored before
      the error stay stored. */
  function Fill<R, M>(table: map<int, M>, rows: seq<R>, key: R -> int, convert: R -> Result<M, LoadError>)
    : (r: (map<int, M>, Option<LoadError>))
    decreases |rows|
  {
    if rows == [] then (table, None)
    else match convert(rows[0])
      case Err(e) => (table, Some(e))
      case Ok(m) => Fill(table[key(rows[0]) := m], rows[1..], key, convert)
  }

  /** The position of the first row that fails to convert, if any. */
  function FirstFailure<R, M>(rows: seq<R>, convert: R -> Result<M, LoadError>): (r: Option<nat>)
    ensures r.Some? ==> r.value < |rows| && convert(rows[r.value]).Err?
                        && forall i :: 0 <= i < r.value ==> convert(rows[i]).Ok?
    ensures r.None? ==> forall i :: 0 <= i < |rows| ==> convert(rows[i]).Ok?
    decreases |rows|
  {
    if rows == [] then None
    else if convert(rows[0]).Err? then Some(0)
    else match FirstFailure(rows[1..], convert)
      case None => None
      case Some(i) => Some(i + 1)
  }

  /** The loop fails exactly at the first row that does not convert, and
      then keeps everything stored before it. */
  lemma {:induction false} FillStopsAtFirstFailure<R, M>(table: map<int, M>, rows: seq<R>, key: R -> int,
                                                         convert: R -> Result<M, LoadError>)
    ensures Fill(table, rows, key, convert).1.Some? <==> FirstFailure(rows, convert).Some?
    ensures FirstFailure(rows, convert).Some? ==>
              var i := FirstFailure(rows, convert).value;
              Fill(table, rows, key, convert) == (Fill(table, rows[..i], key, convert).0, Some(convert(rows[i]).error))
    decreases |rows|
  {
    if rows != [] && convert(rows[0]).Ok? {
      var t := table[key(rows[0]) := convert(rows[0]).value];
      FillStopsAtFirstFailure(t, rows[1..], key, convert);
      if FirstFailure(rows, convert).Some? {
        var i := FirstFailure(rows, convert).value;
        assert rows[..i][1..] == rows[1..][..i - 1];
        assert rows[1..][i - 1] == rows[i];
      }
    }
  }

  /** After a loop that raised nothing, a key is in the table exactly when
      it was there before or some row has it. */
  lemma {:induction false} FillKeys<R, M>(table: map<int, M>, rows: seq<R>, key: R -> int,
                                          convert: R -> Result<M, LoadError>)
    requires Fill(table, rows, key, convert).1.None?
    ensures forall k :: k in Fill(table, rows, key, convert).0 <==>
              (k in table || exists i :: 0 <= i < |rows| && key(rows[i]) == k)
    decreases |rows|
  {
    if rows != [] {
      var t := table[key(rows[0]) := convert(rows[0]).value];
      FillKeys(t, rows[1..], key, convert);
      var r := Fill(table, rows, key, convert).0;
      forall k ensures k in r <==> (k in table || exists i :: 0 <= i < |rows| && key(rows[i]) == k) {
        if exists i :: 0 <= i < |rows| && key(rows[i]) == k {
          var i :| 0 <= i < |rows| && key(rows[i]) == k;
          if i > 0 {
            assert rows[1..][i - 1] == rows[i];
          }
        }
        if k in r && k !in table && k != key(rows[0]) {
          var i :| 0 <= i < |rows[1..]| && key(rows[1..][i]) == k;
          assert rows[i + 1] == rows[1..][i];
        }
      }
    }
  }

  /** After a loop that raised nothing, a key holds the converted last row
      with that key: a later duplicate overwrites. */
  lemma {:induction false} FillLastWins<R, M>(table: map<int, M>, rows: seq<R>, key: R -> int,
                                              convert: R -> Result<M, LoadError>)
    requires Fill(table, rows, key, convert).1.None?
    ensures forall i :: 0 <= i < |rows| && (forall j :: i < j < |rows| ==> key(rows[j]) != key(rows[i])) ==>
              convert(rows[i]).Ok? && key(rows[i]) in Fill(table, rows, key, convert).0
              && Fill(table, rows, key, convert).0[key(rows[i])] == convert(rows[i]).value
    decreases |rows|
  {
    if rows != [] {
      var t := table[key(rows[0]) := convert(rows[0]).value];
      FillLastWins(t, rows[1..], key, convert);
      FillKeys(t, rows[1..], key, convert);
      var r := Fill(table, rows, key, convert).0;
      forall i | 0 <= i < |rows| && (forall j :: i < j < |rows| ==> key(rows[j]) != key(rows[i]))
        ensures convert(rows[i]).Ok? && key(rows[i]) in r && r[key(rows[i])] == convert(rows[i]).value
      {
        if i > 0 {
          assert rows[1..][i - 1] == rows[i];
          forall j | i - 1 < j < |rows[1..]| ensures key(rows[1..][j]) != key(rows[1..][i - 1]) {
            assert rows[1..][j] == rows[j + 1];
          }
        } else {
          forall j | 0 <= j < |rows[1..]| ensures key(rows[1..][j]) != key(rows[0]) {
            assert rows[1..][j] == rows[j + 1];
          }
          FillKeepsOthers(t, rows[1..], key, convert);
        }
      }
    }
  }

  /** After a loop that raised nothing, a key no row has keeps its old
      value. */
  lemma {:induction false} FillKeepsOthers<R, M>(table: map<int, M>, rows: seq<R>, key: R -> int,
                                                 convert: R -> Result<M, LoadError>)
    requires Fill(table, rows, key, convert).1.None?
    ensures forall k :: k in table && (forall i :: 0 <= i < |rows| ==> key(rows[i]) != k) ==>
              k in Fill(table, rows, key, convert).0 && Fill(table, rows, key, convert).0[k] == table[k]
    decreases |rows|
  {
    if rows != [] {
      var t := table[key(rows[0]) := convert(rows[0]).value];
      FillKeepsOthers(t, rows[1..], key, convert);
      var r := Fill(table, rows, key, convert).0;
      forall k | k in table && (forall i :: 0 <= i < |rows| ==> key(rows[i]) != k)
        ensures k in r && r[k] == table[k]
      {
        assert key(rows[0]) != k;
        forall i | 0 <= i < |rows[1..]| ensures key(rows[1..][i]) != k {
          assert rows[1..][i] == rows[i + 1];
        }
      }
    }
  }

  /** `if not table: table = {}` followed by the loop over the query's rows.
      The table is assigned before the query runs, so a failed query still
      leaves an empty table behind. */
  function LoadTable<R, M>(current: Option<map<int, M>>, rows: Option<seq<R>>, key: R -> int,
                           convert: R -> Result<M, LoadError>): (r: (Option<map<int, M>>, Option<LoadError>))
    ensures r.0.Some?
    ensures rows.None? ==> r == (Some(if current.Some? then current.value else map[]), Some(QueryFailed))
  {
    var start := if current.None? || current.value == map[] then map[] else current.value;
    if rows.None? then (Some(start), Some(QueryFailed))
    else
      var (t, e) := Fill(start, rows.value, key, convert);
      (Some(t), e)
  }

  /** The loader's loop, statement by statement, over an in-place table. */
  method FillRows<R, M>(table: map<int, M>, rows: seq<R>, key: R -> int, convert: R -> Result<M, LoadError>)
    returns (t: map<int, M>, err: Option<LoadError>)
    ensures (t, err) == Fill(table, rows, key, convert)
  {
    t := table;
    var i := 0;
    while i < |rows|
      invariant 0 <= i <= |rows|
      invariant Fill(table, rows, key, convert) == Fill(t, rows[i..], key, convert)
    {
      assert rows[i..][1..] == rows[i + 1..];
      match convert(rows[i])
      case Err(e) =>
        return t, Some(e);
      case Ok(m) =>
        t := t[key(rows[i]) := m];
      i := i + 1;
    }
    err := None;
  }

  // ---------------------------------------------------------------------
  // The project
  // ---------------------------------------------------------------------

  /** What `SELECT *` returns for each of the six tables. */
  datatype ColmapDb = ColmapDb(
    cameras: Option<seq<CameraDbRow>>,
    images: Option<seq<ImageDbRow>>,
    keypoints: Option<seq<DataDbRow>>,
    descriptors: Option<seq<DataDbRow>>,
    matches: Option<seq<DataDbRow>>,
    geometries: Option<seq<GeometryDbRow>>)

  /** The six tables of a ColmapProject. */
  datatype Tables = Tables(
    cameras: Option<map<int, CameraModel>>,
    images: Option<map<int, ImageModel>>,
    keypoints: Option<map<int, ImageDataModel>>,
    descriptors: Option<map<int, ImageDataModel>>,
    matches: Option<map<int, PairModel>>,
    geometries: Option<map<int, GeometryModel>>)

  datatype Loader = LoadCameras | LoadImages | LoadKeypoints | LoadDescriptors | LoadMatches | LoadGeometries

  /** The order `load_all` runs the loaders in. */
  function LoadOrder(): seq<Loader> {
    [LoadCameras, LoadImages, LoadKeypoints, LoadDescriptors, LoadMatches, LoadGeometries]
  }

  /** One loader's effect on the tables: it replaces its own table only. */
  function RunLoader(l: Loader, s: Tables, db: ColmapDb): (r: (Tables, Option<LoadError>))
    ensures Present(l, r.0)
  {
    match l
    case LoadCameras =>
      var (t, e) := LoadTable(s.cameras, db.cameras, CameraKey, CameraFromRow); (s.(cameras := t), e)
    case LoadImages =>
      var (t, e) := LoadTable(s.images, db.images, ImageKey, ImageFromRow); (s.(images := t), e)
    case LoadKeypoints =>
      var (t, e) := LoadTable(s.keypoints, db.keypoints, DataKey, KeypointsFromRow); (s.(keypoints := t), e)
    case LoadDescriptors =>
      var (t, e) := LoadTable(s.descriptors, db.descriptors, DataKey, DescriptorsFromRow); (s.(descriptors := t), e)
    case LoadMatches =>
      var (t, e) := LoadTable(s.matches, db.matches, DataKey, MatchesFromRow); (s.(matches := t), e)
    case LoadGeometries =>
      var (t, e) := LoadTable(s.geometries, db.geometries, GeometryKey, GeometryFromRow); (s.(geometries := t), e)
  }

  /** A loader replaces its own table only. */
  lemma RunLoaderFrame(l: Loader, s: Tables, db: ColmapDb, other: Loader)
    requires other != l
    ensures SameTable(other, s, RunLoader(l, s, db).0)
  {
  }

  predicate SameTable(l: Loader, s: Tables, s': Tables) {
    match l
    case LoadCameras => s.cameras == s'.cameras
    case LoadImages => s.images == s'.images
    case LoadKeypoints => s.keypoints == s'.keypoints
    case LoadDescriptors => s.descriptors == s'.descriptors
    case LoadMatches => s.matches == s'.matches
    case LoadGeometries => s.geometries == s'.geometries
  }

  /** The loop of `load_all`: run each loader; on the first exception, stop. */
  function RunLoaders(s: Tables, db: ColmapDb, ls: seq<Loader>): (r: (Tables, Option<LoadError>))
    decreases |ls|
  {
    if ls == [] then (s, None)
    else
      var (prev, e) := RunLoaders(s, db, ls[..|ls| - 1]);
      if e.Some? then (prev, e) else RunLoader(ls[|ls| - 1], prev, db)
  }

  /** While no loader has raised, the next one runs on the tables so far. */
  lemma RunLoadersNext(s: Tables, db: ColmapDb, ls: seq<Loader>, n: nat)
    requires n < |ls| && RunLoaders(s, db, ls[..n]).1.None?
    ensures RunLoaders(s, db, ls[..n + 1]) == RunLoader(ls[n], RunLoaders(s, db, ls[..n]).0, db)
  {
    assert ls[..n + 1][..n] == ls[..n];
  }

  /** Once a loader has raised, the later ones do not run: the result is
      the state the failing loader left, earlier fills included. */
  lemma {:induction false} FailureIsFinal(s: Tables, db: ColmapDb, ls: seq<Loader>, n: nat)
    requires n <= |ls| && RunLoaders(s, db, ls[..n]).1.Some?
    ensures RunLoaders(s, db, ls) == RunLoaders(s, db, ls[..n])
    decreases |ls|
  {
    if n < |ls| {
      assert ls[..|ls| - 1][..n] == ls[..n];
      FailureIsFinal(s, db, ls[..|ls| - 1], n);
    } else {
      assert ls[..n] == ls;
    }
  }

  /** A loader that never ran leaves its table as it was. */
  lemma {:induction false} LoadersTouchOwnTables(s: Tables, db: ColmapDb, ls: seq<Loader>, l: Loader)
    requires l !in ls
    ensures SameTable(l, s, RunLoaders(s, db, ls).0)
    decreases |ls|
  {
    if ls != [] {
      var init := ls[..|ls| - 1];
      assert l !in init;
      LoadersTouchOwnTables(s, db, init, l);
      var (prev, e) := RunLoaders(s, db, init);
      if e.None? {
        RunLoaderFrame(ls[|ls| - 1], prev, db, l);
      }
    }
  }

  /** `load_all` stops at the first failure: if the loaders before position
      n already raised, the loader at n and every later one leave their
      tables untouched. */
  lemma LoadAllStopsAtFirstFailure(s: Tables, db: ColmapDb, n: nat)
    requires n < |LoadOrder()| && RunLoaders(s, db, LoadOrder()[..n]).1.Some?
    ensures forall m :: n <= m < |LoadOrder()| ==> SameTable(LoadOrder()[m], s, RunLoaders(s, db, LoadOrder()).0)
  {
    var order := LoadOrder();
    FailureIsFinal(s, db, order, n);
    LoadOrderRunsEach();
    forall m | n <= m < |order|
      ensures SameTable(order[m], s, RunLoaders(s, db, order).0)
    {
      var before := order[..n];
      forall i | 0 <= i < |before| ensures before[i] != order[m] {
        assert before[i] == order[i];
      }
      LoadersTouchOwnTables(s, db, before, order[m]);
    }
  }

  /** Whether the table a loader fills is present (not None). */
  predicate Present(l: Loader, s: Tables) {
    match l
    case LoadCameras => s.cameras.Some?
    case LoadImages => s.images.Some?
    case LoadKeypoints => s.keypoints.Some?
    case LoadDescriptors => s.descriptors.Some?
    case LoadMatches => s.matches.Some?
    case LoadGeometries => s.geometries.Some?
  }

  /** When no loader raised, every loader that ran left its table present. */
  lemma {:induction false} SuccessFillsTables(s: Tables, db: ColmapDb, ls: seq<Loader>)
    requires RunLoaders(s, db, ls).1.None?
    ensures forall l :: l in ls ==> Present(l, RunLoaders(s, db, ls).0)
    decreases |ls|
  {
    if ls != [] {
      var init, last := ls[..|ls| - 1], ls[|ls| - 1];
      var prev := RunLoaders(s, db, init);
      assert prev.1.None?;
      assert RunLoaders(s, db, ls) == RunLoader(last, prev.0, db);
      SuccessFillsTables(s, db, init);
      forall l | l in ls ensures Present(l, RunLoaders(s, db, ls).0) {
        if l != last {
          assert l in init;
          RunLoaderKeepsPresent(last, prev.0, db, l);
        }
      }
    }
  }

  /** A loader leaves every table that was present still present. */
  lemma RunLoaderKeepsPresent(l: Loader, s: Tables, db: ColmapDb, other: Loader)
    requires Present(other, s)
    ensures Present(other, RunLoader(l, s, db).0)
  {
    if other != l {
      RunLoaderFrame(l, s, db, other);
    }
  }

  /** `load_all` runs every loader exactly once. */
  lemma LoadOrderRunsEach()
    ensures forall l: Loader :: l in LoadOrder()
    ensures forall i, j :: 0 <= i < j < |LoadOrder()| ==> LoadOrder()[i] != LoadOrder()[j]
  {
    var o := LoadOrder();
    forall l: Loader ensures l in o {
      match l
      case LoadCameras => assert o[0] == l;
      case LoadImages => assert o[1] == l;
      case LoadKeypoints => assert o[2] == l;
      case LoadDescriptors => assert o[3] == l;
      case LoadMatches => assert o[4] == l;
      case LoadGeometries => assert o[5] == l;
    }
  }

  /** When `load_all` completes, all six tables are present. */
  lemma LoadAllFillsEveryTable(s: Tables, db: ColmapDb, order: seq<Loader>)
    requires order == LoadOrder()
    requires RunLoaders(s, db, order).1.None?
    ensures forall l: Loader :: Present(l, RunLoaders(s, db, order).0)
  {
    SuccessFillsTables(s, db, order);
    LoadOrderRunsEach();
  }

  // ---------------------------------------------------------------------
  // Validators
  // ---------------------------------------------------------------------

  /** `valid_images_camera_ids`, read against the project's own camera table:
      a non-empty image table passes only when every image's camera id is a
      camera of the project. (As written the validator reads the class
      attribute, not the instance's table.) */
  predicate ValidImagesCameraIds(images: Option<map<int, ImageModel>>, cameras: Option<map<int, CameraModel>>)
  {
    images.None? || images.value == map[]
    || (cameras.Some? && (set k | k in images.value :: images.value[k].cameraId) - cameras.value.Keys == {})
  }

  /** `valid_keypoint_image_ids` and `valid_descriptor_image_ids`: every
      keypoint (descriptor) entry's image id is an image of the project. */
  predicate ValidDataImageIds(data: Option<map<int, ImageDataModel>>, images: Option<map<int, ImageModel>>)
  {
    data.None? || data.value == map[]
    || (images.Some? && (set k | k in data.value :: data.value[k].imageId) - images.value.Keys == {})
  }

  /** How validation at construction ends: `cls.x` on the pydantic class
      raises AttributeError; a failed check raises ValueError. */
  datatype ValidationError = AttributeError | ValueError

  /** The validators of lines 194-214 as written. A validator runs on a
      table passed at construction; a non-empty table reads `cls.cameras`
      or `cls.images`, and a pydantic model class keeps its fields in
      `__fields__`, not as class attributes, so the read raises. Fields are
      validated in declaration order: images, then keypoints, then
      descriptors. */
  function ValidateAsWritten(t: Tables): (r: Option<ValidationError>)
  {
    if t.images.Some? && t.images.value != map[] then Some(AttributeError)
    else if t.keypoints.Some? && t.keypoints.value != map[] then Some(AttributeError)
    else if t.descriptors.Some? && t.descriptors.value != map[] then Some(AttributeError)
    else None
  }

  /** The evident intent: each table is checked against the one it refers
      to, and a dangling reference raises ValueError. */
  function Validate(t: Tables): (r: Option<ValidationError>)
  {
    if !ValidImagesCameraIds(t.images, t.cameras) then Some(ValueError)
    else if !ValidDataImageIds(t.keypoints, t.images) then Some(ValueError)
    else if !ValidDataImageIds(t.descriptors, t.images) then Some(ValueError)
    else None
  }

  /** As written, construction succeeds exactly when none of the three
      checked tables holds a row, whatever the other tables hold. */
  lemma ValidateAsWrittenIff(t: Tables)
    ensures ValidateAsWritten(t).None? <==>
              (t.images.None? || t.images.value == map[])
              && (t.keypoints.None? || t.keypoints.value == map[])
              && (t.descriptors.None? || t.descriptors.value == map[])
    ensures ValidateAsWritten(t).Some? ==> ValidateAsWritten(t).value == AttributeError
  {
  }

  /** The corrected validation accepts a project exactly when every image
      names a known camera and every keypoint and descriptor entry a known
      image. */
  lemma ValidateIff(t: Tables)
    ensures Validate(t).None? <==>
              ValidImagesCameraIds(t.images, t.cameras)
              && ValidDataImageIds(t.keypoints, t.images)
              && ValidDataImageIds(t.descriptors, t.images)
    ensures Validate(t).Some? ==> Validate(t).value == ValueError
  {
  }

  /** A consistent project, one camera and one image on it, is refused as
      written and accepted by the corrected validation. */
  lemma ConsistentProjectRefused(cam: CameraModel, img: ImageModel)
    requires img.cameraId == cam.cameraId
    ensures var t := Tables(Some(map[cam.cameraId := cam]), Some(map[img.id := img]), None, None, None, None);
            ValidateAsWritten(t) == Some(AttributeError) && Validate(t) == None
  {
    var t := Tables(Some(map[cam.cameraId := cam]), Some(map[img.id := img]), None, None, None, None);
    assert img.id in t.images.value;
    assert (set k | k in t.images.value :: t.images.value[k].cameraId) == {cam.cameraId};
  }

  /** The camera check, element by element: it rejects exactly when some
      image names a camera the project does not have. */
  lemma ImagesCameraIdsIff(images: Option<map<int, ImageModel>>, cameras: Option<map<int, CameraModel>>)
    requires images.Some? && images.value != map[] && cameras.Some?
    ensures !ValidImagesCameraIds(images, cameras) <==>
              exists k :: k in images.value && images.value[k].cameraId !in cameras.value
  {
    var ids := set k | k in images.value :: images.value[k].cameraId;
    if exists k :: k in images.value && images.value[k].cameraId !in cameras.value {
      var k :| k in images.value && images.value[k].cameraId !in cameras.value;
      assert images.value[k].cameraId in ids - cameras.value.Keys;
    }
  }

  /** The image check, element by element. */
  lemma DataImageIdsIff(data: Option<map<int, ImageDataModel>>, images: Option<map<int, ImageModel>>)
    requires data.Some? && data.value != map[] && images.Some?
    ensures !ValidDataImageIds(data, images) <==>
              exists k :: k in data.value && data.value[k].imageId !in images.value
  {
    var ids := set k | k in data.value :: data.value[k].imageId;
    if exists k :: k in data.value && data.value[k].imageId !in images.value {
      var k :| k in data.value && data.value[k].imageId !in images.value;
      assert data.value[k].imageId in ids - images.value.Keys;
    }
  }

  /** The project object: its six tables, updated in place by the loaders. */
  class ColmapProject {
    var cameras: Option<map<int, CameraModel>>
    var images: Option<map<int, ImageModel>>
    var keypoints: Option<map<int, ImageDataModel>>
    var descriptors: Option<map<int, ImageDataModel>>
    var matches: Option<map<int, PairModel>>
    var geometries: Option<map<int, GeometryModel>>

    function State(): Tables
      reads this
    {
      Tables(cameras, images, keypoints, descriptors, matches, geometries)
    }

    /** A project constructed with no tables. */
    constructor ()
      ensures State() == Tables(None, None, None, None, None, None)
    {
      cameras, images, keypoints := None, None, None;
      descriptors, matches, geometries := None, None, None;
    }

    method LoadCamerasFrom(db: ColmapDb) returns (err: Option<LoadError>)
      modifies this
      ensures (State(), err) == RunLoader(LoadCameras, old(State()), db)
    {
      if cameras.None? || cameras.value == map[] {
        cameras := Some(map[]);
      }
      if db.cameras.None? {
        return Some(QueryFailed);
      }
      var t;
      t, err := FillRows(cameras.value, db.cameras.value, CameraKey, CameraFromRow);
      cameras := Some(t);
    }

    method LoadImagesFrom(db: ColmapDb) returns (err: Option<LoadError>)
      modifies this
      ensures (State(), err) == RunLoader(LoadImages, old(State()), db)
    {
      if images.None? || images.value == map[] {
        images := Some(map[]);
      }
      if db.images.None? {
        return Some(QueryFailed);
      }
      var t;
      t, err := FillRows(images.value, db.images.value, ImageKey, ImageFromRow);
      images := Some(t);
    }

    method LoadKeypointsFrom(db: ColmapDb) returns (err: Option<LoadError>)
      modifies this
      ensures (State(), err) == RunLoader(LoadKeypoints, old(State()), db)
    {
      if keypoints.None? || keypoints.value == map[] {
        keypoints := Some(map[]);
      }
      if db.keypoints.None? {
        return Some(QueryFailed);
      }
      var t;
      t, err := FillRows(keypoints.value, db.keypoints.value, DataKey, KeypointsFromRow);
      keypoints := Some(t);
    }

    method LoadDescriptorsFrom(db: ColmapDb) returns (err: Option<LoadError>)
      modifies this
      ensures (State(), err) == RunLoader(LoadDescriptors, old(State()), db)
    {
      if descriptors.None? || descriptors.value == map[] {
        descriptors := Some(map[]);
      }
      if db.descriptors.None? {
        return Some(QueryFailed);
      }
      var t;
      t, err := FillRows(descriptors.value, db.descriptors.value, DataKey, DescriptorsFromRow);
      descriptors := Some(t);
    }

    method LoadMatchesFrom(db: ColmapDb) returns (err: Option<LoadError>)
      modifies this
      ensures (State(), err) == RunLoader(LoadMatches, old(State()), db)
    {
      if matches.None? || matches.value == map[] {
        matches := Some(map[]);
      }
      if db.matches.None? {
        return Some(QueryFailed);
      }
      var t;
      t, err := FillRows(matches.value, db.matches.value, DataKey, MatchesFromRow);
      matches := Some(t);
    }

    method LoadGeometriesFrom(db: ColmapDb) returns (err: Option<LoadError>)
      modifies this
      ensures (State(), err) == RunLoader(LoadGeometries, old(State()), db)
    {
      if geometries.None? || geometries.value == map[] {
        geometries := Some(map[]);
      }
      if db.geometries.None? {
        return Some(QueryFailed);
      }
      var t;
      t, err := FillRows(geometries.value, db.geometries.value, GeometryKey, GeometryFromRow);
      geometries := Some(t);
    }

    /** One entry of the list `load_all` walks: the bound loader method. */
    method Load(l: Loader, db: ColmapDb) returns (err: Option<LoadError>)
      modifies this
      ensures (State(), err) == RunLoader(l, old(State()), db)
    {
      match l
      case LoadCameras => err := LoadCamerasFrom(db);
      case LoadImages => err := LoadImagesFrom(db);
      case LoadKeypoints => err := LoadKeypointsFrom(db);
      case LoadDescriptors => err := LoadDescriptorsFrom(db);
      case LoadMatches => err := LoadMatchesFrom(db);
      case LoadGeometries => err := LoadGeometriesFrom(db);
    }

    /** `load_all`: the six loaders in order, stopping at the first that
        raises (the exception is printed, not propagated). */
    method LoadAll(db: ColmapDb) returns (err: Option<LoadError>)
      modifies this
      ensures (State(), err) == RunLoaders(old(State()), db, LoadOrder())
    {
      ghost var s0 := State();
      var order := LoadOrder();
      err := None;
      var i := 0;
      assert order[..0] == [];
      while i < |order|
        invariant 0 <= i <= |order|
        invariant err.None? && (State(), err) == RunLoaders(s0, db, order[..i])
      {
        RunLoadersNext(s0, db, order, i);
        err := Load(order[i], db);
        if err.Some? {
          FailureIsFinal(s0, db, order, i + 1);
          return;
        }
        i := i + 1;
      }
      assert order[..i] == order;
    }
  }
}
