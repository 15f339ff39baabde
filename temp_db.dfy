/** The in-memory COLMAP database `create_entity_project` fills
    (synthmap/projectManager/colmapParser.py:440-533), with the key
    constraints of the schema `init_db` creates (lines 378-384): an insert
    that would break one raises IntegrityError and changes nothing, and the
    tables keep what earlier statements inserted. Foreign keys are not
    enforced (SQLite's default), so they are not modelled. */
module TempDatabase {
  import opened Wrappers
  import opened ColmapCatalog

  /** `CHECK(image_id >= 0 and image_id < 2147483647)` on images. */
  const IMAGE_ID_BOUND: int := 2147483647

  datatype OutImage = OutImage(name: string, cameraId: int, priors: seq<Option<bv64>>)

  /** The six tables, each by its primary key. */
  datatype Tables = Tables(
    images: map<int, OutImage>,
    cameras: map<int, Camera>,
    keypoints: map<int, Blob>,
    descriptors: map<int, Blob>,
    matches: map<int, Blob>,
    geometries: map<int, Geometry>)

  function EmptyTables(): Tables {
    Tables(map[], map[], map[], map[], map[], map[])
  }

  predicate NameTaken(images: map<int, OutImage>, name: string) {
    exists id :: id in images && images[id].name == name
  }

  /** An images row can be inserted when its id is new (PRIMARY KEY), its
      name is new (UNIQUE) and its id passes the CHECK. */
  predicate ImageInsertable(t: Tables, id: int, name: string) {
    id !in t.images && !NameTaken(t.images, name) && 0 <= id < IMAGE_ID_BOUND
  }

  /** The schema's constraints hold: every image name appears once and every
      image id passes the CHECK. */
  ghost predicate Constrained(t: Tables) {
    (forall a, b :: a in t.images && b in t.images && a != b ==> t.images[a].name != t.images[b].name)
    && (forall a :: a in t.images ==> 0 <= a < IMAGE_ID_BOUND)
  }

  /** The database connection, updated statement by statement. */
  class TempDb {
    var images: map<int, OutImage>
    var cameras: map<int, Camera>
    var keypoints: map<int, Blob>
    var descriptors: map<int, Blob>
    var matches: map<int, Blob>
    var geometries: map<int, Geometry>

    function Contents(): Tables
      reads this
    {
      Tables(images, cameras, keypoints, descriptors, matches, geometries)
    }

    /** `init_db`: the empty tables. */
    constructor ()
      ensures Contents() == EmptyTables()
    {
      images, cameras, keypoints, descriptors := map[], map[], map[], map[];
      matches, geometries := map[], map[];
    }

    method InsertImage(id: int, name: string, priors: seq<Option<bv64>>) returns (ok: bool)
      modifies this
      ensures ok == ImageInsertable(old(Contents()), id, name)
      ensures Contents() == if ok then old(Contents()).(images := old(images)[id := OutImage(name, id, priors)])
                            else old(Contents())
    {
      ok := id !in images && !NameTaken(images, name) && 0 <= id < IMAGE_ID_BOUND;
      if ok {
        images := images[id := OutImage(name, id, priors)];
      }
    }

    method InsertCamera(id: int, camera: Camera) returns (ok: bool)
      modifies this
      ensures ok == (id !in old(cameras))
      ensures Contents() == if ok then old(Contents()).(cameras := old(cameras)[id := camera]) else old(Contents())
    {
      ok := id !in cameras;
      if ok {
        cameras := cameras[id := camera];
      }
    }

    method InsertKeypoints(id: int, blob: Blob) returns (ok: bool)
      modifies this
      ensures ok == (id !in old(keypoints))
      ensures Contents() == if ok then old(Contents()).(keypoints := old(keypoints)[id := blob]) else old(Contents())
    {
      ok := id !in keypoints;
      if ok {
        keypoints := keypoints[id := blob];
      }
    }

    method InsertDescriptors(id: int, blob: Blob) returns (ok: bool)
      modifies this
      ensures ok == (id !in old(descriptors))
      ensures Contents() == if ok then old(Contents()).(descriptors := old(descriptors)[id := blob]) else old(Contents())
    {
      ok := id !in descriptors;
      if ok {
        descriptors := descriptors[id := blob];
      }
    }

    method InsertMatches(pairId: int, blob: Blob) returns (ok: bool)
      modifies this
      ensures ok == (pairId !in old(matches))
      ensures Contents() == if ok then old(Contents()).(matches := old(matches)[pairId := blob]) else old(Contents())
    {
      ok := pairId !in matches;
      if ok {
        matches := matches[pairId := blob];
      }
    }

    method InsertGeometry(pairId: int, geometry: Geometry) returns (ok: bool)
      modifies this
      ensures ok == (pairId !in old(geometries))
      ensures Contents() == if ok then old(Contents()).(geometries := old(geometries)[pairId := geometry]) else old(Contents())
    {
      ok := pairId !in geometries;
      if ok {
        geometries := geometries[pairId := geometry];
      }
    }
  }

  /** An insert the constraints admit keeps them. */
  lemma ImageInsertKeepsConstraints(t: Tables, id: int, name: string, priors: seq<Option<bv64>>)
    requires Constrained(t) && ImageInsertable(t, id, name)
    ensures Constrained(t.(images := t.images[id := OutImage(name, id, priors)]))
  {
  }
}
