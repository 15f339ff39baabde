/** AliceVision project files (synthmap/projectManager/aliceParser.py):
    folder entries of an `.sfm` document are relative paths such as
    `../../MeshroomCache/...`; `resolve_folders` re-roots them at the
    project file's grandparent directory, and `parse_sfm` returns the
    document's top-level object with those entries resolved and two keys
    of its own added. Paths follow POSIX `pathlib` and `os.path.join`. */
module AliceParser {
  import opened Wrappers

  // ---------------------------------------------------------------------
  // Path components
  // ---------------------------------------------------------------------

  /** `s.split("/")`: the pieces between slashes, empty ones included. */
  function Segments(s: string): (segs: seq<string>)
    ensures |segs| >= 1
    decreases |s|
  {
    if s == [] then [[]]
    else
      var r := Segments(s[1..]);
      if s[0] == '/' then [[]] + r
      else [[s[0]] + r[0]] + r[1..]
  }

  predicate NoSlash(s: string) {
    forall k :: 0 <= k < |s| ==> s[k] != '/'
  }

  /** `"/".join(segs)`. */
  function Join(segs: seq<string>): string
    decreases |segs|
  {
    if segs == [] then []
    else if |segs| == 1 then segs[0]
    else segs[0] + "/" + Join(segs[1..])
  }

  /** Splitting at the slashes and joining back gives the path again. */
  lemma {:induction false} JoinSegments(s: string)
    ensures Join(Segments(s)) == s
    decreases |s|
  {
    if s != [] {
      var r := Segments(s[1..]);
      JoinSegments(s[1..]);
      if s[0] == '/' {
        assert ([[]] + r)[1..] == r;
        assert s == "/" + s[1..];
      } else if |r| == 1 {
        assert s == [s[0]] + s[1..];
      } else {
        assert ([[s[0]] + r[0]] + r[1..])[1..] == r[1..];
        assert s == [s[0]] + s[1..];
      }
    }
  }

  /** The segments after putting `c` in front of text whose segments are `r`. */
  function ConsSeg(c: char, r: seq<string>): (out: seq<string>)
    requires |r| >= 1
    ensures |out| >= 1
  {
    if c == '/' then [[]] + r else [[c] + r[0]] + r[1..]
  }

  /** One character in front: a slash opens a new segment, anything else
      extends the first one. */
  lemma SegmentsCons(c: char, rest: string)
    ensures Segments([c] + rest) == ConsSeg(c, Segments(rest))
  {
    assert ([c] + rest)[1..] == rest;
  }

  /** Putting a character in front commutes with appending more segments. */
  lemma ConsSegAppend(c: char, ra: seq<string>, rb: seq<string>)
    requires |ra| >= 1
    ensures ConsSeg(c, ra) + rb == ConsSeg(c, ra + rb)
  {
    if c != '/' {
      assert (ra + rb)[1..] == ra[1..] + rb;
    }
  }

  /** Segments of a path with one more slash in it: the two sides' segments. */
  lemma {:induction false} SegmentsAroundSlash(a: string, b: string)
    ensures Segments(a + "/" + b) == Segments(a) + Segments(b)
    decreases |a|
  {
    if a == [] {
      assert a + "/" + b == ['/'] + b;
      SegmentsCons('/', b);
    } else {
      var t := a[1..] + "/" + b;
      assert a + "/" + b == [a[0]] + t;
      assert a == [a[0]] + a[1..];
      SegmentsCons(a[0], t);
      SegmentsCons(a[0], a[1..]);
      SegmentsAroundSlash(a[1..], b);
      ConsSegAppend(a[0], Segments(a[1..]), Segments(b));
    }
  }

  lemma {:induction false} SegmentsOfPlain(a: string)
    requires NoSlash(a)
    ensures Segments(a) == [a]
    decreases |a|
  {
    if a != [] {
      SegmentsOfPlain(a[1..]);
      assert a == [a[0]] + a[1..];
    }
  }

  /** Joining segments without slashes and splitting again gives them back. */
  lemma {:induction false} SegmentsJoin(segs: seq<string>)
    requires |segs| >= 1
    requires forall i :: 0 <= i < |segs| ==> NoSlash(segs[i])
    ensures Segments(Join(segs)) == segs
    decreases |segs|
  {
    if |segs| == 1 {
      SegmentsOfPlain(segs[0]);
    } else {
      SegmentsJoin(segs[1..]);
      SegmentsAroundSlash(segs[0], Join(segs[1..]));
      SegmentsOfPlain(segs[0]);
      assert segs == [segs[0]] + segs[1..];
    }
  }

  /** A component `pathlib` keeps: empty and `.` pieces are dropped. */
  predicate IsPart(seg: string) {
    seg != [] && seg != "."
  }

  function Keep(segs: seq<string>): (parts: seq<string>)
    ensures forall i :: 0 <= i < |parts| ==> IsPart(parts[i])
    decreases |segs|
  {
    if segs == [] then []
    else if IsPart(segs[0]) then [segs[0]] + Keep(segs[1..])
    else Keep(segs[1..])
  }

  lemma {:induction false} KeepAppend(x: seq<string>, y: seq<string>)
    ensures Keep(x + y) == Keep(x) + Keep(y)
    decreases |x|
  {
    if x == [] {
      assert x + y == y;
    } else {
      assert (x + y)[0] == x[0];
      assert (x + y)[1..] == x[1..] + y;
      KeepAppend(x[1..], y);
    }
  }

  lemma {:induction false} KeepParts(segs: seq<string>)
    requires forall i :: 0 <= i < |segs| ==> IsPart(segs[i])
    ensures Keep(segs) == segs
    decreases |segs|
  {
    if segs != [] {
      KeepParts(segs[1..]);
      assert segs == [segs[0]] + segs[1..];
    }
  }

  /** Only empty and `.` pieces: nothing is kept. */
  lemma {:induction false} KeepNone(segs: seq<string>)
    requires forall i :: 0 <= i < |segs| ==> !IsPart(segs[i])
    ensures Keep(segs) == []
    decreases |segs|
  {
    if segs != [] {
      KeepNone(segs[1..]);
    }
  }

  predicate IsAbsolute(path: string) {
    path != [] && path[0] == '/'
  }

  /** `Path(path).parts`, without the root. */
  function Parts(path: string): (parts: seq<string>)
    ensures forall i :: 0 <= i < |parts| ==> IsPart(parts[i]) && NoSlash(parts[i])
  {
    SegmentsHaveNoSlash(path);
    var segs := Segments(path);
    KeepSubset(segs);
    Keep(segs)
  }

  lemma {:induction false} SegmentsHaveNoSlash(s: string)
    ensures forall i :: 0 <= i < |Segments(s)| ==> NoSlash(Segments(s)[i])
    decreases |s|
  {
    if s != [] {
      SegmentsHaveNoSlash(s[1..]);
      var r := Segments(s[1..]);
      if s[0] != '/' {
        assert NoSlash(r[0]);
        assert NoSlash([s[0]] + r[0]) by {
          forall k | 0 <= k < |[s[0]] + r[0]| ensures ([s[0]] + r[0])[k] != '/' {
            if k > 0 {
              assert ([s[0]] + r[0])[k] == r[0][k - 1];
            }
          }
        }
      }
    }
  }

  lemma {:induction false} KeepSubset(segs: seq<string>)
    ensures forall i :: 0 <= i < |Keep(segs)| ==> Keep(segs)[i] in segs
    decreases |segs|
  {
    if segs != [] {
      KeepSubset(segs[1..]);
    }
  }

  /** `str(list(Path(path).parents)[1])`: the grandparent directory, with
      the root kept; a relative path whose grandparent has no components
      is `.`. Paths with fewer than two components have no grandparent. */
  function Grandparent(path: string): (r: Result<string, AliceError>)
    ensures r.Ok? <==> |Parts(path)| >= 2
  {
    var parts := Parts(path);
    if |parts| < 2 then Err(IndexError)
    else
      var kept := parts[..|parts| - 2];
      if IsAbsolute(path) then Ok("/" + Join(kept))
      else if kept == [] then Ok(".")
      else Ok(Join(kept))
  }

  /** The grandparent is the path with its last two components removed,
      absolute exactly when the path is. */
  lemma GrandparentParts(path: string)
    requires Grandparent(path).Ok?
    ensures Parts(Grandparent(path).value) == Parts(path)[..|Parts(path)| - 2]
    ensures IsAbsolute(Grandparent(path).value) <==> IsAbsolute(path)
  {
    var parts := Parts(path);
    var kept := parts[..|parts| - 2];
    var g := Grandparent(path).value;
    if kept == [] {
      if IsAbsolute(path) {
        assert g == "/" + [];
        SegmentsAroundSlash([], []);
        assert Segments(g) == [[], []];
        KeepNone(Segments(g));
      } else {
        SegmentsOfPlain(g);
      }
    } else {
      SegmentsJoin(kept);
      KeepParts(kept);
      if IsAbsolute(path) {
        SegmentsAroundSlash([], Join(kept));
        assert g == [] + "/" + Join(kept);
        KeepAppend([[]], kept);
      } else {
        assert Join(kept) != [] && Join(kept)[0] != '/' by {
          JoinStartsWithFirst(kept);
        }
      }
    }
  }

  lemma {:induction false} JoinStartsWithFirst(segs: seq<string>)
    requires |segs| >= 1
    ensures |Join(segs)| >= |segs[0]| && Join(segs)[..|segs[0]|] == segs[0]
    decreases |segs|
  {
    if |segs| > 1 {
      assert (segs[0] + "/" + Join(segs[1..]))[..|segs[0]|] == segs[0];
    }
  }

  /** POSIX `os.path.join(a, b)`: an absolute `b` replaces `a`; otherwise
      a slash is put between them unless `a` is empty or ends in one. */
  function PathJoin(a: string, b: string): string {
    if IsAbsolute(b) then b
    else if a == [] || a[|a| - 1] == '/' then a + b
    else a + "/" + b
  }

  /** `folder_path[6:]`: Python slicing past the end gives "". */
  function DropSix(folder: string): (rest: string)
    ensures |folder| >= 6 ==> folder == folder[..6] + rest
    ensures |folder| <= 6 ==> rest == []
  {
    if |folder| <= 6 then [] else folder[6..]
  }

  datatype AliceError = IndexError | KeyError | TypeError

  /** `resolve_folders`: the folder path minus its first six characters,
      joined onto the project file's grandparent directory. */
  function ResolveFolders(projectPath: string, folderPath: string): (r: Result<string, AliceError>)
    ensures r.Ok? <==> |Parts(projectPath)| >= 2
  {
    match Grandparent(projectPath)
    case Err(e) => Err(e)
    case Ok(g) => Ok(PathJoin(g, DropSix(folderPath)))
  }

  /** A relative folder (after its first six characters, the `../../` of an
      AliceVision cache path) lands under the grandparent: its components
      are the project path's components without the last two, followed by
      the folder's own; an absolute one is taken as it is. */
  lemma ResolveFoldersComponents(projectPath: string, folderPath: string)
    requires |Parts(projectPath)| >= 2
    ensures var rest := DropSix(folderPath);
            var resolved := ResolveFolders(projectPath, folderPath).value;
            (IsAbsolute(rest) ==> resolved == rest)
            && (!IsAbsolute(rest) ==>
                  Parts(resolved) == Parts(projectPath)[..|Parts(projectPath)| - 2] + Parts(rest)
                  && (IsAbsolute(resolved) <==> IsAbsolute(projectPath)))
  {
    var rest := DropSix(folderPath);
    GrandparentParts(projectPath);
    if !IsAbsolute(rest) {
      GrandparentSlash(projectPath);
      JoinRelative(Grandparent(projectPath).value, rest);
    }
  }

  /** Only the root grandparent ends in a slash. */
  lemma GrandparentSlash(projectPath: string)
    requires |Parts(projectPath)| >= 2
    ensures var g := Grandparent(projectPath).value;
            |g| >= 1 && (g[|g| - 1] == '/' ==> g == "/")
  {
    var g := Grandparent(projectPath).value;
    var kept := Parts(projectPath)[..|Parts(projectPath)| - 2];
    if IsAbsolute(projectPath) {
      if kept != [] {
        JoinEndsWithLast(kept);
      }
    } else if kept != [] {
      JoinEndsWithLast(kept);
    }
  }

  /** Joining a relative path onto a directory that ends in a slash only
      when it is the root adds the relative path's components. */
  lemma JoinRelative(g: string, rest: string)
    requires !IsAbsolute(rest) && |g| >= 1 && (g[|g| - 1] == '/' ==> g == "/")
    ensures Parts(PathJoin(g, rest)) == Parts(g) + Parts(rest)
    ensures IsAbsolute(PathJoin(g, rest)) <==> IsAbsolute(g)
  {
    if g[|g| - 1] == '/' {
      SegmentsAroundSlash([], rest);
      assert g + rest == [] + "/" + rest;
      KeepAppend([[]], Segments(rest));
    } else {
      SegmentsAroundSlash(g, rest);
      KeepAppend(Segments(g), Segments(rest));
    }
  }

  lemma {:induction false} JoinEndsWithLast(segs: seq<string>)
    requires |segs| >= 1
    requires forall i :: 0 <= i < |segs| ==> IsPart(segs[i]) && NoSlash(segs[i])
    ensures |Join(segs)| >= 1 && Join(segs)[|Join(segs)| - 1] != '/'
    ensures |segs| > 1 || Join(segs) == segs[0]
    decreases |segs|
  {
    if |segs| > 1 {
      JoinEndsWithLast(segs[1..]);
      var t := Join(segs[1..]);
      assert (segs[0] + "/" + t)[|segs[0] + "/" + t| - 1] == t[|t| - 1];
    } else {
      assert IsPart(segs[0]) && NoSlash(segs[0]);
    }
  }

  // ---------------------------------------------------------------------
  // parse_sfm
  // ---------------------------------------------------------------------

  /** A JSON value; numbers, booleans and null are kept as their text. */
  datatype Json =
    | JString(s: string)
    | JList(items: seq<Json>)
    | JObject(fields: map<string, Json>)
    | JAtom(text: string)

  /** One folder entry: a list is replaced by its resolved first element;
      anything else is left as it is. Taking the first element of an empty
      list fails first; then `resolve_folders` looks up the grandparent
      before it slices the folder, so a short project path fails before a
      folder that is not a string does. */
  function ResolveEntry(filePath: string, value: Json): (r: Result<Json, AliceError>)
    ensures !value.JList? ==> r == Ok(value)
    ensures value.JList? && value.items == [] ==> r == Err(IndexError)
    ensures value.JList? && value.items != [] && |Parts(filePath)| < 2 ==> r == Err(IndexError)
    ensures value.JList? && value.items != [] && |Parts(filePath)| >= 2 ==>
              (r.Ok? <==> value.items[0].JString?)
    ensures value.JList? && value.items != [] && |Parts(filePath)| >= 2 && !value.items[0].JString? ==>
              r == Err(TypeError)
    ensures r.Ok? && value.JList? ==> r.value.JString?
  {
    if !value.JList? then Ok(value)
    else if value.items == [] then Err(IndexError)
    else match Grandparent(filePath)
      case Err(e) => Err(e)
      case Ok(_) =>
        match value.items[0]
        case JString(folder) =>
          (match ResolveFolders(filePath, folder)
           case Err(e) => Err(e)
           case Ok(p) => Ok(JString(p)))
        case _ => Err(TypeError)
  }

  /** `{**file_data, **data}`: the call's own two keys win. */
  function WithOwnKeys(filePath: string, fields: map<string, Json>): map<string, Json> {
    fields + map["file_path" := JString(filePath), "project_type" := JString("alice")]
  }

  /** `parse_sfm` on the document read from `filePath`. */
  function Sfm(filePath: string, document: Json): (r: Result<map<string, Json>, AliceError>)
  {
    if !document.JObject? then Err(TypeError)
    else
      var fields := document.fields;
      if "featuresFolders" !in fields then Err(KeyError)
      else match ResolveEntry(filePath, fields["featuresFolders"])
        case Err(e) => Err(e)
        case Ok(features) =>
          var fields1 := fields["featuresFolders" := features];
          if "matchesFolders" !in fields1 then Err(KeyError)
          else match ResolveEntry(filePath, fields1["matchesFolders"])
            case Err(e) => Err(e)
            case Ok(matches) => Ok(WithOwnKeys(filePath, fields1["matchesFolders" := matches]))
  }

  /** What `parse_sfm` returns: every key of the document, the two folder
      entries resolved when they are lists and untouched otherwise, and
      `file_path` and `project_type` taken from the call. It fails exactly
      when the document is not an object, lacks a folder key, or a folder
      entry does not resolve. */
  lemma SfmResult(filePath: string, document: Json)
    ensures Sfm(filePath, document).Ok? <==>
              document.JObject? && "featuresFolders" in document.fields && "matchesFolders" in document.fields
              && ResolveEntry(filePath, document.fields["featuresFolders"]).Ok?
              && ResolveEntry(filePath, document.fields["matchesFolders"]).Ok?
    ensures Sfm(filePath, document).Ok? ==>
              var r := Sfm(filePath, document).value;
              r.Keys == document.fields.Keys + {"file_path", "project_type"}
              && r["file_path"] == JString(filePath) && r["project_type"] == JString("alice")
              && r["featuresFolders"] == ResolveEntry(filePath, document.fields["featuresFolders"]).value
              && r["matchesFolders"] == ResolveEntry(filePath, document.fields["matchesFolders"]).value
              && (forall k :: k in document.fields && k !in {"file_path", "project_type", "featuresFolders", "matchesFolders"}
                    ==> r[k] == document.fields[k])
  {
  }

  /** A list-valued entry becomes the resolved path of its first element; a
      non-list entry is kept; a list entry under a project path too short
      to have a grandparent raises IndexError whatever its first element. */
  lemma ResolveEntryCases(filePath: string, value: Json)
    ensures !value.JList? ==> ResolveEntry(filePath, value) == Ok(value)
    ensures value.JList? && value.items != [] && value.items[0].JString? && |Parts(filePath)| >= 2 ==>
              ResolveEntry(filePath, value) == Ok(JString(ResolveFolders(filePath, value.items[0].s).value))
    ensures value.JList? && value.items == [] ==> ResolveEntry(filePath, value) == Err(IndexError)
    ensures value.JList? && value.items != [] && !value.items[0].JString? ==>
              ResolveEntry(filePath, value) == (if |Parts(filePath)| < 2 then Err(IndexError) else Err(TypeError))
  {
  }

  /** A bare file name such as `scene.sfm` has no grandparent:
      `resolve_folders` raises IndexError before it would slice a first
      folder that is not a string (a number, say). */
  lemma ShortPathBeforeFolderType(fileName: string, folder: Json)
    requires NoSlash(fileName)
    requires !folder.JString?
    ensures |Parts(fileName)| <= 1
    ensures ResolveEntry(fileName, JList([folder])) == Err(IndexError)
  {
    SegmentsOfPlain(fileName);
    assert Keep([fileName][1..]) == [] by {
      assert [fileName][1..] == [];
    }
    assert |Keep([fileName])| <= 1;
  }

  /** `parse_sfm`: the document's fields are overwritten in place and then
      merged under the call's own keys. */
  method ParseSfm(filePath: string, document: Json) returns (r: Result<map<string, Json>, AliceError>)
    ensures r == Sfm(filePath, document)
  {
    if !document.JObject? {
      return Err(TypeError);
    }
    var fileData := document.fields;
    if "featuresFolders" !in fileData {
      return Err(KeyError);
    }
    if fileData["featuresFolders"].JList? {
      var resolved := ResolveEntry(filePath, fileData["featuresFolders"]);
      if resolved.Err? {
        return Err(resolved.error);
      }
      fileData := fileData["featuresFolders" := resolved.value];
    } else {
      assert fileData["featuresFolders" := fileData["featuresFolders"]] == fileData;
    }
    if "matchesFolders" !in fileData {
      return Err(KeyError);
    }
    if fileData["matchesFolders"].JList? {
      var resolved := ResolveEntry(filePath, fileData["matchesFolders"]);
      if resolved.Err? {
        return Err(resolved.error);
      }
      fileData := fileData["matchesFolders" := resolved.value];
    } else {
      assert fileData["matchesFolders" := fileData["matchesFolders"]] == fileData;
    }
    r := Ok(WithOwnKeys(filePath, fileData));
  }
}
