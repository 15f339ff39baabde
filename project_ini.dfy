/** The two line-oriented routines of
    synthmap/projectManager/colmapParser.py that work on a COLMAP
    `project.ini`: `get_proj_dirs`, which reads the directories out of the
    first lines, and the line loop of `update_project_paths`, which rewrites
    them. The file is given as its list of lines (as `readlines()` returns
    them); opening, backing up and writing the file are not modelled. */
module ProjectIni {
  import opened Wrappers
  import opened Text

  /** The dictionary `get_proj_dirs` returns. */
  type ProjectDirs = map<string, string>

  /** One line of the reading loop: a `database_path` line stores its
      stripped value under "db_path", an `image_path` line stores its
      stripped value under the (unstripped) text before the `=`; a matching
      line without exactly one `=` raises ValueError (None). */
  function ReadLine(data: ProjectDirs, line: string): Option<ProjectDirs>
  {
    if StartsWith(line, "database_path") then
      match SplitPair(line, '=')
      case None => None
      case Some((k, v)) => Some(data["db_path" := Strip(v)])
    else if StartsWith(line, "image_path") then
      match SplitPair(line, '=')
      case None => None
      case Some((k, v)) => Some(data[k := Strip(v)])
    else Some(data)
  }

  /** The reading loop over a run of lines, first line first. */
  function ReadLines(data: ProjectDirs, lines: seq<string>): Option<ProjectDirs>
    decreases |lines|
  {
    if lines == [] then Some(data)
    else
      match ReadLines(data, lines[..|lines| - 1])
      case None => None
      case Some(d) => ReadLine(d, lines[|lines| - 1])
  }

  function InitialDirs(projPath: string): ProjectDirs {
    map["project_file" := projPath, "project_type" := "colmap"]
  }

  /** The number of lines `get_proj_dirs` examines: it counts each line and
      stops once the count exceeds 10. */
  const LINES_READ: nat := 11

  function Take(lines: seq<string>, n: nat): seq<string> {
    if |lines| <= n then lines else lines[..n]
  }

  /** `get_proj_dirs(proj_path)`, over the file's lines. */
  method GetProjDirs(projPath: string, lines: seq<string>) returns (r: Option<ProjectDirs>)
    ensures r == ReadLines(InitialDirs(projPath), Take(lines, LINES_READ))
  {
    var data := InitialDirs(projPath);
    var cnt := 0;
    while cnt < |lines|
      invariant 0 <= cnt <= |lines| && cnt <= LINES_READ
      invariant ReadLines(InitialDirs(projPath), lines[..cnt]) == Some(data)
      decreases |lines| - cnt
    {
      var line := lines[cnt];
      ReadOneMore(InitialDirs(projPath), lines, cnt);
      if StartsWith(line, "database_path") {
        var parts := SplitPair(line, '=');
        if parts.None? {
          FailureIsFinal(projPath, lines, cnt);
          return None;
        }
        data := data["db_path" := Strip(parts.value.1)];
      } else if StartsWith(line, "image_path") {
        var parts := SplitPair(line, '=');
        if parts.None? {
          FailureIsFinal(projPath, lines, cnt);
          return None;
        }
        data := data[parts.value.0 := Strip(parts.value.1)];
      }
      cnt := cnt + 1;
      if cnt > 10 {
        break;
      }
    }
    assert lines[..cnt] == Take(lines, LINES_READ);
    r := Some(data);
  }

  /** Reading one more line is one more step of the loop. */
  lemma ReadOneMore(data: ProjectDirs, lines: seq<string>, cnt: nat)
    requires cnt < |lines|
    ensures ReadLines(data, lines[..cnt + 1]) ==
      match ReadLines(data, lines[..cnt])
      case None => None
      case Some(d) => ReadLine(d, lines[cnt])
  {
    assert lines[..cnt + 1][..cnt] == lines[..cnt];
  }

  /** Reading one line after a run of lines. */
  lemma ReadLinesSnoc(data: ProjectDirs, lines: seq<string>, line: string)
    ensures ReadLines(data, lines + [line]) ==
      if ReadLines(data, lines).None? then None else ReadLine(ReadLines(data, lines).value, line)
  {
    var all := lines + [line];
    assert all[..|all| - 1] == lines && all[|all| - 1] == line;
  }

  lemma {:induction false} ReadLinesNone(data: ProjectDirs, lines: seq<string>, more: seq<string>)
    requires ReadLines(data, lines) == None
    ensures ReadLines(data, lines + more) == None
    decreases |more|
  {
    if more != [] {
      var init, last := more[..|more| - 1], more[|more| - 1];
      ReadLinesNone(data, lines, init);
      assert lines + more == (lines + init) + [last];
      ReadLinesSnoc(data, lines + init, last);
    } else {
      assert lines + more == lines;
    }
  }

  /** Three lines each read successfully read as a run. */
  lemma ReadThree(d0: ProjectDirs, d1: ProjectDirs, d2: ProjectDirs, d3: ProjectDirs, l1: string, l2: string, l3: string)
    requires ReadLine(d0, l1) == Some(d1) && ReadLine(d1, l2) == Some(d2) && ReadLine(d2, l3) == Some(d3)
    ensures ReadLines(d0, [l1, l2, l3]) == Some(d3)
  {
    var s1, s2, s3 := [l1], [l1, l2], [l1, l2, l3];
    assert s1[..0] == [];
    assert ReadLines(d0, s1) == Some(d1);
    assert s2[..1] == s1;
    assert ReadLines(d0, s2) == Some(d2);
    assert s3[..2] == s2;
  }

  /** A line that raises ends the reading loop with the exception, whatever
      lines come after it. */
  lemma FailureIsFinal(projPath: string, lines: seq<string>, cnt: nat)
    requires cnt < |lines| && cnt < LINES_READ
    requires ReadLines(InitialDirs(projPath), lines[..cnt]).Some?
    requires ReadLine(ReadLines(InitialDirs(projPath), lines[..cnt]).value, lines[cnt]) == None
    ensures ReadLines(InitialDirs(projPath), Take(lines, LINES_READ)) == None
  {
    var taken := Take(lines, LINES_READ);
    assert cnt < |taken| && taken[..cnt + 1] == lines[..cnt + 1];
    FailureInPrefix(InitialDirs(projPath), lines, cnt, taken);
  }

  /** The same for any run of lines that starts with the failing ones. */
  lemma FailureInPrefix(data: ProjectDirs, lines: seq<string>, cnt: nat, taken: seq<string>)
    requires cnt < |lines| && cnt < |taken| && taken[..cnt + 1] == lines[..cnt + 1]
    requires ReadLines(data, lines[..cnt]).Some?
    requires ReadLine(ReadLines(data, lines[..cnt]).value, lines[cnt]) == None
    ensures ReadLines(data, taken) == None
  {
    var upto := lines[..cnt + 1];
    assert upto[..cnt] == lines[..cnt];
    assert taken == upto + taken[cnt + 1..];
    ReadOneMore(data, lines, cnt);
    ReadLinesNone(data, upto, taken[cnt + 1..]);
  }

  /** No line starts with both keys. */
  lemma KeysExclusive(line: string)
    ensures !(StartsWith(line, "database_path") && StartsWith(line, "image_path"))
  {
    if StartsWith(line, "database_path") {
      assert line[0] == 'd';
    }
  }

  /** The key an `image_path` line is stored under starts with
      "image_path", so it is none of the fixed keys. */
  lemma ImagePathKey(line: string)
    requires StartsWith(line, "image_path") && SplitPair(line, '=').Some?
    ensures var k := SplitPair(line, '=').value.0;
      k != "project_file" && k != "project_type" && k != "db_path"
  {
    var k := SplitPair(line, '=').value.0;
    assert line == k + ['='] + SplitPair(line, '=').value.1;
    if |k| >= 10 {
      assert k[..10] == "image_path";
    } else {
      assert line[|k|] == '=';
      assert line[|k|] == "image_path"[|k|];
    }
  }

  /** The two keys set up front survive the loop: no line can overwrite
      them, because every key written is "db_path" or starts with
      "image_path". */
  lemma {:induction false} FixedKeysKept(projPath: string, lines: seq<string>)
    requires ReadLines(InitialDirs(projPath), lines).Some?
    ensures var d := ReadLines(InitialDirs(projPath), lines).value;
      "project_file" in d && d["project_file"] == projPath && "project_type" in d && d["project_type"] == "colmap"
    decreases |lines|
  {
    if lines != [] {
      var line := lines[|lines| - 1];
      FixedKeysKept(projPath, lines[..|lines| - 1]);
      if !StartsWith(line, "database_path") && StartsWith(line, "image_path") {
        ImagePathKey(line);
      }
    }
  }

  /** The index of the last line starting with `database_path`, if any. */
  function LastDatabaseLine(lines: seq<string>): (r: Option<nat>)
    ensures r.Some? ==> r.value < |lines| && StartsWith(lines[r.value], "database_path")
    ensures r.Some? ==> forall j :: r.value < j < |lines| ==> !StartsWith(lines[j], "database_path")
    ensures r.None? ==> forall j :: 0 <= j < |lines| ==> !StartsWith(lines[j], "database_path")
  {
    if lines == [] then None
    else if StartsWith(lines[|lines| - 1], "database_path") then Some(|lines| - 1)
    else LastDatabaseLine(lines[..|lines| - 1])
  }

  /** "db_path" holds the stripped text after `=` of the last
      `database_path` line read, and is absent when there is none. */
  lemma {:induction false} DbPathIsLastDatabaseLine(projPath: string, lines: seq<string>)
    requires ReadLines(InitialDirs(projPath), lines).Some?
    ensures var d := ReadLines(InitialDirs(projPath), lines).value;
      match LastDatabaseLine(lines)
      case None => "db_path" !in d
      case Some(i) => SplitPair(lines[i], '=').Some? && "db_path" in d
                      && d["db_path"] == Strip(SplitPair(lines[i], '=').value.1)
    decreases |lines|
  {
    if lines != [] {
      var init := lines[..|lines| - 1];
      var line := lines[|lines| - 1];
      DbPathIsLastDatabaseLine(projPath, init);
      if !StartsWith(line, "database_path") {
        if StartsWith(line, "image_path") {
          ImagePathKey(line);
        }
        match LastDatabaseLine(init)
        case None =>
        case Some(i) => assert lines[i] == init[i];
      }
    }
  }

  /** The project.ini the project's tests prepare: log settings, then the
      two directories. */
  lemma SampleProjectIni()
    ensures ReadLines(InitialDirs("project.ini"),
              ["log_to_stderr=false\n", "database_path=scene.db\n", "image_path=images\n"])
            == Some(map["project_file" := "project.ini", "project_type" := "colmap",
                        "db_path" := "scene.db", "image_path" := "images"])
  {
    var l1: string, l2: string, l3: string := "log_to_stderr=false\n", "database_path=scene.db\n", "image_path=images\n";
    var d0 := InitialDirs("project.ini");
    var d2 := d0["db_path" := "scene.db"];
    SampleLines(d0, l1, l2, l3);
    ReadThree(d0, d0, d2, d2["image_path" := "images"], l1, l2, l3);
  }

  lemma SampleLines(d0: ProjectDirs, l1: string, l2: string, l3: string)
    requires l1 == "log_to_stderr=false\n" && l2 == "database_path=scene.db\n" && l3 == "image_path=images\n"
    ensures ReadLine(d0, l1) == Some(d0)
    ensures ReadLine(d0, l2) == Some(d0["db_path" := "scene.db"])
    ensures ReadLine(d0["db_path" := "scene.db"], l3) == Some(d0["db_path" := "scene.db"]["image_path" := "images"])
  {
    assert l1[0] == 'l';
    OtherLineKept(d0, l1);
    assert l2 == "database_path=" + "scene.db" + "\n";
    DatabaseLineRead(d0, "scene.db");
    ImageSample(d0["db_path" := "scene.db"], l3);
  }

  lemma ImageSample(d: ProjectDirs, l3: string)
    requires l3 == "image_path=images\n"
    ensures ReadLine(d, l3) == Some(d["image_path" := "images"])
  {
    assert l3 == "image_path=" + "images" + "\n";
    ImageLineRead(d, "images");
  }

  lemma OtherLineKept(data: ProjectDirs, line: string)
    requires line != [] && line[0] != 'd' && line[0] != 'i'
    ensures ReadLine(data, line) == Some(data)
  {
    assert !StartsWith(line, "database_path") && !StartsWith(line, "image_path");
  }

  lemma DatabaseLineRead(data: ProjectDirs, w: string)
    requires w != [] && NoSpace(w) && '=' !in w
    ensures ReadLine(data, "database_path=" + w + "\n") == Some(data["db_path" := w])
  {
    var line := "database_path=" + w + "\n";
    assert line == "database_path" + ['='] + (w + "\n");
    assert StartsWith(line, "database_path");
    SplitPairJoin("database_path", w + "\n", '=');
    StripSample(w);
  }

  lemma ImageLineRead(data: ProjectDirs, w: string)
    requires w != [] && NoSpace(w) && '=' !in w
    ensures ReadLine(data, "image_path=" + w + "\n") == Some(data["image_path" := w])
  {
    var line := "image_path=" + w + "\n";
    assert line == "image_path" + ['='] + (w + "\n");
    assert line[0] == 'i';
    assert StartsWith(line, "image_path");
    SplitPairJoin("image_path", w + "\n", '=');
    StripSample(w);
  }

  /** A word followed by a newline strips to the word. */
  lemma StripSample(w: string)
    requires w != [] && NoSpace(w)
    ensures Strip(w + "\n") == w
  {
    var s := w + "\n";
    assert !IsSpace(s[0]);
    assert LeadingSpaces(s) == 0;
    assert s[0..] == s;
    assert s[..|s| - 1] == w;
    assert !IsSpace(w[|w| - 1]);
    assert TrailingSpaces(w) == 0;
    assert TrailingSpaces(s) == 1;
  }

  /** Python's f-string of a path argument that may be None. */
  function Show(p: Option<string>): string {
    match p
    case None => "None"
    case Some(s) => s
  }

  /** Python truthiness of a path argument: None and "" are both false. */
  predicate Given(p: Option<string>) {
    p.Some? && p.value != ""
  }

  /** The rewrite of one line, as written at lines 98-101: the
      `image_path` rewrite is guarded by `database_path`, not by
      `image_path`. */
  function RewriteLineAsWritten(line: string, databasePath: Option<string>, imagePath: Option<string>): string
  {
    var line1 := if Given(databasePath) && StartsWith(line, "database_path")
                 then "database_path=" + Show(databasePath) + "\n" else line;
    if Given(databasePath) && StartsWith(line1, "image_path")
    then "image_path=" + Show(imagePath) + "\n" else line1
  }

  /** As written, asking for a new image path alone leaves the
      `image_path` line as it was, and asking for a new database path alone
      replaces the `image_path` line with "image_path=None". */
  lemma RewriteGuardDiscrepancy()
    ensures RewriteLineAsWritten("image_path=old\n", None, Some("new")) == "image_path=old\n"
    ensures RewriteLineAsWritten("image_path=old\n", Some("db"), None) == "image_path=None\n"
  {
    assert "image_path=old\n"[0] == 'i';
    assert !StartsWith("image_path=old\n", "database_path");
    assert StartsWith("image_path=old\n", "image_path");
  }

  /** The evident intent: each line is rewritten only when a new value for
      that line was given. */
  function RewriteLine(line: string, databasePath: Option<string>, imagePath: Option<string>): (r: string)
  {
    if Given(databasePath) && StartsWith(line, "database_path") then "database_path=" + databasePath.value + "\n"
    else if Given(imagePath) && StartsWith(line, "image_path") then "image_path=" + imagePath.value + "\n"
    else line
  }

  /** What the corrected rewrite does to each line: a `database_path` line
      takes the new database path when one is given, an `image_path` line
      takes the new image path when one is given, and every other line is
      copied unchanged. */
  lemma RewriteLineEffect(line: string, databasePath: Option<string>, imagePath: Option<string>)
    ensures StartsWith(line, "database_path") && Given(databasePath) ==>
      RewriteLine(line, databasePath, imagePath) == "database_path=" + databasePath.value + "\n"
    ensures StartsWith(line, "image_path") && Given(imagePath) ==>
      RewriteLine(line, databasePath, imagePath) == "image_path=" + imagePath.value + "\n"
    ensures ((!StartsWith(line, "database_path") || !Given(databasePath))
             && (!StartsWith(line, "image_path") || !Given(imagePath))) ==>
      RewriteLine(line, databasePath, imagePath) == line
  {
    KeysExclusive(line);
  }

  /** An empty path argument is falsy in Python, so it rewrites nothing:
      it acts exactly like a missing one. */
  lemma EmptyPathIsAbsent(line: string, databasePath: Option<string>, imagePath: Option<string>)
    ensures RewriteLine(line, Some(""), imagePath) == RewriteLine(line, None, imagePath)
    ensures RewriteLine(line, databasePath, Some("")) == RewriteLine(line, databasePath, None)
    ensures RewriteLineAsWritten(line, Some(""), imagePath) == line
  {
  }

  /** The corrected rewrite agrees with the code as written whenever both
      paths are given (non-empty). */
  lemma RewriteAgreesWhenBothGiven(line: string, databasePath: string, imagePath: string)
    requires databasePath != "" && imagePath != ""
    ensures RewriteLine(line, Some(databasePath), Some(imagePath))
         == RewriteLineAsWritten(line, Some(databasePath), Some(imagePath))
  {
    var db := "database_path=" + databasePath + "\n";
    KeysExclusive(line);
    KeysExclusive(db);
  }

  /** `update_project_paths`: with neither path given nothing is written
      (None); otherwise every line of the file is passed through the
      rewrite, in order. Uses the corrected guard (RewriteLine), not the
      one at line 100, which tests `database_path` before rewriting the
      `image_path` line (RewriteLineAsWritten). */
  method UpdateProjectPaths(lines: seq<string>, databasePath: Option<string>, imagePath: Option<string>)
    returns (r: Option<seq<string>>)
    ensures r.None? <==> !Given(databasePath) && !Given(imagePath)
    ensures r.Some? ==> |r.value| == |lines|
    ensures r.Some? ==> forall i :: 0 <= i < |lines| ==> r.value[i] == RewriteLine(lines[i], databasePath, imagePath)
  {
    if !Given(databasePath) && !Given(imagePath) {
      return None;
    }
    var out: seq<string> := [];
    for i := 0 to |lines|
      invariant |out| == i
      invariant forall k :: 0 <= k < i ==> out[k] == RewriteLine(lines[k], databasePath, imagePath)
    {
      var line := lines[i];
      if Given(databasePath) && StartsWith(line, "database_path") {
        line := "database_path=" + databasePath.value + "\n";
      } else if Given(imagePath) && StartsWith(line, "image_path") {
        line := "image_path=" + imagePath.value + "\n";
      }
      out := out + [line];
    }
    r := Some(out);
  }
}
