/** The COLMAP text-model parsers of synthmap/models/colmapScene.py:
    `cameras.txt`, `images.txt` and `points3D.txt` are read line by line,
    each line stripped; `#` lines are skipped and reading ends at the first
    empty line (or at the end of the file). Floating-point fields are kept
    as their tokens; integer fields go through `int()`. The generators are
    modelled as methods returning what they yield before the first
    exception, and that exception. */
module ColmapScene {
  import opened Wrappers
  import opened Text

  datatype ParseError =
    | IndexError   // a token index past the end of the line
    | ValueError   // int() of a token that is not an integer
    | KeyError     // a features line with no image header before it

  // ---------------------------------------------------------------------
  // Reading lines
  // ---------------------------------------------------------------------

  /** `fd.readline().strip()` for line i; past the end readline gives "". */
  function NextLine(lines: seq<string>, i: nat): string {
    if i < |lines| then Strip(lines[i]) else ""
  }

  predicate IsComment(line: string) {
    line != [] && line[0] == '#'
  }

  /** The stripped lines the parsers act on: those before the first empty
      (or all-whitespace) line that do not start with `#`. */
  function Content(lines: seq<string>): (content: seq<string>)
    ensures forall k :: 0 <= k < |content| ==> content[k] != [] && !IsComment(content[k])
    decreases |lines|
  {
    if lines == [] then []
    else
      var line := Strip(lines[0]);
      if line == [] then []
      else if IsComment(line) then Content(lines[1..])
      else [line] + Content(lines[1..])
  }

  /** One read of `Content`: the first line ends it, is skipped, or is
      taken. */
  lemma ContentHead(lines: seq<string>)
    requires lines != []
    ensures Content(lines) ==
      if Strip(lines[0]) == [] then []
      else if IsComment(Strip(lines[0])) then Content(lines[1..])
      else [Strip(lines[0])] + Content(lines[1..])
  {
  }

  /** Reading stops at the first blank line: nothing after it is parsed. */
  lemma {:induction false} ContentStopsAtBlank(lines: seq<string>, k: nat)
    requires k < |lines| && AllSpace(lines[k])
    ensures Content(lines) == Content(lines[..k])
    decreases |lines|
  {
    StripEmptyIffBlank(lines[k]);
    var pre := lines[..k];
    ContentHead(lines);
    if k == 0 {
      assert pre == [];
    } else {
      ContentStopsAtBlank(lines[1..], k - 1);
      assert pre[0] == lines[0] && pre[1..] == lines[1..][..k - 1];
      ContentHead(pre);
    }
  }

  /** A comment line before the first blank line is skipped without effect. */
  lemma {:induction false} ContentSkipsComment(pre: seq<string>, comment: string, post: seq<string>)
    requires IsComment(Strip(comment))
    requires forall i :: 0 <= i < |pre| ==> Strip(pre[i]) != []
    ensures Content(pre + [comment] + post) == Content(pre + post)
    decreases |pre|
  {
    var withComment := pre + [comment] + post;
    if pre != [] {
      assert withComment[0] == pre[0] && (pre + post)[0] == pre[0];
      assert withComment[1..] == pre[1..] + [comment] + post;
      assert (pre + post)[1..] == pre[1..] + post;
      ContentSkipsComment(pre[1..], comment, post);
    } else {
      assert withComment[0] == comment;
      assert withComment[1..] == post;
      assert pre + post == post;
    }
  }

  /** Content is made of the non-comment lines, in file order. */
  lemma {:induction false} ContentOfPlainLines(lines: seq<string>)
    requires forall i :: 0 <= i < |lines| ==> Strip(lines[i]) != [] && !IsComment(Strip(lines[i]))
    ensures |Content(lines)| == |lines|
    ensures forall i :: 0 <= i < |lines| ==> Content(lines)[i] == Strip(lines[i])
    decreases |lines|
  {
    if lines != [] {
      ContentOfPlainLines(lines[1..]);
      ContentHead(lines);
    }
  }

  /** `tokens[i]`. */
  function TokenAt(tokens: seq<string>, i: nat): (r: Result<string, ParseError>)
    ensures r.Ok? <==> i < |tokens|
  {
    if i < |tokens| then Ok(tokens[i]) else Err(IndexError)
  }

  /** `int(tokens[i])`. */
  function IntAt(tokens: seq<string>, i: nat): (r: Result<int, ParseError>)
    ensures r.Ok? <==> i < |tokens| && ParseInt(tokens[i]).Some?
    ensures r.Ok? ==> r.value == ParseInt(tokens[i]).value
  {
    if i >= |tokens| then Err(IndexError)
    else if ParseInt(tokens[i]).None? then Err(ValueError)
    else Ok(ParseInt(tokens[i]).value)
  }

  /** Whether `int(tokens[i])` succeeds. */
  predicate IntToken(tokens: seq<string>, i: nat) {
    i < |tokens| && ParseInt(tokens[i]).Some?
  }

  // ---------------------------------------------------------------------
  // cameras.txt
  // ---------------------------------------------------------------------

  /** The dict yielded per camera; `params` are the float tokens. */
  datatype CameraEntry = CameraEntry(cameraId: int, model: string, width: int, height: int, params: seq<string>)

  /** One camera line: tokens 0-3 are id, model, width and height, evaluated
      in that order; every remaining token is a parameter. */
  function ParseCameraLine(line: string): (r: Result<CameraEntry, ParseError>)
    ensures r.Ok? <==> |Split(line)| >= 4 && IntToken(Split(line), 0) && IntToken(Split(line), 2) && IntToken(Split(line), 3)
    ensures r.Ok? ==> r.value == CameraEntry(ParseInt(Split(line)[0]).value, Split(line)[1],
                                              ParseInt(Split(line)[2]).value, ParseInt(Split(line)[3]).value,
                                              Split(line)[4..])
  {
    var tokens := Split(line);
    match IntAt(tokens, 0)
    case Err(e) => Err(e)
    case Ok(id) =>
      match TokenAt(tokens, 1)
      case Err(e) => Err(e)
      case Ok(model) =>
        match IntAt(tokens, 2)
        case Err(e) => Err(e)
        case Ok(width) =>
          match IntAt(tokens, 3)
          case Err(e) => Err(e)
          case Ok(height) => Ok(CameraEntry(id, model, width, height, tokens[4..]))
  }

  /** What a stateless line parser yields over the content lines: one entry
      per line until the first line that raises. */
  function ParseEach<T>(content: seq<string>, parse: string -> Result<T, ParseError>)
    : (r: (seq<T>, Option<ParseError>))
    decreases |content|
  {
    if content == [] then ([], None)
    else match parse(content[0])
      case Err(e) => ([], Some(e))
      case Ok(x) =>
        var rest := ParseEach(content[1..], parse);
        ([x] + rest.0, rest.1)
  }

  /** Record k is what line k parses to; without an error every line gave
      a record, and an error is the one raised by the first line without a
      record. */
  lemma {:induction false} ParseEachYields<T>(content: seq<string>, parse: string -> Result<T, ParseError>)
    ensures var r := ParseEach(content, parse);
      && |r.0| <= |content|
      && (forall k :: 0 <= k < |r.0| ==> parse(content[k]) == Ok(r.0[k]))
      && (r.1.None? ==> |r.0| == |content|)
      && (r.1.Some? ==> |r.0| < |content| && parse(content[|r.0|]) == Err(r.1.value))
    decreases |content|
  {
    if content != [] && parse(content[0]).Ok? {
      ParseEachYields(content[1..], parse);
    }
  }

  /** One step of the reading loop: a blank line ends the content, a
      comment line is dropped, any other line is the next content line. */
  lemma ContentStep(lines: seq<string>, i: nat)
    requires i < |lines|
    ensures Strip(lines[i]) == [] ==> Content(lines[i..]) == []
    ensures IsComment(Strip(lines[i])) ==> Content(lines[i..]) == Content(lines[i + 1..])
    ensures Strip(lines[i]) != [] && !IsComment(Strip(lines[i])) ==>
              Content(lines[i..]) == [Strip(lines[i])] + Content(lines[i + 1..])
  {
    assert lines[i..][0] == lines[i];
    assert lines[i..][1..] == lines[i + 1..];
  }

  lemma AppendAssoc<T>(a: seq<T>, b: seq<T>, c: seq<T>)
    ensures a + (b + c) == (a + b) + c
  {
  }

  /** What the reading loop yields from line i on, read the way the loop
      reads: readline, stop at an empty line, skip a comment, parse the
      rest until a line raises. */
  function ReadFrom<T>(lines: seq<string>, i: nat, parse: string -> Result<T, ParseError>)
    : (seq<T>, Option<ParseError>)
    decreases |lines| - i
  {
    var line := NextLine(lines, i);
    if line == "" then ([], None)
    else if line[0] == '#' then ReadFrom(lines, i + 1, parse)
    else match parse(line)
      case Err(e) => ([], Some(e))
      case Ok(x) =>
        var rest := ReadFrom(lines, i + 1, parse);
        ([x] + rest.0, rest.1)
  }

  /** Reading line by line is parsing each content line. */
  lemma {:induction false} ReadFromContent<T>(lines: seq<string>, i: nat, parse: string -> Result<T, ParseError>)
    requires i <= |lines|
    ensures ReadFrom(lines, i, parse) == ParseEach(Content(lines[i..]), parse)
    decreases |lines| - i
  {
    if i == |lines| {
      assert lines[i..] == [];
    } else {
      ContentStep(lines, i);
      var line := Strip(lines[i]);
      if line != "" {
        ReadFromContent(lines, i + 1, parse);
        if line[0] != '#' {
          var next := Content(lines[i + 1..]);
          assert ([line] + next)[1..] == next;
        }
      }
    }
  }

  /** One step of the reading loop, on a non-empty line i. */
  lemma ReadFromStep<T>(lines: seq<string>, i: nat, parse: string -> Result<T, ParseError>)
    requires NextLine(lines, i) != ""
    ensures var line, rest := NextLine(lines, i), ReadFrom(lines, i + 1, parse);
      ReadFrom(lines, i, parse) ==
        if line[0] == '#' then rest
        else if parse(line).Err? then ([], Some(parse(line).error))
        else ([parse(line).value] + rest.0, rest.1)
  {
  }

  /** Reading from the first line is parsing each content line. */
  lemma ReadAll<T>(lines: seq<string>, parse: string -> Result<T, ParseError>)
    ensures ReadFrom(lines, 0, parse) == ParseEach(Content(lines), parse)
  {
    ReadFromContent(lines, 0, parse);
    assert lines[0..] == lines;
  }

  /** The reading loop shared by `parse_camera_file` and `parse_point_file`:
      parse each content line until one raises. */
  method ReadRecords<T>(lines: seq<string>, parse: string -> Result<T, ParseError>)
    returns (records: seq<T>, err: Option<ParseError>)
    ensures (records, err) == ParseEach(Content(lines), parse)
  {
    records, err := [], None;
    var i := 0;
    var line := NextLine(lines, i);
    ghost var all := ReadFrom(lines, 0, parse);
    ReadAll(lines, parse);
    assert records + all.0 == all.0;
    while line != ""
      invariant line == NextLine(lines, i)
      invariant all.0 == records + ReadFrom(lines, i, parse).0
      invariant all.1 == ReadFrom(lines, i, parse).1
      decreases |lines| - i
    {
      ghost var rest := ReadFrom(lines, i + 1, parse);
      ReadFromStep(lines, i, parse);
      if line[0] != '#' {
        var record := parse(line);
        if record.Err? {
          assert records + [] == records;
          return records, Some(record.error);
        }
        AppendAssoc(records, [record.value], rest.0);
        records := records + [record.value];
      }
      i := i + 1;
      line := NextLine(lines, i);
    }
    assert records + [] == records;
  }

  /** `parse_camera_file`. */
  method ParseCameraFile(lines: seq<string>) returns (cameras: seq<CameraEntry>, err: Option<ParseError>)
    ensures (cameras, err) == ParseEach(Content(lines), ParseCameraLine)
  {
    cameras, err := ReadRecords(lines, ParseCameraLine);
  }

  // ---------------------------------------------------------------------
  // images.txt
  // ---------------------------------------------------------------------

  datatype Feature = Feature(x: string, y: string, landmarkId: int)

  /** A 10-token header line: id, the four quaternion and three translation
      tokens, camera id and name. */
  datatype ImageHeader = ImageHeader(imageId: int, pose: seq<string>, cameraId: int, name: string)

  /** The dict yielded per image: its header fields and `features`. */
  datatype ImageEntry = ImageEntry(header: ImageHeader, features: seq<Feature>)

  const HEADER_TOKENS: nat := 10

  function ParseHeader(tokens: seq<string>): (r: Result<ImageHeader, ParseError>)
    requires |tokens| == HEADER_TOKENS
    ensures r.Ok? <==> IntToken(tokens, 0) && IntToken(tokens, 8)
    ensures r.Ok? ==> r.value == ImageHeader(ParseInt(tokens[0]).value, tokens[1..8], ParseInt(tokens[8]).value, tokens[9])
  {
    match IntAt(tokens, 0)
    case Err(e) => Err(e)
    case Ok(id) =>
      match IntAt(tokens, 8)
      case Err(e) => Err(e)
      case Ok(camera) => Ok(ImageHeader(id, tokens[1..8], camera, tokens[9]))
  }

  /** The triples `(x, y, landmark)` of a features line, taken while
      `3 * iteration < len(tokens)`: a trailing partial triple raises. */
  function FeaturesOf(tokens: seq<string>): (r: Result<seq<Feature>, ParseError>)
    decreases |tokens|
  {
    if tokens == [] then Ok([])
    else if |tokens| < 2 then Err(IndexError)
    else match IntAt(tokens, 2)
      case Err(e) => Err(e)
      case Ok(landmark) =>
        match FeaturesOf(tokens[3..])
        case Err(e) => Err(e)
        case Ok(rest) => Ok([Feature(tokens[0], tokens[1], landmark)] + rest)
  }

  /** Every third token, the landmark of each triple, is an integer. */
  predicate LandmarksInt(tokens: seq<string>) {
    forall k :: 0 <= k < |tokens| / 3 ==> ParseInt(tokens[3 * k + 2]).Some?
  }

  /** The landmarks of a line are those of its first triple and of the
      rest. */
  lemma LandmarksIntShift(tokens: seq<string>)
    requires |tokens| >= 3
    ensures LandmarksInt(tokens) <==> ParseInt(tokens[2]).Some? && LandmarksInt(tokens[3..])
  {
    var rest := tokens[3..];
    assert |rest| / 3 == |tokens| / 3 - 1;
    if LandmarksInt(tokens) {
      assert ParseInt(tokens[3 * 0 + 2]).Some?;
      forall k | 0 <= k < |rest| / 3 ensures ParseInt(rest[3 * k + 2]).Some? {
        assert rest[3 * k + 2] == tokens[3 * (k + 1) + 2];
      }
    }
    if ParseInt(tokens[2]).Some? && LandmarksInt(rest) {
      forall k | 0 <= k < |tokens| / 3 ensures ParseInt(tokens[3 * k + 2]).Some? {
        if k > 0 {
          assert tokens[3 * k + 2] == rest[3 * (k - 1) + 2];
        }
      }
    }
  }

  /** A features line parses exactly when its tokens come in whole triples
      whose third token is an integer. */
  lemma {:induction false} FeaturesOfTriples(tokens: seq<string>)
    ensures FeaturesOf(tokens).Ok? <==> |tokens| % 3 == 0 && LandmarksInt(tokens)
    decreases |tokens|
  {
    if |tokens| >= 3 {
      FeaturesOfTriples(tokens[3..]);
      LandmarksIntShift(tokens);
    }
  }

  /** A parsed features line has one feature per triple: triple k becomes
      feature k. */
  lemma {:induction false} FeaturesOfValues(tokens: seq<string>)
    requires FeaturesOf(tokens).Ok?
    ensures |FeaturesOf(tokens).value| * 3 == |tokens|
    ensures forall k :: 0 <= k < |FeaturesOf(tokens).value| ==>
              ParseInt(tokens[3 * k + 2]).Some? &&
              FeaturesOf(tokens).value[k] == Feature(tokens[3 * k], tokens[3 * k + 1], ParseInt(tokens[3 * k + 2]).value)
    decreases |tokens|
  {
    if tokens != [] {
      var rest := tokens[3..];
      FeaturesOfValues(rest);
      var fs, tail := FeaturesOf(tokens).value, FeaturesOf(rest).value;
      assert fs == [Feature(tokens[0], tokens[1], ParseInt(tokens[2]).value)] + tail;
      forall k | 0 <= k < |fs|
        ensures ParseInt(tokens[3 * k + 2]).Some?
        ensures fs[k] == Feature(tokens[3 * k], tokens[3 * k + 1], ParseInt(tokens[3 * k + 2]).value)
      {
        if k > 0 {
          assert fs[k] == tail[k - 1];
          assert tokens[3 * k] == rest[3 * (k - 1)];
          assert tokens[3 * k + 1] == rest[3 * (k - 1) + 1];
          assert tokens[3 * k + 2] == rest[3 * (k - 1) + 2];
        }
      }
    }
  }

  function Prepend(features: seq<Feature>, r: Result<seq<Feature>, ParseError>): Result<seq<Feature>, ParseError> {
    if r.Err? then r else Ok(features + r.value)
  }

  /** The features loop of `parse_image_file`. */
  method ParseFeatures(tokens: seq<string>) returns (r: Result<seq<Feature>, ParseError>)
    ensures r == FeaturesOf(tokens)
  {
    var features: seq<Feature> := [];
    var iteration := 0;
    assert tokens[3 * iteration..] == tokens;
    assert FeaturesOf(tokens).Ok? ==> [] + FeaturesOf(tokens).value == FeaturesOf(tokens).value;
    while 3 * iteration < |tokens|
      invariant 0 <= 3 * iteration <= |tokens|
      invariant FeaturesOf(tokens) == Prepend(features, FeaturesOf(tokens[3 * iteration..]))
      decreases |tokens| - 3 * iteration
    {
      var at := 3 * iteration;
      var rest := tokens[at..];
      if at + 1 >= |tokens| {
        return Err(IndexError);
      }
      var landmark := IntAt(tokens, at + 2);
      assert IntAt(rest, 2) == landmark;
      if landmark.Err? {
        return Err(landmark.error);
      }
      assert rest[3..] == tokens[at + 3..];
      var feature := Feature(tokens[at], tokens[at + 1], landmark.value);
      var tail := FeaturesOf(tokens[at + 3..]);
      assert FeaturesOf(rest) == Prepend([feature], tail);
      assert tail.Ok? ==> features + ([feature] + tail.value) == (features + [feature]) + tail.value;
      features := features + [feature];
      iteration := iteration + 1;
    }
    assert tokens[3 * iteration..] == [];
    assert features + [] == features;
    r := Ok(features);
  }

  /** What one content line of `images.txt` does, given the last header
      read so far: a 10-token line replaces the header; any other line is
      a features line, yielded with the current header (without one, the
      header lookup raises KeyError). */
  datatype ImageLineOutcome = NewHeader(header: ImageHeader) | Yield(entry: ImageEntry) | Raise(error: ParseError)

  function ImageLine(header: Option<ImageHeader>, line: string): ImageLineOutcome {
    var tokens := Split(line);
    if |tokens| == HEADER_TOKENS then
      match ParseHeader(tokens)
      case Err(e) => Raise(e)
      case Ok(h) => NewHeader(h)
    else
      match FeaturesOf(tokens)
      case Err(e) => Raise(e)
      case Ok(features) =>
        if header.None? then Raise(KeyError) else Yield(ImageEntry(header.value, features))
  }

  /** What `parse_image_file` yields over the content lines, given the
      last header read so far. */
  function ImagesFrom(header: Option<ImageHeader>, content: seq<string>): (r: (seq<ImageEntry>, Option<ParseError>))
    decreases |content|
  {
    if content == [] then ([], None)
    else match ImageLine(header, content[0])
      case Raise(e) => ([], Some(e))
      case NewHeader(h) => ImagesFrom(Some(h), content[1..])
      case Yield(entry) =>
        var rest := ImagesFrom(header, content[1..]);
        ([entry] + rest.0, rest.1)
  }

  lemma ImagesFromCons(header: Option<ImageHeader>, line: string, rest: seq<string>)
    ensures ImageLine(header, line).Raise? ==> ImagesFrom(header, [line] + rest) == ([], Some(ImageLine(header, line).error))
    ensures ImageLine(header, line).NewHeader? ==>
              ImagesFrom(header, [line] + rest) == ImagesFrom(Some(ImageLine(header, line).header), rest)
    ensures ImageLine(header, line).Yield? ==>
              ImagesFrom(header, [line] + rest).0 == [ImageLine(header, line).entry] + ImagesFrom(header, rest).0
              && ImagesFrom(header, [line] + rest).1 == ImagesFrom(header, rest).1
  {
    assert ([line] + rest)[1..] == rest;
  }

  /** The body of the reading loop of `parse_image_file` for one content
      line. */
  method ReadImageLine(header: Option<ImageHeader>, line: string) returns (outcome: ImageLineOutcome)
    ensures outcome == ImageLine(header, line)
  {
    var tokens := Split(line);
    if |tokens| == HEADER_TOKENS {
      var h := ParseHeader(tokens);
      if h.Err? {
        return Raise(h.error);
      }
      return NewHeader(h.value);
    }
    var features := ParseFeatures(tokens);
    if features.Err? {
      return Raise(features.error);
    }
    if header.None? {
      return Raise(KeyError);
    }
    return Yield(ImageEntry(header.value, features.value));
  }

  /** The yield of the rest of the file after one more content line. */
  lemma ImagesAfterLine(all: (seq<ImageEntry>, Option<ParseError>), images: seq<ImageEntry>,
                        header: Option<ImageHeader>, line: string, next: seq<string>, o: ImageLineOutcome)
    requires o == ImageLine(header, line)
    requires all == (images + ImagesFrom(header, [line] + next).0, ImagesFrom(header, [line] + next).1)
    ensures o.Raise? ==> all == (images, Some(o.error))
    ensures o.NewHeader? ==> all == (images + ImagesFrom(Some(o.header), next).0, ImagesFrom(Some(o.header), next).1)
    ensures o.Yield? ==> all == ((images + [o.entry]) + ImagesFrom(header, next).0, ImagesFrom(header, next).1)
  {
    ImagesFromCons(header, line, next);
    if o.Raise? {
      assert images + [] == images;
    } else if o.Yield? {
      AppendAssoc(images, [o.entry], ImagesFrom(header, next).0);
    }
  }

  /** `parse_image_file`. */
  method ParseImageFile(lines: seq<string>) returns (images: seq<ImageEntry>, err: Option<ParseError>)
    ensures (images, err) == ImagesFrom(None, Content(lines))
  {
    images, err := [], None;
    var header: Option<ImageHeader> := None;
    var i := 0;
    var line := NextLine(lines, i);
    assert lines[i..] == lines;
    ghost var all := ImagesFrom(None, Content(lines));
    ghost var todo := Content(lines);
    assert images + all.0 == all.0;
    while line != ""
      invariant i <= |lines| && line == NextLine(lines, i)
      invariant todo == Content(lines[i..])
      invariant all == (images + ImagesFrom(header, todo).0, ImagesFrom(header, todo).1)
      decreases |lines| - i
    {
      ContentStep(lines, i);
      if line[0] == '#' {
        i := i + 1;
        line := NextLine(lines, i);
        todo := Content(lines[i..]);
        continue;
      }
      ghost var next := Content(lines[i + 1..]);
      var outcome := ReadImageLine(header, line);
      ImagesAfterLine(all, images, header, line, next, outcome);
      if outcome.Raise? {
        return images, Some(outcome.error);
      }
      if outcome.NewHeader? {
        header := Some(outcome.header);
      } else {
        images := images + [outcome.entry];
      }
      i := i + 1;
      line := NextLine(lines, i);
      todo := next;
    }
    if i < |lines| {
      ContentStep(lines, i);
    } else {
      assert lines[i..] == [];
    }
    assert images + [] == images;
  }

  /** A header followed by its features line yields one image carrying
      that header and those features. */
  lemma HeaderThenFeatures(h: string, f: string, more: seq<string>)
    requires |Split(h)| == HEADER_TOKENS && ParseHeader(Split(h)).Ok?
    requires |Split(f)| != HEADER_TOKENS && FeaturesOf(Split(f)).Ok?
    ensures ImagesFrom(None, [h, f] + more).0 ==
              [ImageEntry(ParseHeader(Split(h)).value, FeaturesOf(Split(f)).value)]
                + ImagesFrom(Some(ParseHeader(Split(h)).value), more).0
  {
    var hd := ParseHeader(Split(h)).value;
    assert ImageLine(None, h) == NewHeader(hd);
    assert [h, f] + more == [h] + ([f] + more);
    ImagesFromCons(None, h, [f] + more);
    assert ImageLine(Some(hd), f) == Yield(ImageEntry(hd, FeaturesOf(Split(f)).value));
    ImagesFromCons(Some(hd), f, more);
  }

  /** A features line before any header raises KeyError and yields
      nothing. */
  lemma FeaturesBeforeHeaderRaise(f: string, more: seq<string>)
    requires |Split(f)| != HEADER_TOKENS && FeaturesOf(Split(f)).Ok?
    ensures ImagesFrom(None, [f] + more) == ([], Some(KeyError))
  {
  }

  // ---------------------------------------------------------------------
  // points3D.txt
  // ---------------------------------------------------------------------

  /** The dict yielded per point. The track maps image-id tokens to
      feature-id tokens: it is built from strings and never converted. */
  datatype PointEntry = PointEntry(landmarkId: int, xyz: seq<string>, r: int, g: int, b: int,
                                   error: string, track: map<string, string>)

  const FIXED_POINT_TOKENS: nat := 8

  /** `zip(tokens[8::2], tokens[9::2])`: pairs of tokens 8/9, 10/11, ...;
      a trailing odd token has no partner and is dropped. */
  function TrackPairs(tokens: seq<string>): (pairs: seq<(string, string)>)
    ensures |tokens| >= FIXED_POINT_TOKENS ==> |pairs| == (|tokens| - FIXED_POINT_TOKENS) / 2
    ensures forall k :: 0 <= k < |pairs| ==>
              FIXED_POINT_TOKENS + 2 * k + 1 < |tokens|
              && pairs[k] == (tokens[FIXED_POINT_TOKENS + 2 * k], tokens[FIXED_POINT_TOKENS + 2 * k + 1])
  {
    var n := if |tokens| >= FIXED_POINT_TOKENS then (|tokens| - FIXED_POINT_TOKENS) / 2 else 0;
    seq(n, k requires 0 <= k < n => (tokens[FIXED_POINT_TOKENS + 2 * k], tokens[FIXED_POINT_TOKENS + 2 * k + 1]))
  }

  /** `dict(pairs)`: a later pair with the same key overwrites. */
  function DictOf(pairs: seq<(string, string)>): (d: map<string, string>)
    decreases |pairs|
  {
    if pairs == [] then map[]
    else DictOf(pairs[..|pairs| - 1])[pairs[|pairs| - 1].0 := pairs[|pairs| - 1].1]
  }

  /** Each key of `dict(pairs)` holds the value of its last pair. */
  lemma {:induction false} DictOfLastWins(pairs: seq<(string, string)>)
    ensures forall k :: k in DictOf(pairs) <==> exists i :: 0 <= i < |pairs| && pairs[i].0 == k
    ensures forall i :: 0 <= i < |pairs| && (forall j :: i < j < |pairs| ==> pairs[j].0 != pairs[i].0) ==>
              pairs[i].0 in DictOf(pairs) && DictOf(pairs)[pairs[i].0] == pairs[i].1
    decreases |pairs|
  {
    if pairs != [] {
      var init := pairs[..|pairs| - 1];
      DictOfLastWins(init);
      forall k ensures k in DictOf(pairs) <==> exists i :: 0 <= i < |pairs| && pairs[i].0 == k {
        if k in DictOf(init) {
          var i :| 0 <= i < |init| && init[i].0 == k;
          assert pairs[i] == init[i];
        }
        if exists i :: 0 <= i < |pairs| && pairs[i].0 == k {
          var i :| 0 <= i < |pairs| && pairs[i].0 == k;
          if i < |init| {
            assert init[i] == pairs[i];
          }
        }
      }
      forall i | 0 <= i < |pairs| && (forall j :: i < j < |pairs| ==> pairs[j].0 != pairs[i].0)
        ensures pairs[i].0 in DictOf(pairs) && DictOf(pairs)[pairs[i].0] == pairs[i].1
      {
        if i < |init| {
          assert init[i] == pairs[i];
          forall j | i < j < |init| ensures init[j].0 != init[i].0 {
            assert init[j] == pairs[j];
          }
        }
      }
    }
  }

  /** One point line: tokens 0-7 are id, x, y, z, r, g, b and error, taken
      in that order, the integer ones through `int()`. */
  function ParsePointLine(line: string): (r: Result<PointEntry, ParseError>)
    ensures r.Ok? <==> (|Split(line)| >= FIXED_POINT_TOKENS && IntToken(Split(line), 0) && IntToken(Split(line), 4)
                        && IntToken(Split(line), 5) && IntToken(Split(line), 6))
    ensures r.Ok? ==> r.value.landmarkId == ParseInt(Split(line)[0]).value
                      && r.value.xyz == Split(line)[1..4] && r.value.error == Split(line)[7]
                      && r.value.r == ParseInt(Split(line)[4]).value
                      && r.value.g == ParseInt(Split(line)[5]).value
                      && r.value.b == ParseInt(Split(line)[6]).value
                      && r.value.track == DictOf(TrackPairs(Split(line)))
  {
    var tokens := Split(line);
    match IntAt(tokens, 0)
    case Err(e) => Err(e)
    case Ok(id) =>
      if |tokens| < 4 then Err(IndexError)
      else
        match IntAt(tokens, 4)
        case Err(e) => Err(e)
        case Ok(r) =>
          match IntAt(tokens, 5)
          case Err(e) => Err(e)
          case Ok(g) =>
            match IntAt(tokens, 6)
            case Err(e) => Err(e)
            case Ok(b) =>
              match TokenAt(tokens, 7)
              case Err(e) => Err(e)
              case Ok(error) => Ok(PointEntry(id, tokens[1..4], r, g, b, error, DictOf(TrackPairs(tokens))))
  }

  /** `parse_point_file`. */
  method ParsePointFile(lines: seq<string>) returns (points: seq<PointEntry>, err: Option<ParseError>)
    ensures (points, err) == ParseEach(Content(lines), ParsePointLine)
  {
    points, err := ReadRecords(lines, ParsePointLine);
  }

  // ---------------------------------------------------------------------
  // Scene.load_all
  // ---------------------------------------------------------------------

  /** `{key(x): x for x in xs}`: a later entry with the same key
      overwrites. */
  function KeyBy<T>(xs: seq<T>, key: T -> int): (m: map<int, T>)
    decreases |xs|
  {
    if xs == [] then map[]
    else KeyBy(xs[..|xs| - 1], key)[key(xs[|xs| - 1]) := xs[|xs| - 1]]
  }

  /** Each id of the table holds the last entry with that id, and the ids
      are exactly the entries' ids. */
  lemma {:induction false} KeyByLastWins<T>(xs: seq<T>, key: T -> int)
    ensures forall k :: k in KeyBy(xs, key) <==> exists i :: 0 <= i < |xs| && key(xs[i]) == k
    ensures forall i :: 0 <= i < |xs| && (forall j :: i < j < |xs| ==> key(xs[j]) != key(xs[i])) ==>
              key(xs[i]) in KeyBy(xs, key) && KeyBy(xs, key)[key(xs[i])] == xs[i]
    decreases |xs|
  {
    if xs != [] {
      var init := xs[..|xs| - 1];
      KeyByLastWins(init, key);
      forall k ensures k in KeyBy(xs, key) <==> exists i :: 0 <= i < |xs| && key(xs[i]) == k {
        if k in KeyBy(init, key) {
          var i :| 0 <= i < |init| && key(init[i]) == k;
          assert xs[i] == init[i];
        }
        if exists i :: 0 <= i < |xs| && key(xs[i]) == k {
          var i :| 0 <= i < |xs| && key(xs[i]) == k;
          if i < |init| {
            assert init[i] == xs[i];
          }
        }
      }
      forall i | 0 <= i < |xs| && (forall j :: i < j < |xs| ==> key(xs[j]) != key(xs[i]))
        ensures key(xs[i]) in KeyBy(xs, key) && KeyBy(xs, key)[key(xs[i])] == xs[i]
      {
        if i < |init| {
          assert init[i] == xs[i];
          forall j | i < j < |init| ensures key(init[j]) != key(init[i]) {
            assert init[j] == xs[j];
          }
        }
      }
    }
  }

  function CameraId(c: CameraEntry): int { c.cameraId }
  function ImageId(i: ImageEntry): int { i.header.imageId }
  function LandmarkId(p: PointEntry): int { p.landmarkId }

  datatype SceneError = MissingPath | Parse(e: ParseError)

  datatype SceneTables = SceneTables(
    cameras: Option<map<int, CameraEntry>>,
    images: Option<map<int, ImageEntry>>,
    points: Option<map<int, PointEntry>>)

  /** `load_all` over the three files' lines: each table is assigned only
      when its whole file parsed (the dict comprehension raises otherwise),
      and the tables are filled in the order cameras, images, points. */
  function LoadScene(s: SceneTables, pathsGiven: bool, cameraLines: seq<string>, imageLines: seq<string>,
                     pointLines: seq<string>): (r: (SceneTables, Option<SceneError>))
  {
    if !pathsGiven then (s, Some(MissingPath))
    else
      var (cs, ce) := ParseEach(Content(cameraLines), ParseCameraLine);
      if ce.Some? then (s, Some(Parse(ce.value)))
      else
        var s1 := s.(cameras := Some(KeyBy(cs, CameraId)));
        var (ims, ie) := ImagesFrom(None, Content(imageLines));
        if ie.Some? then (s1, Some(Parse(ie.value)))
        else
          var s2 := s1.(images := Some(KeyBy(ims, ImageId)));
          var (ps, pe) := ParseEach(Content(pointLines), ParsePointLine);
          if pe.Some? then (s2, Some(Parse(pe.value)))
          else (s2.(points := Some(KeyBy(ps, LandmarkId))), None)
  }

  /** A failure in one file leaves that table and the later ones as they
      were, and keeps the tables filled before it. */
  lemma LoadSceneStopsAtFailure(s: SceneTables, cameraLines: seq<string>, imageLines: seq<string>, pointLines: seq<string>)
    ensures ParseEach(Content(cameraLines), ParseCameraLine).1.Some? ==>
              LoadScene(s, true, cameraLines, imageLines, pointLines).0 == s
    ensures ParseEach(Content(cameraLines), ParseCameraLine).1.None? && ImagesFrom(None, Content(imageLines)).1.Some? ==>
              var r := LoadScene(s, true, cameraLines, imageLines, pointLines).0;
              r.cameras.Some? && r.images == s.images && r.points == s.points
    ensures LoadScene(s, true, cameraLines, imageLines, pointLines).1.None? ==>
              var r := LoadScene(s, true, cameraLines, imageLines, pointLines).0;
              r.cameras.Some? && r.images.Some? && r.points.Some?
  {
  }

  /** A Scene: the three file paths and the three tables. */
  class Scene {
    var camerasPath: string
    var imagesPath: string
    var pointsPath: string
    var cameras: Option<map<int, CameraEntry>>
    var images: Option<map<int, ImageEntry>>
    var points: Option<map<int, PointEntry>>

    function Tables(): SceneTables
      reads this
    {
      SceneTables(cameras, images, points)
    }

    constructor (camerasPath: string, imagesPath: string, pointsPath: string)
      ensures this.camerasPath == camerasPath && this.imagesPath == imagesPath && this.pointsPath == pointsPath
      ensures Tables() == SceneTables(None, None, None)
    {
      this.camerasPath, this.imagesPath, this.pointsPath := camerasPath, imagesPath, pointsPath;
      cameras, images, points := None, None, None;
    }

    /** `load_all`, with the contents of the three files as parameters. */
    method LoadAll(cameraLines: seq<string>, imageLines: seq<string>, pointLines: seq<string>)
      returns (err: Option<SceneError>)
      modifies this
      ensures camerasPath == old(camerasPath) && imagesPath == old(imagesPath) && pointsPath == old(pointsPath)
      ensures (Tables(), err) == LoadScene(old(Tables()), old(camerasPath != "" && imagesPath != "" && pointsPath != ""),
                                           cameraLines, imageLines, pointLines)
    {
      if camerasPath == "" || imagesPath == "" || pointsPath == "" {
        return Some(MissingPath);
      }
      var cs, ce := ParseCameraFile(cameraLines);
      if ce.Some? {
        return Some(Parse(ce.value));
      }
      var cameraTable := KeyByMethod(cs, CameraId);
      cameras := Some(cameraTable);
      var ims, ie := ParseImageFile(imageLines);
      if ie.Some? {
        return Some(Parse(ie.value));
      }
      var imageTable := KeyByMethod(ims, ImageId);
      images := Some(imageTable);
      var ps, pe := ParsePointFile(pointLines);
      if pe.Some? {
        return Some(Parse(pe.value));
      }
      var pointTable := KeyByMethod(ps, LandmarkId);
      points := Some(pointTable);
      err := None;
    }
  }

  /** The dict comprehension's loop. */
  method KeyByMethod<T>(xs: seq<T>, key: T -> int) returns (m: map<int, T>)
    ensures m == KeyBy(xs, key)
  {
    m := map[];
    for i := 0 to |xs|
      invariant m == KeyBy(xs[..i], key)
    {
      assert xs[..i + 1][..i] == xs[..i];
      m := m[key(xs[i]) := xs[i]];
    }
    assert xs[..|xs|] == xs;
  }
}
