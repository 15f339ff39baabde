# synthmap core, modelled in Dafny

synthmap catalogues COLMAP photogrammetry projects. Several projects can show
the same photograph, and the core builds one new COLMAP project for an
entity (a place) out of every image registered to it and every image matched
to those. This model covers that merge, the codecs and parsers it depends on,
and the small parsers and helpers around it:

- **COLMAP conventions** (`PairIndex`, `BlobCodec`). These are the pair-id
  codec `pair_id = min * 2147483647 + max` and its inverse, and the raw
  row-major byte dump of numpy arrays and its reinterpretation. Element types
  are fixed-width bit-vectors, little-endian.
- **`project.ini` handling** (`ProjectIni`). These are `get_proj_dirs`, which
  reads at most the first 11 lines, and the line rewrite of
  `update_project_paths`.
- **Catalog queries** (`ColmapCatalog`, `RelatedImages`). The SQL lookups are
  functions over the catalog tables, held as sequences of rows. On top of
  them sit:
  - the pair filter of `get_imageset_data`;
  - the one-hop neighbours of `list_project_matches_old`;
  - the union, join and stable sort by `project_id` of
    `get_entity_related_images`.
- **The merge** (`EntityMerge`, `EntityProject`, `EntityMergeProperties`,
  `TempDatabase`). `create_entity_project` is modelled in three layers:
  - a functional specification, `EntityMerge.Merge`;
  - imperative methods that fill the same maps in loops and insert into an
    in-memory output database (`TempDb`, a class with one map per table);
  - the lemmas that say what the merge achieves.

  The first pass runs over the related rows in `project_id` order. An image
  held by several projects gets one new id, handed to its first row, when
  all its copies carry the same descriptor bytes. Every copy is marked
  excluded and points at that row. When the descriptors differ, every copy
  is skipped. Ids are consumed before the inserts that may be refused. The
  second pass re-keys each kept match with the new ids of its two endpoints.
- **`ColmapProject`** (`ColmapModels`, `ColmapProjectModel`). This covers:
  - the duplicate pair codec `ids_i2p` / `ids_p2i` / `p2i`;
  - `yield_pairs_for`, with its in-place column reversal;
  - the six table loaders and `load_all`, which stops at the first loader
    that raises;
  - the referential validators.
- **COLMAP text models** (`ColmapScene`). These are the `cameras.txt`,
  `images.txt` and `points3D.txt` parsers and `Scene.load_all`. Tokens are
  kept as text, and only the `int()` conversions are interpreted.
- **AliceVision** (`AliceParser`). This is `resolve_folders` (a POSIX
  `Path.parents[1]` then `os.path.join`) and the key rewriting of
  `parse_sfm`.
- **Entity tree** (`EntityTree`). This is `Entity.to_tree` and its recursive
  `merge_list`, which nests entities by their address.
- **Structural equality** (`ModelEquality`). This is `BaseModel.is_eq`.

`Text` holds the Python string operations the parsers use: `str.strip`,
`str.split()`, `str.split("=")`, `startswith` and `int()` on decimal digits.
`StableSort` holds the stable `sorted(..., key=...)`. `Wrappers` holds
`Option` and `Result`.

SQLite, the file system and the printing are not modelled. A query result
or a file's lines are parameters, and the output database is a set of maps
that enforce the schema's keys.

## Model

| member | source | states |
|---|---|---|
| PairIndex.ImageIdsToPairId | synthmap/projectManager/colmapParser.py:32-37 | the pair id is the smaller id times 2147483647 plus the larger, so it depends only on the unordered pair, and is non-negative for valid ids |
| PairIndex.PairIdToImageIds | synthmap/projectManager/colmapParser.py:40-45 | the decoded pair satisfies `id1 * MAX_IMAGE_ID + id2 == pair_id` with `0 <= id2 < MAX_IMAGE_ID` |
| PairIndex.QuotientRemainderUnique | synthmap/projectManager/colmapParser.py:43-44 | the (quotient, remainder) split used by the decoder is unique |
| PairIndex.PairIdSymmetric | synthmap/projectManager/colmapParser.py:32-37 | the pair id does not depend on the order of the two image ids |
| PairIndex.PairIdRoundTrip | synthmap/projectManager/colmapParser.py:21-45 | for ids in `[0, 2^31-1)`, decoding the encoded pair gives `(min, max)` |
| PairIndex.PairIdDecodeEncode | synthmap/projectManager/colmapParser.py:32-45 | re-encoding a decoded id whose first part is not above its second gives the id back |
| PairIndex.PairIdInjective | synthmap/projectManager/colmapParser.py:21-37 | on valid ids, two pairs share a pair id only when they are the same unordered pair |
| PairIndex.PairIdKnownValue | synthmap/projectManager/colmapParser.py:32-45 | (1,2) and (2,1) both give 2147483649, which decodes to (1,2) |
| PairIndex.PairIdCollidesOutOfRange | synthmap/projectManager/colmapParser.py:21-37 | outside the valid range the code collides: (0, 2^31) and (1,1) share an id, so the bound is needed |
| BlobCodec.ItemSize | synthmap/projectManager/colmapParser.py:48-55 | every element type is 1, 4 or 8 bytes wide |
| BlobCodec.ElementBytes | synthmap/projectManager/colmapParser.py:48-50 | an element dumps to exactly its type's width in bytes |
| BlobCodec.ElementFromBytes | synthmap/projectManager/colmapParser.py:53-55 | reinterpreting a width of bytes gives an element of the requested dtype |
| BlobCodec.Word32RoundTrip | synthmap/projectManager/colmapParser.py:48-55 | a 32-bit word survives the little-endian dump and reload |
| BlobCodec.Word32BytesRoundTrip | synthmap/projectManager/colmapParser.py:48-55 | four bytes survive the reload and dump |
| BlobCodec.Word64RoundTrip | synthmap/projectManager/colmapParser.py:48-55 | a 64-bit word survives the little-endian dump and reload |
| BlobCodec.Word64BytesRoundTrip | synthmap/projectManager/colmapParser.py:48-55 | eight bytes survive the reload and dump |
| BlobCodec.ElementRoundTrip | synthmap/projectManager/colmapParser.py:48-55 | every element survives dump then reload as its own type |
| BlobCodec.ElementBytesRoundTrip | synthmap/projectManager/colmapParser.py:48-55 | every width of bytes survives reload then dump |
| BlobCodec.Reshape | synthmap/projectManager/colmapParser.py:55 | a successful reshape has exactly as many cells as the buffer has elements |
| BlobCodec.BytesItemsLength | synthmap/projectManager/colmapParser.py:55 | `frombuffer` yields `len(blob) / itemsize` elements |
| BlobCodec.BytesItemsTyped | synthmap/projectManager/colmapParser.py:55 | every element `frombuffer` yields has the requested dtype |
| BlobCodec.ItemsBytesLength | synthmap/projectManager/colmapParser.py:50 | `tobytes` of n same-typed elements is n * itemsize bytes |
| BlobCodec.ItemsBytesAt | synthmap/projectManager/colmapParser.py:50 | byte `i * itemsize + k` of the dump is byte k of element i |
| BlobCodec.ItemsRoundTrip | synthmap/projectManager/colmapParser.py:48-55 | elements dumped then reloaded with their dtype are unchanged |
| BlobCodec.DecodeOneMore | synthmap/projectManager/colmapParser.py:48-55 | decoding an element's bytes in front of a decodable buffer yields that element in front of the buffer's elements |
| BlobCodec.BytesRoundTrip | synthmap/projectManager/colmapParser.py:48-55 | a buffer of whole elements reloaded then dumped is unchanged |
| BlobCodec.ArrayToBlob | synthmap/projectManager/colmapParser.py:48-50 | a well-formed array dumps to exactly its cell count times its type width in bytes; its layout and round trip are stated by ArrayToBlobLayout and MatrixRoundTrip |
| BlobCodec.BlobToArray | synthmap/projectManager/colmapParser.py:53-55 | a blob that is not whole elements raises; a decoded array is well formed, of the requested dtype, with one element per width of bytes; BlobLengthDecides and DecodedArrayDumpsBack relate it to ArrayToBlob |
| BlobCodec.ArrayToBlobLayout | synthmap/projectManager/colmapParser.py:48-50 | a matrix dumps to rows*cols*width bytes, cell (i,j) at offset `(i*cols+j)*width` (row-major) |
| BlobCodec.MatrixRoundTrip | synthmap/test/test_colmapParser.py:219-228 | `blob_to_array(array_to_blob(M), M.dtype, M.shape) == M` for every matrix |
| BlobCodec.VectorRoundTrip | synthmap/projectManager/colmapParser.py:53-55 | with the default shape `(-1,)` a vector survives the round trip |
| BlobCodec.DecodedArrayDumpsBack | synthmap/projectManager/colmapParser.py:48-55 | whatever decodes is well formed, has the requested dtype and dumps back to the same bytes |
| BlobCodec.BlobLengthDecides | synthmap/projectManager/colmapParser.py:53-55 | decoding to (rows, cols) succeeds exactly when the blob is rows*cols*width bytes long |
| BlobCodec.ScaledCount | synthmap/projectManager/colmapParser.py:48-55 | for the three item sizes, n chunks fill a buffer of k chunks exactly when n == k |
| BlobCodec.ItemsBytesU8 | synthmap/projectManager/colmapParser.py:50 | a uint8 array dumps to exactly its own values, one byte per element |
| BlobCodec.Uint8SampleBlob | synthmap/test/test_colmapParser.py:15-20 | the 5x2 uint8 sample dumps to the sample's ten bytes |
| BlobCodec.Float32SampleBytes | synthmap/test/test_colmapParser.py:22-31 | the first float32 sample cell dumps little-endian to `b4 20 24 bf` |
| Text.LeadingSpacesExact | synthmap/projectManager/colmapParser.py:73 | counts the whitespace prefix exactly: all spaces, and the next character is not one |
| Text.TrailingSpacesExact | synthmap/projectManager/colmapParser.py:73 | counts the whitespace suffix exactly |
| Text.StripMiddle | synthmap/projectManager/colmapParser.py:73 | `str.strip()` returns the middle slice between the leading and trailing whitespace (every character `str.isspace` accepts), with no whitespace at either end |
| Text.StripEmptyIffBlank | synthmap/models/colmapScene.py:72-73 | a stripped line is empty exactly when it is all whitespace |
| Text.WordLength | synthmap/models/colmapScene.py:77 | the first word runs up to the first whitespace character |
| Text.Split | synthmap/models/colmapScene.py:77 | `str.split()` yields only non-empty tokens holding no character `str.isspace` accepts |
| Text.SplitEmptyIffBlank | synthmap/models/colmapScene.py:77 | a line splits into no tokens exactly when it is blank |
| Text.IndexOf | synthmap/projectManager/colmapParser.py:72 | finds the first occurrence of the separator, or the end |
| Text.SplitPair | synthmap/projectManager/colmapParser.py:72 | `k, v = line.split("=")` succeeds exactly when the line holds one `=`, and `line == k + "=" + v` |
| Text.SplitPairJoin | synthmap/projectManager/colmapParser.py:72 | joining two `=`-free strings with `=` splits back into them |
| Text.CountZeroMeansAbsent | synthmap/projectManager/colmapParser.py:72 | a zero count means the character does not occur |
| Text.CountPrefixFree | synthmap/projectManager/colmapParser.py:72 | counting restarts after the first occurrence |
| Text.DigitValue | synthmap/models/colmapScene.py:81 | a decimal digit is worth 0 to 9 |
| Text.ParseInt | synthmap/models/colmapScene.py:81 | `int()` accepts an optionally signed run of decimal digits, so accepted text ends in a digit |
| StableSort.WithKeyAppend | synthmap/projectManager/colmapParser.py:322 | the elements with a given key distribute over concatenation |
| StableSort.InsertPermutes | synthmap/projectManager/colmapParser.py:322 | insertion adds exactly the element to the multiset of elements |
| StableSort.Insert | synthmap/projectManager/colmapParser.py:322 | one insertion of the sort; InsertPermutes, InsertOrdered, InsertBounded and InsertWithKey state that it adds the element, keeps the order and keeps equal keys in order |
| StableSort.InsertBounded | synthmap/projectManager/colmapParser.py:322 | a lower bound on every key survives inserting an element above it |
| StableSort.InsertOrdered | synthmap/projectManager/colmapParser.py:322 | insertion into a sorted list keeps it sorted |
| StableSort.InsertWithKey | synthmap/projectManager/colmapParser.py:322 | insertion places the element after every element with its key |
| StableSort.NoneWithKey | synthmap/projectManager/colmapParser.py:322 | a sorted list whose first key is larger holds no element of a smaller key |
| StableSort.SortByOrdered | synthmap/projectManager/colmapParser.py:322 | `sorted(key=...)` output is ordered by key |
| StableSort.SortByPermutes | synthmap/projectManager/colmapParser.py:322 | `sorted` output is a permutation of its input |
| StableSort.SortByStable | synthmap/projectManager/colmapParser.py:431-433 | `sorted` is stable: elements of equal key keep their input order (also line 322) |
| StableSort.SortBy | synthmap/projectManager/colmapParser.py:322 | the stable sort; SortByOrdered, SortByPermutes and SortByStable state that its result is ordered by key, a permutation of the input, and keeps equal keys in input order |
| ProjectIni.ReadLines | synthmap/projectManager/colmapParser.py:70-77 | the loop body applied line by line; ReadLinesSnoc and ReadLinesNone state that each line acts on the result so far and that a raised error stays raised |
| ProjectIni.GetProjDirs | synthmap/projectManager/colmapParser.py:65-80 | the counted loop reads exactly the first 11 lines, line by line, into the initial dict |
| ProjectIni.ReadOneMore | synthmap/projectManager/colmapParser.py:70-77 | one more iteration reads one more line |
| ProjectIni.ReadLine | synthmap/projectManager/colmapParser.py:71-76 | one iteration of the reading loop; DatabaseLineRead, ImageLineRead, OtherLineKept and KeysExclusive state what each kind of line stores, and ReadLinesNone that a failed unpacking raises |
| ProjectIni.ReadLinesSnoc | synthmap/projectManager/colmapParser.py:70-77 | reading a run then one more line applies that line to the run's result, and a raised error stays raised |
| ProjectIni.ReadLinesNone | synthmap/projectManager/colmapParser.py:72-75 | once a `split("=")` unpacking has raised, later lines change nothing |
| ProjectIni.FailureIsFinal | synthmap/projectManager/colmapParser.py:70-79 | a line that raises within the first 11 makes the whole call raise |
| ProjectIni.FailureInPrefix | synthmap/projectManager/colmapParser.py:70-77 | a raising line inside any run of lines makes reading that run raise |
| ProjectIni.KeysExclusive | synthmap/projectManager/colmapParser.py:71-74 | no line is both a `database_path` and an `image_path` line |
| ProjectIni.ImagePathKey | synthmap/projectManager/colmapParser.py:74-76 | the key an `image_path` line writes is never one of the fixed keys |
| ProjectIni.FixedKeysKept | synthmap/projectManager/colmapParser.py:68 | the result always keeps `project_file` and `project_type = "colmap"` |
| ProjectIni.LastDatabaseLine | synthmap/projectManager/colmapParser.py:71-73 | finds the last line that starts with `database_path`, or proves there is none |
| ProjectIni.DbPathIsLastDatabaseLine | synthmap/projectManager/colmapParser.py:71-73 | `db_path` is the stripped value of the last `database_path` line, and is absent when there is none |
| ProjectIni.SampleProjectIni | synthmap/test/test_colmapParser.py:254-256 | a three-line sample reads to the four expected keys |
| ProjectIni.SampleLines | synthmap/projectManager/colmapParser.py:70-76 | each sample line has its expected effect |
| ProjectIni.ImageSample | synthmap/projectManager/colmapParser.py:74-76 | the sample `image_path` line stores `images` |
| ProjectIni.OtherLineKept | synthmap/projectManager/colmapParser.py:70-77 | a line with neither prefix leaves the dict unchanged |
| ProjectIni.DatabaseLineRead | synthmap/projectManager/colmapParser.py:71-73 | `database_path=w` stores w under `db_path` |
| ProjectIni.ImageLineRead | synthmap/projectManager/colmapParser.py:74-76 | `image_path=w` stores w under `image_path` |
| ProjectIni.StripSample | synthmap/projectManager/colmapParser.py:73 | strip removes the line's newline |
| ProjectIni.RewriteGuardDiscrepancy | synthmap/projectManager/colmapParser.py:98-101 | as written, an image path alone is ignored, and a database path alone writes `image_path=None` |
| ProjectIni.RewriteLineEffect | synthmap/projectManager/colmapParser.py:97-102 | corrected: a `database_path` line is rewritten exactly when a non-empty database path is given, an `image_path` line exactly when a non-empty image path is given; every other line is copied unchanged |
| ProjectIni.RewriteAgreesWhenBothGiven | synthmap/projectManager/colmapParser.py:98-101 | when both paths are given and non-empty, the corrected rewrite equals the code as written |
| ProjectIni.UpdateProjectPaths | synthmap/projectManager/colmapParser.py:83-102 | nothing is rewritten exactly when neither path is given as a non-empty string (the truthiness test); otherwise the output has one line per input line, line i being the corrected rewrite RewriteLine of input line i (the guard of line 100 is corrected, see Findings) |
| ProjectIni.RewriteLineAsWritten | synthmap/projectManager/colmapParser.py:98-101 | the rewrite as written; RewriteGuardDiscrepancy shows where it departs from the evident intent |
| ProjectIni.RewriteLine | synthmap/projectManager/colmapParser.py:97-102 | the corrected rewrite; RewriteLineEffect states its effect on every kind of line |
| ProjectIni.EmptyPathIsAbsent | synthmap/projectManager/colmapParser.py:87-100 | an empty path string is falsy: it rewrites nothing, exactly as an absent path |
| ColmapCatalog.LocalOf | synthmap/projectManager/colmapParser.py:330-332 | finds a projectImages row for (image, project) exactly when one exists, and returns its local id (also lines 224-225) |
| ColmapCatalog.GlobalOf | synthmap/projectManager/colmapParser.py:224-248 | finds the global image of (project, local id) exactly when a row holds it |
| ColmapCatalog.ProjectsOf | synthmap/projectManager/colmapParser.py:296-301 | lists exactly the projects that hold the image |
| ColmapCatalog.Registered | synthmap/projectManager/colmapParser.py:287-292 | lists exactly the images registered to the entity |
| ColmapCatalog.LookupsInverse | synthmap/projectManager/colmapParser.py:224-235 | with unique rows, the local-to-global and global-to-local lookups are inverse |
| RelatedImages.WantedLocals | synthmap/projectManager/colmapParser.py:328-341 | the requested local-id set is exactly the local ids of the requested images, and the lookup raises exactly when one is missing |
| RelatedImages.KeptMatchesIff | synthmap/projectManager/colmapParser.py:358-366 | a match row is kept exactly when both decoded endpoints are requested |
| RelatedImages.KeptMatches | synthmap/projectManager/colmapParser.py:358-366 | the joined match rows whose decoded endpoints are both requested, in table order; KeptMatchesIff states exactly which are kept |
| RelatedImages.KeptImages | synthmap/projectManager/colmapParser.py:345-368 | the image rows returned are exactly those of requested local ids |
| RelatedImages.GetImagesetData | synthmap/projectManager/colmapParser.py:341-370 | the loop computes the filtered images and matches, in table order, from the database named by the project's ColmapProjects row; as written the Projects query raises (see Findings) |
| RelatedImages.FilterMatches | synthmap/projectManager/colmapParser.py:358-366 | the loop over the matches rows computes the kept matches, in table order |
| RelatedImages.ImagesetData | synthmap/projectManager/colmapParser.py:341-370 | the filter; WantedLocals, KeptImages and KeptMatchesIff state that it keeps exactly the requested images and the matches between two of them |
| RelatedImages.ImagesetDataAsWritten | synthmap/projectManager/colmapParser.py:337-340 | as written the `Projects` query names columns the table lacks, so every call raises |
| RelatedImages.ImagesetDataAsWrittenFails | synthmap/projectManager/colmapParser.py:337-340 | for every input on which the intended filter returns data, the code as written raises instead |
| RelatedImages.WantedLocalsFailureFinal | synthmap/projectManager/colmapParser.py:341 | the first missing image decides the error |
| RelatedImages.Partners | synthmap/projectManager/colmapParser.py:238-249 | the loop over the pair ids; PartnersIff and PartnersFailureFinal state what it yields and which error it raises |
| RelatedImages.PartnersIff | synthmap/projectManager/colmapParser.py:238-249 | the partners are exactly the other endpoints of the pair ids of the `matches` table that hold the image; the lookup raises exactly when a partner has no global id |
| RelatedImages.PartnerLocal | synthmap/projectManager/colmapParser.py:239-249 | the other endpoint of a pair id that holds the image, the second when the image is the first and the first when it is the second; PartnersIff and SelfPairPartner state its use |
| RelatedImages.SelfPairPartner | synthmap/projectManager/colmapParser.py:239-244 | a self-pair id yields the image itself, through the first branch |
| RelatedImages.ListProjectMatches | synthmap/projectManager/colmapParser.py:223-250 | the loop over `SELECT pair_id FROM matches` computes the neighbour list of the image in the project |
| RelatedImages.Neighbours | synthmap/projectManager/colmapParser.py:223-250 | `list_project_matches_old`; ListProjectMatches and PartnersIff state that it holds exactly the image's partners in the matches table |
| RelatedImages.NeighboursIgnoreGeometries | synthmap/projectManager/colmapParser.py:237-238 | the neighbours depend only on the pair ids of the `matches` table, not on `two_view_geometries` |
| RelatedImages.PartnersFailureFinal | synthmap/projectManager/colmapParser.py:241-248 | the first partner without a global id decides the error |
| RelatedImages.ProjectNeighboursIff | synthmap/projectManager/colmapParser.py:302-304 | the union over an image's projects holds exactly each project's neighbours |
| RelatedImages.ProjectNeighbours | synthmap/projectManager/colmapParser.py:302-304 | the union of an image's neighbours over its projects; ProjectNeighboursIff states that it holds exactly each project's neighbours and ProjectNeighboursFailureFinal that a failing project fails it |
| RelatedImages.AllNeighbours | synthmap/projectManager/colmapParser.py:295-309 | the union over the registered images; AllNeighboursIff states that it holds exactly their neighbours and AllNeighboursFailureFinal that a failing image fails it |
| RelatedImages.AllNeighboursIff | synthmap/projectManager/colmapParser.py:295-309 | the union over the registered images holds exactly their neighbours |
| RelatedImages.RelatedImageSet | synthmap/projectManager/colmapParser.py:287-309 | the related set; RelatedImageSetIff states its members |
| RelatedImages.RelatedImageSetIff | synthmap/projectManager/colmapParser.py:287-309 | the related set holds exactly the registered images and every image sharing a `matches` row with one of them in a project that holds it |
| RelatedImages.FilesOfIff | synthmap/projectManager/colmapParser.py:314-318 | the join yields exactly the file rows of the image |
| RelatedImages.FilesOf | synthmap/projectManager/colmapParser.py:314-318 | the projectImages JOIN imageFiles rows of one projectImages row; FilesOfIff states that they are exactly its image's file rows |
| RelatedImages.JoinRows | synthmap/projectManager/colmapParser.py:310-321 | the join over the related set; JoinRowsIff, JoinRowsSplit and JoinRowsEmpty state which rows it yields and that it distributes over concatenation |
| RelatedImages.JoinRowsIff | synthmap/projectManager/colmapParser.py:310-321 | the joined rows are exactly (image, project, local, file) for images of the set |
| RelatedImages.JoinRowsSplit | synthmap/projectManager/colmapParser.py:311-321 | the join of a set is the join of one image plus the join of the rest, as multisets |
| RelatedImages.JoinRowsEmpty | synthmap/projectManager/colmapParser.py:310-321 | the empty set joins to nothing |
| RelatedImages.CollectRelated | synthmap/projectManager/colmapParser.py:287-309 | the loops compute the related set, with the first error |
| RelatedImages.CollectVia | synthmap/projectManager/colmapParser.py:296-308 | the inner loop yields the union of the image's neighbours over every project holding it, or the first project's error |
| RelatedImages.CollectRows | synthmap/projectManager/colmapParser.py:310-321 | iterating the set in any order collects a permutation of the join |
| RelatedImages.GetEntityRelatedImages | synthmap/projectManager/colmapParser.py:285-322 | the result is a permutation of the join of the related set (every `matches` neighbour of a registered image), sorted by `project_id` |
| RelatedImages.ProjectNeighboursFailureFinal | synthmap/projectManager/colmapParser.py:302-304 | the first failing project decides the error |
| RelatedImages.AllNeighboursStep | synthmap/projectManager/colmapParser.py:295-304 | an image whose projects all answer adds its neighbours to the union |
| RelatedImages.AllNeighboursFailureFinal | synthmap/projectManager/colmapParser.py:295-304 | the first failing image decides the error |
| TempDatabase.TempDb.constructor | synthmap/projectManager/colmapParser.py:373-386 | the fresh database has six empty tables |
| TempDatabase.TempDb.InsertImage | synthmap/projectManager/colmapParser.py:379-380 | the insert succeeds exactly when the id is new, the name unused and the id within `[0, 2^31-1)`; a refusal changes nothing |
| TempDatabase.TempDb.InsertCamera | synthmap/projectManager/colmapParser.py:378 | succeeds exactly when the camera id is new |
| TempDatabase.TempDb.InsertKeypoints | synthmap/projectManager/colmapParser.py:381 | succeeds exactly when the image id is new |
| TempDatabase.TempDb.InsertDescriptors | synthmap/projectManager/colmapParser.py:382 | succeeds exactly when the image id is new |
| TempDatabase.TempDb.InsertMatches | synthmap/projectManager/colmapParser.py:383 | succeeds exactly when the pair id is new |
| TempDatabase.TempDb.InsertGeometry | synthmap/projectManager/colmapParser.py:384 | succeeds exactly when the pair id is new |
| TempDatabase.ImageInsertKeepsConstraints | synthmap/projectManager/colmapParser.py:379-380 | an accepted image insert keeps names unique and ids in range |
| EntityMerge.Lcp | synthmap/projectManager/colmapParser.py:421 | the common prefix of two strings is a prefix of both, and they differ right after it |
| EntityMerge.CommonPrefix | synthmap/projectManager/colmapParser.py:421-423 | `commonprefix` is a character prefix of every image path |
| EntityMerge.PathJoin | synthmap/projectManager/colmapParser.py:479 | `os.path.join`: an absolute name replaces the offset, otherwise the name ends the result |
| EntityMerge.ImagePaths | synthmap/projectManager/colmapParser.py:413-423 | every project has its image path, or the first without a ColmapProjects row raises |
| EntityMerge.Offsets | synthmap/projectManager/colmapParser.py:424-427 | an offset exists exactly for each project of the graph |
| EntityMerge.ImageIdsOf | synthmap/projectManager/colmapParser.py:437 | lists exactly the global images the related rows place in the project |
| EntityMerge.Occurrences | synthmap/projectManager/colmapParser.py:455-460 | each project holding the image contributes (project, local id), whose row was loaded |
| EntityMerge.ExcludeAll | synthmap/projectManager/colmapParser.py:456-462 | every occurrence, the current row included, is excluded and points at the current row; other entries are kept |
| EntityMerge.OnConflict | synthmap/projectManager/colmapParser.py:463-473 | corrected: a conflict skips every occurrence and consumes no id |
| EntityMerge.LoadImageData | synthmap/projectManager/colmapParser.py:430-438 | `image_data`; LoadImageDataKeys states it holds exactly the projects loaded, LoadImageDataFailureFinal which error stops it |
| EntityMerge.Step | synthmap/projectManager/colmapParser.py:448-497 | one first-pass iteration; StepLaterRow, StepFirstRow and StepIdEffect state how it skips, resolves and assigns ids |
| EntityMerge.InsertImageGroup | synthmap/projectManager/colmapParser.py:480-497 | the images, cameras, keypoints and descriptors inserts of one image, each skipped on its IntegrityError; ImageGroupAllOrNothing states that a refused images row writes none of the group and an accepted one all four |
| EntityMerge.Assign | synthmap/projectManager/colmapParser.py:474-497 | taking the next id for a row; AssignTakesNextId states that the row's key gets `new_idx + 1`, the counter advances by one and the image group is written under the re-rooted name |
| EntityMerge.OnConflictAsWritten | synthmap/projectManager/colmapParser.py:463-473 | the conflict branch as written; ConflictRaisesAsWritten and ConflictExample state that it raises TypeError before anything is skipped |
| EntityMerge.StepAsWritten | synthmap/projectManager/colmapParser.py:448-497 | one first-pass iteration with the conflict branch as written; ConflictExample states the input on which it raises where Step succeeds |
| EntityMerge.FirstPass | synthmap/projectManager/colmapParser.py:443-497 | the first pass; FirstPassProcessed, FirstPassFreshIds, FirstPassAligned and CanonicalResolution state its result |
| EntityMerge.SecondPass | synthmap/projectManager/colmapParser.py:500-532 | the second pass; SecondPassTotal and SecondPassAligned state that it cannot raise and only adds aligned matches |
| EntityMerge.Resolve | synthmap/projectManager/colmapParser.py:505-514 | the new id of an occurrence, through the occurrence it was excluded in favour of, or its own; EmittedPair and EmitProjectTotal state that after the first pass every kept match resolves to its images' canonical ids |
| EntityMerge.EmitMatch | synthmap/projectManager/colmapParser.py:502-532 | one match: skipped when an endpoint is skipped, otherwise inserted under the pair id of its resolved ids, the IntegrityError of a duplicate pair ignored; EmittedPair states its effect |
| EntityMerge.EmitProject | synthmap/projectManager/colmapParser.py:501-532 | the matches of one project in order; EmitProjectTotal, EmitProjectAligned and EmitProjectFailureFinal state that it cannot raise after the first pass, keeps the tables aligned and stops at an error |
| EntityMerge.Merge | synthmap/projectManager/colmapParser.py:404-533 | the merge with each project database reached through ColmapProjects.db_path; MergeWellFormed states that it succeeds once the first pass does, with unique names, ids in range and aligned tables |
| EntityMerge.LoadImageDataAsWritten | synthmap/projectManager/colmapParser.py:430-438 | `image_data` as written: its first `get_imageset_data` call raises |
| EntityMerge.MergeAsWritten | synthmap/projectManager/colmapParser.py:392-438 | the merge as written, which stops at that call |
| EntityProject.BuildImageGraph | synthmap/projectManager/colmapParser.py:404-410 | the loop builds `image_graph`, `project_count` and the project order |
| EntityProject.LoadImageSets | synthmap/projectManager/colmapParser.py:430-438 | the loop loads each project's image set in size order, each from the database named by its ColmapProjects row (as written the Projects query raises; see Findings) |
| EntityProject.ScanOccurrences | synthmap/projectManager/colmapParser.py:454-462 | the loop collects the occurrences and descriptor set and excludes every occurrence |
| EntityProject.InsertImageRows | synthmap/projectManager/colmapParser.py:480-497 | the four inserts have the effect of the image-group insert |
| EntityProject.AssignId | synthmap/projectManager/colmapParser.py:474-497 | a new id is taken, recorded and used for the inserts, as the first-pass step specifies |
| EntityProject.ProcessRow | synthmap/projectManager/colmapParser.py:448-497 | one row of the first pass: skip an excluded row, resolve a shared image, else assign an id |
| EntityProject.RunFirstPass | synthmap/projectManager/colmapParser.py:443-497 | the loop over related rows computes the first pass |
| EntityProject.EmitProjectMatches | synthmap/projectManager/colmapParser.py:501-532 | the loop re-keys and inserts one project's matches |
| EntityProject.RunSecondPass | synthmap/projectManager/colmapParser.py:500-532 | the loop over projects computes the second pass |
| EntityProject.MergeRelatedRows | synthmap/projectManager/colmapParser.py:404-533 | the whole merge of a list of related rows, with the corrected database lookup |
| EntityProject.CreateEntityProject | synthmap/projectManager/colmapParser.py:392-540 | a query error aborts; otherwise the merge, with the corrected database lookup, runs on a permutation of the joined rows |
| EntityProject.LoadImageDataFailureFinal | synthmap/projectManager/colmapParser.py:431-438 | the first project that fails to load decides the error |
| EntityProject.OccurrencesFailureFinal | synthmap/projectManager/colmapParser.py:456-460 | the first missing occurrence decides the KeyError |
| EntityProject.DescriptorsAppend | synthmap/projectManager/colmapParser.py:459-461 | each occurrence adds its descriptor bytes to the set |
| EntityProject.ExcludeAllAppend | synthmap/projectManager/colmapParser.py:462 | each occurrence adds one exclusion |
| EntityProject.FirstPassFailureFinal | synthmap/projectManager/colmapParser.py:447-497 | the first failing row decides the first pass's error |
| EntityProject.EmitProjectFailureFinal | synthmap/projectManager/colmapParser.py:501-516 | the first match without a new id decides the error |
| EntityProject.SecondPassFailureFinal | synthmap/projectManager/colmapParser.py:500-516 | the first failing project decides the second pass's error |
| EntityMergeProperties.FirstIndex | synthmap/projectManager/colmapParser.py:447-452 | finds the first related row of an image |
| EntityMergeProperties.GraphAt | synthmap/projectManager/colmapParser.py:406-408 | with consistent rows, `image_graph[p][g]` is the row's local id |
| EntityMergeProperties.CountHas | synthmap/projectManager/colmapParser.py:409 | every row's project is in its image's `project_count` |
| EntityMergeProperties.CountTwo | synthmap/projectManager/colmapParser.py:409 | an image with two rows counts as shared (also line 452) |
| EntityMergeProperties.OccurrencesAreRowKeys | synthmap/projectManager/colmapParser.py:455-460 | the occurrences of an image are exactly the keys of its related rows |
| EntityMergeProperties.RowStateLater | synthmap/projectManager/colmapParser.py:448-451 | passing a row leaves what is recorded for the rows of other images as it was |
| EntityMergeProperties.ProcessedPastLaterRow | synthmap/projectManager/colmapParser.py:449-451 | passing a row whose image was met before keeps what is recorded for every row |
| EntityMergeProperties.LaterRowExcluded | synthmap/projectManager/colmapParser.py:449-461 | a later row of an image was put in `excluded` when the image's first row was handled |
| EntityMergeProperties.StepLaterRow | synthmap/projectManager/colmapParser.py:449-451 | a later row of an image already handled is skipped and changes nothing |
| EntityMergeProperties.StepFirstRow | synthmap/projectManager/colmapParser.py:452-497 | the first row of an image resolves all its occurrences |
| EntityMergeProperties.FirstPassProcessed | synthmap/projectManager/colmapParser.py:447-497 | after n rows every image seen so far is resolved and no other is touched |
| EntityMergeProperties.CanonicalResolution | synthmap/projectManager/colmapParser.py:446-475 | after the first pass a conflicting image is skipped and unresolved; any other row resolves to the id of its image's first row (also line 322) |
| EntityMergeProperties.AssignTakesNextId | synthmap/projectManager/colmapParser.py:474-497 | an assignment gives the row's key `new_idx + 1`, advances the counter by one and writes the image group under that id with its name re-rooted |
| EntityMergeProperties.StepIdEffect | synthmap/projectManager/colmapParser.py:448-497 | a loop iteration either leaves the ids alone or gives the row's key the counter's next value |
| EntityMergeProperties.FreshIdsNext | synthmap/projectManager/colmapParser.py:474-475 | taking the counter's next value keeps every handed-out id distinct and within the counter |
| EntityMergeProperties.StepKeepsFreshIds | synthmap/projectManager/colmapParser.py:474-475 | a step takes at most one id, the next counter value |
| EntityMergeProperties.FirstPassFreshIds | synthmap/projectManager/colmapParser.py:446-475 | new ids lie in 1..new_idx and are pairwise distinct |
| EntityMergeProperties.SameIdIffSameImage | synthmap/projectManager/colmapParser.py:446-475 | two non-conflicting rows resolve to the same new id exactly when they show the same global image (also lines 505-514) |
| EntityMergeProperties.ImageGroupAllOrNothing | synthmap/projectManager/colmapParser.py:480-497 | a refused images row means none of the group is written; otherwise all four are |
| EntityMergeProperties.InsertGroupKeepsAligned | synthmap/projectManager/colmapParser.py:476-497 | writing the image group under the next id keeps the four image tables on the same ids and within the counter |
| EntityMergeProperties.AssignKeepsAligned | synthmap/projectManager/colmapParser.py:474-497 | an assignment keeps the tables aligned |
| EntityMergeProperties.StepKeepsAligned | synthmap/projectManager/colmapParser.py:474-497 | a step keeps the four image tables on the same ids, within the counter |
| EntityMergeProperties.FirstPassAligned | synthmap/projectManager/colmapParser.py:447-497 | after the first pass the image tables align and no match exists yet |
| EntityMergeProperties.RefusedImageConsumesId | synthmap/projectManager/colmapParser.py:474-497 | a refused name still consumes and records its new id |
| EntityMergeProperties.EmitProjectAligned | synthmap/projectManager/colmapParser.py:518-532 | the second pass only adds matches and geometries, and keeps their keys equal |
| EntityMergeProperties.EmittedPair | synthmap/projectManager/colmapParser.py:503-516 | a match touching a conflicting image is dropped; otherwise its pair id encodes its endpoints' canonical ids |
| EntityMergeProperties.EmitProjectTotal | synthmap/projectManager/colmapParser.py:505-514 | with the first pass done, every kept match finds both new ids |
| EntityMergeProperties.SecondPassTotal | synthmap/projectManager/colmapParser.py:500-514 | the second pass cannot raise |
| EntityMergeProperties.JoinedRowsCatalogued | synthmap/projectManager/colmapParser.py:314-318 | joined rows agree with the projectImages lookup |
| EntityMergeProperties.CataloguedConsistent | synthmap/projectManager/colmapParser.py:406-408 | catalogued rows give each (project, image) one local id |
| EntityMergeProperties.KeptMatchesCovered | synthmap/projectManager/colmapParser.py:364-366 | every kept match joins two related rows of its project |
| EntityMergeProperties.LoadedMatchesCovered | synthmap/projectManager/colmapParser.py:430-438 | so does every loaded match |
| EntityMergeProperties.MergeWellFormed | synthmap/projectManager/colmapParser.py:392-533 | once the first pass succeeds the merge succeeds, names are unique, ids in range and tables aligned |
| EntityMergeProperties.SecondPassAligned | synthmap/projectManager/colmapParser.py:500-532 | the second pass only adds matches and geometries with equal keys |
| EntityMergeProperties.ProjectOrderFacts | synthmap/projectManager/colmapParser.py:404-410 | the project order lists each project of the related rows once |
| EntityMergeProperties.LcpLongest | synthmap/projectManager/colmapParser.py:421 | no longer common prefix exists |
| EntityMergeProperties.CommonPrefixLongest | synthmap/projectManager/colmapParser.py:421-423 | `commonprefix` is the longest common character prefix |
| EntityMergeProperties.EmitOrderFacts | synthmap/projectManager/colmapParser.py:431-433 | projects are ordered by decreasing image count, as a stable permutation |
| EntityMergeProperties.LoadImageDataKeys | synthmap/projectManager/colmapParser.py:430-438 | image data exists exactly for the projects loaded |
| EntityMergeProperties.ConflictRaisesAsWritten | synthmap/projectManager/colmapParser.py:463-473 | as written a conflict raises TypeError; corrected, every occurrence is skipped and excluded |
| EntityMergeProperties.ExampleOccurrencesFound | synthmap/projectManager/colmapParser.py:455-460 | the example image has two occurrences |
| EntityMergeProperties.ExampleDescriptorsDiffer | synthmap/projectManager/colmapParser.py:459-463 | their descriptors differ |
| EntityMergeProperties.ConflictExample | synthmap/projectManager/colmapParser.py:463-473 | that input reaches the conflict branch and, as written, raises |
| EntityMergeProperties.ConflictExampleCorrected | synthmap/projectManager/colmapParser.py:463-473 | corrected, the same input skips both copies, points both at the first and hands out no id |
| EntityMergeProperties.ProjectOrderHolds | synthmap/projectManager/colmapParser.py:404-410 | every related row's project is in the project order |
| EntityMergeProperties.MergeAsWrittenFails | synthmap/projectManager/colmapParser.py:430-438 | as written, any entity with at least one related row whose projects all have ColmapProjects rows aborts with the Projects query error |
| EntityMergeProperties.MergeAsWrittenAgreesWhenEmpty | synthmap/projectManager/colmapParser.py:392-438 | with no related rows the code as written and the corrected merge agree |
| ColmapModels.IdsI2P | synthmap/models/colmap.py:139-142 | `ids_i2p` is the same codec as `image_ids_to_pair_id`: min * 2147483647 + max |
| ColmapModels.IdsP2I | synthmap/models/colmap.py:144-147 | `ids_p2i` agrees with `pair_id_to_image_ids` and splits the id exactly |
| ColmapModels.IdsRoundTrip | synthmap/models/colmap.py:139-147 | `ids_p2i(ids_i2p(a,b)) == (min, max)` and the encoding is order-insensitive |
| ColmapModels.PartnerOfEncodedPair | synthmap/models/colmap.py:364-372 | each endpoint yields the other, a third image yields nothing, and only the larger endpoint of a distinct pair swaps columns |
| ColmapModels.SelfPairNotSwapped | synthmap/models/colmap.py:365-366 | a self-pair yields itself without a swap |
| ColmapModels.MirrorIndexFacts | synthmap/models/colmap.py:371 | the column mirror stays in the row, mirrors the column and is an involution |
| ColmapModels.ReverseColumns | synthmap/models/colmap.py:371 | `data[:, ::-1]` keeps shape and dtype |
| ColmapModels.ReverseColumnsAt | synthmap/models/colmap.py:371 | cell (i, j) of the result is cell (i, cols-1-j) |
| ColmapModels.ReverseColumnsInvolutive | synthmap/models/colmap.py:371 | reversing twice restores the array |
| ColmapModels.PairRecord.P2I | synthmap/models/colmap.py:149-150 | `p2i` decodes the record's own pair id exactly |
| ColmapModels.Visited | synthmap/models/colmap.py:362-371 | a visit keeps data None as None and keeps the shape |
| ColmapModels.AfterVisit | synthmap/models/colmap.py:360-372 | visiting every pair keeps their number and validity |
| ColmapModels.VisitTwiceRestores | synthmap/models/colmap.py:368-372 | a second call reverses the swapped columns back |
| ColmapModels.Yields | synthmap/models/colmap.py:360-372 | every yield refers to one of the pairs |
| ColmapModels.YieldsExactly | synthmap/models/colmap.py:360-372 | (partner, pair) is yielded exactly when the pair has data and holds the image |
| ColmapModels.YieldedIff | synthmap/models/colmap.py:360-372 | the same, for one partner and position |
| ColmapModels.YieldsInOrder | synthmap/models/colmap.py:360-372 | pairs are yielded in dict order, each at most once |
| ColmapModels.Snapshots | synthmap/models/colmap.py:360-361 | the state of the records, one per record |
| ColmapModels.VisitPair | synthmap/models/colmap.py:362-372 | one iteration: the partner when data is present, and the columns reversed in place when the image is the second endpoint |
| ColmapModels.YieldPairsFor | synthmap/models/colmap.py:360-372 | the loop yields exactly the specified partners with their records and leaves every record visited |
| ColmapProjectModel.CameraFromRow | synthmap/models/colmap.py:247-255 | a NULL params column raises TypeError; otherwise params decode as float64 exactly when the blob is a multiple of 8 bytes, and dump back to it |
| ColmapProjectModel.ImageFromRow | synthmap/models/colmap.py:263-266 | an images row validates exactly when `prior_qw` is NULL |
| ColmapProjectModel.DecodeOptional | synthmap/models/colmap.py:274-308 | an empty blob gives None; a decoded blob is a matrix of the dtype that dumps back to it |
| ColmapProjectModel.DecodeOptionalOkIff | synthmap/models/colmap.py:275-278 | a non-empty blob decodes exactly when it is rows*cols*width bytes |
| ColmapProjectModel.ImageDataFromRow | synthmap/models/colmap.py:269-296 | an empty blob fails the required `data`; otherwise the row's bytes become a matrix of the dtype |
| ColmapProjectModel.KeypointsFromRow | synthmap/models/colmap.py:269-281 | a keypoints row decoded as float32; ImageDataFromRow's contract gives its result |
| ColmapProjectModel.DescriptorsFromRow | synthmap/models/colmap.py:283-296 | a descriptors row decoded as uint8; ImageDataFromRow's contract gives its result |
| ColmapProjectModel.MatchesFromRow | synthmap/models/colmap.py:303-311 | an empty blob keeps `data` None; the pair id is the row's |
| ColmapProjectModel.ParseMatrix3 | synthmap/models/colmap.py:315-330 | an empty F/E/H blob is absent; otherwise it parses exactly when it is 72 bytes |
| ColmapProjectModel.GeometryFromRow | synthmap/models/colmap.py:314-340 | a geometry row loads exactly when its data and F/E/H blobs parse, and each of F/E/H is absent exactly when its blob is empty |
| ColmapProjectModel.FirstFailure | synthmap/models/colmap.py:247-255 | finds the first row that fails to convert, or proves none does |
| ColmapProjectModel.FillStopsAtFirstFailure | synthmap/models/colmap.py:247-255 | a loader raises exactly at the first bad row, keeping the rows before it |
| ColmapProjectModel.FillKeys | synthmap/models/colmap.py:247-248 | after a loop that raised nothing the table holds exactly its old keys and the row keys |
| ColmapProjectModel.FillLastWins | synthmap/models/colmap.py:247-248 | the last row with a key wins |
| ColmapProjectModel.Fill | synthmap/models/colmap.py:247-255 | `for row in rows: table[key(row)] = convert(row)`; FillStopsAtFirstFailure, FillKeys, FillLastWins and FillKeepsOthers state where it stops, its keys, that the last row wins and that other keys are kept |
| ColmapProjectModel.FillKeepsOthers | synthmap/models/colmap.py:247-248 | keys no row has keep their old values |
| ColmapProjectModel.LoadTable | synthmap/models/colmap.py:244-247 | the table is set even when the query fails, to `{}` if it was None |
| ColmapProjectModel.FillRows | synthmap/models/colmap.py:247-255 | the loop fills the table as specified |
| ColmapProjectModel.RunLoader | synthmap/models/colmap.py:242-341 | a loader leaves its own table set, even when it raises |
| ColmapProjectModel.RunLoaderFrame | synthmap/models/colmap.py:242-341 | a loader leaves every other table as it was |
| ColmapProjectModel.RunLoaderKeepsPresent | synthmap/models/colmap.py:242-341 | a loader never unsets a table that was set |
| ColmapProjectModel.RunLoadersNext | synthmap/models/colmap.py:344-355 | while nothing has raised, the next loader runs on the tables the earlier ones left |
| ColmapProjectModel.RunLoaders | synthmap/models/colmap.py:344-355 | the loop of `load_all`; RunLoadersNext, FailureIsFinal and LoadAllStopsAtFirstFailure state that the loaders run in order and the first exception ends it |
| ColmapProjectModel.FailureIsFinal | synthmap/models/colmap.py:352-358 | after a loader raises, `load_all` runs no further loader |
| ColmapProjectModel.LoadersTouchOwnTables | synthmap/models/colmap.py:343-351 | a table whose loader did not run is unchanged |
| ColmapProjectModel.LoadAllStopsAtFirstFailure | synthmap/models/colmap.py:343-358 | the tables of the loaders after a failure keep their old values |
| ColmapProjectModel.SuccessFillsTables | synthmap/models/colmap.py:343-354 | without failure every loader's table is set |
| ColmapProjectModel.LoadOrderRunsEach | synthmap/models/colmap.py:344-351 | the order names each of the six loaders once |
| ColmapProjectModel.LoadAllFillsEveryTable | synthmap/models/colmap.py:343-354 | a successful `load_all` sets all six tables |
| ColmapProjectModel.ImagesCameraIdsIff | synthmap/models/colmap.py:194-198 | non-empty images are rejected exactly when some image's camera id is not a camera |
| ColmapProjectModel.DataImageIdsIff | synthmap/models/colmap.py:200-214 | non-empty keypoints or descriptors are rejected exactly when some image id is not an image |
| ColmapProjectModel.Validate | synthmap/models/colmap.py:194-214 | the validators as intended: images before keypoints before descriptors, each rejected with ValueError when it refers to a missing id |
| ColmapProjectModel.ValidateIff | synthmap/models/colmap.py:194-214 | the intended validators pass exactly when images name known cameras and keypoints and descriptors name known images |
| ColmapProjectModel.ValidateAsWritten | synthmap/models/colmap.py:194-214 | the validators as written: `cls.cameras` and `cls.images` are not class attributes of a pydantic model, so any non-empty images, keypoints or descriptors raise AttributeError |
| ColmapProjectModel.ValidateAsWrittenIff | synthmap/models/colmap.py:194-214 | as written, validation passes exactly when images, keypoints and descriptors are each None or empty |
| ColmapProjectModel.ConsistentProjectRefused | synthmap/models/colmap.py:194-198 | a project with one camera and one image of that camera is valid as intended but raises as written |
| ColmapProjectModel.ColmapProject.constructor | synthmap/models/colmap.py:182-192 | a new project has no tables |
| ColmapProjectModel.ColmapProject.LoadCamerasFrom | synthmap/models/colmap.py:242-256 | the camera loader's effect on the project |
| ColmapProjectModel.ColmapProject.LoadImagesFrom | synthmap/models/colmap.py:258-267 | the image loader's effect |
| ColmapProjectModel.ColmapProject.LoadKeypointsFrom | synthmap/models/colmap.py:269-282 | the keypoint loader's effect |
| ColmapProjectModel.ColmapProject.LoadDescriptorsFrom | synthmap/models/colmap.py:284-297 | the descriptor loader's effect |
| ColmapProjectModel.ColmapProject.LoadMatchesFrom | synthmap/models/colmap.py:299-312 | the match loader's effect |
| ColmapProjectModel.ColmapProject.LoadGeometriesFrom | synthmap/models/colmap.py:314-341 | the geometry loader's effect |
| ColmapProjectModel.ColmapProject.Load | synthmap/models/colmap.py:344-351 | calling one entry of the loader list has that loader's effect |
| ColmapProjectModel.ColmapProject.LoadAll | synthmap/models/colmap.py:343-358 | runs the six loaders in order, stopping at the first that raises |
| ColmapScene.Content | synthmap/models/colmapScene.py:72-76 | the lines a parser acts on are non-empty, stripped and not comments |
| ColmapScene.ContentStopsAtBlank | synthmap/models/colmapScene.py:72-73 | parsing stops at the first blank line, whatever follows |
| ColmapScene.ContentSkipsComment | synthmap/models/colmapScene.py:74-76 | a `#` line is skipped |
| ColmapScene.ContentOfPlainLines | synthmap/models/colmapScene.py:72-77 | without blank or comment lines every line is read, stripped |
| ColmapScene.ContentStep | synthmap/models/colmapScene.py:72-76 | one read: stop at blank, skip a comment, or take the line |
| ColmapScene.TokenAt | synthmap/models/colmapScene.py:77-81 | indexing past the tokens raises IndexError |
| ColmapScene.IntAt | synthmap/models/colmapScene.py:81 | `int(tokens[i])` succeeds exactly when the token exists and is an integer |
| ColmapScene.ParseCameraLine | synthmap/models/colmapScene.py:77-86 | a camera line parses exactly when it has at least 4 tokens and tokens 0, 2, 3 are integers; the rest are params |
| ColmapScene.ParseEach | synthmap/models/colmapScene.py:73-89 | the records of a stateless line parser; ParseEachYields states one record per content line until the first error |
| ColmapScene.ParseEachYields | synthmap/models/colmapScene.py:73-89 | records are yielded one per content line until the first failing line, whose error is raised |
| ColmapScene.ReadFromContent | synthmap/models/colmapScene.py:71-89 | reading line by line (stop at an empty line, skip `#` lines, parse the rest) is parsing each content line in file order |
| ColmapScene.ReadRecords | synthmap/models/colmapScene.py:71-89 | the generator loop yields the specified records |
| ColmapScene.ParseCameraFile | synthmap/models/colmapScene.py:69-89 | `parse_camera_file` is the record reader with the camera line parser |
| ColmapScene.ParseHeader | synthmap/models/colmapScene.py:101-131 | a 10-token header parses exactly when tokens 0 and 8 are integers |
| ColmapScene.LandmarksIntShift | synthmap/models/colmapScene.py:132-142 | the landmark tokens of a line are those of its first triple and of the rest |
| ColmapScene.FeaturesOfTriples | synthmap/models/colmapScene.py:132-142 | a features line parses exactly when it is whole triples with integer landmarks |
| ColmapScene.FeaturesOf | synthmap/models/colmapScene.py:132-142 | the `3 * iteration < len(tokens)` loop over a features line; FeaturesOfTriples and FeaturesOfValues state when it parses and that feature k is triple k |
| ColmapScene.FeaturesOfValues | synthmap/models/colmapScene.py:132-142 | a parsed features line has one feature per triple, feature k made of triple k |
| ColmapScene.ParseFeatures | synthmap/models/colmapScene.py:132-142 | the `iteration` loop computes the features |
| ColmapScene.ImagesFrom | synthmap/models/colmapScene.py:96-145 | the records of the image parser; ImagesFromCons, HeaderThenFeatures and FeaturesBeforeHeaderRaise state how headers and feature lines combine |
| ColmapScene.ImagesFromCons | synthmap/models/colmapScene.py:96-145 | a header line updates the header; a features line yields; an error stops |
| ColmapScene.ReadImageLine | synthmap/models/colmapScene.py:100-144 | one line of the image loop |
| ColmapScene.ImageLine | synthmap/models/colmapScene.py:100-144 | one content line of images.txt: a 10-token line is a new header, any other line yields its features with the current header, KeyError without one; HeaderThenFeatures and FeaturesBeforeHeaderRaise state both cases |
| ColmapScene.ParseImageFile | synthmap/models/colmapScene.py:91-145 | the loop yields the specified images |
| ColmapScene.HeaderThenFeatures | synthmap/models/colmapScene.py:101-144 | a header then a features line yield one image, only after the features line |
| ColmapScene.FeaturesBeforeHeaderRaise | synthmap/models/colmapScene.py:142-143 | a features line before any header raises KeyError (also line 93) |
| ColmapScene.TrackPairs | synthmap/models/colmapScene.py:171 | the track pairs tokens 8/9, 10/11, ... and drops an odd trailing token |
| ColmapScene.DictOfLastWins | synthmap/models/colmapScene.py:171 | in the track dict, the last pair with a key wins |
| ColmapScene.DictOf | synthmap/models/colmapScene.py:171 | `dict(pairs)`; DictOfLastWins states that its keys are the pairs' keys and each holds its last value |
| ColmapScene.ParsePointLine | synthmap/models/colmapScene.py:155-171 | a point line parses exactly when it has at least 8 tokens with integers at 0, 4, 5, 6; the id and r, g, b are `int()` of tokens 0 and 4-6, xyz is tokens 1-3, error token 7, and the track the dict of the pairs from token 8 on |
| ColmapScene.ParsePointFile | synthmap/models/colmapScene.py:147-173 | `parse_point_file` is the record reader with the point line parser |
| ColmapScene.KeyBy | synthmap/models/colmapScene.py:178-182 | the dict comprehension; KeyByLastWins states it holds each id with the last entry of that id |
| ColmapScene.KeyByLastWins | synthmap/models/colmapScene.py:178-182 | a table holds each id, and a later duplicate overwrites |
| ColmapScene.LoadScene | synthmap/models/colmapScene.py:175-183 | `load_all`; LoadSceneStopsAtFailure states which tables a failing file leaves unchanged |
| ColmapScene.LoadSceneStopsAtFailure | synthmap/models/colmapScene.py:175-183 | a failing file leaves its table and the later ones unchanged; success sets all three |
| ColmapScene.Scene.constructor | synthmap/models/colmapScene.py:60-67 | a scene starts with its paths and no tables |
| ColmapScene.Scene.LoadAll | synthmap/models/colmapScene.py:175-183 | `load_all` keeps the paths and loads the tables in order |
| ColmapScene.KeyByMethod | synthmap/models/colmapScene.py:178 | the dict comprehension computes the keyed table |
| AliceParser.Segments | synthmap/projectManager/aliceParser.py:10 | splitting a path on `/` gives at least one segment |
| AliceParser.JoinSegments | synthmap/projectManager/aliceParser.py:10 | joining the segments gives the path back |
| AliceParser.SegmentsAroundSlash | synthmap/projectManager/aliceParser.py:10-11 | segments split at a slash |
| AliceParser.SegmentsOfPlain | synthmap/projectManager/aliceParser.py:10 | a slash-free string is one segment |
| AliceParser.SegmentsJoin | synthmap/projectManager/aliceParser.py:10 | slash-free segments survive joining and splitting |
| AliceParser.Keep | synthmap/projectManager/aliceParser.py:10 | `Path` drops empty and `.` segments |
| AliceParser.KeepAppend | synthmap/projectManager/aliceParser.py:10 | dropping distributes over concatenation |
| AliceParser.KeepParts | synthmap/projectManager/aliceParser.py:10 | proper parts are kept |
| AliceParser.Parts | synthmap/projectManager/aliceParser.py:10 | a path's parts are proper and slash-free |
| AliceParser.SegmentsHaveNoSlash | synthmap/projectManager/aliceParser.py:10 | no segment holds a slash |
| AliceParser.KeepSubset | synthmap/projectManager/aliceParser.py:10 | kept parts come from the segments |
| AliceParser.Grandparent | synthmap/projectManager/aliceParser.py:10 | `parents[1]` exists exactly when the path has two parts |
| AliceParser.GrandparentParts | synthmap/projectManager/aliceParser.py:10 | the grandparent drops the last two parts and keeps absoluteness |
| AliceParser.JoinStartsWithFirst | synthmap/projectManager/aliceParser.py:11 | a join starts with its first segment |
| AliceParser.DropSix | synthmap/projectManager/aliceParser.py:11 | `folder_path[6:]` drops the first six characters, or gives "" |
| AliceParser.ResolveFolders | synthmap/projectManager/aliceParser.py:6-11 | resolution fails exactly when the project path has no grandparent |
| AliceParser.GrandparentSlash | synthmap/projectManager/aliceParser.py:10 | the grandparent is non-empty and ends in a slash only when it is the root |
| AliceParser.PathJoin | synthmap/projectManager/aliceParser.py:11 | `os.path.join`; JoinRelative, JoinStartsWithFirst and JoinEndsWithLast state its parts and absoluteness |
| AliceParser.JoinRelative | synthmap/projectManager/aliceParser.py:11 | `os.path.join` of a directory and a relative path has the directory's parts followed by the path's, and is absolute exactly when the directory is |
| AliceParser.ResolveFoldersComponents | synthmap/projectManager/aliceParser.py:6-11 | an absolute rest is returned as is; otherwise the result is the grandparent's parts followed by the rest's |
| AliceParser.JoinEndsWithLast | synthmap/projectManager/aliceParser.py:11 | a join of proper parts does not end with a slash |
| AliceParser.ResolveEntry | synthmap/projectManager/aliceParser.py:6-23 | one folder entry: a non-list is kept; an empty list raises IndexError; a non-empty list raises IndexError when the project path has no grandparent, whatever its first element (the grandparent is taken before the folder is sliced), and otherwise resolves exactly when its first element is a string, TypeError if not |
| AliceParser.Sfm | synthmap/projectManager/aliceParser.py:14-24 | `parse_sfm`; SfmResult states when it succeeds and what it holds, and its errors are those of ResolveEntry in the order the source meets them |
| AliceParser.SfmResult | synthmap/projectManager/aliceParser.py:14-24 | the result exists exactly when both folder keys exist and resolve; own keys override, folders are resolved, other keys are kept |
| AliceParser.ResolveEntryCases | synthmap/projectManager/aliceParser.py:6-23 | a list becomes its resolved first element, an empty list raises IndexError, anything else is kept; a non-string first element raises IndexError under a project path with no grandparent and TypeError otherwise |
| AliceParser.ShortPathBeforeFolderType | synthmap/projectManager/aliceParser.py:10-11 | a bare file name has at most one part, so a list entry with a non-string first element raises IndexError (the grandparent lookup) rather than TypeError (the slice) |
| AliceParser.ParseSfm | synthmap/projectManager/aliceParser.py:14-24 | the in-place rewriting of the folder entries computes Sfm, so it succeeds and fails (IndexError before TypeError) exactly as SfmResult and ResolveEntry state |
| ModelEquality.MapOf | synthmap/models/common.py:15-16 | `dict(pairs)` holds exactly the keys of the pairs |
| ModelEquality.MapOfDistinct | synthmap/models/common.py:15-16 | with distinct keys, each key maps to its own value |
| ModelEquality.MapOfAt | synthmap/models/common.py:15-16 | with distinct keys, pair i is held under its own key |
| ModelEquality.AsDict | synthmap/models/common.py:16 | `dict(other)` over the values this model treats as mappings: a model, a dict and the empty string succeed (the string with no entries); a non-empty string raises ValueError, anything else TypeError |
| ModelEquality.Subscript | synthmap/models/common.py:28 | `od[key][idx]`: a dict yields the entry exactly when the key is present (else KeyError); a string yields a character or IndexError; anything else is not subscriptable |
| ModelEquality.IsEq | synthmap/models/common.py:14-32 | `is_eq`; IsEqMeaning, IsEqNotSymmetric and IsEqReflexive state when it is true |
| ModelEquality.FieldsEq | synthmap/models/common.py:17-32 | the loop over self's fields; FieldsEqMeaning states when it is true and when false |
| ModelEquality.FieldCheck | synthmap/models/common.py:20-31 | one field's comparison by the kind of its value; EmptyDictFieldPasses and NonModelItemRaisesFirst state the dict branch's edge cases |
| ModelEquality.EntriesEq | synthmap/models/common.py:27-29 | the loop over a dict field's items; EntriesEqMeaning states when it is true |
| ModelEquality.ArrayEq | synthmap/models/common.py:20-21 | arrays compare when shapes match, and `all()` true means equal |
| ModelEquality.FieldsEqMeaning | synthmap/models/common.py:17-32 | true exactly when every field passes; false exactly when the first failure is a missing key or a false check |
| ModelEquality.FieldsEqTrue | synthmap/models/common.py:17-32 | the walk is true exactly when every remaining field passes |
| ModelEquality.FieldsEqFalse | synthmap/models/common.py:17-31 | the walk is false exactly when it reaches a missing field or a false check with every field before it passing |
| ModelEquality.FieldsEqStep | synthmap/models/common.py:17-31 | one iteration: a passing field continues the walk, a missing field or false check returns False, a raising check raises |
| ModelEquality.IsEqMeaning | synthmap/models/common.py:14-32 | `is_eq` is true exactly when `dict(other)` works and every field of self passes, so every field of self is in other |
| ModelEquality.IsEqNotSymmetric | synthmap/models/common.py:17-32 | fields only in other are ignored: a small model equals a larger one but not the reverse |
| ModelEquality.IsEqReflexive | synthmap/test/test_pydanticModels.py:61-66 | a well-formed model `is_eq` itself |
| ModelEquality.FieldsReflexive | synthmap/models/common.py:17-31 | every field of a model passes against itself |
| ModelEquality.EntriesReflexive | synthmap/models/common.py:26-29 | every dict entry passes against the dict itself |
| ModelEquality.EntriesEqMeaning | synthmap/models/common.py:27-29 | the dict loop is true exactly when every item is a model, `other[idx]` exists and the item `is_eq` it |
| ModelEquality.EntriesEqPasses | synthmap/models/common.py:27-29 | a passing item continues the loop |
| ModelEquality.EntriesEqFails | synthmap/models/common.py:27-29 | a failing item ends the loop with False or an error |
| ModelEquality.EmptyDictFieldPasses | synthmap/models/common.py:26-29 | a dict field with no items passes against any value, whatever its type |
| ModelEquality.NonModelItemRaisesFirst | synthmap/models/common.py:28 | an item that is not a model raises AttributeError before `other` is subscripted |
| ModelEquality.EmptyDictAgainstNone | synthmap/models/common.py:14-32 | an empty dict field is_eq None; a model with no fields is_eq "" and raises ValueError on a non-empty string |
| EntityTree.PathOf | synthmap/models/synthmap.py:106-120 | the path is country, greater_admin, admin, town, postal, local_area, way_name, way_number, detail, label, entity_id |
| EntityTree.PathsOfDistinctEntitiesDiffer | synthmap/models/synthmap.py:118-120 | entities with distinct ids have distinct paths |
| EntityTree.PathsMember | synthmap/models/synthmap.py:90-102 | a tree path is a key followed by a path of its child |
| EntityTree.PathsNonEmpty | synthmap/models/synthmap.py:90-102 | tree paths are non-empty |
| EntityTree.SinglePath | synthmap/models/synthmap.py:93-95 | a fresh `tree[data[0]] = data[1:]` holds exactly that path |
| EntityTree.PathsAfterUpdate | synthmap/models/synthmap.py:101 | writing `tree[data[0]]` changes only the paths under that key |
| EntityTree.ReplaceAddsPath | synthmap/models/synthmap.py:99-102 | writing under the first key a node that holds the old paths there plus the rest of the path adds exactly that path |
| EntityTree.MergeList | synthmap/models/synthmap.py:90-102 | `merge_list`; MergeListAddsPath states that it succeeds exactly when the path is new and then adds exactly that path |
| EntityTree.MergeListAddsPath | synthmap/models/synthmap.py:90-102 | `merge_list` succeeds exactly when the path is new, and then adds exactly that path |
| EntityTree.TreeDict.constructor | synthmap/models/synthmap.py:104-105 | a new tree is empty |
| EntityTree.ToTree | synthmap/models/synthmap.py:86-121 | the result holds `merge_list` of the given tree (or `{}`) with the entity's path; an empty or missing tree gives a fresh tree; a non-empty tree is mutated and returned, and left as it was when `merge_list` raises |
| EntityTree.PathSetSnoc | synthmap/models/synthmap.py:104-121 | adding an entity adds its path |
| EntityTree.NewEntityPathIsNew | synthmap/models/synthmap.py:118-120 | a new entity id gives a new path |
| EntityTree.Accumulate | synthmap/app/cli_modules/show.py:43-45 | the tree after the `to_tree` loop; AccumulateHoldsEntities states it holds exactly the paths of distinct entities |
| EntityTree.AccumulateSnoc | synthmap/app/cli_modules/show.py:43-45 | one more loop iteration merges the next entity's path into the tree so far |
| EntityTree.AccumulateOneMore | synthmap/app/cli_modules/show.py:43-45 | the same step, stated on prefixes of the entity list |
| EntityTree.AccumulateStep | synthmap/models/synthmap.py:104-121 | one more `to_tree` call adds exactly the entity's path |
| EntityTree.AccumulateHoldsEntities | synthmap/app/cli_modules/show.py:43-45 | repeated calls on entities with distinct ids hold exactly their paths |
| EntityTree.DuplicateEntityRaises | synthmap/models/synthmap.py:96-98 | adding the same entity twice raises IndexError on the exhausted list |
| EntityTree.SingleLeafRefuses | synthmap/models/synthmap.py:90-102 | merging a path into a tree that holds only that path fails with IndexError |
| EntityTree.BuildTree | synthmap/app/cli_modules/show.py:43-45 | the loop builds the accumulated tree |
| EntityTree.AccumulateFailureFinal | synthmap/models/synthmap.py:96-98 | once a call raises, the accumulation fails |

## Left out

- SQLite, files and printing are not modelled. Query results and file lines
  are parameters, and the output database is in-memory maps with the
  schema's keys. `temp_db.backup`, `os.mkdir`, the output-directory check and
  the logging are absent.
- Floating-point values are not modelled. Keypoints, F/E/H, poses and camera
  parameters are opaque bit patterns or tokens. `float()` conversions in the
  text parsers are not checked, so a float token that does not parse does
  not raise in the model.
- PairIndex.PairIdToImageIds: exact integer division stands for the
  source's float `/`, which is exact only while `pair_id < 2^53`.
- ColmapModels.IdsP2I: the same float division, modelled exactly.
- Text.ParseInt: accepts an optional sign and ASCII decimal digits only;
  Python's `int()` also accepts surrounding whitespace, `_` separators and
  the decimal digits of other scripts (Unicode category Nd).
- `os.path.relpath` (colmapParser.py:425) is a parameter of the merge, not a
  model of the path library.
- The set iteration order in `get_entity_related_images` is unspecified; the
  model proves the result for every order (a permutation), then sorted.
- `get_imageset_data` looks the project database up with
  `SELECT file_path, db_path, image_path FROM Projects`, columns the
  Projects table does not have (see Findings). The corrected model replaces
  that lookup by the project's ColmapProjects.db_path.
- ProjectIni.UpdateProjectPaths: applies the corrected guard; as written a
  database path alone writes `image_path=None` and an image path alone
  rewrites nothing (RewriteLineAsWritten, RewriteGuardDiscrepancy).
- RelatedImages.GetImagesetData: states the corrected lookup; as written
  every call raises.
- EntityProject.LoadImageSets: states the corrected lookup; as written the
  first project raises.
- EntityProject.MergeRelatedRows: states the corrected lookup; as written
  any entity with related rows raises.
- EntityProject.CreateEntityProject: states the corrected lookup; as written
  any entity with related rows raises.
- The pydantic validators are modelled as functions over the tables, both
  as written and as intended (see Findings). When pydantic runs them (at
  construction or assignment) is not modelled.
- Path arguments are modelled as strings. A `Path` object is always truthy,
  so the model's empty-string case stands for the `str` arguments only.
- ModelEquality.AsDict: `dict()` of a numpy array iterates its rows, so an
  array with no rows gives `{}` and a two-column matrix a dict; the model
  treats every array as TypeError.
- ModelEquality.Subscript: indexing a numpy array by a dict key is not
  modelled; the model treats it as TypeError.
- ModelEquality: scalars other than strings compare by their text, so
  `1 == 1.0` is false in the model.
- ColmapModels.YieldPairsFor: requires the records to be distinct objects.
  A dict whose values alias one record would reverse it twice.
- The image parser reuses one `image_data` dict across yields. The model
  yields values, so aliasing between yielded images is not captured.
- `Entity.to_tree` nests Python dicts that can be shared. The model's tree is
  a value held by one `TreeDict`, so sharing between subtrees is not
  captured.
- `Path` treats a leading `//` specially; the model treats it as `/`.
- AliceParser.ResolveEntry: a first folder that is a JSON object is
  reported as TypeError, as slicing a dict raises it before Python 3.12;
  from 3.12 on, slices are hashable and the slice raises KeyError instead.
- `is_eq` compares arrays with numpy broadcasting and NaN semantics; the
  model requires equal shapes and compares elements textually.
- Generators are modelled as the list of everything they yield before the
  first error.

## Findings

| source | as written | input that shows it | evidently intended | confidence | as-written member | corrected member |
|---|---|---|---|---|---|---|
| synthmap/projectManager/colmapParser.py:463-473 | a descriptor conflict runs `", ".join` over integer project ids (TypeError), and then iterates dict keys as pairs | image 7 held by projects 1 and 2 with different descriptor bytes | every occurrence is put in `skip` and no id is consumed | not executed | EntityMergeProperties.ConflictExample | EntityMerge.OnConflict, EntityMergeProperties.ConflictExampleCorrected |
| synthmap/projectManager/colmapParser.py:100 | the `image_path` rewrite is guarded by `database_path` | `image_path=old` with only a database path given becomes `image_path=None`; with only an image path given it is left unchanged | the `image_path` line is rewritten when an image path is given | not executed | ProjectIni.RewriteGuardDiscrepancy | ProjectIni.RewriteLineEffect, ProjectIni.UpdateProjectPaths |
| synthmap/projectManager/colmapParser.py:337-340 | `get_imageset_data` selects `file_path, db_path, image_path` from `Projects`, whose schema (synthmap/db/manager.py:32-35) has none of these columns (nor `id`), so sqlite raises OperationalError | any entity with at least one related image whose project has a ColmapProjects row | the project database is found through ColmapProjects.db_path | not executed | RelatedImages.ImagesetDataAsWrittenFails, EntityMergeProperties.MergeAsWrittenFails | EntityMerge.Merge, EntityMergeProperties.MergeWellFormed |
| synthmap/models/colmap.py:194-214 | the validators read `cls.cameras` and `cls.images`, which a pydantic model class does not have as attributes, so they raise AttributeError | one camera and one image of that camera | images name known cameras and keypoints and descriptors name known images | not executed | ColmapProjectModel.ValidateAsWritten, ColmapProjectModel.ConsistentProjectRefused | ColmapProjectModel.Validate, ColmapProjectModel.ValidateIff |
