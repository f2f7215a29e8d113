# Stored constants, captured expressions and incremental builds

A model in Dafny of the parts of the repository that decide something by more than one line: the decoders of
PostgreSQL's stored constants, the capture of stored expressions, the incremental build with its coordinator and
watcher, the maps between positions in edited text, and the catalog facts kept over a run of statements. Wherever
the source works step by step (loops with cursors, work stacks, objects with fields) there is a method or a class in
the same form; it is proved equal to a specification function, and the promises are proved about that function for
all inputs, all runs, or all reachable states.

`dafny verify dfyconfig.toml` checks everything.

## Map

- `Bytes.dfy`, `Utf8.dfy`, `Records.dfy`: buffers, words in either byte order, UTF-8; keyed records and stable sorting.
- `Numeric.dfy`, `Jsonb.dfy`, `Tsquery.dfy`, `Container.dfy`, `XmlArray.dfy`: native values, their encoders and their
  decoders. `Jsonpath.dfy` (table validator and rendering), `JsonpathUnfold.dfy` (what a table says),
  `JsonpathStored.dfy` (which tables are accepted), `JsonpathCapture.dfy` (the renderer with its fields),
  `JsonpathEncode.dfy` (the native encoder). `StoredConstants.dfy` starts from a printed CONST node.
- `JsonText.dfy`, `JsonpathText.dfy`: readers of JSON text and of path text by their grammars, with tokens of their own,
  against which the two renderers are proved.
- `ExpressionTree.dfy`: PostgreSQL's node trees as text. `StoredRow.dfy`: capturing them as SQL expressions.
- `Coordinator.dfy`, `Watcher.dfy`: the two protocols as state machines whose steps are the stretches between awaits.
  `QueryBatch.dfy`, `QueryAnalysis.dfy`, `ProjectBuild.dfy`, `BuildArtifacts.dfy`, `ArtifactWriter.dfy`: the cached
  build, what it contains and its events;
  `CoordinatedBuilds.dfy` joins them with the coordinator.
- `Removals.dfy`, `NamedParameters.dfy`, `ErrorRange.dfy`: positions through edits.
- `Provenance.dfy`, `Closures.dfy`, `SkippedTypes.dfy`: facts kept by the schema builder; closures over inheritance and
  types, and what they let the container decoder skip.

## How things are represented

- Text is its UTF-8 bytes. Decoding bytes and comparing them with the re-encoded text accepts exactly the well-formed
  byte sequences (section 4 of RFC 3629), so on accepted input the two representations are in bijection.
- A thrown exception or `undefined` is `None`; an exception that reaches a caller is `Throw` or `Rejected`.
- SHA-256 is an injective function. Parsing is a function of a file's content, analysing of a query's statement, command
  and parameters and of the options, rendering of everything a target is handed; that the cache keys suffice is proved.
- The disk is a map from paths to contents. A promise is a number; a settlement or a resolved drain is recorded.
- A native encoder is written for each stored format, independently of the decoder, and the decoder is proved against it.

## Where the code differs from its comments

`expandTokenRange` says that a byte which is no word byte is reported alone. At a non-word byte that touches word bytes
it reports those words too; `ErrorRange.AroundIsDescribed` gives the exact condition and `ErrorRange.PunctuationIsNotAlone`
an input.

## What the render cache may keep

tests/unit/project-parity.test.ts asks that a persistent build converge to what a build from nothing gives. A rendering is
cached under the target's key, the route, and each query's name, statement hash and semantic result
(src/project-build.ts:210-216). The statement hash does not change with the layout of the SQL, but a target is handed the
SQL text too, and src/codegen/go/query.ts:144 writes it into the artifact. So after an edit of layout alone the old text
stays: `ProjectBuild.StaleText`. Caches serve every request exactly for targets that render nothing of the queries but what
the keys know (`ProjectBuild.ServesIffAttentive`); with such targets a build is the build from nothing.

## Where byte order is not known

Three decoders return nothing when several readings are possible and differ. For tsquery and xml arrays that never happens
(`Bytes.HeaderFixesOrder`), so their theorems are exact; for containers it can, and `Container.UnknownLayout` says when.

## Model

| member | source | states |
|---|---|---|
| Bytes.HeaderFixesOrder | src/catalog/tsquery-constant-storage.ts:76-100 | no buffer has a four-byte header that states its length in both byte orders |
| Utf8.ReadableIff | src/catalog/jsonb-constant-storage.ts:20-25 | bytes a decoder takes for text are exactly the UTF-8 form of characters, of ASCII ones unless the database encoding is UTF-8, none of them zero where a zero byte is refused |
| Tsquery.ValidTsqueryConstantStorage | src/catalog/tsquery-constant-storage.ts:20-74 | the stack replay accepts exactly the empty query and the postorders of operator trees within field limits |
| Tsquery.ReplayDecides | src/catalog/tsquery-constant-storage.ts:24-74 | a node list replays to one root (or none, if empty) if and only if it is the table of some query within limits |
| Tsquery.ReplayIsForest | src/catalog/tsquery-constant-storage.ts:24-74 | what the replay has accepted so far is a forest of queries whose roots are the stack |
| Tsquery.TableInjective | src/catalog/tsquery-constant-storage.ts:20-74 | a node table determines its query |
| Tsquery.ReadIn | src/catalog/tsquery-constant-storage.ts:82-166 | the reverse scan with its node list and stack of roots, in one byte order, computes the specified reading |
| Tsquery.NativeReading | src/catalog/tsquery-constant-storage.ts:82-166 | prefix items natively stored for a query are read as that query's postorder |
| Tsquery.ReadingIsNative | src/catalog/tsquery-constant-storage.ts:82-166 | whatever is read was natively stored for some query |
| Tsquery.NativePortable | src/catalog/tsquery-constant-storage.ts:164-166 | the final validation never rejects what the scan built |
| Tsquery.TsqueryConstantStorage | src/catalog/tsquery-constant-storage.ts:76-171 | with the byte order unknown a value comes out if and only if the bytes store it in one of the orders |
| Tsquery.EncodeIsNative | src/catalog/tsquery-constant-storage.ts:82-166 | the independent encoder writes the native form of every query storable in the database encoding |
| Tsquery.RoundTrip | src/catalog/tsquery-constant-storage.ts:76-171 | encoding any storable query in either byte order and database encoding and decoding it gives its postorder |
| Numeric.NumericStorageText | src/catalog/numeric-constant-storage.ts:30-85 | the decoder with its digit loop computes the specified text |
| Numeric.TextDenotes | src/catalog/numeric-constant-storage.ts:67-84 | an accepted finite number's text denotes the signed sum of its base-10000 digits at its display scale, without surplus zeros |
| Numeric.TextIffExact | src/catalog/numeric-constant-storage.ts:77-78 | a finite number is accepted if and only if its value is a multiple of the unit of its display scale |
| Numeric.TextInjective | src/catalog/numeric-constant-storage.ts:67-84 | nonzero numbers with the same text agree in sign, scale, weight and digits |
| Numeric.EveryForm | src/catalog/numeric-constant-storage.ts:30-85 | a text comes out exactly of the bytes of a number that has one, NaN and both infinities included, in either byte order, behind either varlena header and in the long or short form, and it is that number's |
| Numeric.ReadExactly | src/catalog/numeric-constant-storage.ts:53-76 | a body is read as a value if and only if it is one of the bodies of that value |
| Jsonb.ScanTiles | src/catalog/jsonb-constant-storage.ts:66-77 | accepted entries tile the container's data exactly, whether a word stores a length or an end offset |
| Jsonb.TilesScan | src/catalog/jsonb-constant-storage.ts:66-77 | entries that tile the data are found by the loop |
| Jsonb.ContainerShrinks | src/catalog/jsonb-constant-storage.ts:24-116 | opening a container strictly lowers the stack's byte weight, so the work loop ends |
| Jsonb.Render | src/catalog/jsonb-constant-storage.ts:24-116 | the work-stack loop: output so far followed by what the stack renders to never changes |
| Jsonb.RunHeld | src/catalog/jsonb-constant-storage.ts:24-116 | running a stack with a stored container on top writes the container's text and then what is below |
| Jsonb.RendersDocument | src/catalog/jsonb-constant-storage.ts:24-116 | every stored document is rendered as its JSON text |
| Jsonb.RendersOnlyDocuments | src/catalog/jsonb-constant-storage.ts:24-116 | text comes out only of bytes that hold a document, and it is that document's text |
| Jsonb.ContainerUnique | src/catalog/jsonb-constant-storage.ts:24-116 | bytes hold at most one document |
| Jsonb.DocumentSound | src/catalog/jsonb-constant-storage.ts:40-99 | at every depth of an accepted document an object's keys are pairwise distinct and a number is finite and exact at its scale |
| Jsonb.KeyOrder | src/catalog/jsonb-constant-storage.ts:84-97 | a key precedes another if it is shorter, or as long and smaller in the first byte that differs |
| Jsonb.RoundTrip | src/catalog/jsonb-constant-storage.ts:8-116 | the native encoding of any document in either byte order is rendered as its JSON text |
| JsonText.StringReads | src/catalog/jsonb-constant-storage.ts:32-35 | a quoted string is read back by the escapes of RFC 8259, whatever follows it |
| JsonText.ValueReads | src/catalog/jsonb-constant-storage.ts:24-116 | the text of a document is read by the JSON grammar as that document |
| JsonText.RenderedReads | src/catalog/jsonb-constant-storage.ts:24-116 | whatever bytes are rendered hold a document that the text reads as |
| Container.DecodeConstant | src/catalog/container-constant-storage.ts:150-353 | the recursive decoder computes the specified reading and ends, each step but a domain's getting a shorter slice |
| Container.LoadElements | src/catalog/container-constant-storage.ts:292-306 | the element loop with its moving position and null bitmap computes the specified elements |
| Container.LoadFields | src/catalog/container-constant-storage.ts:332-352 | the field loop over live and dropped attributes computes the specified fields |
| Container.LoadRange | src/catalog/container-constant-storage.ts:197-225 | the bound reader computes the specified bounds of one range |
| Container.LoadRanges | src/catalog/container-constant-storage.ts:230-261 | the multirange loop computes the specified ranges from their offsets or lengths |
| Container.DecodesValue | src/catalog/container-constant-storage.ts:150-353 | every conforming value, arrays with nulls, rows with dropped attributes, ranges and multiranges nested to any depth, encoded in any layout, is decoded to exactly its facet |
| Container.KnownLayout | src/catalog/container-constant-storage.ts:95-367 | with byte order and alignment given the facet comes out |
| Container.UnknownLayout | src/catalog/container-constant-storage.ts:109-111 | with either unknown nothing but the facet comes out, and it does if and only if no possible layout reads something else |
| Container.AlignDefined | src/catalog/container-constant-storage.ts:120-132 | the reader skips exactly the bytes a server pads to widths 1, 2, 4 and, for doubles, 4 or 8, and refuses other alignments |
| Container.ReadContainerConstant | src/catalog/container-constant-storage.ts:95-367 | the loops over byte orders and alignments compute the agreement of all candidates |
| ArrayLiteral.WriteDenotes | src/catalog/xml-array-constants.ts:95-114 | reading an array literal by its grammar gives back the bounds, the nulls and the unescaped strings |
| ArrayLiteral.WriteInjective | src/catalog/xml-array-constants.ts:95-114 | different arrays have different literals |
| ArrayLiteral.FoldKeeps | src/catalog/xml-array-constants.ts:96-110 | nesting uses every element once in row-major order and keeps the dimensions' lengths |
| XmlArray.Format | src/catalog/xml-array-constants.ts:96-110 | the recursive printer with its shared index writes one subtree and consumes exactly the product of the lengths |
| XmlArray.LoadArray | src/catalog/xml-array-constants.ts:10-94 | the decode loops in one byte order compute the specified array |
| XmlArray.ReadsNative | src/catalog/xml-array-constants.ts:10-94 | every native array of text is read as what it holds |
| XmlArray.OneOrder | src/catalog/xml-array-constants.ts:10-13 | at most one byte order reads a given header |
| XmlArray.TextDenotes | src/catalog/xml-array-constants.ts:1-114 | whatever text comes out denotes the array that was read |
| XmlArray.NativeText | src/catalog/xml-array-constants.ts:1-114 | a stored array's literal comes out, whichever server stored it |
| XmlArray.XmlArrayConstantText | src/catalog/xml-array-constants.ts:1-114 | the method over both byte orders computes the specified text |
| JsonpathTable.ValidJsonpathConstantStorage | src/catalog/jsonpath-constant-storage.ts:34-108 | the validator with its pending stack accepts exactly the tables within limits, links, kinds and flags of either sign included, whose links form one tree |
| JsonpathTable.WalkIffTree | src/catalog/jsonpath-constant-storage.ts:98-107 | the walk meets no node twice and all of them if and only if next, left and right form one tree covering every nonzero node once |
| Jsonpath.Renders | src/catalog/jsonpath-constant-storage.ts:187-398 | rendering a path without shared items writes its text and appends exactly its entries, linked by table index, and fails if the path has no text |
| JsonpathCapture.Capture.Render | src/catalog/jsonpath-constant-storage.ts:187-398 | the renderer with its nodes, positions and active fields computes that, restores the active set, and its active guard never changes the result |
| JsonpathCapture.Capture.FillIn | src/catalog/jsonpath-constant-storage.ts:348-388 | filling in an entry, with the chain of subscript entries linked by patching the previous one |
| JsonpathCapture.EntryAppended | src/catalog/jsonpath-constant-storage.ts:360-373 | adding one subscript patches only the last entry's link |
| JsonpathCapture.StoredJsonpathValue | src/catalog/jsonpath-constant-storage.ts:110-120 | the capture is returned if and only if it is a valid table |
| JsonpathUnfold.HeldIsFormed | src/catalog/jsonpath-constant-storage.ts:213-283 | whatever an image holds has the detail and the number of arguments of its kinds |
| JsonpathUnfold.FlatStands | src/catalog/jsonpath-constant-storage.ts:197-200 | a table containing a path's entries unfolds, link by link, to that path |
| JsonpathUnfold.StandsForOne | src/catalog/jsonpath-constant-storage.ts:348-388 | an entry unfolds to at most one path |
| JsonpathUnfold.CaptureIsInjective | src/catalog/jsonpath-constant-storage.ts:348-388 | different paths are captured differently |
| JsonpathStored.CapturedIsOneTree | src/catalog/jsonpath-constant-storage.ts:98-107 | the table captured from a path is one tree covering all its entries |
| JsonpathStored.FlatValid | src/catalog/jsonpath-constant-storage.ts:73-97 | its entries are within the validator's limits if and only if no text has a zero byte and no bound exceeds a signed word |
| JsonpathStored.RendersText | src/catalog/jsonpath-constant-storage.ts:187-398 | the text of any image, shared items or not, is the text of the path it holds |
| JsonpathStored.StoredTextIsPath | src/catalog/jsonpath-constant-storage.ts:122-408 | a text comes out if and only if the body is version 1 and holds a path with that text |
| JsonpathStored.StoredPath | src/catalog/jsonpath-constant-storage.ts:110-120 | for an unshared path the table unfolds to the path and nothing else, and is valid if and only if the path is portable |
| JsonpathEncode.EncodedIsHeld | src/catalog/jsonpath-constant-storage.ts:197-283 | the native encoding of a path, with padding and relative offsets, is held by the image |
| JsonpathEncode.EncodedIsUnshared | src/catalog/jsonpath-constant-storage.ts:205-210 | in that encoding every item has a place of its own inside it |
| JsonpathEncode.RoundTrip | src/catalog/jsonpath-constant-storage.ts:122-408 | decoding what a server of either byte order stores for a path gives its text and its table |
| JsonpathText.TextReadsBack | src/catalog/jsonpath-constant-storage.ts:213-283 | a path's text, wherever it has one, is read by the path grammar, with tokens of its own for operators, methods, accessors, subscripts and flags, as that path |
| JsonpathText.StoredTextReads | src/catalog/jsonpath-constant-storage.ts:122-408 | whatever text comes out reads, mode word included, as the path the body holds, shared items or not |
| JsonpathText.TextAndTableAgree | src/catalog/jsonpath-constant-storage.ts:284-388 | text and table captured from a path say the same: the text reads as the term that the table unfolds to, in the evaluator's node numbers (crates/check-evaluator/src/jsonpath.rs) |
| StoredConstants.PrintedBytes | src/catalog/constant-storage-bytes.ts:3-23 | a printed constant's bytes come back, however the server signs them |
| StoredConstants.ReferenceExactly | src/catalog/constant-storage-bytes.ts:3-23 | bytes come out if and only if the node says it is no null, by reference and of that length, and lists their number and each byte as a number from -128 to 255 that has it as its low eight bits |
| StoredConstants.PrintedBody | src/catalog/constant-storage-bytes.ts:25-45 | the body comes back from behind either header form |
| StoredConstants.BodyExactly | src/catalog/constant-storage-bytes.ts:25-45 | a body comes out if and only if the node states bytes that frame it by either header |
| StoredConstants.PrintedNumeric | src/catalog/numeric-constant-storage.ts:3-28 | from the printed node, in any header form and any form of the number, special values included, to the numeric text, or to nothing if there is none |
| StoredConstants.PrintedJsonb | src/catalog/jsonb-constant-storage.ts:8-16 | from the printed node to the JSON text |
| StoredConstants.PrintedTsquery | src/catalog/tsquery-constant-storage.ts:188-200 | from the printed node to the postorder in any database encoding, the four-byte header being rebuilt from either form |
| StoredConstants.PrintedJsonpath | src/catalog/jsonpath-constant-storage.ts:110-131 | from the printed node to the path's table, exactly when the path has a text and is portable |
| ExpressionTree.Tokenize | src/catalog/expression-tree.ts:4-36 | the cursor loops compute the specified tokens, an unclosed quote being refused |
| ExpressionTree.TokensOfLayout | src/catalog/expression-tree.ts:4-36 | tokens laid out with any sufficient white space are found again |
| ExpressionTree.LayoutOfTokens | src/catalog/expression-tree.ts:4-36 | every accepted text is such a layout of its tokens |
| ExpressionTree.ParsesPrint | src/catalog/expression-tree.ts:37-69 | parsing the tokens of any well-formed value gives the value and leaves the rest |
| ExpressionTree.PrintOf | src/catalog/expression-tree.ts:37-69 | whatever parses is the print of a well-formed value, token for token |
| ExpressionTree.ParseInvertsPrint | src/catalog/expression-tree.ts:4-69 | a text parses to a value if and only if it is a print of it, so trailing or unbalanced tokens are refused |
| ExpressionTree.ParseTree | src/catalog/expression-tree.ts:4-69 | the recursive reader with its position computes the specified parse |
| StoredRow.PlacesIff | src/catalog/stored-row-expressions.ts:751-770 | named and positional arguments are placed if and only if no position is out of range, doubly supplied or positional behind a named one, and each goes to its parameter |
| StoredRow.PlaceArguments | src/catalog/stored-row-expressions.ts:751-770 | the loop that writes `values[position]` computes that placement |
| StoredRow.FindBaseType | src/catalog/stored-row-expressions.ts:144-152 | the loop down the domains computes the base type and stops at a cycle |
| StoredRow.BaseTypeIff | src/catalog/stored-row-expressions.ts:144-152 | the base type is the type that is no domain at the end of the chain of domains, if the chain ends |
| StoredRow.ReadsInteger | src/catalog/stored-row-expressions.ts:590-603 | the fixed-width reads are the two's complement value of the low-order bytes |
| StoredRow.PreservesConst | src/catalog/stored-row-expressions.ts:535-604 | a captured integer, boolean or NULL constant has the stored value |
| StoredRow.ConstCapturedIff | src/catalog/stored-row-expressions.ts:474-608 | such a constant is captured if and only if type, stated lengths and datum agree, a truth value is 0 or 1, and a collation it states is known |
| StoredRow.FewerIdle | src/catalog/stored-row-expressions.ts:775-790 | entering a default marks one more function active, which with the node's size bounds the recursion |
| StoredRow.PreservesCall | src/catalog/stored-row-expressions.ts:727-870 | a captured call, with arguments placed and omitted ones taken from trailing defaults, DISTINCT and NULLIF included, has the call's value |
| StoredRow.CapturedIff | src/catalog/stored-row-expressions.ts:799-822 | given its arguments, a call is captured if and only if it returns one value of a known type that is the function's own, follows from the arguments, or is what it casts to in a cast's call form, under known collations, and compares two values if it compares |
| StoredRow.PreservesCase | src/catalog/stored-row-expressions.ts:996-1027 | a captured simple or searched CASE chooses the same branch |
| StoredRow.Preserves | src/catalog/stored-row-expressions.ts:117-1030 | a captured expression evaluates to the same three-valued result as the node tree on every row |
| StoredRow.Labels | src/catalog/stored-row-expressions.ts:727-870 | a captured expression shows the type and the collation of its node: names of literals, casts, comparisons and retyped calls, the declared result of the others; a cast's source is the argument's own base type if the same function casts from it, else the declared one |
| StoredRow.KnownCasts | src/catalog/stored-row-expressions.ts:823-845 | every cast anywhere in a captured expression is one of the catalog's, from its source to its type by its function |
| Coordinator.ProjectBuildCoordinator.Submit | src/project-coordinator.ts:48-60 | submitting is the machine's submit step: one pending request, the newest, with all its waiters |
| Coordinator.ProjectBuildCoordinator.Drain | src/project-coordinator.ts:62-65 | draining is the machine's drain step |
| Coordinator.ProjectBuildCoordinator.ReconcileResolved | src/project-coordinator.ts:73-78 | the stretch after a resolved reconciliation is one step |
| Coordinator.ProjectBuildCoordinator.ApplyResolved | src/project-coordinator.ts:78-87 | the stretch after a resolved apply settles the waiters, keeps the state and goes round the loop |
| Coordinator.ProjectBuildCoordinator.Rejects | src/project-coordinator.ts:81-87 | a failure rejects the waiters and goes round the loop |
| Coordinator.StepKeeps | src/project-coordinator.ts:48-88 | every enabled step keeps the invariant |
| Coordinator.EveryRun | src/project-coordinator.ts:48-88 | in every interleaving one build runs at most, pending implies running, no submission settles twice, a resolved one carries a build of a request no older than its own, every build is of the request submitted under its number, successes form one chain, drains resolve when all is settled |
| Coordinator.CompletionProgress | src/project-coordinator.ts:67-88 | every completion brings the coordinator nearer to rest |
| Coordinator.Settles | src/project-coordinator.ts:67-88 | without new submissions at most four completions settle every submission |
| Coordinator.NeverStuck | src/project-coordinator.ts:67-88 | while there is work some completion can happen |
| Watcher.ProjectBuildWatcher.Invalidate | src/project-watcher.ts:80-84 | invalidating is the machine's step |
| Watcher.ProjectBuildWatcher.Flush | src/project-watcher.ts:123-130 | flushing joins the running flush or starts one |
| Watcher.ProjectBuildWatcher.DrainLoop | src/project-watcher.ts:86-95 | one turn of the drain loop |
| Watcher.StepKeeps | src/project-watcher.ts:80-145 | every step keeps the invariant and never forgets what was accepted or finished |
| Watcher.EveryRun | src/project-watcher.ts:115-145 | in every run one flush at most, and while open dirty implies an armed timer or a running flush |
| Watcher.DrainExits | src/project-watcher.ts:86-95 | when a drain's loop exits, every invalidation accepted before the call was followed by an attempt that began after it and finished |
| Watcher.ComesToRest | src/project-watcher.ts:115-145 | left alone an open watcher comes to rest having built everything it accepted |
| Watcher.CloseBuildsEverything | src/project-watcher.ts:97-113 | in every run, a close that gets past its flush has built everything that was ever accepted |
| Watcher.CloseGoesOn | src/project-watcher.ts:104-130 | once the file watcher is closed the flush comes to rest and closing goes on |
| QueryBatch.ReconcileQueryBatch | src/query-batch.ts:91-118 | on top of any sound cache the result is the batch made from nothing, and misses are exactly the contents not parsed before |
| QueryBatch.RefusesDuplicates | src/query-batch.ts:214-220 | a batch is refused if and only if two inputs share a path |
| QueryBatch.FreshHashed | src/query-batch.ts:160-175 | every query of a batch carries the digest of its own statement hash, command and parameters |
| QueryAnalysis.ReconcileQueryAnalysis | src/query-analysis.ts:108-136 | on top of any sound cache the result is every query analysed anew with the options, hits and misses add up to the queries, and misses are exactly the keys not analysed before |
| QueryAnalysis.KeyCovers | src/query-analysis.ts:307-316 | two cache keys are equal if and only if statement hash, command, parameters, schema key, analysis key, search path and materialized views are |
| QueryAnalysis.EntryServes | src/query-analysis.ts:118-131 | an analysis is right for every query and options that find it in the cache |
| ProjectBuild.ReconcileProjectBuild | src/project-build.ts:117-259 | whatever was built before, a build does what one with only its renderings cached does, with the same error or the same state, and emits its difference from the previous one; with targets that render only what their keys know that is the build from nothing |
| ProjectBuild.RenderRoutes | src/project-build.ts:206-235 | the loop over routes takes each rendering from this build's cache, the previous one, or the target, with the specified first error |
| ProjectBuild.RenderKeyCovers | src/project-build.ts:210-216 | two render keys are equal if and only if target key, route, and each query's name, statement, command, parameters and semantic result are |
| ProjectBuild.ServesIffAttentive | src/project-build.ts:206-221 | a cached rendering is right for every request that finds it if and only if targets render nothing else of the queries |
| ProjectBuild.BuildIsFresh | src/project-build.ts:117-259 | with such targets a build on top of any earlier renderings is the build from nothing |
| ProjectBuild.StaleText | src/project-build.ts:206-221 | an input on which it is not: the layout of a query is edited, and a target that copies the SQL keeps the old text |
| BuildArtifacts.ArtifactsAre | src/project-build.ts:142-235 | the artifacts of a build from nothing are exactly those of the renderings without errors: of support, of the schema, and of every route of every query file without an error of its own |
| ProjectBuild.SupportKeyInjective | src/project-build.ts:142-149 | support entries of different targets never share a cache key |
| ArtifactWriter.Files.WriteArtifact | src/artifact-writer.ts:41-65 | one path is written, and the result says whether that changed anything |
| ArtifactWriter.Files.RemoveArtifact | src/artifact-writer.ts:67-75 | one path is removed, and the result says whether it was there |
| ArtifactWriter.Files.ApplyProjectBuildEvents | src/artifact-writer.ts:20-39 | the loop applies the events in order and collects their results |
| ArtifactWriter.DiffAgrees | src/project-build.ts:317-342 | a build's events say one thing about each path |
| ArtifactWriter.ApplyDiff | src/project-build.ts:317-342 | applied to a disk that holds the previous artifacts they leave exactly the current ones on all paths of either, and nothing else touched |
| ArtifactWriter.ApplyTwice | src/artifact-writer.ts:20-75 | applied again, events that agree change nothing and write nothing |
| ArtifactWriter.ReapplyBuild | src/artifact-writer.ts:20-75 | so does a whole build |
| ArtifactWriter.BuildKeeps | src/project-build.ts:117-259 | one more build, successful or not, keeps state and disk consistent |
| ArtifactWriter.EverySession | src/project-build.ts:117-259 | over any run of builds the disk holds exactly the state's artifacts on every path ever owned, and with targets that render only what their keys know the state is a build from nothing of the last successful request |
| ArtifactWriter.RunBuilds | src/artifact-writer.ts:20-75 | reconciling and applying in turn does that on the real maps |
| CoordinatedBuilds.Reconcile | src/project-coordinator.ts:73-77 | the reconciliation the coordinator awaits succeeds exactly when the build does, and then returns its state and its difference |
| CoordinatedBuilds.RunReconciles | src/project-coordinator.ts:67-88 | in every interleaving in which completed reconciliations return what they computed, every success carries it |
| CoordinatedBuilds.CoordinatedRun | src/project-coordinator.ts:67-88 | in every interleaving of the coordinator without a failed apply, state and disk are those of building the successful requests one after the other |
| Removals.Collect | src/ast.ts:147-204 | statement ranges are rebuilt from the parser's locations and the filters' removals made absolute |
| Removals.RequestedBytes | src/ast.ts:147-204 | a byte is removed if and only if a filter states it for some statement, or it is in the run of separators behind a statement removed whole |
| Removals.Merge | src/ast.ts:209-218 | merged removals are sorted, separated and cover the same bytes |
| Removals.Preprocess | src/ast.ts:135-227 | the stitched text is exactly the bytes outside all removals, and the reported removals cover exactly those |
| Removals.MapStrippedToOriginal | src/ast.ts:257-275 | the loop computes the specified original position |
| Removals.MapOriginalToStripped | src/ast.ts:286-299 | the loop computes the specified stripped position |
| Removals.Galois | src/ast.ts:257-299 | the two maps form a Galois connection |
| Removals.RoundTrip | src/ast.ts:257-299 | mapping back and forth is the identity on stripped positions, and no original position is a removed one |
| Removals.SameByte | src/ast.ts:257-275 | a stripped position and its original hold the same byte |
| NamedParameters.NumberingIsExact | src/query-file.ts:84-146 | distinct names are numbered 1 to n by first appearance and equal names share their number |
| NamedParameters.RewriteNamedParameters | src/query-file.ts:84-146 | the rewrite splices exactly the numbered placeholders in and lists the parameters, or reports the first positional parameter |
| NamedParameters.Splice | src/query-file.ts:115-138 | the loop splices the placeholders in, records every occurrence, and groups the occurrences by name |
| NamedParameters.ParametersAreExact | src/query-file.ts:140-145 | the k-th parameter lists exactly the occurrences replaced by its placeholder, and the placeholder stands at each of them |
| NamedParameters.MapRewrittenOffset | src/query-file.ts:148-160 | the loop computes the specified source offset |
| NamedParameters.MapsBytes | src/query-file.ts:148-160 | an unreplaced byte is sent to the same byte of the source, a placeholder's byte to the start of the name it stands for |
| NamedParameters.RewriteMonotone | src/query-file.ts:148-160 | the map is monotone |
| ErrorRange.ExpandTokenRange | src/errors.ts:126-141 | the range is the maximal run of word bytes on both sides of the position |
| ErrorRange.AroundUnique | src/errors.ts:126-141 | there is only one such range |
| ErrorRange.AroundIsDescribed | src/errors.ts:113-141 | it is the documented one if and only if the byte is a word byte or touches none |
| ErrorRange.PunctuationIsNotAlone | src/errors.ts:113-141 | an input on which it is not |
| ErrorRange.SameBodyByte | src/schema-builder.ts:1241-1256 | an error position in the re-issued definition's body is carried to the same byte of the original file, which was not removed |
| ErrorRange.SqlFunctionRange | src/errors.ts:240-262 | the reported range is the word run around that byte, the single byte behind the file, or the whole statement without a position in the body |
| ErrorRange.CharactersAreBytes | src/schema-builder.ts:1241-1256 | reading a position counted in characters as one in bytes is right if and only if only ASCII characters stand in front of it |
| ErrorRange.CharactersCounted | src/schema-builder.ts:1241-1256 | the k-th character of a text starts behind the octets of the k characters in front of it |
| ErrorRange.OffsetAdds | src/errors.ts:314-360 | adding an offset after mapping equals mapping after adding if and only if nothing was removed in between |
| ErrorRange.LineRange | src/errors.ts:314-360 | the summed line lengths give the byte range of exactly the numbered line, for exactly the line numbers of the body |
| Provenance.Diff | src/schema-builder.ts:386-417 | diffing the snapshots around a statement records every function it created, touched or dropped, in any order |
| Provenance.FollowsTracks | src/schema-builder.ts:800-852 | what one statement records keeps attribution exact |
| Provenance.SchemaBuilder.OnAfterStatementApplied | src/schema-builder.ts:386-417 | every statement keeps the builder's invariant |
| Provenance.SchemaBuilder.MissingProvenance | src/schema-builder.ts:525-546 | every survivor is tracked or pre-existing and untouched, so the missing-provenance warning is unreachable |
| Provenance.EveryRun | src/schema-builder.ts:800-852 | over a whole run a live function is attributed if and only if it is no longer as it was at the start |
| InheritanceTree.DescendantsIff | src/catalog/snapshot.ts:781-787 | the recursive descent holds if and only if every transitive descendant satisfies the test |
| InheritanceTree.NotNullTree | src/catalog/snapshot.ts:780-793 | the flag is set if and only if the column is NOT NULL in the relation and all its descendants |
| InheritanceTree.ScanHasNoNull | src/catalog/snapshot.ts:780-793 | where it is set no row of a scan of the tree has a null there |
| InheritanceTree.GenerationDiverges | src/catalog/snapshot.ts:806-825 | the flag is set if and only if the column is generated and some descendant computes it otherwise or is not captured |
| InheritanceTree.ScanComputes | src/catalog/snapshot.ts:795-825 | where it is not set, every row of a scan of the tree holds what the relation's own expression makes of it |
| InheritanceTree.BeforeRowTree | src/catalog/snapshot.ts:1133-1148 | the collected commands are exactly those of the relation's whole tree |
| TypeClosures.StorageContainerTypes | src/catalog/container-constant-storage.ts:56-93 | the worklist returns exactly the types from which a wanted one is reachable |
| SkippedTypes.SkippingLosesNothing | src/catalog/container-constant-storage.ts:157-165 | a type the worklist leaves out holds no value of the wanted type, whatever bytes are read as it |
| TypeClosures.CompositeTypeDependencies | src/catalog/composite-dependencies.ts:3-38 | the result is the least closed part of the graph, and it exists if and only if every root is composite and everything reached is defined |
| TypeClosures.Idempotent | src/catalog/composite-dependencies.ts:3-38 | the dependencies of the dependencies are the dependencies |

## Left out

- StoredRow.Preserves: the fragment is VAR, CONST, calls, BOOLEXPR, COALESCE, CASE and its placeholder, null and boolean tests; built-in casts are assumed to take one argument, not to be variadic and to look at neither collation nor call form, as PostgreSQL's own do.
- StoredRow.PreservesConst: constants other than bool, int2, int4, int8 and NULL are not captured by the model; their decoders stand in the other files.
- StoredRow: ROW, subscripting, XML, array, field selection, row comparison, ANY/ALL, MIN/MAX, coercion, relabelling and COLLATE nodes; the substitution of `arguments`; node fields are typed values, not text; evaluation raises no errors; the placeholder of an enclosing simple CASE stays visible in a searched one.
- Container.DecodesValue: the reader also takes bytes no server writes, such as padding that is not zero behind its first byte; what it makes of those is not described.
- Container.UnknownLayout: domains form no cycle, which a rank expresses; candidates are compared as values, not by their JSON text.
- Jsonpath.Renders: speaks of paths without shared items, as servers store them; for shared ones only the text is described, by JsonpathStored.RendersText.
- JsonpathEncode.RoundTrip: bodies of 2^30 bytes and more are not modelled, nor are they for jsonb and tsquery.
- CoordinatedBuilds.CoordinatedRun: no apply fails part-way; what a partly applied build leaves on disk is not claimed.
- Watcher.EveryRun: `acquire` does not call back into the watcher; that a promise's `finally` job runs before what is queued after it is built into the steps.
- ErrorRange.SqlFunctionRange: takes positions as byte positions, as the code does, and the function body to occur verbatim at both given offsets; when that agrees with a count of characters is ErrorRange.CharactersAreBytes.
- Provenance.SchemaBuilder.OnAfterStatementApplied: statements of successful migrations only; trigger provenance, language and signature are not tracked.
- ProjectBuild.ReconcileProjectBuild: catalog, evaluation and description stand behind the schema and analysis keys, and a target behind its own; keys that name properties of the prototype are not modelled, and statistics are not reported.
- JsonpathText.TextReadsBack: the reader takes accessors behind any item, as the renderer writes them, also behind tests that stand without brackets of their own; it reads neither priorities nor spaces, which the text never needs.
- JsonText.RenderedReads: the reader knows no exponents and no escapes of characters beyond ASCII, which are never written.
- QueryBatch.ReconcileQueryBatch: its events, which the project build does not read, are not modelled.
- QueryAnalysis.ReconcileQueryAnalysis: nor are its events, nor how an analysis comes about.
- TypeClosures.CompositeTypeDependencies: definitions are values, so the deep copy has no counterpart.
- NamedParameters.RewriteNamedParameters: tokens are given with their folded names; annotations and the rest of query files are not parsed.
- Tsquery.ValidTsqueryConstantStorage: the input has the declared fields; checks of values of unknown type are not modelled, nor are they for jsonpath tables.
- storageRowIdentities, resolveFunctionArgs, canonicalizeNode, temporary files and directories, file watching, timers, and every query to the database.
- Fixed-width scalar decoders, coercion contexts, catalog diffs, contract gates, code generation, nullability and lineage analysis, configuration and the language server.
