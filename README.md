# Theory-class-fast in Dafny

This project models the deterministic core of the Theory-class-fast pipeline. The pipeline
builds linear configurations of 6d building blocks:

- g nodes;
- L interior links;
- S side links;
- I instantons.

For each configuration it turns the blocks into a gluing graph (`TheoryGraph`), composes the
graph's integer intersection form, and files the configuration or its form by the spectral
category of that form (LST, SCFT or neither).

The model covers:

- **Theory.h:**
  - the s–i structural ban and the four hard-coded gluing tables (module `Rules`);
  - port resolution, the two `connect` overloads, node ids and `ComposeIF_Gluing` (module
    `Gluing`, class `TheoryGraph`);
  - the block-diagonal sum `BlockDiag_` (module `Matrices`);
  - the segment-wise linear `Theory` with its inside and boundary checks (module
    `LinearTheory`).
- **topology_generator.cpp** (module `TopologyGenerator`, over the shared `Topologies` module):
  - the g↔L `allowed` table;
  - non-strict unimodality of the g parameters;
  - the one-step right extension;
  - first-seen-wins deduplication with the LST-before-SCFT category choice;
  - the shard paths;
  - the generator's graph builder.
- **decorate_generator_fast.cpp** (module `Decorator`):
  - the S and I parameter banks;
  - the prefix-mode shard path;
  - the `OutputBuffer` map and its size counter;
  - `process_one`'s per-node S loop (uncapped) and I loop (capped at three tries);
  - the buffer-size flush threshold.
- **classify_topology.cpp** (module `ClassifyTopology`):
  - the default linear chain;
  - the classifier's graph builder, where an out-of-range index throws;
  - the matrix text format;
  - the `consume` dispatch: SCFT before LST, counters, per-record catch, flushing every 2000
    records.

Modelling choices:

- **Matrices** are `seq<seq<int>>`.
- **Local forms.** The local form of a block (`build_tensor` followed by
  `GetIntersectionForm`) is a function parameter `LocalForm`. Every operation assumes only
  that each form is square (`Kinds.WellFormedBuilder`). The symmetry results also assume
  that each form is symmetric (`Kinds.SymmetricBuilder`).
- **Spectral tests** are an oracle over the composed matrix, returning
  `Spectral(isLST, isSCFT)`.
- **Serializing** a topology into a line is a function parameter.
- **Errors.** Thrown exceptions become `Outcome`/`Result`/`Option` values.
- **Files.** A file append becomes:
  - a recorded `(path, line)` write in the generator;
  - the flushed map in the decorator;
  - a `map<string, string>` of file contents in the classifier.

## Model

| member | source | states |
|---|---|---|
| Rules.Forbidden | Theory.h:268-272 | true exactly when the two kinds are {SideLink, InteriorLink}, in either order, whatever the parameters |
| Rules.ForbiddenSymmetric | Theory.h:735-738 | the structural ban does not depend on argument order |
| Rules.IsBannedPair | Theory.h:756-873 | a side-node pair is banned only for a side parameter the table mentions |
| Rules.IsBannedPortPair | Theory.h:876-1002 | a port-specific ban needs a listed side parameter and the ports (Right, Left) or (Left, Right) |
| Rules.IsBannedPortPairIN | Theory.h:1004-1070 | likewise for interior links: a listed parameter and a Right/Left or Left/Right port pair |
| Rules.IsBannedPairIN | Theory.h:1073-1087 | an interior-node pair is banned only for an interior parameter the table mentions |
| Rules.SideParam11 | Theory.h:760 | side link 11 is banned against node n exactly when n > 4 |
| Rules.SideParam44 | Theory.h:764 | side link 44 is banned exactly outside nodes 6..8 |
| Rules.SideParam913 | Theory.h:785 | side link 913 is banned against every node but 6 |
| Rules.PortTablesIgnoreCustom | Theory.h:876-1070 | neither port-specific table fires when either port is Custom |
| Rules.InteriorTablesAgree | Theory.h:1004-1087 | the interior-link tables give the same answer as the side-link tables for the parameters they list |
| Kinds.BuildThrows | Theory.h:190-204 | build_tensor throws exactly for an i(p) whose p is outside -99..-1 and 10..999 (text not 2 or 3 characters); other kinds never throw |
| Text.IntToString | Theory.h:192 | the decimal text of an integer is non-empty: digits only for p ≥ 0, a minus sign followed by digits for p < 0 |
| Text.IntToStringTwoOrThree | Theory.h:192-203 | the decimal text of p has 2 or 3 characters exactly for -99..-1 and 10..999 |
| Matrices.BlockDiag | Theory.h:289-304 | the block-diagonal sum is square, of dimension the sum of the block sizes |
| Matrices.BlockDiagOf | Theory.h:289-304 | the running-offset loop returns exactly the block-diagonal sum (0x0 for no blocks or total size 0, empty blocks skipped) |
| Matrices.DiagStep | Theory.h:297-302 | copying block k at its offset turns the first-k diagonal into the first-(k+1) diagonal |
| Matrices.BlockDiagAt | Theory.h:739-752 | block k appears verbatim at (Offset(k), Offset(k)) |
| Matrices.BlockDiagOffBlocks | Theory.h:739-752 | every entry that no single block holds is 0 |
| Matrices.BlockDiagSymmetric | Theory.h:739-752 | the block-diagonal sum of symmetric blocks is symmetric |
| Gluing.PickPortIndex | Theory.h:318-328 | -1 exactly for an empty form; otherwise in range, Left→0, Right→size-1, Custom→1 when the size is at least 2 |
| Gluing.SideInteriorAlwaysRejected | Theory.h:343-345 | both connect overloads reject an s–i pair, in either argument order, whatever the ports and weight |
| Gluing.ExplicitVerdictOrderFree | Theory.h:390-430 | the explicit connect's verdict is the same with the two endpoints swapped (roles are found whichever argument comes first) |
| Gluing.DefaultVerdict | Theory.h:343-387 | the default connect decides like the explicit one with ports Right/Left and weight 1 |
| Gluing.ExplicitVerdict | Theory.h:390-432 | an s–i pair fails with the structural error whatever the weight; otherwise a weight ≤ 0 fails before any table is consulted; nothing with either defect is accepted |
| Gluing.RoleRules | Theory.h:350-385 | only a side–node or interior–node pair can be refused by the tables, and only with the porting, interior-node or interior-port error |
| Gluing.OnlyLinkNodePairsPoliced | Theory.h:390-431 | a pair that is not link–node, not s–i, with positive weight, is always accepted |
| Gluing.SideNodeVerdict | Theory.h:401-412 | a side–node pair is accepted exactly when neither isBannedPair_ nor isBannedPortPair_ fires for its roles' ports |
| Gluing.InteriorNodeVerdict | Theory.h:416-430 | an interior–node pair is accepted exactly when neither isBannedPairIN_ nor isBannedPortPairIN_ fires |
| Gluing.SideLink11RejectsNode9 | Theory.h:343-387 | connecting s(11) with n(9), either order, throws the porting-rule error |
| Gluing.Compose | Theory.h:450-476 | the composed form is square of dimension the sum of the local sizes |
| Gluing.ComposeEntry | Theory.h:458-473 | each entry is the block-diagonal entry plus the weights of the resolved edges that hit that cell or its mirror |
| Gluing.ComposeSymmetric | Theory.h:465-473 | with symmetric local forms the composed form is symmetric |
| Gluing.GraphFormSymmetric | Theory.h:450-476 | when every local form is symmetric, the intersection form ComposeIF_Gluing returns for a graph is symmetric |
| Gluing.ComposeWithoutEdges | Theory.h:450-458 | with no edges the composed form is the block-diagonal sum of the local forms in id order |
| Gluing.UnresolvedEdgeNoOp | Theory.h:466-468 | an edge with an endpoint whose form is empty changes nothing |
| Gluing.TwoUnitNodesGlued | Theory.h:450-476 | two 1x1 nodes [-1] glued Right→Left with weight 1 compose to [[-1,1],[1,-1]] |
| Gluing.GlueEdgeEntry | Theory.h:466-472 | one edge adds its weight at the resolved cell and at its mirror, and every other entry is unchanged |
| Gluing.TheoryGraph.constructor | Theory.h:332-333 | a new graph has no nodes and no edges |
| Gluing.TheoryGraph.Add | Theory.h:334-340 | the new id is the previous node count; the form, kind and parameter are appended; an i(p) of the wrong width throws and changes nothing |
| Gluing.TheoryGraph.CheckRoles | Theory.h:350-385 | finds the side–node or interior–node roles and their ports whichever argument comes first, then consults the tables |
| Gluing.TheoryGraph.Connect | Theory.h:343-387 | the verdict is the default rule; on success exactly one edge (a, b, Right, Left, 1) is appended, on failure none |
| Gluing.TheoryGraph.ConnectPorts | Theory.h:390-432 | rejects weight ≤ 0 and the rule violations; on success appends exactly (a, b, pa, pb, weight) |
| Gluing.TheoryGraph.ComposeIFGluing | Theory.h:450-476 | returns the composed form of the current nodes and edges (0x0 without nodes) |
| Gluing.ComposeOf | Theory.h:450-476 | the size, offset and edge loops compute exactly the composed form |
| Gluing.GlueOne | Theory.h:465-473 | one edge iteration: skip an unresolved port, else add w at (I, J) and (J, I) |
| Gluing.AddAll | topology_generator.cpp:90-112 | adding a list of specs succeeds exactly when every spec builds, and appends their forms, kinds and parameters in order |
| Gluing.ConnectAll | topology_generator.cpp:114-149 | the connect loop succeeds exactly when every request is accepted, and then appends one default edge per request |
| LinearTheory.InsideVerdict | Theory.h:273-277 | the inside check fails only with the inside error, never for a segment of at most one piece, and passes only when no adjacent pair is s–i |
| LinearTheory.CheckInside | Theory.h:273-277 | the inside check fails exactly at an adjacent s–i pair of the segment |
| LinearTheory.BoundaryVerdict | Theory.h:278-282 | intended reading (Findings row 1): fails only with the across-segments error, and only when a piece has been placed and the new segment is non-empty |
| LinearTheory.Theory.CheckBoundary | Theory.h:278-282 | intended reading (Findings row 1): compares the new segment's first piece with the last piece placed so far, scanning back past empty segments, which the code does not do; the code as written is BoundaryAsWritten |
| LinearTheory.AppendVerdict | Theory.h:283-287 | an inside fault is reported before any boundary fault; append fails only with one of those two errors |
| LinearTheory.Theory.Append | Theory.h:283-287 | on success the segments grow by exactly the new segment; on failure they are unchanged |
| LinearTheory.AppendKeepsChain | Theory.h:273-287 | append accepts exactly when the placed pieces followed by the new segment have no adjacent s–i pair |
| LinearTheory.BoundaryAsWritten | Theory.h:278-282 | the written check agrees with the intended one whenever the last segment is non-empty |
| LinearTheory.EmptySegmentBreaksBoundary | Theory.h:278-282 | an empty first segment is accepted, after which the written check would read the last piece of an empty segment |
| LinearTheory.BuildSegment | Theory.h:228-231 | builds the pieces of one segment in order, failing exactly when some spec does not build |
| LinearTheory.From | Theory.h:225-234 | Theory::from yields the segments built from the specs exactly when its verdict passes |
| LinearTheory.FromVerdict | Theory.h:225-234 | from passes only when every spec of every segment builds, and fails only with a build error or an adjacency error |
| LinearTheory.FromPassesIff | Theory.h:225-234 | from succeeds exactly when every spec builds and no two consecutive pieces of the whole theory form an s–i pair |
| LinearTheory.FromFailPersists | Theory.h:225-234 | a failure on a prefix of the segments is the failure of the whole construction |
| LinearTheory.ForbiddenSegmentRejected | Theory.h:273-277 | a segment holding an adjacent s–i pair makes the construction fail |
| LinearTheory.Theory.IF | Theory.h:248-250 | IF(seg, piece) is the piece's form when both indices are in range, an error otherwise |
| LinearTheory.Theory.TheoryIFBlockDiag | Theory.h:256-263 | the result is the block-diagonal sum of every piece's form, segment by segment |
| Topologies.AddBlockRight | topology_generator.cpp:333-334 | the block is appended at the right; the decorations and all three connection lists are untouched (no l_connection pair is added, see Left out) |
| Topologies.AddDecoration | decorate_generator_fast.cpp:348-349 | one S or I decoration is appended to its list, together with the connection (u, its index) in s_connection or i_connection; the blocks, l_connection and the other list are untouched |
| Topologies.PrefixFrom | topology_generator.cpp:240-254 | "empty" exactly when there are no blocks, otherwise the kind letters of the first min(4, n) blocks |
| Topologies.ShardPathByHead | topology_generator.cpp:256-262 | two topologies of the same length whose first four kinds agree share a shard |
| Topologies.ShardPath | topology_generator.cpp:256-262 | the path is outdir/category/len-N followed by /prefix.txt |
| Topologies.Classify | topology_generator.cpp:292-301 | LST exactly when the form is non-empty and is_LST holds; SCFT exactly when it is non-empty, not LST, and is_SCFT holds |
| Topologies.ChainGluesExactly | topology_generator.cpp:114-125 | an l_connection pair is connected exactly when both of its ends are block indices |
| Topologies.DecoGluesExactly | topology_generator.cpp:127-148 | a decoration pair is connected (decoration first) exactly when its block and decoration indices are in range |
| Topologies.GenGlues | topology_generator.cpp:114-149 | every connect request of the generator names an existing node |
| Topologies.GenSpecsLayout | topology_generator.cpp:89-111 | block k is node k, side link v is node nb+v, instanton v is node nb+ns+v, with g→n, L→i, S/I→s |
| Topologies.NoBlocksNoGraph | topology_generator.cpp:83 | a topology without blocks gives the empty graph, whose form is 0x0 |
| Topologies.Judge | topology_generator.cpp:288-306 | a kept verdict never has the category "other" |
| Topologies.JudgeTopology | topology_generator.cpp:288-306 | the verdict is Judge: rejected when the graph cannot be built or composed, otherwise the LST or SCFT category of the form, or unclassified |
| Topologies.TopologyToTheoryGraph | topology_generator.cpp:80-152 | succeeds exactly when every node builds and every in-range request is accepted; then the graph holds one local form per generated node spec and one default edge per generated request, in order |
| Topologies.NodeSpecsOf | topology_generator.cpp:89-111 | the node specs are blocks, then side links, then instantons |
| Topologies.ChainOf | topology_generator.cpp:114-125 | the chain requests skip pairs with an out-of-range index |
| Topologies.DecorationsOf | topology_generator.cpp:127-148 | the decoration requests skip pairs with an out-of-range index |
| TopologyGenerator.Allowed | topology_generator.cpp:41-77 | after a g the options are L parameters of the bank, after an L they are g parameters; S and I blocks have none |
| TopologyGenerator.AllowedDefinedOnBanks | topology_generator.cpp:41-77 | the option list is non-empty exactly for g with p in {4,6,7,8,12} and for L with p among the 16 L parameters |
| TopologyGenerator.AllowedNotSymmetric | topology_generator.cpp:41-77 | the table is not symmetric: 24 may follow g 4, but 4 may not follow L 24 |
| TopologyGenerator.IsUnimodalNonStrict | topology_generator.cpp:266-273 | the two-loop scan answers exactly whether the sequence is non-decreasing up to some peak and non-increasing after it |
| TopologyGenerator.GUnimodalPrefixOk | topology_generator.cpp:275-281 | the test is applied to the g parameters alone, in block order |
| TopologyGenerator.GValuesSnoc | topology_generator.cpp:275-281 | adding a block adds its parameter to the g sequence exactly when it is a g |
| TopologyGenerator.ExtensionsShape | topology_generator.cpp:328-338 | each kept extension is the base plus one block with an option parameter, and its g sequence is unimodal |
| TopologyGenerator.ExtensionsComplete | topology_generator.cpp:328-338 | every option whose extension is unimodal is kept |
| TopologyGenerator.Candidates | topology_generator.cpp:313-338 | at most one candidate per allowed option, each the base with exactly one more block at the right and nothing else changed |
| TopologyGenerator.CandidatesShape | topology_generator.cpp:313-338 | a candidate exists only for a non-empty unimodal base ending in g or L, and is that base plus one block of the alternate kind with a parameter from allowed |
| TopologyGenerator.CandidatesComplete | topology_generator.cpp:313-338 | every allowed extension with a unimodal g sequence is a candidate |
| TopologyGenerator.AfterNodeAllOptions | topology_generator.cpp:328-338 | after a g block no option is filtered, since adding an L leaves the g sequence unchanged |
| TopologyGenerator.NodeEndedCandidates | topology_generator.cpp:313-338 | a unimodal base ending in g has one candidate per allowed L parameter |
| TopologyGenerator.SaveStepKeepsStore | topology_generator.cpp:284-310 | saving keeps the store consistent: written lines are distinct and all of them are seen |
| TopologyGenerator.SaveStep | topology_generator.cpp:284-310 | the line is inserted into the seen set before classification, whatever the outcome, and the output is only appended to |
| TopologyGenerator.SaveStepWrites | topology_generator.cpp:286-306 | a line is written only the first time it is seen and only when kept, to the shard of its category; written lines are only appended |
| TopologyGenerator.SaveStepIdempotent | topology_generator.cpp:286 | saving the same topology twice is the same as saving it once (first seen wins) |
| TopologyGenerator.SaveAllKeepsStore | topology_generator.cpp:328-338 | a whole step keeps the store consistent |
| TopologyGenerator.SaveAllSeen | topology_generator.cpp:286 | after a step the seen set is exactly the old one plus every candidate's line |
| TopologyGenerator.SaveAllWritesNewKept | topology_generator.cpp:284-310 | a step appends exactly NewKept lines: one per candidate whose line is new (not seen, not an earlier candidate's) and whose form is LST or SCFT |
| TopologyGenerator.SaveAllAppends | topology_generator.cpp:328-338 | a step only appends, and at most one line per candidate |
| TopologyGenerator.Generator.constructor | topology_generator.cpp:237 | the seen set and the output start empty |
| TopologyGenerator.Generator.SaveOneCompactClassified | topology_generator.cpp:284-310 | the store after the call is SaveStep of the old one: a new line is marked seen, and appended to its category's shard only if it is LST or SCFT; a seen line changes nothing |
| TopologyGenerator.Generator.GenerateOneStep | topology_generator.cpp:313-340 | saves every candidate in order and returns the number of candidates, as the source does |
| TopologyGenerator.Generator.SaveIfUnimodal | topology_generator.cpp:336-337 | one option: saved exactly when the extension's g parameters stay unimodal, leaving the store as SaveAll with it appended |
| TopologyGenerator.Generator.SaveExtensions | topology_generator.cpp:328-339 | the option loop leaves the store as saving, in order, exactly the extensions whose g parameters stay unimodal, and returns how many it saved |
| TopologyGenerator.Generator.GenerateOneStepWritten | topology_generator.cpp:313-340 | the corrected count: NewKept of the candidates against the old seen set, that is, the candidates with a new line and an LST or SCFT form |
| TopologyGenerator.RepeatedStepWritesNothing | topology_generator.cpp:286 | candidates whose lines are all seen change nothing |
| TopologyGenerator.SaveAllSeesAll | topology_generator.cpp:286 | after a step every candidate's line is in the seen set |
| TopologyGenerator.SecondStepOvercounts | topology_generator.cpp:336-339 | a second step on the same base leaves the store unchanged and writes NewKept = 0 lines, fewer than the candidate count that GenerateOneStep reports |
| TopologyGenerator.OneNodeStepOvercounts | topology_generator.cpp:336-339 | for the single block g(4): nine candidates, and a repeated step writes none of them |
| Decorator.InstantonBanksNested | decorate_generator_fast.cpp:54-70 | each I bank is a prefix of the next larger one (4 ⊑ 6 ⊑ 7 ⊑ 8 ⊑ 12) |
| Decorator.AllowedS | decorate_generator_fast.cpp:36-52 | the S bank is non-empty exactly for g in {4,6,7,8,12} |
| Decorator.AllowedI | decorate_generator_fast.cpp:54-70 | the I bank is non-empty exactly for g in {4,6,7,8,12} |
| Decorator.ShardPathWithCategory | decorate_generator_fast.cpp:214-230 | without a tag (None, or HeadKind away from u=0) the path is the plain shard path |
| Decorator.TaggedShardsSeparate | decorate_generator_fast.cpp:222-225 | under Kind, and under HeadKind at u=0, S and I decorations go to different shards |
| Decorator.TaggedShardPath | decorate_generator_fast.cpp:222-229 | a tagged path is the plain path with the tag put in front of the prefix file name |
| Decorator.TotalLengthUpdate | decorate_generator_fast.cpp:238-242 | replacing one buffer changes the summed length by the difference in that buffer's length |
| Decorator.AppendAllContents | decorate_generator_fast.cpp:238-242 | after a series of appends a path's buffer is its old text followed by its own lines, each ending in a newline, in order |
| Decorator.AppendAllLength | decorate_generator_fast.cpp:238-242 | a series of appends adds the sum of line length + 1 to the total buffered length |
| Decorator.NonEmpty | decorate_generator_fast.cpp:246-250 | the buffers written at a flush are exactly the non-empty ones, unchanged |
| Decorator.OutputBuffer.constructor | decorate_generator_fast.cpp:233-236 | an empty map with size 0 |
| Decorator.OutputBuffer.Append | decorate_generator_fast.cpp:238-242 | appends line + newline to that path's buffer, adds line size + 1, and keeps total_size equal to the sum of the buffer lengths |
| Decorator.OutputBuffer.FlushToDisk | decorate_generator_fast.cpp:244-257 | hands out the non-empty buffers, then clears the map and resets the size to 0 |
| Decorator.IScan | decorate_generator_fast.cpp:375-405 | the I loop counts at most MAX_DECO_PER_NODE (3) tries and writes no more than it counts |
| Decorator.IScanSaturated | decorate_generator_fast.cpp:379 | once three tries are counted, later bank entries are never looked at |
| Decorator.IScanSkipsUnclassified | decorate_generator_fast.cpp:389-395 | unclassified candidates are not counted, so a bank of them writes nothing and counts nothing |
| Decorator.SEmits | decorate_generator_fast.cpp:346-371 | the S loop writes at most one line per bank parameter |
| Decorator.SEmitsSound | decorate_generator_fast.cpp:342-370 | every S line comes from one decoration of u with a bank parameter, judged LST or SCFT, at that category's shard |
| Decorator.SEmitsComplete | decorate_generator_fast.cpp:342-370 | every bank parameter whose S decoration is kept is written (the S loop has no cap) |
| Decorator.IScanSound | decorate_generator_fast.cpp:375-405 | every I line comes from one decoration of u with a bank parameter, judged LST or SCFT |
| Decorator.NodeEmitsWithSound | decorate_generator_fast.cpp:338-405 | a block's lines are S lines then I lines, each from a single decoration of that block |
| Decorator.EmitsSound | decorate_generator_fast.cpp:337-408 | every line of process_one decorates one selected g block of the base with exactly one decoration |
| Decorator.Decorator.constructor | decorate_generator_fast.cpp:270-284 | empty buffers, saved and processed at 0 |
| Decorator.Decorator.TryCandidate | decorate_generator_fast.cpp:351-370 | one try block: the candidate's verdict, its line appended when kept, saved incremented once per append |
| Decorator.Decorator.KeepLine | decorate_generator_fast.cpp:364-367 | the kept line is appended to its path's buffer and saved grows by exactly one; nothing else changes |
| Decorator.Decorator.DecorateS | decorate_generator_fast.cpp:346-371 | the S loop appends exactly SEmits, the lines of every LST or SCFT candidate in bank order, and counts them in saved |
| Decorator.Decorator.DecorateI | decorate_generator_fast.cpp:375-405 | the I loop, with its break and its counter, appends exactly the capped I scan's lines |
| Decorator.Decorator.TryInstanton | decorate_generator_fast.cpp:380-405 | one try of the I loop below the cap counts exactly when its candidate is not unclassified, and appends exactly the next line of the capped I scan |
| Decorator.Decorator.DecorateNode | decorate_generator_fast.cpp:338-405 | a selected g block gets its S lines then its I lines; any other block gets none |
| Decorator.Decorator.ProcessOne | decorate_generator_fast.cpp:337-408 | process_one appends exactly the lines of every block, in block order |
| Decorator.Decorator.FlushIfNeeded | decorate_generator_fast.cpp:306-310 | flushes exactly when the buffered size strictly exceeds BUFFER_SIZE |
| Decorator.Decorator.ProcessBatch | decorate_generator_fast.cpp:326-334 | a batch appends every base's lines, adds the batch size to processed, then applies the flush threshold |
| ClassifyTopology.DefaultChain | classify_topology.cpp:27-30 | for n blocks, the n-1 links (k, k+1) in order, and none for n ≤ 1 |
| ClassifyTopology.LinearChain | classify_topology.cpp:23-31 | the chain glued is l_connection when it has entries; otherwise the n-1 links (k, k+1) of consecutive blocks |
| ClassifyTopology.EnsureLinearChain | classify_topology.cpp:23-31 | l_connection when it has entries; otherwise the output followed by the default chain, which leaves it unchanged for n ≤ 1 |
| ClassifyTopology.DefaultChainLinks | classify_topology.cpp:27-30 | the default chain contains exactly the consecutive pairs (u, u+1) of blocks |
| ClassifyTopology.RowText | classify_topology.cpp:36-39 | a row's text is empty exactly for an empty row and holds no line break |
| ClassifyTopology.Split | classify_topology.cpp:33-43 | the pieces between separators, of which there is at least one, contain no separator |
| ClassifyTopology.RowTextSplit | classify_topology.cpp:36-39 | a non-empty row's text splits at its blanks into the decimal texts of its entries |
| ClassifyTopology.MatrixText | classify_topology.cpp:33-43 | the text of a matrix holds more characters than rows and ends with a line break |
| ClassifyTopology.MatrixTextLines | classify_topology.cpp:33-43 | the matrix text splits at line breaks into one line per row followed by two empty pieces (the row ends and the blank line) |
| Text.IntToStringInjective | classify_topology.cpp:38 | distinct integers have distinct decimal texts |
| ClassifyTopology.RowTextInjective | classify_topology.cpp:36-39 | a row is determined by its text |
| ClassifyTopology.MatrixTextInjective | classify_topology.cpp:33-43 | a matrix is determined by the text written for it |
| ClassifyTopology.AppendMatrixTxt | classify_topology.cpp:33-43 | the buffer becomes its old contents followed by the matrix text |
| ClassifyTopology.AppendRowTxt | classify_topology.cpp:36-39 | the inner loop appends the row's text, with a blank before every entry but the first |
| ClassifyTopology.ClassifyGlues | classify_topology.cpp:85-95 | the classifier's connect requests name existing nodes |
| ClassifyTopology.DefaultChainGlued | classify_topology.cpp:26-30 | with no l_connection entries, every consecutive pair of blocks is requested and the chain is in range |
| ClassifyTopology.ClassifyForm | classify_topology.cpp:204-208 | a form exists exactly when every lookup is in range, every spec builds and every connect is accepted; it is square over the local forms of all nodes |
| ClassifyTopology.BuildersAgree | classify_topology.cpp:58-98 | with l_connection filled in and every index in range, the classifier's graph has the generator's form |
| ClassifyTopology.ConnectChain | classify_topology.cpp:88-89 | succeeds exactly when every chain pair names two blocks and every connect is accepted; then one default edge per pair |
| ClassifyTopology.ConnectChainLink | classify_topology.cpp:88-89 | one chain connect on an in-range pair: on success exactly one default edge between the two blocks is added; a refusal means the whole chain cannot be accepted |
| ClassifyTopology.ConnectDecorations | classify_topology.cpp:91-95 | succeeds exactly when every pair is in range and every connect(decoration, block) is accepted; then one edge per pair |
| ClassifyTopology.ConnectDecoration | classify_topology.cpp:91-95 | one connect(decoration, block) on an in-range pair: on success exactly one edge from the decoration's right port to the block's left port is added; a refusal means the loop cannot be accepted |
| ClassifyTopology.ConnectLinks | classify_topology.cpp:85-95 | the chain, side-link and instanton loops succeed exactly when all indices are in range and all requests are accepted |
| ClassifyTopology.BuildGraphFromTopology | classify_topology.cpp:58-98 | succeeds exactly when every node builds, every index is in range and every connect is accepted; ids are blocks, side links, then instantons; edges are the requests in order |
| ClassifyTopology.RouteOf | classify_topology.cpp:204-218 | a throw is caught; otherwise SCFT is checked first and LST only when SCFT fails, so a matrix takes at most one route |
| ClassifyTopology.OutputPathsDiffer | classify_topology.cpp:199-202 | the SCFT and LST files are different paths |
| ClassifyTopology.AppendFile | classify_topology.cpp:45-51 | an append adds the buffer to that file only, and an empty buffer leaves every file alone |
| ClassifyTopology.Flushed | classify_topology.cpp:199-202 | flush_all puts each buffer at the end of its file, empties both buffers and keeps the counters |
| ClassifyTopology.FlushedKeepsOutput | classify_topology.cpp:199-202 | flush_all moves both buffers to their files, losing nothing, empties them and touches no other file |
| ClassifyTopology.Tick | classify_topology.cpp:214 | Nproc grows by one; the buffers are empty after a multiple of 2000, and files and buffers are unchanged otherwise |
| ClassifyTopology.Step | classify_topology.cpp:204-218 | a throw changes nothing; otherwise Nproc grows by one and Nscft or Nlst by one when the record went there |
| ClassifyTopology.StepAccounts | classify_topology.cpp:204-218 | a throw changes nothing; otherwise Nproc grows by one, and the SCFT counter and text, or the LST counter and text, or neither, grow with the record |
| ClassifyTopology.StepFlushes | classify_topology.cpp:214 | the buffers are empty after the 2000th, 4000th, ... record, and the files are untouched after any other |
| ClassifyTopology.StepKeepsConsistent | classify_topology.cpp:211-214 | Nscft + Nlst ≤ Nproc is preserved by each record |
| ClassifyTopology.RunAllAccounts | classify_topology.cpp:204-231 | over a stream, Nproc counts the records that did not throw, Nscft and Nlst count each route, and each output gets exactly its matrices' text in order |
| ClassifyTopology.RunAllConsistent | classify_topology.cpp:204-231 | Nscft + Nlst ≤ Nproc holds throughout a run |
| ClassifyTopology.FinalFlushWritesAll | classify_topology.cpp:230-231 | after the last flush_all each file holds its old contents followed by every routed matrix's text, with nothing left in the buffers |
| ClassifyTopology.Consumer.constructor | classify_topology.cpp:194-198 | counters at 0, empty buffers, the files as they were (append mode) |
| ClassifyTopology.Consumer.FlushAll | classify_topology.cpp:199-202 | the consumer's state after flush_all is the flushed state |
| ClassifyTopology.Consumer.Consume | classify_topology.cpp:204-218 | the consumer's state after one record is Step applied to the record's RouteOf route |
| ClassifyTopology.Consumer.RouteRecord | classify_topology.cpp:205-212 | the record goes to SCFT, LST, nowhere, or the catch exactly as RouteOf says: a throw iff graph building or composition throws, SCFT checked before LST |
| ClassifyTopology.Consumer.Record | classify_topology.cpp:211-214 | buffering, counting and the periodic flush for a route produce exactly Step for it, keeping the counters consistent |
| ClassifyTopology.Consumer.ProcessAll | classify_topology.cpp:220-231 | the records in order, then the final flush_all |

## Left out

- The eigenvalue, LLT and LDLT tests (`is_LST`, `is_SCFT`, `is_SUGRA`, `is_scft_fast`, `is_lst_fast_strict`) are floating-point numerics. They are an oracle over the composed matrix. The generator's form-size guard, which answers false for a 0x0 form, is kept.
- `build_tensor`'s pattern tables and the Tensor API (Tensor.h is not part of this model). Local forms are a parameter, assumed square (and symmetric where symmetry is claimed); the concrete forms of Node and External blocks are not modelled. The model keeps the one throw that matters to the callers: i(p) whose text is not 2 or 3 characters.
- Topologies.AddBlockRight: Topology.h is not part of this model, so whether `addBlockRight` also records an l_connection pair is not known; the model appends the block only. As a result the generator's graph builder (topology_generator.cpp:114-125 glues only listed pairs) leaves every candidate's new block unglued.
- Topology.h, TopoLineCompact.hpp and TopologyDB.hpp are not part of this model:
  - `addBlockRight` and `addDecoration` are modelled as appending one block, or one decoration with its connection to block u;
  - `serialize_line_compact` is an abstract function;
  - `deserialize_line_compact` and the database are left out.
- File and directory I/O (`ofstream` appends, `create_directories`, reading inputs): writes are recorded as values; a failing open or write is not modelled.
- `WorkerPool` threads, the queue, the mutexes and the atomics. The decorator is modelled as a single sequential worker.
- The command lines and `main`: argument parsing, input-format detection, `expand_db_one_step`, `process_line_path`/`process_db_file` and the console summaries.
- Console printing (`print`, `PrintIF`, `PrintMatrixSafe`, `printLinearWithSides`).
- The C++ integer widths. Counters (`saved`, `processed`, `Nproc`, `Nscft`, `Nlst`, `total_size`) are unbounded naturals.
- ClassifyTopology.BuildGraphFromTopology: says only whether the build throws, not which exception is reported; the message goes only to the error stream.
- ClassifyTopology.RouteOf: an exception thrown by `flush_to_file` inside the same try block is not modelled (file I/O).
- Decorator.Decorator.ProcessBatch: the decorator has no deduplication, so one line may be written more than once, exactly as in the source.

## Findings

| source | as written | input that shows it | evidently intended | confidence | as-written member | corrected member |
|---|---|---|---|---|---|---|
| Theory.h:278-282 | `check_boundary_` reads `segments_.back().back()` whenever the theory and the new segment are non-empty, even when the last segment is empty | `Theory::from({{}, {s(1)}})`: the empty segment is accepted, then the boundary check reads the last piece of an empty vector | compare the new segment's first piece with the last piece placed so far, if any | not executed | LinearTheory.EmptySegmentBreaksBoundary | LinearTheory.AppendKeepsChain |
| topology_generator.cpp:336-339 | `generate_one_step` increments `saved` for every unimodal candidate, before deduplication and classification, and `main` reports that count as "Generated N LST/SCFT topologies" | run the same base twice: the second call returns the number of candidates but appends no line (for the single block g(4): 9 reported, 0 written, OneNodeStepOvercounts) | count only the lines actually written | not executed | TopologyGenerator.SecondStepOvercounts | TopologyGenerator.Generator.GenerateOneStepWritten |
