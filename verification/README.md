# Verification of MXNet extension, packing and ONNX import logic

A Dafny model of five parts of the repository, with proofs that hold for all inputs, all runs or
all reachable states.  `dafny verify dfyconfig.toml` checks everything.

* **Extension-library JSON and graphs** (`src/lib_api.cc`): `KeyOrder`, `Json`, `JsonCursor`,
  `JsonText`, `JsonReading`, `JsonRoundTrip`, `JsonProgress`, `Digraph`, `Permutations`,
  `GraphValue`, `GraphMatch`, `GraphForm`, `GraphText`, `ExtGraph`, `GraphWriter`, `GraphReader`,
  `GraphRoundTrip`.  The parser is modelled on every text, with outcomes for the cases in which the
  code loops forever or throws.  Heap graphs (`ExtGraph.Node`, `Graph`) are tied to values by
  `GraphIs`; the final result, `GraphRoundTrip.WriteAndRead`, runs the sort, the writer, the
  printer, the parser and the reader.
* **Record packing** (`tools/im2rec.py`): `RecordPipeline`, `PipelineInvariant`,
  `PipelineSafety`, `PipelineRuns`.  Feeder, workers and writer are a step relation over bounded
  queues; `PipelineRuns.EveryRun` is the result for all interleavings.
* **ONNX ordering and partitioning** (`toposort.hpp`, `ModelImporter.cpp`): `OnnxOrder`,
  `OnnxLookup`, `OnnxPartition`.
* **ONNX shape algebra and data layout** (`ShapeTensor.cpp`, `onnx2trt_utils.cpp`,
  `builtin_op_importers.cpp`): `RowMajor`, `AxisOrder`, `Transpose`, `SpaceBlocks`,
  `SpaceImporters`, `InitialState`, `ShapeArithmetic`, `ShapeTensors`, `ShapeExpressions`,
  `Slice`, `SliceLayer`, `SliceImporter`, `SqueezeAxes`, `DeconvPadding`.  TensorRT layers have
  their ordinary meaning: row-major reshape, output axis i is input axis order[i], NumPy
  broadcasting, floor division.
* **Small state machines** (`src/resource.cc`, `amalgamation/amalgamation.py`): `RoundRobin`,
  `IncludeExpander`, `IncludeOnce`, `IncludeCounts`.

`Wrappers` and `Sums` hold what several parts share.

## Where the code falls short of what one would expect

* Text: strings are written without escaping and errors are skipped, so a value survives only
  under the condition in `JsonRoundTrip.RoundTrip`; negative numbers lose their sign
  (`IntRoundTrip`); a mismatched closing bracket makes the parser loop (`JsonProgress.HangsExactly`).
* Graphs: a cyclic graph is written but cannot be read back (`GraphRoundTrip.WriteAndRead`); the
  list of inputs is written but not read, and attributes with reserved names are lost
  (`GraphMatch.SameIffConventional`).
* Packing: the sequential fallback raises at the first item that failed to encode, where the
  parallel mode goes on (`PipelineRuns.PackSequentially`, `SequentialAgrees`).
* Slice: bounds are decoded without regard to the step, so backward slices agree with ONNX only
  under the condition in `Slice.AxisExact`; a start at or behind the length leaves the axis
  (`Slice.PositionsInside`); a start that lies a step or more past the end, in the direction of
  the step, gets a negative size, going forward too (`Slice.SizeIsCount`); an end of INT_MIN adds 1 to the size whatever the step
  (`Slice.SentinelForward`), and the positions then leave the axis unless the steps hit 0
  (`Slice.ShiftedInside`, `ReversePastZero`).  With ends known only at run time, and two or more
  listed axes that are incomplete or out of order, the one-entry shift is read out of range
  (`SliceImporter.Import`).
* Transposed convolution: negative post padding loses the requested length
  (`DeconvPadding.PadToShape`, `NegativePostPadding`).
* Round robin: after a counter reset the order goes on only under the condition in
  `RoundRobin.ResetGoesOn`; with no other request in between it skips a slot (`ResetAloneSkips`).

## Model

| member | source | states |
|---|---|---|
| `KeyOrder.BeforeTrichotomy` | src/lib_api.cc:281-283 | String keys compare by a strict total order: irreflexive, asymmetric, any two different keys comparable |
| `KeyOrder.BeforeTransitive` | src/lib_api.cc:281-283 | The order on string keys is transitive, so a map keyed by strings is a well-defined sorted container |
| `KeyOrder.BeforeMeans` | src/lib_api.cc:281-283 | The order is lexicographic: one key is before another if and only if they agree up to a position where it ends or has the smaller character |
| `Json.NumeralValue` | src/lib_api.cc:277 | The decimal text of a non-negative number is non-empty, all digits, and reads back as the number |
| `Json.DumpText` | src/lib_api.cc:307-341 | The printing loops produce the reference text of the value: map members in key order, separators between and not after |
| `JsonText.Leaves` | src/lib_api.cc:307-341 | The texts of the error value, of a string, of a number and of the empty list and map |
| `JsonText.ItemAppends` | src/lib_api.cc:318-327 | One more list item goes before the closing bracket, behind a comma if it is not the first; with the empty list this gives every list's text |
| `JsonText.MemberAppends` | src/lib_api.cc:328-338 | A member with a greater key than all others goes before the closing brace, quoted, with its separator, behind a comma if it is not the only one; with the empty map this gives every map's text |
| `JsonText.TwoMembers` | src/lib_api.cc:328-338 | Two members are printed in the order of their keys |
| `JsonText.NumeralDigits` | src/lib_api.cc:277 | Digit i from the right is the number divided by 10 to the i, modulo 10, and no digit is superfluous |
| `JsonText.LeadingZero` | src/lib_api.cc:364-376 | A leading zero does not change what a string of digits is worth |
| `Json.Parse` | src/lib_api.cc:414-433 | For every text and cursor the call returns, hangs or throws; the cursor never moves back, any real value consumes a character, the call returns without moving if and only if it stands at a closing bracket, and an error inside the text stops only there; a value may return with content that is left open |
| `JsonCursor.Cursor.ReadString` | src/lib_api.cc:348-362 | The loop over the shared cursor computes the reference string reader and leaves the cursor where that ends |
| `JsonCursor.Cursor.ReadNum` | src/lib_api.cc:364-376 | Same for numbers, including the exception on values above 32 bits |
| `JsonCursor.Cursor.ReadList` | src/lib_api.cc:378-392 | Same for lists; the recursion through one cursor is shown to end in every case but the recognised loop |
| `JsonCursor.Cursor.ReadMap` | src/lib_api.cc:394-412 | Same for maps, with the alternating key and value state; a key that is no string leaves the content open and the loop goes on |
| `JsonCursor.Cursor.ReadValue` | src/lib_api.cc:414-433 | Same for values of any kind |
| `JsonCursor.ParseText` | src/lib_api.cc:343-346 | Parsing a whole text is the reference reader started at position 0 |
| `JsonText.StringEnds` | src/lib_api.cc:348-362 | In any text a string is what stands up to the first quote without a backslash right before it |
| `JsonText.StringOpen` | src/lib_api.cc:348-362 | Without such a quote nothing is read and the cursor is past the end |
| `JsonText.NumEnds` | src/lib_api.cc:364-376 | In any text a number is what stands up to the first character that is no digit, and throws above 32 bits |
| `JsonText.ListCloses` | src/lib_api.cc:378-392 | A list read from any text ends just behind a closing bracket; one without it is an error at the end of the text |
| `JsonText.MapCloses` | src/lib_api.cc:394-412 | The same for maps and braces |
| `JsonReading.ReadsString` | src/lib_api.cc:348-362 | Inside any text, reading at a safe string followed by a quote returns that string and stops just after the quote |
| `JsonReading.ReadsNum` | src/lib_api.cc:364-376 | Inside any text, reading at a numeral not followed by a digit returns its value and stops just after it |
| `JsonReading.ReadsValue` | src/lib_api.cc:307-433 | Inside any text, reading at the printed form of any value with safe strings and numbers returns what the reference reading of the value gives, error parts included, and stops exactly behind it; by mutual induction over lists and maps |
| `JsonReading.ReadsItems` | src/lib_api.cc:378-392 | The list loop over printed items appends the reading of each and drops errors |
| `JsonReading.ReadsMembers` | src/lib_api.cc:394-412 | The map loop over printed members, with the shift of keys and values after an error |
| `JsonRoundTrip.ReadsSafe` | src/lib_api.cc:307-433 | Wherever in a text the printed form of a dump-safe value stands (not followed by a digit when the value is a number), reading there returns the value and stops exactly behind it |
| `JsonRoundTrip.RoundTrip` | src/lib_api.cc:307-433 | For every value: parsing its printed form gives it back if and only if it is the error value itself, or every string has each quote preceded by a backslash and no trailing backslash, every number is the non-negative value of its digits within 32 bits, and errors occur only as the value of a map's greatest key |
| `JsonRoundTrip.ParsedIsLexical` | src/lib_api.cc:348-433 | Whatever text is parsed, a returned value meets the same condition on strings and numbers: the image of the parser |
| `JsonRoundTrip.IntRoundTrip` | src/lib_api.cc:277 | A 32-bit integer survives printing and parsing if and only if it is not negative |
| `JsonProgress.HangsExactly` | src/lib_api.cc:348-433 | For every text: parsing does not end if and only if one scan with a stack of open brackets meets a closer that mismatches the innermost bracket, before the end of the text or value, an oversized number or an unfinished string; keys of any kind included |
| `JsonProgress.StrayBraceHangs` | src/lib_api.cc:378-430 | In particular a brace closing a list never ends, after any printed items and any skipped characters, anywhere in a text |
| `Digraph.AcyclicIffRanked` | src/lib_api.cc:574-581 | A finite graph has no closed walk if and only if its nodes can be ranked so that every edge descends |
| `ExtGraph.Visit` | src/lib_api.cc:655-665 | On heap nodes with arbitrary links, cyclic or not, the depth-first visit ends, lists each node once, removes exactly the listed nodes, and on rankable graphs lists every consumer before its producer |
| `ExtGraph.TopologicalSort` | src/lib_api.cc:668-690 | For every choice of the next unvisited root: each node of the graph exactly once, consumers first whenever the outputs can be ranked, and at the start exactly the nodes that output edges lead to from the graph's inputs |
| `GraphWriter.SortNodes` | src/lib_api.cc:574-581 | The reversed numbering is a permutation of 0..n-1, and on acyclic mirrored graphs every node gets a larger number than all its inputs |
| `GraphWriter.ToJson` | src/lib_api.cc:565-647 | The JSON value describes the heap graph through one permutation that is topological when the graph is acyclic: fields, ordered inputs, heads, input nodes, row pointers and, recursively, subgraphs |
| `GraphForm.WrittenForm` | src/lib_api.cc:565-647 | Field by field: row pointers count up from 0, entry k of the input list is the place of input k, every head and input is three numbers (place, entry, 0), node attributes are strings, subgraphs appear only when there are any, and other graph attributes are kept |
| `GraphForm.ArgNodesNameInputs` | src/lib_api.cc:589-593 | The node written, and the node built, at entry k of the input list has the operator and name of the graph's input k |
| `GraphReader.LinkInputs` | src/lib_api.cc:527-539 | Linking succeeds exactly when every reference points to an earlier node; then input entries are in order and each referenced node gained exactly one output per use |
| `GraphReader.MirrorGrows` | src/lib_api.cc:527-540 | Adding a node keeps the outputs lists an exact mirror of the inputs lists, without duplicates |
| `GraphReader.AddNode` | src/lib_api.cc:500-541 | One turn of the reading loop: succeeds exactly when the node resolves; earlier nodes change in their outputs only |
| `GraphReader.FromJson` | src/lib_api.cc:493-562 | A graph results exactly when every reference resolves to an earlier node, recursively; its objects are new and represent the described graph with mirrored links |
| `GraphMatch.Resolves` | src/lib_api.cc:493-647 | The JSON of a mirrored graph can be read back if and only if the graph and all subgraphs are acyclic |
| `GraphMatch.BuiltIso` | src/lib_api.cc:493-647 | Whatever is built from the JSON of a mirrored graph is the graph renumbered: same operators, names, attributes, ordered inputs, heads; outputs as multisets; its inputs are the null nodes and reserved graph attributes are gone; subgraphs recursively |
| `GraphMatch.BuiltUnique` | src/lib_api.cc:493-562 | Only one graph is built from given JSON, the order of all its lists included |
| `GraphMatch.SameIffConventional` | src/lib_api.cc:493-593 | The graph read back has the same inputs as a set and all attributes, at every level, if and only if the written graph lists exactly its null nodes as inputs and uses no reserved attribute name, at every level |
| `GraphMatch.UnlistedInput` | src/lib_api.cc:726-735 | The graph of one null node that is not listed as an input never comes back the same, whatever is built from its JSON |
| `GraphText.JsonSafe` | src/lib_api.cc:565-647 | The JSON of a graph meets the round-trip condition of the text format if and only if node and entry numbers are non-negative ints, strings are safe unescaped and its own attributes survive or are overwritten; subgraphs likewise |
| `GraphRoundTrip.TextRoundTrip` | src/lib_api.cc:488-652 | For mirrored graphs: the text parses to the same JSON if and only if the graph is printable, the JSON resolves if and only if the graph is acyclic, and everything built from it is the graph renumbered, with the same inputs and attributes if and only if the graph is conventional |
| `GraphRoundTrip.ToString` | src/lib_api.cc:650-652 | The text is the printed form of a JSON value that describes the graph |
| `GraphRoundTrip.FromString` | src/lib_api.cc:488-491 | A graph results exactly when the text parses to a resolvable value, and it is what that value describes |
| `GraphRoundTrip.WriteAndRead` | src/lib_api.cc:488-652 | Writing a printable mirrored graph and reading the text succeeds if and only if the graph is acyclic, gives a new graph that is the old one renumbered, and keeps inputs and attributes if and only if the graph is conventional |
| `RecordPipeline.WriteWorker.Take` | tools/im2rec.py:246-263 | One message to the writer: the nested loops have the effect of receiving and draining the reorder buffer, which `ReceiveMeans` describes |
| `RecordPipeline.ReceiveMeans` | tools/im2rec.py:246-263 | A message enters the buffer or ends the loop; then everything in line from `count` up to the first gap leaves the buffer, and exactly the packable entries among it are written, in order, each under its item's number with its own packed form |
| `RecordPipeline.Receive` | tools/im2rec.py:246-263 | After every message the next expected index is not in the buffer |
| `PipelineSafety.DrainKeeps` | tools/im2rec.py:253-263 | Draining keeps the records written so far equal to the encoded items before `count`, and loses no index |
| `PipelineSafety.StepKeeps` | tools/im2rec.py:221-263 | Every step of feeder, worker or writer keeps the whole-system invariant: each fed item is in exactly one place, markers close queues once, the output is a prefix in list order |
| `PipelineRuns.RunKeepsInv` | tools/im2rec.py:345-366 | The invariant holds in every state of every interleaving |
| `PipelineRuns.FinalResult` | tools/im2rec.py:228-263 | In every final state `count` is the number of items, the buffer is empty, and the records are those of exactly the items that encode, in list order, each under its item's number with that item's encoding |
| `PipelineRuns.PackedInOrder` | tools/im2rec.py:256-263 | What is written once `count` items are through is given by strictly increasing positions: all items before `count` that encode, with their numbers and encodings |
| `PipelineRuns.EachAtItsWorker` | tools/im2rec.py:349-359 | In every reachable state an item on its way is at the worker its position modulo the number of workers picks |
| `PipelineRuns.RunWithinCapacity` | tools/im2rec.py:346-347 | In every reachable state no queue holds more than its capacity |
| `PipelineRuns.Progress` | tools/im2rec.py:221-366 | No deadlock: every reachable non-final state has an enabled step, for any number of workers and any capacities of at least 1 |
| `PipelineRuns.StepDecreases` | tools/im2rec.py:221-366 | A measure of the whole system falls with every step |
| `PipelineRuns.EveryRun` | tools/im2rec.py:221-366 | Every run has at most 4 (items + workers) + 5 states, has at any time written exactly the items before `count` that encode, in list order, and can stop only in the complete final state |
| `PipelineRuns.PackSequentially` | tools/im2rec.py:381-391 | The sequential loop writes the items in list order, each under its number with its encoding, and raises at the first one that failed to encode; it gets to the end if and only if every item encodes |
| `PipelineRuns.SequentialAgrees` | tools/im2rec.py:221-391 | What a loop that ended at an item has written equals the parallel result if and only if nothing from that item on encodes |
| `OnnxOrder.BuildMap` | 3rdparty/onnx-tensorrt/toposort.hpp:90-104 | Succeeds exactly when no output name occurs twice; the map then sends each name to its producer |
| `OnnxOrder.Sorter.PostOrder` | 3rdparty/onnx-tensorrt/toposort.hpp:43-83 | The three-colour visit ends even on cyclic graphs, failure proves a cycle, and success lists the node after all its producers |
| `OnnxOrder.CyclesAgree` | 3rdparty/onnx-tensorrt/toposort.hpp:43-83 | The producer graph used by the sort has a cycle exactly when nodes read each other's outputs in a circle |
| `OnnxOrder.Toposort` | 3rdparty/onnx-tensorrt/toposort.hpp:87-115 | Returns true if and only if output names are unique and there is no circular reading; then the order contains every index once, producers before consumers; nodes that are in order already stay as they are |
| `OnnxLookup.ParseGraph` | 3rdparty/onnx-tensorrt/ModelImporter.cpp:84-184 | Parsing succeeds if and only if the graph can be sorted, every importer succeeds, and every input that is not left out is an initializer, given from outside or delivered by some node: no lookup fails because of the order |
| `OnnxLookup.FoundInTime` | 3rdparty/onnx-tensorrt/ModelImporter.cpp:113-127 | When a node's turn comes, a name is registered if and only if it is available at all |
| `OnnxPartition.CheckForInput` | 3rdparty/onnx-tensorrt/ModelImporter.cpp:336-345 | True exactly when the node reads the failed input or the tensor a loop maps it to |
| `OnnxPartition.Partition` | 3rdparty/onnx-tensorrt/ModelImporter.cpp:356-390 | The loop appends to the collection the maximal non-empty runs of supported nodes; together they are the supported nodes in order |
| `OnnxPartition.SupportsModel` | 3rdparty/onnx-tensorrt/ModelImporter.cpp:347-398 | True if and only if sorting succeeds, parsing succeeded and every node is supported; then one subgraph covers everything and is marked |
| `OnnxPartition.OneRun` | 3rdparty/onnx-tensorrt/ModelImporter.cpp:392-396 | When everything is supported the runs are one run holding the whole order |
| `OnnxPartition.RunsAreConvex` | 3rdparty/onnx-tensorrt/ModelImporter.cpp:356-390 | No dependency path leaves a run and comes back into it |
| `OnnxPartition.RunsDependBackwards` | 3rdparty/onnx-tensorrt/ModelImporter.cpp:356-390 | A dependency path between runs leads from a later run to an earlier one |
| `RowMajor.OffsetInjective` | 3rdparty/onnx-tensorrt/onnx2trt_utils.cpp:1465-1491 | Different coordinates of a tensor have different positions |
| `RowMajor.IndexOffset` | 3rdparty/onnx-tensorrt/onnx2trt_utils.cpp:1465-1491 | Every position below the volume belongs to an in-bounds coordinate |
| `RowMajor.OffsetOrder` | 3rdparty/onnx-tensorrt/onnx2trt_utils.cpp:1465-1491 | The last axis varies fastest: one position is before another if and only if its coordinate is lexicographically smaller |
| `AxisOrder.PermuteKeepsVolume` | 3rdparty/onnx-tensorrt/onnx2trt_utils.cpp:1465-1491 | Permuting axes keeps the number of elements, for every rank, shape and permutation |
| `AxisOrder.EachPlaceOnce` | 3rdparty/onnx-tensorrt/onnx2trt_utils.cpp:1465-1491 | Every position of the permuted tensor receives exactly one element |
| `AxisOrder.TransposeExists` | 3rdparty/onnx-tensorrt/onnx2trt_utils.cpp:1465-1491 | Every tensor has a transpose under every permutation |
| `AxisOrder.TransposeBack` | 3rdparty/onnx-tensorrt/builtin_op_importers.cpp:3090-3114 | Transposing by a permutation and then by its inverse restores the data |
| `Transpose.IsTransposeRequired` | 3rdparty/onnx-tensorrt/onnx2trt_utils.cpp:914-937 | True exactly when a length is dynamic or two axes of length other than 1 change their relative order |
| `Transpose.ReshapeIsTranspose` | 3rdparty/onnx-tensorrt/onnx2trt_utils.cpp:914-937 | For every positive shape and permutation: leaving the data as it is equals the transpose of all data if and only if no two significant axes change their relative order |
| `Transpose.TransposeTensor` | 3rdparty/onnx-tensorrt/onnx2trt_utils.cpp:1465-1491 | The reshape shortcut is taken, on static shapes, exactly when it moves every element where the transpose would |
| `SpaceBlocks.PlansAreLegal` | 3rdparty/onnx-tensorrt/builtin_op_importers.cpp:796-848 | With the divisibility ONNX asks for, both reshapes keep the number of elements |
| `SpaceBlocks.DepthToSpaceElements` | 3rdparty/onnx-tensorrt/builtin_op_importers.cpp:796-848 | Element for element, output (n, c, h*b+i, w*b+j) is input channel (i*b+j)*C+c in DCR mode and c*b*b+i*b+j in CRD mode, and the output shape is [N, C, H*b, W*b] |
| `SpaceBlocks.SpaceToDepthUndoes` | 3rdparty/onnx-tensorrt/builtin_op_importers.cpp:3078-3122 | SpaceToDepth after DepthToSpace in DCR mode restores data and shape |
| `SpaceBlocks.DepthToSpaceUndoes` | 3rdparty/onnx-tensorrt/builtin_op_importers.cpp:796-848 | DepthToSpace in DCR mode after SpaceToDepth restores data and shape |
| `SpaceImporters.ImportersAgree` | 3rdparty/onnx-tensorrt/builtin_op_importers.cpp:744-848 | For every declared shape matching the run-time lengths, the static importer (inferred batch included) and the dynamic one resolve to the same reshapes and permutation, and to no others |
| `InitialState.SwapDirectionsAndBatch` | 3rdparty/onnx-tensorrt/onnx2trt_utils.cpp:1004-1027 | The four byte loops stay in bounds and turn [directions, batch, hidden] into [batch, directions, hidden] in place, for every element size |
| `InitialState.FillStep` | 3rdparty/onnx-tensorrt/onnx2trt_utils.cpp:1010-1026 | Each byte written goes to a place no other source byte goes to, so earlier ones stay |
| `ShapeArithmetic.FloorDivIsFloor` | 3rdparty/onnx-tensorrt/ShapeTensor.cpp:175-182 | The folded quotient is the mathematical floor for all sign combinations |
| `ShapeTensors.ConvertInt64` | 3rdparty/onnx-tensorrt/onnx2trt_utils.cpp:228-264 | Each value moves to the nearest 32-bit number; values that fit are unchanged |
| `ShapeTensors.ShapeTensor.IsAll` | 3rdparty/onnx-tensorrt/ShapeTensor.cpp:78-81 | True exactly when the values are known and all equal the argument |
| `ShapeTensors.ShapeTensor.Tensor` | 3rdparty/onnx-tensorrt/ShapeTensor.cpp:83-93 | The cached constant agrees with the values, is made once, and making it does not change what the tensor stands for |
| `ShapeTensors.ApplyIsMeaning` | 3rdparty/onnx-tensorrt/ShapeTensor.cpp:148-182 | The folded operation on two numbers equals the layer's operation, which is defined apart from it |
| `ShapeTensors.EntriesMean` | 3rdparty/onnx-tensorrt/ShapeTensor.cpp:118-182 | Every entry of a result is the sum, difference or product of the operands' entries, the one that is not above or not below the other, or the quotient rounded down, with a single entry repeated |
| `ShapeTensors.RightIdentityVanishes` | 3rdparty/onnx-tensorrt/ShapeTensor.cpp:123-126 | Dropping an identity right operand does not change the vector, for each operation and its declared identity |
| `ShapeTensors.LeftIdentityVanishes` | 3rdparty/onnx-tensorrt/ShapeTensor.cpp:127-130 | The same on the left for commutative operations |
| `ShapeTensors.Fold` | 3rdparty/onnx-tensorrt/ShapeTensor.cpp:134-139 | The folding loop with the remainder gives the broadcast element-wise vector |
| `ShapeTensors.Op` | 3rdparty/onnx-tensorrt/ShapeTensor.cpp:118-146 | Folded, short-circuited or left to a layer, the result stands for the same broadcast vector (a layer sees constants moved into 32 bits), operands keep their meaning, and aliased operands are allowed |
| `ShapeTensors.Concat` | 3rdparty/onnx-tensorrt/ShapeTensor.cpp:195-222 | The result stands for the concatenation in all cases, empty operands included |
| `ShapeTensors.Gather` | 3rdparty/onnx-tensorrt/ShapeTensor.cpp:224-243 | The result stands for the picked entries in all cases, empty indices included |
| `ShapeTensors.ProductOf` | 3rdparty/onnx-tensorrt/ShapeTensor.cpp:184-193 | The result stands for the product of the entries from first up to last |
| `ShapeTensors.MultipliedIsVolume` | 3rdparty/onnx-tensorrt/ShapeTensor.cpp:184-193 | That product is the number of elements of a tensor with these lengths |
| `ShapeExpressions.Evaluate` | 3rdparty/onnx-tensorrt/ShapeTensor.cpp:118-243 | For every expression over scalars and vectors, of any mix of known and unknown within 32 bits, or all known within 64: the built tensor has the rank and value of the expression's meaning and no operand changes its own |
| `Slice.DecodeClamps` | 3rdparty/onnx-tensorrt/builtin_op_importers.cpp:2910-2919 | The oblique formula counts negative indices from the end and clamps to the axis and one position behind it |
| `Slice.DecodeCases` | 3rdparty/onnx-tensorrt/builtin_op_importers.cpp:2910-2919 | Case by case: on the axis, counted from its end, behind it, before it |
| `Slice.DecodeIsStart` | 3rdparty/onnx-tensorrt/builtin_op_importers.cpp:2910-2919 | A start is decoded as ONNX asks if and only if the step is positive or the index is below the length of a non-empty axis |
| `Slice.DecodeIsEnd` | 3rdparty/onnx-tensorrt/builtin_op_importers.cpp:2910-2919 | An end is decoded as ONNX asks if and only if the step is positive or the index names a position on the axis |
| `Slice.DecodeIgnoresClamp` | 3rdparty/onnx-tensorrt/builtin_op_importers.cpp:2914-2919 | Clamping the index to 32 bits first makes no difference |
| `Slice.SizeSeparates` | 3rdparty/onnx-tensorrt/builtin_op_importers.cpp:2930-2934 | Position k is before the end exactly when k is below the computed size, for steps of either sign |
| `Slice.SizeIsCount` | 3rdparty/onnx-tensorrt/builtin_op_importers.cpp:2921-2936 | Without shift the size is the number of positions before the end if and only if the bounds are out of order by less than one step |
| `Slice.PositionsInside` | 3rdparty/onnx-tensorrt/builtin_op_importers.cpp:2921-2936 | Without shift, all positions lie on the axis if and only if the step is positive, the start is on the axis, or the end is behind it |
| `Slice.ShiftedInside` | 3rdparty/onnx-tensorrt/builtin_op_importers.cpp:2921-3017 | With the shift: going forward if and only if the start is on the axis or at least one step up; going backward if and only if it is on the axis and a multiple of the step |
| `Slice.ReversePastZero` | 3rdparty/onnx-tensorrt/builtin_op_importers.cpp:3000-3036 | A reverse slice by two to INT_MIN of any even length runs to position -1 |
| `Slice.ReverseFromBehind` | 3rdparty/onnx-tensorrt/builtin_op_importers.cpp:2914-2936 | A reverse slice with a large start begins behind the axis, for every length |
| `Slice.AxisExact` | 3rdparty/onnx-tensorrt/builtin_op_importers.cpp:3000-3036 | For steps of either sign, any start and end, shift included: the layer takes exactly the positions of the ONNX slice if and only if a condition on the operands holds |
| `Slice.SentinelForward` | 3rdparty/onnx-tensorrt/builtin_op_importers.cpp:3000-3017 | A forward slice to INT_MIN takes one position where there is none |
| `Slice.UnitStepShortcut` | 3rdparty/onnx-tensorrt/builtin_op_importers.cpp:2924-2929 | The shortcut for unit steps equals the general formula |
| `Slice.RangeIsCount` | 3rdparty/onnx-tensorrt/builtin_op_importers.cpp:2365-2372 | The Range length is the number of values before the limit, 0 included, for steps of either sign |
| `Slice.DecodeAxes` | 3rdparty/onnx-tensorrt/builtin_op_importers.cpp:2982-2999 | Accepts exactly distinct axes within range; decodes from the back; reports exactly whether they are 0, 1, 2, ... |
| `Slice.InterlaceSubscripts` | 3rdparty/onnx-tensorrt/builtin_op_importers.cpp:2900-2908 | Listed axes point into the second vector in order, all others at themselves |
| `Slice.InterlaceOverrides` | 3rdparty/onnx-tensorrt/builtin_op_importers.cpp:2898-2908 | Gathering by the subscripts replaces exactly the listed axes |
| `Slice.ShiftGatherInRange` | 3rdparty/onnx-tensorrt/builtin_op_importers.cpp:3002-3028 | The shift is gathered within range if and only if the ends are known or at most one axis is listed |
| `SliceLayer.DecodeIndices` | 3rdparty/onnx-tensorrt/builtin_op_importers.cpp:2914-2919 | On shape tensors of any mix of known and unknown, with 64-bit indices, decoding stands for the formula on every axis |
| `SliceLayer.ComputeSizes` | 3rdparty/onnx-tensorrt/builtin_op_importers.cpp:2921-2936 | Both branches stand for the size formula on every axis, for 64-bit steps too; only the unit-step branch drops the shift |
| `SliceImporter.ShiftVector` | 3rdparty/onnx-tensorrt/builtin_op_importers.cpp:3002-3017 | One entry per end when the ends are known, 1 exactly for INT_MIN; a single 0 otherwise |
| `SliceImporter.Interlace` | 3rdparty/onnx-tensorrt/builtin_op_importers.cpp:3023-3027 | Through concatenation and gather the listed axes get their entries and the others the default, up to 32-bit clamping in a layer |
| `SliceImporter.Import` | 3rdparty/onnx-tensorrt/builtin_op_importers.cpp:2980-3038 | The whole importer: refuses exactly bad axes; reads past the shift exactly when the ends are unknown and two or more axes are incomplete or out of order; otherwise a listed axis gets decoded start, its step, and a size with which the layer takes the ONNX slice, and stays on the axis, each if and only if a stated condition on the operands holds, and an unlisted axis is taken whole |
| `SqueezeAxes.InsertionInBounds` | 3rdparty/onnx-tensorrt/onnx2trt_utils.cpp:1672-1676 | For distinct in-range axes every insertion in ascending order is within bounds |
| `SqueezeAxes.InsertAxes` | 3rdparty/onnx-tensorrt/onnx2trt_utils.cpp:1671-1676 | The subscripts point behind the shape exactly at the listed axes and are the old positions in order elsewhere |
| `SqueezeAxes.UnsqueezeShape` | 3rdparty/onnx-tensorrt/onnx2trt_utils.cpp:1659-1682 | Refuses exactly when the rank would pass 8; otherwise 1 at every listed axis and the old shape, in order, at exactly the others |
| `SqueezeAxes.UnsqueezedUnique` | 3rdparty/onnx-tensorrt/onnx2trt_utils.cpp:1659-1682 | There is only one such shape |
| `SqueezeAxes.UnsqueezeKeepsVolume` | 3rdparty/onnx-tensorrt/onnx2trt_utils.cpp:1659-1682 | The number of elements does not change |
| `SqueezeAxes.SqueezeShape` | 3rdparty/onnx-tensorrt/onnx2trt_utils.cpp:1447-1463 | The result is the lengths at exactly the axes not listed, in order, for axes in any order, repeated or out of range |
| `SqueezeAxes.UnsqueezeThenSqueeze` | 3rdparty/onnx-tensorrt/onnx2trt_utils.cpp:1447-1463 | Squeezing the axes just inserted restores the shape |
| `SqueezeAxes.SqueezeThenUnsqueeze` | 3rdparty/onnx-tensorrt/onnx2trt_utils.cpp:1447-1463 | Inserting the axes just squeezed restores the shape when they had length 1 |
| `DeconvPadding.GeneratePadding` | 3rdparty/onnx-tensorrt/onnx2trt_utils.cpp:636-651 | The output padding makes the output length on every axis the requested one |
| `DeconvPadding.LastTouched` | 3rdparty/onnx-tensorrt/onnx2trt_utils.cpp:643-649 | The length the formula starts from ends with the last position to which any input and kernel position contribute |
| `DeconvPadding.LiftNegative` | 3rdparty/onnx-tensorrt/builtin_op_importers.cpp:634-644 | Refuses exactly negative pre padding; negative post padding becomes output padding |
| `DeconvPadding.Adjust` | 3rdparty/onnx-tensorrt/builtin_op_importers.cpp:649-667 | Conserves post minus output padding on every axis, leaves both non-negative and at most one of them non-zero, and reports exactly whether output padding is left |
| `DeconvPadding.PadToShape` | 3rdparty/onnx-tensorrt/builtin_op_importers.cpp:622-667 | The final length on an axis is the requested one if its given post padding was not negative, and otherwise the length without output padding, whatever was requested |
| `DeconvPadding.NegativePostPadding` | 3rdparty/onnx-tensorrt/builtin_op_importers.cpp:622-667 | For every axis and negative post padding a request for one more than that length comes out one short |
| `RoundRobin.StepBounded` | src/resource.cc:284-293 | Increment and store as separate steps keep the counter at most the limit plus the threads between the two; a thread has to store exactly when it got a value above half the range |
| `RoundRobin.RunBounded` | src/resource.cc:284-293 | The bound holds in every state of every interleaving of any number of threads |
| `RoundRobin.Slot` | src/resource.cc:284-293 | Every returned index is in range |
| `RoundRobin.CountsUp` | src/resource.cc:284-293 | Between resets the counter advances by one per call |
| `RoundRobin.EachSlotOnce` | src/resource.cc:284-293 | Between resets, n consecutive calls return n different slots, each the next modulo n |
| `RoundRobin.ResetGoesOn` | src/resource.cc:284-293 | In every state of the concurrent machine: the slot a thread gets after its reset continues the round robin if and only if the counter is one ahead, modulo n, of where the thread left it |
| `RoundRobin.ResetAloneSkips` | src/resource.cc:287-291 | A reset before which no other request came skips exactly one slot |
| `RoundRobin.ResetBetweenRequests` | src/resource.cc:284-293 | A reset with one request of another thread in between skips none |
| `RoundRobin.ParallelRandom.constructor` | src/resource.cc:309-325 | A new object has the seeds derived from device, copy and global seed, and starts at 0 |
| `RoundRobin.SeedsDiffer` | src/resource.cc:309-313 | Samplers start from equal seeds if and only if device and copy are the same, for 16 devices and 2^28 copies |
| `RoundRobin.SeedMoves` | src/resource.cc:309-313 | The seed is the device number, plus 16 per copy and 127 per global seed, in 32-bit arithmetic |
| `RoundRobin.ParallelRandom.SeedWithDeviceID` | src/resource.cc:337-343 | Reseeding gives exactly the state of a new object built with the seed |
| `RoundRobin.ParallelRandom.GetNext` | src/resource.cc:363-372 | An undisturbed call is one thread taking its one or two steps of the concurrent machine |
| `RoundRobin.SlotsGoRound` | src/resource.cc:363-372 | Without a reset, call j returns the slot j + 1 behind the counter, modulo n |
| `RoundRobin.Replay` | src/resource.cc:309-372 | After reseeding, an allocator has the seeds and, for any number of calls, returns the slots of one newly made with that seed |
| `IncludeExpander.Amalgamation.ExpandFile` | amalgamation/amalgamation.py:113-183 | The recursive method over the global state ends for any include relation, cyclic or not, and has the effect of the reference expansion |
| `IncludeOnce.ExpandSound` | amalgamation/amalgamation.py:126-183 | The files opened are exactly history plus pending; each file but the exempt one is opened at most once; history and output only grow |
| `IncludeOnce.ExpandServes` | amalgamation/amalgamation.py:126-183 | After expansion every include of every closed file has been expanded or is still pending |
| `IncludeOnce.ExpandIsOnce` | amalgamation/amalgamation.py:113-183 | The text equals that of an include-once preprocessor that marks files on entry, from any starting state |
| `IncludeOnce.Flattened` | amalgamation/amalgamation.py:113-194 | Over all top-level calls: opened at most once, every include served, every root present, and the text of the include-once reference |
| `IncludeCounts.OpensExactly` | amalgamation/amalgamation.py:126-137 | A file is opened, and closed at the end, if and only if it is not pending and either not in the history or the one file that may be included often; otherwise nothing changes |
| `IncludeCounts.ExpandLists` | amalgamation/amalgamation.py:171-178 | Expanding a file lists a header if and only if it may be listed and stands in a file opened on the way, or was listed before; never twice |
| `IncludeCounts.AddsUp` | amalgamation/amalgamation.py:113-194 | Over all top-level calls: a header is listed once, if and only if it may be and an opened file has it; every line of text is copied as often as it stands in the files opened; files are numbered 1, 2, ... as they are opened and indented by the files open around them |

## Left out

- GraphReader.FromJson: returns null where the code would follow a null or missing node, because the code has no defined result there.
- Json.Parse: leaves the content of a map open once a key is not a string, because the comparison of other kinds of values is not an ordering; such an insertion is taken to return.
- Json.Parse: does not model wrap-around of the 32-bit cursor on texts of 4 GB and more.
- GraphRoundTrip.FromString: returns null for a text whose content is left open because a map key is not a string.
- OnnxPartition.SupportsModel: asks for a node or an earlier subgraph when parsing succeeded, because the code marks the last subgraph unconditionally; and for an output on every node, because it reads the first one.
- ShapeTensors.Op: asks for non-empty operands and results that fit, because the code divides by the size, layers are 32-bit and overflow has no defined result.
- SliceImporter.Import: asks for non-zero steps, one per listed axis, and for lengths below INT_MAX, because the code divides by the step and layers are 32-bit; stops at the vectors handed to the layer, which itself narrows a step to 32 bits.
- InitialState.SwapDirectionsAndBatch: computes positions without the width of `int`.
- Graph node tensors, pass resources, `Graph::print` and `JsonVal::toString`: storage and output only.
- The C interface of the extension library: marshalling.
- An `image_encode` that raises outside its own `try` while cropping or resizing: its worker then ends without a marker, its queue can fill and the feeder block, so `PipelineRuns.Progress` is about encoders that return, with or without a result.
- Image decoding, cropping, quality and label text in `image_encode`: the encoder is a parameter that may fail; files and clocks are left out.
- The writer handles one message and its draining as one step, because nothing else reads its state in between.
- The importers called by `parseGraph`, tensors they register for subgraphs, tensor naming and the TensorRT and protobuf libraries: what importers deliver is a parameter.
- Automatic padding modes of `generatePadding`: not reachable from the transposed convolution with a requested shape.
- Floating-point Range.
- `find_source` and the line patterns of the amalgamation script: the classified lines of a file are a parameter.
- Engine scheduling and the memory of `SpaceAllocator` in `src/resource.cc`: device memory.
