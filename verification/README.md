# Assembly-planning assistant backend, modelled in Dafny

This project models the backend of an assembly-planning question-answering assistant
(`Toolchain/backend.py`). The model covers its three pieces of self-contained logic:

- **Plan-table extraction and cleaning.**
  - `extract_phase3_table` cuts the "Phase 3" section out of a language model's design answer. It
    looks for a markdown table in that section, first with a strict pattern and then with a loose
    line filter.
  - `clean_markdown_table` turns the table into rows of trimmed cells.
- **Graph drawing.**
  - `detect_data_format` sorts a graph-database query result into one of four record shapes.
  - `process_format_a`, `process_format_b`, `process_format_c` and `process_format_d` draw the
    matching nodes and edges. They deduplicate through `add_node_if_absent` and label nodes with
    `generate_attribute_label`.
  - `generate_graph_html` dispatches on the detected shape.
- **One question/answer turn.** `smart_qa_system`:
  - normalises the router's reply and picks the graph branch or the design branch;
  - streams the answer chunks and appends the plan status message;
  - writes the conversation memory, or yields one error chunk when an exception escapes.

The modules follow the program's structure:

| module | file | what it holds |
|---|---|---|
| `Outcomes` | `outcomes.dfy` | `Option`, and `Attempt` (a value or a raised exception's text) |
| `Text` | `text.dfy` | Python's `strip`, `split`, `join`, ASCII `lower` on `seq<char>`, with their round trips |
| `Phase3Extract` | `extract.dfy` | the two regular expressions as hand-written recognisers, and `extract_phase3_table` |
| `TableClean` | `clean.dfy` | `clean_markdown_table` |
| `CleanRoundTrip` | `clean_roundtrip.dfy` | the cleaner reading back a grid written as a markdown table |
| `Records` | `records.dfy` | query results as Python values, `detect_data_format`, `generate_attribute_label` |
| `GraphBuild` | `network.dfy` | the pyvis network as an immutable state, `add_node_if_absent`, the four handlers, `generate_graph_html` |
| `QaTurn` | `turn.dfy` | routing and the outcome of one `smart_qa_system` turn |
| `Scenarios` | `scenarios.dfy` | worked examples followed end to end through the definitions |

### Modelling choices

- **Network state.** The pyvis network is modelled as a `Graph` value. It holds:
  - the node sequence;
  - the edge sequence;
  - the set of ids recorded in `node_records`;
  - the number of `uuid.uuid4()` draws made so far.

  Its invariant is `GraphBuild.Consistent`:
  - the recorded ids are exactly the drawn node ids;
  - no id is drawn twice;
  - every edge joins drawn nodes.
- **Uuids.** The uuid generator is a parameter `uuids: nat -> Uuid`, where the n-th draw is
  `uuids(n)`. `str(value.get("name", uuid.uuid4()))` evaluates its default eagerly, so a draw is
  made for every format A node and every format C record, even when a name is present.
- **Exceptions.** A handler that calls `.get` on a record that is not a dict raises. This is
  modelled as `Attempt.Raised`, and it reaches the turn's exception handler.
- **Other services.** The router, the graph query chain, the two answer streams, the clock and the
  CSV writer's failure are the fields of `QaTurn.Services`. Each is an arbitrary input.
- **Answer streams.** An answer stream is modelled as the tokens it yields, then optionally the
  exception it raises.

### Behaviour of the code worth knowing

- **The fallback filter needs a second pipe.** `^\|.*\|\s*` keeps a line only when it starts with
  a pipe and has another pipe later on the same line (`Phase3Extract.IsRowLine`).
- **`row.strip("|")` removes every leading and trailing pipe**, however many there are
  (`TableClean.Cells`).
- **An empty cleaned table is still saved.** When a table is extracted but cleans to no rows, the
  CSV file is still written, with no rows, and the turn reports it saved
  (`QaTurn.EmptyPlanReportedSaved`).
- **The strict pattern never matches the block's last line.** Every line of the strict pattern
  must end in a line break, and the Phase 3 block is stripped before the search. So a strict match
  never reaches the block's last line (`Phase3Extract.StrictTableSkipsLastLine`). A block of three
  table lines, such as a three-line plan table, is therefore found by the fallback and not by the
  strict pattern (`Scenarios.ThreeRowBlockFallsBack`).
- **A strict table that ends the block loses its last data row.** For the same reason, a table
  with a header, a separator and two or more data rows, with nothing after it inside the Phase 3
  section, matches the strict pattern without its last data row. The saved plan then misses its
  last step (`Scenarios.LastDataRowIsLost`).
- **Cleaning is not idempotent when a row's first or last cell is empty.** `row.strip("|")`
  removes the empty edge cell's pipes along with the frame. Cleaning `|a| |` and `|b| |` gives
  `[["a", ""], ["b", ""]]`; writing that grid back as a table gives `|a||` and `|b||`, which clean
  to `[["a"], ["b"]]` (`CleanRoundTrip.EmptyEdgeCellIsLost`, `CleanRoundTrip.CleanIsNotIdempotent`).
- **An empty-string dict key stops format C.** In format C, a dict-valued key that is the empty
  string is falsy. `if not dict_field: return` then draws nothing (`GraphBuild.ProcessC`).
- **Non-dict records raise in formats B, C and D.** In those formats a record that is not a dict
  raises; it is not skipped (`GraphBuild.ItemsPair`, `GraphBuild.StepC`).

## Model

| member | source | states |
|---|---|---|
| Phase3Extract.FindHeading | Toolchain/backend.py:145-150 | the section search uses the leftmost position where a "Phase 3" heading can be completed; no earlier position completes one, and none is found exactly when no position does |
| Phase3Extract.BodyEnd | Toolchain/backend.py:147-148 | the lazy section body stops at a position where the Phase 4 lookahead holds, or at the end of the text |
| Phase3Extract.BodyEndIsFirst | Toolchain/backend.py:147-148 | no Phase 4 marker lies inside the body: the lazy match stops at the first one |
| Phase3Extract.BodyEndAt | Toolchain/backend.py:147-148 | any position that is a Phase 4 marker (or the end) with no marker before it is where the body ends |
| Phase3Extract.Phase3Block | Toolchain/backend.py:145-153 | the section is absent exactly when the text has no completable Phase 3 heading; otherwise it is the body after the leftmost such heading, which starts after a line break and ends at the first Phase 4 marker after it or at the end of the text |
| Phase3Extract.BlockSpanAt | Toolchain/backend.py:145-148 | a body starting after a line break runs to the first Phase 4 marker or to the end of the text |
| Phase3Extract.BlockRunsToEndWithoutPhase4 | Toolchain/backend.py:145-148 | with no Phase 4 marker anywhere, the section is everything after the leftmost Phase 3 heading line up to the end of the text, so a trailing table is still inside it |
| Phase3Extract.PhaseMarkOf | Toolchain/backend.py:145-148 | the literal "Phase d" completes the `Phase\s*d` part of both patterns right after the digit |
| Phase3Extract.HeadingLineAt | Toolchain/backend.py:145-154 | a text opening with a "Phase 3" heading line has its section start on the next line |
| Phase3Extract.BlockOfHeading | Toolchain/backend.py:145-154 | when the text starts with a completable heading, that heading's body is the section |
| Phase3Extract.NoPhase4Within | Toolchain/backend.py:148 | a stretch with no `#`, no `*` and no letter that can continue "Ph" holds no Phase 4 marker |
| Phase3Extract.FromFirstPipe | Toolchain/backend.py:159 | an unanchored row can only start at the line's first pipe: the result is the suffix from that pipe, empty exactly when the line has none |
| Phase3Extract.RowLineHasTwoPipes | Toolchain/backend.py:172 | a line is a row line exactly when its first character is a pipe and a pipe appears again at some later position |
| Phase3Extract.KindOf | Toolchain/backend.py:159-161 | a line is a row for the strict pattern exactly when it is pipe-led with a second pipe, and a separator exactly when its first two pipe cells are dash/colon runs |
| Phase3Extract.SeparatorIsRow | Toolchain/backend.py:159-160 | every separator line is also a row line, so a separator may be taken as a header row |
| Phase3Extract.SeparatorIndex | Toolchain/backend.py:159-160 | the lazy header group stops at the first separator followed by a data row, provided every header line before it is a row |
| Phase3Extract.DataEnd | Toolchain/backend.py:161 | the greedy data group takes a run of terminated row lines that stops only at a line that is not a row or at the block's last line |
| Phase3Extract.TableFrom | Toolchain/backend.py:159-161 | a strict table starting on a line has a separator after it and at least one data row; when none is found, the line is not a row or no separator with only row lines before it follows |
| Phase3Extract.FirstTableLine | Toolchain/backend.py:164 | the scan finds the first line where a strict table starts; no table starts before it |
| Phase3Extract.StrictSearch | Toolchain/backend.py:164 | the search fails exactly when no line starts a strict table; otherwise it returns the table of the leftmost line that starts one |
| Phase3Extract.StrictTableSkipsLastLine | Toolchain/backend.py:158-166 | a strict match spans at least a header, a separator and a data row, and always ends before the stripped block's last line |
| Phase3Extract.StrictTableStartsWithPipe | Toolchain/backend.py:166 | the stripped strict match begins with a pipe |
| Phase3Extract.ShortBlockHasNoStrictTable | Toolchain/backend.py:158-164 | a block of at most three lines never matches the strict pattern |
| Phase3Extract.StrictTableIsResult | Toolchain/backend.py:164-168 | when the strict pattern matches, its stripped match is the result |
| Phase3Extract.FallbackIsRowLines | Toolchain/backend.py:172-179 | without a strict match, a result exists exactly when at least two block lines are row lines, and its lines are exactly those lines in block order |
| Phase3Extract.BlockLines | Toolchain/backend.py:154 | the stripped section splits into at least one line, none holding a line break |
| Phase3Extract.Extract | Toolchain/backend.py:143-179 | no result without a Phase 3 heading; any result is non-empty and begins with a pipe |
| TableClean.Kept | Toolchain/backend.py:185-190 | a line made only of whitespace, colons, dashes and pipes, the empty line included, is never kept |
| TableClean.KeptLines | Toolchain/backend.py:185-190 | the kept lines are, in input order, the stripped input lines that pass the filter, one for each |
| TableClean.KeptLinesAreKept | Toolchain/backend.py:185-190 | every kept line contains a pipe, is not made only of whitespace, colons, dashes and pipes, and does not begin with "total" |
| TableClean.StrippedLineStaysKept | Toolchain/backend.py:186-189 | stripping a line that passes the filter gives a line that still passes it |
| TableClean.PipeLedRowIsKept | Toolchain/backend.py:187-189 | a pipe-led line whose first cell says "Total" is kept whenever it has a character other than whitespace, colon, dash or pipe |
| TableClean.TotalRowIsDropped | Toolchain/backend.py:189 | a line beginning, after whitespace, with "total" in any letter case is dropped |
| TableClean.ColumnCount | Toolchain/backend.py:200 | the column count is the largest number of non-empty pipe segments of any kept line, reached by some line |
| TableClean.Cells | Toolchain/backend.py:205 | a row has one cell per pipe segment of the line with all outer pipes removed, at least one |
| TableClean.CellsAreTrimmed | Toolchain/backend.py:205 | every cell holds no pipe and has no outer whitespace |
| TableClean.Pad | Toolchain/backend.py:206-207 | padding keeps the cells as a prefix, appends only empty cells, and the row is exactly the target width when it was shorter and unchanged otherwise |
| TableClean.PadAll | Toolchain/backend.py:203-210 | each row is the corresponding row extended with empty cells to exactly the target width when it was shorter, and left alone otherwise |
| TableClean.PadAllKeepsTrimmed | Toolchain/backend.py:205-207 | padding keeps every cell pipe-free and trimmed |
| TableClean.Clean | Toolchain/backend.py:181-211 | no rows exactly when fewer than two lines survive the filter; otherwise one row per kept line, in order, each its cells followed only by empty padding up to exactly the column count, never truncated |
| TableClean.CleanCellsAreTrimmed | Toolchain/backend.py:185-211 | every cell of the cleaned table holds no pipe and has no outer whitespace |
| CleanRoundTrip.RowLineFacts | Toolchain/backend.py:185-205 | a row of plain cells, written as a pipe-framed line, passes the filter unchanged by `strip()`, splits back into exactly its cells, and fills one segment per cell |
| CleanRoundTrip.CleanPadsTableText | Toolchain/backend.py:181-211 | two or more rows of plain cells, written as a markdown table, clean to those rows, each extended with empty cells to the widest row's width |
| CleanRoundTrip.CleanOfTableText | Toolchain/backend.py:181-211 | cleaning an already rectangular table of plain cells gives back exactly its grid |
| CleanRoundTrip.EmptyEdgeCellIsLost | Toolchain/backend.py:200-207 | two rows whose last cell is blank clean to two-column rows with an empty last cell; written back as a table, they clean to one-column rows: the empty cell is lost |
| CleanRoundTrip.CleanIsNotIdempotent | Toolchain/backend.py:181-211 | two pipe-framed rows "a" and "b", each followed by a blank cell, clean to `[["a",""],["b",""]]`; that grid written back as a table (its empty cells now with nothing between their pipes) cleans to `[["a"],["b"]]` |
| Records.Get | Toolchain/backend.py:309 | `d.get(k)` finds a value exactly when `k` is a key, and it is the value of that key's field |
| Records.ShowOr | Toolchain/backend.py:256 | a missing key renders as the given default |
| Records.DictFieldCount | Toolchain/backend.py:318 | the count of dict-valued fields is zero exactly when no field holds a dict |
| Records.DetectFormat | Toolchain/backend.py:313-326 | a result whose first record is not a dict is format A; otherwise C exactly when one field is a dict and there are at least three fields, B exactly when no field is a dict and there are two, D exactly when no field is a dict and there are at least three, and A in every other case |
| Records.OtherFields | Toolchain/backend.py:310 | the fields other than "name" are exactly the record's fields whose key is not "name", and there are none exactly when every key is "name" |
| Records.AttributeLabel | Toolchain/backend.py:308-311 | with no other field the label is the name value itself (or "Node" when there is no name); otherwise it is a text beginning with the rendered name and a line break |
| Records.AttributeLabelLines | Toolchain/backend.py:308-311 | the label's lines are the name followed by one `key: value` line per other field, in field order |
| GraphBuild.ShownLabel | Toolchain/backend.py:235 | `label or node_id`: the label shown is the given label exactly when one is given and it is truthy, and the node id in every other case |
| GraphBuild.AddNodeIfAbsent | Toolchain/backend.py:233-236 | an already recorded id changes nothing; a new id appends one node and records the id; edges are never touched |
| GraphBuild.AddNodeKeepsConsistent | Toolchain/backend.py:233-236 | ids stay unique and match the recorded set, the id ends up drawn, and existing nodes keep their first label, colour and shape |
| GraphBuild.DistinctCount | Toolchain/backend.py:233-236 | with unique ids the number of nodes equals the number of distinct ids |
| GraphBuild.AddEdge | Toolchain/backend.py:261 | an edge between recorded nodes is appended and keeps the network consistent |
| GraphBuild.NamedNode | Toolchain/backend.py:243-244 | one uuid is drawn whether or not the record has a name, and the name (or the uuid) becomes a recorded id |
| GraphBuild.ValueNodes | Toolchain/backend.py:241-244 | walking one record's values only adds nodes and keeps the network consistent; it draws one uuid per dict value and records exactly the ids of the reference list, each dict value's name or else its uuid |
| GraphBuild.RecordNodes | Toolchain/backend.py:239-244 | walking the records only adds nodes, never edges, and keeps the network consistent; it draws one uuid per dict value of a dict record and records exactly the ids the reference list gives for the dict records, in order |
| GraphBuild.ProcessA | Toolchain/backend.py:238-244 | format A raises exactly when the data is a scalar that cannot be iterated; a text or a dict leaves the network unchanged; a list adds exactly the reference ids as nodes, draws one uuid per id in that list, and never adds an edge |
| GraphBuild.FormatADrawsRecordIds | Toolchain/backend.py:213-244 | a format A page from an empty network has no edge, one node per distinct reference id and no other node, and is saved under the uuid drawn after all of them |
| GraphBuild.PairEdge | Toolchain/backend.py:256-258 | a record asks for an edge exactly when it is a dict whose two end fields both render non-empty |
| GraphBuild.StepPair | Toolchain/backend.py:255-261 | a record raises exactly when it is not a dict; otherwise it appends exactly the edge it asks for and keeps the network consistent |
| GraphBuild.ItemsPair | Toolchain/backend.py:255-261 | the pair loop raises exactly when some record is not a dict, draws no uuid and keeps the network consistent |
| GraphBuild.ItemsPairDrawsPairEdges | Toolchain/backend.py:255-261 | the pair loop appends exactly the edges the records ask for, in record order |
| GraphBuild.ItemsPairRecordsEnds | Toolchain/backend.py:255-261 | the pair loop adds exactly the ends of those edges as node ids: no record adds a node without an edge |
| GraphBuild.PairLoopDrawsPairEdges | Toolchain/backend.py:255-261 | from an empty network, the edges are exactly the ones the records ask for and the nodes exactly their ends |
| GraphBuild.ProcessB | Toolchain/backend.py:246-261 | format B raises only on a dict first record with at least two keys; otherwise it keeps the network consistent and draws no uuid |
| GraphBuild.ProcessD | Toolchain/backend.py:289-306 | format D raises only on a dict first record with at least three keys; otherwise it keeps the network consistent and draws no uuid |
| GraphBuild.FormatBDrawsPairEdges | Toolchain/backend.py:246-261 | in format B with dict records, the edges are exactly the unlabelled links between the first two keys that render non-empty, and the nodes exactly their ends |
| GraphBuild.FormatDDrawsPairEdges | Toolchain/backend.py:289-306 | in format D with dict records, the same holds, with each edge labelled by the third key's value |
| GraphBuild.TwoLinksDrawAChain | Toolchain/backend.py:246-261 | `[{"a": X, "b": Y}, {"a": Y, "b": Z}]` draws exactly three nodes X, Y, Z and the two edges X→Y and Y→Z |
| GraphBuild.LinkRecord | Toolchain/backend.py:254-261 | a two-field string record with non-empty values is a format B record that asks for one link |
| GraphBuild.FirstDictKey | Toolchain/backend.py:268 | the key found is the first dict-valued one, and none is found exactly when no field holds a dict |
| GraphBuild.OtherKeys | Toolchain/backend.py:277 | the other keys are exactly the record's keys different from the dict field |
| GraphBuild.FirstOtherThan | Toolchain/backend.py:285 | the relation key is the first key different from the target key, and none exists exactly when every key equals it |
| GraphBuild.DictPart | Toolchain/backend.py:273 | `item.get(dict_field, {})`: the field's value when present, otherwise an empty dict |
| GraphBuild.EdgeC | Toolchain/backend.py:277-287 | a format C record asks for one edge exactly when it has a key besides the dict field, from the node of its dict part |
| GraphBuild.StepC | Toolchain/backend.py:272-287 | a record raises exactly when it or its dict part is not a dict; otherwise it draws one uuid, records exactly its dict node (named by the dict's "name" or the uuid) and, when the record has another key, the node that key's value names, appends exactly its edge and keeps the network consistent |
| GraphBuild.ItemsC | Toolchain/backend.py:272-287 | the format C loop raises exactly when some record or its dict part is not a dict, and otherwise draws one uuid per record and adds to the recorded ids exactly the ids `NodeIdsC` reads off the records |
| GraphBuild.ItemsCDrawsEdgesC | Toolchain/backend.py:272-287 | the format C loop appends exactly the edges the records ask for, given the uuids drawn for them |
| GraphBuild.ProcessC | Toolchain/backend.py:263-287 | format C leaves the network unchanged for empty data, a first record that is not a dict, or a first record with no dict-valued key or whose first dict-valued key is ""; otherwise it draws one uuid per record and records exactly the ids `NodeIdsC` reads off the records; it keeps the network consistent |
| GraphBuild.FormatCDrawsNodeIdsC | Toolchain/backend.py:263-287 | a format C page from an empty network has exactly the edges the records ask for and one node per distinct id `NodeIdsC` reads off the records and no other node, and is saved under the uuid drawn after one per record |
| GraphBuild.HandleOfB | Toolchain/backend.py:217-228 | format B runs the pair loop on the first two keys of the first record |
| GraphBuild.HandleOfD | Toolchain/backend.py:217-228 | format D runs the pair loop on the first three keys, the third labelling the edges |
| GraphBuild.HandleOfC | Toolchain/backend.py:217-228 | format C runs the record loop on the first dict-valued key |
| GraphBuild.Handle | Toolchain/backend.py:213-228 | the drawn network is always consistent; format A lists draw no edge; formats B and D raise exactly when some record is not a dict |
| GraphBuild.GraphPage | Toolchain/backend.py:213-231 | the page raises exactly when its handler raises, and otherwise holds the handler's consistent network |
| Text.SplitOfJoin | Toolchain/backend.py:172-177 | splitting parts that hold no separator after joining them gives the parts back |
| Text.JoinOfSplit | Toolchain/backend.py:205 | joining a split text with its separator gives the text back |
| QaTurn.GraphRouteIsQuotedGraph | Toolchain/backend.py:399-402 | the graph branch is taken exactly when the stripped, lower-cased reply is "graph" wrapped in quotes, apostrophes and spaces |
| QaTurn.QuotedReplyTakesGraph | Toolchain/backend.py:399-402 | the reply `'Graph'`, surrounded by stray whitespace, takes the graph branch |
| QaTurn.LongerReplyTakesDesign | Toolchain/backend.py:399-417 | a reply that says more than "graph" ("graph database") takes the design branch |
| QaTurn.GraphData | Toolchain/backend.py:405 | the records are the "result" field when present, otherwise the whole output |
| QaTurn.RemoveAll | Toolchain/backend.py:406 | removing a pattern leaves a text without the pattern unchanged, removes at least one copy when the pattern occurs, and always shortens the text by a whole number of copies |
| QaTurn.RemoveAllSplits | Toolchain/backend.py:406 | `str.replace(pat, "")` is the text cut at leftmost non-overlapping copies of the pattern, with no copy starting inside any piece, and the pieces glued back together |
| QaTurn.CypherText | Toolchain/backend.py:406 | an output without intermediate steps gives the empty query text |
| QaTurn.PlainQueryIsKept | Toolchain/backend.py:406 | a generated query that never spells "cypher" reaches the answer prompt only stripped |
| QaTurn.Window | Toolchain/backend.py:21 | the design prompt sees the last ten exchanges, or all of them when there are fewer |
| QaTurn.Failed | Toolchain/backend.py:447-450 | after an exception the chunks already yielded are kept, exactly one error chunk follows, and memory and plan file are untouched |
| QaTurn.PlanStatus | Toolchain/backend.py:425-443 | the status is one of the three fixed messages; a file is written and reported saved exactly when a non-empty table was extracted and the write did not fail, "CSV generation failed" is reported exactly when the write failed, and "no table" exactly when none was extracted |
| QaTurn.EmptyPlanReportedSaved | Toolchain/backend.py:426-435 | a table that cleans to no rows is still written, as an empty file, and reported saved |
| QaTurn.DesignOutcome | Toolchain/backend.py:417-443 | the design branch yields the empty lead chunk, one chunk per token and one final chunk, none with a graph page; the final chunk is the plan status when the stream ended normally, and otherwise the error chunk, with no plan file and memory unchanged |
| QaTurn.GraphOutcome | Toolchain/backend.py:404-415 | the graph branch writes no plan; a drawing failure yields only the error chunk and leaves memory unchanged; otherwise the lead chunk carries the page, then one chunk per token, then an error chunk if the stream raised |
| QaTurn.Turn | Toolchain/backend.py:393-450 | a turn always yields at least one chunk; a router failure yields only the error chunk; a plan file is written only on the design branch, whose chunks never carry a graph page |
| QaTurn.Fault | Toolchain/backend.py:398-450 | no exception reaches the handler exactly when the router answers and the chosen branch succeeds: the drawing and the graph stream on the graph branch, the design stream on the design branch |
| QaTurn.Drawing | Toolchain/backend.py:404-408 | the graph page is drawn only after the query and the query-text step succeed, and is then the page of the query's records |
| QaTurn.TurnOfGraph | Toolchain/backend.py:402-415 | a graph route runs the query, draws the page and streams the graph answer |
| QaTurn.TurnOfDesign | Toolchain/backend.py:417-445 | a design route streams the design answer for the memory window, then adds the plan status |
| QaTurn.MemoryOnlyWithoutFault | Toolchain/backend.py:445-450 | memory is written exactly when no exception reaches the handler, and it then records the question and everything shown, status included |
| QaTurn.FaultEndsWithOneErrorChunk | Toolchain/backend.py:447-450 | when an exception reaches the handler, the turn ends with exactly one error chunk after what was already yielded, with no status and no plan file |
| QaTurn.DesignEndsWithOneStatus | Toolchain/backend.py:417-443 | a design turn that does not raise yields the empty lead chunk, one chunk per token, then exactly one of the three status messages, none with a graph page |
| QaTurn.GraphChunksShareOnePage | Toolchain/backend.py:408-415 | a graph turn that does not raise yields the lead chunk and one chunk per token, all carrying the saved page, and writes no plan |
| Scenarios.ExtractDesignPlan | Toolchain/backend.py:143-179 | "Phase 3. Plan", a three-line plan table, an empty line and "Phase 4. Validation" extract to the three table lines, which clean to `[["Order","Operation"],["1","JigIn"]]` |
| Scenarios.ThreeRowBlockFallsBack | Toolchain/backend.py:143-179 | three pipe-framed lines between a Phase 3 heading line and a Phase 4 heading are returned by the fallback |
| Scenarios.CleanDesignPlan | Toolchain/backend.py:181-211 | a two-column plan table with its separator cleans to its header row and its data row |
| Scenarios.CleanTwoColumnPlan | Toolchain/backend.py:181-211 | any two-column header/separator/data table cleans to its header and data cells, unpadded |
| Scenarios.RuleRowDropped | Toolchain/backend.py:188 | the two-column separator row of dashes is dropped |
| Scenarios.TableLines | Toolchain/backend.py:186 | three pipe-framed lines joined by line breaks come back as the same lines |
| Scenarios.StrictTableOfFourLines | Toolchain/backend.py:158-166 | a header row, a separator and a data row followed by any fourth line match the strict pattern as the first three lines only |
| Scenarios.LastDataRowIsLost | Toolchain/backend.py:143-211 | a Phase 3 section holding a header, a separator and two data rows extracts without the last data row, and cleans to the header and the first data row only |

## Left out

- Language model, graph database and LangChain calls (the router chain, the Cypher chain and the
  two token-stream functions) are external services. Their outputs are the fields of
  `QaTurn.Services`, and each is an arbitrary input.
- `configure_network`, `save_network`, `get_graph_html` and the pyvis HTML rendering are a foreign
  library and file output. Only the abstract node and edge state is modelled. The saved page is
  named by its path, which is built from a uuid draw.
- The CSV file writing and `os.makedirs` are file I/O. The model keeps the rows and path that
  would be written, and the exception the write may raise, as a parameter.
- `uuid.uuid4()` and `datetime.now()` are nondeterministic. They are the parameters `uuids` and
  the timestamp text.
- `ConversationBufferWindowMemory` is a library object. Memory is a sequence of exchanges, and the
  design prompt receives its last ten as a sequence rather than as formatted history text.
- The debug `print` calls have no effect on results.
- `Toolchain/app.py` (user interface, file sweeping, converter calls) is not part of this model.
- Phase3Extract.StrictSearch: a separator row whose `\s` runs past its line break onto the next line
  is not modelled. The model treats the strict pattern line by line: every row, separator and data
  line ends at its own line break.
- Text.Lower: lower-cases ASCII letters only. `re.IGNORECASE` also lets U+017F match "s" in
  "Phase", which the heading recogniser models, but other non-ASCII case folding is not modelled.
- Records.Repr: the quoting and escaping Python uses for `repr` of strings is taken as given with
  each scalar and key, not computed.
- QaTurn.CypherText: its own contract covers only an output without intermediate steps; the
  plain-query case is stated by `QaTurn.PlainQueryIsKept`. The exceptions a malformed query output
  raises are modelled by where they occur, not by their exact message texts; the same holds for
  the error texts of the graph handlers.
- QaTurn.Turn: the graph answer stream is a fixed input and does not depend on the records or
  query text handed to it; the design stream depends only on the memory window.
