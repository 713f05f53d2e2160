# Mokly, modelled and proved

Mokly turns authored HTML, Markdown and YAML into a catalogue and serves it. This project
models the parts of it in which explicit stacks, tables and counters stand in for a simpler
definition, and two concurrency protocols, and proves that they meet that definition.

- **YAML** (`Yaml*.dfy`, `Pointers.dfy`). A reader builds a document from parser events with
  one heap frame per open container, a flat tree of JSON-pointer locations and copies of
  anchored nodes; a scan before it predicts sizes and says which anchors to keep.
  `YamlMachine` is the builder as a step function, `YamlTree` the recursive evaluator with
  an alias environment. `YamlReading` and `YamlFailures` say, without either, what node a
  document says or which fault it has first. `YamlReader`, `YamlFrames` and `YamlPositions`
  hold the source's own mutable objects, proved against the step function; `YamlReader.Parse`
  brings all of it together.
- **HTML source map** (`HtmlSourceMap.dfy`). A sparse table of breakpoints, against the
  byte-by-byte relation of decoded text to source.
- **Admission and forced exit** (`ServePool.dfy`, `ForcedExit.dfy`). Each critical section is
  a method of a class; the machines interleave those sections with sleeping, spurious
  wakeups and notifications that come after the lock is released.
- **Graphs, trees and scanners**: component cycles, the directory walk (`DiscoveryWalk.dfy`,
  and when it fails, `DiscoveryFailures.dfy`), JSON positions, brace expansion, catalogue
  identity, order and relationships, edit distance and the key decoder, one module each.
  `Sorting.dfy` and `Common.dfy` are shared.

Parameters stand for what lies outside: decoded scalars (events carry them), decoded JSON
strings, terminal key reports, the glob library's verdicts, the tree's answers to a path,
clock readings and the order of steps.

What the code does is what is modelled, also where a reader might expect otherwise:

- `canonical_order` silently drops a variant whose parent is missing
  (`CatalogueOrder.OrphansDropped` and `CatalogueOrder.OrderedPermutation` give the exact
  condition, `CatalogueOrder.Orphan` an input). The program never passes such an input, because
  crates/mokly-catalogue/src/prepare_entry.rs:134-135 makes every variant from its own
  parent's entry.
- A base request reads the command's own interruption, which has no listener
  (crates/mokly-cli/src/serve_changes_base.rs:45-56). What wakes its sleepers is the close
  that crates/mokly-cli/src/serve_lifecycle.rs:35-38 does next, so that close counts as still
  to come until it is announced (`ServePool.NoLostWakeup`).
- In the key decoder an ESC inside a control string takes the next byte along, whatever it
  is (`KeyDecoder.StringEnds`).
- A token stream that stops early is read as a parser error.

## Model

| member | source | states |
|---|---|---|
| `YamlValues.Discard` | crates/mokly-catalogue/src/yaml_value.rs:35-45 | releases every node exactly once: the work list ends after as many turns as the value has nodes |
| `YamlValues.HeightOf` | crates/mokly-catalogue/src/yaml_value.rs:48-61 | the work list finds the recursive height: the deepest level below the root, mapping keys ignored |
| `YamlValues.Copy` | crates/mokly-catalogue/src/yaml_value.rs:65-91 | the step machine returns an equal value for every nesting, arrays in order and each key with its own value |
| `YamlValues.LooksBuild` | crates/mokly-catalogue/src/yaml_value.rs:65-91 | the copy steps still on the stack build exactly the values that they were pushed for, in order |
| `Pointers.EscapeRoundTrip` | crates/mokly-catalogue/src/yaml_frame.rs:117-120 | escaping a key (section 3 of RFC 6901) can be undone and leaves no slash |
| `Pointers.EscapeInjective` | crates/mokly-catalogue/src/yaml_frame.rs:117-120 | two keys with one escaped form are equal |
| `Pointers.PointerRoundTrip` | crates/mokly-catalogue/src/yaml_positions.rs:45-68 | a string is the pointer of a path of slash-free segments exactly when it splits into that path |
| `Pointers.DecimalRoundTrip` | crates/mokly-catalogue/src/yaml_frame.rs:61-71 | the decimal name of an item determines its index and has no slash |
| `YamlPositions.Positions.constructor` | crates/mokly-catalogue/src/yaml_positions.rs:28-34 | a new tree is the unset root alone |
| `YamlPositions.Positions.At` | crates/mokly-catalogue/src/yaml_positions.rs:38-42 | a tree of one located root |
| `YamlPositions.Positions.Get` | crates/mokly-catalogue/src/yaml_positions.rs:45-53 | answers the location at the pointer's path, and nothing for strings that are no pointer, unknown paths and unset slots |
| `YamlPositions.Positions.Insert` | crates/mokly-catalogue/src/yaml_positions.rs:57-68 | records the location at the pointer's path, creating unset slots on the way; a string that is no pointer changes nothing |
| `YamlPositions.Positions.Child` | crates/mokly-catalogue/src/yaml_positions.rs:71-80 | the slot of the child path, old or new; no other place changes |
| `YamlPositions.Positions.Set` | crates/mokly-catalogue/src/yaml_positions.rs:82-84 | sets one place and leaves the others |
| `YamlPositions.Positions.Subtree` | crates/mokly-catalogue/src/yaml_positions.rs:87-92 | a separate tree whose places are those below the slot, seen from it |
| `YamlPositions.Positions.Graft` | crates/mokly-catalogue/src/yaml_positions.rs:95-106 | the work list puts every place of the source below the target and keeps the rest, whatever the slot numbers on both sides |
| `YamlFrames.OpenFrame.Child` | crates/mokly-catalogue/src/yaml_frame.rs:61-71 | the next child's slot: item index, or the waiting key; none for a key or inside one |
| `YamlFrames.OpenFrame.Take` | crates/mokly-catalogue/src/yaml_frame.rs:82-87 | hands over the container's value and leaves the frame empty |
| `YamlFrames.OpenFrame.Join` | crates/mokly-catalogue/src/yaml_frame.rs:91-123 | attaches a child: items in order, keys and values by turns; a key that is no string or is repeated is rejected at its place |
| `YamlReader.Reader.Next` | crates/mokly-catalogue/src/yaml.rs:96-100 | takes one event, or reports the parser's own failure; the builder's remaining run is the same |
| `YamlReader.Reader.Target` | crates/mokly-catalogue/src/yaml.rs:245-249 | the slot of the node that starts next, created when missing; none inside a mapping key |
| `YamlReader.Reader.ReadAlias` | crates/mokly-catalogue/src/yaml.rs:159-172 | an alias event's outcome: too deep, unknown or recursive, or a copy of the anchored value with its places below the alias's slot |
| `YamlReader.Reader.ReadScalar` | crates/mokly-catalogue/src/yaml.rs:139-158 | a scalar event's outcome, written out: too deep past 128 levels, a tag outside the core schema, the text when quoted or tagged `str`, else the decoded atom or none; located at its line and column, its slot located and its anchor kept |
| `YamlReader.Reader.OpenContainer` | crates/mokly-catalogue/src/yaml.rs:173-184 | a container event opens one frame, or fails for depth or a custom tag |
| `YamlReader.Reader.CloseContainer` | crates/mokly-catalogue/src/yaml.rs:185-195 | an end event closes the last frame only where its container may end, and keeps its anchor |
| `YamlReader.Reader.KeepAnchor` | crates/mokly-catalogue/src/yaml.rs:220-241 | keeps a copy of the node and of the places below its slot, only for anchors that the scan named |
| `YamlReader.Reader.Deliver` | crates/mokly-catalogue/src/yaml.rs:197-214 | a completed node joins the container above it, or fails there |
| `YamlReader.Reader.ReadEvent` | crates/mokly-catalogue/src/yaml.rs:138-196 | one event: a completed node, one more open container, or the failure that the builder machine has |
| `YamlReader.Reader.Turn` | crates/mokly-catalogue/src/yaml.rs:136-214 | one turn of the loop is one step of the builder machine |
| `YamlReader.Reader.Node` | crates/mokly-catalogue/src/yaml.rs:133-215 | the loop over events and heap frames runs the builder machine to the document's node |
| `YamlReader.Reader.Read` | crates/mokly-catalogue/src/yaml.rs:79-94 | the whole stream: one document between stream and document markers, or the first failure |
| `YamlReader.Parse` | crates/mokly-catalogue/src/yaml.rs:35-77 | scan, then build. An accepted document is one tree that says the value and its places (see `YamlReading.BuiltReads`), with its positions answering exactly the pointers of the value's nodes. For every document: one that says `n` is answered with `n` when its aliases add at most 1,000,000 nodes to its own and is refused over budget when they add more; one that says nothing is answered with its first fault (see `YamlFailures.DocumentFails`), unless the scan refuses it first |
| `YamlMeaning.RunTree` | crates/mokly-catalogue/src/yaml.rs:133-215 | whatever anchors are kept: on the events of any tree followed by any rest, the frame stack consumes exactly that tree and holds what the recursive evaluator returns, or fails as it does: depth, aliases, keys, tags, scalars |
| `YamlMeaning.RunRef` | crates/mokly-catalogue/src/yaml.rs:159-172 | the same at an alias: the anchored node, located at the alias, its inner places those of the anchored node |
| `YamlMeaning.RunList` | crates/mokly-catalogue/src/yaml.rs:173-215 | the same for a sequence, item by item |
| `YamlMeaning.RunDict` | crates/mokly-catalogue/src/yaml.rs:173-215 | the same for a mapping: keys outside the position tree, values located at their keys |
| `YamlDocument.DocumentMeaning` | crates/mokly-catalogue/src/yaml.rs:79-94 | whatever anchors are kept, a stream of one document is built exactly as the evaluator that binds those anchors says: value, positions and failure |
| `YamlDocument.Sound` | crates/mokly-catalogue/src/yaml.rs:114-120 | an evaluated node has distinct keys at every level and lies within 128 levels |
| `YamlDocument.SamePaths` | crates/mokly-catalogue/src/yaml_positions.rs:45-55 | a path leads to a located node exactly when it leads to a node of the value, and to the same one |
| `YamlDocument.PlacesExact` | crates/mokly-catalogue/src/yaml_positions.rs:45-106 | the recorded places are exactly the paths of the node's own tree, each with that node's start |
| `YamlAccepts.AcceptedPositions` | crates/mokly-catalogue/src/yaml_positions.rs:45-55 | any accepted stream, whatever anchors are kept, is one document's events, and its positions name exactly the nodes of its value, each where its tree starts it, at most 128 levels deep |
| `YamlAccepts.AcceptedIsDocument` | crates/mokly-catalogue/src/yaml.rs:79-94 | conversely, only the events of exactly one document tree are ever accepted |
| `YamlReading.Denoted` | crates/mokly-catalogue/src/yaml.rs:133-215 | what is evaluated is what the tree says: a plain scalar its decoded data, a quoted or `str` one its text, an alias the node bound before it, keys strings and values located at their keys, each node at its marker's line in the file and column from 1 |
| `YamlReading.BuiltReads` | crates/mokly-catalogue/src/yaml.rs:79-94 | an accepted stream is one document whose tree says a node with distinct keys, core tags and at most 128 levels, and the value and places are that node's |
| `YamlReading.ReadingBuilt` | crates/mokly-catalogue/src/yaml.rs:79-94 | conversely, a builder that keeps every anchor accepts each document that says such a node, and builds that node |
| `YamlFailures.FaultStops` | crates/mokly-catalogue/src/yaml.rs:107-213 | a tree with a first fault fails with exactly that issue at that place: too deep, custom tag, no data, unknown or too high alias, key that is no string or repeated, missing value |
| `YamlFailures.DocumentFails` | crates/mokly-catalogue/src/yaml.rs:79-213 | a builder that keeps every anchor fails on a document exactly with its first fault in document order |
| `YamlFailures.ScannedFailure` | crates/mokly-catalogue/src/yaml.rs:35-94 | so does one that keeps only the anchors that the scan names |
| `YamlTree.Grafted` | crates/mokly-catalogue/src/yaml.rs:159-172 | grafting a kept node's places and relocating its root is recording that node at the alias's slot |
| `YamlTree.KeptCopy` | crates/mokly-catalogue/src/yaml.rs:231-240 | the copy kept of an anchored node forgets where it stood: its places below its own root |
| `YamlAliases.ScanAliases` | crates/mokly-catalogue/src/yaml_aliases.rs:23-71 | the scan loop answers the anchors or the budget's marker that the step function answers |
| `YamlAliases.Record` | crates/mokly-catalogue/src/yaml_aliases.rs:62-67 | a finished node adds its shape to its anchor and to the container above it |
| `YamlLockstep.Lockstep` | crates/mokly-catalogue/src/yaml_aliases.rs:29-69 | while the builder is open, one scan step and one builder step stay in step: same open containers, counts and heights of kept anchors |
| `YamlLockstep.AsideFails` | crates/mokly-catalogue/src/yaml_aliases.rs:29-69 | where the scan stops without an error while the document is open, the builder fails at that event |
| `YamlLockstep.DoneCopiesNothing` | crates/mokly-catalogue/src/yaml.rs:84-91 | once the builder has its document it copies nothing more, and the stream that it accepts adds no node to the value or to the scan |
| `YamlLockstep.HeightsFound` | crates/mokly-catalogue/src/yaml_aliases.rs:23-71 | after every prefix of the events, while the document is open, the scan knows the size and height of exactly the kept anchors that the builder holds, and its open counts are the nodes read and expanded |
| `YamlLockstep.ExpansionExact` | crates/mokly-catalogue/src/yaml_aliases.rs:23-71 | aliases never copy more nodes than the budget, even in a build that fails; an accepted value has one node per node event and per expanded node, keys included |
| `YamlLockstep.OverIsReal` | crates/mokly-catalogue/src/yaml_aliases.rs:53-55 | the scan refuses a stream only at an alias with which the builder's copies really exceed the budget, while the document is open there |
| `YamlLockstep.PassesExactly` | crates/mokly-catalogue/src/yaml_aliases.rs:23-71 | a stream that a builder with every named anchor accepts passes the scan exactly when its value has at most the budget more nodes than the stream has node events |
| `YamlLockstep.PruningInvisible` | crates/mokly-catalogue/src/yaml.rs:228-230 | building with only the scanned anchors ends in the same value, positions or failure as keeping any more |
| `YamlLockstep.ScannedMeaning` | crates/mokly-catalogue/src/yaml.rs:35-94 | with only the scanned anchors a document is still read as the evaluator that binds every anchor says |
| `YamlLockstep.ScannedPositions` | crates/mokly-catalogue/src/yaml.rs:35-94 | an accepted stream read with only the scanned anchors is one document, and its value and positions are those of the evaluator that binds every anchor, one location per node of the value |
| `YamlResults.ScannedReading` | crates/mokly-catalogue/src/yaml.rs:35-94 | a document that says `n` passes the scan exactly when its aliases add at most the budget to its own nodes, and then the scanned anchors build `n` |
| `HtmlSourceMap.SourceMap.SourceOffset` | crates/mokly-catalogue/src/html_source_map.rs:38-54 | a lookup stays inside the value's span |
| `HtmlSourceMap.LookupIsRaw` | crates/mokly-catalogue/src/html_source_map.rs:38-65 | both binary-search lookups agree with reading the table from its end, then clamping to the span |
| `HtmlSourceMap.Align` | crates/mokly-catalogue/src/html_source_map.rs:159-185 | accepts exactly the values that the byte-by-byte reading consumes; every byte stands on an equal source byte or on the CR of its newline, and the points answer those bytes |
| `HtmlSourceMap.RawExtend` | crates/mokly-catalogue/src/html_source_map.rs:119-133 | appending a run's points leaves lookups of earlier bytes and adds the run's own |
| `HtmlSourceMap.TracksChunk` | crates/mokly-catalogue/src/html_source_map.rs:111-141 | a further chunk keeps the table sorted and every recorded byte's origin faithful and in order |
| `HtmlSourceMap.Buffer.Begin` | crates/mokly-catalogue/src/html_source_map.rs:80-86 | starts a value only when nothing is buffered |
| `HtmlSourceMap.Buffer.Point` | crates/mokly-catalogue/src/html_source_map.rs:88-109 | from its offset on lookups follow the point and before it nothing changes, also when the point is not stored |
| `HtmlSourceMap.Buffer.Record` | crates/mokly-catalogue/src/html_source_map.rs:111-141 | a chunk is aligned exactly when it is literal up to newlines and not a reference read further; its bytes are read one after another from where it begins; earlier bytes keep their origins; a chunk that the source holds keeps the text literal |
| `HtmlSourceMap.Buffer.Locate` | crates/mokly-catalogue/src/html_source_map.rs:119-136 | the chunk's bytes get origins that go forward, aligned ones on the bytes they stand for |
| `HtmlSourceMap.Buffer.Commit` | crates/mokly-catalogue/src/html_source_map.rs:137-140 | the next byte comes from the chunk's end, and the consumed mark stays within the source |
| `HtmlSourceMap.Buffer.Finish` | crates/mokly-catalogue/src/html_source_map.rs:143-155 | the finished map takes every aligned decoded byte to an equal source byte, or a newline's CR, inside the span, and is monotone; a literal text's bytes are all aligned, each on its own source byte; the buffer is empty again |
| `HtmlSourceMap.LiteralGrows` | crates/mokly-catalogue/src/html_source_map.rs:111-141 | a chunk that the source holds after a literal text makes a longer literal text |
| `HtmlSourceMap.LiteralOwn` | crates/mokly-catalogue/src/html_source_map.rs:38-65 | a literal text's map takes each byte to its own source byte, one after another from the start, CRLF included |
| `HtmlSourceMap.PlainOwn` | crates/mokly-catalogue/src/html_source_map.rs:143-155 | the same for a value that the source holds as it is and that needs no table |
| `HtmlSourceMap.PlainIsLiteral` | crates/mokly-catalogue/src/html_source_map.rs:111-141 | a first chunk that is the source's own bytes, without CR, is literal |
| `HtmlSourceMap.TracksMonotone` | crates/mokly-catalogue/src/html_source_map.rs:38-54 | source offsets never decrease with decoded offsets, beyond the value too |
| `HtmlSourceMap.Recorder.MovePosition` | crates/mokly-catalogue/src/html_source_map.rs:209-212 | the position saturates at both ends and the consumed mark never goes back before the source's end |
| `HtmlSourceMap.Recorder.InitString` | crates/mokly-catalogue/src/html_source_map.rs:215-217 | text starts at the position when nothing is buffered |
| `HtmlSourceMap.Recorder.InitAttributeValue` | crates/mokly-catalogue/src/html_source_map.rs:220-231 | an attribute value starts at the position after a quote or apostrophe, otherwise one byte earlier |
| `HtmlSourceMap.Recorder.EmitString` | crates/mokly-catalogue/src/html_source_map.rs:234-237 | one more chunk of text: at the recorder's own position and consumed mark its bytes get their origins in order from where the text ends, earlier ones keep theirs, and the text stays literal exactly when the source holds the chunk there |
| `HtmlSourceMap.Recorder.PushAttributeValue` | crates/mokly-catalogue/src/html_source_map.rs:240-243 | the same for a piece of an attribute value |
| `HtmlSourceMap.Recorder.Text` | crates/mokly-catalogue/src/html_source_map.rs:246-248 | a faithful, monotone map of the recorded chunks' concatenation; when every chunk was literal, every byte is aligned and comes from its own source byte, a CR before LF skipped |
| `HtmlSourceMap.Recorder.Attribute` | crates/mokly-catalogue/src/html_source_map.rs:251-253 | the same for an attribute value |
| `ServePool.Gate.Foreground` | crates/mokly-cli/src/serve_pool.rs:80-91 | one critical section: one more foreground lease |
| `ServePool.Gate.Wait` | crates/mokly-cli/src/serve_pool.rs:94-96 | one more waiter |
| `ServePool.Gate.Attempt` | crates/mokly-cli/src/serve_pool.rs:97-116 | one pass of the waiting loop: refused when closed or cancelled, granted when a slot is free and no foreground blocks base work, else unchanged |
| `ServePool.Gate.Close` | crates/mokly-cli/src/serve_pool.rs:119-125 | one critical section: closed for good |
| `ServePool.Gate.Drop` | crates/mokly-cli/src/serve_pool.rs:141-152 | gives back exactly what the lease holds |
| `ServePool.CountedNext` | crates/mokly-cli/src/serve_pool.rs:79-152 | every step keeps each counter equal to the live leases and waiters that it stands for |
| `ServePool.WatchedNext` | crates/mokly-cli/src/serve_pool.rs:79-152 | every step keeps: at most `limit` active, and a sleeper only where no slot is free for it and each reason to wake it has a notification coming |
| `ServePool.AdmissionBound` | crates/mokly-cli/src/serve_pool.rs:93-117 | in every run at most `limit` calls run at once, and no lease drop or waiter underflows a counter |
| `ServePool.BaseAdmission` | crates/mokly-cli/src/serve_pool.rs:98-111 | a base call starts only while nobody holds a foreground lease, before close, before each of its cancellations and before the command is interrupted |
| `ServePool.Answered` | crates/mokly-cli/src/serve_pool.rs:93-117 | in every run each look at the gate is answered exactly: refused when it is closed or the base caller is cancelled or interrupted, asleep when `limit` calls run or a base caller finds somebody in the foreground, admitted otherwise |
| `ServePool.ShutBySteps` | crates/mokly-cli/src/serve_pool.rs:119-125 | what shuts it was a close, an interruption or a cancellation of one of the caller's tokens, in the run or before it |
| `ServePool.SleepersFindItBusy` | crates/mokly-cli/src/serve_pool.rs:93-117 | in every run somebody sleeps only while exactly `limit` calls run or, for a base call, somebody holds a foreground lease |
| `ServePool.CurrentAdmission` | crates/mokly-cli/src/serve_pool.rs:103-110 | so a current call sleeps only while exactly `limit` calls run, and waiting base work never delays it |
| `ServePool.ClosedForGood` | crates/mokly-cli/src/serve_pool.rs:119-125 | once closed, a run admits nobody |
| `ServePool.NoLostWakeup` | crates/mokly-cli/src/serve_pool.rs:85-116 | a sleeper that would get an answer always has a notification coming: from the closer, from a canceller of one of its tokens, or, when the command was interrupted, from the close that follows |
| `ServePool.SleepersWaitForLeases` | crates/mokly-cli/src/serve_pool.rs:93-152 | with a positive limit every sleeper waits for a live admission lease, or a base one for a live foreground lease (from `SleepersFindItBusy`) |
| `ServePool.NoDeadlock` | crates/mokly-cli/src/serve_pool.rs:93-152 | while somebody sleeps, an actor that neither sleeps nor idles has an enabled step of its own |
| `ForcedExit.BuildCancellation.Interrupt` | crates/mokly-cli/src/cancellation.rs:53-70 | a first signal requests cancellation; a later one pends a forced exit unless it is a copy within a second, and exits when nothing is protected |
| `ForcedExit.BuildCancellation.ProtectOutput` | crates/mokly-cli/src/cancellation.rs:72-83 | protects unless a forced exit is pending |
| `ForcedExit.BuildCancellation.Settle` | crates/mokly-cli/src/cancellation.rs:121-131 | ends one protected scope |
| `ForcedExit.KeptNext` | crates/mokly-cli/src/interrupts.rs:93-117 | every step keeps the protected count, the signal record, who may sleep and who may exit |
| `ForcedExit.ExitIsSafe` | crates/mokly-cli/src/cancellation.rs:85-102 | from the decision to exit on, no output is protected |
| `ForcedExit.PendingNeedsLateSignal` | crates/mokly-cli/src/cancellation.rs:60-66 | a forced exit is pending exactly when some signal came a second or more after the first; `publish` never exits |
| `ForcedExit.Decided` | crates/mokly-cli/src/interrupts.rs:93-117 | in every run: a late signal exits at once when nothing is protected; a checking listener stops the pool when no signal was late and otherwise exits as soon as nothing is protected; a scope is protected exactly in builds without a late signal |
| `ForcedExit.LateSignalExits` | crates/mokly-cli/src/cancellation.rs:85-102 | once a signal was late and nothing is protected, nobody sleeps and each listener's own next steps lead to the exit |
| `ForcedExit.SignalsInOrder` | crates/mokly-cli/src/cancellation.rs:59-69 | signals are recorded in clock order, so the first is the earliest |
| `ForcedExit.NothingStartsOncePending` | crates/mokly-cli/src/cancellation.rs:72-83 | once pending, it stays so and no new scope is protected |
| `ForcedExit.SleepersHaveScopes` | crates/mokly-cli/src/cancellation.rs:85-102 | a listener sleeps only while an open scope will wake it, and every open scope can end |
| `ForcedExit.OneShutdown` | crates/mokly-cli/src/interrupts.rs:104-117 | in every run the pool is shut down once as soon as some listener has claimed it, and otherwise not at all, however many signals arrive |
| `ComponentCycles.Visit` | crates/mokly-catalogue/src/registry.rs:115-164 | the work list with leave markers keeps a search in which finished components come after their children, the reports' closing edges apart, and reports only real cycles |
| `ComponentCycles.Cycles` | crates/mokly-catalogue/src/registry.rs:96-113 | each report is a closed walk that repeats no component, and every cycle of the graph uses the edge that some report closes with, so nothing is reported exactly when the graph is acyclic; every component is finished once and every edge examined once |
| `ComponentCycles.CycleFound` | crates/mokly-catalogue/src/registry.rs:131-147 | the stack from the repeated component on, closed, is a cycle without repetition |
| `ComponentCycles.OrderedAcyclic` | crates/mokly-catalogue/src/registry.rs:115-164 | an order that puts children first, cut edges apart, leaves only cycles that use a cut edge |
| `EditDistance.Distance` | crates/mokly-cli/src/output.rs:255-270 | the rows compute the recursive distance |
| `EditDistance.OneChange` | crates/mokly-cli/src/output.rs:255-270 | changing at most one character moves a string at most one further from another |
| `EditDistance.NoFewerEdits` | crates/mokly-cli/src/output.rs:255-270 | no sequence of edits that leads from one string to the other is shorter than the distance |
| `EditDistance.EnoughEdits` | crates/mokly-cli/src/output.rs:255-270 | a sequence of exactly that many edits leads there |
| `EditDistance.FewestEdits` | crates/mokly-cli/src/output.rs:255-270 | the distance is the least number of single-character insertions, deletions and replacements |
| `EditDistance.ClosestCommand` | crates/mokly-cli/src/output.rs:242-253 | suggests a command exactly when it is within 3 edits and the only nearest one |
| `KeyDecoder.Next` | crates/mokly-cli/src/serve_keyboard_keys.rs:27-86 | every reachable state stays in bounds: mouse count 1 to 3, paste match below 6, at most 128 buffered bytes; a paste yields no key |
| `KeyDecoder.KeyDecoder.Push` | crates/mokly-cli/src/serve_keyboard_keys.rs:27-86 | the fields change as that step says |
| `KeyDecoder.MatchedIsLongest` | crates/mokly-cli/src/serve_keyboard_keys.rs:70-77 | the one-step fallback keeps the longest match of the paste's end, as a naive search would |
| `KeyDecoder.PasteGoesOn` | crates/mokly-cli/src/serve_keyboard_keys.rs:70-82 | a paste goes on and yields no key until its end occurs |
| `KeyDecoder.PasteEnds` | crates/mokly-cli/src/serve_keyboard_keys.rs:70-82 | a paste ends exactly with the first occurrence of `ESC [ 2 0 1 ~` |
| `KeyDecoder.PasteYieldsNoKeys` | crates/mokly-cli/src/serve_keyboard_keys.rs:27-86 | pasted text, whatever it holds, yields no key, and the bytes after it are read as keys again |
| `KeyDecoder.StringEnds` | crates/mokly-cli/src/serve_keyboard_keys.rs:61-69 | a control string yields no key and ends at BEL or at a backslash after ESC, where ESC takes the byte after it along |
| `KeyDecoder.DoubledEscapeHidesTerminator` | crates/mokly-cli/src/serve_keyboard_keys.rs:62-69 | so after ESC ESC and a backslash the string is still open |
| `KeyDecoder.InputRuns` | crates/mokly-cli/src/serve_keyboard_keys.rs:27-86 | one whole input is read as its key or as none: a letter c, h, o, q, r, Ctrl with a letter, either after ESC, a report, a mouse report, a shifted byte, a control string or a paste |
| `KeyDecoder.InputsRun` | crates/mokly-cli/src/serve_keyboard_keys.rs:27-86 | a stream of whole inputs yields exactly their keys, in order, and leaves the decoder plain |
| `Globs.FindStops` | crates/mokly-catalogue/src/globs.rs:67-86 | the depth loop finds the outermost brace's separators and end |
| `Globs.ExpandBraces` | crates/mokly-catalogue/src/globs.rs:63-100 | terminates and returns what the recursion returns |
| `Globs.ExpandPrint` | crates/mokly-catalogue/src/globs.rs:63-100 | a printed pattern expands to exactly its words, the leftmost brace varying slowest |
| `Globs.ExpandsWhenClosed` | crates/mokly-catalogue/src/globs.rs:70-86 | any text expands exactly when no opening brace stays open |
| `Globs.NoBraceLeft` | crates/mokly-catalogue/src/globs.rs:63-100 | no alternative has an opening brace left |
| `Globs.Compile` | crates/mokly-catalogue/src/globs.rs:21-46 | accepts exactly lists without duplicates whose patterns and alternatives are all safe and build; otherwise names the first pattern at fault and why |
| `Globs.AcceptedWordsAreSafe` | crates/mokly-catalogue/src/globs.rs:48-61 | every choice of an accepted pattern is a relative path of named segments below its root: no empty, `.` or `..` segment, no leading `!`, `#` or slash, no backslash, colon, brace or control character, and not blank |
| `JsonPositions.ScanValue` | crates/mokly-catalogue/src/locations.rs:91-146 | the scanner terminates on any text and never moves back |
| `JsonPositions.Scanner.ReadValue` | crates/mokly-catalogue/src/locations.rs:91-146 | the scanner's string map holds exactly the pointers of the places that the recursive scan finds |
| `JsonPositions.Scanner.ReadMembers` | crates/mokly-catalogue/src/locations.rs:95-114 | the member loop: a key's place, then its value |
| `JsonPositions.Scanner.ReadItems` | crates/mokly-catalogue/src/locations.rs:115-131 | the item loop |
| `JsonPositions.Scanner.ReadString` | crates/mokly-catalogue/src/locations.rs:77-90 | ends at the closing quote, with escapes, or at the text's end |
| `JsonPositions.Scanner.SkipSpace` | crates/mokly-catalogue/src/locations.rs:67-76 | moves to the first byte that is not whitespace |
| `JsonPositions.Scanner.ReadKey` | crates/mokly-catalogue/src/locations.rs:99-102 | a member's escaped pointer, whose position is the key's start, replacing an earlier one |
| `JsonPositions.Scanner.Enter` | crates/mokly-catalogue/src/locations.rs:93 | enters a position unless the pointer has one |
| `JsonPositions.Positions` | crates/mokly-catalogue/src/locations.rs:50-58 | the whole map of a text |
| `JsonPositions.ScanPrinted` | crates/mokly-catalogue/src/locations.rs:91-146 | a value printed with any whitespace is scanned to its end and adds exactly its own places |
| `JsonPositions.BelowAnswers` | crates/mokly-catalogue/src/locations.rs:91-146 | those places are where following a pointer's segments leads |
| `JsonPositions.DocumentPointers` | crates/mokly-catalogue/src/locations.rs:50-146 | for any value with distinct keys (sections 2 to 7 of RFC 8259) and any whitespace, the map has exactly the value's pointers: key starts for members, value starts for the root and items |
| `CatalogueIdentity.DuplicateIndices` | crates/mokly-catalogue/src/prepare_sources.rs:135-159 | reports exactly each index document with the next one of its directory, so nothing exactly when no directory has two |
| `CatalogueIdentity.IndexFileIs` | crates/mokly-catalogue/src/prepare_sources.rs:135-159 | an index document is a present document whose last path component is `readme.md` or `index.md` in any case |
| `CatalogueIdentity.Collisions` | crates/mokly-catalogue/src/identity.rs:143-242 | one report for each lower-case path or folder that clashes (entries that share a path, a folder with two spellings, an entry below a folder whose owner may not hold it) and no other; each names two real spellings that agree letter case aside |
| `CatalogueIdentity.PathCollisions` | crates/mokly-catalogue/src/identity.rs:145-186 | the first loop reports exactly the shared paths that are not one directory's index documents, once each |
| `CatalogueIdentity.Grouped` | crates/mokly-catalogue/src/identity.rs:145-151 | the entries of each lower-case path, in order |
| `CatalogueIdentity.GroupIssue` | crates/mokly-catalogue/src/identity.rs:153-185 | silent exactly for one directory's index documents; otherwise names two of the group's spellings |
| `CatalogueIdentity.Owners` | crates/mokly-catalogue/src/identity.rs:187-190 | the last entry of each lower-case path |
| `CatalogueIdentity.Spelling` | crates/mokly-catalogue/src/identity.rs:195-209 | a folder's first spelling stays; what is newly reported has two spellings |
| `CatalogueIdentity.Ownership` | crates/mokly-catalogue/src/identity.rs:210-237 | unless the folder is reported, every owner of it may hold the entry; what is newly reported has an owner that may not |
| `CatalogueIdentity.ParentIsLongest` | crates/mokly-catalogue/src/identity.rs:194-238 | cutting at the last slash visits exactly the path's folders |
| `CatalogueIdentity.CleanIdentity` | crates/mokly-catalogue/src/identity.rs:143-242 | with no report from either check, paths differ beyond letter case, folders have one spelling, and an entry at another's folder is an index or that variant's parent |
| `CatalogueOrder.CanonicalOrder` | crates/mokly-catalogue/src/prepare_sources.rs:112-133 | the grouping and draining loops give the blocks of sorted parents |
| `CatalogueOrder.KeyPrecedes` | crates/mokly-catalogue/src/prepare_sources.rs:122-126 | the sort key orders by kind, and by path in UTF-16 units within one |
| `CatalogueOrder.SplitVariants` | crates/mokly-catalogue/src/prepare_sources.rs:113-121 | takes each parent's variants out in input order |
| `CatalogueOrder.OrderedParts` | crates/mokly-catalogue/src/prepare_sources.rs:112-133 | parents come out with components before documents, pages, screens and use cases, one kind by path in UTF-16 units (see `KeyPrecedes`), and each parent's variants in input order |
| `CatalogueOrder.BlockAt` | crates/mokly-catalogue/src/prepare_sources.rs:128-132 | a parent's variants follow it directly |
| `CatalogueOrder.OrderedPermutation` | crates/mokly-catalogue/src/prepare_sources.rs:112-133 | the order is a permutation exactly when every variant's parent is present; other variants are dropped |
| `CatalogueOrder.OrphansDropped` | crates/mokly-catalogue/src/prepare_sources.rs:112-133 | an entry of the input is missing from the order exactly when it is a variant whose parent is not in the input |
| `CatalogueOrder.OrderedTwice` | crates/mokly-catalogue/src/prepare_sources.rs:112-133 | ordering again changes nothing |
| `Sorting.SortedAscends` | crates/mokly-model/src/canonical.rs:16-18 | sorting by UTF-16 units orders its input and keeps every element |
| `Sorting.LessIsBefore` | crates/mokly-model/src/canonical.rs:16-18 | the order on unit sequences: after a common beginning the one that ends or has the smaller unit comes first |
| `Sorting.UnitsAre` | crates/mokly-model/src/canonical.rs:16-18 | a character is one unit or its surrogate pair (section 2 of RFC 2781) |
| `Relationships.Resolve` | crates/mokly-catalogue/src/relationships.rs:29-51 | the segment stack gives the recursive walk |
| `Relationships.RelativeTarget` | crates/mokly-catalogue/src/relationships.rs:29-51 | a target of some steps up and then names leads to those names in the folder so many levels up, and resolves when there are so many and the result is an entry path |
| `Relationships.BaseIs` | crates/mokly-catalogue/src/relationships.rs:12-27 | relative targets start at the folder of the parent that a variant names, or of the entry itself: an index's own path, otherwise the path up to the last slash |
| `Relationships.EntryPathIs` | crates/mokly-model/src/paths.rs:16-32 | joined names are an entry path exactly when each is made of letters, digits, `_` and `-` and is no device name, and the first is not the generated output's |
| `Relationships.LookupTable` | crates/mokly-catalogue/src/relationships.rs:54-58 | the last entry of each lower-case path |
| `Relationships.RewriteTargets` | crates/mokly-catalogue/src/relationships.rs:65-98 | each target becomes the exact path that it names, or stays and is reported; nothing else is reported |
| `Relationships.Unlisted` | crates/mokly-catalogue/src/relationships.rs:126-139 | reports exactly the pairs in which one valid entry lists another that does not list it back |
| `Relationships.FollowStaysInside` | crates/mokly-catalogue/src/relationships.rs:31-46 | a relative target resolves exactly when no part is empty and no step leaves the root; the part of the folder that it never leaves is kept |
| `Relationships.EntryPathCase` | crates/mokly-model/src/paths.rs:16-32 | whether a text is an entry path does not depend on letter case |
| `Relationships.Validate` | crates/mokly-catalogue/src/relationships.rs:53-158 | rewrites every target that names an entry, reports exactly the targets that name none and the one-sided pairs among the entries without a fault, and so nothing exactly when all are named and both sides list each other |
| `Relationships.TargetsBecome` | crates/mokly-catalogue/src/relationships.rs:59-98 | the rewrite changes targets only: each becomes the path of the last entry of the other kind that it leads to letter case aside, unless it leads to none or its own entry failed before |
| `Relationships.ReportedAreDangling` | crates/mokly-catalogue/src/relationships.rs:80-97 | the targets reported as unnamed are exactly those of screens and flows that did not fail before and that lead to no such entry |
| `Relationships.RewriteIsExact` | crates/mokly-catalogue/src/relationships.rs:77-83 | after a run without unnamed targets, every target is the exact path of an entry of the required kind |
| `Relationships.BothWays` | crates/mokly-catalogue/src/relationships.rs:126-156 | a screen lists a flow exactly when the flow steps through the screen |
| `Relationships.CleanRelationships` | crates/mokly-catalogue/src/relationships.rs:53-158 | with unique paths and no failed entries, a run without issues leaves exact and reciprocal targets, and a second run changes and reports nothing |
| `DiscoveryWalk.Walk.ProjectFile` | crates/mokly-catalogue/src/discovery_walk.rs:121-164 | a remembered or fresh answer; a plain file inside the repository that nobody owns becomes owned, otherwise a skip or a failure |
| `DiscoveryWalk.Walk.ReadFile` | crates/mokly-catalogue/src/discovery_walk.rs:165-181 | a claimed file is added with its excluded flag |
| `DiscoveryWalk.Walk.ReadFolder` | crates/mokly-catalogue/src/discovery_walk.rs:182-236 | a parsed record adds its directory's exclusions |
| `DiscoveryWalk.Walk.Directory` | crates/mokly-catalogue/src/discovery_walk.rs:36-119 | the work stack with truncated exclusions does what the recursive pre-order traversal does, down to the same failure |
| `DiscoveryWalk.EnterListed` | crates/mokly-catalogue/src/discovery_walk.rs:80-115 | a directory's children above a leave mark are the recursion's children, and the mark restores the exclusions |
| `DiscoveryWalk.DirectoryFiles` | crates/mokly-catalogue/src/discovery_walk.rs:36-181 | a successful traversal adds exactly the directory's files in name order and owns each identity once |
| `DiscoveryWalk.FilesAreReached` | crates/mokly-catalogue/src/discovery_walk.rs:48-181 | the traversal's files are exactly the selected ones with a route through no pruned directory, with the exclusions of the records on that route |
| `DiscoveryWalk.FilesAreFound` | crates/mokly-catalogue/src/discovery_walk.rs:48-181 | read off the route: every directory on it is neither named like a denied one nor the output; the last is a selected plain file; it is excluded exactly when the record of some directory on the route is a plain file that parses and matches the rest of the path from there |
| `DiscoveryWalk.Discover` | crates/mokly-catalogue/src/discovery.rs:104-180 | walks root after root with shared owners and answers, and fails as the first failing root does |
| `DiscoveryWalk.DiscoveredFiles` | crates/mokly-catalogue/src/discovery.rs:127-180 | on success: every root's files sorted by path in UTF-16 units, each physical file once, no root without an included file |
| `DiscoveryFailures.DirectoryTold` | crates/mokly-catalogue/src/discovery_walk.rs:36-236 | a traversal succeeds, owns and fails as the answers to its questions do, one after another: unreadable directories, folder records and selected files in pre-order |
| `DiscoveryFailures.AsksAreAsked` | crates/mokly-catalogue/src/discovery_walk.rs:48-119 | those questions are exactly the unreadable directories, folder records and selected files on a way through directories that may be searched |
| `DiscoveryFailures.DiscoveryEnds` | crates/mokly-catalogue/src/discovery.rs:104-180 | discovery succeeds exactly when no question of any root has a fault (no answer, a file outside the repository, a physical file met before, a refused record) and every root has an included file; otherwise it ends at the first root where either fails, with the first fault or the lack of files |
| `DiscoveryFailures.FilesStayInside` | crates/mokly-catalogue/src/discovery_walk.rs:144-150 | every file of a successful discovery lies inside the repository |

## Left out

- The YAML event parser, scalar decoding, serde_json, html5gum, globset and the file, Git, process, HTTP and terminal adapters: their results are parameters.
- Message wording and the mapping of failures to texts; a failure is its kind and place.
- YamlLockstep.ExpansionExact: like the other results about the scan, and the last two clauses of `YamlReader.Parse`, assumes that events plus budget stay below the largest `usize`, where the scan's counters would saturate, and that alias ids are not 0, which means no anchor.
- YamlValues.Discard: releasing memory is counted, not modelled; likewise `Drop` for frames and documents.
- HtmlSourceMap.Buffer.Finish: takes the value to be the concatenation of the recorded chunks, as the tokenizer's callbacks do; positions are natural numbers that saturate only in `move_position`.
- ServePool.NoDeadlock: says that a move exists, not that the scheduler takes it; fairness and starvation are not modelled, nor the sidecar calls themselves.
- ForcedExit.KeptNext: allows any number of listeners, of which the program has one; pool abortion, the publication token and signal registration are not modelled.
- ComponentCycles.Cycles: element registration is not modelled; reports are lists of component paths, not of their source files.
- EditDistance.Distance: `bounded` and the rest of the output formatting are not modelled.
- KeyDecoder.Next: the decoding of CSI-u reports is a parameter.
- Globs.Compile: compiling and matching a glob is the library's.
- JsonPositions.Scanner.ReadString: the decoding of a key's text is a parameter; line and column of an offset (`at`, `html_at`) are not modelled.
- JsonPositions.ScanValue: the depth of the call stack is not modelled.
- CatalogueIdentity.Collisions: the order of reports and their sorted source lists are not modelled; `derive` and folder paths neither.
- CatalogueIdentity.CleanIdentity: takes each index document to be read from an index file of its own.
- CatalogueOrder.CanonicalOrder: rebuilds a sequence value instead of the vector in place.
- Relationships.Validate: works on sequence values instead of borrowed entries; the order of its membership reports is not modelled, nor `link`.
- DiscoveryWalk.Walk.Directory: the tree is a finite value whose answers do not change during a pass; reading, UTF-8 and JSON checks of a folder record are one answer, and file kinds by suffix are not modelled; a root without files fails without the list of what was not searched.
- Configuration, front matter, variant fields, props and controls: long lists of one-branch checks.
