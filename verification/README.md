# Verified model of the agent knowledge graph

A Dafny model of a graph store for agent conversations: an indexed property graph over an
ordered key/value map, a Cypher-like query language above it, an ingest pipeline that fills it
from message logs, a Bolt codec, cluster ownership with a fan-out query router, and two small
schedulers. Every module says which part it stands for; every method is proved against a
specification function or a stated property, and the properties the design rests on are proved
of those specifications, for all inputs and all runs.

`dafny verify dfyconfig.toml` checks the whole project.

## What is modelled

- **Graph store and index** (`PropertyGraph`, `IndexKeys`, `KeyValue`, `Lookups`, `Storage`,
  `GraphEngine`). Keys are real strings in one map; lookups are prefix scans over them. The
  class `BadgerStorage` changes the map in place; the in-memory graph is the reference.
- **Queries** (`Tokens`, `Lexer`, `Grammar`, `Parser`, `Printer`, the `*RoundTrip` modules,
  `FewestTokens`, `ParserRange`, `Ast`, `Planning`, `Evaluation`, `Sorting`, `Execution`,
  `Walks`, `QueryText`). Lexer and parser are objects advancing over text and tokens; plans are trees run against the
  store. The meaning of a pattern is the set of walks of the graph that fit it.
- **Ingest** (`Upserts`, `NodeIds`, `Envelopes`, `Handlers`, `RecordEffects`, `Checkpoints`,
  `IngestSystem`, `Progress`, `Settled`, `Sayings`, `Runs`, `Naming`, `ExactlyOnce`, `Necessity`,
  `Orders`, `Merging`, `TwoPartitions`, `LoneClashes`, `ClashingRosters`, `EdgeNames`, `Reader`,
  `Processor`). Handlers are methods on the graph object; the pipeline is a system whose steps
  are arrivals, single upserts and crashes anywhere.
- **Bolt** (`Bytes`, `PackStream`, `PackStreamRoundTrip`, `Locality`, `ShortestForm`,
  `BoltCodec`, `Chunking`). The encoder writes to a buffer, the decoder advances a reader; the
  formats are those of the PackStream specification (sections "Integer", "Float", "String",
  "List", "Dictionary" and "Structure") and of "Chunking" in the Bolt message specification.
- **Cluster** (`Partitioning`, `Membership`, `FanOut`, `Router`). Ownership is a round-robin map
  rebuilt by an event processor behind a bounded, dropping queue; the router asks the owners
  and concatenates.
- **Reflection** (`Calendar`, `Schedule`, `Feedback`). Calendar days are counted out one by one
  in the Gregorian calendar; instants are nanoseconds since its first midnight.
- `Results`, `Text`, `Arithmetic` are shared vocabulary.

## Main results

- The index holds exactly the keys of the stored records after every sequence of operations
  (`IndexInvariantOverRuns`); scans find what they should, each once, although scans of node
  IDs can pick up stray keys (`LabelScanExact`, `EdgeScanExact`, `StrayExample`).
- Running a planned `MATCH ... WHERE* RETURN` gives the answer over exactly the fitting walks,
  each once; ORDER BY's arrangement is the only sorted one that keeps ties in order
  (`StatementMeaning`, `ArrangedOnce`), and the same from the text on (`TextMeaning`).
- The parser undoes printing, and its results are exactly the printable statements
  (`ParserUndoesPrinting`, `PrintableIsParsed`); expressions are printed in as few tokens as
  any text that parses to them has (`PrintedIsShortest`); a lexical error anywhere rejects
  (`IllegalTextRejected`).
- Fan-out preserves meaning on sharded graphs, short of exactly the rows of shards that are not
  reached, from the rebalanced map to the merged answer (`FanOutMeaning`, `ClusterMeaning`), and
  from the query's text on (`ClusterAnswersText`).
- Ingest: every run finishes each topic-partition's records once and in order, and checkpoints
  never go back, whatever the records (`EachOnceInOrder`, `CheckpointsNeverGoBack`). Drained,
  the graph is that of the finished records processed one after the other, in every run, if
  and only if no two topic-partitions first give a new record different names
  (`ExactlyOnceIff`). Colon-free names and feedback on cycles are enough for that
  (`PlainRecordsAgree`). Properties are as if so processed in any case (`PropertiesOnce`).
- Where names do clash, the graph may still be that of *another* order of the records: of two
  topic-partitions in every run if and only if no record is in the way of one
  (`TwoPartitionsIff`), of any number in every run in which whoever speaks for a clashing name
  has no other clashing word (`LoneClashesExplained`).
- Decoding undoes encoding exactly when all lengths fit (`RoundTripIff`, `StreamBack`), looks
  at a value's own bytes only (`LocalValue`), and the encoder is never longer than what was
  decoded exactly when keys that are no strings are not written longer than they came
  (`ShortestIff`).
- Ownership converges although events are dropped (`Convergence`), is balanced and independent
  of member order (`LoadsBalanced`, `AssignmentIgnoresOrder`).
- A tick fires once per due minute (`FiresOncePerDueMinute`, with `OncePerMinuteIff` for the
  zero instant); feedback status never moves back and is asked for at most once, after the
  grace period (`StatusNeverMovesBack`, `OneRequestAfterGrace`).

## What the proofs found

- **Clashing edge IDs can leave the graph of no order of the records.** The roster of agent
  `x:n:Skill:y` with skill `z` and that of agent `x` with skill `y:n:Skill:z` write one
  HAS_SKILL edge. From the empty graph, the first cut off before its commit, the second
  finished and the first redone leaves the first's endpoints with the first's declaration,
  which neither order does (`NoOrderExplains`).
- **A misnamed cycle breaks the order in which records finish.** Feedback names its cycle's
  node itself; cut off, and followed by a record that names the node as an agent's, it leaves
  a graph its finishing order does not (`ExactlyOnceIff`, `Betrayal`).
- **IDs can clash across colons.** Checkpoints of different namespaces are shared exactly when
  namespace and topic, joined, read alike (`CheckpointsClashIff`); edge IDs exactly when the
  joined endpoints do (`EdgeIdsClashIff`). Within one namespace checkpoints are distinct.
- **Deleting an absent node leaves its dangling edges** in the key/value store, where the
  in-memory storage of internal/graph/graph_test.go drops them (`BadgerStorage.DeleteNode`).
- **The router answers locally when there is at most one owner**, also where that owner is
  another node, and with more members than partitions it does not ask the rest; what is then
  missing is stated exactly (`Reached`, `ClusterMeaning`).
- **The zero instant as last run means never**, so a run at it is forgotten (`OncePerMinuteIff`).
- **Keys that are no strings are written out**, so a decoded map can re-encode longer
  (`OneByteKeyIsNot`); lists and maps beyond 65535 entries and strings of 2^32 bytes or more
  are encoded with their length cut off and do not come back (`RoundTripIff`).
- In queries: inline properties count on the first node only, and only literal ones; a
  repeated variable is overwritten by the later element (`RowBindsWalk` needs them distinct);
  MATCH plans only its first pattern, and a later MATCH replaces the plan so far; a bare
  boolean property is false as a WHERE; `count(x)` counts rows whatever x is; integers clamp
  at the largest 64-bit value and the smallest one cannot be written (`MinInt64Unreachable`).
- A batch size below one acts as one (`BatchOf`); the reader writes the smallest 32-bit
  partition as "-" (`Numeral32`), and keys stay distinct even so (`KeysDistinct`).

## Modelling decisions

- Storage calls succeed. Creation times, token positions, error texts and log output are not
  kept; an absent property map is the empty one.
- `fmt.Sprint`, `strconv` on floating-point literals, Unicode classes beyond ASCII, time
  parsing and the hashes are parameters. Edge-ID hashes print without colons; where they must
  be injective the lemma says so. Floating-point properties are reals.
- JSON is already decoded: a record carries an envelope, or nothing; a payload may be one that
  does not decode. RPC results arrive as rows, or fail.
- `sort.Slice` and `sort.SliceStable` are an in-place insertion sort; results are unique
  (`StableSortUnique`), so the choice does not show.
- Map iteration order is arbitrary: ranges pick any remaining key, encoded maps list their
  entries in any order.
- A check pass, a poll of one topic-partition and a member-list change with its notification
  are taken as in the code's own locking; single upserts interleave with crashes.

## Model

| member | source | states |
|---|---|---|
| IndexKeys.RenderInjective | internal/index/index.go:27-31 | Distinct node, edge and index keys with colon-free labels and two-colon edge IDs have distinct strings. |
| IndexKeys.ColonLabelCollides | internal/index/index.go:57-60 | Example: a label with a colon makes two different label keys one string: the colon rule is needed. |
| Lookups.IndexInvariantOverRuns | internal/storage/badger.go:65-212 | After any sequence of puts and deletes the map holds exactly the records of the in-memory run and the index keys derived from them. |
| Lookups.DeleteNodeKeeps | internal/storage/badger.go:130-159 | Deleting an existing node removes exactly it, the edges touching it and their index keys; deleting an absent one changes nothing. |
| Lookups.LabelScanExact | internal/index/index.go:97-115 | A label scan lists every node of the label once, in ID order, and nothing else. |
| Lookups.OutScanExact | internal/index/index.go:118-136 | Among the listed IDs the stored edges are exactly the node's outgoing edges, once each, in ID order. |
| Lookups.InScanExact | internal/index/index.go:139-157 | The same for incoming edges. |
| Lookups.EdgeLabelScanExact | internal/index/index.go:160-178 | An edge-label scan lists every edge of the label once, in ID order, and nothing else. |
| Lookups.EdgeScanExact | internal/storage/badger.go:232-255 | Both scans of a node, without repeats and without stray IDs, give its edges: those leaving it, then those entering it from elsewhere, self-loops once. |
| Lookups.StrayExample | internal/index/index.go:118-136 | Example: strays do occur, the scan of one node lists an ID that is none where another node's ID extends it across a colon. |
| Storage.BadgerStorage.PutNode | internal/storage/badger.go:65-82 | Puts the node in the graph, replacing its old index entry, and keeps the index invariant. |
| Storage.BadgerStorage.GetNode | internal/storage/badger.go:85-103 | Returns the stored node of the ID, or none. |
| Storage.BadgerStorage.DeleteNode | internal/storage/badger.go:130-159 | The graph loses the node and its edges if the node exists, else stays as it is; the index invariant is kept. |
| Storage.BadgerStorage.PutEdge | internal/storage/badger.go:162-179 | Puts the edge in the graph, replacing its old index entries, and keeps the index invariant. |
| Storage.BadgerStorage.GetEdge | internal/storage/badger.go:182-200 | Returns the stored edge of the ID, or none. |
| Storage.BadgerStorage.DeleteEdge | internal/storage/badger.go:203-212 | The graph loses the edge, absent or not, and the index invariant is kept. |
| Storage.BadgerStorage.NodesByLabel | internal/storage/badger.go:215-229 | Returns the label's nodes, each once, in ID order. |
| Storage.BadgerStorage.EdgesByNode | internal/storage/badger.go:232-255 | Returns the node's edges, each once, leaving ones first. |
| Storage.BadgerStorage.OutgoingEdgeIDs | internal/storage/badger.go:263-265 | Returns ascending IDs whose stored edges are the node's outgoing ones. |
| Storage.BadgerStorage.IncomingEdgeIDs | internal/storage/badger.go:268-270 | Returns ascending IDs whose stored edges are the node's incoming ones. |
| Storage.BadgerStorage.EdgeIDsByLabel | internal/storage/badger.go:273-275 | Returns the IDs of the label's edges, each once, in order. |
| GraphEngine.Graph.CreateNode | internal/graph/graph.go:102-117 | Stores a node under the next number's ID. |
| GraphEngine.Graph.CreateEdge | internal/graph/graph.go:136-161 | Stores an edge between existing nodes under the next number's ID; fails and changes nothing if an endpoint is missing. |
| GraphEngine.Graph.UpsertNode | internal/graph/graph.go:196-223 | Creates the node, or overrides properties key by key and keeps the label of an existing one. |
| GraphEngine.Graph.UpsertEdge | internal/graph/graph.go:228-256 | Creates the edge, or overrides properties and keeps label and endpoints of an existing one; endpoints need not exist. |
| GraphEngine.Graph.Neighbors | internal/graph/graph.go:188-193 | Returns every edge connected to the node once. |
| Lexer.Tokenize | internal/query/lexer.go:35-46 | Reads off all tokens up to and including the first end of input or illegal token, on every input. |
| Lexer.LexerState.Next | internal/query/lexer.go:68-159 | Skips space and reads one token; what is left is the rest of the text. |
| Lexer.LexerState.ReadBody | internal/query/lexer.go:161-187 | Reads a string up to its closing quote, unescaped, or to the end of an unclosed one. |
| Lexer.LexerState.ReadNumber | internal/query/lexer.go:189-206 | Reads digits with at most one dot; the dot makes it a floating-point number. |
| Lexer.TokensOf | internal/query/lexer.go:35-46 | The list ends with its only end-of-input or illegal token and is no longer than the text allows: every other token takes at least one character. |
| Parser.Parse | internal/query/parser.go:35-39 | The parser object over the lexer's tokens returns what the grammar makes of the text. |
| Parser.ParserState.ParseStatement | internal/query/parser.go:71-84 | Clauses up to the end of input, at least one. |
| Parser.ParserState.ParseClause | internal/query/parser.go:86-107 | The keyword decides the clause; anything else is an error. |
| Parser.ParserState.ParseExpr | internal/query/parser.go:497-515 | OR over AND over NOT over one comparison over atoms; OR and AND join to the left. |
| Parser.ParserState.ParseAtom | internal/query/parser.go:576-686 | Literals, parameters, lists, parentheses, names, property accesses, calls and negated numbers. |
| Parser.ParserState.ParsePattern | internal/query/parser.go:127-146 | A chain of nodes and relationships, one node more than relationships. |
| Parser.ParserState.ParseReturn | internal/query/parser.go:271-334 | Items, then optional ORDER BY, LIMIT and SKIP in this order. |
| Parser.ParserState.ParseCall | internal/query/parser.go:435-493 | A dotted procedure name, arguments, and optionally the names it yields. |
| Grammar.ParsedToTheEnd | internal/query/parser.go:71-84 | A statement that parses has consumed every token up to the end of input, none of them illegal. |
| Parser.IllegalTextRejected | internal/query/parser.go:71-84 | A text with an illegal token anywhere is rejected. |
| TextRoundTrip.ParserUndoesPrinting | internal/query/parser.go:71-106 | Tokenising and parsing the text of any printable statement, printed with parentheses only where precedence asks for them, gives the statement back. |
| FewestTokens.PrintedIsShortest | internal/query/parser.go:497-686 | Whatever tokens parse to an expression are at least as many as it is printed in: no parenthesis is one too many. |
| FewestTokens.NoneToSpare | internal/query/parser.go:497-686 | So no shorter list of tokens, one without a pair of its parentheses included, parses to the expression to its end. |
| ParserRange.PrintableIsParsed | internal/query/parser.go:71-709 | A statement is the result of parsing some text if and only if it is printable: names that are no keywords, numerals in range, non-empty lists where the grammar asks for one. |
| ParserRange.ReprintingLosesNothing | internal/query/parser.go:35-106 | For every text that parses, printing the statement and parsing it again gives the same statement. |
| ExprRoundTrip.MinInt64Unreachable | internal/query/parser.go:670-682 | Example of what is out of range: no numeral, negated or not, parses to the smallest 64-bit integer. |
| Planning.PlanMatch | internal/query/planner.go:96-141 | The first pattern becomes a label scan and one expansion per relationship, along or against its direction. |
| Planning.MakePlan | internal/query/planner.go:21-94 | Clause by clause, each on the plan so far; a clause that needs one fails without it. |
| Planning.PlanOfReading | internal/query/planner.go:21-94 | A MATCH, its WHEREs and RETURN plan the same whatever well-planned clauses come before: filters in order, sorting before projection, slicing last. |
| Execution.ExecutePlan | internal/query/executor.go:69-84 | Reading plans: running one over the indexed store yields the rows the plan denotes over the graph, for every nesting. |
| Execution.ExecScan | internal/query/executor.go:102-117 | One row for every node of the label that has the literal properties, in ID order. |
| Execution.ExpandRow | internal/query/executor.go:119-220 | From one row: one extended row for every stored edge leaving or entering the bound node that fits the labels, in edge-ID order. |
| Execution.ExecFilter | internal/query/executor.go:222-235 | Keeps the rows that satisfy the expression, in order. |
| Execution.ExecProject | internal/query/executor.go:237-272 | Evaluates the items on every row, or counts the rows. |
| Execution.ExecSort | internal/query/executor.go:274-296 | Sorts the rows stably by the keys. |
| Execution.ExecLimitOffset | internal/query/executor.go:298-317 | Drops the skipped rows and keeps up to the limit. |
| Evaluation.CompareRowsOrder | internal/query/executor.go:274-296 | Comparing rows by mixed ascending and descending keys is antisymmetric and transitive, mixed types included. |
| Sorting.SortInPlace | internal/query/executor.go:276-294 | The array becomes the stable sort of what it held. |
| Sorting.StableSortCorrect | internal/query/executor.go:274-296 | The result is sorted, and elements that tie keep their order. |
| Sorting.StableSortUnique | internal/query/executor.go:274-296 | Sortedness and the order of ties leave only one arrangement. |
| Walks.AllWalksExact | internal/query/executor.go:102-220 | The enumerated walks are exactly those that fit labels, directions and first-node properties, in the order of their IDs. |
| Walks.OneRowPerWalk | internal/query/planner.go:96-141 | A planned pattern gives exactly one row for each of them. |
| Walks.RowBindsWalk | internal/query/executor.go:141-168 | With distinct variables a walk's row binds each of them to its own node or edge. |
| Walks.ArrangedOnce | internal/query/executor.go:274-296 | There is only one arrangement of the kept rows that is sorted by the keys and keeps ties in order. |
| Walks.StatementMeaning | internal/query/planner.go:21-141 | Any MATCH, WHEREs and RETURN plan to rows that are the answer over exactly the fitting walks, each once: satisfying all WHEREs, arranged by ORDER BY, projected or counted, sliced. |
| QueryText.Execute | internal/query/executor.go:57-67 | Parses, plans and runs a reading text: fails exactly if it does not parse or plan, else yields the rows of its plan. |
| QueryText.TextMeaning | internal/query/executor.go:57-67 | For every text that parses to such a statement, the plan made of it answers the same. |
| Partitioning.PartitionMap.Rebalance | internal/cluster/partition.go:66-92 | The map becomes the round-robin assignment over the members in name order; empty for no members. |
| Partitioning.PartitionMap.Owner | internal/cluster/partition.go:96-102 | Returns the owner of the agent's partition, if any. |
| Partitioning.PartitionMap.IsLocal | internal/cluster/partition.go:120-127 | True exactly when that owner has the name. |
| Partitioning.PartitionMap.LocalPartitions | internal/cluster/partition.go:105-117 | The partitions of the named node, ascending, each once. |
| Partitioning.PartitionMap.UniqueOwners | internal/cluster/partition.go:140-159 | Every owning node once, in name order. |
| Partitioning.AssignmentIgnoresOrder | internal/cluster/partition.go:66-92 | The assignment depends on who the members are, not on the order they are listed in. |
| Partitioning.LoadsBalanced | internal/cluster/partition.go:66-92 | Every partition has one owner, a member; loads differ by at most one. |
| Partitioning.OneLocalMember | internal/cluster/partition.go:120-127 | Every agent ID is local to exactly one member. |
| Partitioning.LocalPartitionsCover | internal/cluster/partition.go:105-117 | The members' partitions cover all partitions without overlap. |
| Partitioning.OwnersAreSmallestNames | internal/cluster/partition.go:140-159 | The owners are the first min(members, partitions) nodes in name order; all members own one exactly when there are enough partitions. |
| Membership.Convergence | internal/cluster/membership.go:79-208 | In every run with non-blocking enqueues into the 64-slot queue, whenever the queue is empty and the started processor idle, the map is the assignment of the current members. |
| Membership.ProcessorProgress | internal/cluster/membership.go:180-208 | The processor can step exactly until the queue is empty and it is idle, and every step it takes reduces the work left. |
| FanOut.MergeResults | internal/cluster/router.go:99-132 | Concatenates the rows of the shards that answered; an error only if none did and one failed. |
| FanOut.ShardsSumToWhole | internal/query/executor.go:102-235 | On a sharded graph the rows of a matching plan on all shards together are its rows on the union, as multisets. |
| FanOut.CountsSumToWhole | internal/query/executor.go:237-272 | Each shard's count row counts its own rows, and they sum to the union's count. |
| FanOut.FanOutMeaning | internal/cluster/router.go:50-132 | The merged rows are the union's rows short of exactly those of the shards that failed; it fails only if every shard does. |
| FanOut.PlannedSplittable | internal/query/planner.go:21-141 | A planned MATCH, WHEREs and RETURN without sorting, slicing and counting is such a plan. |
| Router.QueryRouter.Execute | internal/cluster/router.go:50-90 | With at most one owner the local store answers the text alone; else every owner is asked in name order and the results merged, down remote owners failing. A text that does not parse or plan fails everywhere. |
| Router.RebalancedNamesIdentify | internal/cluster/partition.go:66-92 | In a rebalanced map owners of one name are the same node. |
| Router.UnplannedFails | internal/cluster/router.go:50-132 | A text that does not parse or plan gets an error, whoever is asked. |
| Router.ClusterAnswersText | internal/cluster/router.go:50-132 | From text to cluster: a text that parses to MATCH, WHEREs and a RETURN without sorting, slicing and counting answers over exactly the walks of the whole sharded graph, short of exactly the rows of members that are not reached. |
| Router.ClusterMeaning | internal/cluster/router.go:50-132 | Over a rebalanced map and sharded stores the answer is the union's rows short of exactly those of members that are not reached; with no more members than partitions only remote members that are down are not. |
| Upserts.RedoneIff | internal/graph/graph.go:196-256 | Doing part of a group of upserts early, with others in between, leaves no trace once the group is redone if and only if part and others give no new record different names. |
| Upserts.RunCell | internal/graph/graph.go:196-256 | What a group of upserts leaves: the first name given to a record stays, the last write of a property stays. |
| NodeIds.CheckpointsClashIff | internal/ingest/checkpoint.go:37-39 | Two checkpoint IDs are the same exactly when the partitions are and namespace and topic, joined, read alike. |
| NodeIds.CheckpointsDistinct | internal/ingest/checkpoint.go:37-39 | Within a namespace distinct topic-partitions never share a checkpoint. |
| NodeIds.NamespacesCanClash | internal/ingest/checkpoint.go:37-39 | Example: two namespaces that share one. |
| NodeIds.EdgeIdsClashIff | internal/ingest/nodeid.go:61-64 | Under an injective hash and colon-free labels, edge IDs are the same exactly when label and joined endpoints are. |
| NodeIds.EndpointsCanClash | internal/ingest/nodeid.go:61-64 | Example: two different edges that share an ID, whatever the hash. |
| NodeIds.NodeIdLabel | internal/ingest/nodeid.go:26-58 | The IDs ingestion hands out say their label. |
| Handlers.HandleAnnounce | internal/ingest/handlers.go:27-45 | One agent node, named by its own ID or the sender's. |
| Handlers.HandleMessage | internal/ingest/handlers.go:48-129 | Sender, conversation and message nodes and the edges between them, under deterministic IDs. |
| Handlers.HandleConversation | internal/ingest/handlers.go:132-144 | The conversation node with the given properties. |
| Handlers.HandleSkillRequest | internal/ingest/handlers.go:147-195 | Sender, conversation, message and skill nodes and the edges between them. |
| Handlers.HandleMemory | internal/ingest/handlers.go:217-254 | The shared-memory node, its sender, and a reference edge to every referenced agent. |
| Handlers.HandleAudit | internal/ingest/handlers.go:273-297 | The audit event, its sender and the edge between them. |
| Handlers.HandleRoster | internal/ingest/handlers.go:303-356 | The agent, every skill of the roster and the edges to them; removal is a mark on the edge. |
| Handlers.HandleHumanFeedback | internal/ingest/handlers.go:361-404 | The feedback node and its edge, the cycle marked as received, and the score overrides; an empty cycle ID fails and changes nothing. |
| Handlers.ApplyScoreOverrides | internal/ingest/handlers.go:407-431 | Overrides the scores on exactly the score links leading to the cycle. |
| Handlers.HandleOrchestrator | internal/ingest/handlers.go:434-466 | Both agents, and the delegation or report edge; any other action fails after the agents. |
| Handlers.ProcessRecord | internal/ingest/processor.go:110-116 | The graph after a record is that of its upserts in order; it succeeds exactly when envelope and payload decode and the handler accepts them. |
| RecordEffects.UpsExpected | internal/ingest/handlers.go:27-466 | Every upsert of a record is a node whose ID says its label, a feedback's cycle, or an edge that is no new score link. |
| RecordEffects.SameUps | internal/ingest/handlers.go:361-431 | A record does the same whenever it is processed, as long as the score links are the same. |
| RecordEffects.LinksListed | internal/ingest/handlers.go:407-431 | Which links a cycle's overrides reach, and in which order, depends on the score links only. |
| Checkpoints.CheckpointStore.Load | internal/ingest/checkpoint.go:42-58 | The offset on record: -1 without one, nothing where its text is no 64-bit numeral. |
| Checkpoints.CheckpointStore.Commit | internal/ingest/checkpoint.go:61-69 | Upserts the checkpoint node with the offset as its text. |
| Checkpoints.CommitLoads | internal/ingest/checkpoint.go:42-69 | A commit is what the next load sees, for its own topic-partition and no other. |
| IngestSystem.SteadyReplay | internal/ingest/handlers.go:27-466 | Processing records, commits included, never creates, removes or redirects a score link. |
| Progress.StepKeeps | internal/ingest/processor.go:71-107 | Every step of the pipeline keeps order and progress, and moves no checkpoint back. |
| Progress.EachOnceInOrder | internal/ingest/processor.go:71-107 | In every run, crashes anywhere, the records finished in a topic-partition are exactly those its checkpoint has passed, each once and in order. |
| Progress.CheckpointsNeverGoBack | internal/ingest/processor.go:71-107 | Along every run no checkpoint goes back. |
| ExactlyOnce.ExactlyOnceEffect | internal/ingest/processor.go:71-116 | In every run, partitions interleaved, records arriving and crashes between single upserts: once nothing waits the graph is that of processing the finished records one after the other, if topic-partitions agree on first names. |
| Necessity.ExactlyOnceIff | internal/ingest/processor.go:71-116 | Whatever arrives, every run that drains it leaves the graph of its finished records if and only if no two topic-partitions first give a new record different names. |
| Necessity.Betrayal | internal/ingest/processor.go:71-116 | Where two do, a run that cuts one off before its commit and lets the other finish keeps the early name. |
| Settled.PropertiesOnce | internal/ingest/processor.go:71-116 | Whatever names records give: once nothing waits every property is that of processing the finished records one after the other. |
| TwoPartitions.TwoPartitionsIff | internal/ingest/processor.go:71-116 | Of two topic-partitions with live records: every draining run leaves the graph of processing the records in some order that respects both, if and only if no record can be cut off after giving a clashing new name and before settling another clashing cell, where it speaks for both and the other side speaks for the second no earlier than for the first. |
| LoneClashes.LoneClashesExplained | internal/ingest/processor.go:71-116 | Of any number: every draining run leaves the graph of some order that respects all, if whoever speaks for a clashing new name speaks for no other clashing cell. |
| ClashingRosters.NoOrderExplains | internal/ingest/handlers.go:303-356 | Example: from the empty graph, whatever the hash, a run of two rosters whose edges share an ID that drains both and leaves the graph of neither order. |
| EdgeNames.PlainRecordsAgree | internal/ingest/nodeid.go:26-64 | With an injective hash, colon-free agent and topic names and feedback on cycles only, topic-partitions cannot disagree on a name. |
| Reader.Itoa | internal/ingest/reader.go:53-73 | The decimal numeral of a 32-bit integer, and a lone sign for the smallest one. |
| Reader.SwapDigits | internal/ingest/reader.go:68-71 | The characters from a position on, mirrored. |
| Reader.KeysDistinct | internal/ingest/reader.go:49-51 | Distinct topic-partitions have distinct keys, the smallest partition included. |
| Reader.MemoryReader.AddRecord | internal/ingest/reader.go:76-85 | Appends the record to its own topic-partition's log and leaves the others. |
| Reader.MemoryReader.ReadRecords | internal/ingest/reader.go:88-112 | The records behind the offset, in offset order, up to the limit but at least one if there is any. |
| Reader.MemoryReader.ListTopicPartitions | internal/ingest/reader.go:115-134 | Every topic-partition with records, each once. |
| Reader.ReadsTheBatch | internal/ingest/reader.go:88-112 | Of a log with increasing offsets this is the first batch that waits behind the offset. |
| Processor.Processor.Poll | internal/ingest/processor.go:71-107 | One poll processes a batch of every listed topic-partition, a commit after each record, failed ones included; an unreadable checkpoint skips the partition. |
| Processor.PollIsRun | internal/ingest/processor.go:71-107 | Polling a topic-partition is a run of the pipeline's steps without a crash. |
| Processor.PollsDrain | internal/ingest/processor.go:71-107 | n crash-free polls leave exactly the records beyond n batches, whatever order each poll takes. |
| BoltCodec.PackStreamEncode | internal/server/bolt_message.go:66-93 | Appends the value's encoding; a value holding a struct is refused. |
| BoltCodec.PackInt | internal/server/bolt_message.go:95-115 | Appends the shortest of the five integer forms. |
| BoltCodec.PackStreamDecode | internal/server/bolt_message.go:187-332 | Reads one value and leaves the reader behind it, or fails, as the marker table says. |
| PackStreamRoundTrip.RoundTripIff | internal/server/bolt_message.go:66-368 | Decoding an encodable value's encoding, whatever follows, gives the value back and leaves exactly what follows, if and only if all its lengths fit: lists and maps of at most 65535, strings under 2^32. |
| Locality.LocalValue | internal/server/bolt_message.go:187-368 | Whatever follows a value's bytes, it is decoded the same and the rest is left. |
| ShortestForm.ShortestIff | internal/server/bolt_message.go:95-368 | Re-encoding never takes more bytes than decoding consumed if and only if no key that is no string is written in more bytes than it took. |
| ShortestForm.StringKeysShortest | internal/server/bolt_message.go:95-368 | Without any condition for what is accepted with string keys only. |
| ShortestForm.OneByteKeyIsNot | internal/server/bolt_message.go:354-368 | Example: writing out any one-byte integer key breaks the condition. |
| Chunking.WriteChunked | internal/server/bolt_message.go:373-390 | Appends chunks of at most 65535 bytes and the ending zero length. |
| Chunking.ReadChunked | internal/server/bolt_message.go:393-410 | Reads chunks up to the zero length and returns them joined, or fails on a short stream. |
| Chunking.BoundariesDoNotMatter | internal/server/bolt_message.go:393-410 | The bytes received do not depend on where the sender cut non-empty chunks. |
| Chunking.AcceptedIsFrame | internal/server/bolt_message.go:393-410 | Whatever is accepted is a frame of non-empty chunks, and what is returned is theirs joined. |
| Chunking.WrittenIsRead | internal/server/bolt_message.go:373-410 | What is written is read back, and what follows is left alone. |
| Chunking.EncodeMessage | internal/server/bolt_message.go:413-427 | A struct of at most fifteen fields; more, or a struct among them, is refused. |
| Chunking.DecodeMessage | internal/server/bolt_message.go:430-445 | The struct at the front of a frame; anything else is refused. |
| Chunking.SendMessage | internal/server/bolt_message.go:448-454 | Appends the framed message, or nothing if it is refused. |
| Chunking.StreamBack | internal/server/bolt_message.go:413-454 | Messages sent back to back are received in order, one a call, with the rest of the stream untouched, if and only if all their lengths fit. |
| Calendar.SameDayApart | internal/reflect/schedule.go:35-70 | The same day of the month comes again after 28 days at the earliest. |
| Schedule.FiresOncePerDueMinute | internal/reflect/schedule.go:35-70 | Over any ticks in order a tick fires if and only if it lies in a due minute and no earlier tick fired in that minute, or it follows one at the zero instant within the first minute. |
| Schedule.OncePerMinuteIff | internal/reflect/schedule.go:56-70 | Firing once per due minute fails at a tick exactly when it is due and follows one at the zero instant within the first minute. |
| Schedule.ZeroInstantFiresTwice | internal/reflect/schedule.go:56-70 | Example: two ticks where it does. |
| Schedule.FirstTickFires | internal/reflect/schedule.go:35-70 | The first tick of a due minute fires: the guard never suppresses a period. |
| Schedule.Scheduler.Tick | internal/reflect/scheduler.go:101-154 | Exactly the due cycle types are run, and remembered as run now. |
| Schedule.RunTicks | internal/reflect/scheduler.go:101-154 | A scheduler over any ticks runs each cycle type exactly when its schedule's own run says. |
| Feedback.CheckPending | internal/reflect/feedback.go:68-98 | A pass over all cycles as they were listed, in ID order, and the requests it published. |
| Feedback.CheckCycle | internal/reflect/feedback.go:101-155 | A completed cycle pending past its grace period comes to need feedback; one that needs it is asked for, if publishing succeeds. |
| Feedback.Waive | internal/server/routes.go:324-359 | Waives exactly the cycles that need or were asked for feedback. |
| Feedback.PassStep | internal/reflect/feedback.go:68-155 | A pass does to each cycle what checking it alone does. |
| Feedback.StatusNeverMovesBack | internal/reflect/feedback.go:68-155 | Over any passes, waives and feedback a cycle's feedback status never moves back. |
| Feedback.OneRequestAfterGrace | internal/reflect/feedback.go:68-155 | Between two executions, under a monotone clock, at most one request is published for a cycle, and none before its completion time plus the grace period. |
| Feedback.CompletionToTheSecond | internal/reflect/feedback.go:101-116 | With the completion time kept to the second, none more than a second before. |

## Left out

- Feedback.Waive: the HTTP side of waiving and feedback, and the HumanFeedback node the brain
  service creates (internal/brain/brain.go:681-721), are reduced to their effect on the cycle.
- Feedback.CheckPending: the request's content (internal/reflect/feedback.go:158-212) is not modelled, only that one is published.
- Execution.ExecutePlan: CREATE, MERGE, SET, DELETE and CALL plans are planned and parsed but not run; they are thin calls into the store whose effects the index invariant covers.
- Execution.ExecProject: column lists of expansions are only known up to their order, which the code leaves to map iteration.
- Router.QueryRouter.Execute: owners are asked one after the other instead of at once; each fills its own slot, so the order does not show. Texts that plan to writing clauses are excluded: the code fans out read queries.
- QueryText.Execute: texts that plan to writing clauses are excluded, as only reading plans are run.
- Planning.MakePlan: patterns and labels the parser cannot produce (a pattern without nodes) are excluded by the chain condition.
- Processor.Processor.Poll: cancellation of the context and the polling ticker.
- Schedule.Scheduler.Tick: running the due cycle for every agent, the feedback check that ends each tick (`Feedback.CheckPending` on its own), and parsing of schedules from configuration.
- TwoPartitions.TwoPartitionsIff: exact for two topic-partitions; for more, LoneClashes.LoneClashesExplained is a sufficient condition.
- ExactlyOnce.ExactlyOnceEffect: writers other than ingestion, and deletions, while records are processed.
- NodeIds.EdgeIdsClashIff: that SHA-256 is injective is a premise, not a fact.
- Concurrency of the graph lock, the storage's transactions and BadgerDB itself: an operation is one step.
- Full-text and vector search, TF-IDF, signal scoring and trends: floating-point heuristics without a stated law.
- Compliance rules, configuration, demo data, the web UI and the management handlers: flat checks and plumbing.
- Re-execution of a reflection cycle, which by design resets its feedback status: statements about the status are between executions.
