# Entropia's truth gates and migrations, verified

Entropia keeps several claims about itself honest by machine: the acceptance-traceability gate
(`docs/audit/acceptance_semantic_scan.py`), the documentation-truth generator
(`scripts/generate_repository_facts.py`), the Alembic migrations 0033 to 0044 and the load driver
(`scripts/loadgen.py`). This project models those four and proves what they are relied on for.

`dafny verify dfyconfig.toml` checks everything.

## What is modelled

**The acceptance gate** (`Text`, `Yaml`, `TestNodes`, `TestIndex`, `NodeIds`, `Vocabulary`, `Findings`,
`Rules`, `Validator`, `Claims`, `Honesty`, `Codes`, `Duplicates`, `Consequences`, `Debt`, `Ratchet`). YAML values are a datatype
with null, bool, other scalar, string, list and map, so `_as_list` and every malformed-entry branch is
real. `TestIndex` is a class whose two memo dictionaries are filled on demand, as in the script.
`Validator` is the imperative `validate`: its loops append violations (code and place) and fill the two
"seen" maps. `Rules` lists the violations of each rule as values. `Honesty` says, without any loop,
what "the map cannot lie" means, and in words of its own (`Claims`), not from the validator's tables; the
central theorem is that the validator accepts exactly that. `Codes` says the same code by code. `NodeIds`
takes the author's side: what is put together as a node id or a title is what the resolver takes apart.

**The documentation generator** (`Splice`, `Scanner`, `RevisionGraph`, `Classification`). Texts are
strings of code points; the marker splice and the line scanner work on them as `str.find` and slicing do.

**The migrations** (`Database`, `Preservation`, `ColumnTypes`, `Revisions`, `Scripts`, `Hazards`, `Bases`, `Steps`,
`Walks`, `FreshBuild`, `SchemaLaws`, `RowLaws`).
`Database` interprets the `op.*` calls used: columns with types and defaults, primary, unique and
foreign keys, checks, indexes, rows with NULLs, dependent drops, and `ALTER TYPE` that fails on longer
values. `Revisions` holds `upgrade()` and `downgrade()` of 0033 to 0044 as lists of statements. `Bases` says what a
schema of 0032 is: one on which the chain runs, with the two columns that 0033 and 0040 alter of any width.
`Walks.Connection` runs a script statement by statement, and a command over many revisions inside one transaction.
`SchemaLaws` writes out the schema each revision leaves, and `RowLaws` what that means for rows.

**The load driver** (`Counting`, `Percentiles`, `Samples`, `Phase`, `RatioGate`). A phase is a state machine whose
steps (an attempt gets the semaphore, an attempt ends) may be taken in any order the semaphore allows.
Reals stand for floats.

## What the proofs show about the code

- `validate` does raise in one family of inputs, although its own notes say that a gate must not crash
  on bad input: an `evidence_type` entry that is a list or mapping, or a non-string entry when some
  cited node is not explained (`', '.join`). `Rules.EvidenceRaises` is the exact condition.
- A clause whose `text` is null passes (`str(None)` is not blank), and `unfalsifiable: true` may sit on a
  clause whose criterion is settled without a test; the ledger then misses it, although the comment beside
  the marker says that its criterion stays open. The ledger lists all marked clauses if and only if there
  is none of that kind.
- The rule against a settled criterion with a proven clause never fires alone: the other rules already
  exclude that.
- `resolve` and `_node_path` can disagree on which file a node id names. They agree exactly when the
  text in front of the selector contains no ` > `; it is not enough that no file name contains it.
- `ratchet` raises `KeyError` when it passes against a baseline whose `status` mapping lacks a key.
- `write_artifacts` has already written the JSON and Markdown files when it exits on a README without markers.
- `single_head` alone does not mean one path: a cycle beside the chain has no head of its own.
- 0033 and 0040 declare an existing width of 18 and 13, but 0009 and 0015 build those columns from the live
  enums, so every fresh build has 25 and 24 from the start. There going up and down again is not the
  identity: the column comes back narrower, and the downgrade is refused if a row uses the room. Down
  after up is the identity if and only if the width was the declared one; for all other revisions it
  always is. Rows are never changed.
- A phase with `concurrency` 0 never completes.

## Model

| member | source | states |
|---|---|---|
| TestNodes.SymbolsAreChains | docs/audit/acceptance_semantic_scan.py:248-266 | A name chain is in the collected symbol set if and only if it names defs and classes nested directly in one another from the top of the file, so nothing under an `if` or `try` is addressable. |
| TestNodes.ChainsArePrefixClosed | docs/audit/acceptance_semantic_scan.py:257-262 | With a symbol, all its enclosing scopes are symbols. |
| TestNodes.Walk | docs/audit/acceptance_semantic_scan.py:257-264 | The loop over sibling nodes adds exactly the specified chains to what was already found. |
| TestNodes.AcceptsExactlyInstances | docs/audit/acceptance_semantic_scan.py:291-296 | The backtracking pattern accepts a title if and only if the title is the template's literal parts in order with a non-empty one-line filling in every hole. |
| TestNodes.NoPatternAcceptsEverything | docs/audit/acceptance_semantic_scan.py:291-296 | Every stored pattern has a non-blank literal part that each accepted title contains, and refuses the empty title; dropping all-blank templates achieves what the docstring says. |
| TestNodes.TitleKnownExactly | docs/audit/acceptance_semantic_scan.py:285-299 | The titles that resolve are exactly those that some quoted title can be reported as, literally or with its holes filled. |
| TestNodes.ResolvesExactly | docs/audit/acceptance_semantic_scan.py:302-340 | A node id resolves if and only if it is a non-blank string naming an existing file and a real nested scope, or titles the file can all report, with the separator of that kind of file. |
| NodeIds.PytestIdResolves | docs/audit/acceptance_semantic_scan.py:302-329 | For every path and every list of plain names, `path::a::b` with or without brackets behind it resolves if and only if the file parses and `b` is a def or class directly in `a`. |
| NodeIds.VitestIdResolves | docs/audit/acceptance_semantic_scan.py:302-340 | For every path and every list of titles, `path > a > b` resolves if and only if the file exists, is no Python file and can report each title. |
| NodeIds.RefusedBecause | docs/audit/acceptance_semantic_scan.py:302-340 | An id that does not resolve is refused for its true reason, and a missing title is the first one the file cannot report. |
| NodeIds.ParametersDropped | docs/audit/acceptance_semantic_scan.py:225-225 | Brackets that end a segment are dropped with everything in them. |
| NodeIds.OtherBracketsStay | docs/audit/acceptance_semantic_scan.py:225-225 | Brackets that do not end it stay. |
| NodeIds.UnescapeInverts | docs/audit/acceptance_semantic_scan.py:285-287 | Reading a quoted title takes away exactly the backslashes that writing it put in. |
| NodeIds.CutInverts | docs/audit/acceptance_semantic_scan.py:291-291 | A template literal put together from parts and expressions is cut into those parts again. |
| NodeIds.CutCovers | docs/audit/acceptance_semantic_scan.py:291-291 | Every raw title is the template literal of the parts it is cut into. |
| NodeIds.NodePathExactly | docs/audit/acceptance_semantic_scan.py:355-365 | The judged path is what stands in front of the first separator of either kind, stripped. |
| Text.StripSpec | docs/audit/acceptance_semantic_scan.py:319-319 | Stripping cuts white space off both ends and leaves none there. |
| Text.SpacesAre | docs/audit/acceptance_semantic_scan.py:319-319 | White space is what Python takes for it, 29 code points. |
| Text.SplitSpec | docs/audit/acceptance_semantic_scan.py:305-313 | For every separator, the parts of a split join to the text again and none contains the separator. |
| Text.SplitOfJoin | docs/audit/acceptance_semantic_scan.py:305-313 | Joined parts that are each cut at the leftmost place are what splitting gives back, and nothing else is. |
| TestNodes.ParsersAgreeExactly | docs/audit/acceptance_semantic_scan.py:302-365 | On a resolving id, the path the type and axis rules judge is the path that was opened if and only if the text in front of the selector has no ` > ` in it. |
| TestNodes.ParsersCanDisagree | docs/audit/acceptance_semantic_scan.py:302-365 | A file whose name merely starts with `> ` already separates the two parsers, so a condition on file names alone is not enough. |
| TestIndex.TestIndex.PythonSymbols | docs/audit/acceptance_semantic_scan.py:248-266 | Whatever was cached, the answer is that of a fresh parse; only this file's cache entry changes. |
| TestIndex.TestIndex.JsTestTitles | docs/audit/acceptance_semantic_scan.py:268-299 | The same for titles: literals and patterns of a fresh scan in order, one cache entry added. |
| TestIndex.TestIndex.Resolve | docs/audit/acceptance_semantic_scan.py:302-340 | The memoised resolver gives the reason (or none) that direct computation from the tree gives. |
| TestIndex.TestIndex.ResolveAll | docs/audit/acceptance_semantic_scan.py:234-340 | Over any sequence of calls no answer depends on the calls before it. |
| Validator.CheckEvidence | docs/audit/acceptance_semantic_scan.py:457-521 | Resolution, type and count rules of one record: the violations in loop order, or TypeError exactly where an unhashable or unjoinable type is met. |
| Validator.CheckAxes | docs/audit/acceptance_semantic_scan.py:523-569 | The violations of all eight axes in order, for entries that are no node ids, are not evidence, or are too weak for a server-truth axis. |
| Validator.CheckClauses | docs/audit/acceptance_semantic_scan.py:578-657 | Violations, counted statuses and the new map of seen clause ids after one criterion's clauses, malformed entries and early exits included. |
| Validator.CheckRecord | docs/audit/acceptance_semantic_scan.py:384-688 | One iteration of the main loop: violations in order and both seen maps, or TypeError. |
| Validator.Validate | docs/audit/acceptance_semantic_scan.py:373-689 | The whole validator returns the specified verdict on every YAML value whatever the index has cached. |
| Honesty.AcceptedExactly | docs/audit/acceptance_semantic_scan.py:373-689 | No violations if and only if the document is honest: ids unique over criteria, clause ids unique over the whole map, every cited node a real test, declared types equal to cited types, and status, notes, debt class, axes and clauses all consistent. |
| Honesty.CriteriaExact | docs/audit/acceptance_semantic_scan.py:381-689 | The same through the loop and its two maps, by induction over the criteria, with uniqueness stated pairwise. |
| Honesty.RecordExact | docs/audit/acceptance_semantic_scan.py:384-688 | One record passes all rules exactly when it is honest by itself, its id is unseen and its clause ids are new. |
| Honesty.TypeFindingsExact | docs/audit/acceptance_semantic_scan.py:461-502 | The three type rules together accept exactly when the set of declared types is the set of types of the cited nodes. |
| Honesty.OneTypePerNode | docs/audit/acceptance_semantic_scan.py:158-166 | No root is a prefix of another, so a node has at most one evidence type. |
| Honesty.HonestTypesNeverRaise | docs/audit/acceptance_semantic_scan.py:461-502 | The raising inputs are outside the honest ones, so no honest document is lost to TypeError. |
| Honesty.DeniedCriterionHasNoProvenClause | docs/audit/acceptance_semantic_scan.py:671-687 | Under a status that denies evidence an honest clause cannot be proven, so the second mismatch rule is implied by the others. |
| Claims.ListsAndEntries | docs/audit/acceptance_semantic_scan.py:347-352 | A list stays as it is, a single value counts as one entry, and null or absence as none. |
| Codes.ReportedExactly | docs/audit/acceptance_semantic_scan.py:373-689 | Each code but the two below is reported under a criterion if and only if that criterion has the fault the code names, and in a clause if and only if some clause has it; `AXIS_EVIDENCE_TOO_WEAK` if and only if one of the six server-truth lists is non-empty without a test that could prove it. |
| Codes.RaisesExactly | docs/audit/acceptance_semantic_scan.py:457-487 | The validator raises if and only if some record has a list or mapping among its types, or a type that is no string beside a node that no declared type explains. |
| Codes.ClausePlaces | docs/audit/acceptance_semantic_scan.py:579-597 | A clause's violations stand under its id if no clause before it has that id, else under its position. |
| Duplicates.DuplicatesReportedExactly | docs/audit/acceptance_semantic_scan.py:391-597 | However broken the criteria are otherwise, the duplicate-id code appears if and only if two criteria share an id, the duplicate-clause-id code if and only if two clauses anywhere share one. |
| Consequences.AxesShowInDeclaredTypes | docs/audit/acceptance_semantic_scan.py:168-184 | In an accepted record a claim on `async_recovery` forces a declared integration or contract type, on any other server-truth axis a declared backend type. |
| Consequences.AxesProvenOnServer | docs/audit/acceptance_semantic_scan.py:177-184 | In an accepted map every non-empty `auth`, `occ`, `idempotency`, `historical_integrity` or `agent_parity` list has a node under `backend/tests/`, and `async_recovery` one under its `integration/` or `contract/`. |
| Consequences.CoveredMeansTested | docs/audit/acceptance_semantic_scan.py:660-673 | Each clause of an accepted covered criterion cites a real test among the criterion's evidence and is not marked unfalsifiable. |
| Consequences.UnfalsifiableNeedNotStayOpen | docs/audit/acceptance_semantic_scan.py:142-154 | A concrete accepted map with one unfalsifiable clause, its text null, that neither the ledger nor a count of open debt shows. |
| Debt.UnfalsifiableCountedExactly | docs/audit/acceptance_semantic_scan.py:956-969 | In an accepted map the ledger lists as many unfalsifiable clauses as the map has if and only if none belongs to a criterion that is future work, not applicable or awaiting a product decision. |
| Debt.LedgerUnfalsifiable | docs/audit/acceptance_semantic_scan.py:963-969 | The nested loop yields the marked clauses of the open rows, each with its row, in order. |
| Debt.MarkedInExactly | docs/audit/acceptance_semantic_scan.py:963-969 | The list has one pair for each marked clause of a row, and each pair is the row with such a clause. |
| Consequences.GateCanRaise | docs/audit/acceptance_semantic_scan.py:461-466 | A list nested in `evidence_type` makes the validator raise whatever else the record says. |
| Consequences.GateCanRaiseOnJoin | docs/audit/acceptance_semantic_scan.py:472-487 | So does a number in `evidence_type` beside a cited node. |
| Debt.MeasuredCounts | docs/audit/acceptance_semantic_scan.py:839-850 | Every counter is the number of criteria carrying that status or class, with one entry for each of the four classes. |
| Debt.CountOfIsCardinality | docs/audit/acceptance_semantic_scan.py:839-850 | Each count is the number of criteria that carry that word. |
| Debt.OpenRowsExactly | docs/audit/acceptance_semantic_scan.py:956-958 | The ledger lists exactly the criteria with a debt class, each once. |
| Debt.DebtConserved | docs/audit/acceptance_semantic_scan.py:422-445 | In every accepted map partial plus uncovered equals A+B+C+D and the number of ledger rows: no debt is lost or counted twice. |
| Debt.MatrixAddsUp | docs/audit/acceptance_semantic_scan.py:763-786 | Rows of the coverage table sum to the criteria of that document, columns to the overall count of that status. |
| Debt.StatusesTotal | docs/audit/acceptance_semantic_scan.py:782-786 | The six status totals sum to the number of criteria. |
| Debt.StatusMatrix | docs/audit/acceptance_semantic_scan.py:758-767 | The nested counter holds, for every document and status, the number of criteria in that cell. |
| Debt.CellIsCardinality | docs/audit/acceptance_semantic_scan.py:758-767 | A cell is the number of criteria of that document and status. |
| Ratchet.CompareGroup | docs/audit/acceptance_semantic_scan.py:872-887 | Failures name exactly the keys above their ceiling, improvements exactly those below. |
| Ratchet.Compare | docs/audit/acceptance_semantic_scan.py:853-914 | It fails if and only if a count exceeds its ceiling or the corpus shrank, reports exactly those reasons, and raises exactly when it would pass but a frozen status is missing. |
| Ratchet.PassesExactly | docs/audit/acceptance_semantic_scan.py:853-914 | A run passes if and only if each open status is frozen and not exceeded, no class exceeds what is frozen for it or zero, and the corpus is no smaller than frozen. |
| Ratchet.OwnFreezePasses | docs/audit/acceptance_semantic_scan.py:839-914 | A document passes the baseline frozen from itself. |
| Ratchet.HistoryOnlyTightens | docs/audit/acceptance_semantic_scan.py:853-914 | Over any history of passing runs and re-freezes ceilings never rise and the floor never falls, so what passes a later baseline passes every earlier one. |
| Ratchet.SettledCriteria | docs/audit/acceptance_semantic_scan.py:864-887 | An accepted map that passes has at least as many criteria in the four settled statuses as any earlier floor minus both its open ceilings. |
| Ratchet.MissingKeyPassesThenRaises | docs/audit/acceptance_semantic_scan.py:907-913 | A concrete baseline without the frozen statuses that a run passes and that then has no number to print. |
| Splice.MarkersOfSpliced | scripts/generate_repository_facts.py:557-567 | The seam argument: after a splice the first begin marker is where the block starts and the first end marker is the block's own; none straddles a seam. |
| Splice.OutsideKept | scripts/generate_repository_facts.py:557-567 | Text in front of and behind the block survives unchanged and the result can be spliced again. |
| Splice.PartsOfText | scripts/generate_repository_facts.py:557-567 | A README is what is kept in front, the old block from its first begin marker to its first end marker, and what is kept behind. |
| Splice.LastWriteWins | scripts/generate_repository_facts.py:557-567 | Splicing twice equals splicing the second block alone. |
| Splice.IdempotentExactly | scripts/generate_repository_facts.py:557-567 | Splicing a framed block again changes nothing if and only if its only end marker is its suffix. |
| Splice.RenderedWellShaped | scripts/generate_repository_facts.py:540-554 | A rendered block has that shape if and only if no inner line contains the end marker. |
| Splice.Repository.WriteArtifacts | scripts/generate_repository_facts.py:944-959 | All three files after a run, including the exit that leaves the first two written. |
| Splice.OnlyThreeFilesWritten | scripts/generate_repository_facts.py:944-959 | The three files hold what was generated and every other file is untouched. |
| Splice.Repository.CheckArtifacts | scripts/generate_repository_facts.py:962-981 | Exactly the stale files are reported, in order. |
| Splice.StaleExactly | scripts/generate_repository_facts.py:962-981 | A generated file is reported if and only if it differs, an absent one reading as empty, and the README if and only if the text between its markers is not the block. |
| Splice.CheckAfterWrite | scripts/generate_repository_facts.py:944-981 | Checking right after writing reports nothing if the block is well shaped, and the README, and only it, if not. |
| Scanner.ScanText | scripts/generate_repository_facts.py:880-897 | Line n is yielded, with its number and in order, if and only if it carries no marker and the last line with a marker in front of it, if there is one, ends a block. |
| Scanner.NoMarkersReadsAll | scripts/generate_repository_facts.py:880-897 | A file without markers yields every line. |
| Scanner.BehindBlockIsRead | scripts/generate_repository_facts.py:880-897 | Of a spliced README every line behind the block is yielded. |
| Scanner.LinesSpec | scripts/generate_repository_facts.py:891-891 | The lines of a text hold no line break and joined by line breaks are the text. |
| Scanner.ScanAround | scripts/generate_repository_facts.py:880-897 | The entries of a README with a block are those in front of it followed by those behind it. |
| Scanner.ScanIgnoresBlock | scripts/generate_repository_facts.py:880-897 | From two READMEs that differ only in the block the same lines are yielded, numbered alike before the block and shifted by the difference in block length after it. |
| RevisionGraph.CollectAlembic | scripts/generate_repository_facts.py:81-104 | Heads, head and count of the collected graph, or the exit exactly when a file has no revision. |
| RevisionGraph.CollectedExactly | scripts/generate_repository_facts.py:88-95 | The map has exactly the revisions the files declare, each with the parent named by the last file that declares it, unless a file declares none. |
| RevisionGraph.SingleHeadMeansOnePath | scripts/generate_repository_facts.py:81-104 | Following `down_revision` passes every revision exactly once if and only if there is a single head, no dangling parent and no cycle. |
| RevisionGraph.PathHasOneHeadAndBase | scripts/generate_repository_facts.py:97-104 | Such a path starts at the only head and ends at the only base. |
| RevisionGraph.CycleGoesUnnoticed | scripts/generate_repository_facts.py:97-104 | A graph with a single head, no dangling parent and a cycle. |
| Classification.CheckClassification | scripts/generate_repository_facts.py:666-698 | Each failure is reported if and only if the documents give the reason it names; none if and only if every document is marked, no history record is current, at most one is, and a numbered current one has the greatest kickoff number. |
| Classification.ClassifiedExactly | scripts/generate_repository_facts.py:633-698 | The declarative rule equals the emptiness of the three parts of the check. |
| Percentiles.NearestRank | scripts/loadgen.py:159-170 | A value is the percentile if and only if it was recorded, the samples not above it number at least ceil(q*n) and those below it fewer. |
| Percentiles.MaxExactly | scripts/loadgen.py:186-186 | The maximum is the recorded value that none exceeds. |
| Percentiles.PercentileOfPermutation | scripts/loadgen.py:159-170 | The order of the samples does not matter. |
| Percentiles.PercentileMonotone | scripts/loadgen.py:159-170 | A higher quantile is never a smaller value. |
| Percentiles.ReportedInOrder | scripts/loadgen.py:182-188 | p50, p95, p99 and maximum are reported in order under any monotone rounding. |
| Samples.Sample.RecordAnswer | scripts/loadgen.py:148-151 | All four counters after one answer. |
| Samples.Sample.One | scripts/loadgen.py:260-277 | A transport error moves its own counter only, an answer is recorded. |
| Samples.Sample.Errors | scripts/loadgen.py:153-156 | The loop sums the counts of all statuses other than 200 and 204, plus transport errors. |
| Samples.ErrorGate | scripts/loadgen.py:368-379 | It names exactly the scenarios with errors and exactly those without a completed request, each once, and so none if and only if every scenario is clean. |
| Phase.StepKeepsInv | scripts/loadgen.py:280-299 | Any step the semaphore allows keeps the bound on requests in flight and every sample equal to what its finished attempts say. |
| Phase.CountersConserved | scripts/loadgen.py:141-156 | In every reachable state in-flight is at most `concurrency`, completed plus transport errors plus in flight plus pending is `repeats`, and statuses sum to latencies. |
| Phase.SummaryExactly | scripts/loadgen.py:173-189 | In every reachable state a summary's requests, errors, status counts and bytes are those of the attempts that have ended, and its p50, p95, p99 and maximum are the nearest-rank values and the greatest of their latencies, in order. |
| Phase.AnyOrder | scripts/loadgen.py:290-296 | Any pending attempt may start while there is room and any one in flight may end in any way. |
| Phase.GateVerdict | scripts/loadgen.py:173-189 | At the end the error gate passes if and only if there was a repeat and every attempt was answered 200 or 204. |
| Phase.ScheduleDoesNotMatter | scripts/loadgen.py:280-299 | Two schedules with the same outcomes give the same summaries, percentiles included. |
| Phase.NeverStuck | scripts/loadgen.py:280-299 | With room for one request an incomplete phase can always go on. |
| Phase.SchedulesEnd | scripts/loadgen.py:280-299 | Every step uses up one of twice the attempts, so every schedule ends. |
| Phase.NoRoomNoProgress | scripts/loadgen.py:280-299 | With `concurrency` 0 nothing ever happens and the phase does not complete. |
| RatioGate.Gate | scripts/loadgen.py:387-429 | Unmeasured exactly without a non-zero control p95 in both runs; otherwise, with positive controls, a scenario other than `meta` is named if and only if observed times base control exceeds band times recorded times current control. |
| RatioGate.SlowerStaysNamed | scripts/loadgen.py:416-429 | Slowing a named scenario down further never takes it off the list. |
| RatioGate.VerdictIgnoresMachineSpeed | scripts/loadgen.py:387-429 | Scaling all p95s of either run by positive constants changes no verdict. |
| RatioGate.WiderBandFailsLess | scripts/loadgen.py:416-429 | The failing set shrinks as the band grows. |
| RatioGate.PassesItself | scripts/loadgen.py:387-429 | A run against itself has no failure at a band of at least one. |
| RatioGate.BandsCompose | scripts/loadgen.py:387-429 | Passing A to B at r1 and B to C at r2 implies A to C at r1*r2, p95s being present and positive. |
| Preservation.EffectValid | backend/alembic/versions/0037_package_revision_link.py:48-98 | Each kind of statement these scripts issue, when it succeeds on a consistent database, leaves all rows within all constraints of the new schema. |
| Preservation.RunPreserves | backend/alembic/versions/0037_package_revision_link.py:48-98 | Upgrades keep every stored value where it is; downgrades keep every value of what is left. |
| Preservation.UndoScript | backend/alembic/versions/0039_backtest_run_cancellation.py:44-67 | Undoing the statements of a script in reverse order restores the exact database. |
| Scripts.DownUndoesUp | backend/alembic/versions/0041_filtered_event_artifact.py:58-99 | For each revision `downgrade()` is, statement by statement, `upgrade()` inverted in reverse order. |
| SchemaLaws.Schema34 | backend/alembic/versions/0034_package_implementation.py:33-42 | The schema 0034 leaves: one nullable JSON column more on each of the two package tables. |
| SchemaLaws.Schema35 | backend/alembic/versions/0035_portfolio_rules.py:44-57 | Two nullable columns more on the allocation plan. |
| SchemaLaws.Schema36 | backend/alembic/versions/0036_manual_duplicate_override.py:44-49 | Two nullable columns more on the publication events. |
| SchemaLaws.Schema37 | backend/alembic/versions/0037_package_revision_link.py:48-91 | Three columns more on the request, the link table with its keys, and its index. |
| SchemaLaws.Schema38 | backend/alembic/versions/0038_backtest_run_event.py:56-93 | The run event table with its three constraints, and its index. |
| SchemaLaws.Schema39 | backend/alembic/versions/0039_backtest_run_cancellation.py:44-61 | Three nullable columns and a foreign key more on the run. |
| SchemaLaws.Schema41 | backend/alembic/versions/0041_filtered_event_artifact.py:58-93 | The two result tables with their constraints, and an index on each. |
| SchemaLaws.Schema42 | backend/alembic/versions/0042_package_import_source_name.py:40-42 | One nullable column more on the import job. |
| SchemaLaws.Schema43 | backend/alembic/versions/0043_i08_registry_strategy_fks.py:58-80 | Three foreign keys more. |
| SchemaLaws.Schema44 | backend/alembic/versions/0044_drop_net_conflict_policy.py:89-138 | One CHECK more, on two values. |
| RowLaws.AttemptsAreNumbered | backend/alembic/versions/0037_package_revision_link.py:48-91 | In every database from 0037 on no two links agree on request and attempt, and every link's request is a registered entity. |
| RowLaws.RunEventsAreNumbered | backend/alembic/versions/0038_backtest_run_event.py:56-93 | From 0038 on no two events agree on run and sequence number, and every event's run exists. |
| RowLaws.ResultPartsAreUnique | backend/alembic/versions/0041_filtered_event_artifact.py:58-93 | From 0041 on no two filtered events of a result share a number, no two checksums of a result an artifact type, and their results exist. |
| RowLaws.CancellersExist | backend/alembic/versions/0039_backtest_run_cancellation.py:44-61 | From 0039 on whoever asked for a cancellation exists. |
| RowLaws.RegistryPointsSomewhere | backend/alembic/versions/0043_i08_registry_strategy_fks.py:58-80 | From 0043 on owners, head revisions and rationale families exist or are NULL. |
| RowLaws.PoliciesSurvive | backend/alembic/versions/0044_drop_net_conflict_policy.py:89-138 | At 0044 a conflict policy is BLOCK_OPPOSITE, KEEP_SEPARATE or NULL. |
| RowLaws.WidthsHold | backend/alembic/versions/0040_export_type_agent_pine.py:47-54 | From 0033 and 0040 on no stored text is longer than 25 and 24. |
| RowLaws.RequestsAreFirstAttempts | backend/alembic/versions/0037_package_revision_link.py:48-66 | Every request that is there when 0037 runs gets attempt number 1 and no parent. |
| RowLaws.EarlyColumnsAreEmpty | backend/alembic/versions/0035_portfolio_rules.py:44-57 | The columns of 0034 to 0036 are NULL in every existing row. |
| RowLaws.CancellationColumnsAreEmpty | backend/alembic/versions/0039_backtest_run_cancellation.py:44-61 | So are those of 0039. |
| RowLaws.SourceNamesAreEmpty | backend/alembic/versions/0042_package_import_source_name.py:40-42 | And that of 0042. |
| RowLaws.UpgradeRefusedExactly | backend/alembic/versions/0043_i08_registry_strategy_fks.py:58-80 | An upgrade succeeds if and only if, by table and column name, no text is too long (0033, 0040), every reference points at a row (0043) and every policy survives (0044). |
| RowLaws.DowngradeRefusedExactly | backend/alembic/versions/0040_export_type_agent_pine.py:57-64 | A downgrade succeeds if and only if no role is longer than 18 (0033) and no export type longer than 13 (0040). |
| RowLaws.NetIsReportedFirst | backend/alembic/versions/0044_drop_net_conflict_policy.py:89-138 | 0044 halts with the number of NET rows if there are any, else with the number of rows with another stray value if there are any, else goes through. |
| Hazards.Traits | backend/alembic/versions/0038_backtest_run_event.py:56-97 | Besides 0033 and 0040 no downgrade looks at rows, and besides 0039, 0043 and 0044 neither does an upgrade. |
| FreshBuild.FreshSchemaIsBase | backend/alembic/versions/0033_stop_dependency_role.py:34-54 | On every empty consistent schema that has what the chain alters and refers to, the altered columns of any width, and lacks what it creates, 0033 to 0044 run to the end. |
| FreshBuild.SmallestIsBase | backend/alembic/versions/0033_stop_dependency_role.py:34-54 | Such a schema exists for every pair of widths, so the walk theorems speak about fresh builds and about old databases. |
| FreshBuild.FreshBuildNotRestored | backend/alembic/versions/0009_strategy_details.py:146-150 | With the live widths 25 and 24 the schema goes up and down again, and comes back narrower. |
| Steps.UpLands | backend/alembic/versions/0037_package_revision_link.py:48-98 | A successful upgrade lands on the next revision's schema with all its constraints satisfied and all values untouched. |
| Steps.DownLands | backend/alembic/versions/0037_package_revision_link.py:93-98 | A successful downgrade lands on the previous revision's schema, an altered column having its declared width, with constraints satisfied and remaining values untouched. |
| Bases.SchemaOfRedeclared | backend/alembic/versions/0040_export_type_agent_pine.py:47-64 | Two bases that differ in one of the altered widths build schemas that differ in that width and nothing else below the altering revision, and not at all from there on. |
| Steps.DownAfterUp | backend/alembic/versions/0040_export_type_agent_pine.py:47-64 | Down right after a successful up is refused if and only if a value is longer than the declared width, and otherwise gives the same database with that width. |
| Steps.UpSucceedsExactly | backend/alembic/versions/0043_i08_registry_strategy_fks.py:58-85 | From its revision an upgrade succeeds if and only if, for 0033 and 0040, no value is longer than the width set, for 0043, no reference is orphaned and, for 0044, every policy is NULL or one of the two that survive; no other upgrade can fail. |
| Steps.DownSucceedsExactly | backend/alembic/versions/0040_export_type_agent_pine.py:47-64 | A downgrade succeeds if and only if, for 0033 and 0040, no stored text is longer than the old width; no other downgrade can fail, and none truncates. |
| Steps.CancellationNeverFails | backend/alembic/versions/0039_backtest_run_cancellation.py:44-61 | 0039's foreign key is on a column just added, so no existing row can violate it. |
| Steps.WidthRestoredExactly | backend/alembic/versions/0033_stop_dependency_role.py:34-54 | At every revision, up and then down restores the exact database if and only if an altered column had the declared width, which at all revisions but two is no condition. |
| Steps.GuardsAreExact | backend/alembic/versions/0044_drop_net_conflict_policy.py:89-138 | With NULLs, both counts are zero if and only if the CHECK would hold of every row. |
| Steps.PolicyUpgrade | backend/alembic/versions/0044_drop_net_conflict_policy.py:89-138 | A NET row is reported before any other drift, with its count; otherwise other drift is; otherwise the CHECK goes in; no row changes. |
| Walks.UpToLands | backend/alembic/env.py:43-51 | The same over any number of upgrades. |
| Walks.DownToLands | backend/alembic/env.py:43-51 | The same over any number of downgrades, with the declared width wherever an alteration was crossed. |
| Walks.ThereAndBack | backend/alembic/env.py:43-51 | Any number of upgrades followed by as many downgrades gives back the exact database if and only if every column altered on the way had its declared width. |
| Walks.ThereAndBackKeepsRows | backend/alembic/env.py:43-51 | Whatever the widths, there and back keeps every table, column and row. |
| Walks.WalkStaysValid | backend/alembic/env.py:43-51 | However often and wherever to a database is walked, and whichever runs fail, it has exactly the schema of some revision up to the two widths, which are the first or the declared ones, satisfies every constraint of it, and holds the same values in every column of 0032. |
| Walks.WalkKeepsConstraints | backend/alembic/env.py:43-51 | From any consistent database at all, every walk keeps it consistent. |
| Walks.Connection.RunScript | backend/alembic/versions/0043_i08_registry_strategy_fks.py:58-85 | Statement by statement execution in place ends where the script's meaning says, or reports its failure. |
| Walks.Connection.RunMigrations | backend/alembic/env.py:43-51 | A run that fails anywhere leaves schema, rows and recorded revision as they were; one that succeeds applies all of it. |

## Left out

- Message texts of violations and failures: the code, place and order of each are kept.
- Regular expression engines, Python `ast`, YAML and JSON parsing and file encodings: parsed trees, quoted titles and file contents are inputs; `YAML` dates and floats are one scalar kind, and mappings have string keys.
- `str.splitlines` line ends other than the line feed.
- The Markdown of `report`, `ledger` and `check_generated`: only their counts are modelled; the two-letter document key of the coverage table is an arbitrary function of the `document` value.
- `int(...)` of the baseline's numbers, and a baseline that is not a mapping.
- The other collectors of `generate_repository_facts.py`, its prose rules and its codemap check: their content is wording and counting.
- The globs, file-name patterns and markers that classify a document: what they say of each document is an input; so are the inner lines of the rendered README block.
- HTTP, authentication, SSE, Prometheus scraping, argument parsing and printing in `loadgen.py`; throughput and mean; the order of a summary's keys.
- Float arithmetic: reals are exact, so a float product that falls just above an integer is not captured by `ceil`, and `round` appears only as any monotone function.
- PostgreSQL details: trailing blanks that narrowing a VARCHAR may cut, the unique key a foreign key target needs, `ON DELETE` actions, names shared by tables and indexes, sequences, and offline mode.
- Revisions.Up: the enum-typed columns of 0035, 0037 and 0038 have open widths, because live enums give them.
- Migrations 0001 to 0032: of their schema only what 0033 to 0044 name is required.
- The domain engine, the API, the frontend and the remaining scripts.
