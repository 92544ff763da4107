# OpenDataSuite: verified models of its deciding components

OpenDataSuite decides, for a data project, what must be rebuilt, what would break, which
settings win, how healthy each node is, how entities relate, and what may be shown of an
engine's message. This project models those decisions in Dafny and proves what they promise.
Loops that change maps, queues and cursors are methods with invariants; pure code is functions;
the tables, caches, parsers and accumulators that the program changes in place are classes or
local maps that the methods reassign.

## What is modelled

**Column lineage** (`Lineage`, `Impact`, `ImpactReasons`, `Clash`, `NonInterference`, `Breaks`, `Observed`, `Diff`).
A graph of analysed nodes with two indexes. `Impact.Propagate` is the change worklist, with its one
guard per column name; `Impact.IsImpact` is what some run of it reports, and `Impact.Caused` is the
least set of changes closed under the propagation rules, which the guard may keep a run from
following. `NonInterference` gives the graph a meaning: each node computes a table from the tables
it is run on, and its lineage is sound when nothing outside it matters. The main theorem,
`NonInterference.ImpactIsComplete`, is about the report that the worklist returns: two runs of the
project differing only by the given changes agree on every node it leaves out and on every column
it leaves out. `Diff.ReplanIsSafe` joins it to
the comparison of two analyses: run the old code, diff every node, propagate the diffs, and every
node neither diffed nor reported already holds what the new code would compute.

**Building** (`Layers`, `CacheKey`, `Build`, `Order`). Dependency waves, the length-prefixed cache
key, and the build loop through the cache. A build gives what analysing without a cache gives, from
any sound cache, and in any valid order.

**Layered configuration** (`Config`). Recording, liveness, and rebuilding the nested table; the
reference is writing every setting in order, where a write replaces scalar ancestors and whole
subtrees.

**Health** (`Findings`, `Health`, `Probe`, `Pass`). Registered checks and the warehouse answer as
they like: an error, a timeout, answers about other nodes, two answers, none. A run, its record,
and the condition language of probes with its parser and its three-valued evaluator.

**Entity-relationship models** (`Erd`, `ErdRows`). Facts become keys, keys decide cardinalities, and
cardinalities are given a meaning over rows.

**Text** (`Redact`, `RedactRanges`, `Freshness`). The fail-closed quote scanner with what it removes by
positions of the line, and durations as text.

`Fixpoint` holds least closed sets and walks, shared by the worklists; `Prelude` holds what all use.

## Where the code and its documentation differ

The model follows the code.

- `crates/ods-lineage/src/observed.rs:162-166` says that without trust every change to what a
  stitched node reads still makes it run. The observed reads replace the analysed ones, so a node
  whose SQL reads a relation that it neither declares nor was observed reading may be lost.
  `Observed.StitchingCanHideANode` gives such a graph.
  `Observed.StitchingKeepsNodesExactlyWhenLostReadsCovered` gives the exact condition: whoever no
  longer reads a relation still reads, directly or through other nodes, what some opaque reader of
  that relation builds. Keeping all the reasons as well takes more:
  `Observed.StitchingKeepsEvidenceExactlyWhenReadsKept`.
- `crates/ods-lineage/src/impact.rs:105` says that an added column impacts only readers that select
  `*`. It also impacts readers that use its name from another relation (`impact.rs:182-196`).
- `crates/ods-lineage/src/impact.rs:171` and `impact.rs:240` share one guard between added and
  modified columns, so one can hide the other, and with it a node that only the other reaches.
  `Clash.EveryRunHidesOne` gives a project and a change list on which every run leaves out a node.
  `Impact.ReportIsFullExactlyWhenNothingHeardIsWithheld` says of any run exactly when its report is
  complete, and `Impact.UnheardClashesAreHarmless` and `Impact.ClashHides` what the graph and the
  given changes alone tell.
- `crates/ods-lineage/src/cache.rs:54-56` says that a stale result is never reused. Two relations
  that read the same when their parts are joined by dots share a key: `CacheKey.DottedNamesCollide`;
  `CacheKey.StreamDeterminesInputs` says exactly what a key determines.
- `crates/ods-health/src/lib.rs:736-737` says that answers about nodes outside the scope are
  ignored. One such answer voids all answers of that check (`lib.rs:392-403`).

## Model

| member | source | states |
|---|---|---|
| Lineage.FromNodes | crates/ods-lineage/src/graph.rs:73-122 | the consumers and readers indexes it fills agree with a plain scan of every node's lineage and declared dependencies |
| Lineage.IndexUses | crates/ods-lineage/src/graph.rs:73-122 | adds to the consumers index exactly the uses of one node |
| Impact.Propagate | crates/ods-lineage/src/impact.rs:106-214 | stops on every graph, cyclic ones included; its report is that of a set between the given changes and all they cause, sending one change per node and column name; if readers have no use for the columns reached both as added and as modified, it is the report of the whole closure, so order and repetition of the input do not matter |
| Impact.VisitReader | crates/ods-lineage/src/impact.rs:122-199 | applies to one reader exactly the effects the rules give, and queues one onward change for each new mark |
| Impact.Record | crates/ods-lineage/src/impact.rs:216-260 | one effect changes one node's entry, and is sent on unless the node already has its mark |
| Impact.Prune | crates/ods-lineage/src/impact.rs:202-212 | lists exactly the readers of changed relations that nothing impacts, each with the changed columns |
| Impact.DisjointNamesNeverClash | crates/ods-lineage/src/impact.rs:154-181 | added names disjoint from every analysed output's are enough for the whole closure to be followed |
| Impact.NothingAddedNeverClashes | crates/ods-lineage/src/impact.rs:106-214 | so is having no added columns |
| Impact.ReportIsFullExactlyWhenNothingHeardIsWithheld | crates/ods-lineage/src/impact.rs:171-240 | for every graph, change list and run: the report is that of everything caused if and only if the guard withholds no change that a reader has a recorded use for |
| Impact.UnheardClashesAreHarmless | crates/ods-lineage/src/impact.rs:171-240 | if readers have no use for either kind wherever a column is reached both as added and as modified, every run reports everything |
| Impact.NothingHidden | crates/ods-lineage/src/impact.rs:171-240 | if no column is reached both ways, every run follows everything that is caused, whatever changes are given |
| Impact.FollowsAllExactlyWhenNoClash | crates/ods-lineage/src/impact.rs:171-240 | what a run follows, rather than reports: with relations of their own and given columns that nothing else marks, it follows everything if and only if no column is reached both ways |
| Impact.ClashHides | crates/ods-lineage/src/impact.rs:171-240 | where both kinds of change to a column are caused, no run follows both; where readers have uses for both, no run's report is complete |
| Clash.EveryRunHidesOne | crates/ods-lineage/src/impact.rs:171-240 | a concrete project in which two nodes are caused to change and every run's report leaves out one of them |
| Clash.AddedHidesANode | crates/ods-lineage/src/impact.rs:106-214 | building that project and propagating the changes, in any order, gives such a report |
| Impact.ReportedIsChained | crates/ods-lineage/src/impact.rs:98-214 | a reported node has a chain of effects leading to it from a given change, and, unless a clash is heard, every node with such a chain is reported |
| Impact.ReadersAreReportedOnce | crates/ods-lineage/src/impact.rs:202-212 | every reader of a changed relation is impacted or pruned, never both |
| Impact.PrunedUsesNothing | crates/ods-lineage/src/impact.rs:202-212 | a pruned reader has known lineage, reads the relation in its SQL and uses none of its changed columns |
| Impact.EffectIsReported | crates/ods-lineage/src/impact.rs:122-199 | every reader that a processed change affects is in the report |
| ImpactReasons.EffectIs | crates/ods-lineage/src/impact.rs:122-258 | the propagation rules do to a node exactly what its outputs, row inputs, wildcards, reads and declared dependencies say: one condition for each reason, name capture by row inputs included |
| ImpactReasons.ReportExactly | crates/ods-lineage/src/impact.rs:106-214 | told from the nodes' lineage alone, for any set of changes: a node is reported if and only if a change touches it, with exactly the reasons, changed columns and changed rows that there are, and a reader is pruned if and only if nothing touches it |
| ImpactReasons.ImpactExactly | crates/ods-lineage/src/impact.rs:106-260 | every report of the worklist is that of the changes it followed: the given ones, the rows and one change for each column of every touched node, all sent by a node and caused by the given changes |
| NonInterference.ImpactIsComplete | crates/ods-lineage/src/impact.rs:95-214 | on an acyclic graph with sound lineage, for any report that a run of the worklist gives: two runs of the project that differ only by the given changes agree on every node not reported and not given, and, where rows are not reported, on every column not reported; added columns included when they are read only through `*` or by nodes given themselves |
| NonInterference.RunsSpread | crates/ods-lineage/src/impact.rs:106-260 | every run of the worklist passes every effect on, if not always as the same kind of change, and follows nothing that no effect sends |
| NonInterference.EverythingCausedSpreads | crates/ods-lineage/src/impact.rs:106-214 | following everything that is caused does so too, so the results below hold for the whole closure as well |
| NonInterference.UncausedIsSame | crates/ods-lineage/src/impact.rs:95-214 | whatever such a set does not hold is the same in both runs of the project |
| NonInterference.PassedIsReported | crates/ods-lineage/src/impact.rs:122-199 | every followed change that is not given is in the report of the node that builds its relation |
| NonInterference.NoneAddedThroughStars | crates/ods-lineage/src/impact.rs:106-214 | without added columns the hypothesis on them holds by itself |
| Breaks.FindBreaks | crates/ods-lineage/src/breaks.rs:63-104 | stops on every graph and gives the report of the least set of losses, whatever the order |
| Breaks.Visit | crates/ods-lineage/src/breaks.rs:106-163 | one loss does to all readers of its relation exactly what the rules give |
| Breaks.BrokenExactly | crates/ods-lineage/src/breaks.rs:63-163 | a node is broken by a column if and only if the column is reachable from the removed ones by `select *` pass-through and the node's SQL uses it otherwise |
| Breaks.DroppedExactly | crates/ods-lineage/src/breaks.rs:63-163 | a node drops a column if and only if it passes on a lost column under that name and nothing is broken about the node |
| Breaks.UnknownExactly | crates/ods-lineage/src/breaks.rs:63-163 | a node is unknown if and only if nothing is broken about it and a lost column reaches it out of sight, through opaque nodes and `select *` from where it was last recorded; its columns and relations are exactly those |
| Breaks.ReadersAreAccountedFor | crates/ods-lineage/src/breaks.rs:106-163 | every other reader of a lost column drops that column, is unknown for it, or has no recorded use of it |
| Breaks.CertainWins | crates/ods-lineage/src/breaks.rs:95-103 | a broken node is never also dropped or unknown |
| Breaks.PassesOnExactly | crates/ods-lineage/src/breaks.rs:138-152 | a node passes a column on if and only if it selects `*` and an output of that name is the column itself |
| Breaks.NamesExactly | crates/ods-lineage/src/breaks.rs:138-160 | a node's SQL names a column if and only if the column shapes its rows or feeds an output other than by such a `*` |
| Breaks.ReadsUnknownExactly | crates/ods-lineage/src/breaks.rs:121-137 | a reader is unknown if and only if its SQL was not analysed or does not read what it declares |
| Observed.LineageFor | crates/ods-lineage/src/observed.rs:266-326 | what is observed about a relation: one output per written column with exactly the observed inputs, nothing when no relation was read |
| Observed.ObservedIsRecorded | crates/ods-lineage/src/observed.rs:266-326 | observed lineage holds exactly the recorded reads, row inputs and column edges of the relation |
| Observed.WithObserved | crates/ods-lineage/src/observed.rs:168-190 | exactly the opaque nodes with observed reads take observed lineage, every other node is unchanged, and the indexes agree again |
| Observed.StitchingKeepsNodesExactlyWhenLostReadsCovered | crates/ods-lineage/src/observed.rs:158-190 | without trust, no change list without additions loses a node if and only if whoever no longer reads a relation still runs for it through another of its unknown readers |
| Observed.StitchingKeepsEvidenceExactlyWhenReadsKept | crates/ods-lineage/src/observed.rs:158-190 | and every such list keeps each node with all its reasons if and only if what stitched nodes' SQL read is declared or was observed |
| Observed.LostReaderIsHidden | crates/ods-lineage/src/observed.rs:168-190 | a lost read with no other reader leaves the impact empty |
| Observed.StitchingCanHideANode | crates/ods-lineage/src/observed.rs:168-190 | a concrete graph where stitching removes a node from an impact |
| Observed.DeclaredStillRuns | crates/ods-lineage/src/observed.rs:165-166 | even trusted, a relation a node declares but was not observed reading keeps making it run |
| Diff.Compare | crates/ods-lineage/src/diff.rs:54-128 | reports each column once, in the order of names, as added, removed or modified (other digest, or moved among the shared columns), or only a change of rows |
| Diff.EmptyExactlyWhenSame | crates/ods-lineage/src/diff.rs:54-128 | nothing is reported if and only if both analyses exist, neither is opaque or repeats a name, row digests agree, and names and digests agree in order |
| Diff.EachColumnAtMostOnce | crates/ods-lineage/src/diff.rs:93-125 | no column is reported in two ways, and no column beside a change of rows |
| Diff.OldRunIsNewRun | crates/ods-lineage/src/diff.rs:50-128 | if digests tell code apart, what the old code computed the new code computes, except where a diff says otherwise |
| Diff.ReplanIsSafe | crates/ods-lineage/src/diff.rs:50-128 | for any report the worklist gives on the diffs, a node neither diffed nor reported holds after the old run what the new code gives |
| Layers.TopologicalSort | crates/ods-core/src/graph.rs:35-64 | an order of all ids after their dependencies, or nothing if and only if there is a cycle |
| Layers.Layer | crates/ods-core/src/graph.rs:35-64 | each id once with the length of its longest incoming path, by depth and then id; fails if and only if there is a cycle |
| Layers.Depths | crates/ods-core/src/graph.rs:35-64 | the number filled in for each id is the length of the longest path into it |
| Layers.NoGap | crates/ods-core/src/graph.rs:35-64 | below a deep id there is one exactly one less deep |
| Layers.Waves | crates/ods-lineage/src/build.rs:152-177 | the schedule with every node in the wave of its depth, and the declared dependencies that do not exist; fails if and only if there is a cycle |
| Layers.FillWaves | crates/ods-lineage/src/build.rs:168-175 | adding at most one wave per item is always enough: no item is put out of bounds |
| Layers.ScheduleIsUnique | crates/ods-lineage/src/build.rs:152-177 | there is only one such schedule |
| Layers.DependenciesComeFirst | crates/ods-lineage/src/build.rs:151-177 | every other known dependency of a node is in an earlier wave |
| CacheKey.Key | crates/ods-lineage/src/cache.rs:57-84 | the key is the digest of the length-prefixed stream of version, SQL and upstream columns |
| CacheKey.FieldsInjective | crates/ods-lineage/src/cache.rs:63-67 | length-prefixed fields split back only one way |
| CacheKey.StreamDeterminesInputs | crates/ods-lineage/src/cache.rs:57-84 | two streams are equal if and only if version, SQL and the upstream list as shown are, unknown versus empty columns included |
| CacheKey.KeyIsInjective | crates/ods-lineage/src/cache.rs:57-84 | without dots inside relation parts, equal streams mean equal inputs |
| CacheKey.DottedNamesCollide | crates/ods-lineage/src/cache.rs:72 | with a dot inside a part, two relations share a stream |
| Order.Listing | crates/ods-lineage/src/build.rs:211-216 | the relations in sort order, each once |
| Build.MemoryCache.Put | crates/ods-lineage/src/cache.rs:44-49 | stores one entry and keeps the others |
| Build.MemoryCache.Get | crates/ods-lineage/src/cache.rs:36-43 | gives what was stored under the key, if anything |
| Build.AnalyzeNode | crates/ods-lineage/src/build.rs:182-259 | through a sound cache, a node gets what it gets without one, and the cache stays sound for this analyzer and for every other version |
| Build.PutKeepsSound | crates/ods-lineage/src/build.rs:230-239 | storing a result whose reads the key covers keeps a cache sound |
| Build.CoveredExplains | crates/ods-lineage/src/build.rs:230-239 | a covered result of a local analyzer holds wherever the covered columns are the same |
| Build.Index | crates/ods-lineage/src/build.rs:133-149 | all ids and relations differ, or the error is about the first node that repeats one, its id before its relation, and names the nodes that share it |
| Build.AnalyzeWave | crates/ods-lineage/src/build.rs:92-105 | a wave is analysed against one view of the known columns, with its first failure if any |
| Build.BuildGraph | crates/ods-lineage/src/build.rs:72-126 | from any sound cache, which it keeps sound, also for every other version, the graph or the error is that of the reference run without a cache; and every node of the graph has its analysed outputs or declared columns, its declared relations in order, the lineage that the analyzer gives on the final columns of what it declares, and the key of that |
| Build.BuiltIsWhole | crates/ods-lineage/src/build.rs:72-259 | the same of any result of the reference run, told from the project and the nodes of the graph alone; the missing dependencies are exactly the declared ids that are not in the project, and the analyzer fails only on the SQL of a node of the project |
| Build.AnalyzedIs | crates/ods-lineage/src/build.rs:182-259 | an analysed node has its own name, the lineage the analyzer gives, its outputs as columns or else the declared ones, and a key exactly with SQL |
| Build.CacheIsInvisible | crates/ods-lineage/src/build.rs:72-126 | only one result meets what a build promises, so two builds of one project give the same nodes and statistics or the same error |
| Build.SameAsFromEmpty | crates/ods-lineage/src/build.rs:72-126 | a build from any sound cache gives what a build from an empty one gives |
| Build.DependenciesAreProper | crates/ods-lineage/src/build.rs:72-126 | a model that selects `*` from a declared dependency meets all that a build demands |
| Build.OrderDoesNotMatter | crates/ods-lineage/src/build.rs:65-126 | when queries read only what they declare, any two valid schedules give the same nodes or both fail |
| Build.WavesEqualOneAtATime | crates/ods-lineage/src/build.rs:65-126 | so building in waves equals analysing one node at a time in any topological order |
| Config.Layers.Record | crates/ods-config/src/load.rs:209-216 | the history is that of the log with one more entry, numbered by its place |
| Config.HistoryIsWhole | crates/ods-config/src/load.rs:209-216 | the history of a key is every setting of it in the log, in order, each with its place and source |
| Config.LiveKeysNeverConflict | crates/ods-config/src/load.rs:506-520 | no live key is an ancestor of another |
| Config.Unflatten | crates/ods-config/src/load.rs:524-543 | rebuilding the live settings in any order never meets a leaf in its way and gives the table that writing every setting in order gives |
| Config.LiveIsWritten | crates/ods-config/src/load.rs:506-543 | writing every setting in order leaves exactly the live keys, each with its latest value |
| Config.Flatten | crates/ods-config/src/load.rs:483-502 | lists exactly the leaves of a table with their paths |
| Config.LeavesAreEnds | crates/ods-config/src/load.rs:483-502 | a leaf is the end of a path through nested tables that are not secret references: a scalar, a list or a secret reference |
| Config.LeavesNeverConflict | crates/ods-config/src/load.rs:483-502 | no leaf of a table is an ancestor of another |
| Config.LayerOverrides | crates/ods-config/src/load.rs:225-262 | a later layer sets its own leaves, drops what conflicts with them and keeps everything else |
| Config.SiblingsSurvive | crates/ods-config/src/load.rs:225-262 | a layer that sets one key inside a table leaves the other keys of that table as they were |
| Findings.OnlyAnswerIsOnly | crates/ods-health/src/lib.rs:404-431 | the answer that counts is there, and no other answer has its id |
| Health.RunRegistered | crates/ods-health/src/lib.rs:339-444 | whatever a check answers, every node of the scope gets exactly one more finding: skipped if not selected, unknown unless the answer counts |
| Health.RegisteredPassIsEarned | crates/ods-health/src/lib.rs:384-431 | a registered check passes a node if and only if it was asked about it, answered about nothing else, and answered Pass about it exactly once |
| Health.RegisteredIsExact | crates/ods-health/src/lib.rs:384-444 | its finding is its own answer about the node if it was asked about it, answered about nothing else and exactly once; skipped if not selected; and unknown in every other case |
| Health.LiveIsExact | crates/ods-health/src/lib.rs:738-760 | the enabled in-process checks give exactly their own judgement of the nodes they are for and skip the others |
| Health.RunScript | crates/ods-health/src/lib.rs:792-821 | a script that is not trusted or has no runner decides nothing, and still gives every node one finding |
| Health.HeldScriptDecidesNothing | crates/ods-health/src/lib.rs:792-821 | a script runs as a registered check if and only if it is trusted and has a runner; otherwise it is unknown about its nodes and skips the others |
| Health.Run | crates/ods-health/src/lib.rs:738-832 | with unique ids, every node's findings are those of its checks in order, under the badge rule |
| Health.EachCheckFindsOnce | crates/ods-health/src/lib.rs:738-832 | every node's findings are one from each check that ran, in the report's order, those worked out live first |
| Health.RecordRebuildsBadge | crates/ods-health/src/record.rs:72-129 | evaluating the same facts with the record of a run gives each node the badge of the run |
| Health.UncoveredIsNeverHealthy | crates/ods-health/src/record.rs:105-129 | a node newer than a record that holds any check is never healthy |
| Health.HealthMeans | crates/ods-health/src/lib.rs:1241-1280 | failing exactly on an error; healthy exactly when something passed, nothing failed above info and nothing is in doubt; a warning exactly without errors on a failed warning or a doubt, unless doubts count as unknowable; and unknowable otherwise |
| Health.BadgeSaysWhy | crates/ods-health/src/lib.rs:1244-1280 | a badge gives exactly the reasons of what failed at its level or could not decide, and when it is healthy those of the build and its tests |
| Probe.LoginCheck | crates/ods-health/src/probe.rs:744-796 | a target counts as read-only exactly when the reply is about nothing else and says so exactly once |
| Probe.Admit | crates/ods-health/src/probe.rs:582-626 | lets through exactly the read-only targets, or all when the run allows it, with every override on record |
| Probe.Judge | crates/ods-health/src/probe.rs:644-690 | each target asked about gets the verdict on the first row of its one answer, or unknown |
| Probe.RunOn | crates/ods-health/src/probe.rs:554-651 | the login is asked about exactly the ready and built nodes, the query goes out exactly for those that the connection's own reply and the settings let through, and every node gets its one finding |
| Probe.RunAll | crates/ods-health/src/probe.rs:801-845 | whatever the connections reply: each enabled probe asks only past its guards, takes the replies that its connection gives, gives each node one finding in probe order, and is listed as unmatched exactly when it selects nothing |
| Probe.QueryPassesEveryGuard | crates/ods-health/src/probe.rs:489-651 | a query is sent about a node only if selected, chosen, read-only checked, trusted, built, and under a login that its connection reported read-only exactly once or that is overridden on record |
| Probe.EveryAllowedNodeIsAsked | crates/ods-health/src/probe.rs:489-651 | and it is sent about every such node |
| Probe.OnRecordExactlyWhenOverridden | crates/ods-health/src/probe.rs:583-609 | a node is on the record of overrides if and only if a query went out about it under a login that its connection did not show to only read |
| Probe.PassIsEarned | crates/ods-health/src/probe.rs:655-732 | a node passes a probe only on exactly one answer, in a reply of the connection to that query, among answers about nothing else, with the condition holding on its first row |
| Probe.EveryStatus | crates/ods-health/src/probe.rs:489-732 | the status of every probe about every node: skipped if not selected, unknown if any guard holds it back, and otherwise what the connection's reply to the query says: pass, fail or unknown by the verdict on the first row of the one answer |
| Probe.ReadOnlyIsSaid | crates/ods-health/src/probe.rs:744-796 | a login is reported read-only if and only if every answer is about something asked and exactly one is about this node and says so |
| Pass.Parser.ParseOr | crates/ods-health/src/pass.rs:195-202 | reads from the cursor what the grammar's `or` level reads and stops after it, or gives the same error |
| Pass.Parser.ParseAnd | crates/ods-health/src/pass.rs:204-211 | the same for the `and` level |
| Pass.Parser.ParseAtom | crates/ods-health/src/pass.rs:213-260 | the same for a comparison or parentheses |
| Pass.Parse | crates/ods-health/src/pass.rs:265-280 | accepts a token list with a tree if and only if the grammar derives that tree from all of it |
| Pass.ParsesExactly | crates/ods-health/src/pass.rs:195-280 | soundness and completeness of the parser against the left-recursive grammar in which `and` binds tighter than `or` |
| Pass.GrammarIsUnambiguous | crates/ods-health/src/pass.rs:195-280 | a token list derives at most one condition |
| Pass.ShownIsReadBack | crates/ods-health/src/pass.rs:195-280 | parsing the fully parenthesised form of any well-formed condition gives it back |
| Pass.AcceptedIsReadBack | crates/ods-health/src/pass.rs:213-260 | whatever is accepted is well formed, so it can be printed and read back |
| Pass.ThreeTokensRead | crates/ods-health/src/pass.rs:213-260 | a name, an operator and a third token are a condition if and only if the name is no keyword in any case and the third spells a number, or a text or truth value compared by `=` or `!=` |
| Pass.ConnectivesInAnyCase | crates/ods-health/src/pass.rs:195-211 | `and` and `or` join conditions in any case |
| Pass.VerdictIsExact | crates/ods-health/src/pass.rs:302-375 | a verdict is Pass (or Fail) if and only if the condition holds (or fails) under every way the comparisons that the row does not show can turn out |
| Pass.NumbersCompare | crates/ods-health/src/pass.rs:319-348 | a number is compared with the cell on the left; a missing column or a cell that is no number decides nothing |
| Pass.TextsCompare | crates/ods-health/src/pass.rs:319-350 | a text is compared with the whole trimmed cell, and only a missing column decides nothing |
| Pass.TruthsCompare | crates/ods-health/src/pass.rs:319-364 | a truth value is compared with a cell that spells one in any case, and any other cell decides nothing |
| Pass.OperatorsAreAnOrder | crates/ods-health/src/pass.rs:341-348 | one of `<`, `=` and `>` holds, the other three are their negations, and a larger literal only makes `<` hold more often |
| Pass.VerdictSurvivesMoreColumns | crates/ods-health/src/pass.rs:302-375 | a decided verdict survives any columns added to the row |
| Pass.OnlyColumnsMatter | crates/ods-health/src/pass.rs:282-316 | only the columns a condition names matter to it |
| Erd.AddKey | crates/ods-erd/src/build.rs:97-117 | the first key on the same columns gains the evidence and the stronger basis, or a new key is added |
| Erd.AddingLosesNothing | crates/ods-erd/src/build.rs:97-117 | an added key is there with its evidence and at least its basis, every earlier key keeps its evidence and basis, and no evidence or basis is invented |
| Erd.ResolvesExactly | crates/ods-erd/src/build.rs:42-61 | names are resolved if and only if the entity is there and has no known columns or, case aside, all of them, and then to the first column that matches in its spelling; otherwise what is missing is the entity or the first name without a match |
| Erd.ApplyFact | crates/ods-erd/src/build.rs:167-299 | the fact takes effect if what it names is there, and otherwise the first thing missing is reported; earlier facts keep their effect, nothing is recorded that no fact says, and nothing reported that no fact warrants |
| Erd.ApplyFacts | crates/ods-erd/src/build.rs:159-231 | the same for all facts: no trusted uniqueness fact is lost, a primary key gives way only to a stronger one, and a conflict is reported only between facts that state different primary keys |
| Erd.Promote | crates/ods-erd/src/build.rs:336-378 | the first unique key whose columns are all not null becomes primary, else the first smallest composite one; several such keys are reported |
| Erd.Qualifying | crates/ods-erd/src/build.rs:340-353 | finds the first unique key whose columns are all not null, and whether there is another |
| Erd.Composite | crates/ods-erd/src/build.rs:354-362 | finds the first of the composite keys with the fewest columns |
| Erd.PromotionKeepsKeys | crates/ods-erd/src/build.rs:332-379 | promotion changes nothing about which columns are trusted keys |
| Erd.GuessKeepsKeys | crates/ods-erd/src/build.rs:560-585 | nor does guessing a primary key |
| Erd.ResolveJoins | crates/ods-erd/src/build.rs:384-426 | a join refers to the side whose columns are a key, the right one if both are, and its cardinality is unknown if neither is |
| Erd.FinishRelationships | crates/ods-erd/src/build.rs:478-528 | relationships with the same ends become one with the strongest basis and exactly all the evidence, and its cardinality is what the trusted keys of both ends say, whatever the order of merging |
| Erd.Build | crates/ods-erd/src/build.rs:121-156 | goes through its stages in order; every trusted key and every relationship that is not a guess comes from a fact, every fact takes effect if the names it uses are there and is reported otherwise, every diagnostic but that of several keys is warranted by facts, every foreign key and join has its relationship, and cardinalities are exactly what the keys allow |
| ErdRows.TrustedKeysAreUnique | crates/ods-erd/src/build.rs:77-85 | columns that the model takes for a trusted key are unique in every database where the declared and tested facts hold |
| ErdRows.NoFanOut | crates/ods-erd/src/build.rs:509-527 | in such a database a relationship that is not a guess, unless Unknown, matches each referencing row to at most one referenced row, and OneToOne holds both ways |
| Redact.FindTag | crates/ods-core/src/redact.rs:128-129 | finds the first closing tag |
| Redact.FindClose | crates/ods-core/src/redact.rs:150-163 | finds the first quote of the kind that is not doubled |
| Redact.LineSpans | crates/ods-core/src/redact.rs:96-178 | the index-driven scan gives the line with its spans replaced, or cut at the first opening |
| RedactRanges.NextAt | crates/ods-core/src/redact.rs:75-178 | by positions of the line: a quote, a dollar tag or a doubtful apostrophe opens a span and nothing else does; it ends at the first undoubled quote of its kind or after the first tag like it, unless a backslash or a letter puts that in doubt |
| RedactRanges.ScrubbedIs | crates/ods-core/src/redact.rs:96-178 | a scrubbed line is the line with exactly those ranges replaced, or cut before its first opening when one has no end that can be told |
| RedactRanges.EveryLineReads | crates/ods-core/src/redact.rs:96-178 | every line reads as text around such ranges |
| Redact.Spans | crates/ods-core/src/redact.rs:65-74 | the same for every line of a text |
| Redact.LinesRejoin | crates/ods-core/src/redact.rs:65-74 | the lines put together again are the text |
| Redact.NothingQuotedIsLeft | crates/ods-core/src/redact.rs:54-178 | no double quote or backtick is left, every `'` left directly follows a letter, digit or underscore, and between any two `$` left stands something other than a word |
| Redact.RedactingTwiceIsRedactingOnce | crates/ods-core/src/redact.rs:65-178 | removing spans again changes nothing |
| Redact.UnreadableIsCut | crates/ods-core/src/redact.rs:100-103 | if any span of a line cannot be read, exactly the text before its first opening is kept |
| Redact.SpanContentsNeverShow | crates/ods-core/src/redact.rs:96-178 | two lines that differ only inside spans, any of them, come out the same, also when a later span cannot be read |
| Redact.ScrubbedIsClean | crates/ods-core/src/redact.rs:96-178 | no character of a scrubbed line opens a span |
| Freshness.ParseDuration | crates/ods-core/src/freshness.rs:127-159 | gives a number if and only if the text is counts and units whose exact unbounded sum fits in 64 bits, and then that sum |
| Freshness.PeriodsAre | crates/ods-core/src/freshness.rs:163-172 | the names of the periods, in any case, and their seconds |
| Freshness.WrittenIsParsed | crates/ods-core/src/freshness.rs:127-159 | counts and periods read as their sum if it fits in 64 bits, however they are spaced and whatever case and length their names have |
| Freshness.FormatDuration | crates/ods-core/src/freshness.rs:175-195 | the loop over the units gives the printed form that the round trip is about |
| Freshness.PrintedIsParsed | crates/ods-core/src/freshness.rs:127-195 | parsing what is printed for any 64-bit number of seconds gives the number back |
| Freshness.PrintingIsInjective | crates/ods-core/src/freshness.rs:175-195 | different numbers are printed differently |

## Left out

- Build.BuildGraph: every name and column list that a run meets fits a 64-bit length and no name part holds a dot, because otherwise keys collide (Build.DependenciesAreProper shows a project that meets this); the counters of cached, analysed and opaque nodes are not modelled, and a wave's threads are modelled as one node after another against one view of the known columns, each seeing any sound cache; interleavings inside one cache access are not.
- Build.AnalyzeNode: the analyzer is any function whose result depends on its SQL and on the columns of the relations it reports reading; SHA-256 and UTF-8 are any injective functions.
- CacheKey.KeyIsInjective: relation parts hold no dot and lengths fit 64 bits, because otherwise it is false; StreamDeterminesInputs has the exact condition.
- Impact.FollowsAllExactlyWhenNoClash: a given change that names a column which an effect also marks is excluded, because what a run then follows depends on the order of the queue; the condition on the report has no such exclusion.
- NonInterference.ImpactIsComplete: a column added upstream is assumed to be read only through `*`, under its own name, or by nodes whose own change is given; a name captured by an added column is covered by the worklist's rule but has no meaning in the semantics.
- Observed.WithObserved: the comparison of static and observed lineage (precision, recall) is not modelled, nor are confidence marks and digests of observed outputs.
- Diff.Compare: the library's sort is replaced by insertion in the order of names.
- Layers.TopologicalSort: the library's sort is replaced by one that takes any id whose dependencies are taken; which cycle an error names is not modelled.
- Config.LayerOverrides: reading files, selecting a profile, environment variables and validation are not modelled; a layer is any recorded table.
- Health.Run: built-in and declared checks are any functions of the facts a host has, with any selection; coverage targets, message wording and evidence beyond what a check answers are not modelled. Nothing is claimed for a scope that repeats a node id.
- Health.RecordRebuildsBadge: recorded checks have different ids, which registration enforces (crates/ods-health/src/lib.rs:669-682) and which is not modelled; the record is not written to or read from a file.
- Probe.RunAll: choosing a query for a warehouse, trust digests, the wording of findings and the row evidence are not modelled; each call to the warehouse is an arbitrary reply.
- Pass.Parse: it starts from tokens; splitting text into tokens is not modelled. Numbers are reals and reading a cell as a number is any function.
- Erd.Build: naming guesses are arbitrary (any keys for entities without one, any relationships labelled as inferred); display fields and column flags are not modelled.
- ErdRows.NoFanOut: says nothing about `optional` or `not_null`, which a promoted composite key sets without a not-null fact (crates/ods-erd/src/build.rs:372-377).
- Redact.LineSpans: letters and digits are any classification in which quotes, brackets, spaces, line ends and `$` are neither; prefixes are compared in ASCII. Number, assignment and SQL removal are not modelled.
- Freshness.ParseDuration: white space is any classification in which letters and digits are not; the error text is not modelled.
- Sorted iteration over maps is modelled as any order wherever the result does not depend on it.
- Command-line wiring, rendering, JSON-RPC dispatch, the dashboard, file and trust stores, and third-party parsing are not modelled.
