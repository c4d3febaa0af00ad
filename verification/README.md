# krply, verified

krply records Kubernetes watch events in an append-only journal and rebuilds cluster state from
it. This project models the parts of krply whose correctness is hard to see from one function and
proves what they promise. `dafny verify dfyconfig.toml` checks everything. No proof
uses automatic induction: lemmas Dafny would apply it to carry `{:induction false}`.

## What is modelled

**The recording protocol.** `Watch` is the collector's list/watch/gap loop, written as the code
writes it (`Collector.RunStream`, `ListAndBaseline`, `DrainWatch`) and proved equal to a function of
the server's answers, with other streams' appends in between. `Journal` says what a journal keeps;
`MemoryStore` is the in-memory store with its maps and counter, updated in place. `Reducer` is the
reduce loop with its declarative meaning. `Server` is an abstract API server: a growing history of
revisions and the collection they make. `Protocol` puts these together as a transition system whose
steps are server writes, compaction, list, deliver, redeliver, bookmark, 410, disconnect or idle
timeout, store failure (durable or not), process stop and restart, and appends of other streams.
`Coverage` holds the invariant, `Safety` the theorems over whole runs: a reconstruction that reports
a baseline and no gap is the server's collection at one revision it really passed through, for every
time cut; no cut splits a list; nothing is lost silently; every relist inside one process is
explained by a gap; redelivery changes nothing. `Order` proves that later cuts show later revisions,
and when. `Simulation` proves that every run of the collector's loops, over any number of processes,
is a run of the transition system, so those theorems hold of the loops, down to a method that
records, reads back and reduces (`Simulation.RecordAndReconstruct`). `Provenance` proves that every
journalled record says what the server said, field by field, with the server's own name for each
object. `PointLookup` relates the point
lookup to the full reduction, `Cluster` reconstructs a whole cluster.

The environment hypotheses are the guards of `Protocol.Enabled`: a list shows the exact collection
of one revision, no older than any live event already journalled for the stream; a watch sends the
changes after its start in order, possibly repeatedly; a bookmark follows every change before it;
resource versions are distinct, and where two compare as integers they compare in server order;
clock readings do not go back, and those of two lists differ; names hold neither NUL nor '/'. Two of
these were found to be needed, and `Hypotheses` proves exactly what each is for, on any journal. A
change after a list's revision stands in the reconstruction if and only if its key was not known
before the list, so nothing is lost if and only if no journalled live event is newer than the list;
with a list older than one the claim can fail (`StaleListBreaksTheClaim`), and `Staleness` proves
when the last revision is shown all the same. A listed object is shown if and only if its synthetic
key was not known, so a second list at one clock reading shows only what the first did not
(`ListsAtOneInstant`). Nondecreasing observation times alone are therefore not enough.

**The stores.** `SqlStore` is the SQLite store: two tables, a partial unique index, transactions
with faults before and after the insert, row numbers that only grow, times as text. `Clock` is the
fixed-width timestamp format (section 5.1 of RFC 3339) over the proleptic Gregorian calendar.
`SqlRefines` proves that the SQLite store refines the journal of the in-memory store exactly when no
deduplication key stands for two rows, and `SqlSafety` carries the protocol's main claim over to
reconstructions from SQLite. `Identity` is the stream identifier, with percent-encoding (section 2.1
of RFC 3986), and the event identifier.

**The semantic diff.** `Json` values, `Paths` (the printer of paths in Go, the parser of the web
UI), `Diff` (the recursion that appends to a shared list), `Patch`, `DiffExact` and `Report` (the
diff as a patch, what an empty diff means, exactly which changes are reported and how deep, paths
that are pairwise apart, and the report as text).

**The replay planner.** `Sanitize` (a payload changed in place), `SanitizeLaws` and `SanitizeExact`
(idempotence, exactly what goes, and that sanitizing hides everything the diff ignores), `Plan`,
`PlanLaws` and `PlanExact` (what a plan holds, read off the decoded payloads), `Apply` and
`ApplyExact` (the dry-run/apply status machine and what is sent to the cluster).

**Reading.** `Pages` and `SqlPages` (cursor pagination over either store), `Timeline` (the command
line's timeline, with the exact condition for cutting it at an instant) and `RecordedTimeline`
(recorded journals always meet it).

`Text`, `Seqs` and `Keys` are the common ground: byte strings, stable sorting, sorted key lists.

Where code and documentation disagree the model follows the code. docs/consistency/consistency.md:31
says resource versions are never parsed as integers; internal/watch/stream.go:287-294 parses them to
skip bookmarks that lie behind. The comment at internal/materialize/diff.go:51-53 says ignored
fields are ignored only at their own path; because an empty leading key leaves no trace in a printed
path, fields below an empty top-level key are ignored too (`Patch.HiddenStatusIsNotReported`), and
`Patch.SameEssence` gives the exact condition.

## Model

| member | source | states |
|---|---|---|
| Safety.CompleteCutsAreReal | internal/materialize/materialize.go:97-180 | in every state of every run and for every time cut, a reduction with a baseline and no gap is exactly the server's collection at one real revision |
| Order.LaterCutsShowLaterRevisions | internal/materialize/materialize.go:97-121 | as long as no list the journal took is older than one before it, one nowhere falling assignment of revisions to times serves all cuts of a state, whatever bookmarks and failed writes came in between |
| Order.OlderListGoesBack | internal/watch/stream.go:130-133 | with an older list after a restart there is a run, all guards met, that has no such assignment |
| Safety.JournalKeepsUp | internal/watch/stream.go:52-124 | while the collector holds a resource version the whole journal reports a baseline and no gap and shows a revision not before the one held |
| Safety.NoCutSplitsAList | internal/watch/stream.go:130-176 | in every later state, and whether or not the store reported the write, a list's batch is one block of the journal that a cut takes whole, BASELINE and synthetic ADDED events, or not at all |
| Safety.NoSilentLoss | internal/watch/stream.go:52-124 | while the collector holds a resource version, every server change after the last BASELINE's revision up to it is journalled after that BASELINE |
| Safety.RelistsAreMarked | internal/watch/stream.go:264-283 | within one process a BASELINE that named its revision is followed by a GAP before the stream's next BASELINE |
| Safety.RedeliveryChangesNothing | internal/storage/memory.go:56-76 | in any run, delivering again a change the journal holds leaves the whole journal as it is |
| Safety.RunKeepsInv | internal/watch/stream.go:36-124 | every state of every run satisfies the invariant that ties journal, collector and server history together |
| Safety.CutIsPrefix | internal/storage/memory.go:232-242 | in a journal in time order a time cut is a prefix that ends where the time moves on |
| Provenance.RunIsExplained | internal/watch/stream.go:130-283 | every record of the stream in every state of every run says what the server said, field by field: an event a change or a listed object, under the server's own namespace and name, with its uid, resource version and payload; a BASELINE, checkpoint or GAP a version the server named |
| Provenance.RecordingIsExplained | internal/watch/stream.go:36-283 | so every record of the stream that the collector's loops journal, over any number of processes |
| Provenance.NamespacesStayApart | internal/watch/helpers.go:40-54 | two objects have one object key exactly when they have one name and one namespace, that of a list standing in where an object names none |
| Hypotheses.ListShowsItsNewKeys | internal/event/stream.go:74-81 | after any list on any journal a listed object is shown exactly when its synthetic key was not known, and the reduction, which reports no gap, agrees with the listed collection exactly when none was |
| Hypotheses.ListsAtOneInstant | internal/event/stream.go:74-81 | of two lists at one clock reading the second shows exactly what neither the journal nor the first list knew; listing the same again leaves nothing, with no gap |
| Hypotheses.ChangeStandsIffUnknown | internal/watch/stream.go:130-226 | after a list at any revision on any journal and the watch from there, a later change stands after the BASELINE exactly when its key was not known before the list |
| Hypotheses.NothingLostIffNoLiveAfter | internal/watch/stream.go:130-226 | so nothing after the list is lost exactly when no journalled live key names a later change, the guard under which the protocol lists |
| Hypotheses.StaleListBreaksTheClaim | internal/watch/stream.go:130-133 | a list of the first of three revisions, on any journal that knows the second change and not the third, and then the watch: the reduction reports no gap and matches no revision of the server |
| Staleness.AgreesIffToldRight | internal/watch/stream.go:130-226 | after a list at any revision on any journal and the watch from there, the reduction agrees with the server's last revision exactly when, object by object, what its last change of unknown key left, or else the list, is what its last change left, or else the listed revision |
| Staleness.FreshLastChangesAgree | internal/watch/stream.go:130-226 | in particular when the list shows its revision and no object's last change was known, though older changes were |
| Protocol.StepKeepsInv | internal/watch/stream.go:36-283 | every enabled step of server, collector, store or environment keeps the invariant and the marks of earlier cuts, and only a list that reaches the journal moves the shown revision to where it likes |
| Protocol.OfferLive | internal/watch/stream.go:205-226 | offering the store a live event, new or redelivered, stored or failed, keeps the journal sound and complete up to the event |
| Protocol.OfferCheckpoint | internal/watch/stream.go:227-262 | the same for a bookmark's checkpoint |
| Protocol.OfferGap | internal/watch/stream.go:264-283 | the same for a gap record, which opens the gap |
| Protocol.OfferList | internal/watch/stream.go:130-176 | a list's batch is stored whole, closes the gap, and shows the listed revision |
| Protocol.PlayBatch | internal/storage/memory.go:42-54 | a batch of unknown keys is stored whole and in order after the stream's records |
| Coverage.NewLiveIdIsUnknown | internal/event/stream.go:74-81 | a change above everything journalled has a key no stored record has |
| Coverage.NewSyntheticIdIsUnknown | internal/event/stream.go:74-81 | a relisted object at a new list time always survives deduplication |
| Coverage.LiveKeepsSound | internal/materialize/materialize.go:149-170 | appending the next live change moves the shown revision to that change |
| Coverage.ListKeepsSound | internal/materialize/materialize.go:141-147 | appending a list's batch makes the reduction show exactly the listed collection |
| Simulation.LoopsFollowProtocol | internal/watch/stream.go:36-283 | whatever the server and the store answer within the guards, what the collector's loops leave, over any number of processes, is what some run of the protocol leaves: journal, resource version and liveness |
| Simulation.RecordingIsReal | internal/watch/stream.go:36-124 | at every time cut of what the loops journalled, a reduction with a baseline and no gap is the server's collection at one real revision |
| Simulation.RecordingRunsForward | internal/materialize/materialize.go:97-121 | of what the loops journalled over any number of processes, later cuts show later revisions as long as no list the journal took is older than one before it |
| Simulation.RecordingLosesNothing | internal/watch/stream.go:52-124 | while the loop holds a resource version, every server change after the last BASELINE's revision up to it is journalled after that BASELINE |
| Simulation.RecordingMarksRelists | internal/watch/stream.go:264-283 | in what one process of the loops journals, a BASELINE that named its revision is followed by a GAP before the next BASELINE |
| Simulation.ListingIsRecorded | internal/watch/stream.go:130-176 | the guards can be met: a process that lists any revision of any good history meets them, and what it journals reports a baseline and no gap |
| Simulation.RecordAndReconstruct | internal/watch/stream.go:36-124 | collector, store and reducer run one after the other: a result with a baseline and no gap is the server's collection at one real revision |
| Watch.Collector.RunStream | internal/watch/stream.go:36-124 | the outer loop leaves journal, resource version and outcome as the function of the server's answers says that `Simulation.LoopsFollowProtocol` is about |
| Watch.Collector.ListAndBaseline | internal/watch/stream.go:130-176 | the list writes one batch, a BASELINE and one synthetic ADDED per item, at one timestamp |
| Watch.Collector.DrainWatch | internal/watch/stream.go:183-283 | the watch loop leaves what that function says: each event kind handled, bookmarks behind the resource version skipped, an end at the first gap or failure |
| Watch.VersionsCompare | internal/watch/stream.go:285-294 | a resource version lies before another exactly when both are integers of 64 bits and it is the smaller one |
| Watch.NumbersCompare | internal/watch/stream.go:285-294 | so for decimal numbers |
| Watch.BookmarkIsSkipped | internal/watch/stream.go:227-233 | a bookmark is skipped exactly when it names no version, or it and the version held are integers and it is the smaller one; any other is journalled and held |
| Watch.ErrorsEndTheWatch | internal/watch/stream.go:205-283 | an unreadable object or an error that is not 410 ends the watch and leaves journal and version; a 410 is journalled as a GAP from the version held, which is given up |
| Journal.AppendKeepsLog | internal/storage/memory.go:56-76 | every append keeps numbers consecutive, event keys unique and times set |
| Journal.AppendStores | internal/storage/memory.go:56-76 | with NUL-free stream IDs a record is stored unless its stream has an event of its ID; its number is set, its time only where it came without one, and every other field stays |
| Journal.KeyNamesEvent | internal/storage/memory.go:61-65 | with NUL-free stream IDs a deduplication key names one stream and one event |
| Journal.RepeatsChangeNothing | internal/storage/memory.go:56-76 | inserting any redeliveries of earlier events anywhere in a sequence of appends changes nothing stored |
| Journal.MetaCounts | internal/storage/memory.go:90-118 | a stream's gap count is the number of its GAP records, and it has gaps exactly when the count is positive |
| Journal.MetaTimes | internal/storage/memory.go:78-89 | first observed is the first record's time, last observed the latest of all |
| Journal.MetaTold | internal/storage/memory.go:78-119 | a row's resource version, availability and degradation are what the last record that tells one tells; its stream and cluster are the first record's |
| MemoryStore.Store.AppendLocked | internal/storage/memory.go:56-76 | an append keeps counter, per-stream lists, health rows and key index consistent with the journal, and answers the number of the stored event |
| MemoryStore.Store.Appends | internal/storage/memory.go:42-54 | a batch plays its records in order and answers one number for each |
| MemoryStore.Store.UpdateMeta | internal/storage/memory.go:78-119 | the health row becomes the old row advanced by the record |
| MemoryStore.RecordsMeaning | internal/storage/memory.go:56-76 | the per-stream lists hold exactly each stream's records in ingest order |
| MemoryStore.StreamsMeaning | internal/storage/memory.go:78-119 | a health row is the fold of its own stream's records; other streams change nothing |
| MemoryStore.IndexMeaning | internal/storage/memory.go:56-76 | the key index holds exactly the stored non-empty event IDs with their numbers |
| MemoryStore.Store.Streams | internal/storage/memory.go:138-147 | lists every stream's row once, by stream ID |
| MemoryStore.Store.Events | internal/storage/memory.go:159-185 | returns the selected records in ingest order, cut to offset and limit, though it walks a map |
| MemoryStore.Store.ObjectHistory | internal/storage/memory.go:187-207 | returns the object's events of the whole journal in ingest order |
| MemoryStore.Store.ObjectAt | internal/storage/memory.go:209-230 | returns the last event by the given time unless a deletion came after it |
| MemoryStore.Store.StreamEvents | internal/storage/memory.go:232-242 | returns the stream's records observed by the given time, all of them for the zero time |
| Reducer.ReduceLoop | internal/materialize/materialize.go:132-180 | the loop computes the fold of its records |
| Reducer.StatesMeaning | internal/materialize/materialize.go:132-180 | an object is present exactly when its last state-bearing record after the last BASELINE is no deletion, with that record's payload |
| Reducer.PresentObject | internal/materialize/materialize.go:132-180 | every field of a present object, its time included, is that of the last record on it after the last BASELINE, an event that is no deletion and has a payload |
| Reducer.LastMeaning | internal/materialize/materialize.go:132-180 | the last resource version and the last observed time are what the last record that tells one tells: a BASELINE, a checkpoint, or an event that leaves an object present; a deletion tells no version |
| Reducer.CoverageMeaning | internal/materialize/materialize.go:141-150 | a baseline is reported exactly when one was recorded, a gap exactly when one follows the last BASELINE |
| Reducer.GapCountMeaning | internal/materialize/materialize.go:148-150 | the gap count is the number of GAP records |
| Reducer.HealthMatchesReduction | internal/storage/memory.go:90-118 | without coverage changes a stream's health row and its reduction agree on available, degraded and gap count |
| PointLookup.LookupMatchesState | internal/storage/memory.go:209-230 | on every recorded journal each object of the state at a time is what the point lookup at that time returns, and conversely exactly when no later list dropped it; at the zero time the lookup finds nothing |
| Events.ObjectKeyIsInjective | internal/event/record.go:56-61 | without '/' in namespaces and names the object key names one object |
| Cluster.StreamStateAt | internal/materialize/materialize.go:97-121 | the state of one stream: the reduced objects, each once, sorted, with the coverage flags |
| Cluster.StateAt | internal/materialize/materialize.go:61-83 | all objects of all streams of the cluster, each once, sorted; complete exactly when every stream has a baseline and no open gap |
| Cluster.StateOrderMeaning | internal/materialize/materialize.go:182-195 | the order of objects: by stream, then namespace, then name |
| Identity.IdRoundTrip | internal/event/stream.go:26-60 | parsing an identifier gives back the stream exactly when no component but the selector holds '/' |
| Identity.IdText | internal/event/stream.go:25-40 | the identifier is its six parts in order, the selector escaped, with '/' between them |
| Identity.EscapeRoundTrip | internal/event/stream.go:26-60 | percent-encoding a selector is undone by decoding and leaves no '/' |
| Identity.EventIdIsInjective | internal/event/stream.go:74-81 | with NUL-free fields the event identifier's preimage determines all its fields, and live identifiers differ from synthetic ones |
| Clock.TimesSort | internal/storage/sqlite.go:689-694 | for non-zero instants in years 0 to 9999, byte order of the texts is order of the instants cut to milliseconds, equality included |
| Clock.ParseOfFormat | internal/storage/sqlite.go:689-701 | parsing a formatted instant gives it back, cut to milliseconds |
| Clock.DateIsMonotone | internal/storage/sqlite.go:689-694 | later days have later date texts across months, leap years and centuries |
| Clock.TimesSortIff | internal/storage/sqlite.go:689-694 | for non-zero instants from year 0 on, byte order of two texts is order of the instants cut to milliseconds exactly when these are equal, the years have one width, or the shorter year is at most the longer one's leading digits |
| Clock.FarBoundSortsFirst | internal/storage/sqlite.go:689-694 | the bound 9999-12-31T23:59:59-01:00, which reads as year 10000, is later than every instant of the years 1001 to 9999 and its text is before all of theirs |
| Clock.KnownInstants | internal/storage/sqlite.go:689-694 | the calendar stands where it should: the Unix epoch, the leap day of 2000, the years 1900, 2024 and 2100 |
| SqlStore.Store.AppendRecord | internal/storage/sqlite.go:191-265 | without a fault, inserts the row and the health row or finds the row of the same key, and answers its number |
| SqlStore.Store.Appends | internal/storage/sqlite.go:168-189 | a batch succeeds exactly when no statement fails; a failed batch leaves the tables as they were |
| SqlStore.Store.StreamEvents | internal/storage/sqlite.go:519-541 | returns the stream's rows whose time text is at most the bound's, by number |
| SqlStore.Store.Events | internal/storage/sqlite.go:406-466 | returns the rows the clause selects, times compared as texts, by number, cut to offset and limit |
| SqlRefines.InsertRefines | internal/storage/sqlite.go:191-265 | from agreeing states both stores take the record or both know it, agree again and answer with the same record, exactly when the journal does not hold its key from another row |
| SqlRefines.ClashIsDuplicate | internal/storage/sqlite.go:79-80 | the unique index and the in-memory key index part on a record exactly when its key is stored for another cluster, stream or event |
| SqlRefines.PlainKeys | internal/storage/memory.go:61-65 | with NUL-free stream IDs a key stands for two rows exactly when an event comes from two clusters |
| SqlRefines.UpsertRefines | internal/storage/sqlite.go:270-344 | one record does to the stored health row what it does to the one in memory, but names its own cluster there and keeps the greater text as the last time |
| SqlRefines.RowsAlike | internal/storage/sqlite.go:270-344 | the two health rows of a stream are the same exactly when its first and last stored records name one cluster and no text of its times is after that of the latest |
| SqlRefines.BatchRefines | internal/storage/sqlite.go:168-189 | any batch, with duplicates inside it or against history, leaves the same records in the same order and matching health rows exactly when no key of journal and batch stands for two rows; otherwise SQLite keeps more records |
| SqlRefines.RunRefines | internal/storage/sqlite.go:168-344 | any history of committed and rolled-back batches from the empty database leaves the stores agreeing exactly when no committed key stands for two rows |
| SqlRefines.EventsRefine | internal/storage/sqlite.go:519-541 | the events read back up to a time are those the in-memory store gives up to the end of that millisecond, times cut to milliseconds |
| SqlRefines.FarBoundSelectsNothing | internal/storage/sqlite.go:519-541 | a bound that reads as year 10000 selects no row of the years 1001 to 9999 |
| SqlRefines.SameReconstruction | internal/materialize/materialize.go:132-180 | the reducer reconstructs the same objects, payloads and coverage from either store |
| SqlSafety.StoredCutsAreReal | internal/materialize/materialize.go:97-180 | in every run, a reconstruction from the matching SQLite rows up to any time that reports a baseline and no gap is the server's collection at one real revision |
| SqlSafety.StoredRecordingIsReal | internal/storage/sqlite.go:519-541 | the same of what the collector's loops journalled, written to the database in any batches, with the program's own timestamps |
| SqlRefines.MillisAreFaithful | internal/storage/sqlite.go:689-701 | the timestamp format meets what the refinement asks of it for all instants after the zero time in years of four digits |
| Paths.ReadOfPrint | internal/materialize/diff.go:263-279 | for a first key that is not empty, a printed path can be read back, whatever its keys hold |
| Paths.PrintsAlike | internal/materialize/diff.go:263-279 | two paths print alike exactly when they are one path up to empty leading keys |
| Paths.EscapeIsCharwise | internal/materialize/diff.go:273-279 | the four passes of the escape put one backslash before each special character and nothing else |
| Paths.PathTokens | web/src/views/diff.js:150-179 | the parser's loop computes the scan of the whole text |
| Paths.ParserRecoversPath | web/src/views/diff.js:150-179 | the parser recovers exactly the printed keys and indexes if and only if the path starts with a key, has no empty key and no two indexes in a row |
| Diff.IgnoreKeyIsStructural | internal/materialize/diff.go:54-65 | the string test for ignored fields is the structural one on the path without empty leading keys |
| Diff.DiffValue | internal/materialize/diff.go:211-261 | the recursion appends to the shared list exactly the changes of the structural diff, printed |
| Diff.DiffObjects | internal/materialize/diff.go:182-196 | the report is those changes in some order sorted by path, with the cases of an empty payload |
| Patch.PatchGivesMerge | internal/materialize/diff.go:211-261 | applying the changes to the first value gives exactly the second with the first one's ignored members |
| Patch.DiffIsAPatch | internal/materialize/diff.go:211-261 | applying the changes to the first value gives the second up to the ignored fields, for all JSON values |
| Patch.EmptyIffStripEqual | internal/materialize/diff.go:211-261 | the diff is empty exactly when the values are equal without the ignored fields |
| Patch.SameEssence | internal/materialize/diff.go:51-65 | values are equal up to the documented fields exactly when the diff is empty and the members under an empty top-level key agree |
| Patch.HiddenStatusIsNotReported | internal/materialize/diff.go:54-65 | a change of "status" below an empty top-level key is never reported |
| Patch.ChangesAreReal | internal/materialize/diff.go:229-260 | every change shows what stands at its path on each side, and the sides differ there |
| DiffExact.ReportedExactly | internal/materialize/diff.go:211-261 | a change is in the diff exactly when it is real, everything above it is objects or arrays of one length on both sides, no key on the way is ignored, and it is a member that came or went or two different values the diff cannot look into |
| DiffExact.ReportHasExactly | internal/materialize/diff.go:182-261 | so the report, in whatever order, has exactly those changes: a changed item of an array is reported at its index |
| DiffExact.IgnoredFields | internal/materialize/diff.go:51-65 | the ignored fields are "status", the seven listed metadata fields and the last-applied annotation, and no other |
| Report.PathsAreApart | internal/materialize/diff.go:211-261 | reported paths are pairwise distinct and none leads through another |
| Report.AnyOrder | internal/materialize/diff.go:194 | changes with such paths can be applied in any order |
| Report.ReportPatches | internal/materialize/diff.go:182-196 | reading the report's paths back and applying it to the first value gives the second up to the documented fields exactly when two objects agree under the empty top-level key; it is then empty exactly when the values agree |
| Report.PathsAreDistinct | internal/materialize/diff.go:182-196 | the reported path texts are then pairwise distinct |
| Report.ReportIsDetermined | internal/materialize/diff.go:194 | the unstable sort leaves the order open exactly when two different changes have one text, which then does not happen |
| Sanitize.Payload.SanitizeObject | internal/replay/sanitize.go:12-43 | the in-place sanitizer leaves the sanitized object and the warnings, for every kind and policy |
| Sanitize.Payload.StripMetadata | internal/replay/sanitize.go:48-73 | the metadata loses the server-owned fields and the last-applied annotation, and the annotations if none are left |
| Sanitize.Payload.SanitizeFinalizers | internal/replay/sanitize.go:77-102 | the finalizer list becomes the allowed ones, or goes if none is; each removal is reported |
| Sanitize.Payload.SanitizeService | internal/replay/sanitize.go:108-136 | cluster IPs and node ports go by service type; headless services stay as they are |
| Sanitize.Payload.StripWorkloadTemplate | internal/replay/sanitize.go:146-162 | the pod template's metadata loses its server-owned fields |
| SanitizeLaws.KeptMembers | internal/replay/sanitize.go:88-95 | exactly the allowed finalizers are kept |
| SanitizeLaws.KeptConcat | internal/replay/sanitize.go:88-95 | they are kept in their order |
| SanitizeLaws.KeptOrReported | internal/replay/sanitize.go:88-101 | each finalizer is kept or reported removed |
| SanitizeLaws.RemovalsMembers | internal/replay/sanitize.go:88-101 | the reported ones are those that are no text, empty or not allowed |
| SanitizeLaws.RemovalsConcat | internal/replay/sanitize.go:88-101 | in their order |
| SanitizeLaws.SanitizeTwice | internal/replay/sanitize.go:12-162 | sanitizing twice is sanitizing once |
| SanitizeLaws.SanitizeOfEssence | internal/replay/sanitize.go:12-162 | sanitizing does not see any field the diff ignores |
| SanitizeLaws.NoChangeSameReplay | internal/replay/sanitize.go:12-102 | two objects with no reported change have equal sanitized payloads exactly when their members under an empty top-level key agree, and then equal warnings |
| SanitizeExact.SanitizeIsPrune | internal/replay/sanitize.go:12-162 | sanitizing removes exactly the listed members, filters the finalizer list, and changes nothing else at any path |
| SanitizeExact.PruneAt | internal/replay/sanitize.go:12-162 | what is left at a path: nothing if it leads through a removed member, otherwise what stood there |
| SanitizeExact.ServerFieldsGo | internal/replay/sanitize.go:48-66 | none of the ten server-owned metadata fields is left |
| SanitizeExact.NamesStay | internal/replay/sanitize.go:48-73 | name, namespace and labels stay as they are |
| SanitizeExact.TemplateFieldsGo | internal/replay/sanitize.go:146-162 | none of the five listed fields of a workload's template metadata is left; its name and labels stay |
| Plan.MakePlan | internal/replay/plan.go:81-175 | refused as unknown exactly when no snapshot has the ID, as incomplete exactly when coverage is incomplete and gaps are not allowed; otherwise the plan is the fold over all objects of the cluster at the snapshot's instant, sorted |
| Plan.MapNamespace | internal/replay/plan.go:196-229 | the payload is carried to the target namespace or loses its own, and the mapping is announced once |
| Plan.FindSnapshot | internal/replay/plan.go:177-188 | finds a snapshot of that ID exactly when there is one |
| PlanLaws.Accounting | internal/replay/plan.go:107-160 | every reconstructed object lands in exactly one of the plan's objects, its exclusions and the undecodable ones |
| PlanLaws.NoTwoAlike | internal/replay/plan.go:136-149 | with no source and a given target namespace no two namespaced objects of a plan share kind and name |
| PlanLaws.JudgingIsSensible | internal/replay/plan.go:196-219 | the planner's own judgement meets what the two laws on collisions ask of a judgement |
| PlanLaws.CollisionMeaning | internal/replay/plan.go:136-149 | an object is left out for a collision exactly when one of the same kind and name, joined by '/', has already been planned |
| PlanLaws.SlashedIsSame | internal/replay/plan.go:136-149 | for kinds without '/' that is the same kind and the same name |
| PlanLaws.ReasonMeaning | internal/replay/sanitize.go:168-211 | an object is let in exactly when the policy lets its kind through and it is no load balancer |
| PlanLaws.PlanIsFit | internal/replay/plan.go:152-172 | every planned object is stripped, let through by the policy, of the source namespace and in the target namespace, and Namespaces come first |
| PlanExact.SaysOneThing | internal/replay/plan.go:113-122 | a payload that decodes says exactly one kind, name and namespace: its own texts, or the state's where they are empty |
| PlanExact.ReasonIs | internal/replay/sanitize.go:168-211 | the reason an object is left out for, kind by kind and toggle by toggle; there is at most one |
| PlanExact.JudgedExactly | internal/replay/plan.go:113-160 | an object is let in exactly when it has no namespace, there is no source or it is in it, and no reason leaves it out; then it is planned with its own kind, name, order and warnings, in the target or its own namespace, its payload what sanitizing for its kind leaves of the decoded object with the namespace set or gone |
| PlanExact.BodyAt | internal/replay/plan.go:137-160 | at every path outside the metadata, but for the spec's namespace, the planned payload has what stood in the decoded object unless sanitizing for that kind removes it |
| PlanExact.PlacedExactly | internal/replay/plan.go:107-160 | each object is planned as its payload says, left out for a reason it meets, or left out because an earlier object of that kind and name was let in where all namespaces are mapped into one |
| PlanExact.PlanIsExact | internal/replay/plan.go:81-175 | every object and exclusion of a plan is explained by a payload of the snapshot's state, and every payload that decodes has its object or exclusion in the plan |
| PlanExact.PlanIsOrdered | internal/replay/plan.go:162-172 | Namespaces first, then by namespace, then by name |
| PlanExact.WarnedExactly | internal/replay/plan.go:107-149 | what each object adds to the plan's warnings: that it cannot be decoded, that a service is left out, that namespaces are mapped, once, or that its place is taken |
| PlanLaws.JudgeIgnoresNoise | internal/replay/plan.go:107-160 | the planner judges alike two objects the diff reports no change between |
| PlanLaws.PlanIgnoresNoise | internal/replay/plan.go:107-160 | lists of objects with no reported change between them give equal plans |
| Apply.ReplayRun.DryRun | internal/replay/apply.go:47-88 | the dry run's lists, count and verdict, the warnings it adds, and the new status; without a client nothing changes |
| Apply.ReplayRun.Apply | internal/replay/apply.go:95-139 | the apply's refusals, lists, count, what it sent, the warnings it adds, and the new status |
| Apply.ReplayRun.ApplyItems | internal/replay/apply.go:196-220 | splits the objects into those with a resource and those without, in order, and adds the warning of each skipped one |
| Apply.DryRunAccounting | internal/replay/apply.go:47-88 | every object is counted exactly once as applied, conflict, error, skipped or tolerated not-found |
| Apply.OkMeaning | internal/replay/apply.go:80-86 | a dry run is OK exactly when every object has a resource, and the server takes it or does not know its namespace yet |
| Apply.ApplyAccounting | internal/replay/apply.go:95-139 | every object is counted exactly once as applied, error or skipped |
| Apply.ApplyIsOrderly | internal/replay/apply.go:112-135 | each namespace is ensured at most once and before any object that names it and whose resource is not Namespaces, each object sent at most once and in order |
| ApplyExact.GvrMeaning | internal/replay/apply.go:266-280 | an object has a resource exactly when the table has its kind and its apiVersion reads as a version, a group and a version, or a lone slash; and which it is |
| ApplyExact.DryRunExactly | internal/replay/apply.go:47-88 | the skipped, conflicting and failed objects of a dry run, each list in order, and how many the server took |
| ApplyExact.ApplyExactly | internal/replay/apply.go:112-135 | an apply ensures exactly the namespaces some object is to be in, sends exactly the objects with a resource but for the first of a namespace it could not ensure, and reports that one and those the server did not take, in order |
| Apply.ApplyNeedsDryRun | internal/replay/apply.go:95-139 | over all interleavings of locked calls, an apply runs exactly when it is confirmed, gets a client, and the last call that reached the cluster was a passed dry run; it then skips nothing |
| Pages.HandleEvents | internal/api/server.go:225-288 | a page holds the first records, up to the limit, that pass the filter by its fields, lie after the cursor, and were observed within the instants since and until stand for: now, a duration before now, or a timestamp; or a bad request names the first of limit, since, until and cursor that does not read |
| Pages.CursorRoundTrip | internal/api/server.go:900-910 | the number of a stored record survives the trip through a cursor |
| Pages.LimitMeaning | internal/api/server.go:238-246 | a number from 1 to 1000 is taken as it is, a larger one as 1000, no text as 100, and nothing else reads |
| Pages.CursorMeaning | internal/api/server.go:258-266 | the cursor is an integer of 64 bits, or the start where there is none |
| Pages.DurationsAreAgo | internal/api/server.go:914-925 | with durations for since and until, every record shown was observed no longer ago than the one and no less long ago than the other, and without a filter and more pages all such records after the cursor are shown |
| Pages.WalkIsComplete | internal/api/server.go:225-288 | following the cursor to the end, with appends between the pages, collects exactly the matching records of the last journal read, in order, with no skip and no repeat |
| Pages.WalkEnds | internal/api/server.go:225-288 | on a journal that stands still the walk ends after as many pages as the records fill |
| SqlPages.EventsInAreEventsOf | internal/storage/sqlite.go:406-466 | the query of the rows is the query of the journal they give back, its bounds moved to the start and the end of their milliseconds |
| SqlPages.SqlWalkIsComplete | internal/api/server.go:225-288 | over SQLite, whose numbers may skip, following the cursor to the end collects exactly the matching records of the last database read, in order, with no skip and no repeat |
| SqlPages.SqlWalkCollectsJournal | internal/api/server.go:225-288 | these are the journal's matching records, times cut to milliseconds |
| Timeline.BuildTimeline | cmd/krply/timeline.go:246-316 | the loops and the stable sort compute the timeline of markers and events |
| Timeline.RowSays | cmd/krply/timeline.go:269-311 | each record from the instant on adds one row that says what it is, a change described against what the last record that leaves a payload left |
| Timeline.MarkerSays | cmd/krply/timeline.go:249-266 | each GAP and BASELINE from the instant on adds one row that says what it is, and nothing else does |
| Timeline.TimelineIsOrdered | cmd/krply/timeline.go:314 | the timeline is those rows by time, in their order where times are equal |
| Timeline.WindowIsFilteredIff | cmd/krply/timeline.go:246-316 | whatever way changes are described, the timeline since an instant is the full timeline without the earlier rows exactly when no change in the window is described against a skipped BOOKMARK's payload that differs from the last real one |
| RecordedTimeline.RunsCanBeWindowed | cmd/krply/timeline.go:246-316 | on every journal a run records, the timeline of every object can be cut at every instant |
| RecordedTimeline.RecordingsCanBeWindowed | cmd/krply/timeline.go:246-316 | so on every journal the collector's loops leave |
| Timeline.SkippedBookmarkMisleads | cmd/krply/timeline.go:269-279 | a history with a BOOKMARK, which the collector does not write, on which the two timelines differ |

## Left out

- Sharing of records between caller and store: records are values here, so a stored record cannot be changed from outside, and that a store writes time and number back into the caller's record is not modelled.
- SHA-256 in hex is read as the identity on its preimage, base64 of a cursor likewise; the JSON decoder is a parameter of the planner; the SQL engine is its tables and indexes.
- A payload that is the JSON `null` where an object is expected: decoding yields objects only.
- Timers, backoff, contexts and goroutines: the idle timeout and a closed watch are one step, and which of several ready channels is taken is not told apart.
- Liveness: a 410 returned directly by the watch call is retried forever by the code; only safety is claimed.
- A restart relists without a GAP, so `RelistsAreMarked` speaks of one process.
- Provenance, snapshot references inside records, object hashes, and the group, resource and selector columns of health rows.
- `Materializer.Diff` over whole clusters, `ListClusters`, `Baselines`, `Gaps` and snapshot storage: loops over the modelled operations that would add easy members.
- The audit correlation, the web UI's tree building, the server's own timeline, HTTP routing, metrics, printing and command-line plumbing.
- The wording of warnings, errors and exclusion reasons: they are datatypes with the values the text carries.
- The table from kinds to resource names, and the competing manager's name in a conflict: the table is a parameter.
- The plan's random ID and field manager.
- JavaScript's `Number` on an index and its UTF-16 strings: an index is its text, a string a sequence of characters.
- Clock.ParseTime: reads the fixed-width shape only, because the stores write no other; `time.Parse` accepts more.
- MemoryStore.Store.GetMeta: says nothing for the empty stream ID, which has no health row.
- Pages.HandleEvents: the readers of durations and timestamps in Go's time package are parameters.
- SqlRefines.RunRefines: asks that the clock never reads the zero time.
- SqlRefines.RowsAlike: for instants after the zero time.
- SqlRefines.EventsRefine: for instants good to read back, which `MillisAreFaithful` gives after the zero time in years of four digits; `FarBoundSelectsNothing` shows what a bound beyond them does. That a stored time beyond them makes a read fail is not modelled.
- Pages.CursorRoundTrip: for numbers below 2^63, the range of the journal's numbers.
