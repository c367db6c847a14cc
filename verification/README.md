# Pushgateway's metric store, modelled and proved in Dafny

The project models the part of the Prometheus Pushgateway that accepts, stores, exposes and persists
pushed metrics, and proves what its documentation and comments promise, or, where a promise does not
hold of the code, exactly when it does. `dafny verify dfyconfig.toml` checks everything.

## How the model is built

The modules form five layers.

1. **Values.** `Lex`, `Dto`, `LabelSpec`, `Idempotence`, `GroupingKey`, `Base64`, `UrlLabels`, `UrlPaths`
   define labels, keys and URL paths. `StoreSpec` defines the store as a map from grouping keys to groups, and
   one write request as a step on it: `Commit` for an accepted push, `FailStamp` for a rejected one,
   removal for a delete, `Accepts` for the verdict, `Fold` for a run. `Consistent` is the documented
   requirement on the exposed metrics: metrics of one name share a type, and no two have the same label
   set, over all groups and Pushgateway's own metrics. `StoreRuns` holds what whole runs keep.
   `Acceptance` says which pushes are accepted in terms of the metrics alone, and `PushResults` what becomes
   of them, with every name, byte and number written out. `GatherCheck` is the check as it is performed, on merged families; `TypeCheck` adds the type that a
   family declares.
2. **Objects.** `Objects`, `StoreHeap`, `Sanitizer`, `Gathering`, `DiskStore`, `Serving`, `Queue`,
   `Persist` are the code itself: families, metrics and label pairs are mutable objects that requests
   bring, the store keeps, and readers share; both map levels are updated in place. Every loop over a Go
   map takes its keys in an arbitrary order. Each method is proved to do to the *meaning* of the objects
   (`Deep`, `FamilyOf`) what the value layer says, and to leave everything else alone. `ServedRuns`
   joins the two layers, and `Wipe` is a caller.
3. **Interleaving.** `LoopMachine` is the loop with its timer goroutines as a state machine: taking a
   request, applying it, setting, firing and stopping timers, encoding, renaming, reporting, draining.
   `LoopRuns` holds what every interleaving keeps, `PersistDemand` that nothing is persisted without
   need, `Durability` says when the file is complete, and `ShuttingDown` what shutting down leaves in it.
4. **The loop object.** `StoreLoop.Loop` has the queue, the store of objects, the scheduling variables,
   the temporary files and the file as fields. Every step of the machine is a method that works on the
   objects, and each is proved to move the object's abstraction `Abs` exactly by `LoopMachine.Next`. Its
   invariant says that the abstraction is a state the machine reaches, so all that is proved of the
   machine's runs holds of the objects. `LoopHeap` and `LoopSteps` hold what the steps need of the heap,
   `LoopRecord` what has become of each request and what its client has been told, and `PushHandler` is
   the waiting client. `EndToEnd` goes from the client that pushes to the client that reads.
5. **Codec.** `Base64` and `UrlLabels` relate the path printed by the web page's delete button to the
   parser of the push and delete handlers.

Strings are sequences of characters that stand for bytes. Times are integers, and 0 is Go's zero time.
The consistency check of the client library's `Gather` is `GatherCheck.GatherOk`: the two documented
conditions, decided on the list of families that `GetMetricFamilies` returns. `TypeCheck.TypesOk` is its
further condition on the type a family declares; for families whose metrics have that type, as the text
parser delivers them, it adds nothing. `own` stands for the
metrics of Pushgateway itself, which do not change during a run.

## Where the code and its documentation differ

The model follows the code.

- Pushes that lead to inconsistencies are said to be rejected (README.md:195-199). A rejected push
  still inserts its two timestamp gauges, unchecked (storage/diskmetricstore.go:311-338). If another
  group's labels differ only by an explicit empty `instance`, the gauges of the two groups clash.
  `StoreRuns.CheckedRunsConsistentIff` says that checked pushes without a failure time of their own lose
  consistency in no other way.
- Grouping keys are said to be unique (storage/diskmetricstore.go:457-461). Among all label maps only
  those with at most one label, and that free of the byte 0xFF, share their key with no other map
  (`GroupingKey.KeyIsOwnIff`): any map with two or more labels, clean or not, shares its key with one
  whose value contains 0xFF. Among maps without 0xFF keys are unique. Among the maps the handlers build,
  a map without 0xFF shares its key unless `job` is the only name that comes after another one
  (`GroupingKey.HandledKeyIsOwnIff`).
- Persisting is said to happen after every write action (storage/diskmetricstore.go:68-73). A write is
  forgotten when a persist encodes the store between the write's stamp and its application, when the
  persist fails, or when a write after the encoding is stamped at the clock reading at which the persist
  started. `Durability.QuiescentDurabilityIff` is the exact statement for the loop at rest, whether the
  last persist succeeded or not, and `Durability.FileIsCompleteIff` the one for any moment between two
  rounds; three lemmas give the runs.
- Shutdown is said to persist the content and stop all goroutines (storage/interface.go:50-59). A timer
  persist that has started is not stopped, and may put its older image over the final file.
  `ShuttingDown.ShutdownCompleteIff` says exactly when.
- The `Done` channel is said to be closed once the request is processed (storage/interface.go:94-96).
  The drain does not close it (storage/diskmetricstore.go:251-262), so a handler whose request is
  processed there, or never, waits forever (`PushHandler.Answer`).
- The log message at storage/diskmetricstore.go:167 says that the latter of two help strings wins. The
  code keeps the one met first (`Gathering.IsMergeOf`).
- A label name that occurs twice in a metric is overridden only where it occurs first
  (storage/diskmetricstore.go:547-549). Sanitizing may then not be idempotent, if the sort moves equal
  names: `Idempotence.SanitizeIsIdempotentIff` is the exact condition over all outcomes the sort may
  have, and with a sort that keeps equal names in order sanitizing is always idempotent
  (`Idempotence.StableSanitizingIsIdempotent`).
- A protobuf push may declare a type that its metrics do not have. Whether such a push is accepted can
  depend on the order in which Go enumerates the groups (`TypeCheck.BadTypeDependsOnOrder`).

## Model

| member | source | states |
|---|---|---|
| Lex.SortStrings | storage/diskmetricstore.go:471 | sorting distinct names gives the one ascending enumeration of their set, whatever order they come in |
| Lex.LtIs | storage/diskmetricstore.go:471 | a name sorts before another exactly if it is a proper prefix of it or has the smaller byte at the first index where they differ |
| LabelSpec.SortedBagIsUnique | storage/diskmetricstore.go:593-605 | if all label pairs of one name are equal, every sorting of the pairs gives the same list, so the unstable sort does not matter |
| LabelSpec.SanitizeIsMapOverride | storage/diskmetricstore.go:531-577 | for distinct names a list is an outcome of sanitizing if and only if it is the sorted form of: original labels overridden by the grouping labels, with an empty `instance` if there is none |
| LabelSpec.SanitizeIsIdempotent | storage/diskmetricstore.go:531-577 | for distinct names sanitizing a sanitized metric again gives the same labels |
| Idempotence.SanitizeIsIdempotentIff | storage/diskmetricstore.go:531-577 | whatever the sort does with equal names, sanitizing twice is sanitizing once if and only if, after overriding, all label pairs of one name are equal |
| Idempotence.StableSanitizingIsIdempotent | storage/diskmetricstore.go:575 | with a sort that keeps equal names in order, sanitizing is idempotent for every list of labels and every grouping |
| Idempotence.MovedDuplicatesBreakIdempotence | storage/diskmetricstore.go:545-555 | if the sort moves equal names, sanitizing `instance=a, instance=b` for the group `instance=g` twice can give `g, g` where once gives `b, g` |
| LabelSpec.SanitizedHasGroupingLabels | storage/diskmetricstore.go:531-535 | even with repeated names every grouping label is there with its value, and so is `instance` |
| GroupingKey.InAnyOrder | storage/diskmetricstore.go:467-470 | collecting the names of a map lists each once, in no particular order |
| GroupingKey.WriteLabel | storage/diskmetricstore.go:475-480 | writing one label extends the key by name, separator, value, and a separator unless it is the last |
| GroupingKey.GroupingKeyFor | storage/diskmetricstore.go:462-483 | the key depends on the label map only, not on the order in which the map is enumerated |
| GroupingKey.KeyIsSpelledOut | storage/diskmetricstore.go:475-480 | the key is the smallest name, the byte 0xFF, its value, and, if there are more labels, 0xFF and the key of the rest; without labels it is empty |
| GroupingKey.KeysWithout255AreUnique | storage/diskmetricstore.go:457-461 | label maps in whose names and values the byte 0xFF does not occur have equal keys if and only if they are equal |
| GroupingKey.AsciiKeysAreUnique | storage/diskmetricstore.go:457-461 | so do all label maps of ASCII characters |
| GroupingKey.KeysAreUnique | storage/diskmetricstore.go:457-483 | two label maps, one free of 0xFF and the other too or not smaller, have equal keys if and only if they are equal, the empty map included |
| GroupingKey.SeparatorInValueBreaksUniqueness | storage/diskmetricstore.go:476-479 | a value with 0xFF gives two different maps one key |
| GroupingKey.KeyIsOwnIff | storage/diskmetricstore.go:457-483 | a label map shares its key with no other map if and only if it has at most one label and no byte 0xFF in it |
| GroupingKey.HandledKeyIsOwnIff | handler/push.go:65-90 | among maps with a `job` and legal names, whatever the values: a map without 0xFF shares its key with no other if and only if every name but the smallest is `job` |
| Base64.UnpackInvertsPack | handler/push.go:172-178 | the sextets of any byte string decode to the string (section 5 of RFC 4648, no padding) |
| Base64.PaddingIsIgnored | handler/push.go:173-176 | any number of trailing `=` makes no difference to the decoder |
| Base64.Base64RoundTrip | handler/push.go:175-178 | decoding the encoding of any byte string, with any padding, gives the string back |
| Base64.DecodeAccepts | handler/push.go:175-178 | the decoder accepts exactly the strings that, without padding and line breaks, are over the URL alphabet and whose length is not 1 modulo 4 |
| Base64.AlphabetIs | handler/push.go:172-178 | the digits are the 64 characters of table 2 of RFC 4648 in their order, and a character has a value exactly if it is the digit of that value |
| Base64.QuantumIs | handler/push.go:172-178 | three bytes make four digits of the same number, two and one are filled up with zero bits |
| Base64.TrimmedIs | handler/push.go:176 | exactly the `=` at the end are taken off |
| Base64.LineBreaksGo | handler/push.go:176 | of the remaining characters exactly the line breaks are ignored, wherever they are |
| UrlLabels.SplitLabels | handler/push.go:180-210 | the loop with its early returns computes the parser: pairs of components, later ones overriding, or the first error |
| UrlLabels.SplitInvertsJoin | handler/push.go:186 | splitting at slashes inverts joining with slashes for elements without one |
| UrlPaths.JoinInvertsSplit | handler/push.go:186 | joining what splitting gives yields the text again, and no component has a slash |
| UrlLabels.ParsedNamesAreLegal | handler/push.go:193-198 | a path that parses yields only valid names without the reserved prefix |
| UrlPaths.ParsedPathIs | handler/push.go:180-210 | every label path: up to one character is empty; an odd number of components is an error; otherwise the first pair with an improper name, or with a base64 value that does not decode, decides about the error; and if there is none, each name has the value of its last pair, as it stands or decoded |
| UrlPaths.WrittenPathParses | handler/push.go:180-210 | labels written in any order, each as it stands or in base64 with any padding, parse to themselves, a repeated name with its last value |
| UrlPaths.MixedPathParsesBack | handler/push.go:180-210 | so a label map comes back, whatever the order and the choice of forms |
| UrlLabels.DeleteGroup | resources/static/functions.js:46-62 | for every enumeration order of the labels the printer yields the path of that order, and the job encoded |
| UrlLabels.PrintedGroupParsesBack | resources/static/functions.js:46-62 | parsing what the delete button prints gives back the group's labels, for arbitrary byte values and any order |
| StoreSpec.ApplyIsLocal | storage/diskmetricstore.go:272-308 | a write changes its own key only, and what it makes of that group depends on no other group |
| StoreSpec.CommitAgain | storage/diskmetricstore.go:376-383 | speculation is harmless: applying a request whose family map carries the gauges of the application to the copy gives the store that was gathered for the check |
| StoreSpec.FoldConcat | storage/interface.go:28-31 | processing one sequence of writes after another is processing their concatenation |
| StoreSpec.PushContents | storage/interface.go:77-81 | families pushed replace those of the same names; all others go for a replacing push and stay otherwise; the success time is the push's, and an earlier failure time is retained unless the push brings one |
| StoreSpec.CommitUpdates | storage/diskmetricstore.go:281-308 | after an accepted push the group has both timestamps, the success one with the push's time, and every family in it is a gauge, the request's, or an old one |
| StoreSpec.FailStampUpdates | storage/diskmetricstore.go:317-337 | the same after a rejected push, which brings no family but the two gauges: its failure time always, a zero success time only if there was none |
| StoreSpec.ApplyKeepsNames | storage/diskmetricstore.go:303-308 | families stay stored under their own names |
| StoreRuns.ApplyKeepsInvariant | storage/diskmetricstore.go:268-338 | one write keeps the store invariant, accepted or not |
| StoreRuns.RunsKeepInvariant | storage/diskmetricstore.go:268-374 | after any run, checked or not: each key is the key of its group's labels, both timestamps are there, no metric has a timestamp, all labels are strictly sorted and include `instance` and the grouping labels with their values |
| StoreRuns.RunIsReplay | storage/diskmetricstore.go:229-241 | a run is the replay of its requests with the verdicts it reaches |
| StoreRuns.GroupsAreIndependent | storage/interface.go:105-113 | for given verdicts a group is the replay of the requests with its own labels alone |
| StoreRuns.SuccessFlagIsLastVerdict | storage/interface.go:130-145 | with increasing times and no pushed failure time, `LastPushSuccess` holds of a group exactly if the last push to it was accepted |
| StoreRuns.RejectedPushOnlyStamps | storage/diskmetricstore.go:311-338 | a rejected push changes nothing but the two reserved families of its own group |
| StoreRuns.RejectedPushConsistentIff | storage/diskmetricstore.go:311-338 | a rejected push leaves a consistent store consistent exactly if its gauges clash with no other group and no own metric |
| StoreRuns.DeleteKeepsConsistent | storage/diskmetricstore.go:350-354 | a delete cannot create an inconsistency |
| StoreRuns.RunsKeepOwnGauges | storage/diskmetricstore.go:297-302 | in a checked run without pushed failure times the reserved families of every group are its own gauges |
| StoreRuns.RejectedPushBreaksIffTwin | storage/diskmetricstore.go:569-574 | a rejected push breaks consistency exactly if some other group's labels differ only by an empty `instance` |
| StoreRuns.CheckedRunsConsistentIff | storage/diskmetricstore.go:349-396 | a run of checked pushes and deletes from the empty store is consistent at every moment if and only if no push is rejected while such a twin group is there |
| StoreRuns.CheckedRunsStayConsistent | storage/diskmetricstore.go:349-396 | so it is consistent whenever no two label sets in use are twins |
| StoreRuns.RejectedTwinsBreakConsistency | storage/diskmetricstore.go:332-337 | two rejected pushes to twin groups leave an inconsistent store |
| StoreRuns.TwinsExist | storage/diskmetricstore.go:569-574 | there are two different label maps with different keys that sanitizing makes equal |
| Acceptance.ConsistentIs | README.md:195-199 | a store is consistent exactly if any two metrics of one name, of Pushgateway or of any group, have the same type and different label sets |
| Acceptance.UncheckedIsAcceptedIff | storage/diskmetricstore.go:363-374 | an unchecked push, replacing or not, is accepted exactly if no metric has a timestamp |
| Acceptance.CheckedIsAcceptedIff | storage/diskmetricstore.go:363-396 | on a consistent store a checked push, replacing or not, is accepted exactly if no metric has a timestamp and all it stores, the gauges included, fits in: each family with itself, with Pushgateway's own metrics and with all other groups |
| Acceptance.WelcomePushIsAccepted | storage/diskmetricstore.go:363-396 | if the groups have their own gauges, that is: no timestamps, no twin group, and families that fit in |
| PushResults.SanitizedIsExposed | storage/diskmetricstore.go:531-577 | for a metric that names no label twice, sanitizing gives exactly the sorted list of: each grouping label, each other pushed label, and an empty `instance` if there is none |
| PushResults.SanitizedFamilyExposes | storage/diskmetricstore.go:531-577 | a sanitized family has the name, help, type, values and timestamps it had; only the labels are as just said |
| PushResults.SameLabelSetIff | storage/diskmetricstore.go:531-577 | two metrics of a push clash exactly if the same labels are exposed for them |
| PushResults.PushIsStored | storage/diskmetricstore.go:272-308 | a family of an accepted push is in its group, with the push's time, until a write deletes or replaces the group or an accepted push brings a family of that name |
| PushResults.ReadShows | storage/interface.go:32-41 | reading gives each stored name one family, with exactly the metrics that the groups hold under that name |
| PushResults.AcceptedPushShows | storage/diskmetricstore.go:297-302 | after an accepted push `push_time_seconds` is a gauge whose value times 1000000000 is the push's time, under the group's labels; a failure time is kept, or zero if there was none |
| PushResults.RejectedPushShows | storage/diskmetricstore.go:326-337 | after a rejected push the same holds of `push_failure_time_seconds`; a success time is kept, or zero if there was none |
| PushResults.FlagIs | storage/interface.go:130-145 | the success flag is false exactly if both gauges are there and that of the failure is larger |
| PushResults.FlagAfterAccepted | storage/interface.go:130-145 | whatever the times, after an accepted push the flag is set exactly if no later failure is on record |
| PushResults.FlagAfterRejected | storage/interface.go:130-145 | and after a rejected one exactly if the push is not later than the last success, so a rejection at the very same time goes unnoticed |
| GatherCheck.FlatIsPairwise | README.md:195-199 | the metrics of one name are pairwise compatible exactly if they are within each source and across any two |
| GatherCheck.GatherDecidesConsistency | storage/diskmetricstore.go:385-395 | whatever order the groups and names come in, checking payload types and label sets of the merged families accepts exactly the consistent stores |
| TypeCheck.WellTypedGatherDecides | storage/diskmetricstore.go:385-395 | for families whose metrics have the declared type, the check with the declared type included accepts exactly the consistent stores, in every order |
| TypeCheck.TypesDecided | storage/diskmetricstore.go:155-186 | for arbitrary families, the type check passes in every order if and only if all metrics of a name have the type that every family of the name declares |
| TypeCheck.BadTypeDependsOnOrder | storage/diskmetricstore.go:148-186 | a family of gauges declared as a counter passes beside a gauge family in one order of the groups and fails in the other |
| Sanitizer.SortLabelPairs | storage/diskmetricstore.go:575 | the sort arranges the same pair objects by name |
| Sanitizer.OverrideValues | storage/diskmetricstore.go:545-558 | the loop over the labels, with its early exit, leaves in the scratch map exactly the grouping labels the metric lacks, and overrides the first label of each name |
| Sanitizer.AppendAll | storage/diskmetricstore.go:559-568 | draining the scratch map, in any order, appends a fresh pair for each label left in it and empties it |
| Sanitizer.AppendMissing | storage/diskmetricstore.go:559-574 | what is appended is exactly the missing labels, an empty `instance` included |
| Sanitizer.SanitizeMetric | storage/diskmetricstore.go:542-576 | one metric is sanitized as specified, starting and ending with an empty scratch map |
| Sanitizer.SanitizeLabels | storage/diskmetricstore.go:538-577 | all metrics of a family are sanitized as specified; only its metrics and label pairs are written, and new pairs are fresh |
| StoreHeap.UntouchedStore | storage/interface.go:32-49 | if no object of a family has been written, a map of families means what it meant |
| StoreHeap.DeepPutAll | storage/diskmetricstore.go:303-308 | updating references and then reading their meaning is updating the meaning |
| StoreHeap.DeepPutFailure | storage/diskmetricstore.go:326-337 | the same for the stamps of a rejected push |
| Gathering.CopyMetricFamily | storage/diskmetricstore.go:448-455 | a copy has its own list of the same metrics |
| Gathering.OwnEntry | storage/diskmetricstore.go:157-165 | the entry becomes a copy unless it is one already, and stands for the same metrics |
| Gathering.Append | storage/diskmetricstore.go:171 | only a copy is appended to, and no other entry changes |
| Gathering.AddEntry | storage/diskmetricstore.go:172-185 | a new entry is the store's own family, or a copy with the predefined help string if that differs |
| Gathering.MergeFamily | storage/diskmetricstore.go:155-186 | one more family adds its metrics to the entry of its name |
| Gathering.MergeGroup | storage/diskmetricstore.go:149-187 | a group adds each of its families once, in any order |
| Gathering.MergeGroups | storage/diskmetricstore.go:141-189 | the result has one family per stored name, whose metrics are the concatenation over the groups in the order visited; no stored family is written |
| DiskStore.NewTimestampGauge | storage/diskmetricstore.go:510-529 | a new gauge of the given name and help has one sanitized metric, whose value times 1000000000 is the time, zero for the zero time, in fresh objects |
| DiskStore.DeleteUnreserved | storage/diskmetricstore.go:291-295 | deleting while ranging over the map keeps exactly the push timestamps |
| DiskStore.AddGauges | storage/diskmetricstore.go:297-302 | the success gauge always replaces a pushed one, the failure gauge only if the group has none |
| DiskStore.StoreFamilies | storage/diskmetricstore.go:303-308 | every family of the request is stored with the request's time, in any order |
| DiskStore.DiskMetricStore.GroupFor | storage/diskmetricstore.go:281-287 | the group of the key is found, or created empty with the request's labels |
| DiskStore.DiskMetricStore.KeptGroup | storage/diskmetricstore.go:281-296 | for a replacing update it is emptied but for the push timestamps; no other group changes |
| DiskStore.DiskMetricStore.Update | storage/diskmetricstore.go:281-308 | the maps become the updated ones, and the request's own map is completed with the gauges |
| DiskStore.DiskMetricStore.ProcessWriteRequest | storage/diskmetricstore.go:268-309 | the store's meaning becomes the specified step; no family object is written, and every family in the store was there, came with the request, or is a new gauge |
| DiskStore.StampFailure | storage/diskmetricstore.go:326-337 | the failure gauge is replaced, and a zero success gauge added if there is none |
| DiskStore.DiskMetricStore.SetPushFailedTimestamp | storage/diskmetricstore.go:311-338 | the store's meaning becomes the step for a rejected push |
| DiskStore.DiskMetricStore.GetMetricFamiliesMap | storage/diskmetricstore.go:192-202 | both map levels are copied into fresh objects, and the families are shared |
| DiskStore.DiskMetricStore.GetMetricFamilies | storage/diskmetricstore.go:141-189 | the families returned mean the merge of the store by name, for the visited order, each with the predefined help string of its name or else that of a stored family of the name |
| DiskStore.ListedMeaning | storage/diskmetricstore.go:148-171 | concatenating the listed objects' metrics is concatenating their values |
| Serving.AnyTimestamps | storage/diskmetricstore.go:579-589 | the nested loops with early return decide whether any metric has a timestamp |
| Serving.SanitizeAll | storage/diskmetricstore.go:367-369 | all families of the request are sanitized, in any order, and nothing else is written |
| Serving.GatherStore | storage/diskmetricstore.go:385-395 | gathering a store succeeds, as far as payload types and label sets go, exactly if the store is consistent, and leaves it as it is |
| Serving.TryOnCopy | storage/diskmetricstore.go:376-395 | the trial on a copy succeeds exactly if the real store would be consistent after the commit; it writes the request's family map only |
| Serving.CheckWriteRequest | storage/diskmetricstore.go:349-396 | a delete is accepted; a push, replacing or not, exactly if no metric has a timestamp and, if it is checked, the store would be consistent with it; the store and all its families are untouched; an error goes to `Done` exactly if the request is rejected |
| Serving.Serve | storage/diskmetricstore.go:231-241 | one round of the loop performs one step of the specification on the sanitized request, although the check already changed the request's map; `Done` gets an error exactly for a rejection, then the close, in this order, the close only when not draining |
| Queue.LeftAlone | storage/interface.go:83-87 | a request that shares no object with the one served is as it arrived |
| Queue.ServeQueue | storage/diskmetricstore.go:229-263 | the store becomes the fold of the requests of a queue in order, and every `Done` channel gets exactly its signals |
| Queue.ServeBeside | storage/interface.go:36-49 | serving a queue changes nothing of what a reader holds, and leaves the store and the reader as they must be for the next queue |
| Queue.ReadThenServe | storage/interface.go:32-49 | a copy of the maps and a merged list of families, taken before a queue is served, mean the old store afterwards, down to the label pairs; for all later requests see `StoreLoop.Loop.LoopIsSafe` |
| ServedRuns.SanitizedFamilyIsWellFormed | storage/diskmetricstore.go:531-577 | sanitizing makes a family with distinct label names one the store invariant allows |
| ServedRuns.ServeDecent | storage/diskmetricstore.go:229-263 | serving any queue of requests with distinct label names and no 0xFF keeps the store invariant, whatever else they bring |
| ServedRuns.ServeCareful | storage/diskmetricstore.go:349-396 | from the empty store, checked pushes without failure times and deletes leave a consistent store if no two label sets are twins |
| PushHandler.AwaitDone | handler/push.go:140-159 | ranging over the channel returns exactly if it is closed, and sees an error exactly if one came before the close |
| PushHandler.Answer | handler/push.go:121-159 | at any moment after the submission, whatever is queued before or behind it: a checked push has returned exactly if it is among the requests processed before the drain, and then with 400 exactly if the store after all earlier requests rejects it, else with 200; on a well kept store it is 200 exactly for a push that is welcome; one that the drain processes, or that stays in the queue, never returns; an unchecked one returns 202 |
| LoopMachine.FireTimeIs | storage/diskmetricstore.go:213-214 | a timer fires at once, or an interval after the last persist plus the time since the last write; never earlier than either |
| LoopRuns.StepKeeps | storage/diskmetricstore.go:204-266 | every step of every goroutine keeps the invariant of the loop |
| LoopRuns.RunsAreFifo | storage/interface.go:28-31 | after any run the processed requests are the submitted ones in order, less the queued and the one in hand, each exactly once, and the store is their fold |
| LoopRuns.CrashLeavesPrefix | storage/diskmetricstore.go:398-427 | at every moment the file holds the store after some prefix of the submitted requests |
| LoopRuns.PrefixShrinksIff | storage/diskmetricstore.go:398-427 | a step shortens that prefix exactly if the loop is down and a timer still running renames an older image |
| LoopRuns.SchedulerIsSafe | storage/diskmetricstore.go:211-244 | at the loop's head a persist is scheduled, or nothing was written since the last one started, or there is no file; at most one timer is pending or running |
| LoopRuns.PersistsAreSpaced | storage/diskmetricstore.go:212-225 | starts of consecutive background persists are at least an interval apart, also when the computed delay is negative |
| PersistDemand.PersistsFollowWrites | storage/diskmetricstore.go:211-227 | whenever a timer has been set, a request has been taken from the queue after the persist before it started, or after the start for the first: an idle store is not persisted again |
| Durability.FileIsCompleteIff | storage/diskmetricstore.go:204-244 | between any two rounds, with any failures and equal readings, the file holds every processed request if and only if the last persist that succeeded encoded with no request in hand and none was taken since |
| Durability.QuiescentDurabilityIff | storage/diskmetricstore.go:204-244 | with a file and nothing scheduled, for any clock and any failures: if the last persist succeeded, the file holds everything exactly if that persist encoded with no request in hand and no later request was stamped at its start reading (with a ticking clock the latter cannot be, and at most one request is lacking); if it failed, exactly if the last successful one encoded everything taken so far |
| Durability.TornPersistForgets | storage/diskmetricstore.go:232-237 | a run with successful persists that comes to rest without the last write in the file |
| Durability.FailedPersistForgets | storage/diskmetricstore.go:217-222 | a failed persist is not repeated |
| Durability.EqualReadingsForget | storage/diskmetricstore.go:212 | with equal clock readings a write after a persist counts as one before it |
| ShuttingDown.ShutdownSaves | storage/interface.go:50-59 | if nothing is submitted after the shutdown, every request is processed once, in order, and the final persist writes their fold |
| ShuttingDown.DrainTerminates | storage/diskmetricstore.go:251-263 | the drain is never stuck, and each of its steps brings it closer to its end |
| ShuttingDown.ShutdownCompleteIff | storage/diskmetricstore.go:245-263 | after a successful final persist the file stays complete in every continuation exactly if no timer is still about to rename an older image |
| ShuttingDown.DrainStopsTimer | storage/diskmetricstore.go:245-249 | the drain stops the timer that is set, so no timer fires any more, and leaves every timer that has fired as it is |
| ShuttingDown.QuietShutdownIsComplete | storage/interface.go:50-59 | if no persist is in flight when the drain begins and the final one succeeds, the file holds all requests submitted before the shutdown, in every continuation |
| ShuttingDown.ShutdownCanLoseWrites | storage/diskmetricstore.go:246-249 | a run in which a persist in flight undoes the final one |
| Persist.EncodeStore | storage/diskmetricstore.go:412-414 | encoding ranges over both map levels in any order and yields the store's meaning |
| Persist.DecodeStore | storage/diskmetricstore.go:429-446 | decoding builds a store of new objects that means what was encoded, with the predefined help strings it is given |
| Persist.PersistAndRestore | storage/diskmetricstore.go:398-446 | a store that is encoded and read back means the same |
| LoopRecord.RecordTaken | storage/diskmetricstore.go:231-237 | checking the request at the head puts its error, and nothing else, on record, and leaves every waiting request and every earlier answer as they were |
| LoopSteps.ReadStore | storage/diskmetricstore.go:141-202 | reading changes nothing that the loop, its queue or earlier readers rely on |
| StoreLoop.Loop.constructor | storage/diskmetricstore.go:78-105 | a new loop is in the initial state of the machine, on a store of new objects that means what the file held, with the predefined help strings |
| StoreLoop.Loop.SubmitWriteRequest | storage/diskmetricstore.go:107-110 | submitting at any time moves the loop by `Submit`, and records what the request's families say |
| StoreLoop.Loop.Receive | handler/push.go:121-139 | a request of freshly decoded families, or a delete, can always be submitted |
| StoreLoop.Loop.TakeRequest | storage/diskmetricstore.go:231-233 | taking, stamping and checking a request moves the loop by `Take`: the request means what it said when it was submitted, sanitized, the verdict is the specified one for the store at this moment, and the error is sent exactly if it is rejected |
| StoreLoop.Loop.PerformRequest | storage/diskmetricstore.go:233-241 | carrying out the verdict, closing the channel and setting a timer moves the loop by `Perform` |
| StoreLoop.Loop.TakeReport | storage/diskmetricstore.go:242-244 | a report of a finished persist moves the loop by `Report`, which may set the next timer |
| StoreLoop.Loop.PersistEncodes | storage/diskmetricstore.go:404-423 | encoding the objects of the store into a temporary file, wherever the loop is, moves it by `Encode`, as does a failure |
| StoreLoop.Loop.PersistRenames | storage/diskmetricstore.go:426 | putting the temporary file in place moves the loop by `Rename`, as does a failure |
| StoreLoop.Loop.BeginDrain | storage/diskmetricstore.go:245-249 | beginning the drain moves the loop by `Drain` |
| StoreLoop.Loop.DrainRequest | storage/diskmetricstore.go:253-258 | draining one request moves the loop by `DrainWrite`: checked and applied as ever, with an error sent if it is rejected, but its channel stays open |
| StoreLoop.Loop.FinalEncode | storage/diskmetricstore.go:259-260 | with the queue empty the last encoding moves the loop by `DrainEncode` |
| StoreLoop.Loop.FinalRename | storage/interface.go:50-59 | the last rename moves the loop by `DrainRename`; if it succeeds and nothing was submitted after the shutdown, every request received has been processed and the file holds their fold |
| StoreLoop.Loop.Read | storage/interface.go:32-49 | a reader at any time gets fresh maps that mean the store, and the families merged over all groups, each with the predefined help string of its name or else that of a stored family of the name; the loop's state is what it was |
| StoreLoop.Loop.LoopIsSafe | storage/interface.go:28-49 | after any steps of any goroutines and clients in any order: the store of objects is the fold of the processed requests, which are the first ones received, each meaning what it said when submitted; the file is the fold of a prefix; and everything any reader was ever given means what it meant then, whatever was submitted or served since |
| StoreLoop.Loop.ToldAs | storage/interface.go:94-96 | at any moment each client has been sent exactly: nothing while its request waits, the error if it is rejected, the close if it was processed before the drain |
| StoreLoop.Restart | storage/diskmetricstore.go:78-105 | a loop started on the file after a crash at any moment has the store after a prefix of the requests the old one had processed, and the same predefined help strings |
| EndToEnd.MeansIs | storage/interface.go:70-103 | what is applied is what was submitted: same labels, time, mode and families, with nothing changed but the labels of the metrics |
| EndToEnd.PushIsInStore | storage/diskmetricstore.go:268-309 | after an accepted request, and as long as no later one deletes or replaces its group or brings that family, each family it brought is in the store of objects, with the values and sanitized labels it was submitted with |
| EndToEnd.ReadAfterPush | storage/diskmetricstore.go:141-189 | and a reader finds every one of its metrics under its name |
| Wipe.WriteQueue.Submit | storage/diskmetricstore.go:107-110 | a submitted request goes to the end of the queue |
| Wipe.WipeMetricStore | handler/wipe.go:36-42 | one delete is submitted for every group of the snapshot, in some order, and nothing else |
| Wipe.GroupSurvivesIff | storage/diskmetricstore.go:272-287 | a group is there after a run exactly if the last write to its key was a push, or there was none and it was there before |
| Wipe.RunsKeepKeys | storage/diskmetricstore.go:272-287 | groups stay filed under the keys of their labels, for any labels |
| Wipe.WipedGroupWasPushedAgain | handler/wipe.go:36-42 | a group that is there after the deletes of a wipe was pushed after its own delete |
| Wipe.WipeLeavesIff | handler/wipe.go:36-42 | with no other requests a wipe leaves exactly the groups filed under a key that is not the key of any group's labels |
| Wipe.WipeEmpties | handler/wipe.go:36-42 | so it leaves none if groups are filed under their own keys |
| Wipe.WipeAtRest | handler/wipe.go:36-42 | snapshot, deletes and the loop together empty the store |

## Left out

- HTTP routing, flags, TLS, compression, instrumentation, logging, the HTML page but for the delete button, the status and query APIs: wiring or presentation.
- Reading a request's body: the families of a request are data. Repeated families of one name in a protobuf body override each other before the request exists.
- Values of counters, histograms, summaries: a metric's payload is its type and one number, which no code in scope looks into except for the two gauges.
- Escaped label names and UTF-8 names: escaping is off and names are legacy names. `encodeURIComponent` and the router's decoding are taken to cancel out.
- `Gather`: help strings, suffix clashes, invalid label names and repeated label names inside one metric are further conditions of the client library; the model has the two the documentation names.
- Where the predefined help strings come from: they are a parameter.
- Float rounding of times: exact numbers of seconds. Times before the zero time are possible in the model but mean nothing.
- Slice capacity: a Go slice is a sequence, so an append never writes into a neighbour's backing array. The copies the code makes before appending are modelled.
- Label maps of requests and groups are values: that a group keeps the very map object of its first request is not visible.
- Families missing after decoding a corrupted file (storage/diskmetricstore.go:151-154) and a file that cannot be read at start: the store starts from what the file held.
- File system: encoding gives the store or fails, renaming is atomic or fails. Removing a temporary file after a failure is not modelled.
- The queue's capacity of 1000 and the blocking of a full queue; health checks.
- The lock: applying a request, encoding and reading are single steps of the interleaving, and checking a request reads the store that only the loop itself changes.
- GroupingKey.KeysAreUnique: asks that one map be free of 0xFF and that the other be so too or be no smaller; what holds without that is `GroupingKey.KeyIsOwnIff`.
- GatherCheck.GatherDecidesConsistency: leaves out the type a family declares, which is in `TypeCheck`.
- Serving.GatherStore: leaves it out too, and with it the verdict on a protobuf push whose family declares a type that its metrics do not have; that verdict is no function of the store (`TypeCheck.BadTypeDependsOnOrder`).
- StoreRuns.CheckedRunsConsistentIff: asks for labels without 0xFF and no pushed failure time, because with them a rejected push may land in a group with other labels or keep a foreign gauge.
- StoreRuns.SuccessFlagIsLastVerdict: asks for increasing times; requests carry the time of arrival, which need not be the order of the queue. What holds for any times is `PushResults.FlagAfterAccepted` and `PushResults.FlagAfterRejected`.
- PushResults.FlagAfterAccepted: asks that the push brings no failure time of its own; one that does sets the gauge to anything.
- Acceptance.CheckedIsAcceptedIff: asks for a consistent store; on another one only a push that mends it is accepted.
- PushResults.SanitizedIsExposed: asks that no label is named twice; with repeated names see `LabelSpec.SanitizedHasGroupingLabels` and `Idempotence`.
- Queue.ServeQueue: the requests of the queue are there at the start; submitting while the loop works is in `StoreLoop`.
- Queue.ReadThenServe: covers the requests of one queue; requests created later are in `StoreLoop.Loop.LoopIsSafe`.
- StoreLoop.Loop.SubmitWriteRequest: asks for a request that shares no object with anything the loop knows, as one made by `StoreLoop.Loop.Receive` does; the queue has no bound.
- Serving.IsRequest: a request's families are trees of objects that share nothing with the store or with other requests, as freshly decoded ones are.
