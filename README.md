# Log discovery and event plumbing of the Datadog agent, in Dafny

This project models four small pieces of the Datadog agent and proves properties of them.

- **Container scanner** (`ContainerScanner`, with `GoStrings` for the parts of Go's
  `strings` package it relies on). `New` keeps the container sources. The predicate
  `sourceShouldMonitorContainer` matches a container against a source's image and label
  filter. `scan` reconciles the registry of Docker tailers against a snapshot of the
  running containers. `Stop` stops every tailer. The `Scanner` class holds the
  `sources`, the `tailers` map and the `shouldStop` flag. It also keeps `stopLog`,
  every `Stop(bool)` call made on a tailer, so "stopped before removal" can be stated.
  Each loop of `scan` and `Stop` is a method with its invariants. The two loops of the
  first phase (over the containers, and over the sources for one container) are proved
  equal to a fold (`Visit`, `VisitSources`, `VisitContainers`). The removal loop and the
  loop of `Stop` range over a map; they are specified by `StopsExactly`: every tailer
  they must stop is stopped once, in whatever order. Lemmas about the fold prove what a
  scan achieves: the registry holds exactly the matched IDs, each stopped tailer is
  stopped once, and a new tailer tails the first source that asks for the first listed
  container with its ID.
- **File discovery** (`FileProvider`). `FilesToTail` walks the sources in order. A
  literal path gives one `File` (`NewFile`); a wildcard path is expanded by
  `filepath.Glob`, given as an oracle function. Each failed or empty expansion records
  one status error. The walk stops at `filesLimit` files. The loops are proved equal
  to "the first `filesLimit` files of all contributions", and the errors and Glob calls
  are exactly those of the sources examined.
- **Docker event fan-out** (`EventFanout`). The `Fanout` class holds the configuration,
  the `listeners` map of bounded queues and the `running` flag. `stopPending` stands for
  the one-slot stop channel. `retired` logs every output closed so far. A send times
  out exactly when its queue is full. One round of `dispatch` is `Dispatch`
  (broadcast, then eviction), and its stop branch is `HandleStop`.
- **Kubernetes event bundle** (`KubernetesEventBundle`). The `Bundle` class holds the
  fields of `kubernetesEventBundle`. Its invariant ties `timeStamp`, `lastTimestamp`,
  `countByAction` and `readableKey` to functions of the bundled events. `AddEvent`
  performs the checks and updates. `FormatEvents` covers the error case and the `Host`,
  `Ts` and `AggregationKey` fields.

`Wrappers` holds `Option` and `Result`. `LogsConfig` holds the `LogSource` fields the
models read.

Three behaviours of the fan-out's code shape the model:

- `Setup` compares the write timeout and the output buffer size with 0 by equality, although its
  error messages ask for numbers higher than 0. The as-written checks are kept as
  `ValidateAsWritten`. The state machine uses the corrected checks, `Validate` (see Findings and
  "Left out").
- `Setup` keeps `running` as it was and drops the old listeners without closing them.
- `Stop` sends on a one-slot channel. A second `Stop` while a request is pending blocks the caller,
  and so does a `Stop` before any `Setup`, when the channel is nil.

## Model

| member | source | states |
|---|---|---|
| GoStrings.Split | pkg/logs/input/container/scanner.go:165 | `strings.Split` on one character gives at least one piece, and no piece holds the separator |
| GoStrings.JoinSplit | pkg/logs/input/container/scanner.go:165 | joining the pieces of a split with the separator gives back the original label string |
| GoStrings.SplitJoin | pkg/logs/input/container/scanner.go:165 | splitting a join of comma-free entries gives back exactly those entries, so a filter is read as the list it was written from |
| GoStrings.JoinStartsWith | pkg/logs/input/container/scanner.go:165 | a joined filter starts with its first entry |
| GoStrings.SkipSpaces | pkg/logs/input/container/scanner.go:167 | the index of the first non-space at or after `i`; everything skipped is a space |
| GoStrings.SkipTrailingSpaces | pkg/logs/input/container/scanner.go:167 | the end of a slice once its trailing spaces are dropped; everything dropped is a space |
| GoStrings.TrimSpaceIsSlice | pkg/logs/input/container/scanner.go:167 | `strings.TrimSpace` returns a slice of its input with only spaces before and after it, and the slice neither starts nor ends with a space |
| GoStrings.TrimSpace | pkg/logs/input/container/scanner.go:167 | the trimmed string is no longer than the input and neither starts nor ends with a space; `TrimSpaceIsSlice` shows it is the slice between the leading and trailing spaces |
| GoStrings.TrimSpaceOfTrimmed | pkg/logs/input/container/scanner.go:167 | trimming a string with no space at either end leaves it unchanged |
| GoStrings.LeadingField | pkg/logs/input/container/scanner.go:168-170 | the longest separator-free prefix of a string, stopped by a separator or the end |
| GoStrings.TrimLeadingSpace | pkg/logs/input/container/scanner.go:167 | a space before a word with no space at either end is trimmed away, leaving the word |
| GoStrings.TrimSpaceIsIdempotent | pkg/logs/input/container/scanner.go:167 | trimming a trimmed string changes nothing |
| GoStrings.SplitFuncIsSplit | pkg/logs/input/container/scanner.go:165-170 | splitting at a set of separators is `strings.Split` when the set is one character |
| GoStrings.SplitFuncAfterWord | pkg/logs/input/container/scanner.go:168-170 | a separator-free word followed by a separator (or by nothing) is the first piece, and the pieces after the separator follow it |
| GoStrings.FieldsAreNonEmptyPieces | pkg/logs/input/container/scanner.go:168-170 | `strings.FieldsFunc` returns exactly the non-empty pieces between separator characters, in order: a run of separators, or one at either end, yields no empty field |
| GoStrings.FieldsFunc | pkg/logs/input/container/scanner.go:168-170 | every field is non-empty and holds no separator; `FieldsAreNonEmptyPieces` states which fields come out: exactly the non-empty pieces between separators, in order |
| GoStrings.FieldsOfOneWord | pkg/logs/input/container/scanner.go:168-170 | a word with no `:` or `=` is a single field |
| GoStrings.FieldsOfTwoWords | pkg/logs/input/container/scanner.go:168-170 | `key:value` or `key=value` with plain words on both sides gives exactly the two fields `key` and `value` |
| GoStrings.FieldsAfterWord | pkg/logs/input/container/scanner.go:168-170 | a non-empty word followed by a separator (or by nothing) is the first field, and the fields of the rest follow it |
| GoStrings.FieldsAfterSeparators | pkg/logs/input/container/scanner.go:168-170 | separators in front of a string add no field |
| GoStrings.FieldsOfSeparatedWords | pkg/logs/input/container/scanner.go:168-170 | two words around a run of separators of any length, such as `k::v`, give exactly the two fields |
| GoStrings.FieldsOfThreeWords | pkg/logs/input/container/scanner.go:168-170 | three words around two separators, such as `a:b:c`, give exactly three fields |
| GoStrings.LeadingFieldOfWord | pkg/logs/input/container/scanner.go:168-170 | the leading field of a word followed by a separator (or nothing) is the word |
| ContainerScanner.ContainerSourcesMembership | pkg/logs/input/container/scanner.go:46-53 | `New` keeps a source if and only if its type is `DockerType` |
| ContainerScanner.ContainerSourcesSnoc | pkg/logs/input/container/scanner.go:46-53 | one more source is appended at the end of the kept list exactly when it is a container source |
| ContainerScanner.ContainerSourcesKeepsOrder | pkg/logs/input/container/scanner.go:46-53 | filtering a concatenation concatenates the filtered parts, so the kept sources keep their relative order |
| ContainerScanner.ImageFilterIsConjunctive | pkg/logs/input/container/scanner.go:160-162 | a source with an image never matches a container with another image, whatever its labels |
| ContainerScanner.OpenSourceMatchesAll | pkg/logs/input/container/scanner.go:160-179 | a source with neither image nor label filter matches every container |
| ContainerScanner.ShouldMonitor | pkg/logs/input/container/scanner.go:159-180 | a source with an image matches only containers with that image, and a source with neither image nor label filter matches every container; past the image test, `LabelFilterIsDisjunction` states that a label filter matches if and only if one of its entries does |
| ContainerScanner.LabelEntryMatches | pkg/logs/input/container/scanner.go:165-175 | an entry whose trimmed text is a label key always matches, and an empty entry (from `a,,b` or a trailing comma) matches only a container with an empty label key; `EntryIsTrimmed` and `KeyValueEntry` state the padded and `key:value` cases |
| ContainerScanner.EntryIsTrimmed | pkg/logs/input/container/scanner.go:167-175 | an entry matches exactly as its trimmed text does: the spaces around it never matter |
| ContainerScanner.BareKeyEntry | pkg/logs/input/container/scanner.go:165-175 | a bare-key entry, padded with spaces or not, matches exactly the containers that carry that label key |
| ContainerScanner.KeyValueEntry | pkg/logs/input/container/scanner.go:165-175 | a `key:value` or `key=value` entry, padded or not, matches if and only if the label `key` equals `value` (or the whole trimmed entry is itself a label key) |
| ContainerScanner.SeparatorRunEntry | pkg/logs/input/container/scanner.go:168-175 | an entry with a run of separators between key and value, such as `env::prod`, has two fields, so it matches a container whose label `env` is `prod` (or that carries the whole entry as a label key) |
| ContainerScanner.ThreeFieldEntry | pkg/logs/input/container/scanner.go:168-175 | an entry with three fields, such as `a:b:c`, is never read as a pair: it matches only a container carrying the whole entry as a label key |
| ContainerScanner.LabelFilterIsDisjunction | pkg/logs/input/container/scanner.go:163-178 | past the image test, a label filter matches if and only if one of its comma-separated entries matches |
| ContainerScanner.KeyValueFilter | pkg/logs/input/container/scanner.go:163-178 | a one-entry filter such as `env:prod`, with or without spaces around it, accepts a container exactly when its label `env` is `prod` (or it has a label key `env:prod`) |
| ContainerScanner.BareKeysFilter | pkg/logs/input/container/scanner.go:163-178 | a filter of bare keys, each with or without spaces around it, accepts exactly the containers carrying one of the trimmed keys |
| ContainerScanner.SpaceAfterCommaFilter | pkg/logs/input/container/scanner.go:163-178 | a filter written with a space after the comma, such as `foo, bar`, accepts exactly the containers carrying the label key `foo` or `bar` |
| ContainerScanner.MatchedIdsSpec | pkg/logs/input/container/scanner.go:111-117 | `containersToMonitor` holds an ID if and only if some listed container with that ID is matched by some source |
| ContainerScanner.VisitAgain | pkg/logs/input/container/scanner.go:115-127 | once a container's ID is matched its tailer is healthy (`MatchedIsTailed`), so a second source matching the same container changes nothing: no extra tailer, no extra stop |
| ContainerScanner.MatchedIsTailed | pkg/logs/input/container/scanner.go:113-123 | during the first loop every ID already matched has a tailer that has not raised `shouldStop` |
| ContainerScanner.VisitHealthy | pkg/logs/input/container/scanner.go:119-126 | a matched container whose tailer has not raised `shouldStop` keeps that tailer untouched |
| ContainerScanner.VisitUntailed | pkg/logs/input/container/scanner.go:119-126 | when the loops first reach a matching pair for an ID that has no tailer, that container gets exactly one new tailer, tailing that very source, in the scan's mode |
| ContainerScanner.VisitFlagged | pkg/logs/input/container/scanner.go:119-126 | when the loops first reach a matching pair for an ID whose tailer raised `shouldStop`, that tailer is stopped with `Stop(false)` once and replaced by one new tailer tailing that very source |
| ContainerScanner.VisitStep | pkg/logs/input/container/scanner.go:116-127 | one turn of the inner loop keeps the first-phase invariant (untouched, kept or fresh tailers; flagged ones stopped once) |
| ContainerScanner.VisitSourcesEffect | pkg/logs/input/container/scanner.go:115-128 | the inner loop over the sources keeps that invariant and adds the container to the matched set exactly when some source matched |
| ContainerScanner.VisitSourcesStep | pkg/logs/input/container/scanner.go:115-128 | visiting one more source extends the invariant from the first `n - 1` sources to the first `n` |
| ContainerScanner.VisitContainersEffect | pkg/logs/input/container/scanner.go:114-129 | after the first loop the invariant holds for exactly the matched IDs |
| ContainerScanner.FirstMatchFrom | pkg/logs/input/container/scanner.go:115-116 | the index of the first source, from a given one on, that asks for a container: that source asks for it and no source before it does |
| ContainerScanner.FirstMatchedFrom | pkg/logs/input/container/scanner.go:114-116 | the index of the first listed container, from a given one on, with a given ID that some source asks for: it has the ID and is asked for, and no container before it is both |
| ContainerScanner.ChosenSourceIsFirstVisit | pkg/logs/input/container/scanner.go:114-126 | if source `j` asks for container `i`, no earlier container with that ID is asked for and no earlier source asks for container `i`, then `ChosenSource` for that ID is source `j`: the pair at which the loops register the new tailer |
| ContainerScanner.ReconciledKeys | pkg/logs/input/container/scanner.go:110-137 | after a scan the registry's keys are exactly the IDs of listed containers that some source matches |
| ContainerScanner.ReconciledEntries | pkg/logs/input/container/scanner.go:114-137 | after a scan every tailer is registered under its container's ID; a still-monitored, unflagged tailer is the old one; any other is new, healthy, in the scan's mode, and tails `ChosenSource`: the first source that asks for the first listed container with that ID |
| ContainerScanner.ReconcileIsIdempotent | pkg/logs/input/container/scanner.go:110-137 | scanning the same snapshot twice gives the registry of scanning it once |
| ContainerScanner.VictimsAreDroppedOrReplaced | pkg/logs/input/container/scanner.go:119-137 | a scan stops a tailer if and only if the tailer is then dropped or replaced |
| ContainerScanner.ListingFailureDropsEverything | pkg/logs/input/container/scanner.go:145-153 | a failed listing reads as no container, so the scan stops and drops every tailer |
| ContainerScanner.ListedContainers | pkg/logs/input/container/scanner.go:145-153 | a failed listing reads as no container at all and a successful one as its containers; `ListingFailureDropsEverything` shows that a scan after a failed listing then stops and drops every tailer |
| ContainerScanner.PhasesMakeScan | pkg/logs/input/container/scanner.go:110-137 | the two loops of `scan` together give the reconciled registry and stop each victim exactly once with `Stop(false)` |
| ContainerScanner.StopAll | pkg/logs/input/container/scanner.go:79-87 | the loop of `Stop` calls `Stop(argument)` exactly once on every registered tailer and on nothing else |
| ContainerScanner.UnlistedStep | pkg/logs/input/container/scanner.go:132-137 | one turn of the removal loop keeps its invariant: the stopped tailers are exactly the visited unlisted ones, each stopped once, and those are gone from the registry |
| ContainerScanner.StopUnlisted | pkg/logs/input/container/scanner.go:132-137 | the removal loop keeps exactly the monitored tailers and stops every other one exactly once with `Stop(false)` |
| ContainerScanner.Scanner.constructor | pkg/logs/input/container/scanner.go:44-63 | `New` keeps the container sources in order, with no tailer and `shouldStop` unset |
| ContainerScanner.Scanner.Setup | pkg/logs/input/container/scanner.go:183-208 | with no container source it fails with "no container source" before any scan; a failed client fails next; otherwise it runs a scan that resumes from recorded offsets |
| ContainerScanner.Scanner.Stop | pkg/logs/input/container/scanner.go:74-90 | `Stop` sets `shouldStop`, calls `Stop(true)` once on every tailer and leaves the registry empty |
| ContainerScanner.Scanner.StopTailer | pkg/logs/input/container/scanner.go:140-143 | `stopTailer` logs `Stop(false)` on the tailer, then deletes its container ID and nothing else |
| ContainerScanner.Scanner.SetupTailer | pkg/logs/input/container/scanner.go:211-224 | `setupTailer` registers one new tailer for the container, from the beginning when asked and from the recorded offset otherwise, even when starting it fails |
| ContainerScanner.Scanner.Scan | pkg/logs/input/container/scanner.go:102-138 | once stopped a scan changes nothing; otherwise it leaves the reconciled registry and stops each victim exactly once |
| ContainerScanner.Scanner.MonitorContainers | pkg/logs/input/container/scanner.go:110-129 | the first loop returns exactly the matched IDs and leaves the registry and stop calls of the fold over the containers |
| ContainerScanner.Scanner.MonitorContainer | pkg/logs/input/container/scanner.go:115-128 | the inner loop reports whether any source matched and leaves the registry and stop calls of the fold over the sources |
| ContainerScanner.Scanner.EnsureTailed | pkg/logs/input/container/scanner.go:116-127 | for a matching source, a flagged tailer is stopped and replaced, a missing one is created and a live one is kept |
| ContainerScanner.Scanner.StopUnmonitored | pkg/logs/input/container/scanner.go:131-137 | the second loop keeps exactly the monitored tailers and logs `Stop(false)` once for every other one |
| FileProvider.ContainsWildcards | pkg/logs/input/tailer/file_provider.go:87-89 | true if and only if the path holds `*`, `?` or `[` |
| FileProvider.ContributionPaths | pkg/logs/input/tailer/file_provider.go:56-77 | reading the paths back from a source's files gives its literal path, or exactly Glob's matches in Glob's order, and every file carries that source |
| FileProvider.PathsOfFilesOf | pkg/logs/input/tailer/file_provider.go:75-77 | the files built from Glob's matches keep those paths, in order, one file per match |
| FileProvider.FilesOf | pkg/logs/input/tailer/file_provider.go:75-77 | one file per path, in order, each carrying the source; `PathsOfFilesOf` reads the paths back unchanged |
| FileProvider.FailureOf | pkg/logs/input/tailer/file_provider.go:62-74 | a source fails if and only if it is a wildcard path that contributes nothing; it fails as a malformed pattern exactly when Glob reports a bad pattern |
| FileProvider.ErrorsOf | pkg/logs/input/tailer/file_provider.go:62-74 | each recorded error names a failing source, with that source's failure and pattern, in increasing source order |
| FileProvider.GlobbedOf | pkg/logs/input/tailer/file_provider.go:56-62 | Glob is called on a source if and only if its path has a wildcard, in source order |
| FileProvider.ExaminedFrom | pkg/logs/input/tailer/file_provider.go:53 | the walk goes on exactly while fewer than `filesLimit` files have been found, and stops at the first source reached with the ceiling met |
| FileProvider.FilesToTail | pkg/logs/input/tailer/file_provider.go:51-84 | the result is the first `filesLimit` files of all contributions in source order, never more than `filesLimit`; the errors and Glob calls are those of the examined sources |
| FileProvider.ExamineSource | pkg/logs/input/tailer/file_provider.go:54-77 | one source: a literal path is appended without Glob; a wildcard path records its failure or appends its matches up to the ceiling |
| FileProvider.AppendMatches | pkg/logs/input/tailer/file_provider.go:75-77 | the inner loop appends Glob's matches while there is room, so a source can be cut mid-expansion at the ceiling |
| FileProvider.AllFilesStep | pkg/logs/input/tailer/file_provider.go:53-78 | walking one more source appends its contribution, its error if any and its Glob call if any |
| FileProvider.AllFilesGrows | pkg/logs/input/tailer/file_provider.go:53-78 | walking more sources only appends files |
| FileProvider.TakeOfPrefix | pkg/logs/input/tailer/file_provider.go:53 | stopping at the ceiling loses nothing: the later sources cannot change the first `filesLimit` files |
| FileProvider.AllFilesProvenance | pkg/logs/input/tailer/file_provider.go:56-77 | every file carries one of the sources and a path that source produces (its literal path or one of its matches) |
| FileProvider.ResultProvenance | pkg/logs/input/tailer/file_provider.go:51-84 | every returned file carries the source whose path produced it |
| FileProvider.ErrorsOfStep | pkg/logs/input/tailer/file_provider.go:62-74 | walking one more source extends the error list, by one error naming it when it fails |
| FileProvider.ErrorsOfGrows | pkg/logs/input/tailer/file_provider.go:53-74 | walking more sources only appends errors |
| FileProvider.FailureIsRecorded | pkg/logs/input/tailer/file_provider.go:62-74 | every failing source has an error naming it |
| FileProvider.EveryFailureIsReported | pkg/logs/input/tailer/file_provider.go:62-74 | a source gets an error if and only if its expansion fails, and at most one |
| FileProvider.FailureDoesNotStopTheWalk | pkg/logs/input/tailer/file_provider.go:62-74 | a failing source contributes nothing, so the walk still reaches the next source |
| FileProvider.LiteralSourceContributesItself | pkg/logs/input/tailer/file_provider.go:56-59 | a literal source contributes exactly one file with its own path, and Glob is not called for it |
| FileProvider.NoRoomExaminesNothing | pkg/logs/input/tailer/file_provider.go:53 | with a ceiling of zero or less no source is examined and nothing is returned |
| EventFanout.ValidateAsWritten | pkg/util/docker/autogen_fanout.go:24-32 | the checks as written accept a configuration if and only if neither number is 0 and the name is not empty |
| EventFanout.NegativeBufferSizePassesSetup | pkg/util/docker/autogen_fanout.go:27-29 | a buffer size of -1 passes the checks as written, yet `make(chan, -1)` in the next `Suscribe` cannot succeed |
| EventFanout.NegativeTimeoutPassesSetup | pkg/util/docker/autogen_fanout.go:24-26 | a write timeout of -1 passes the checks as written |
| EventFanout.Validate | pkg/util/docker/autogen_fanout.go:24-32 | the checks as their messages state them: timeout first, then buffer size, then name; each error if and only if it is the first check to fail |
| EventFanout.ValidateCorrectsOnlyNegatives | pkg/util/docker/autogen_fanout.go:24-32 | the corrected checks agree with the written ones on non-negative numbers, and every configuration they accept gives outputs that can be made |
| EventFanout.SendKeepsLive | pkg/util/docker/autogen_fanout.go:132-147 | on a live output a send times out exactly when the item's queue is at capacity; a send that succeeds keeps everything already buffered, in order, and keeps the output open and within its capacities |
| EventFanout.Send | pkg/util/docker/autogen_fanout.go:132-147 | a send succeeds exactly when the item's queue has room and fails with `ErrWriteTimeout` otherwise; on success the item is appended to its own queue and nothing else changes; `SendKeepsLive` shows a live output stays live with its old contents as a prefix |
| EventFanout.CloseKeepsBuffered | pkg/util/docker/autogen_fanout.go:148-152 | `close` keeps every buffered event and error readable, delivers the error exactly when the error queue has room, never overfills it, and leaves the output closed |
| EventFanout.Close | pkg/util/docker/autogen_fanout.go:148-152 | `close` marks the output closed, keeps its data queue and capacity, and appends the error only when the error queue has room; `CloseKeepsBuffered` shows nothing buffered is lost and the error queue never overfills |
| EventFanout.UnsuscribeUndoesSuscribe | pkg/util/docker/autogen_fanout.go:51-68 | unsubscribing a name just subscribed gives the listeners back |
| EventFanout.RoundPartitions | pkg/util/docker/autogen_fanout.go:93-122 | a round splits the listeners in two: each one either survives or is evicted, never both |
| EventFanout.SurvivorsSpec | pkg/util/docker/autogen_fanout.go:93-122 | a listener survives a round exactly when it had room, and then has the item at the back of its queue |
| EventFanout.AfterRoundsIsFifo | pkg/util/docker/autogen_fanout.go:93-122 | a listener surviving a run of rounds has received every event of the run, in the producer's order, after what it had |
| EventFanout.OverflowEvicts | pkg/util/docker/autogen_fanout.go:93-122 | a listener nobody reads is evicted once a run brings more events than its free room |
| EventFanout.AfterRoundsKeepsCapacity | pkg/util/docker/autogen_fanout.go:93-122 | rounds keep a surviving listener's capacity and never overfill its data queue |
| EventFanout.RetirementsSpec | pkg/util/docker/autogen_fanout.go:86-89 | each closed output is logged once, closed with the given error, at its name's position in the iteration order |
| EventFanout.SendAll | pkg/util/docker/autogen_fanout.go:95-100 | the broadcast loop gives the item to every output with room and collects exactly the names whose send failed |
| EventFanout.EvictAll | pkg/util/docker/autogen_fanout.go:115-122 | the eviction loop closes every failed listener with `ErrWriteTimeout`, once each, removes exactly those, and reports whether that left none |
| EventFanout.CloseAll | pkg/util/docker/autogen_fanout.go:86-89 | the stop loop closes every listener with the given error, once each |
| EventFanout.Fanout.constructor | pkg/util/docker/autogen_fanout.go:13-21 | a zero fan-out is not configured, has no listener, does not run and has no stop request |
| EventFanout.Fanout.Setup | pkg/util/docker/autogen_fanout.go:23-41 | with the corrected checks, a refused configuration changes nothing; an accepted one is stored with no listener and an empty stop channel, and a running dispatcher keeps running |
| EventFanout.Fanout.Stop | pkg/util/docker/autogen_fanout.go:42-44 | a stop request is left pending, unless one already is or the fan-out was never set up, in which case the send blocks and nothing changes |
| EventFanout.Fanout.Suscribe | pkg/util/docker/autogen_fanout.go:45-57 | a name already present is refused with nothing changed; a new one gets empty queues of the configured capacity and the dispatcher runs |
| EventFanout.Fanout.UnsuscribeWithError | pkg/util/docker/autogen_fanout.go:61-74 | an unknown name is refused with nothing changed; a known one is closed with the error and removed, and the result is true exactly when a running fan-out is left with no listener, which requests a stop |
| EventFanout.Fanout.CloseListener | pkg/util/docker/autogen_fanout.go:67-68 | the named output is closed with the error, logged, and only that entry is removed; the fan-out's invariant keeps every listed output open and every logged one closed, so an output is closed only as it leaves the map |
| EventFanout.Fanout.Unsuscribe | pkg/util/docker/autogen_fanout.go:58-60 | `Unsuscribe` is `UnsuscribeWithError` with `io.EOF` |
| EventFanout.Fanout.Dispatch | pkg/util/docker/autogen_fanout.go:93-122 | a round leaves exactly the listeners with room, each with the item appended; the failed ones are closed with `ErrWriteTimeout` and removed |
| EventFanout.Fanout.Broadcast | pkg/util/docker/autogen_fanout.go:93-112 | the broadcast keeps every listener, appends the item where there is room and returns exactly the failed names |
| EventFanout.Fanout.Evict | pkg/util/docker/autogen_fanout.go:115-122 | the eviction removes exactly the failed listeners, closes each once with `ErrWriteTimeout`, and requests a stop when it empties the map |
| EventFanout.Fanout.ReceiveData | pkg/util/docker/autogen_fanout.go:51-56 | a consumer reading the data channel that `Suscribe` returned gets the oldest buffered event, or nothing when the queue is empty; only that listener's queue loses its head, and the fan-out's invariant still holds |
| EventFanout.Fanout.HandleStop | pkg/util/docker/autogen_fanout.go:84-92 | the stop branch closes every listener with `io.EOF`, empties the map, clears the request and stops running |
| KubernetesEventBundle.Check | pkg/collector/corechecks/cluster/kubernetes_eventbundle.go:40-48 | an event is refused for a missing parent, then missing attributes, then a mismatching UID, each if and only if it is the first check to fail; an accepted event is complete and about this object |
| KubernetesEventBundle.LastOf | pkg/collector/corechecks/cluster/kubernetes_eventbundle.go:51-52 | `lastTimestamp` is at least `timeStamp` and at least the last event's last-seen time, and equals one of the two |
| KubernetesEventBundle.MaxCreationIsMaximum | pkg/collector/corechecks/cluster/kubernetes_eventbundle.go:51 | `timeStamp` is never negative, bounds every creation time, and is 0 or one of them |
| KubernetesEventBundle.MaxCreationGrows | pkg/collector/corechecks/cluster/kubernetes_eventbundle.go:51 | adding events never lowers `timeStamp` |
| KubernetesEventBundle.LastTimestampCanDecrease | pkg/collector/corechecks/cluster/kubernetes_eventbundle.go:52 | `lastTimestamp` is not a running maximum: an event last seen at 50 after one seen at 100 brings it down from 100 to 50 |
| KubernetesEventBundle.CountByActionSums | pkg/collector/corechecks/cluster/kubernetes_eventbundle.go:54 | `countByAction` has a key exactly for the actions of the events, each holding the sum of their counts |
| KubernetesEventBundle.AggregationKeyIdentifies | pkg/collector/corechecks/cluster/kubernetes_eventbundle.go:70 | two bundles with the same aggregation key are about the same object UID |
| KubernetesEventBundle.Bundle.constructor | pkg/collector/corechecks/cluster/kubernetes_eventbundle.go:30-36 | a new bundle has its UID and component, no event, zero timestamps and no count |
| KubernetesEventBundle.Bundle.AddEvent | pkg/collector/corechecks/cluster/kubernetes_eventbundle.go:38-57 | a refused event leaves the bundle unchanged; an accepted one is appended last, raises `timeStamp` to its creation time, sets `lastTimestamp` from the new `timeStamp`, adds its count to its action only, and sets the readable key |
| KubernetesEventBundle.Bundle.FormatEvents | pkg/collector/corechecks/cluster/kubernetes_eventbundle.go:59-80 | formatting fails if and only if the bundle is empty; otherwise it is stamped with `lastTimestamp` when modified and `timeStamp` when new, with key `kubernetes_apiserver:<objUid>` |
| KubernetesEventBundle.Bundle.FormattedTsBoundsCreations | pkg/collector/corechecks/cluster/kubernetes_eventbundle.go:69-75 | a formatted bundle is stamped no earlier than any of its events was created, and a modified one no earlier than a new one |

## Left out

- The Docker client, `tagger.Init`, the seelog calls and `humanReadableContainerID` are foreign calls or logging only. A scan is given the listing result; `Setup` is given whether the client could be built.
- ContainerScanner.Scanner.Setup: the source calls `UpdateClientVersion` on the client before it checks the error from `NewEnvClient`. What that does with a failed client depends on the Docker client library, which is not part of this model, so the model simply returns `ClientInitFailed`.
- The scanner's ticker, the `run` goroutine and the mutex are not modelled; every operation runs on its own.
- ContainerScanner.Scanner.Stop: stops the tailers one after the other. The source stops them in parallel and waits on a `WaitGroup`; that join is a concurrency property.
- ContainerScanner.Scanner.SetupTailer: the pipeline channel each new tailer takes from `pp.NextPipelineChan()` is not modelled; where a tailer's messages go is outside the scanner's state.
- A tailer's own behaviour (`NewDockerTailer`, `tailFromBeginning`, `recoverTailing`, the auditor) is not modelled. A tailer is a record with its mode. `FlagTailer` stands for a tailer raising `shouldStop`.
- Go's map iteration order is arbitrary. The loops that range over maps pick an arbitrary key each turn. Their stop and close logs are specified as "each exactly once", not in a fixed order.
- `filepath.Glob` and filesystem permissions: Glob is an oracle function from pattern to result. The saturation `log.Warn` at the ceiling is logging only.
- The fan-out's channels are bounded queues. `time.After` is not modelled: a full queue is the write timeout.
- EventFanout.Fanout.Suscribe: sets `running` at once. In the source the dispatch goroutine sets it later, so two quick `Suscribe` calls can both start a dispatcher.
- EventFanout.Fanout.Suscribe: requires a configured fan-out. Before any `Setup` the source writes into a nil map and panics; that panic is not modelled.
- EventFanout.Fanout.UnsuscribeWithError: when it empties a running fan-out while a stop request is already pending, the source's send on the one-slot channel blocks while holding the lock. The model returns true with the request still pending.
- EventFanout.Fanout.Evict: when the eviction empties a running fan-out while a stop request is already pending, the source's dispatcher blocks on its own one-slot `stopChan` in `UnsuscribeWithError` and never reads it again, a self-deadlock. The model leaves the request pending and lets the next round handle it.
- EventFanout.Fanout.ReceiveData: stands for a consumer reading the data channel of a listener that is still subscribed. Reading the error channel, and reading a channel after it was closed, are not modelled; a retired output keeps what it buffered in `retired`.
- Go strings are bytes, which `strings.TrimSpace` and `strings.FieldsFunc` decode as UTF-8, turning invalid bytes into U+FFFD. The model's strings are sequences of Unicode characters, so invalid UTF-8 in a label filter or a label is not modelled.
- EventFanout.Fanout.Setup: uses the corrected checks `Validate`, not `ValidateAsWritten`, so it refuses negative numbers that the source accepts. An output's capacity is a `nat`, so an output of negative capacity cannot be built; in the source the next `Suscribe` would panic in `make(chan)`. On `Config(-1, 0, name)` it reports the timeout error where the source reports the buffer-size error.
- EventFanout.Fanout.Setup: leaves a running dispatcher running and drops the old listeners without closing them, as the source does. Which channels the old dispatcher then reads is not modelled.
- The bodies of `fmt.Sprintf` messages, `formatStringIntMap` (its order follows Go's random map iteration), `time.Unix` rendering, and the `Title`, `Priority`, `SourceTypeName`, `EventType` and `Text` fields of the formatted event are not modelled.
- KubernetesEventBundle.Bundle.AddEvent: requires the pointers the source dereferences without checking (the UID once the attribute checks pass; the creation time, last-seen time and count once the UID matches). The source panics when they are nil.
- Timestamps are `int` seconds. The source keeps them as float64, which loses precision above 2^53, and converts them to int64. Counts are unbounded integers rather than Go `int`.
- `pkg/forwarder/transaction_test.go` tests an HTTP transaction against a test server and the clock; the transaction is not part of this model.

## Findings

| source | as written | input that shows it | evidently intended | confidence | as-written member | corrected member |
|---|---|---|---|---|---|---|
| pkg/util/docker/autogen_fanout.go:24-29 | `Setup` rejects a write timeout or an output buffer size only when it equals 0 | `Config(writeTimeout: -1, outputBufferSize: 100, name: "docker")` and `Config(1000000000, -1, "docker")` both pass; with the second, `make(chan, -1)` in the next `Suscribe` cannot succeed | both must be higher than 0, as the error messages say | not executed | EventFanout.ValidateAsWritten, EventFanout.NegativeBufferSizePassesSetup, EventFanout.NegativeTimeoutPassesSetup | EventFanout.Validate, EventFanout.ValidateCorrectsOnlyNegatives |
