/**
 * The container scanner of the logs agent: it keeps one tailer per running
 * container that some container source asks for, and reconciles that registry
 * against a fresh snapshot of the running containers on every scan.
 *
 * The Docker client, the tagger, the ticker that drives `run`, the mutex and
 * the goroutines of `Stop` are outside the model: a scan is given the result
 * of the container listing, and `Stop` stops the tailers one after the other.
 * A tailer is a record; what it does once started is not modelled.
 */
module ContainerScanner {
  import opened Wrappers
  import opened GoStrings
  import opened LogsConfig

  /** A running container as the Docker API lists it. */
  datatype Container = Container(id: string, image: string, labels: map<string, string>)

  /** How a new tailer starts: from the beginning of the container's output
      (`tailFromBeginning`) or from the offset the auditor recorded (`recoverTailing`). */
  datatype TailMode = FromBeginning | FromRecordedOffset

  /** A Docker tailer. `shouldStop` is raised by the tailer itself (for instance when
      its container exits); the scanner only reads it. */
  datatype Tailer = Tailer(containerId: string, source: LogSource, mode: TailMode, shouldStop: bool)

  /** One call of a tailer's `Stop`, with the boolean it was passed. */
  datatype StopCall = StopCall(tailer: Tailer, argument: bool)

  /** Why `setup` refuses to start the scanner. */
  datatype SetupError = NoContainerSource | ClientInitFailed

  function ModeOf(tailFromBeginning: bool): TailMode
  {
    if tailFromBeginning then FromBeginning else FromRecordedOffset
  }

  /** `listContainers`: a failed listing reads as no container at all. */
  function ListedContainers(listing: Option<seq<Container>>): (r: seq<Container>)
    ensures listing.None? ==> r == []
    ensures listing.Some? ==> r == listing.value
  {
    match listing
    case Some(containers) => containers
    case None => []
  }

  // ---------------------------------------------------------------------------
  // Source filter of `New`

  /** The container sources among `sources`, in their order. */
  function ContainerSources(sources: seq<LogSource>): seq<LogSource>
  {
    if sources == [] then []
    else
      var last := sources[|sources| - 1];
      ContainerSources(sources[..|sources| - 1]) + (if last.sourceType == DockerType then [last] else [])
  }

  /** `New` keeps exactly the container sources. */
  lemma {:induction false} ContainerSourcesMembership(sources: seq<LogSource>, x: LogSource)
    ensures x in ContainerSources(sources) <==> x in sources && x.sourceType == DockerType
  {
    if sources != [] {
      var init := sources[..|sources| - 1];
      ContainerSourcesMembership(init, x);
      assert sources == init + [sources[|sources| - 1]];
    }
  }

  /** Filtering one more source adds it at the end when it is a container source. */
  lemma ContainerSourcesSnoc(sources: seq<LogSource>, x: LogSource)
    ensures ContainerSources(sources + [x])
         == ContainerSources(sources) + (if x.sourceType == DockerType then [x] else [])
  {
    assert (sources + [x])[..|sources|] == sources;
  }

  /** `New` keeps the container sources in their original order: filtering a
      concatenation is concatenating the filtered parts. */
  lemma {:induction false} ContainerSourcesKeepsOrder(a: seq<LogSource>, b: seq<LogSource>)
    ensures ContainerSources(a + b) == ContainerSources(a) + ContainerSources(b)
    decreases |b|
  {
    if b == [] {
      assert a + b == a;
    } else {
      var init, last := b[..|b| - 1], b[|b| - 1];
      assert b == init + [last];
      assert a + b == (a + init) + [last];
      ContainerSourcesKeepsOrder(a, init);
      ContainerSourcesSnoc(a + init, last);
      ContainerSourcesSnoc(init, last);
      var t := if last.sourceType == DockerType then [last] else [];
      var x, y := ContainerSources(a), ContainerSources(init);
      assert (x + y) + t == x + (y + t);
    }
  }

  // ---------------------------------------------------------------------------
  // Match predicate `sourceShouldMonitorContainer`

  predicate IsLabelSeparator(c: char)
  {
    c == ':' || c == '='
  }

  /** A Go map lookup: the zero value "" for a missing key. */
  function LabelValue(labels: map<string, string>, key: string): string
  {
    if key in labels then labels[key] else ""
  }

  /** One entry of a label filter matches when, once trimmed, it is a label key of
      the container, or it splits on ':'/'=' into exactly two fields `k`, `v` with
      the container's label `k` equal to `v`. */
  predicate LabelEntryMatches(entry: string, labels: map<string, string>): (r: bool)
    ensures TrimSpace(entry) in labels ==> r
    ensures TrimSpace(entry) == "" ==> (r <==> "" in labels)
  {
    var trimmed := TrimSpace(entry);
    var parts := FieldsFunc(trimmed, IsLabelSeparator);
    trimmed in labels || (|parts| == 2 && LabelValue(labels, parts[0]) == parts[1])
  }

  /** `sourceShouldMonitorContainer`. */
  predicate ShouldMonitor(source: LogSource, container: Container): (r: bool)
    ensures r ==> source.image == "" || container.image == source.image
    ensures source.image == "" && source.labelFilter == "" ==> r
  {
    if source.image != "" && container.image != source.image then false
    else if source.labelFilter != "" then
      var entries := Split(source.labelFilter, ',');
      exists k | 0 <= k < |entries| :: LabelEntryMatches(entries[k], container.labels)
    else true
  }

  /** An image filter is conjunctive: a container with another image is never monitored. */
  lemma ImageFilterIsConjunctive(source: LogSource, container: Container)
    requires source.image != "" && container.image != source.image
    ensures !ShouldMonitor(source, container)
  {
  }

  /** A source with neither image nor label monitors every container. */
  lemma OpenSourceMatchesAll(source: LogSource, container: Container)
    requires source.image == "" && source.labelFilter == ""
    ensures ShouldMonitor(source, container)
  {
  }

  /** A word with no space, no label separator and no comma. */
  predicate PlainWord(w: string)
  {
    w != [] && forall k | 0 <= k < |w| :: !IsSpace(w[k]) && !IsLabelSeparator(w[k]) && w[k] != ','

  }

  /** An entry is matched by its trimmed text: the spaces around it do not matter. */
  lemma EntryIsTrimmed(entry: string, labels: map<string, string>)
    ensures LabelEntryMatches(entry, labels) <==> LabelEntryMatches(TrimSpace(entry), labels)
  {
    TrimSpaceIsIdempotent(entry);
  }

  /** A bare key entry, padded with spaces or not, matches exactly the containers that
      carry that label key. */
  lemma BareKeyEntry(entry: string, labels: map<string, string>)
    requires PlainWord(TrimSpace(entry))
    ensures LabelEntryMatches(entry, labels) <==> TrimSpace(entry) in labels
  {
    EntryIsTrimmed(entry, labels);
    TrimSpaceIsIdempotent(entry);
    FieldsOfOneWord(TrimSpace(entry), IsLabelSeparator);
  }

  /** A `key:value` or `key=value` entry, padded with spaces or not, matches when the
      container's label `key` is `value` (or, literally, when the whole trimmed entry is
      itself a label key). */
  lemma KeyValueEntry(entry: string, key: string, sep: char, value: string, labels: map<string, string>)
    requires PlainWord(key) && PlainWord(value) && IsLabelSeparator(sep)
    requires TrimSpace(entry) == key + [sep] + value
    ensures LabelEntryMatches(entry, labels)
        <==> (key + [sep] + value in labels || (key in labels && labels[key] == value))
  {
    TrimSpaceIsIdempotent(entry);
    FieldsOfTwoWords(key, sep, value, IsLabelSeparator);
  }

  /** A run of separators counts as one, so "env::prod" is read as the pair `env`, `prod`. */
  lemma SeparatorRunEntry(key: string, run: string, value: string, labels: map<string, string>)
    requires PlainWord(key) && PlainWord(value)
    requires run != [] && forall k | 0 <= k < |run| :: IsLabelSeparator(run[k])
    ensures LabelEntryMatches(key + run + value, labels)
        <==> (key + run + value in labels || LabelValue(labels, key) == value)
  {
    var e := key + run + value;
    assert e[0] == key[0] && e[|e| - 1] == value[|value| - 1];
    TrimSpaceOfTrimmed(e);
    FieldsOfSeparatedWords(key, run, value, IsLabelSeparator);
  }

  /** An entry with three fields, such as "a:b:c", is never read as a pair: it matches only
      as a label key. */
  lemma ThreeFieldEntry(a: string, c1: char, b: string, c2: char, d: string, labels: map<string, string>)
    requires PlainWord(a) && PlainWord(b) && PlainWord(d)
    requires IsLabelSeparator(c1) && IsLabelSeparator(c2)
    ensures LabelEntryMatches(a + [c1] + b + [c2] + d, labels) <==> a + [c1] + b + [c2] + d in labels
  {
    var e := a + [c1] + b + [c2] + d;
    assert e[0] == a[0] && e[|e| - 1] == d[|d| - 1];
    TrimSpaceOfTrimmed(e);
    FieldsOfThreeWords(a, c1, b, c2, d, IsLabelSeparator);
  }

  /** With a label filter made of comma-free entries, the predicate is the
      disjunction of the entries' matches (after the image test). */
  lemma LabelFilterIsDisjunction(source: LogSource, container: Container, entries: seq<string>)
    requires |entries| >= 1 && forall k | 0 <= k < |entries| :: ',' !in entries[k]
    requires source.labelFilter == Join(entries, ',') && source.labelFilter != ""
    requires source.image == "" || container.image == source.image
    ensures ShouldMonitor(source, container)
        <==> exists k | 0 <= k < |entries| :: LabelEntryMatches(entries[k], container.labels)
  {
    SplitJoin(entries, ',');
  }

  /** A single `key:value` filter (say "env:prod", or " env:prod " with spaces) accepts a
      container whose label `key` is `value` and rejects one where it is anything else. */
  lemma KeyValueFilter(source: LogSource, container: Container, key: string, sep: char, value: string)
    requires PlainWord(key) && PlainWord(value) && IsLabelSeparator(sep)
    requires ',' !in source.labelFilter && TrimSpace(source.labelFilter) == key + [sep] + value
    requires source.image == ""
    ensures ShouldMonitor(source, container)
        <==> (key + [sep] + value in container.labels || (key in container.labels && container.labels[key] == value))
  {
    var e := source.labelFilter;
    assert TrimSpace(e) != "";
    assert Join([e], ',') == e;
    LabelFilterIsDisjunction(source, container, [e]);
    KeyValueEntry(e, key, sep, value, container.labels);
  }

  /** A filter listing bare keys, with or without spaces around them, accepts exactly the
      containers that carry one of those label keys, whatever their values. */
  lemma BareKeysFilter(source: LogSource, container: Container, entries: seq<string>)
    requires |entries| >= 1
    requires forall k | 0 <= k < |entries| :: ',' !in entries[k] && PlainWord(TrimSpace(entries[k]))
    requires source.labelFilter == Join(entries, ',') && source.image == ""
    ensures ShouldMonitor(source, container)
        <==> exists k | 0 <= k < |entries| :: TrimSpace(entries[k]) in container.labels
  {
    assert TrimSpace(entries[0]) != [];
    JoinStartsWith(entries, ',');
    LabelFilterIsDisjunction(source, container, entries);
    forall k | 0 <= k < |entries|
      ensures LabelEntryMatches(entries[k], container.labels) <==> TrimSpace(entries[k]) in container.labels
    {
      BareKeyEntry(entries[k], container.labels);
    }
  }

  /** A filter written with a space after the comma, such as "foo, bar": the space is
      trimmed away, so a container is monitored exactly when it carries either label key. */
  lemma SpaceAfterCommaFilter(source: LogSource, container: Container, first: string, second: string)
    requires PlainWord(first) && PlainWord(second)
    requires source.labelFilter == first + ", " + second && source.image == ""
    ensures ShouldMonitor(source, container) <==> first in container.labels || second in container.labels
  {
    var padded := [' '] + second;
    var entries := [first, padded];
    assert Join(entries, ',') == first + [','] + padded;
    assert first + ", " + second == first + [','] + padded;
    TrimSpaceOfTrimmed(first);
    TrimLeadingSpace(' ', second);
    assert ',' !in padded by {
      assert forall k | 1 <= k < |padded| :: padded[k] == second[k - 1];
    }
    BareKeysFilter(source, container, entries);
  }

  // ---------------------------------------------------------------------------
  // Reconciliation, as a specification

  /** Some source asks for the container. */
  predicate AnySourceMatches(sources: seq<LogSource>, container: Container)
  {
    exists j | 0 <= j < |sources| :: ShouldMonitor(sources[j], container)
  }

  /** Some of the first `n` sources asks for the container. */
  predicate AnyOfFirstMatches(sources: seq<LogSource>, n: nat, container: Container)
    requires n <= |sources|
  {
    exists j | 0 <= j < n :: ShouldMonitor(sources[j], container)
  }

  /** `containersToMonitor` after the first `n` containers. */
  function MatchedIds(containers: seq<Container>, sources: seq<LogSource>, n: nat): set<string>
    requires n <= |containers|
  {
    if n == 0 then {}
    else
      MatchedIds(containers, sources, n - 1)
      + (if AnySourceMatches(sources, containers[n - 1]) then {containers[n - 1].id} else {})
  }

  /** The IDs of the listed containers that at least one source asks for. */
  function Monitored(containers: seq<Container>, sources: seq<LogSource>): set<string>
  {
    MatchedIds(containers, sources, |containers|)
  }

  /** The set the scan builds is the set of IDs of matched containers. */
  lemma {:induction false} MatchedIdsSpec(containers: seq<Container>, sources: seq<LogSource>, n: nat, id: string)
    requires n <= |containers|
    ensures id in MatchedIds(containers, sources, n)
        <==> exists k | 0 <= k < n :: containers[k].id == id && AnySourceMatches(sources, containers[k])
  {
    if n > 0 {
      MatchedIdsSpec(containers, sources, n - 1, id);
    }
  }

  /** Every tailer is registered under its container's ID. */
  predicate Keyed(tailers: map<string, Tailer>)
  {
    forall id | id in tailers :: tailers[id].containerId == id
  }

  /** The registry and the stop calls made so far during one scan. */
  datatype Registry = Registry(tailers: map<string, Tailer>, stops: seq<StopCall>)

  function NewTailer(container: Container, source: LogSource, mode: TailMode): Tailer
  {
    Tailer(container.id, source, mode, false)
  }

  /** The body of the scan's inner loop, for one container and one source. */
  function Visit(r: Registry, container: Container, source: LogSource, mode: TailMode): Registry
  {
    if !ShouldMonitor(source, container) then r
    else if container.id in r.tailers && r.tailers[container.id].shouldStop then
      Registry(r.tailers[container.id := NewTailer(container, source, mode)],
               r.stops + [StopCall(r.tailers[container.id], false)])
    else if container.id !in r.tailers then
      Registry(r.tailers[container.id := NewTailer(container, source, mode)], r.stops)
    else r
  }

  /** The inner loop after the first `n` sources. */
  function VisitSources(r: Registry, container: Container, sources: seq<LogSource>, n: nat, mode: TailMode): Registry
    requires n <= |sources|
  {
    if n == 0 then r
    else Visit(VisitSources(r, container, sources, n - 1, mode), container, sources[n - 1], mode)
  }

  /** The outer loop after the first `n` containers. */
  function VisitContainers(r: Registry, containers: seq<Container>, sources: seq<LogSource>, n: nat, mode: TailMode): Registry
    requires n <= |containers|
  {
    if n == 0 then r
    else VisitSources(VisitContainers(r, containers, sources, n - 1, mode), containers[n - 1], sources, |sources|, mode)
  }

  /** The registry a scan leaves: the first phase, then only the monitored IDs kept. */
  function Reconciled(t0: map<string, Tailer>, containers: seq<Container>, sources: seq<LogSource>, mode: TailMode): map<string, Tailer>
  {
    var t1 := VisitContainers(Registry(t0, []), containers, sources, |containers|, mode).tailers;
    var m := Monitored(containers, sources);
    map id | id in t1 && id in m :: t1[id]
  }

  /** The tailers a scan stops: those of unmonitored containers and those that raised shouldStop. */
  function Victims(t0: map<string, Tailer>, containers: seq<Container>, sources: seq<LogSource>): map<string, Tailer>
  {
    var m := Monitored(containers, sources);
    map id | id in t0 && (id !in m || t0[id].shouldStop) :: t0[id]
  }

  /** `stops` calls `Stop(argument)` exactly once on each tailer of `victims`, and on nothing else. */
  predicate StopsExactly(stops: seq<StopCall>, victims: map<string, Tailer>, argument: bool)
  {
    && (forall k | 0 <= k < |stops| ::
          && stops[k].argument == argument
          && stops[k].tailer.containerId in victims
          && victims[stops[k].tailer.containerId] == stops[k].tailer)
    && (forall id | id in victims :: exists k | 0 <= k < |stops| :: stops[k].tailer.containerId == id)
    && (forall k, l | 0 <= k < l < |stops| :: stops[k].tailer.containerId != stops[l].tailer.containerId)
  }

  /** The index of the first of `sources[from..]` that asks for the container. */
  function FirstMatchFrom(sources: seq<LogSource>, container: Container, from: nat): (j: nat)
    requires from <= |sources|
    requires exists j | from <= j < |sources| :: ShouldMonitor(sources[j], container)
    ensures from <= j < |sources| && ShouldMonitor(sources[j], container)
    ensures forall l | from <= l < j :: !ShouldMonitor(sources[l], container)
    decreases |sources| - from
  {
    if ShouldMonitor(sources[from], container) then from
    else FirstMatchFrom(sources, container, from + 1)
  }

  /** Some listed container with this ID is asked for by some source. */
  predicate IsMatched(containers: seq<Container>, sources: seq<LogSource>, id: string)
  {
    exists k | 0 <= k < |containers| :: containers[k].id == id && AnySourceMatches(sources, containers[k])
  }

  /** The index of the first of `containers[from..]` with this ID that some source asks for. */
  function FirstMatchedFrom(containers: seq<Container>, sources: seq<LogSource>, id: string, from: nat): (k: nat)
    requires from <= |containers|
    requires exists k | from <= k < |containers| :: containers[k].id == id && AnySourceMatches(sources, containers[k])
    ensures from <= k < |containers| && containers[k].id == id && AnySourceMatches(sources, containers[k])
    ensures forall l | from <= l < k :: !(containers[l].id == id && AnySourceMatches(sources, containers[l]))
    decreases |containers| - from
  {
    if containers[from].id == id && AnySourceMatches(sources, containers[from]) then from
    else FirstMatchedFrom(containers, sources, id, from + 1)
  }

  /** The source a scan tails a newly matched ID with: the first source that asks for
      the first listed container with that ID. */
  function ChosenSource(containers: seq<Container>, sources: seq<LogSource>, id: string): LogSource
    requires IsMatched(containers, sources, id)
  {
    var k := FirstMatchedFrom(containers, sources, id, 0);
    sources[FirstMatchFrom(sources, containers[k], 0)]
  }

  /** Container `i` with source `j` is the first pair the scan's loops reach that matches
      container `i`'s ID: no earlier container with that ID is asked for, and no earlier
      source asks for container `i`. */
  predicate FirstVisit(containers: seq<Container>, sources: seq<LogSource>, i: nat, j: nat)
    requires i < |containers| && j < |sources|
  {
    && (forall k | 0 <= k < i :: containers[k].id == containers[i].id ==> !AnySourceMatches(sources, containers[k]))
    && (forall l | 0 <= l < j :: !ShouldMonitor(sources[l], containers[i]))
  }

  /** The chosen source is the source of the first matching pair the loops reach. */
  lemma ChosenSourceIsFirstVisit(containers: seq<Container>, sources: seq<LogSource>, i: nat, j: nat)
    requires i < |containers| && j < |sources|
    requires ShouldMonitor(sources[j], containers[i]) && FirstVisit(containers, sources, i, j)
    ensures IsMatched(containers, sources, containers[i].id)
    ensures ChosenSource(containers, sources, containers[i].id) == sources[j]
  {
    var c := containers[i];
    assert AnySourceMatches(sources, c);
    var k := FirstMatchedFrom(containers, sources, c.id, 0);
    assert containers[i].id == c.id && AnySourceMatches(sources, containers[i]);
    assert k == i;
    var l := FirstMatchFrom(sources, c, 0);
    assert ShouldMonitor(sources[j], c);
    assert l == j;
  }

  /** A tailer created by this scan for `id`: healthy, in the mode of the scan, and tailing
      the chosen source. */
  predicate Fresh(t: Tailer, id: string, mode: TailMode, containers: seq<Container>, sources: seq<LogSource>)
  {
    && IsMatched(containers, sources, id)
    && t == Tailer(id, ChosenSource(containers, sources, id), mode, false)
  }

  function Flagged(t0: map<string, Tailer>, m: set<string>): map<string, Tailer>
  {
    map id | id in t0 && id in m && t0[id].shouldStop :: t0[id]
  }

  /** What the first phase has done once the IDs in `m` have been matched. */
  ghost predicate FirstPhase(t0: map<string, Tailer>, r: Registry, m: set<string>, mode: TailMode,
                             containers: seq<Container>, sources: seq<LogSource>)
  {
    && r.tailers.Keys == t0.Keys + m
    && (forall id | id in t0 && id !in m :: r.tailers[id] == t0[id])
    && (forall id | id in m ::
          if id in t0 && !t0[id].shouldStop then r.tailers[id] == t0[id]
          else Fresh(r.tailers[id], id, mode, containers, sources))
    && StopsExactly(r.stops, Flagged(t0, m), false)
  }

  /** Stopping one more tailer, not stopped before, extends the victims by it. */
  lemma StopsExactlyAppend(stops: seq<StopCall>, victims: map<string, Tailer>, t: Tailer, argument: bool)
    requires StopsExactly(stops, victims, argument)
    requires t.containerId !in victims
    ensures StopsExactly(stops + [StopCall(t, argument)], victims[t.containerId := t], argument)
  {
    var s := stops + [StopCall(t, argument)];
    forall id | id in victims || id == t.containerId
      ensures exists k | 0 <= k < |s| :: s[k].tailer.containerId == id
    {
      if id == t.containerId {
        assert s[|stops|].tailer.containerId == id;
      } else {
        var k :| 0 <= k < |stops| && stops[k].tailer.containerId == id;
        assert s[k] == stops[k];
      }
    }
  }

  /** Every matched ID has a healthy tailer during the first phase. */
  lemma MatchedIsTailed(t0: map<string, Tailer>, r: Registry, m: set<string>, id: string,
                        mode: TailMode, containers: seq<Container>, sources: seq<LogSource>)
    requires FirstPhase(t0, r, m, mode, containers, sources)
    requires id in m
    ensures id in r.tailers && !r.tailers[id].shouldStop
  {
  }

  /** A matched container that was matched before: nothing changes. */
  lemma VisitAgain(r: Registry, m: set<string>, c: Container, source: LogSource, mode: TailMode)
    requires c.id in m && c.id in r.tailers && !r.tailers[c.id].shouldStop
    ensures Visit(r, c, source, mode) == r && m + {c.id} == m
  {
  }

  /** A newly matched container whose tailer is healthy: the tailer is kept. */
  lemma VisitHealthy(t0: map<string, Tailer>, r: Registry, m: set<string>, c: Container, source: LogSource,
                     mode: TailMode, containers: seq<Container>, sources: seq<LogSource>)
    requires FirstPhase(t0, r, m, mode, containers, sources)
    requires ShouldMonitor(source, c) && c.id !in m && c.id in t0 && !t0[c.id].shouldStop
    ensures FirstPhase(t0, Visit(r, c, source, mode), m + {c.id}, mode, containers, sources)
  {
    assert Visit(r, c, source, mode) == r;
    FlaggedGrowsOnlyByFlagged(t0, m, c.id);
  }

  /** Matching an ID without a flagged tailer adds no flagged tailer. */
  lemma FlaggedGrowsOnlyByFlagged(t0: map<string, Tailer>, m: set<string>, id: string)
    requires id !in t0 || !t0[id].shouldStop
    ensures Flagged(t0, m + {id}) == Flagged(t0, m)
  {
  }

  /** Registering a fresh tailer for a newly matched ID that has no healthy one extends the first phase. */
  lemma RegisterFresh(t0: map<string, Tailer>, r: Registry, m: set<string>, t: Tailer, stops: seq<StopCall>,
                      mode: TailMode, containers: seq<Container>, sources: seq<LogSource>)
    requires FirstPhase(t0, r, m, mode, containers, sources)
    requires t.containerId !in m && (t.containerId in t0 ==> t0[t.containerId].shouldStop)
    requires Fresh(t, t.containerId, mode, containers, sources)
    requires StopsExactly(stops, Flagged(t0, m + {t.containerId}), false)
    ensures FirstPhase(t0, Registry(r.tailers[t.containerId := t], stops), m + {t.containerId}, mode, containers, sources)
  {
  }

  /** A newly matched container with no tailer: one fresh tailer, for this source, is registered. */
  lemma VisitUntailed(t0: map<string, Tailer>, r: Registry, m: set<string>, i: nat, j: nat,
                      mode: TailMode, containers: seq<Container>, sources: seq<LogSource>)
    requires i < |containers| && j < |sources|
    requires FirstPhase(t0, r, m, mode, containers, sources)
    requires ShouldMonitor(sources[j], containers[i]) && FirstVisit(containers, sources, i, j)
    requires containers[i].id !in m && containers[i].id !in t0
    ensures Visit(r, containers[i], sources[j], mode).tailers[containers[i].id]
         == Tailer(containers[i].id, sources[j], mode, false)
    ensures FirstPhase(t0, Visit(r, containers[i], sources[j], mode), m + {containers[i].id}, mode, containers, sources)
  {
    var c, source := containers[i], sources[j];
    var t := NewTailer(c, source, mode);
    assert Visit(r, c, source, mode) == Registry(r.tailers[c.id := t], r.stops) by {
      assert c.id !in r.tailers;
    }
    assert Fresh(t, c.id, mode, containers, sources) by {
      ChosenSourceIsFirstVisit(containers, sources, i, j);
    }
    FlaggedGrowsOnlyByFlagged(t0, m, c.id);
    RegisterFresh(t0, r, m, t, r.stops, mode, containers, sources);
  }

  /** A newly matched container whose tailer raised shouldStop: it is stopped and replaced by
      a fresh tailer for this source. */
  lemma VisitFlagged(t0: map<string, Tailer>, r: Registry, m: set<string>, i: nat, j: nat,
                     mode: TailMode, containers: seq<Container>, sources: seq<LogSource>)
    requires i < |containers| && j < |sources|
    requires Keyed(t0)
    requires FirstPhase(t0, r, m, mode, containers, sources)
    requires ShouldMonitor(sources[j], containers[i]) && FirstVisit(containers, sources, i, j)
    requires containers[i].id !in m && containers[i].id in t0 && t0[containers[i].id].shouldStop
    ensures Visit(r, containers[i], sources[j], mode).tailers[containers[i].id]
         == Tailer(containers[i].id, sources[j], mode, false)
    ensures FirstPhase(t0, Visit(r, containers[i], sources[j], mode), m + {containers[i].id}, mode, containers, sources)
  {
    var c, source := containers[i], sources[j];
    var t := NewTailer(c, source, mode);
    var stops := r.stops + [StopCall(t0[c.id], false)];
    assert Visit(r, c, source, mode) == Registry(r.tailers[c.id := t], stops) by {
      assert r.tailers[c.id] == t0[c.id];
    }
    assert Fresh(t, c.id, mode, containers, sources) by {
      ChosenSourceIsFirstVisit(containers, sources, i, j);
    }
    assert c.id !in Flagged(t0, m);
    assert Flagged(t0, m + {c.id}) == Flagged(t0, m)[c.id := t0[c.id]];
    StopsExactlyAppend(r.stops, Flagged(t0, m), t0[c.id], false);
    RegisterFresh(t0, r, m, t, stops, mode, containers, sources);
  }

  lemma VisitStep(t0: map<string, Tailer>, r: Registry, m: set<string>, i: nat, j: nat,
                  mode: TailMode, containers: seq<Container>, sources: seq<LogSource>)
    requires i < |containers| && j < |sources|
    requires Keyed(t0)
    requires FirstPhase(t0, r, m, mode, containers, sources)
    requires containers[i].id !in m ==> FirstVisit(containers, sources, i, j)
    ensures FirstPhase(t0, Visit(r, containers[i], sources[j], mode),
                       if ShouldMonitor(sources[j], containers[i]) then m + {containers[i].id} else m,
                       mode, containers, sources)
  {
    var c, source := containers[i], sources[j];
    if ShouldMonitor(source, c) {
      if c.id in m {
        MatchedIsTailed(t0, r, m, c.id, mode, containers, sources);
        VisitAgain(r, m, c, source, mode);
      } else if c.id !in t0 {
        VisitUntailed(t0, r, m, i, j, mode, containers, sources);
      } else if t0[c.id].shouldStop {
        VisitFlagged(t0, r, m, i, j, mode, containers, sources);
      } else {
        VisitHealthy(t0, r, m, c, source, mode, containers, sources);
      }
    }
  }

  lemma {:induction false} VisitSourcesEffect(t0: map<string, Tailer>, r: Registry, i: nat,
                                              n: nat, mode: TailMode, containers: seq<Container>, sources: seq<LogSource>)
    requires i < |containers| && n <= |sources|
    requires Keyed(t0)
    requires FirstPhase(t0, r, MatchedIds(containers, sources, i), mode, containers, sources)
    ensures FirstPhase(t0, VisitSources(r, containers[i], sources, n, mode),
                       MatchedIds(containers, sources, i)
                       + (if AnyOfFirstMatches(sources, n, containers[i]) then {containers[i].id} else {}),
                       mode, containers, sources)
  {
    if n == 0 {
      assert MatchedIds(containers, sources, i) + {} == MatchedIds(containers, sources, i);
    } else {
      VisitSourcesEffect(t0, r, i, n - 1, mode, containers, sources);
      VisitSourcesStep(t0, r, i, n, mode, containers, sources);
    }
  }

  /** Visiting source `n - 1` extends the first phase by that source. */
  lemma VisitSourcesStep(t0: map<string, Tailer>, r: Registry, i: nat,
                         n: nat, mode: TailMode, containers: seq<Container>, sources: seq<LogSource>)
    requires i < |containers| && 0 < n <= |sources|
    requires Keyed(t0)
    requires FirstPhase(t0, VisitSources(r, containers[i], sources, n - 1, mode),
                        MatchedIds(containers, sources, i)
                        + (if AnyOfFirstMatches(sources, n - 1, containers[i]) then {containers[i].id} else {}),
                        mode, containers, sources)
    ensures FirstPhase(t0, VisitSources(r, containers[i], sources, n, mode),
                       MatchedIds(containers, sources, i)
                       + (if AnyOfFirstMatches(sources, n, containers[i]) then {containers[i].id} else {}),
                       mode, containers, sources)
  {
    var c, source := containers[i], sources[n - 1];
    var m := MatchedIds(containers, sources, i);
    var m1 := m + (if AnyOfFirstMatches(sources, n - 1, c) then {c.id} else {});
    if c.id !in m1 {
      MatchedIdsSpec(containers, sources, i, c.id);
      assert FirstVisit(containers, sources, i, n - 1);
    }
    VisitStep(t0, VisitSources(r, c, sources, n - 1, mode), m1, i, n - 1, mode, containers, sources);
    assert AnyOfFirstMatches(sources, n, c)
        <==> AnyOfFirstMatches(sources, n - 1, c) || ShouldMonitor(source, c);
    assert (if ShouldMonitor(source, c) then m1 + {c.id} else m1)
        == m + (if AnyOfFirstMatches(sources, n, c) then {c.id} else {});
  }

  lemma {:induction false} VisitContainersEffect(t0: map<string, Tailer>, n: nat, mode: TailMode,
                                                 containers: seq<Container>, sources: seq<LogSource>)
    requires n <= |containers|
    requires Keyed(t0)
    ensures FirstPhase(t0, VisitContainers(Registry(t0, []), containers, sources, n, mode),
                       MatchedIds(containers, sources, n), mode, containers, sources)
  {
    if n == 0 {
      assert Flagged(t0, {}) == map[];
    } else {
      VisitContainersEffect(t0, n - 1, mode, containers, sources);
      var c := containers[n - 1];
      VisitSourcesEffect(t0, VisitContainers(Registry(t0, []), containers, sources, n - 1, mode),
                         n - 1, |sources|, mode, containers, sources);
      assert AnyOfFirstMatches(sources, |sources|, c) == AnySourceMatches(sources, c);
    }
  }

  /** Concatenating the stop calls of two disjoint groups of victims. */
  lemma StopsExactlyConcat(a: seq<StopCall>, va: map<string, Tailer>, b: seq<StopCall>, vb: map<string, Tailer>, argument: bool)
    requires StopsExactly(a, va, argument) && StopsExactly(b, vb, argument)
    requires va.Keys !! vb.Keys
    ensures StopsExactly(a + b, va + vb, argument)
  {
    var s := a + b;
    forall id | id in va + vb ensures exists k | 0 <= k < |s| :: s[k].tailer.containerId == id {
      if id in va {
        var k :| 0 <= k < |a| && a[k].tailer.containerId == id;
        assert s[k] == a[k];
      } else {
        var k :| 0 <= k < |b| && b[k].tailer.containerId == id;
        assert s[|a| + k] == b[k];
      }
    }
    forall k, l | 0 <= k < l < |s| ensures s[k].tailer.containerId != s[l].tailer.containerId {
      if l < |a| {
        assert s[k] == a[k] && s[l] == a[l];
      } else if k >= |a| {
        assert s[k] == b[k - |a|] && s[l] == b[l - |a|];
      } else {
        assert s[k] == a[k] && s[l] == b[l - |a|];
        assert s[k].tailer.containerId in va && s[l].tailer.containerId in vb;
      }
    }
  }

  // ---------------------------------------------------------------------------
  // What reconciliation achieves

  /** After a scan the registry holds exactly the monitored IDs: no extra tailer, no missing one. */
  lemma ReconciledKeys(t0: map<string, Tailer>, containers: seq<Container>, sources: seq<LogSource>, mode: TailMode)
    requires Keyed(t0)
    ensures Reconciled(t0, containers, sources, mode).Keys == Monitored(containers, sources)
    ensures forall id :: (id in Reconciled(t0, containers, sources, mode)
        <==> exists k | 0 <= k < |containers| :: containers[k].id == id && AnySourceMatches(sources, containers[k]))
  {
    VisitContainersEffect(t0, |containers|, mode, containers, sources);
    forall id ensures id in Monitored(containers, sources)
        <==> exists k | 0 <= k < |containers| :: containers[k].id == id && AnySourceMatches(sources, containers[k])
    {
      MatchedIdsSpec(containers, sources, |containers|, id);
    }
  }

  /** A scan keeps a still-monitored tailer untouched unless it raised shouldStop;
      a raised one, or a newly matched container, gets one fresh tailer in the mode of the scan. */
  lemma ReconciledEntries(t0: map<string, Tailer>, containers: seq<Container>, sources: seq<LogSource>, mode: TailMode)
    requires Keyed(t0)
    ensures Keyed(Reconciled(t0, containers, sources, mode))
    ensures forall id | id in Reconciled(t0, containers, sources, mode) ::
      if id in t0 && !t0[id].shouldStop then Reconciled(t0, containers, sources, mode)[id] == t0[id]
      else Fresh(Reconciled(t0, containers, sources, mode)[id], id, mode, containers, sources)
  {
    VisitContainersEffect(t0, |containers|, mode, containers, sources);
  }

  /** Scanning again with the same snapshot changes nothing: reconciliation converges in one step. */
  lemma ReconcileIsIdempotent(t0: map<string, Tailer>, containers: seq<Container>, sources: seq<LogSource>, mode: TailMode)
    requires Keyed(t0)
    ensures Reconciled(Reconciled(t0, containers, sources, mode), containers, sources, mode)
         == Reconciled(t0, containers, sources, mode)
  {
    var t1 := Reconciled(t0, containers, sources, mode);
    ReconciledKeys(t0, containers, sources, mode);
    ReconciledEntries(t0, containers, sources, mode);
    var t2 := Reconciled(t1, containers, sources, mode);
    assert Keyed(t1);
    ReconciledKeys(t1, containers, sources, mode);
    ReconciledEntries(t1, containers, sources, mode);
    assert t2.Keys == t1.Keys;
    forall id | id in t1 ensures t2[id] == t1[id] {
      assert !t1[id].shouldStop;
    }
  }

  /** The tailers a scan stops are exactly those it drops or replaces. */
  lemma VictimsAreDroppedOrReplaced(t0: map<string, Tailer>, containers: seq<Container>, sources: seq<LogSource>, mode: TailMode)
    requires Keyed(t0)
    ensures forall id | id in t0 ::
      id in Victims(t0, containers, sources)
      <==> (id !in Reconciled(t0, containers, sources, mode) || Reconciled(t0, containers, sources, mode)[id] != t0[id])
  {
    ReconciledKeys(t0, containers, sources, mode);
    ReconciledEntries(t0, containers, sources, mode);
  }

  /** A failed listing reads as an empty snapshot, so the scan stops and drops every tailer. */
  lemma ListingFailureDropsEverything(t0: map<string, Tailer>, sources: seq<LogSource>, mode: TailMode)
    requires Keyed(t0)
    ensures Reconciled(t0, ListedContainers(None), sources, mode) == map[]
    ensures Victims(t0, ListedContainers(None), sources) == t0
  {
    ReconciledKeys(t0, [], sources, mode);
  }

  /** The two phases of a scan make up its effect: the first leaves the registry
      of the fold and stops the flagged tailers, the second stops and drops the
      tailers of unmonitored containers. */
  lemma PhasesMakeScan(t0: map<string, Tailer>, log0: seq<StopCall>, t1: map<string, Tailer>, log1: seq<StopCall>,
                       t: map<string, Tailer>, log: seq<StopCall>,
                       containers: seq<Container>, sources: seq<LogSource>, mode: TailMode)
    requires Keyed(t0)
    requires log0 <= log1
    requires Registry(t1, log1[|log0|..]) == VisitContainers(Registry(t0, []), containers, sources, |containers|, mode)
    requires t == map id | id in t1 && id in Monitored(containers, sources) :: t1[id]
    requires log1 <= log
    requires StopsExactly(log[|log1|..], map id | id in t1 && id !in Monitored(containers, sources) :: t1[id], false)
    ensures ScanEffect(t0, log0, t, log, containers, sources, mode)
  {
    var m := Monitored(containers, sources);
    var stale := map id | id in t1 && id !in m :: t1[id];
    assert StopsExactly(log1[|log0|..], Flagged(t0, m), false) && stale == map id | id in t0 && id !in m :: t0[id] by {
      VisitContainersEffect(t0, |containers|, mode, containers, sources);
    }
    assert Flagged(t0, m).Keys !! stale.Keys;
    StopsExactlyConcat(log1[|log0|..], Flagged(t0, m), log[|log1|..], stale, false);
    FlaggedAndStale(t0, m);
    LogSuffixes(log0, log1, log);
  }

  /** The victims of a scan are the flagged tailers of monitored containers and the tailers of
      unmonitored ones. */
  lemma FlaggedAndStale(t0: map<string, Tailer>, m: set<string>)
    ensures Flagged(t0, m) + (map id | id in t0 && id !in m :: t0[id])
         == map id | id in t0 && (id !in m || t0[id].shouldStop) :: t0[id]
  {
  }

  /** What was appended to a log over two steps is what each step appended, in order. */
  lemma LogSuffixes(log0: seq<StopCall>, log1: seq<StopCall>, log: seq<StopCall>)
    requires log0 <= log1 && log1 <= log
    ensures log[|log0|..] == log1[|log0|..] + log[|log1|..]
  {
    assert log1 == log[..|log1|];
  }

  /** The effect of one scan that runs: the registry is reconciled, and the stop
      calls it appends to the log stop each victim exactly once. */
  ghost predicate ScanEffect(t0: map<string, Tailer>, log0: seq<StopCall>, t: map<string, Tailer>, log: seq<StopCall>,
                             containers: seq<Container>, sources: seq<LogSource>, mode: TailMode)
  {
    && t == Reconciled(t0, containers, sources, mode)
    && log0 <= log
    && StopsExactly(log[|log0|..], Victims(t0, containers, sources), false)
  }

  /** The loop of `Stop`, on the registry: every tailer is stopped with `argument` and
      deleted, in the map's (unspecified) iteration order. */
  method StopAll(tailers: map<string, Tailer>, argument: bool) returns (stops: seq<StopCall>)
    requires Keyed(tailers)
    ensures StopsExactly(stops, tailers, argument)
  {
    var rest := tailers;
    stops := [];
    while rest != map[]
      invariant rest.Keys <= tailers.Keys
      invariant forall id | id in rest :: rest[id] == tailers[id]
      invariant StopsExactly(stops, map id | id in tailers && id !in rest :: tailers[id], argument)
      decreases |rest|
    {
      var id :| id in rest;
      var tailer := rest[id];
      ghost var done := map x | x in tailers && x !in rest :: tailers[x];
      StopsExactlyAppend(stops, done, tailer, argument);
      stops := stops + [StopCall(tailer, argument)];
      rest := rest - {tailer.containerId};
      assert (map x | x in tailers && x !in rest :: tailers[x]) == done[id := tailer];
    }
    assert (map id | id in tailers && id !in rest :: tailers[id]) == tailers;
  }

  /** The state of the second loop of `scan` while `pending` IDs remain to be visited:
      `done` holds the tailers stopped so far, which are exactly the visited unlisted ones. */
  ghost predicate UnlistedSoFar(tailers: map<string, Tailer>, toMonitor: set<string>, pending: set<string>,
                                done: map<string, Tailer>, kept: map<string, Tailer>, stops: seq<StopCall>)
  {
    && pending <= tailers.Keys && done.Keys <= tailers.Keys
    && (forall id | id in tailers :: (id in done <==> id !in toMonitor && id !in pending))
    && (forall id | id in done :: done[id] == tailers[id])
    && kept == tailers - done.Keys
    && StopsExactly(stops, done, false)
  }

  /** One iteration of that loop keeps its state consistent. */
  lemma UnlistedStep(tailers: map<string, Tailer>, toMonitor: set<string>, pending: set<string>,
                     done: map<string, Tailer>, kept: map<string, Tailer>, stops: seq<StopCall>, id: string)
    requires Keyed(tailers)
    requires UnlistedSoFar(tailers, toMonitor, pending, done, kept, stops)
    requires id in pending
    ensures id in toMonitor ==> UnlistedSoFar(tailers, toMonitor, pending - {id}, done, kept, stops)
    ensures id !in toMonitor ==>
      UnlistedSoFar(tailers, toMonitor, pending - {id}, done[id := tailers[id]],
                    kept - {tailers[id].containerId}, stops + [StopCall(tailers[id], false)])
  {
    if id !in toMonitor {
      StopsExactlyAppend(stops, done, tailers[id], false);
    }
  }

  /** The second loop of `scan`, on the registry: `stopTailer` on every tailer whose
      container is not in `toMonitor`, in the map's (unspecified) iteration order. */
  method StopUnlisted(tailers: map<string, Tailer>, toMonitor: set<string>)
    returns (kept: map<string, Tailer>, stops: seq<StopCall>)
    requires Keyed(tailers)
    ensures kept == map id | id in tailers && id in toMonitor :: tailers[id]
    ensures StopsExactly(stops, map id | id in tailers && id !in toMonitor :: tailers[id], false)
  {
    kept := tailers;
    stops := [];
    ghost var done: map<string, Tailer> := map[];
    var pending := tailers.Keys;
    while pending != {}
      invariant UnlistedSoFar(tailers, toMonitor, pending, done, kept, stops)
      decreases pending
    {
      var id :| id in pending;
      UnlistedStep(tailers, toMonitor, pending, done, kept, stops, id);
      pending := pending - {id};
      if id !in toMonitor {
        var tailer := tailers[id];
        stops := stops + [StopCall(tailer, false)];
        kept := kept - {tailer.containerId};
        done := done[id := tailer];
      }
    }
    assert done == map id | id in tailers && id !in toMonitor :: tailers[id];
  }

  // ---------------------------------------------------------------------------
  // The scanner

  class Scanner {
    var sources: seq<LogSource>
    var tailers: map<string, Tailer>
    var shouldStop: bool
    /** Every `Stop` call made on a tailer so far, in order. */
    var stopLog: seq<StopCall>

    ghost predicate Valid()
      reads this
    {
      Keyed(tailers)
    }

    /** `New`: keeps the container sources, with no tailer yet. */
    constructor (allSources: seq<LogSource>)
      ensures Valid()
      ensures sources == ContainerSources(allSources)
      ensures tailers == map[] && !shouldStop && stopLog == []
    {
      var kept: seq<LogSource> := [];
      for i := 0 to |allSources|
        invariant kept == ContainerSources(allSources[..i])
      {
        assert allSources[..i + 1][..i] == allSources[..i];
        if allSources[i].sourceType == DockerType {
          kept := kept + [allSources[i]];
        }
      }
      assert allSources[..|allSources|] == allSources;
      sources := kept;
      tailers := map[];
      shouldStop := false;
      stopLog := [];
    }

    /** `setup`: refuses to start without a container source or a Docker client,
        and otherwise runs a first scan that resumes from the recorded offsets.
        `clientReady` stands for the outcome of building the Docker client. */
    method Setup(clientReady: bool, listing: Option<seq<Container>>) returns (err: Option<SetupError>)
      requires Valid()
      modifies this
      ensures Valid()
      ensures sources == old(sources) && shouldStop == old(shouldStop)
      ensures |sources| == 0 ==> err == Some(NoContainerSource)
      ensures |sources| > 0 && !clientReady ==> err == Some(ClientInitFailed)
      ensures err.Some? ==> tailers == old(tailers) && stopLog == old(stopLog)
      ensures err.None? <==> |sources| > 0 && clientReady
      ensures err.None? && !old(shouldStop) ==>
        ScanEffect(old(tailers), old(stopLog), tailers, stopLog, ListedContainers(listing), sources, FromRecordedOffset)
      ensures err.None? && old(shouldStop) ==> tailers == old(tailers) && stopLog == old(stopLog)
    {
      if |sources| == 0 {
        return Some(NoContainerSource);
      }
      if !clientReady {
        return Some(ClientInitFailed);
      }
      Scan(listing, false);
      err := None;
    }

    /** `Stop`: marks the scanner stopped and stops every tailer with `Stop(true)`,
        leaving the registry empty. */
    method Stop()
      requires Valid()
      modifies this
      ensures Valid()
      ensures shouldStop && tailers == map[] && sources == old(sources)
      ensures old(stopLog) <= stopLog
      ensures StopsExactly(stopLog[|old(stopLog)|..], old(tailers), true)
    {
      shouldStop := true;
      var stops := StopAll(tailers, true);
      stopLog := stopLog + stops;
      tailers := map[];
      assert stopLog[|old(stopLog)|..] == stops;
    }

    /** The tailer itself reports that it should stop (for instance, its container exited). */
    method FlagTailer(id: string)
      requires Valid() && id in tailers
      modifies this
      ensures Valid()
      ensures tailers == old(tailers)[id := old(tailers)[id].(shouldStop := true)]
      ensures sources == old(sources) && shouldStop == old(shouldStop) && stopLog == old(stopLog)
    {
      tailers := tailers[id := tailers[id].(shouldStop := true)];
    }

    /** `stopTailer`: `Stop(false)` on the tailer, then removal from the registry. */
    method StopTailer(tailer: Tailer)
      modifies this
      ensures stopLog == old(stopLog) + [StopCall(tailer, false)]
      ensures tailers == old(tailers) - {tailer.containerId}
      ensures sources == old(sources) && shouldStop == old(shouldStop)
    {
      stopLog := stopLog + [StopCall(tailer, false)];
      tailers := tailers - {tailer.containerId};
    }

    /** `setupTailer`: registers a new tailer for the container, in the requested mode.
        A failure to start it is only logged, so the tailer is registered anyway. */
    method SetupTailer(container: Container, source: LogSource, tailFromBeginning: bool)
      modifies this
      ensures tailers == old(tailers)[container.id := NewTailer(container, source, ModeOf(tailFromBeginning))]
      ensures stopLog == old(stopLog) && sources == old(sources) && shouldStop == old(shouldStop)
    {
      tailers := tailers[container.id := NewTailer(container, source, ModeOf(tailFromBeginning))];
    }

    /** `scan`: a no-op once stopped; otherwise reconciles the registry against the listing. */
    method Scan(listing: Option<seq<Container>>, tailFromBeginning: bool)
      requires Valid()
      modifies this
      ensures Valid()
      ensures sources == old(sources) && shouldStop == old(shouldStop)
      ensures old(shouldStop) ==> tailers == old(tailers) && stopLog == old(stopLog)
      ensures !old(shouldStop) ==>
        ScanEffect(old(tailers), old(stopLog), tailers, stopLog, ListedContainers(listing), sources, ModeOf(tailFromBeginning))
    {
      if shouldStop {
        return;
      }
      var containers := ListedContainers(listing);
      ghost var mode := ModeOf(tailFromBeginning);
      ghost var t0 := tailers;
      ghost var log0 := stopLog;

      var toMonitor := MonitorContainers(containers, tailFromBeginning);
      ghost var t1 := tailers;
      ghost var log1 := stopLog;
      StopUnmonitored(toMonitor);
      PhasesMakeScan(t0, log0, t1, log1, tailers, stopLog, containers, sources, mode);
    }

    /** The first loop of `scan`: for every container and every source that asks
        for it, mark the container as monitored, and start a tailer for it unless it
        has one that did not ask to stop (a tailer that did is stopped first). */
    method MonitorContainers(containers: seq<Container>, tailFromBeginning: bool) returns (toMonitor: set<string>)
      requires Valid()
      modifies this
      ensures Valid()
      ensures sources == old(sources) && shouldStop == old(shouldStop)
      ensures toMonitor == Monitored(containers, sources)
      ensures old(stopLog) <= stopLog
      ensures Registry(tailers, stopLog[|old(stopLog)|..])
           == VisitContainers(Registry(old(tailers), []), containers, sources, |containers|, ModeOf(tailFromBeginning))
    {
      var mode := ModeOf(tailFromBeginning);
      ghost var t0 := tailers;
      ghost var log0 := stopLog;
      toMonitor := {};
      for i := 0 to |containers|
        invariant Valid()
        invariant sources == old(sources) && shouldStop == old(shouldStop)
        invariant log0 <= stopLog
        invariant Registry(tailers, stopLog[|log0|..]) == VisitContainers(Registry(t0, []), containers, sources, i, mode)
        invariant toMonitor == MatchedIds(containers, sources, i)
      {
        var matched := MonitorContainer(containers[i], tailFromBeginning, |log0|);
        if matched {
          toMonitor := toMonitor + {containers[i].id};
        }
      }
    }

    /** The inner loop of `scan`'s first phase, for one container: every source that
        asks for it marks it as monitored and makes sure it has a live tailer. */
    method MonitorContainer(container: Container, tailFromBeginning: bool, ghost base: nat) returns (matched: bool)
      requires Valid()
      requires base <= |stopLog|
      modifies this
      ensures Valid()
      ensures sources == old(sources) && shouldStop == old(shouldStop)
      ensures matched == AnySourceMatches(sources, container)
      ensures old(stopLog) <= stopLog
      ensures Registry(tailers, stopLog[base..])
           == VisitSources(Registry(old(tailers), old(stopLog)[base..]), container, sources, |sources|, ModeOf(tailFromBeginning))
    {
      var mode := ModeOf(tailFromBeginning);
      ghost var r0 := Registry(tailers, stopLog[base..]);
      ghost var log0 := stopLog;
      matched := false;
      for j := 0 to |sources|
        invariant Valid()
        invariant sources == old(sources) && shouldStop == old(shouldStop)
        invariant log0 <= stopLog
        invariant Registry(tailers, stopLog[base..]) == VisitSources(r0, container, sources, j, mode)
        invariant matched == AnyOfFirstMatches(sources, j, container)
      {
        var source := sources[j];
        if ShouldMonitor(source, container) {
          matched := true;
          EnsureTailed(container, source, tailFromBeginning, base);
        }
        assert AnyOfFirstMatches(sources, j + 1, container)
            <==> AnyOfFirstMatches(sources, j, container) || ShouldMonitor(source, container);
      }
      assert AnyOfFirstMatches(sources, |sources|, container) == AnySourceMatches(sources, container);
    }

    /** The body of the inner loop once a source asks for the container: a tailer flagged
        to stop is stopped and replaced, a missing one is set up, a live one is kept. */
    method EnsureTailed(container: Container, source: LogSource, tailFromBeginning: bool, ghost base: nat)
      requires Valid()
      requires base <= |stopLog|
      requires ShouldMonitor(source, container)
      modifies this
      ensures Valid()
      ensures sources == old(sources) && shouldStop == old(shouldStop)
      ensures old(stopLog) <= stopLog
      ensures Registry(tailers, stopLog[base..])
           == Visit(Registry(old(tailers), old(stopLog)[base..]), container, source, ModeOf(tailFromBeginning))
    {
      ghost var r := Registry(tailers, stopLog[base..]);
      var isTailed := container.id in tailers;
      if isTailed && tailers[container.id].shouldStop {
        StopTailer(tailers[container.id]);
        isTailed := false;
      }
      if !isTailed {
        SetupTailer(container, source, tailFromBeginning);
      }
      assert stopLog[base..] == Visit(r, container, source, ModeOf(tailFromBeginning)).stops;
      assert tailers == Visit(r, container, source, ModeOf(tailFromBeginning)).tailers;
    }

    /** The second phase of `scan`: every tailer whose container is not in `toMonitor`
        is stopped and removed (the loop is `StopUnlisted`). */
    method StopUnmonitored(toMonitor: set<string>)
      requires Valid()
      modifies this
      ensures Valid()
      ensures sources == old(sources) && shouldStop == old(shouldStop)
      ensures tailers == map id | id in old(tailers) && id in toMonitor :: old(tailers)[id]
      ensures old(stopLog) <= stopLog
      ensures StopsExactly(stopLog[|old(stopLog)|..],
                           map id | id in old(tailers) && id !in toMonitor :: old(tailers)[id], false)
    {
      var kept, stops := StopUnlisted(tailers, toMonitor);
      stopLog := stopLog + stops;
      tailers := kept;
      assert stopLog[|old(stopLog)|..] == stops;
    }
  }
}
