/**
 * The Kubernetes event bundle (`kubernetesEventBundle`) of the API server check:
 * the events of one involved object, gathered so that they are sent as a single
 * Datadog event. Timestamps are integer seconds (`int`); the source keeps them as
 * float64, whose rounding above 2^53 is not modelled.
 */
module KubernetesEventBundle {
  import opened Wrappers

  /** `v1.ObjectReference`, with the pointers the bundle reads. */
  datatype ObjectReference = ObjectReference(uid: Option<string>, name: Option<string>, kind: Option<string>)

  /** `v1.Event`, with the pointers the bundle reads. `creationSeconds` stands for the chain
      `Metadata.CreationTimestamp.Seconds`, `lastSeenSeconds` for `LastTimestamp.Seconds`. */
  datatype Event = Event(
    involvedObject: Option<ObjectReference>,
    reason: Option<string>,
    message: Option<string>,
    creationSeconds: Option<int>,
    lastSeenSeconds: Option<int>,
    count: Option<int>)

  /** Why `addEvent` refuses an event, in the order it checks. */
  datatype AddError =
    | MissingParentAttributes
    | MissingAttributes
    | MismatchingUids(got: string, want: string)

  /** Why `formatEvents` refuses to build an event. */
  datatype FormatError = NoEventToExport

  /** The parts of the `metrics.Event` this model follows. */
  datatype Formatted = Formatted(host: string, ts: int, aggregationKey: string)

  const AggregationPrefix: string := "kubernetes_apiserver:"

  /** The event and its involved object are there. */
  predicate HasParent(event: Option<Event>)
  {
    event.Some? && event.value.involvedObject.Some?
  }

  /** The optional attributes that `addEvent` checks before reading them. */
  predicate HasAttributes(e: Event)
    requires e.involvedObject.Some?
  {
    e.reason.Some? && e.message.Some? && e.involvedObject.value.name.Some? && e.involvedObject.value.kind.Some?
  }

  /** Every field a bundled event contributes is present. */
  predicate Complete(e: Event)
  {
    && e.involvedObject.Some?
    && HasAttributes(e)
    && e.involvedObject.value.uid.Some?
    && e.creationSeconds.Some? && e.lastSeenSeconds.Some? && e.count.Some?
  }

  /** The pointers `addEvent` follows without checking them are set whenever it reaches them:
      the UID once the attribute checks pass, the timestamps and the count once the UID matches. */
  predicate Dereferenceable(objUid: string, event: Option<Event>)
  {
    HasParent(event) && HasAttributes(event.value) ==>
      && event.value.involvedObject.value.uid.Some?
      && (event.value.involvedObject.value.uid.value == objUid ==>
            event.value.creationSeconds.Some? && event.value.lastSeenSeconds.Some? && event.value.count.Some?)
  }

  /** `addEvent`'s checks: the first one that fails, if any. */
  function Check(objUid: string, event: Option<Event>): (r: Option<AddError>)
    requires Dereferenceable(objUid, event)
    ensures r == Some(MissingParentAttributes) <==> !HasParent(event)
    ensures r == Some(MissingAttributes) <==> HasParent(event) && !HasAttributes(event.value)
    ensures r.Some? && r.value.MismatchingUids? <==>
      HasParent(event) && HasAttributes(event.value) && event.value.involvedObject.value.uid.value != objUid
    ensures r.None? ==> Complete(event.value) && event.value.involvedObject.value.uid.value == objUid
  {
    if !HasParent(event) then Some(MissingParentAttributes)
    else if !HasAttributes(event.value) then Some(MissingAttributes)
    else if event.value.involvedObject.value.uid.value != objUid then
      Some(MismatchingUids(event.value.involvedObject.value.uid.value, objUid))
    else None
  }

  /** The `countByAction` key of an event: `"**<reason>**: <message>\n"`. */
  function ActionKey(e: Event): string
    requires Complete(e)
  {
    "**" + e.reason.value + "**: " + e.message.value + "\n"
  }

  /** The `readableKey` an event sets: `"<name> <kind>"`. */
  function ReadableKey(e: Event): string
    requires Complete(e)
  {
    e.involvedObject.value.name.value + " " + e.involvedObject.value.kind.value
  }

  predicate AllComplete(events: seq<Event>)
  {
    forall i | 0 <= i < |events| :: Complete(events[i])
  }

  function Max(a: int, b: int): int
  {
    if a < b then b else a
  }

  // ---------------------------------------------------------------------------
  // The bundle's fields as functions of its events

  /** `timeStamp` after the events were added to a new bundle: a running maximum from 0. */
  function MaxCreation(events: seq<Event>): int
    requires AllComplete(events)
  {
    if events == [] then 0
    else Max(MaxCreation(events[..|events| - 1]), events[|events| - 1].creationSeconds.value)
  }

  /** `lastTimestamp` after the events were added to a new bundle: the larger of the final
      `timeStamp` and the last event's last-seen time, whatever earlier events were last seen. */
  function LastOf(events: seq<Event>): (r: int)
    requires AllComplete(events)
    ensures r >= MaxCreation(events)
    ensures events != [] ==> r >= events[|events| - 1].lastSeenSeconds.value
    ensures r == MaxCreation(events) || (events != [] && r == events[|events| - 1].lastSeenSeconds.value)
  {
    if events == [] then 0
    else Max(MaxCreation(events), events[|events| - 1].lastSeenSeconds.value)
  }

  /** `countByAction` after the events were added to a new bundle. */
  function CountByAction(events: seq<Event>): map<string, int>
    requires AllComplete(events)
  {
    if events == [] then map[]
    else
      var counts := CountByAction(events[..|events| - 1]);
      var e := events[|events| - 1];
      var key := ActionKey(e);
      counts[key := (if key in counts then counts[key] else 0) + e.count.value]
  }

  /** The sum of the counts of the events whose action is `key`. */
  function CountOf(events: seq<Event>, key: string): int
    requires AllComplete(events)
  {
    if events == [] then 0
    else CountOf(events[..|events| - 1], key) + (if ActionKey(events[|events| - 1]) == key then events[|events| - 1].count.value else 0)
  }

  /** `readableKey` after the events were added to a new bundle: set by the latest one. */
  function ReadableKeyOf(events: seq<Event>): string
    requires AllComplete(events)
  {
    if events == [] then "" else ReadableKey(events[|events| - 1])
  }

  /** `timeStamp` bounds every creation time, is never negative, and is 0 or one of them. */
  lemma {:induction false} MaxCreationIsMaximum(events: seq<Event>)
    requires AllComplete(events)
    ensures MaxCreation(events) >= 0
    ensures forall i | 0 <= i < |events| :: events[i].creationSeconds.value <= MaxCreation(events)
    ensures MaxCreation(events) == 0 || exists i | 0 <= i < |events| :: events[i].creationSeconds.value == MaxCreation(events)
  {
    if events != [] {
      var init := events[..|events| - 1];
      MaxCreationIsMaximum(init);
      assert forall i | 0 <= i < |init| :: init[i] == events[i];
    }
  }

  /** Adding events never makes `timeStamp` smaller. */
  lemma {:induction false} MaxCreationGrows(prefix: seq<Event>, events: seq<Event>)
    requires AllComplete(events) && prefix <= events
    ensures MaxCreation(prefix) <= MaxCreation(events)
  {
    if |prefix| < |events| {
      var init := events[..|events| - 1];
      assert prefix <= init;
      MaxCreationGrows(prefix, init);
    } else {
      assert prefix == events;
    }
  }

  /** `lastTimestamp` is not a running maximum: a later event last seen earlier lowers it. */
  lemma LastTimestampCanDecrease()
    ensures var early := Event(Some(ObjectReference(Some("u"), Some("p"), Some("Pod"))), Some("r"), Some("m"), Some(10), Some(100), Some(1));
            var late := Event(Some(ObjectReference(Some("u"), Some("p"), Some("Pod"))), Some("r"), Some("m"), Some(10), Some(50), Some(1));
            LastOf([early]) == 100 && LastOf([early, late]) == 50
  {
    var early := Event(Some(ObjectReference(Some("u"), Some("p"), Some("Pod"))), Some("r"), Some("m"), Some(10), Some(100), Some(1));
    var late := Event(Some(ObjectReference(Some("u"), Some("p"), Some("Pod"))), Some("r"), Some("m"), Some(10), Some(50), Some(1));
    assert [early, late][..1] == [early];
  }

  /** `countByAction` has a key exactly for the actions of the events, and each holds the sum
      of their counts. */
  lemma {:induction false} CountByActionSums(events: seq<Event>, key: string)
    requires AllComplete(events)
    ensures key in CountByAction(events) <==> exists i | 0 <= i < |events| :: ActionKey(events[i]) == key
    ensures key in CountByAction(events) ==> CountByAction(events)[key] == CountOf(events, key)
    ensures key !in CountByAction(events) ==> CountOf(events, key) == 0
  {
    if events != [] {
      var init := events[..|events| - 1];
      CountByActionSums(init, key);
      assert forall i | 0 <= i < |init| :: init[i] == events[i];
      if ActionKey(events[|events| - 1]) == key {
        assert ActionKey(events[|events| - 1]) == key;
      } else if key in CountByAction(events) {
        var i :| 0 <= i < |init| && ActionKey(init[i]) == key;
        assert ActionKey(events[i]) == key;
      }
    }
  }

  /** The aggregation key tells bundles of different objects apart. */
  lemma AggregationKeyIdentifies(a: string, b: string)
    requires AggregationPrefix + a == AggregationPrefix + b
    ensures a == b
  {
    assert a == (AggregationPrefix + a)[|AggregationPrefix|..];
    assert b == (AggregationPrefix + b)[|AggregationPrefix|..];
  }

  // ---------------------------------------------------------------------------
  // The bundle

  class Bundle {
    var objUid: string
    var readableKey: string
    var component: string
    var events: seq<Event>
    var timeStamp: int
    var lastTimestamp: int
    var countByAction: map<string, int>

    /** Every bundled event is complete and about this object, and the other fields are what
        adding those events to a new bundle gives. */
    ghost predicate Valid()
      reads this
    {
      && AllComplete(events)
      && (forall i | 0 <= i < |events| :: events[i].involvedObject.value.uid.value == objUid)
      && timeStamp == MaxCreation(events)
      && lastTimestamp == LastOf(events)
      && countByAction == CountByAction(events)
      && readableKey == ReadableKeyOf(events)
    }

    /** `newKubernetesEventBundler`: no event, zero timestamps, no count. */
    constructor (objUid: string, compName: string)
      ensures Valid()
      ensures this.objUid == objUid && component == compName
      ensures events == [] && timeStamp == 0 && lastTimestamp == 0 && countByAction == map[] && readableKey == ""
    {
      this.objUid := objUid;
      readableKey := "";
      component := compName;
      events := [];
      timeStamp := 0;
      lastTimestamp := 0;
      countByAction := map[];
    }

    /** `addEvent`: a refused event leaves the bundle as it was; an accepted one is appended
        and folded into the timestamps, the per-action counts and the readable key. */
    method AddEvent(event: Option<Event>) returns (err: Option<AddError>)
      requires Valid() && Dereferenceable(objUid, event)
      modifies this
      ensures objUid == old(objUid) && component == old(component)
      ensures Valid()
      ensures err == Check(objUid, event)
      ensures err.Some? ==> unchanged(this)
      ensures err.None? ==>
        && events == old(events) + [event.value]
        && timeStamp == Max(old(timeStamp), event.value.creationSeconds.value)
        && lastTimestamp == Max(timeStamp, event.value.lastSeenSeconds.value)
        && countByAction == old(countByAction)[ActionKey(event.value) :=
             (if ActionKey(event.value) in old(countByAction) then old(countByAction)[ActionKey(event.value)] else 0)
             + event.value.count.value]
        && readableKey == ReadableKey(event.value)
    {
      err := Check(objUid, event);
      if err.Some? {
        return;
      }
      var e := event.value;
      events := events + [e];
      timeStamp := Max(timeStamp, e.creationSeconds.value);
      lastTimestamp := Max(timeStamp, e.lastSeenSeconds.value);
      var key := ActionKey(e);
      countByAction := countByAction[key := (if key in countByAction then countByAction[key] else 0) + e.count.value];
      readableKey := ReadableKey(e);
      assert events[..|events| - 1] == old(events);
    }

    /** `formatEvents`, for its error case and its `Host`, `Ts` and `AggregationKey` fields:
        a modified bundle is stamped with `lastTimestamp`, a new one with `timeStamp`. */
    function FormatEvents(hostname: string, modified: bool): (r: Result<Formatted, FormatError>)
      reads this
      ensures r.Failure? <==> events == []
      ensures r.Success? ==> r.value.host == hostname && r.value.aggregationKey == AggregationPrefix + objUid
      ensures r.Success? ==> r.value.ts == if modified then lastTimestamp else timeStamp
    {
      if events == [] then Failure(NoEventToExport)
      else Success(Formatted(hostname, if modified then lastTimestamp else timeStamp, AggregationPrefix + objUid))
    }

    /** A formatted bundle is stamped no earlier than any of its events was created, and a
        modified one no earlier than a new one would be. */
    lemma FormattedTsBoundsCreations(hostname: string, modified: bool)
      requires Valid() && events != []
      ensures FormatEvents(hostname, modified).Success?
      ensures forall i | 0 <= i < |events| :: events[i].creationSeconds.value <= FormatEvents(hostname, modified).value.ts
      ensures FormatEvents(hostname, false).value.ts <= FormatEvents(hostname, true).value.ts
    {
      MaxCreationIsMaximum(events);
    }
  }
}
