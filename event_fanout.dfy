/**
 * The Docker event fan-out (`eventFanout`): one producer, any number of named
 * listeners, each listener owning a bounded data queue and a bounded error queue.
 * A send that finds its queue full is the write timeout: the listener is then
 * forcefully unsubscribed. The dispatch goroutine is modelled by the `running`
 * flag and by the two transitions it performs, one broadcast round
 * (`Dispatch`) and the handling of a stop request (`HandleStop`); the one-slot
 * stop channel is the `stopPending` flag.
 */
module EventFanout {
  import opened Wrappers

  /** The payload the fan-out carries (`*ContainerEvent`); the fan-out never looks inside it. */
  datatype Event = ContainerEvent(containerId: string, action: string)

  /** The errors the fan-out delivers: `io.EOF`, `fanout.ErrWriteTimeout`, or one from the producer. */
  datatype Error = EOF | ErrWriteTimeout | ProducerError(message: string)

  /** `fanout.Config`; `writeTimeout` is in nanoseconds. */
  datatype Config = Config(writeTimeout: int, outputBufferSize: int, name: string)

  /** Why `Setup` refuses a configuration, in the order it checks. */
  datatype SetupError = NonPositiveWriteTimeout | NonPositiveOutputBufferSize | EmptyName

  /** Why `Suscribe` or `UnsuscribeWithError` refuses a name. */
  datatype SubscriptionError = AlreadySubscribed(name: string) | NotSubscribed(name: string)

  /** What the producer hands to the dispatcher: an event (`dataInput`) or an error (`errorInput`). */
  datatype Item = Data(event: Event) | ErrorItem(error: Error)

  /** The capacity of every listener's error queue. */
  const ErrorCapacity: nat := 2

  /** `eventOutput`: the buffered contents of its two channels, the data capacity, and whether
      both channels have been closed. */
  datatype Output = Output(data: seq<Event>, errors: seq<Error>, capacity: nat, closed: bool)

  /** A listener's output as it was when it was closed and unsubscribed. */
  datatype Retired = Retired(name: string, output: Output)

  // ---------------------------------------------------------------------------
  // Configuration checks

  /** `Setup`'s checks as written: both numbers are compared with 0 by equality. */
  function ValidateAsWritten(cfg: Config): (r: Option<SetupError>)
    ensures r == None <==> cfg.writeTimeout != 0 && cfg.outputBufferSize != 0 && cfg.name != ""
  {
    if cfg.writeTimeout == 0 then Some(NonPositiveWriteTimeout)
    else if cfg.outputBufferSize == 0 then Some(NonPositiveOutputBufferSize)
    else if cfg.name == "" then Some(EmptyName)
    else None
  }

  /** `make(chan T, size)` panics unless `size` is at least 0. */
  predicate MakeChanAccepts(size: int)
  {
    size >= 0
  }

  /** A negative buffer size passes the checks as written, although the output that the next
      `Suscribe` builds cannot be made. */
  lemma NegativeBufferSizePassesSetup()
    ensures ValidateAsWritten(Config(1000000000, -1, "docker")) == None
    ensures !MakeChanAccepts(Config(1000000000, -1, "docker").outputBufferSize)
  {
  }

  /** A negative write timeout passes the checks as written too, although the error message
      asks for a timeout higher than 0. */
  lemma NegativeTimeoutPassesSetup()
    ensures ValidateAsWritten(Config(-1, 100, "docker")) == None
  {
  }

  /** `Setup`'s checks as their messages state them ("must be higher than 0", "can't be
      empty"): the first failing check, in the order timeout, buffer size, name. */
  function Validate(cfg: Config): (r: Option<SetupError>)
    ensures r == None <==> cfg.writeTimeout > 0 && cfg.outputBufferSize > 0 && cfg.name != ""
    ensures r == Some(NonPositiveWriteTimeout) <==> cfg.writeTimeout <= 0
    ensures r == Some(NonPositiveOutputBufferSize) <==> cfg.writeTimeout > 0 && cfg.outputBufferSize <= 0
    ensures r == Some(EmptyName) <==> cfg.writeTimeout > 0 && cfg.outputBufferSize > 0 && cfg.name == ""
  {
    if cfg.writeTimeout <= 0 then Some(NonPositiveWriteTimeout)
    else if cfg.outputBufferSize <= 0 then Some(NonPositiveOutputBufferSize)
    else if cfg.name == "" then Some(EmptyName)
    else None
  }

  /** The corrected checks differ from the written ones only on negative numbers, and every
      configuration they accept gives outputs that can be made. */
  lemma ValidateCorrectsOnlyNegatives(cfg: Config)
    ensures cfg.writeTimeout >= 0 && cfg.outputBufferSize >= 0 ==> Validate(cfg) == ValidateAsWritten(cfg)
    ensures Validate(cfg) == None ==> ValidateAsWritten(cfg) == None && MakeChanAccepts(cfg.outputBufferSize)
  {
  }

  // ---------------------------------------------------------------------------
  // One output: two bounded queues

  /** A new listener's output: empty queues, data capacity from the configuration. */
  function NewOutput(capacity: nat): Output
  {
    Output([], [], capacity, false)
  }

  /** Whether `item`'s queue has room, so that its send succeeds before the write timeout. */
  predicate HasRoom(o: Output, item: Item)
  {
    match item
    case Data(_) => |o.data| < o.capacity
    case ErrorItem(_) => |o.errors| < ErrorCapacity
  }

  /** `sendData` / `sendError`: the item joins the back of its queue, or the send times out
      and the output is left as it was. */
  function Send(o: Output, item: Item): (r: Result<Output, Error>)
    ensures r.Success? <==> HasRoom(o, item)
    ensures r.Failure? ==> r.error == ErrWriteTimeout
    ensures r.Success? ==> r.value.capacity == o.capacity && r.value.closed == o.closed
    ensures r.Success? && item.Data? ==> r.value.data == o.data + [item.event] && r.value.errors == o.errors
    ensures r.Success? && item.ErrorItem? ==> r.value.errors == o.errors + [item.error] && r.value.data == o.data
  {
    if !HasRoom(o, item) then Failure(ErrWriteTimeout)
    else
      match item
      case Data(ev) => Success(o.(data := o.data + [ev]))
      case ErrorItem(e) => Success(o.(errors := o.errors + [e]))
  }

  /** `close`: one attempt to deliver `err` (it is dropped when the error queue is full), then
      both channels are closed; what is buffered stays readable. */
  function Close(o: Output, err: Error): (r: Output)
    ensures r.closed && r.data == o.data && r.capacity == o.capacity
    ensures r.errors == if HasRoom(o, ErrorItem(err)) then o.errors + [err] else o.errors
  {
    Output(o.data, if |o.errors| < ErrorCapacity then o.errors + [err] else o.errors, o.capacity, true)
  }

  /** The bounds a live output keeps: capacity as configured, queues within capacity, open. */
  predicate Live(o: Output, capacity: nat)
  {
    && o.capacity == capacity
    && |o.data| <= capacity
    && |o.errors| <= ErrorCapacity
    && !o.closed
  }

  /** On a live output a send times out exactly when the item's queue is at its capacity; a
      send that succeeds loses and reorders nothing already buffered, and keeps the output
      live. */
  lemma SendKeepsLive(o: Output, item: Item, capacity: nat)
    requires Live(o, capacity)
    ensures Send(o, item).Success? <==> if item.Data? then |o.data| < capacity else |o.errors| < ErrorCapacity
    ensures Send(o, item).Success? ==>
      && o.data <= Send(o, item).value.data && o.errors <= Send(o, item).value.errors
      && Live(Send(o, item).value, capacity)
  {
  }

  /** A closed output with no more errors than its queue holds: what `close` leaves. */
  predicate Settled(o: Output)
  {
    o.closed && |o.errors| <= ErrorCapacity
  }

  /** Closing keeps every buffered event and error readable, delivers `err` exactly when the
      error queue has room, and never overfills it. */
  lemma CloseKeepsBuffered(o: Output, err: Error)
    requires |o.errors| <= ErrorCapacity
    ensures Settled(Close(o, err))
    ensures Close(o, err).data == o.data && o.errors <= Close(o, err).errors
    ensures Close(o, err).errors == o.errors + [err] <==> |o.errors| < ErrorCapacity
  {
  }

  // ---------------------------------------------------------------------------
  // The listeners map, as values

  /** The listeners after `Suscribe(name)` accepted the name. */
  function Subscribed(listeners: map<string, Output>, name: string, capacity: nat): map<string, Output>
  {
    listeners[name := NewOutput(capacity)]
  }

  /** Unsubscribing a name that was just subscribed gives the listeners back. */
  lemma UnsuscribeUndoesSuscribe(listeners: map<string, Output>, name: string, capacity: nat)
    requires name !in listeners
    ensures Subscribed(listeners, name, capacity) - {name} == listeners
  {
    assert (Subscribed(listeners, name, capacity) - {name}).Keys == listeners.Keys;
  }

  /** The listeners whose send of `item` timed out in a broadcast round. */
  function Failed(listeners: map<string, Output>, item: Item): (r: set<string>)
    ensures forall name :: name in r <==> name in listeners && !HasRoom(listeners[name], item)
  {
    set name | name in listeners && !HasRoom(listeners[name], item)
  }

  /** The listeners after a round: the ones that had room, each with `item` delivered. */
  function Survivors(listeners: map<string, Output>, item: Item): map<string, Output>
  {
    map name | name in listeners && HasRoom(listeners[name], item) :: Send(listeners[name], item).value
  }

  /** A listener survives a round exactly when its queue had room, and then it has received
      the item at the back of its queue, after everything it had. */
  lemma SurvivorsSpec(listeners: map<string, Output>, item: Item, name: string)
    ensures name in Survivors(listeners, item) <==> name in listeners && name !in Failed(listeners, item)
    ensures name in Survivors(listeners, item) && item.Data? ==>
      Survivors(listeners, item)[name].data == listeners[name].data + [item.event]
    ensures name in Survivors(listeners, item) && item.ErrorItem? ==>
      Survivors(listeners, item)[name].errors == listeners[name].errors + [item.error]
  {
  }

  /** A round splits the listeners in two: each one either survives or is evicted, never both. */
  lemma RoundPartitions(listeners: map<string, Output>, item: Item)
    ensures Failed(listeners, item) !! Survivors(listeners, item).Keys
    ensures Failed(listeners, item) + Survivors(listeners, item).Keys == listeners.Keys
  {
  }

  /** The listeners after a run of rounds with no consumer reading in between. */
  function AfterRounds(listeners: map<string, Output>, items: seq<Item>): map<string, Output>
  {
    if items == [] then listeners
    else Survivors(AfterRounds(listeners, items[..|items| - 1]), items[|items| - 1])
  }

  /** The events of a run of items, in order. */
  function EventsOf(items: seq<Item>): seq<Event>
  {
    if items == [] then []
    else EventsOf(items[..|items| - 1]) + (if items[|items| - 1].Data? then [items[|items| - 1].event] else [])
  }

  /** Per-listener FIFO: a listener that survives a run of rounds has received every event of
      the run, in the producer's order, after what it already had; no listener is added. */
  lemma {:induction false} AfterRoundsIsFifo(listeners: map<string, Output>, items: seq<Item>, name: string)
    requires name in AfterRounds(listeners, items)
    ensures name in listeners
    ensures AfterRounds(listeners, items)[name].data == listeners[name].data + EventsOf(items)
  {
    if items != [] {
      var init := items[..|items| - 1];
      var last := items[|items| - 1];
      var before := AfterRounds(listeners, init);
      assert name in before;
      AfterRoundsIsFifo(listeners, init, name);
      SurvivorsSpec(before, last, name);
      if last.ErrorItem? {
        assert Survivors(before, last)[name].data == before[name].data;
      }
    }
  }

  /** A listener that nobody reads survives at most `capacity` events: with more events than
      room in a run, it is evicted. */
  lemma OverflowEvicts(listeners: map<string, Output>, items: seq<Item>, name: string)
    requires name in listeners && |listeners[name].data| <= listeners[name].capacity
    requires |listeners[name].data| + |EventsOf(items)| > listeners[name].capacity
    ensures name !in AfterRounds(listeners, items)
  {
    if name in AfterRounds(listeners, items) {
      AfterRoundsIsFifo(listeners, items, name);
      AfterRoundsKeepsCapacity(listeners, items, name);
      assert false;
    }
  }

  /** Rounds do not change a surviving listener's capacity, and never overfill its data queue. */
  lemma {:induction false} AfterRoundsKeepsCapacity(listeners: map<string, Output>, items: seq<Item>, name: string)
    requires name in AfterRounds(listeners, items)
    requires name in listeners ==> |listeners[name].data| <= listeners[name].capacity
    ensures name in listeners
    ensures AfterRounds(listeners, items)[name].capacity == listeners[name].capacity
    ensures |AfterRounds(listeners, items)[name].data| <= listeners[name].capacity
  {
    if items != [] {
      var init := items[..|items| - 1];
      var last := items[|items| - 1];
      var before := AfterRounds(listeners, init);
      assert name in before;
      AfterRoundsKeepsCapacity(listeners, init, name);
      SurvivorsSpec(before, last, name);
      assert HasRoom(before[name], last);
    }
  }

  /** `order` lists every name of `names` exactly once, and nothing else: the order in which a
      Go `range` over a map with these keys may visit them. */
  predicate Enumerates(order: seq<string>, names: set<string>)
  {
    && (forall k | 0 <= k < |order| :: order[k] in names)
    && (forall name | name in names :: name in order)
    && (forall k, l | 0 <= k < l < |order| :: order[k] != order[l])
  }

  /** The outputs named by `order`, each closed with `err`, in that order. */
  function Retirements(outputs: map<string, Output>, order: seq<string>, err: Error): seq<Retired>
    requires forall k | 0 <= k < |order| :: order[k] in outputs
  {
    if order == [] then []
    else
      var last := order[|order| - 1];
      Retirements(outputs, order[..|order| - 1], err) + [Retired(last, Close(outputs[last], err))]
  }

  /** Each retirement is the named output, closed, in the position its name has in `order`. */
  lemma {:induction false} RetirementsSpec(outputs: map<string, Output>, order: seq<string>, err: Error)
    requires forall k | 0 <= k < |order| :: order[k] in outputs
    ensures |Retirements(outputs, order, err)| == |order|
    ensures forall k | 0 <= k < |order| ::
      Retirements(outputs, order, err)[k] == Retired(order[k], Close(outputs[order[k]], err))
  {
    if order != [] {
      var init := order[..|order| - 1];
      RetirementsSpec(outputs, init, err);
    }
  }

  /** Retirements only read the outputs they name. */
  lemma {:induction false} RetirementsAgree(a: map<string, Output>, b: map<string, Output>,
                                                   order: seq<string>, err: Error)
    requires forall k | 0 <= k < |order| :: order[k] in a && order[k] in b && a[order[k]] == b[order[k]]
    ensures Retirements(a, order, err) == Retirements(b, order, err)
  {
    if order != [] {
      RetirementsAgree(a, b, order[..|order| - 1], err);
    }
  }

  /** Retiring outputs whose error queues are within capacity leaves them all settled. */
  lemma RetirementsSettled(outputs: map<string, Output>, order: seq<string>, err: Error)
    requires forall k | 0 <= k < |order| :: order[k] in outputs && |outputs[order[k]].errors| <= ErrorCapacity
    ensures forall k | 0 <= k < |Retirements(outputs, order, err)| :: Settled(Retirements(outputs, order, err)[k].output)
  {
    RetirementsSpec(outputs, order, err);
  }

  /** A `range` over a map's keys: some order that visits each key exactly once. */
  method Enumerate(names: set<string>) returns (order: seq<string>)
    ensures Enumerates(order, names)
  {
    order := [];
    var rest := names;
    while rest != {}
      invariant rest <= names
      invariant forall k | 0 <= k < |order| :: order[k] in names && order[k] !in rest
      invariant forall name | name in names && name !in rest :: name in order
      invariant forall k, l | 0 <= k < l < |order| :: order[k] != order[l]
      decreases rest
    {
      var name :| name in rest;
      order := order + [name];
      rest := rest - {name};
    }
  }

  /** The send loop of a round, on the listener map: each output gets `item`, and `bad` collects
      the listeners whose output had no room. */
  method SendAll(outputs: map<string, Output>, item: Item) returns (sent: map<string, Output>, bad: set<string>)
    ensures bad == Failed(outputs, item)
    ensures sent.Keys == outputs.Keys
    ensures forall name | name in sent ::
      sent[name] == if name in bad then outputs[name] else Send(outputs[name], item).value
  {
    sent := outputs;
    var order := Enumerate(outputs.Keys);
    ghost var done: set<string> := {};
    bad := {};
    for i := 0 to |order|
      invariant sent.Keys == outputs.Keys && done <= outputs.Keys
      invariant forall k | 0 <= k < i :: order[k] in done
      invariant forall k | i <= k < |order| :: order[k] !in done
      invariant forall name :: name in bad <==> name in done && !HasRoom(outputs[name], item)
      invariant forall name | name in sent ::
        sent[name] == if name !in done || name in bad then outputs[name] else Send(outputs[name], item).value
    {
      var name := order[i];
      var r := Send(sent[name], item);
      if r.Failure? {
        bad := bad + {name};
      } else {
        sent := sent[name := r.value];
      }
      done := done + {name};
    }
    assert done == outputs.Keys;
  }

  /** The eviction loop of a round, on the listener map: every name in `bad` is unsubscribed with
      `ErrWriteTimeout`, in an unspecified order, as `UnsuscribeWithError` does while the
      dispatcher runs; `emptied` is set when one of those removals leaves no listener. */
  method EvictAll(outputs: map<string, Output>, bad: set<string>)
    returns (order: seq<string>, remaining: map<string, Output>, closed: seq<Retired>, emptied: bool)
    requires bad <= outputs.Keys
    ensures Enumerates(order, bad)
    ensures remaining == outputs - bad
    ensures closed == Retirements(outputs, order, ErrWriteTimeout)
    ensures emptied == (bad != {} && |remaining| == 0)
  {
    var evicted := map name | name in bad :: outputs[name];
    assert evicted.Keys == bad;
    order, closed := CloseAll(evicted, ErrWriteTimeout);
    RetirementsAgree(evicted, outputs, order, ErrWriteTimeout);
    remaining := outputs - bad;
    // The map only shrinks, so only the last removal can leave it empty.
    emptied := bad != {} && |remaining| == 0;
  }

  /** The loop of the stop branch, on the listener map: every output is closed with `err`. */
  method CloseAll(outputs: map<string, Output>, err: Error) returns (order: seq<string>, closed: seq<Retired>)
    ensures Enumerates(order, outputs.Keys)
    ensures closed == Retirements(outputs, order, err)
  {
    order := Enumerate(outputs.Keys);
    closed := [];
    for i := 0 to |order|
      invariant closed == Retirements(outputs, order[..i], err)
    {
      closed := closed + [Retired(order[i], Close(outputs[order[i]], err))];
      assert order[..i + 1][..i] == order[..i];
    }
    assert order[..|order|] == order;
  }

  // ---------------------------------------------------------------------------
  // The fan-out

  class Fanout {
    /** Whether a `Setup` has succeeded: before that `listeners` is a nil map. */
    var configured: bool
    var config: Config
    var listeners: map<string, Output>
    /** Whether the dispatch goroutine runs. */
    var running: bool
    /** Whether the one-slot `stopChan` holds a stop request. */
    var stopPending: bool
    /** Every output closed so far, in order. */
    var retired: seq<Retired>

    ghost predicate Valid()
      reads this
    {
      && (configured ==> Validate(config) == None)
      && (!configured ==> listeners == map[] && !running)
      && (forall name | name in listeners :: Live(listeners[name], config.outputBufferSize as nat))
      && (forall k | 0 <= k < |retired| :: Settled(retired[k].output))
    }

    /** A zero `eventFanout`: not configured, no listener, not running. */
    constructor ()
      ensures Valid()
      ensures !configured && listeners == map[] && !running && !stopPending && retired == []
    {
      configured := false;
      config := Config(0, 0, "");
      listeners := map[];
      running := false;
      stopPending := false;
      retired := [];
    }

    /** `Setup`: the checks, as their error messages state them (`Validate`, which also
        refuses negative numbers), and on success the new configuration with no listener and
        an empty stop channel. A running dispatcher is left running. */
    method Setup(cfg: Config) returns (err: Option<SetupError>)
      requires Valid()
      modifies this
      ensures Valid()
      ensures err == Validate(cfg)
      ensures err.Some? ==> unchanged(this)
      ensures err.None? ==>
        && configured && config == cfg && listeners == map[] && !stopPending
        && running == old(running) && retired == old(retired)
    {
      err := Validate(cfg);
      if err.Some? {
        return;
      }
      configured := true;
      config := cfg;
      listeners := map[];
      stopPending := false;
    }

    /** `Stop`: a send on the one-slot stop channel. It completes only when the channel is
        empty; with a request already pending, or before any `Setup` (a nil channel), the send
        blocks, which the model reports as `blocked`, with nothing changed. */
    method Stop() returns (blocked: bool)
      requires Valid()
      modifies this
      ensures Valid()
      ensures blocked <==> old(stopPending) || !configured
      ensures blocked ==> unchanged(this)
      ensures !blocked ==>
        && stopPending
        && configured == old(configured) && config == old(config) && listeners == old(listeners)
        && running == old(running) && retired == old(retired)
    {
      if stopPending || !configured {
        return true;
      }
      stopPending := true;
      blocked := false;
    }

    /** `Suscribe`: refuses a name already present; otherwise adds it with empty queues and
        starts the dispatcher if it is not running. */
    method Suscribe(name: string) returns (err: Option<SubscriptionError>)
      requires Valid() && configured
      modifies this
      ensures Valid()
      ensures err.Some? <==> name in old(listeners)
      ensures err.Some? ==> err == Some(AlreadySubscribed(name)) && unchanged(this)
      ensures err.None? ==>
        && configured && config == old(config) && stopPending == old(stopPending) && retired == old(retired)
        && listeners == Subscribed(old(listeners), name, config.outputBufferSize as nat)
        && running
    {
      if name in listeners {
        return Some(AlreadySubscribed(name));
      }
      listeners := listeners[name := NewOutput(config.outputBufferSize as nat)];
      if !running {
        running := true;
      }
      err := None;
    }

    /** `UnsuscribeWithError`: refuses an unknown name; otherwise closes that listener's
        output after one attempt to deliver `e`, removes it, and reports whether that left a
        running fan-out with no listener, in which case it requests a stop. */
    method UnsuscribeWithError(name: string, e: Error) returns (stopped: bool, err: Option<SubscriptionError>)
      requires Valid()
      modifies this
      ensures Valid()
      ensures err.Some? <==> name !in old(listeners)
      ensures err.Some? ==> err == Some(NotSubscribed(name)) && !stopped && unchanged(this)
      ensures err.None? ==>
        && listeners == old(listeners) - {name}
        && retired == old(retired) + [Retired(name, Close(old(listeners)[name], e))]
        && (stopped <==> running && |listeners| == 0)
        && stopPending == (old(stopPending) || stopped)
      ensures configured == old(configured) && config == old(config) && running == old(running)
    {
      if name !in listeners {
        return false, Some(NotSubscribed(name));
      }
      CloseListener(name, e);
      err := None;
      if running && |listeners| == 0 {
        stopPending := true;
        return true, None;
      }
      stopped := false;
    }

    /** `close` on a listener's output followed by its removal from the map. */
    method CloseListener(name: string, e: Error)
      requires Valid() && name in listeners
      modifies this
      ensures Valid()
      ensures listeners == old(listeners) - {name}
      ensures retired == old(retired) + [Retired(name, Close(old(listeners)[name], e))]
      ensures configured == old(configured) && config == old(config)
      ensures running == old(running) && stopPending == old(stopPending)
    {
      retired := retired + [Retired(name, Close(listeners[name], e))];
      listeners := listeners - {name};
    }

    /** `Unsuscribe`: `UnsuscribeWithError` with `io.EOF`. */
    method Unsuscribe(name: string) returns (stopped: bool, err: Option<SubscriptionError>)
      requires Valid()
      modifies this
      ensures Valid()
      ensures err.Some? <==> name !in old(listeners)
      ensures err.Some? ==> err == Some(NotSubscribed(name)) && !stopped && unchanged(this)
      ensures err.None? ==>
        && listeners == old(listeners) - {name}
        && retired == old(retired) + [Retired(name, Close(old(listeners)[name], EOF))]
        && (stopped <==> running && |listeners| == 0)
        && stopPending == (old(stopPending) || stopped)
      ensures configured == old(configured) && config == old(config) && running == old(running)
    {
      stopped, err := UnsuscribeWithError(name, EOF);
    }

    /** A consumer reads the next event from its data queue, if there is one. */
    method ReceiveData(name: string) returns (ev: Option<Event>)
      requires Valid() && name in listeners
      modifies this
      ensures Valid()
      ensures old(listeners)[name].data == [] ==> ev == None && listeners == old(listeners)
      ensures old(listeners)[name].data != [] ==>
        && ev == Some(old(listeners)[name].data[0])
        && listeners == old(listeners)[name := old(listeners)[name].(data := old(listeners)[name].data[1..])]
      ensures configured == old(configured) && config == old(config) && running == old(running)
      ensures stopPending == old(stopPending) && retired == old(retired)
    {
      var o := listeners[name];
      if o.data == [] {
        return None;
      }
      ev := Some(o.data[0]);
      listeners := listeners[name := o.(data := o.data[1..])];
    }

    /** One round of `dispatch`: the item is sent to every listener, then each listener whose
        send timed out is unsubscribed with `ErrWriteTimeout`. */
    method Dispatch(item: Item) returns (order: seq<string>)
      requires Valid() && running
      modifies this
      ensures Valid()
      ensures listeners == Survivors(old(listeners), item)
      ensures Enumerates(order, Failed(old(listeners), item))
      ensures retired == old(retired) + Retirements(old(listeners), order, ErrWriteTimeout)
      ensures stopPending == (old(stopPending) || (Failed(old(listeners), item) != {} && |listeners| == 0))
      ensures configured == old(configured) && config == old(config) && running
    {
      ghost var l0 := listeners;
      var bad := Broadcast(item);
      ghost var l1 := listeners;
      order := Evict(bad);
      assert listeners == Survivors(l0, item);
      RetirementsAgree(l1, l0, order, ErrWriteTimeout);
    }

    /** The broadcast loop of a round: returns the listeners whose send timed out. */
    method Broadcast(item: Item) returns (bad: set<string>)
      requires Valid()
      modifies this
      ensures Valid()
      ensures bad == Failed(old(listeners), item)
      ensures listeners.Keys == old(listeners).Keys
      ensures forall name | name in listeners ::
        listeners[name] == if name in bad then old(listeners)[name] else Send(old(listeners)[name], item).value
      ensures configured == old(configured) && config == old(config) && running == old(running)
      ensures stopPending == old(stopPending) && retired == old(retired)
    {
      var ls;
      ls, bad := SendAll(listeners, item);
      forall name | name in ls
        ensures Live(ls[name], config.outputBufferSize as nat)
      {
        if name !in bad {
          SendKeepsLive(listeners[name], item, config.outputBufferSize as nat);
        }
      }
      listeners := ls;
    }

    /** The eviction loop of a round: every listener in `bad` is unsubscribed with `ErrWriteTimeout`,
        in an unspecified order. */
    method Evict(bad: set<string>) returns (order: seq<string>)
      requires Valid() && running
      requires bad <= listeners.Keys
      modifies this
      ensures Valid()
      ensures listeners == old(listeners) - bad
      ensures Enumerates(order, bad)
      ensures retired == old(retired) + Retirements(old(listeners), order, ErrWriteTimeout)
      ensures stopPending == (old(stopPending) || (bad != {} && |listeners| == 0))
      ensures configured == old(configured) && config == old(config) && running
    {
      var remaining, closed, emptied;
      order, remaining, closed, emptied := EvictAll(listeners, bad);
      assert forall name | name in remaining :: remaining[name] == listeners[name];
      RetirementsSettled(listeners, order, ErrWriteTimeout);
      assert forall k | 0 <= k < |retired + closed| :: Settled((retired + closed)[k].output);
      listeners, retired := remaining, retired + closed;
      stopPending := stopPending || emptied;
    }

    /** The stop branch of `dispatch`: every listener is closed with `io.EOF` and removed, and
        the dispatcher ends. */
    method HandleStop() returns (order: seq<string>)
      requires Valid() && running && stopPending
      modifies this
      ensures Valid()
      ensures listeners == map[] && !running && !stopPending
      ensures Enumerates(order, old(listeners).Keys)
      ensures retired == old(retired) + Retirements(old(listeners), order, EOF)
      ensures configured == old(configured) && config == old(config)
    {
      var closed;
      order, closed := CloseAll(listeners, EOF);
      RetirementsSettled(listeners, order, EOF);
      listeners, retired := map[], retired + closed;
      running := false;
      stopPending := false;
    }
  }
}
