/**
 * The batch aggregator: the loop that reads items from the queue and timer
 * ticks, sends changed items straight to the store as updates, and buffers
 * the others until 50 have gathered, a tick fires, or the queue closes.
 */
module App {
  import opened Feed
  import Db
  import Seqs

  /** A flush happens as soon as the buffer holds this many items. */
  const FlushThreshold: nat := 50

  /** What one turn of the `select` receives. */
  datatype Event =
    | Received(item: Item)  // an item read from the queue
    | Tick                  // the ticker fired
    | Closed                // the queue was closed

  /** A call the aggregator makes on the store. */
  datatype SinkCall = InsertBatchCall(batch: seq<Item>) | UpdateCall(item: Item)

  /** The aggregator's state: the buffer, the calls made so far, and whether the loop returned. */
  datatype Aggregate = Aggregate(buffer: seq<Item>, calls: seq<SinkCall>, drained: bool)

  const Initial: Aggregate := Aggregate([], [], false)

  /** One turn of the loop. Once the loop has returned nothing more happens. */
  function Turn(s: Aggregate, e: Event): (r: Aggregate)
    ensures s.drained ==> r == s
    ensures r.drained <==> s.drained || e == Closed
    ensures s.calls <= r.calls && |r.calls| <= |s.calls| + 1
  {
    if s.drained then s
    else
      match e
      case Closed =>
        Aggregate([], s.calls + (if |s.buffer| > 0 then [InsertBatchCall(s.buffer)] else []), true)
      case Received(item) =>
        if item.changed then s.(calls := s.calls + [UpdateCall(item)])
        else
          var buffer := s.buffer + [item];
          if |buffer| >= FlushThreshold then Aggregate([], s.calls + [InsertBatchCall(buffer)], false)
          else s.(buffer := buffer)
      case Tick =>
        if |s.buffer| > 0 then Aggregate([], s.calls + [InsertBatchCall(s.buffer)], false) else s
  }

  /** The loop run over a sequence of events. */
  function Run(s: Aggregate, events: seq<Event>): (r: Aggregate)
    ensures s.drained ==> r == s
    ensures s.calls <= r.calls && |r.calls| <= |s.calls| + |events|
    decreases |events|
  {
    if events == [] || s.drained then s else Run(Turn(s, events[0]), events[1..])
  }

  /**
   * The store's answers the loop receives: `oks[i]` is the answer to the
   * call event i makes, and an event that makes no call receives none.
   * There is one answer per call, and when the store accepts every call,
   * every answer is an acceptance.
   */
  function Answers(s: Aggregate, events: seq<Event>, oks: seq<bool>): (r: seq<bool>)
    requires |oks| == |events|
    ensures |r| == |Run(s, events).calls| - |s.calls|
    ensures (forall i :: 0 <= i < |oks| ==> oks[i]) ==> forall j :: 0 <= j < |r| ==> r[j]
    decreases |events|
  {
    if events == [] || s.drained then []
    else
      var s' := Turn(s, events[0]);
      (if |s'.calls| > |s.calls| then [oks[0]] else []) + Answers(s', events[1..], oks[1..])
  }

  /** The events the loop takes in: all of them up to and including the first Closed. */
  function Consumed(events: seq<Event>): seq<Event>
  {
    if events == [] then []
    else if events[0] == Closed then [Closed]
    else [events[0]] + Consumed(events[1..])
  }

  /** The received items that are new records, in arrival order. */
  function FreshItems(events: seq<Event>): seq<Item>
  {
    if events == [] then []
    else (if events[0].Received? && !events[0].item.changed then [events[0].item] else [])
         + FreshItems(events[1..])
  }

  /** The received items that are changes to stored records, in arrival order. */
  function ChangedItems(events: seq<Event>): seq<Item>
  {
    if events == [] then []
    else (if events[0].Received? && events[0].item.changed then [events[0].item] else [])
         + ChangedItems(events[1..])
  }

  /** The items handed to the batch insert, batch after batch. */
  function Flushed(calls: seq<SinkCall>): seq<Item>
  {
    if calls == [] then []
    else Flushed(calls[..|calls| - 1])
         + (if calls[|calls| - 1].InsertBatchCall? then calls[|calls| - 1].batch else [])
  }

  /** The items handed to the update, one call each. */
  function Updates(calls: seq<SinkCall>): seq<Item>
  {
    if calls == [] then []
    else Updates(calls[..|calls| - 1])
         + (if calls[|calls| - 1].UpdateCall? then [calls[|calls| - 1].item] else [])
  }

  function Receive(items: seq<Item>): (events: seq<Event>)
    ensures |events| == |items|
    ensures forall i :: 0 <= i < |items| ==> events[i] == Received(items[i])
  {
    seq(|items|, i requires 0 <= i < |items| => Received(items[i]))
  }

  predicate AllFresh(items: seq<Item>)
  {
    forall i :: 0 <= i < |items| ==> !items[i].changed
  }

  /** A batch as the aggregator hands it over: 1 to 50 new records. */
  predicate GoodBatch(c: SinkCall)
  {
    c.InsertBatchCall? ==> 0 < |c.batch| <= FlushThreshold && AllFresh(c.batch)
  }

  /**
   * What holds between two turns: fewer than 50 buffered items, all of them
   * new records; nothing buffered once the loop has returned; every batch
   * handed over holds 1 to 50 new records.
   */
  ghost predicate Inv(s: Aggregate)
  {
    && |s.buffer| < FlushThreshold
    && AllFresh(s.buffer)
    && (s.drained ==> s.buffer == [])
    && (forall i :: 0 <= i < |s.calls| ==> GoodBatch(s.calls[i]))
  }

  // ---------------------------------------------------------------------
  // Properties of the loop

  /** Every turn keeps the invariant. */
  lemma TurnKeepsInv(s: Aggregate, e: Event)
    requires Inv(s)
    ensures Inv(Turn(s, e))
  {
    var s' := Turn(s, e);
    if !s.drained && e.Received? && !e.item.changed {
      assert AllFresh(s.buffer + [e.item]);
    }
    assert forall i :: 0 <= i < |s.calls| ==> s'.calls[i] == s.calls[i];
  }

  lemma {:induction false} RunKeepsInv(s: Aggregate, events: seq<Event>)
    requires Inv(s)
    ensures Inv(Run(s, events))
    decreases |events|
  {
    if events != [] && !s.drained {
      TurnKeepsInv(s, events[0]);
      RunKeepsInv(Turn(s, events[0]), events[1..]);
    }
  }

  lemma FlushedSnoc(calls: seq<SinkCall>, c: SinkCall)
    ensures Flushed(calls + [c]) == Flushed(calls) + (if c.InsertBatchCall? then c.batch else [])
    ensures Updates(calls + [c]) == Updates(calls) + (if c.UpdateCall? then [c.item] else [])
  {
    assert (calls + [c])[..|calls|] == calls;
  }

  lemma ItemsOfOne(e: Event)
    ensures FreshItems([e]) == (if e.Received? && !e.item.changed then [e.item] else [])
    ensures ChangedItems([e]) == (if e.Received? && e.item.changed then [e.item] else [])
  {
    assert [e][1..] == [];
  }

  /**
   * One turn moves each received item exactly once: a new record into the
   * flushed batches or the buffer (at the end), a change into one update.
   */
  lemma TurnConserves(s: Aggregate, e: Event)
    requires !s.drained
    ensures Flushed(Turn(s, e).calls) + Turn(s, e).buffer == Flushed(s.calls) + s.buffer + FreshItems([e])
    ensures Updates(Turn(s, e).calls) == Updates(s.calls) + ChangedItems([e])
  {
    if e.Received? && e.item.changed {
      UpdateConserves(s, e);
    } else {
      BufferConserves(s, e);
    }
  }

  /** A turn on a changed item: one more update, nothing else moves. */
  lemma UpdateConserves(s: Aggregate, e: Event)
    requires !s.drained && e.Received? && e.item.changed
    ensures Flushed(Turn(s, e).calls) + Turn(s, e).buffer == Flushed(s.calls) + s.buffer + FreshItems([e])
    ensures Updates(Turn(s, e).calls) == Updates(s.calls) + ChangedItems([e])
  {
    ItemsOfOne(e);
    FlushedSnoc(s.calls, UpdateCall(e.item));
    assert Turn(s, e) == s.(calls := s.calls + [UpdateCall(e.item)]);
    assert Flushed(s.calls) + s.buffer + [] == Flushed(s.calls) + s.buffer;
  }

  /** A turn on anything else: the buffer and the arriving record are flushed or kept. */
  lemma BufferConserves(s: Aggregate, e: Event)
    requires !s.drained && !(e.Received? && e.item.changed)
    ensures Flushed(Turn(s, e).calls) + Turn(s, e).buffer == Flushed(s.calls) + s.buffer + FreshItems([e])
    ensures Updates(Turn(s, e).calls) == Updates(s.calls) + ChangedItems([e])
  {
    ItemsOfOne(e);
    var arrived := if e.Received? then [e.item] else [];
    FlushConserves(s, e);
    Seqs.Assoc(Flushed(s.calls), s.buffer, arrived);
    assert Updates(s.calls) + [] == Updates(s.calls);
  }

  /** A turn that does not update: the buffer plus the fresh item is either flushed whole or kept. */
  lemma FlushConserves(s: Aggregate, e: Event)
    requires !s.drained && !(e.Received? && e.item.changed)
    ensures Flushed(Turn(s, e).calls) + Turn(s, e).buffer
      == Flushed(s.calls) + (s.buffer + (if e.Received? then [e.item] else []))
    ensures Updates(Turn(s, e).calls) == Updates(s.calls)
  {
    var b := s.buffer + (if e.Received? then [e.item] else []);
    var r := Turn(s, e);
    if e.Received? {
      assert b == s.buffer + [e.item];
    } else {
      assert b == s.buffer + [] == s.buffer;
    }
    if r.buffer == [] && b != [] {
      assert r.calls == s.calls + [InsertBatchCall(b)];
      FlushedSnoc(s.calls, InsertBatchCall(b));
    } else {
      assert r.calls == s.calls && r.buffer == b;
    }
  }

  /** Run over a non-empty sequence that does not start with Closed is one turn, then the rest. */
  lemma RunOpen(s: Aggregate, events: seq<Event>)
    requires !s.drained && events != [] && events[0] != Closed
    ensures Run(s, events) == Run(Turn(s, events[0]), events[1..])
    ensures Consumed(events) == [events[0]] + Consumed(events[1..])
    ensures !Turn(s, events[0]).drained
  {
  }

  /** The flushed batches and the buffer, followed by the new records still to come. */
  ghost predicate Conserved(s: Aggregate, r: Aggregate, events: seq<Event>)
  {
    && Flushed(r.calls) + r.buffer == Flushed(s.calls) + s.buffer + FreshItems(Consumed(events))
    && Updates(r.calls) == Updates(s.calls) + ChangedItems(Consumed(events))
  }

  lemma ConservesClosed(s: Aggregate, events: seq<Event>)
    requires !s.drained && events != [] && events[0] == Closed
    ensures Conserved(s, Run(s, events), events)
  {
    TurnConserves(s, Closed);
    assert Consumed(events) == [Closed];
    assert Run(s, events) == Turn(s, Closed);
  }

  /** Conservation over one turn and over the rest compose. */
  lemma ConservedCompose(s: Aggregate, s1: Aggregate, r: Aggregate, e: Event, cs: seq<Event>)
    requires Flushed(s1.calls) + s1.buffer == Flushed(s.calls) + s.buffer + FreshItems([e])
    requires Updates(s1.calls) == Updates(s.calls) + ChangedItems([e])
    requires Flushed(r.calls) + r.buffer == Flushed(s1.calls) + s1.buffer + FreshItems(cs)
    requires Updates(r.calls) == Updates(s1.calls) + ChangedItems(cs)
    ensures Flushed(r.calls) + r.buffer == Flushed(s.calls) + s.buffer + FreshItems([e] + cs)
    ensures Updates(r.calls) == Updates(s.calls) + ChangedItems([e] + cs)
  {
    FreshItemsConcat([e], cs);
    Seqs.Assoc(Flushed(s.calls) + s.buffer, FreshItems([e]), FreshItems(cs));
    Seqs.Assoc(Updates(s.calls), ChangedItems([e]), ChangedItems(cs));
  }

  /**
   * Conservation: the flushed batches followed by the buffer are the new
   * records received so far, in arrival order, and the updates are the
   * changed items received so far, in arrival order.
   */
  lemma {:induction false} RunConserves(s: Aggregate, events: seq<Event>)
    requires !s.drained
    ensures Flushed(Run(s, events).calls) + Run(s, events).buffer
      == Flushed(s.calls) + s.buffer + FreshItems(Consumed(events))
    ensures Updates(Run(s, events).calls) == Updates(s.calls) + ChangedItems(Consumed(events))
    decreases |events|
  {
    if events == [] {
    } else if events[0] == Closed {
      ConservesClosed(s, events);
    } else {
      var e := events[0];
      RunOpen(s, events);
      TurnConserves(s, e);
      RunConserves(Turn(s, e), events[1..]);
      ConservedCompose(s, Turn(s, e), Run(s, events), e, Consumed(events[1..]));
    }
  }

  /** The loop returns exactly when it takes in Closed. */
  lemma {:induction false} RunDrains(s: Aggregate, events: seq<Event>)
    requires !s.drained
    ensures Run(s, events).drained <==> Closed in events
    decreases |events|
  {
    if events != [] && events[0] != Closed {
      RunDrains(Turn(s, events[0]), events[1..]);
      assert Closed in events <==> Closed in events[1..];
    }
  }

  /**
   * No item is lost: once the queue is closed, every new record received
   * has been handed to exactly one batch insert, in arrival order, and the
   * buffer is empty.
   */
  lemma EndOfStreamFlushesAll(events: seq<Event>)
    requires Closed in events
    ensures Run(Initial, events).drained && Run(Initial, events).buffer == []
    ensures Flushed(Run(Initial, events).calls) == FreshItems(Consumed(events))
    ensures Updates(Run(Initial, events).calls) == ChangedItems(Consumed(events))
  {
    RunDrains(Initial, events);
    RunConserves(Initial, events);
    RunKeepsInv(Initial, events);
    assert Flushed(Initial.calls) == [] && Updates(Initial.calls) == [];
    var r := Run(Initial, events);
    assert Flushed(r.calls) + r.buffer == Flushed(r.calls);
    assert Flushed(Initial.calls) + Initial.buffer + FreshItems(Consumed(events)) == FreshItems(Consumed(events));
  }

  /**
   * End of stream flushes the buffer once if it is non-empty, and the loop
   * then makes no further call whatever else arrives.
   */
  lemma ClosedFlushesOnce(s: Aggregate, rest: seq<Event>)
    requires !s.drained
    ensures Run(s, [Closed] + rest).drained && Run(s, [Closed] + rest).buffer == []
    ensures Run(s, [Closed] + rest).calls
      == s.calls + (if s.buffer != [] then [InsertBatchCall(s.buffer)] else [])
  {
    RunAppend(s, [Closed], rest);
    assert Run(s, [Closed]) == Turn(s, Closed) by {
      assert [Closed][1..] == [];
    }
  }

  /** Fewer than 50 new records accumulate without a call. */
  lemma {:induction false} Accumulate(s: Aggregate, items: seq<Item>)
    requires !s.drained && AllFresh(items) && |s.buffer| + |items| < FlushThreshold
    ensures Run(s, Receive(items)) == s.(buffer := s.buffer + items)
    decreases |items|
  {
    if items != [] {
      var s' := Turn(s, Received(items[0]));
      assert s' == s.(buffer := s.buffer + [items[0]]);
      assert Receive(items)[1..] == Receive(items[1..]);
      Accumulate(s', items[1..]);
      assert s.buffer + [items[0]] + items[1..] == s.buffer + items;
    }
  }

  /**
   * A quiet interval: from an empty buffer, fewer than 50 new records and
   * then a tick give exactly one batch insert holding exactly those records,
   * or no call at all when there were none.
   */
  lemma QuietInterval(s: Aggregate, items: seq<Item>)
    requires !s.drained && s.buffer == [] && AllFresh(items) && |items| < FlushThreshold
    ensures Run(s, Receive(items) + [Tick]).calls
      == s.calls + (if items == [] then [] else [InsertBatchCall(items)])
    ensures Run(s, Receive(items) + [Tick]).buffer == []
  {
    RunAppend(s, Receive(items), [Tick]);
    Accumulate(s, items);
    assert s.buffer + items == items;
    var full := s.(buffer := items);
    assert Run(full, [Tick]) == Turn(full, Tick) by {
      assert [Tick][1..] == [];
    }
  }

  /** A burst: from an empty buffer, the 50th new record triggers the flush of all 50. */
  lemma SizeTrigger(s: Aggregate, items: seq<Item>)
    requires !s.drained && s.buffer == [] && AllFresh(items) && |items| == FlushThreshold
    ensures Run(s, Receive(items)).calls == s.calls + [InsertBatchCall(items)]
    ensures Run(s, Receive(items)).buffer == []
  {
    var n := |items| - 1;
    assert Receive(items) == Receive(items[..n]) + [Received(items[n])];
    RunAppend(s, Receive(items[..n]), [Received(items[n])]);
    assert AllFresh(items[..n]);
    Accumulate(s, items[..n]);
    assert s.buffer + items[..n] == items[..n];
    assert items[..n] + [items[n]] == items;
    var almost := s.(buffer := items[..n]);
    assert Run(almost, [Received(items[n])]) == Turn(almost, Received(items[n])) by {
      assert [Received(items[n])][1..] == [];
    }
  }

  lemma {:induction false} RunAppend(s: Aggregate, a: seq<Event>, b: seq<Event>)
    ensures Run(s, a + b) == Run(Run(s, a), b)
    decreases |a|
  {
    if a != [] && !s.drained {
      assert (a + b)[1..] == a[1..] + b;
      RunAppend(Turn(s, a[0]), a[1..], b);
    } else if a == [] {
      assert a + b == b;
    }
  }

  // ---------------------------------------------------------------------
  // The effect of the calls on the store

  /** What one call does to the table; `ok` is whether the store accepted it. */
  function Apply(t: Db.Table, c: SinkCall, ok: bool): Db.Table
  {
    if !ok then t
    else
      match c
      case InsertBatchCall(batch) => Db.BatchEffect(t, batch)
      case UpdateCall(item) =>
        match Db.UpdateEffect(t, item)
        case Ok(t') => t'
        case Err(_) => t
  }

  function Replay(t: Db.Table, calls: seq<SinkCall>, oks: seq<bool>): Db.Table
    requires |calls| == |oks|
  {
    if calls == [] then t
    else Apply(Replay(t, calls[..|calls| - 1], oks[..|oks| - 1]), calls[|calls| - 1], oks[|oks| - 1])
  }

  // ---------------------------------------------------------------------
  // The loop itself

  class Aggregator {
    const db: Db.DB
    var items: seq<Item>
    var drained: bool
    ghost var calls: seq<SinkCall>
    /** The events taken in so far. */
    ghost var consumed: seq<Event>
    /** For each call, whether the store accepted it. */
    ghost var outcomes: seq<bool>

    ghost function State(): Aggregate
      reads this
    {
      Aggregate(items, calls, drained)
    }

    ghost predicate Valid()
      reads this, db
    {
      && db.Valid()
      && Inv(State())
      && |outcomes| == |calls|
      && Flushed(calls) + items == FreshItems(consumed)
      && Updates(calls) == ChangedItems(consumed)
    }

    constructor (db: Db.DB)
      requires db.Valid()
      ensures this.db == db && Valid()
      ensures State() == Initial && consumed == [] && outcomes == []
    {
      this.db := db;
      items := [];
      drained := false;
      calls := [];
      consumed := [];
      outcomes := [];
    }

    /**
     * The block the loop repeats for a full buffer, a tick and the close:
     * hand the buffer to the batch insert, ignore a refusal, and empty it.
     */
    method Flush(sinkOk: bool)
      requires |items| > 0 && |calls| == |outcomes| && db.Valid()
      modifies this, db
      ensures db.Valid()
      ensures items == [] && drained == old(drained) && consumed == old(consumed)
      ensures calls == old(calls) + [InsertBatchCall(old(items))]
      ensures outcomes == old(outcomes) + [sinkOk]
      ensures db.table == Replay(old(db.table), calls[|old(calls)|..], outcomes[|old(outcomes)|..])
    {
      var err := db.InsertBatch(items, sinkOk);
      OneCall(old(db.table), db.table, calls, outcomes, InsertBatchCall(items), sinkOk);
      calls := calls + [InsertBatchCall(items)];
      outcomes := outcomes + [sinkOk];
      items := [];
    }

    /** A changed item goes to the update by md5; a refusal is ignored. */
    method Update(item: Item, sinkOk: bool)
      requires |calls| == |outcomes| && db.Valid()
      modifies this, db
      ensures db.Valid()
      ensures items == old(items) && drained == old(drained) && consumed == old(consumed)
      ensures calls == old(calls) + [UpdateCall(item)]
      ensures outcomes == old(outcomes) + [sinkOk]
      ensures db.table == Replay(old(db.table), calls[|old(calls)|..], outcomes[|old(outcomes)|..])
    {
      var err := db.UpdateByMD5(item, sinkOk);
      OneCall(old(db.table), db.table, calls, outcomes, UpdateCall(item), sinkOk);
      calls := calls + [UpdateCall(item)];
      outcomes := outcomes + [sinkOk];
    }

    /**
     * One turn of the `select`. `sinkOk` stands for whether the store
     * accepts the call this turn makes, if any; a refused call is only
     * logged and changes neither the buffer nor the loop.
     */
    method Step(e: Event, sinkOk: bool)
      requires Valid() && !drained
      modifies this, db
      ensures Valid()
      ensures State() == Turn(old(State()), e)
      ensures consumed == old(consumed) + [e]
      ensures old(calls) <= calls && |calls| <= |old(calls)| + 1
      ensures outcomes == old(outcomes) + (if |calls| > |old(calls)| then [sinkOk] else [])
      ensures db.table == Replay(old(db.table), calls[|old(calls)|..], outcomes[|old(outcomes)|..])
    {
      match e {
        case Closed => OnClosed(sinkOk);
        case Received(item) =>
          if item.changed {
            OnChanged(item, sinkOk);
          } else {
            OnFresh(item, sinkOk);
          }
        case Tick => OnTick(sinkOk);
      }
    }

    /** The channel was closed: flush a non-empty buffer and return. */
    method OnClosed(sinkOk: bool)
      requires Valid() && !drained
      modifies this, db
      ensures Valid()
      ensures State() == Turn(old(State()), Closed)
      ensures consumed == old(consumed) + [Closed]
      ensures old(calls) <= calls && |calls| <= |old(calls)| + 1
      ensures outcomes == old(outcomes) + (if |calls| > |old(calls)| then [sinkOk] else [])
      ensures db.table == Replay(old(db.table), calls[|old(calls)|..], outcomes[|old(outcomes)|..])
    {
      ghost var before, consumed0 := State(), consumed;
      if |items| > 0 {
        Flush(sinkOk);
      } else {
        NoCall(db.table, calls, outcomes);
      }
      drained := true;
      assert State() == Turn(before, Closed);
      consumed := consumed + [Closed];
      TurnKeepsValid(before, consumed0, Closed);
    }

    /** A changed item arrived: it goes straight to the update by md5. */
    method OnChanged(item: Item, sinkOk: bool)
      requires Valid() && !drained && item.changed
      modifies this, db
      ensures Valid()
      ensures State() == Turn(old(State()), Received(item))
      ensures consumed == old(consumed) + [Received(item)]
      ensures old(calls) <= calls && |calls| <= |old(calls)| + 1
      ensures outcomes == old(outcomes) + (if |calls| > |old(calls)| then [sinkOk] else [])
      ensures db.table == Replay(old(db.table), calls[|old(calls)|..], outcomes[|old(outcomes)|..])
    {
      ghost var before, consumed0 := State(), consumed;
      Update(item, sinkOk);
      assert State() == Turn(before, Received(item));
      consumed := consumed + [Received(item)];
      TurnKeepsValid(before, consumed0, Received(item));
    }

    /** A new record arrived: it joins the buffer, which is flushed once it holds 50. */
    method OnFresh(item: Item, sinkOk: bool)
      requires Valid() && !drained && !item.changed
      modifies this, db
      ensures Valid()
      ensures State() == Turn(old(State()), Received(item))
      ensures consumed == old(consumed) + [Received(item)]
      ensures old(calls) <= calls && |calls| <= |old(calls)| + 1
      ensures outcomes == old(outcomes) + (if |calls| > |old(calls)| then [sinkOk] else [])
      ensures db.table == Replay(old(db.table), calls[|old(calls)|..], outcomes[|old(outcomes)|..])
    {
      ghost var before, consumed0 := State(), consumed;
      items := items + [item];
      if |items| >= FlushThreshold {
        Flush(sinkOk);
      } else {
        NoCall(db.table, calls, outcomes);
      }
      assert State() == Turn(before, Received(item));
      consumed := consumed + [Received(item)];
      TurnKeepsValid(before, consumed0, Received(item));
    }

    /** The ticker fired: flush a non-empty buffer. */
    method OnTick(sinkOk: bool)
      requires Valid() && !drained
      modifies this, db
      ensures Valid()
      ensures State() == Turn(old(State()), Tick)
      ensures consumed == old(consumed) + [Tick]
      ensures old(calls) <= calls && |calls| <= |old(calls)| + 1
      ensures outcomes == old(outcomes) + (if |calls| > |old(calls)| then [sinkOk] else [])
      ensures db.table == Replay(old(db.table), calls[|old(calls)|..], outcomes[|old(outcomes)|..])
    {
      ghost var before, consumed0 := State(), consumed;
      if |items| > 0 {
        Flush(sinkOk);
      } else {
        NoCall(db.table, calls, outcomes);
      }
      assert State() == Turn(before, Tick);
      consumed := consumed + [Tick];
      TurnKeepsValid(before, consumed0, Tick);
    }

    /**
     * The loop: take events until the queue is closed or, for a stream that
     * is still open, until the given events run out. `sinkOk[i]` is the
     * store's answer to the call made on event i, if any.
     */
    method Start(events: seq<Event>, sinkOk: seq<bool>)
      requires Valid() && !drained && |sinkOk| == |events|
      modifies this, db
      ensures Valid()
      ensures State() == Run(old(State()), events)
      ensures consumed == old(consumed) + Consumed(events)
      ensures outcomes == old(outcomes) + Answers(old(State()), events, sinkOk)
      ensures old(calls) <= calls
      ensures db.table == Replay(old(db.table), calls[|old(calls)|..], outcomes[|old(outcomes)|..])
    {
      ghost var s0, consumed0, outcomes0, table0 := State(), consumed, outcomes, db.table;
      var i := 0;
      NothingTaken(s0, consumed0, outcomes0, table0, events, sinkOk);
      while i < |events| && !drained
        invariant 0 <= i <= |events| && Valid()
        invariant Tracks(s0, consumed0, outcomes0, table0, events, sinkOk, i, State(), consumed, outcomes, db.table)
        decreases |events| - i
      {
        ghost var before, consumedBefore, outcomesBefore, tableBefore := State(), consumed, outcomes, db.table;
        Step(events[i], sinkOk[i]);
        TakeStep(s0, consumed0, outcomes0, table0, events, sinkOk, i,
                 before, consumedBefore, outcomesBefore, tableBefore, State(), consumed, outcomes, db.table);
        i := i + 1;
      }
      ProgressEnd(s0, consumed0, outcomes0, events, sinkOk, i, State(), consumed, outcomes);
    }
  }

  lemma FreshItemsAppend(events: seq<Event>, e: Event)
    ensures FreshItems(events + [e]) == FreshItems(events) + FreshItems([e])
    ensures ChangedItems(events + [e]) == ChangedItems(events) + ChangedItems([e])
  {
    FreshItemsConcat(events, [e]);
  }

  lemma {:induction false} FreshItemsConcat(a: seq<Event>, b: seq<Event>)
    ensures FreshItems(a + b) == FreshItems(a) + FreshItems(b)
    ensures ChangedItems(a + b) == ChangedItems(a) + ChangedItems(b)
  {
    if a != [] {
      assert (a + b)[1..] == a[1..] + b;
      FreshItemsConcat(a[1..], b);
    } else {
      assert a + b == b;
    }
  }

  /** Replaying two runs of calls one after the other is replaying them together. */
  lemma {:induction false} ReplayAppend(t: Db.Table, xs: seq<SinkCall>, os: seq<bool>, ys: seq<SinkCall>, ps: seq<bool>)
    requires |xs| == |os| && |ys| == |ps|
    ensures Replay(Replay(t, xs, os), ys, ps) == Replay(t, xs + ys, os + ps)
    decreases |ys|
  {
    if ys == [] {
      assert xs + ys == xs && os + ps == os;
    } else {
      var n := |ys| - 1;
      ReplayAppend(t, xs, os, ys[..n], ps[..n]);
      assert (xs + ys)[..|xs + ys| - 1] == xs + ys[..n];
      assert (os + ps)[..|os + ps| - 1] == os + ps[..n];
    }
  }


  /**
   * How far `Start` has come after i events, from `s0` with `consumed0`
   * taken in and `outcomes0` answered: the run from here ends where the
   * whole run ends, and the events and answers still to come complete the
   * whole run's.
   */
  ghost predicate Progress(s0: Aggregate, consumed0: seq<Event>, outcomes0: seq<bool>,
                           events: seq<Event>, oks: seq<bool>, i: nat,
                           s: Aggregate, consumed: seq<Event>, outcomes: seq<bool>)
    requires i <= |events| == |oks|
  {
    && Run(s, events[i..]) == Run(s0, events)
    && consumed + (if s.drained then [] else Consumed(events[i..])) == consumed0 + Consumed(events)
    && outcomes + Answers(s, events[i..], oks[i..]) == outcomes0 + Answers(s0, events, oks)
  }

  /** Taking event i in moves the progress on by one turn. */
  lemma TakeAt(s0: Aggregate, consumed0: seq<Event>, outcomes0: seq<bool>,
               events: seq<Event>, oks: seq<bool>, i: nat,
               s: Aggregate, consumed: seq<Event>, outcomes: seq<bool>)
    requires !s.drained && i < |events| == |oks|
    requires Progress(s0, consumed0, outcomes0, events, oks, i, s, consumed, outcomes)
    ensures Progress(s0, consumed0, outcomes0, events, oks, i + 1, Turn(s, events[i]), consumed + [events[i]],
                     outcomes + (if |Turn(s, events[i]).calls| > |s.calls| then [oks[i]] else []))
  {
    assert events[i..][1..] == events[i + 1..];
    assert oks[i..][1..] == oks[i + 1..];
    var s' := Turn(s, events[i]);
    var rest := if s'.drained then [] else Consumed(events[i + 1..]);
    assert Consumed(events[i..]) == [events[i]] + rest;
    Seqs.Assoc(consumed, [events[i]], rest);
    var answer := if |s'.calls| > |s.calls| then [oks[i]] else [];
    assert Answers(s, events[i..], oks[i..]) == answer + Answers(s', events[i + 1..], oks[i + 1..]);
    Seqs.Assoc(outcomes, answer, Answers(s', events[i + 1..], oks[i + 1..]));
  }

  /**
   * What `Start` keeps between events: its progress through the run, and
   * the table as the replay of the calls made since it began.
   */
  ghost predicate Tracks(s0: Aggregate, consumed0: seq<Event>, outcomes0: seq<bool>, table0: Db.Table,
                         events: seq<Event>, oks: seq<bool>, i: nat,
                         s: Aggregate, consumed: seq<Event>, outcomes: seq<bool>, table: Db.Table)
  {
    && i <= |events| == |oks|
    && Progress(s0, consumed0, outcomes0, events, oks, i, s, consumed, outcomes)
    && s0.calls <= s.calls && outcomes0 <= outcomes
    && |s0.calls| == |outcomes0| && |s.calls| == |outcomes|
    && table == Replay(table0, s.calls[|s0.calls|..], outcomes[|outcomes0|..])
  }

  lemma NothingTaken(s0: Aggregate, consumed0: seq<Event>, outcomes0: seq<bool>, table0: Db.Table,
                     events: seq<Event>, oks: seq<bool>)
    requires !s0.drained && |events| == |oks| && |s0.calls| == |outcomes0|
    ensures Tracks(s0, consumed0, outcomes0, table0, events, oks, 0, s0, consumed0, outcomes0, table0)
  {
    assert events[0..] == events && oks[0..] == oks;
    NoCall(table0, s0.calls, outcomes0);
  }

  /** One step of `Start`, as `Step` promises it, keeps `Tracks`. */
  lemma TakeStep(s0: Aggregate, consumed0: seq<Event>, outcomes0: seq<bool>, table0: Db.Table,
                 events: seq<Event>, oks: seq<bool>, i: nat,
                 s: Aggregate, consumed: seq<Event>, outcomes: seq<bool>, table: Db.Table,
                 s': Aggregate, consumed': seq<Event>, outcomes': seq<bool>, table': Db.Table)
    requires i < |events| && !s.drained
    requires Tracks(s0, consumed0, outcomes0, table0, events, oks, i, s, consumed, outcomes, table)
    requires s' == Turn(s, events[i]) && |s'.calls| == |outcomes'|
    requires consumed' == consumed + [events[i]]
    requires outcomes' == outcomes + (if |s'.calls| > |s.calls| then [oks[i]] else [])
    requires table' == Replay(table, s'.calls[|s.calls|..], outcomes'[|outcomes|..])
    ensures Tracks(s0, consumed0, outcomes0, table0, events, oks, i + 1, s', consumed', outcomes', table')
  {
    TakeAt(s0, consumed0, outcomes0, events, oks, i, s, consumed, outcomes);
    ReplayContinue(table0, table, table', s0.calls, outcomes0, s.calls, outcomes, s'.calls, outcomes');
  }

  /** Once the loop has returned or the events have run out, the progress is the whole run. */
  lemma ProgressEnd(s0: Aggregate, consumed0: seq<Event>, outcomes0: seq<bool>,
                    events: seq<Event>, oks: seq<bool>, i: nat,
                    s: Aggregate, consumed: seq<Event>, outcomes: seq<bool>)
    requires i <= |events| == |oks| && (s.drained || i == |events|)
    requires Progress(s0, consumed0, outcomes0, events, oks, i, s, consumed, outcomes)
    ensures s == Run(s0, events)
    ensures consumed == consumed0 + Consumed(events)
    ensures outcomes == outcomes0 + Answers(s0, events, oks)
  {
    assert Answers(s, events[i..], oks[i..]) == [];
    assert outcomes + [] == outcomes;
    if !s.drained {
      assert Consumed(events[i..]) == [];
    }
    assert consumed + [] == consumed;
  }

  lemma ReplayContinue(t0: Db.Table, t1: Db.Table, t2: Db.Table,
                       c0: seq<SinkCall>, o0: seq<bool>, c1: seq<SinkCall>, o1: seq<bool>,
                       c2: seq<SinkCall>, o2: seq<bool>)
    requires c0 <= c1 <= c2 && o0 <= o1 <= o2
    requires |c0| == |o0| && |c1| == |o1| && |c2| == |o2|
    requires t1 == Replay(t0, c1[|c0|..], o1[|o0|..])
    requires t2 == Replay(t1, c2[|c1|..], o2[|o1|..])
    ensures t2 == Replay(t0, c2[|c0|..], o2[|o0|..])
  {
    ReplayAppend(t0, c1[|c0|..], o1[|o0|..], c2[|c1|..], o2[|o1|..]);
    assert c2[|c0|..] == c1[|c0|..] + c2[|c1|..];
    assert o2[|o0|..] == o1[|o0|..] + o2[|o1|..];
  }

  /** The step's bookkeeping: one turn keeps the aggregator's invariant and its accounting. */
  lemma TurnKeepsValid(s: Aggregate, consumed: seq<Event>, e: Event)
    requires Inv(s) && !s.drained
    requires Flushed(s.calls) + s.buffer == FreshItems(consumed)
    requires Updates(s.calls) == ChangedItems(consumed)
    ensures Inv(Turn(s, e))
    ensures Flushed(Turn(s, e).calls) + Turn(s, e).buffer == FreshItems(consumed + [e])
    ensures Updates(Turn(s, e).calls) == ChangedItems(consumed + [e])
  {
    TurnConserves(s, e);
    TurnKeepsInv(s, e);
    FreshItemsAppend(consumed, e);
  }

  lemma NoCall(t: Db.Table, calls: seq<SinkCall>, oks: seq<bool>)
    requires |calls| == |oks|
    ensures Replay(t, calls[|calls|..], oks[|oks|..]) == t
  {
    assert calls[|calls|..] == [];
  }

  lemma OneCall(t0: Db.Table, t1: Db.Table, calls: seq<SinkCall>, oks: seq<bool>, c: SinkCall, ok: bool)
    requires |calls| == |oks| && t1 == Apply(t0, c, ok)
    ensures Replay(t0, (calls + [c])[|calls|..], (oks + [ok])[|oks|..]) == t1
  {
    assert (calls + [c])[|calls|..] == [c];
    assert (oks + [ok])[|oks|..] == [ok];
    assert [c][..0] == [];
  }
}
