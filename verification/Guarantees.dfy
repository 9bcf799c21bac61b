/** What holds in every state the pipeline can reach. */
module Guarantees {
  import opened Options
  import opened Lifecycle
  import opened Projection
  import opened Conservation
  import opened Orders
  import opened Publishing
  import opened Reporting
  import opened Pipeline
  import opened Sums
  import Publisher

  /** The state a run leads to; None if one of its steps was impossible. */
  function RunFrom(s: State, events: seq<Event>): Option<State> {
    if events == [] then Some(s)
    else
      var n := |events| - 1;
      match RunFrom(s, events[..n])
      case None => None
      case Some(t) => if CanHappen(t, events[n]) then Some(Next(t, events[n])) else None
  }

  /** Runs of the system begin empty. */
  function Run(events: seq<Event>): Option<State> {
    RunFrom(START, events)
  }

  ghost predicate Reachable(s: State) {
    exists events :: Run(events) == Some(s)
  }

  lemma {:induction false} RunInv(events: seq<Event>)
    ensures Run(events).Some? ==> PipelineInv(Run(events).value)
  {
    if events == [] {
      StartInv();
    } else if Run(events).Some? {
      var n := |events| - 1;
      RunInv(events[..n]);
      NextKeeps(Run(events[..n]).value, events[n]);
    }
  }

  lemma ReachableInv(s: State)
    requires Reachable(s)
    ensures PipelineInv(s)
  {
    var events :| Run(events) == Some(s);
    RunInv(events);
  }

  /** End to end: whatever was lost, repeated or restarted, the report is the fold of
      distinct committed events that for each order are a prefix of its history. */
  lemma EndToEnd(s: State)
    requires Reachable(s)
    ensures s.tables.figures == Fold(s.applied)
    ensures DistinctIds(s.applied)
    ensures forall id :: id in s.tables.processed <==> HasId(s.applied, id)
    ensures forall o :: IsPrefix(Of(s.applied, o), History(s.db, o))
    ensures forall e | e in s.applied :: exists i :: i in s.db.outbox && s.db.outbox[i].val == e
  {
    ReachableInv(s);
    forall e | e in s.applied ensures exists i :: i in s.db.outbox && s.db.outbox[i].val == e {
      var k :| 0 <= k < |s.applied| && s.applied[k] == e;
      var x := AppliedInHistory(s.db, s.applied, k);
      var ids := RowIds(s.db.outbox, s.db.nextSlot, e.order);
      assert s.db.outbox[ids[x]].val == e;
    }
  }

  /** Per-order first in, first out: any copy of a row in the stream stands behind a
      copy of every earlier row of its order, and what is marked published is stored. */
  lemma PerOrderFifo(s: State, i: nat, j: nat, p: nat)
    requires Reachable(s) && Behind(s.db.outbox, i, j)
    requires p < |s.pub.stream| && s.pub.stream[p] == s.db.outbox[j].val
    ensures exists q :: 0 <= q < p && s.pub.stream[q] == s.db.outbox[i].val
    ensures forall r | r in s.pub.published :: r in s.db.outbox && s.db.outbox[r].val in s.pub.stream
  {
    ReachableInv(s);
    assert StoredBefore(s.pub.stream, p, s.db.outbox[i].val);
    forall r | r in s.pub.published ensures r in s.db.outbox && s.db.outbox[r].val in s.pub.stream {
      assert Stored(s.pub.stream, s.db.outbox[r].val);
    }
  }

  lemma HistoryIsLegal(db: Db, o: OrderId)
    requires Orders.Inv(db)
    ensures LegalHistory(History(db, o))
    ensures o in db.orders ==>
              var h := History(db, o);
              h != [] && Reached(h[|h| - 1]) == db.orders[o].status && h[0].order == o
              && h[0].payload == OrderCreated(db.orders[o].totalMinor, db.orders[o].currency)
  {
    assert OrderOk(db, o);
    if o in db.orders {
      ConsistentIsLegal(o, db.orders[o], Events(db, o), History(db, o));
    }
  }

  lemma ConsistentIsLegal(o: OrderId, row: OrderRow, es: seq<EventRow>, h: seq<Envelope>)
    requires Consistent(o, row, es, h)
    ensures LegalHistory(h) && Reached(h[|h| - 1]) == row.status
    ensures h[0].order == o && h[0].payload == OrderCreated(row.totalMinor, row.currency)
  {
    assert Describes(h[0], o, es[0], row);
    forall i | 1 <= i < |h| ensures LegalNext(h[0], h[i - 1], h[i]) {
      StepIsLegal(o, row, es, h, i);
    }
    var last := |es| - 1;
    assert Describes(h[last], o, es[last], row);
    assert last > 0 ==> es[last].from == Some(es[last - 1].to);
  }

  lemma StepIsLegal(o: OrderId, row: OrderRow, es: seq<EventRow>, h: seq<Envelope>, i: nat)
    requires Consistent(o, row, es, h) && 1 <= i < |h| && h[0].payload.OrderCreated?
    ensures LegalNext(h[0], h[i - 1], h[i])
  {
    assert Describes(h[0], o, es[0], row) && Describes(h[i - 1], o, es[i - 1], row) && Describes(h[i], o, es[i], row);
    assert es[i].from == Some(es[i - 1].to) && CanTransition(es[i - 1].to, es[i].to);
    var k := i - 1;
    assert k > 0 ==> es[k].from == Some(es[k - 1].to);
  }

  lemma AppliedLawful(s: State)
    requires PipelineInv(s)
    ensures Lawful(s.applied)
    ensures OrdersBelow(s.applied, s.db.nextOrder)
  {
    forall o ensures LegalHistory(Of(s.applied, o)) {
      HistoryIsLegal(s.db, o);
      assert IsPrefix(Of(s.applied, o), History(s.db, o));
      LegalPrefix(History(s.db, o), |Of(s.applied, o)|);
    }
    InOrderBelow(s.db, s.applied);
  }

  lemma InOrderBelow(db: Db, applied: seq<Envelope>)
    requires Orders.Inv(db) && InOrder(db, applied)
    ensures OrdersBelow(applied, db.nextOrder)
  {
    forall e | e in applied ensures e.order < db.nextOrder {
      var k :| 0 <= k < |applied| && applied[k] == e;
      var x := AppliedInHistory(db, applied, k);
      assert OrderOk(db, e.order);
    }
  }

  /** Ledger conservation in every reachable state: for every day and currency the
      recognised minus the refunded minor units are exactly the amounts of the
      recognised orders under that key, so no dashboard net is ever negative. */
  lemma Conserved(s: State, k: Key)
    requires Reachable(s)
    ensures Net(s.tables.figures, k) == LedgerSum(s.tables.figures, s.db.nextOrder, k)
    ensures Net(s.tables.figures, k) >= 0
  {
    ReachableInv(s);
    AppliedLawful(s);
    LawfulConservation(s.applied, s.db.nextOrder, k);
    forall o: nat ensures LedgerAt(s.tables.figures, o, k) >= 0 {
      if o in s.tables.figures.ledger {
        LedgerAmount(s, o);
      }
    }
    SumNonNegative(s.db.nextOrder, (o: nat) => LedgerAt(s.tables.figures, o, k));
  }

  /** A ledger row carries its order's own total and currency. */
  lemma LedgerAmount(s: State, o: OrderId)
    requires PipelineInv(s) && o in s.tables.figures.ledger
    ensures o in s.db.orders
    ensures s.tables.figures.ledger[o].amount == s.db.orders[o].totalMinor >= 0
    ensures s.tables.figures.ledger[o].key.currency == s.db.orders[o].currency
  {
    var h := Of(s.applied, o);
    AppliedLawful(s);
    LedgerDecomposes(s.applied, o);
    assert Held(Fold(h), o) == Some(s.tables.figures.ledger[o]);
    assert IsPrefix(h, History(s.db, o)) && OrderOk(s.db, o);
    HistoryIsLegal(s.db, o);
    LegalFigures(h, Key(0, ""), PlacedCount);
    if |h| > 1 {
      assert LegalNext(h[0], h[0], h[1]);
    }
  }

  /** Nothing is left to publish, deliver or acknowledge. */
  ghost predicate Drained(s: State) {
    s.pub.published == s.db.outbox.Keys && s.floor == |s.pub.stream|
  }

  /** Drained, every order's whole history has been applied, once and in order. */
  lemma DrainedAppliesAll(s: State, o: OrderId)
    requires Reachable(s) && Drained(s)
    ensures Of(s.applied, o) == History(s.db, o)
  {
    ReachableInv(s);
    var h := History(s.db, o);
    var ids := RowIds(s.db.outbox, s.db.nextSlot, o);
    forall y | 0 <= y < |h| ensures HasId(s.applied, h[y].id) {
      assert Stored(s.pub.stream, s.db.outbox[ids[y]].val);
      var q :| 0 <= q < |s.pub.stream| && s.pub.stream[q] == h[y];
      assert Done(s, q);
    }
    NextInLine(s.db, s.applied, o, |h|);
    assert h[..|h|] == h;
  }

  /** Order o's share of a report cell, read off its committed events. */
  function CommittedShare(db: Db, o: OrderId, k: Key, c: Column): int {
    var h := History(db, o);
    if |h| > 0 && h[0].payload.OrderCreated? && (WasPaid(h) ==> h[1].payload.StatusChanged?)
    then Share(h, k, c) else 0
  }

  /** Drained, every report cell is the aggregate computed straight from the
      committed orders: the sum of the orders' shares. */
  lemma DrainedIsAggregate(s: State, k: Key, c: Column)
    requires Reachable(s) && Drained(s)
    ensures Cell(s.tables.figures, k, c) == Sum(s.db.nextOrder, (o: nat) => CommittedShare(s.db, o, k, c))
  {
    ReachableInv(s);
    AppliedLawful(s);
    RevenueDecomposes(s.applied, s.db.nextOrder, k, c);
    forall o: nat ensures Cell(Fold(Of(s.applied, o)), k, c) == CommittedShare(s.db, o, k, c) {
      DrainedOrder(s, o, k, c);
    }
    SumEq(s.db.nextOrder, (o: nat) => Cell(Fold(Of(s.applied, o)), k, c), (o: nat) => CommittedShare(s.db, o, k, c));
  }

  /** Drained, the ledger holds exactly the orders that were paid and are not
      refunded, each with its total under the day and currency of its payment. */
  lemma DrainedLedger(s: State, o: OrderId)
    requires Reachable(s) && Drained(s)
    ensures o in s.tables.figures.ledger <==>
              o in s.db.orders && WasPaid(History(s.db, o)) && s.db.orders[o].status != Refunded
    ensures o in s.tables.figures.ledger ==>
              && History(s.db, o)[1].payload.StatusChanged?
              && s.tables.figures.ledger[o] == Entry(KeyOf(History(s.db, o)[1]), s.db.orders[o].totalMinor)
  {
    ReachableInv(s);
    DrainedOrder(s, o, Key(0, ""), PlacedCount);
    LedgerDecomposes(s.applied, o);
    assert Held(s.tables.figures, o).Some? <==> o in s.tables.figures.ledger;
  }

  lemma DrainedOrder(s: State, o: OrderId, k: Key, c: Column)
    requires Reachable(s) && Drained(s)
    ensures Cell(Fold(Of(s.applied, o)), k, c) == CommittedShare(s.db, o, k, c)
    ensures var h := History(s.db, o);
            if o in s.db.orders && WasPaid(h) && s.db.orders[o].status != Refunded then
              h[1].payload.StatusChanged?
              && Held(Fold(Of(s.applied, o)), o) == Some(Entry(KeyOf(h[1]), s.db.orders[o].totalMinor))
            else Held(Fold(Of(s.applied, o)), o) == None
  {
    ReachableInv(s);
    DrainedAppliesAll(s, o);
    HistoryIsLegal(s.db, o);
    assert OrderOk(s.db, o);
    if o in s.db.orders {
      LegalFigures(History(s.db, o), k, c);
    }
  }

  /** Two drained runs that committed the same events per order report the same,
      whatever the order in which different orders' events reached the stream. */
  lemma DrainedReportsAgree(s: State, t: State)
    requires Reachable(s) && Drained(s) && Reachable(t) && Drained(t)
    requires forall o :: History(s.db, o) == History(t.db, o)
    ensures s.tables.figures == t.tables.figures
  {
    ReachableInv(s);
    ReachableInv(t);
    forall o ensures Of(s.applied, o) == Of(t.applied, o) {
      DrainedAppliesAll(s, o);
      DrainedAppliesAll(t, o);
    }
    Confluence(s.applied, t.applied);
  }

  /** What is reached from a reachable state is reachable. */
  lemma {:induction false} RunFromReachable(s: State, events: seq<Event>)
    requires Reachable(s) && RunFrom(s, events).Some?
    ensures Reachable(RunFrom(s, events).value)
  {
    if events != [] {
      var n := |events| - 1;
      RunFromReachable(s, events[..n]);
      var t := RunFrom(s, events[..n]).value;
      var before :| Run(before) == Some(t);
      assert (before + [events[n]])[..|before|] == before;
      assert Run(before + [events[n]]) == Some(Next(t, events[n]));
    }
  }

  /** No statement of an order transaction is among them. */
  ghost predicate Quiet(events: seq<Event>) {
    forall ev | ev in events :: !ev.OrderStep?
  }

  /** Publishing, storing, delivering and applying alone can lead from s to t. */
  ghost predicate Leads(s: State, t: State) {
    exists events :: Quiet(events) && RunFrom(s, events) == Some(t)
  }

  lemma LeadsSelf(s: State)
    ensures Leads(s, s)
  {
    assert Quiet([]) && RunFrom(s, []) == Some(s);
  }

  lemma LeadsNext(s: State, t: State, ev: Event)
    requires Leads(s, t) && CanHappen(t, ev) && !ev.OrderStep?
    ensures Leads(s, Next(t, ev))
  {
    var events :| Quiet(events) && RunFrom(s, events) == Some(t);
    assert (events + [ev])[..|events|] == events;
    assert Quiet(events + [ev]) && RunFrom(s, events + [ev]) == Some(Next(t, ev));
  }

  lemma LeadsReachable(s: State, t: State)
    requires Reachable(s) && Leads(s, t)
    ensures Reachable(t)
  {
    var events :| Quiet(events) && RunFrom(s, events) == Some(t);
    RunFromReachable(s, events);
  }

  lemma {:induction false} QuietKeepsDb(s: State, events: seq<Event>)
    requires Quiet(events) && RunFrom(s, events).Some?
    ensures RunFrom(s, events).value.db == s.db
  {
    if events != [] {
      QuietKeepsDb(s, events[..|events| - 1]);
    }
  }

  lemma LeadsKeepsDb(s: State, t: State)
    requires Leads(s, t)
    ensures t.db == s.db
  {
    var events :| Quiet(events) && RunFrom(s, events) == Some(t);
    QuietKeepsDb(s, events);
  }

  lemma {:induction false} PubRunLeads(s: State, t: State, actions: seq<PubAction>)
    requires Leads(s, t)
    requires Publisher.PubAfter(t.db.outbox, t.db.nextSlot, t.pub, actions).Some?
    ensures Leads(s, t.(pub := Publisher.PubAfter(t.db.outbox, t.db.nextSlot, t.pub, actions).value))
    decreases |actions|
  {
    if actions == [] {
      assert t.(pub := t.pub) == t;
    } else {
      LeadsNext(s, t, PubStep(actions[0]));
      PubRunLeads(s, Next(t, PubStep(actions[0])), actions[1..]);
    }
  }

  /** The publisher's own loop, with any failures, is such a run, so the guarantees
      hold through every drain of the code. */
  lemma DrainLeads(s: State, t: State, batch: nat, attempts: seq<Publisher.Attempt>)
    requires Leads(s, t) && t.pub.batch == [] && |attempts| >= batch
    ensures var rows := Take(Unpublished(t.db.outbox, t.pub.published, t.db.nextSlot), batch);
            Leads(s, t.(pub := Publisher.DrainRows(t.db.outbox, t.pub, rows, attempts)))
  {
    var rows := Take(Unpublished(t.db.outbox, t.pub.published, t.db.nextSlot), batch);
    var read := Next(t, PubStep(ReadBatch(batch)));
    LeadsNext(s, t, PubStep(ReadBatch(batch)));
    var actions := Publisher.DrainIsRun(t.db.outbox, t.db.nextSlot, read.pub, attempts);
    PubRunLeads(s, read, actions);
    Publisher.DrainIgnoresBatch(t.db.outbox, t.pub, read.pub, rows, attempts);
    Publisher.DrainKeepsBatch(t.db.outbox, t.pub, rows, attempts);
  }

  lemma DrainReachable(s: State, batch: nat, attempts: seq<Publisher.Attempt>)
    requires Reachable(s) && s.pub.batch == [] && |attempts| >= batch
    ensures var rows := Take(Unpublished(s.db.outbox, s.pub.published, s.db.nextSlot), batch);
            Reachable(s.(pub := Publisher.DrainRows(s.db.outbox, s.pub, rows, attempts)))
  {
    var rows := Take(Unpublished(s.db.outbox, s.pub.published, s.db.nextSlot), batch);
    LeadsSelf(s);
    DrainLeads(s, s, batch, attempts);
    LeadsReachable(s, s.(pub := Publisher.DrainRows(s.db.outbox, s.pub, rows, attempts)));
  }

  /** With the broker and the database answering, one more batch publishes all. */
  lemma CanPublishAll(s: State) returns (t: State)
    requires Reachable(s)
    ensures Leads(s, t) && t.db == s.db && t.pub.published == t.db.outbox.Keys
  {
    var stopped := Next(s, PubStep(Stop));
    LeadsSelf(s);
    LeadsNext(s, s, PubStep(Stop));
    ReachableInv(s);
    var waiting := Unpublished(s.db.outbox, s.pub.published, s.db.nextSlot);
    var attempts := seq(|waiting|, _ => Publisher.ALL_WELL);
    DrainLeads(s, stopped, |waiting|, attempts);
    Publisher.DrainMarksPrefix(s.db.outbox, stopped.pub, waiting, attempts);
    assert waiting[..|waiting|] == waiting;
    t := stopped.(pub := Publisher.DrainRows(s.db.outbox, stopped.pub, waiting, attempts));
    assert t.pub.published == s.pub.published + Publisher.AsSet(waiting);
    forall i | i in s.db.outbox ensures i in t.pub.published {
      assert i in s.pub.published || i in waiting;
    }
  }

  /** The event at the floor cannot be projected: a total would leave its column. */
  predicate Stuck(s: State) {
    && s.floor < |s.pub.stream|
    && s.pub.stream[s.floor].id !in s.tables.processed
    && ProjectErrs(s.tables.figures, s.pub.stream[s.floor])
  }

  lemma ConsumeOne(s: State, t: State) returns (u: State)
    requires Reachable(s) && Leads(s, t) && t.floor < |t.pub.stream| && !Stuck(t)
    ensures Leads(s, u) && u.db == t.db && u.pub == t.pub && u.floor == t.floor + 1
  {
    LeadsReachable(s, t);
    ReachableInv(t);
    var pos := t.floor;
    var delivered := Next(t, Deliver);
    LeadsNext(s, t, Deliver);
    var handled := Next(delivered, HandleAt(pos, NoFault));
    LeadsNext(s, delivered, HandleAt(pos, NoFault));
    assert pos in handled.acks;
    u := Next(handled, AckArrives(pos));
    LeadsNext(s, handled, AckArrives(pos));
  }

  lemma {:induction false} CanConsumeAll(s: State, t: State) returns (u: State)
    requires Reachable(s) && Leads(s, t)
    ensures Leads(s, u) && u.db == t.db && u.pub == t.pub
    ensures u.floor == |u.pub.stream| || Stuck(u)
    decreases |t.pub.stream| - t.floor
  {
    LeadsReachable(s, t);
    ReachableInv(t);
    if t.floor == |t.pub.stream| || Stuck(t) {
      u := t;
    } else {
      var next := ConsumeOne(s, t);
      u := CanConsumeAll(s, next);
    }
  }

  /** From every reachable state some run without order transactions ends drained, or
      at an event that no longer fits its column. */
  lemma CanDrain(s: State) returns (t: State)
    requires Reachable(s)
    ensures Leads(s, t) && t.db == s.db
    ensures Drained(t) || Stuck(t)
  {
    var published := CanPublishAll(s);
    t := CanConsumeAll(s, published);
  }

  /** An order run is a run of the pipeline in which nothing else happens. */
  lemma {:induction false} Lifted(actions: seq<Action>) returns (s: State)
    requires After(actions).Some?
    ensures Reachable(s) && s.db == After(actions).value
  {
    if actions == [] {
      s := START;
      assert Run([]) == Some(START);
    } else {
      var n := |actions| - 1;
      var t := Lifted(actions[..n]);
      s := Next(t, OrderStep(actions[n]));
      assert RunFrom(t, [OrderStep(actions[n])]) == Some(s) by {
        assert RunFrom(t, []) == Some(t);
      }
      RunFromReachable(t, [OrderStep(actions[n])]);
    }
  }
}
