/** When the report's columns are too narrow: the one way the pipeline stops, exactly
    when that happens, and that it is for good. */
module Overflow {
  import opened Options
  import opened Lifecycle
  import opened Projection
  import opened Conservation
  import opened Orders
  import opened Reporting
  import opened Pipeline
  import opened Guarantees
  import opened Sums
  import OrderRequests
  import Decimal

  /** The revenue row the committed orders add up to. */
  ghost function CommittedTotals(db: Db, k: Key): Totals {
    Totals(Sum(db.nextOrder, (o: nat) => CommittedShare(db, o, k, PlacedCount)),
           Sum(db.nextOrder, (o: nat) => CommittedShare(db, o, k, PaidCount)),
           Sum(db.nextOrder, (o: nat) => CommittedShare(db, o, k, RecognisedMinor)),
           Sum(db.nextOrder, (o: nat) => CommittedShare(db, o, k, RefundedMinor)))
  }

  /** Every report row of the committed orders fits its columns. */
  ghost predicate ColumnsSuffice(db: Db) {
    forall k :: FitsRow(CommittedTotals(db, k))
  }

  lemma HandledInVain(t: Tables, e: Envelope, fault: Fault)
    requires e.id in t.processed || ProjectErrs(t.figures, e)
    ensures Handle(t, Decoded(e), fault).0 == t
  {}

  /** A refusal for want of room is repeated at every further delivery: whatever
      happens next, the same event stays at the floor and the tables stay as they are. */
  lemma StuckStays(s: State, ev: Event)
    requires PipelineInv(s) && Stuck(s) && CanHappen(s, ev)
    ensures var t := Next(s, ev);
            Stuck(t) && t.tables == s.tables && t.floor == s.floor && t.pub.stream[t.floor] == s.pub.stream[s.floor]
  {
    match ev
    case HandleAt(pos, fault) =>
      assert pos < s.floor ==> Done(s, pos);
      HandledInVain(s.tables, s.pub.stream[pos], fault);
    case AckArrives(pos) =>
      assert pos == s.floor ==> Done(s, pos);
    case _ =>
  }

  /** Stuck once, stuck for ever: no run, with or without new orders, drains it or
      changes a figure. */
  lemma {:induction false} StuckForEver(s: State, events: seq<Event>)
    requires Guarantees.Reachable(s) && Stuck(s) && RunFrom(s, events).Some?
    ensures var t := RunFrom(s, events).value;
            && Stuck(t) && t.tables == s.tables && t.floor == s.floor && !Drained(t)
            && t.pub.stream[t.floor] == s.pub.stream[s.floor]
  {
    if events != [] {
      var n := |events| - 1;
      StuckForEver(s, events[..n]);
      RunFromReachable(s, events[..n]);
      ReachableInv(RunFrom(s, events[..n]).value);
      StuckStays(RunFrom(s, events[..n]).value, events[n]);
    }
  }

  ghost predicate RowsFit(f: Figures) {
    forall k | k in f.revenue :: FitsRow(f.revenue[k])
  }

  lemma UpsertKeepsRows(f: Figures, k: Key, d: Totals, ledger: map<OrderId, Entry>)
    requires RowsFit(f) && FitsRow(Plus(Row(f.revenue, k), d))
    ensures RowsFit(Figures(Upsert(f.revenue, k, d), ledger))
  {}

  lemma ProjectKeepsRows(f: Figures, e: Envelope)
    requires RowsFit(f) && !ProjectErrs(f, e)
    ensures RowsFit(Project(f, e))
  {
    var effect := EffectOf(Held(f, e.order), e);
    ProjectAppliesEffect(f, e);
    if effect.AddTo? {
      UpsertKeepsRows(f, effect.key, effect.delta, Project(f, e).ledger);
    }
  }

  lemma ApplyKeepsRows(t: Tables, e: Envelope, fault: Fault)
    requires RowsFit(t.figures)
    ensures RowsFit(ApplyTx(t, e, fault).0.figures)
  {
    if !ProjectErrs(t.figures, e) {
      ProjectKeepsRows(t.figures, e);
    }
  }

  lemma {:induction false} RunKeepsRows(events: seq<Event>)
    ensures Run(events).Some? ==> RowsFit(Run(events).value.tables.figures)
  {
    if events != [] && Run(events).Some? {
      var n := |events| - 1;
      RunKeepsRows(events[..n]);
      var s := RunFrom(START, events[..n]).value;
      assert Run(events[..n]) == Some(s);
      if events[n].HandleAt? {
        ApplyKeepsRows(s.tables, s.pub.stream[events[n].pos], events[n].fault);
      }
    }
  }

  /** A drained report holds the committed totals, and what it holds fits. */
  lemma DrainedFits(s: State)
    requires Guarantees.Reachable(s) && Drained(s)
    ensures ColumnsSuffice(s.db)
  {
    var events :| Run(events) == Some(s);
    RunKeepsRows(events);
    forall k ensures FitsRow(CommittedTotals(s.db, k)) {
      DrainedIsAggregate(s, k, PlacedCount);
      DrainedIsAggregate(s, k, PaidCount);
      DrainedIsAggregate(s, k, RecognisedMinor);
      DrainedIsAggregate(s, k, RefundedMinor);
      assert CommittedTotals(s.db, k) == Row(s.tables.figures.revenue, k);
    }
  }

  /** An order's share only grows as its history does, and starts at nothing. */
  lemma ShareGrows(p: seq<Envelope>, h: seq<Envelope>, k: Key, c: Column)
    requires LegalHistory(h) && p != [] && IsPrefix(p, h) && h[0].payload.OrderCreated? && h[0].payload.totalMinor >= 0
    ensures LegalHistory(p) && (WasPaid(p) ==> p[1].payload.StatusChanged?)
            && (WasPaid(h) ==> h[1].payload.StatusChanged?)
    ensures 0 <= Share(p, k, c) <= Share(h, k, c)
  {
    LegalPrefix(h, |p|);
    PaidIsStatusChange(h);
    PaidIsStatusChange(p);
    if |p| < |h| && WasRefunded(p) {
      LegalIsPath(h);
      Absorbing(Statuses(h), |p| - 1);
    }
  }

  lemma CommittedHistory(db: Db, o: OrderId)
    requires Orders.Inv(db) && History(db, o) != []
    ensures o < db.nextOrder && LegalHistory(History(db, o))
    ensures History(db, o)[0].payload.OrderCreated? && History(db, o)[0].payload.totalMinor >= 0
  {
    HistoryIsLegal(db, o);
    assert OrderOk(db, o);
  }

  lemma CommittedGrows(db: Db, next: Db, o: OrderId, k: Key, c: Column)
    requires Orders.Inv(db) && Orders.Inv(next) && IsPrefix(History(db, o), History(next, o))
    ensures 0 <= CommittedShare(db, o, k, c) <= CommittedShare(next, o, k, c)
  {
    if History(next, o) != [] {
      CommittedHistory(next, o);
      ShareGrows(History(next, o), History(next, o), k, c);
      if History(db, o) != [] {
        ShareGrows(History(db, o), History(next, o), k, c);
      }
    }
  }

  /** What one order has had applied is between nothing and its committed share. */
  lemma AppliedShare(db: Db, applied: seq<Envelope>, o: OrderId, k: Key, c: Column)
    requires Orders.Inv(db) && InOrder(db, applied)
    ensures 0 <= Cell(Fold(Of(applied, o)), k, c) <= CommittedShare(db, o, k, c)
  {
    var p, h := Of(applied, o), History(db, o);
    assert IsPrefix(p, h) && IsPrefix(h, h);
    if p == [] {
      CommittedGrows(db, db, o, k, c);
    } else {
      CommittedHistory(db, o);
      ShareGrows(p, h, k, c);
      LegalFigures(p, k, c);
    }
  }

  /** So is every cell of a report made of prefixes of the histories. */
  lemma AppliedCell(db: Db, applied: seq<Envelope>, k: Key, c: Column)
    requires Orders.Inv(db) && InOrder(db, applied)
    ensures 0 <= Cell(Fold(applied), k, c) <= Sum(db.nextOrder, (o: nat) => CommittedShare(db, o, k, c))
  {
    var n := db.nextOrder;
    InOrderBelow(db, applied);
    RevenueDecomposes(applied, n, k, c);
    forall o: nat ensures 0 <= Cell(Fold(Of(applied, o)), k, c) <= CommittedShare(db, o, k, c) {
      AppliedShare(db, applied, o, k, c);
    }
    SumNonNegative(n, (o: nat) => Cell(Fold(Of(applied, o)), k, c));
    SumAtMost(n, (o: nat) => Cell(Fold(Of(applied, o)), k, c), (o: nat) => CommittedShare(db, o, k, c));
  }

  lemma AppliedColumn(db: Db, applied: seq<Envelope>, k: Key, c: Column)
    requires Orders.Inv(db) && InOrder(db, applied)
    ensures 0 <= In(Row(Fold(applied).revenue, k), c) <= In(CommittedTotals(db, k), c)
  {
    AppliedCell(db, applied, k, c);
    match c
    case PlacedCount =>
    case PaidCount =>
    case RecognisedMinor =>
    case RefundedMinor =>
  }

  lemma SmallerFits(t: Totals, bound: Totals)
    requires forall c: Column :: 0 <= In(t, c) <= In(bound, c)
    requires FitsRow(bound)
    ensures FitsRow(t)
  {
    assert 0 <= In(t, PlacedCount) <= In(bound, PlacedCount) && 0 <= In(t, PaidCount) <= In(bound, PaidCount);
    assert 0 <= In(t, RecognisedMinor) <= In(bound, RecognisedMinor)
           && 0 <= In(t, RefundedMinor) <= In(bound, RefundedMinor);
  }

  lemma AppliedRowFits(db: Db, applied: seq<Envelope>, k: Key)
    requires Orders.Inv(db) && InOrder(db, applied) && FitsRow(CommittedTotals(db, k))
    ensures FitsRow(Row(Fold(applied).revenue, k))
  {
    var row, bound := Row(Fold(applied).revenue, k), CommittedTotals(db, k);
    forall c: Column ensures 0 <= In(row, c) <= In(bound, c) {
      AppliedColumn(db, applied, k, c);
    }
    SmallerFits(row, bound);
  }

  /** The stream carries only what its producers write. */
  lemma StreamParses(s: State)
    requires PipelineInv(s) && s.floor < |s.pub.stream| && !HasId(s.applied, s.pub.stream[s.floor].id)
    ensures !s.pub.stream[s.floor].payload.Unparseable?
  {
    var m := DueEvent(s, s.floor);
    var h := History(s.db, s.pub.stream[s.floor].order);
    HistoryIsLegal(s.db, s.pub.stream[s.floor].order);
    assert m > 0 ==> LegalNext(h[0], h[m - 1], h[m]);
  }

  lemma StuckOverflows(s: State)
    requires PipelineInv(s) && Stuck(s)
    ensures !ColumnsSuffice(s.db)
  {
    var f, e := s.tables.figures, s.pub.stream[s.floor];
    StreamParses(s);
    ApplyInOrder(s, s.floor);
    var effect := EffectOf(Held(f, e.order), e);
    FoldSnoc(s.applied, e);
    ProjectAppliesEffect(f, e);
    assert Row(Fold(s.applied + [e]).revenue, effect.key) == Plus(Row(f.revenue, effect.key), effect.delta);
    if FitsRow(CommittedTotals(s.db, effect.key)) {
      AppliedRowFits(s.db, s.applied + [e], effect.key);
    }
  }

  /** The exact condition: the pipeline can drain what is committed precisely when
      every report row of the committed orders fits its columns. */
  lemma DrainsExactly(s: State)
    requires Guarantees.Reachable(s)
    ensures (exists t :: Leads(s, t) && Drained(t)) <==> ColumnsSuffice(s.db)
  {
    if t :| Leads(s, t) && Drained(t) {
      LeadsReachable(s, t);
      LeadsKeepsDb(s, t);
      DrainedFits(t);
    }
    if ColumnsSuffice(s.db) {
      var t := CanDrain(s);
      if Stuck(t) {
        LeadsReachable(s, t);
        ReachableInv(t);
        StuckOverflows(t);
      }
    }
  }

  lemma QuietHistory(db: Db, a: Action, o: OrderId)
    requires Orders.Inv(db) && Orders.Enabled(db, a) && !a.Commit?
    ensures History(Do(db, a), o) == History(db, o)
  {
    if a.InsertOutbox? {
      BoundIsSlack(db.outbox, db.nextSlot, o);
    }
  }

  /** A committed order is never taken back from the totals. */
  lemma StepGrows(db: Db, a: Action, o: OrderId)
    requires Orders.Inv(db) && Orders.Enabled(db, a)
    ensures IsPrefix(History(db, o), History(Do(db, a), o)) && db.nextOrder <= Do(db, a).nextOrder
  {
    if a.Commit? {
      CommitSequences(db, a.tx, o);
    } else {
      QuietHistory(db, a, o);
    }
  }

  lemma ColumnGrows(db: Db, a: Action, k: Key, c: Column)
    requires Orders.Inv(db) && Orders.Enabled(db, a)
    ensures var next := Do(db, a);
            0 <= Sum(db.nextOrder, (o: nat) => CommittedShare(db, o, k, c))
              <= Sum(next.nextOrder, (o: nat) => CommittedShare(next, o, k, c))
  {
    var next := Do(db, a);
    StepKeeps(db, a);
    forall o: nat ensures 0 <= CommittedShare(db, o, k, c) <= CommittedShare(next, o, k, c) {
      StepGrows(db, a, o);
      CommittedGrows(db, next, o, k, c);
    }
    StepGrows(db, a, 0);
    SumNonNegative(db.nextOrder, (o: nat) => CommittedShare(db, o, k, c));
    SumAtMost(db.nextOrder, (o: nat) => CommittedShare(db, o, k, c), (o: nat) => CommittedShare(next, o, k, c));
    SumLonger(db.nextOrder, next.nextOrder, (o: nat) => CommittedShare(next, o, k, c));
  }

  lemma OverflowStays(db: Db, a: Action)
    requires Orders.Inv(db) && Orders.Enabled(db, a) && !ColumnsSuffice(db)
    ensures !ColumnsSuffice(Do(db, a))
  {
    var k :| !FitsRow(CommittedTotals(db, k));
    ColumnGrows(db, a, k, PlacedCount);
    ColumnGrows(db, a, k, PaidCount);
    ColumnGrows(db, a, k, RecognisedMinor);
    ColumnGrows(db, a, k, RefundedMinor);
    assert !FitsRow(CommittedTotals(Do(db, a), k));
  }

  lemma {:induction false} OverflowLasts(s: State, events: seq<Event>)
    requires Guarantees.Reachable(s) && !ColumnsSuffice(s.db) && RunFrom(s, events).Some?
    ensures !ColumnsSuffice(RunFrom(s, events).value.db)
  {
    if events != [] {
      var n := |events| - 1;
      OverflowLasts(s, events[..n]);
      RunFromReachable(s, events[..n]);
      var t := RunFrom(s, events[..n]).value;
      ReachableInv(t);
      OverflowStep(t, events[n]);
    }
  }

  lemma OverflowStep(s: State, ev: Event)
    requires PipelineInv(s) && CanHappen(s, ev) && !ColumnsSuffice(s.db)
    ensures !ColumnsSuffice(Next(s, ev).db)
  {
    if ev.OrderStep? {
      OverflowStays(s.db, ev.a);
    }
  }

  /** Nor do later orders, payments or refunds help: once the committed orders outgrow
      a column, no run whatever ends drained. */
  lemma OverflowIsFinal(s: State, events: seq<Event>)
    requires Guarantees.Reachable(s) && !ColumnsSuffice(s.db) && RunFrom(s, events).Some?
    ensures !Drained(RunFrom(s, events).value)
  {
    OverflowLasts(s, events);
    RunFromReachable(s, events);
    if Drained(RunFrom(s, events).value) {
      DrainedFits(RunFrom(s, events).value);
    }
  }

  const WIDEST := Decimal.TWO63 - 1

  function PaidEnvelope(id: EventId, o: OrderId): Envelope {
    Envelope(id, VERSION, 0, o, StatusChanged(Pending, Paid, WIDEST, "EUR"))
  }

  function CreatedEnvelope(id: EventId, o: OrderId): Envelope {
    Envelope(id, VERSION, 0, o, OrderCreated(WIDEST, "EUR"))
  }

  /** The tables after one order has been created and paid at the epoch. */
  function PaidOnce(db: Db, id: EventId): Db {
    OrderRequests.Transitioned(OrderRequests.Created(db, 0, WIDEST, "EUR", id, 0), db.nextOrder, Paid, id + 1, 0)
  }

  lemma PaidOnceTables(db: Db, id: EventId)
    ensures var next, o := PaidOnce(db, id), db.nextOrder;
            && next.txs == db.txs && next.minted == db.minted + {id, id + 1} && next.nextOrder == o + 1
            && next.orders == db.orders[o := OrderRow(0, Paid, WIDEST, "EUR")]
  {
    var created, o := OrderRequests.Created(db, 0, WIDEST, "EUR", id, 0), db.nextOrder;
    assert created.orders[o := OrderRow(0, Paid, WIDEST, "EUR")] == db.orders[o := OrderRow(0, Paid, WIDEST, "EUR")];
  }

  /** Its history, and everybody else's. */
  lemma PaidOrder(db: Db, id: EventId)
    requires Orders.Reachable(db) && OrderRequests.Idle(db) && id !in db.minted && id + 1 !in db.minted
    ensures var next, o := PaidOnce(db, id), db.nextOrder;
            && Orders.Reachable(next)
            && History(next, o) == [CreatedEnvelope(id, o), PaidEnvelope(id + 1, o)]
            && forall x | x != o :: History(next, x) == History(db, x)
  {
    var o, created := db.nextOrder, OrderRequests.Created(db, 0, WIDEST, "EUR", id, 0);
    OrderRequests.CreationEnds(db, 0, WIDEST, "EUR", id, 0);
    OrderRequests.TransitionEnds(created, o, Paid, id + 1, 0);
    forall x ensures History(PaidOnce(db, id), x)
                     == if x == o then [CreatedEnvelope(id, o), PaidEnvelope(id + 1, o)] else History(db, x) {
      OrderRequests.CreatedHistory(db, 0, WIDEST, "EUR", id, 0, x);
      OrderRequests.TransitionedHistory(created, o, Paid, id + 1, 0, x);
    }
  }

  /** An order paid at the epoch puts its total in that day's recognised revenue. */
  lemma PaidShare(db: Db, o: OrderId, id: EventId)
    requires History(db, o) == [CreatedEnvelope(id, o), PaidEnvelope(id + 1, o)]
    ensures CommittedShare(db, o, Key(0, "EUR"), RecognisedMinor) == WIDEST
  {
    assert KeyOf(PaidEnvelope(id + 1, o)) == Key(0, "EUR");
  }

  lemma TwoPaidOverflow(db: Db)
    requires db.nextOrder == 2
    requires History(db, 0) == [CreatedEnvelope(0, 0), PaidEnvelope(1, 0)]
    requires History(db, 1) == [CreatedEnvelope(2, 1), PaidEnvelope(3, 1)]
    ensures !ColumnsSuffice(db)
  {
    PaidShare(db, 0, 0);
    PaidShare(db, 1, 2);
    var share := (o: nat) => CommittedShare(db, o, Key(0, "EUR"), RecognisedMinor);
    assert Sum(2, share) == Sum(1, share) + share(1) && Sum(1, share) == Sum(0, share) + share(0);
    assert CommittedTotals(db, Key(0, "EUR")).recognised == 2 * WIDEST;
  }

  const TWO_PAID := PaidOnce(PaidOnce(NO_DB, 0), 2)

  lemma TwoPaid()
    ensures Orders.Reachable(TWO_PAID) && !ColumnsSuffice(TWO_PAID)
    ensures TWO_PAID.orders == map[0 := OrderRow(0, Paid, WIDEST, "EUR"), 1 := OrderRow(0, Paid, WIDEST, "EUR")]
  {
    assert After([]) == Some(NO_DB);
    var one := PaidOnce(NO_DB, 0);
    PaidOrder(NO_DB, 0);
    PaidOnceTables(NO_DB, 0);
    PaidOrder(one, 2);
    PaidOnceTables(one, 2);
    TwoPaidOverflow(TWO_PAID);
  }

  /** It does happen, with every single total in range: two orders of 2^63 - 1 minor
      units, both paid on one day in one currency. */
  lemma CanGetStuck() returns (s: State)
    ensures Guarantees.Reachable(s) && Stuck(s)
    ensures s.db.orders == map[0 := OrderRow(0, Paid, WIDEST, "EUR"), 1 := OrderRow(0, Paid, WIDEST, "EUR")]
  {
    TwoPaid();
    var actions :| After(actions) == Some(TWO_PAID);
    var start := Lifted(actions);
    s := CanDrain(start);
    LeadsReachable(start, s);
    if Drained(s) {
      DrainedFits(s);
    }
  }
}
