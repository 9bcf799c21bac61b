/** Revenue that stays although its order was cancelled: a run in which it does. */
module CancelledRevenue {
  import opened Lifecycle
  import opened Options
  import opened Projection
  import opened Conservation
  import opened Orders
  import opened Pipeline
  import opened Guarantees
  import opened Reports
  import opened Sums
  import OrderRequests
  import Overflow

  /** One order of one minor unit is created, paid and cancelled at the epoch. */
  const CREATED := OrderRequests.Created(NO_DB, 0, 1, "EUR", 0, 0)
  const PAID := OrderRequests.Transitioned(CREATED, 0, Paid, 1, 0)
  const CANCELLED := OrderRequests.Transitioned(PAID, 0, Cancelled, 2, 0)

  function Moved(id: EventId, from: Status, to: Status): Envelope {
    Envelope(id, VERSION, 0, 0, StatusChanged(from, to, 1, "EUR"))
  }

  /** What is known of the tables while the order has the given status and history. */
  ghost predicate Stands(db: Db, status: Status, next: EventId, history: seq<Envelope>) {
    && Orders.Reachable(db) && OrderRequests.Idle(db) && db.nextOrder == 1
    && db.orders == map[0 := OrderRow(0, status, 1, "EUR")]
    && (forall id | id in db.minted :: id < next)
    && History(db, 0) == history
  }

  lemma CreatedStands()
    ensures Stands(CREATED, Pending, 1, [Envelope(0, VERSION, 0, 0, OrderCreated(1, "EUR"))])
  {
    assert After([]) == Some(NO_DB);
    OrderRequests.CreationEnds(NO_DB, 0, 1, "EUR", 0, 0);
    OrderRequests.CreatedHistory(NO_DB, 0, 1, "EUR", 0, 0, 0);
  }

  lemma MovedStands(db: Db, from: Status, to: Status, id: EventId, history: seq<Envelope>)
    requires Stands(db, from, id, history) && CanTransition(from, to)
    ensures Stands(OrderRequests.Transitioned(db, 0, to, id, 0), to, id + 1, history + [Moved(id, from, to)])
  {
    OrderRequests.TransitionEnds(db, 0, to, id, 0);
    OrderRequests.TransitionedHistory(db, 0, to, id, 0, 0);
    assert map[0 := OrderRow(0, from, 1, "EUR")][0 := OrderRow(0, to, 1, "EUR")] == map[0 := OrderRow(0, to, 1, "EUR")];
  }

  lemma CancelledTables()
    ensures Stands(CANCELLED, Cancelled, 3, [Envelope(0, VERSION, 0, 0, OrderCreated(1, "EUR"))]
                                            + [Moved(1, Pending, Paid)] + [Moved(2, Paid, Cancelled)])
  {
    CreatedStands();
    MovedStands(CREATED, Pending, Paid, 1, [Envelope(0, VERSION, 0, 0, OrderCreated(1, "EUR"))]);
    MovedStands(PAID, Paid, Cancelled, 2,
                [Envelope(0, VERSION, 0, 0, OrderCreated(1, "EUR"))] + [Moved(1, Pending, Paid)]);
  }

  lemma CancelledShare(k: Key, c: Column)
    ensures 0 <= CommittedShare(CANCELLED, 0, k, c) <= 1
    ensures k == Key(0, "EUR") && c == RecognisedMinor ==> CommittedShare(CANCELLED, 0, k, c) == 1
    ensures c == RefundedMinor ==> CommittedShare(CANCELLED, 0, k, c) == 0
  {
    CancelledTables();
    assert KeyOf(Moved(1, Pending, Paid)) == Key(0, "EUR");
  }

  lemma CancelledTotal(k: Key, c: Column)
    ensures Sum(CANCELLED.nextOrder, (o: nat) => CommittedShare(CANCELLED, o, k, c))
            == CommittedShare(CANCELLED, 0, k, c)
  {
    CancelledTables();
    SumSingle(1, (o: nat) => CommittedShare(CANCELLED, o, k, c), 0);
  }

  lemma CancelledFits()
    ensures Overflow.ColumnsSuffice(CANCELLED)
  {
    forall k ensures Reporting.FitsRow(Overflow.CommittedTotals(CANCELLED, k)) {
      forall c: Column ensures 0 <= CommittedShare(CANCELLED, 0, k, c) <= 1 {
        CancelledShare(k, c);
      }
      CancelledTotal(k, PlacedCount);
      CancelledTotal(k, PaidCount);
      CancelledTotal(k, RecognisedMinor);
      CancelledTotal(k, RefundedMinor);
    }
  }

  lemma CancelledNet(s: State)
    requires Guarantees.Reachable(s) && Drained(s) && s.db == CANCELLED
    ensures Net(s.tables.figures, Key(0, "EUR")) == 1
  {
    var k := Key(0, "EUR");
    DrainedIsAggregate(s, k, RecognisedMinor);
    DrainedIsAggregate(s, k, RefundedMinor);
    CancelledTotal(k, RecognisedMinor);
    CancelledTotal(k, RefundedMinor);
    CancelledShare(k, RecognisedMinor);
    CancelledShare(k, RefundedMinor);
  }

  lemma CancelledAmountsOf(db: Db)
    requires db == CANCELLED
    ensures LiveAmount(db, 0, "EUR") == 0 && LifetimeRow(db, 0, "EUR") == 0 && CancelledAmount(db, 0, "EUR") == 1
  {
    CancelledTables();
    SumZero(1, (o: nat) => CustomerAmount(db, 0, o, "EUR"));
  }

  /** Cancelled after payment, the order is nobody's lifetime value any more, but its
      money stays in the net revenue of the day it was paid. */
  lemma CancelledStaysRevenue() returns (s: State)
    ensures Guarantees.Reachable(s) && Drained(s)
    ensures s.db.orders == map[0 := OrderRow(0, Cancelled, 1, "EUR")]
    ensures LiveAmount(s.db, 0, "EUR") == 0 && LifetimeRow(s.db, 0, "EUR") == 0
    ensures CancelledAmount(s.db, 0, "EUR") == 1
    ensures Net(s.tables.figures, Key(0, "EUR")) == 1
  {
    CancelledTables();
    CancelledFits();
    var actions :| After(actions) == Some(CANCELLED);
    var start := Lifted(actions);
    Overflow.DrainsExactly(start);
    s :| Leads(start, s) && Drained(s);
    LeadsReachable(start, s);
    LeadsKeepsDb(start, s);
    CancelledNet(s);
    CancelledAmountsOf(s.db);
  }
}
