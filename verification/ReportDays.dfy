/** The drained report read off the outbox rows and the orders alone: which day and
    currency each order counts under, and how large the figures may grow. */
module ReportDays {
  import opened Lifecycle
  import opened Projection
  import opened Conservation
  import opened Orders
  import opened Reporting
  import opened Pipeline
  import opened Guarantees
  import opened Overflow
  import opened Sums

  /** E is the envelope of a committed row of order o. */
  ghost predicate Wrote(db: Db, o: OrderId, e: Envelope) {
    exists i | i in db.outbox :: db.outbox[i].order == o && db.outbox[i].val == e
  }

  /** Order o was created on the day and in the currency of k. */
  ghost predicate PlacedOn(db: Db, o: OrderId, k: Key) {
    exists e | Wrote(db, o, e) :: e.payload.OrderCreated? && FallsOn(e, k)
  }

  /** It was paid then. */
  ghost predicate PaidOn(db: Db, o: OrderId, k: Key) {
    exists e | Wrote(db, o, e) :: MovesTo(e, Paid) && FallsOn(e, k)
  }

  /** What order o owes the report row k. */
  ghost function Due(db: Db, o: OrderId, k: Key, c: Column): int {
    match c
    case PlacedCount => if PlacedOn(db, o, k) then 1 else 0
    case PaidCount => if PaidOn(db, o, k) then 1 else 0
    case RecognisedMinor => if o in db.orders && PaidOn(db, o, k) then db.orders[o].totalMinor else 0
    case RefundedMinor =>
      if o in db.orders && db.orders[o].status == Refunded && PaidOn(db, o, k) then db.orders[o].totalMinor else 0
  }

  lemma WroteIsHistory(db: Db, o: OrderId, e: Envelope)
    requires TablesOk(db)
    ensures Wrote(db, o, e) <==> e in History(db, o)
  {
    var ids, h := RowIds(db.outbox, db.nextSlot, o), History(db, o);
    if Wrote(db, o, e) {
      var i :| i in db.outbox && db.outbox[i].order == o && db.outbox[i].val == e;
      var x :| 0 <= x < |ids| && ids[x] == i;
      assert h[x] == e;
    }
    if e in h {
      var x :| 0 <= x < |h| && h[x] == e;
      assert db.outbox[ids[x]].order == o && db.outbox[ids[x]].val == e;
    }
  }

  /** In a lawful history only the first event creates and only the second can pay. */
  lemma OnlyOnce(h: seq<Envelope>, e: Envelope)
    requires LegalHistory(h) && e in h
    ensures e.payload.OrderCreated? <==> e == h[0]
    ensures MovesTo(e, Paid) <==> WasPaid(h) && e == h[1]
  {
    var x :| 0 <= x < |h| && h[x] == e;
    LegalIsPath(h);
    PaidFirst(Statuses(h), x);
    assert x > 0 ==> LegalNext(h[0], h[x - 1], h[x]);
    assert Statuses(h)[x] == Reached(h[x]);
    if |h| > 1 {
      assert LegalNext(h[0], h[0], h[1]);
    }
  }

  lemma PlacedFirst(db: Db, o: OrderId, k: Key)
    requires Orders.Inv(db) && o in db.orders
    ensures var h := History(db, o); h != [] && (PlacedOn(db, o, k) <==> FallsOn(h[0], k))
  {
    var h := History(db, o);
    HistoryIsLegal(db, o);
    forall e ensures Wrote(db, o, e) <==> e in h {
      WroteIsHistory(db, o, e);
    }
    forall e | e in h ensures e.payload.OrderCreated? <==> e == h[0] {
      OnlyOnce(h, e);
    }
    assert Wrote(db, o, h[0]);
  }

  lemma PaidSecond(db: Db, o: OrderId, k: Key)
    requires Orders.Inv(db) && o in db.orders
    ensures var h := History(db, o); PaidOn(db, o, k) <==> WasPaid(h) && FallsOn(h[1], k)
  {
    var h := History(db, o);
    HistoryIsLegal(db, o);
    forall e ensures Wrote(db, o, e) <==> e in h {
      WroteIsHistory(db, o, e);
    }
    forall e | e in h ensures MovesTo(e, Paid) <==> WasPaid(h) && e == h[1] {
      OnlyOnce(h, e);
    }
    assert WasPaid(h) ==> Wrote(db, o, h[1]);
  }

  lemma NothingWritten(db: Db, o: OrderId, k: Key)
    requires Orders.Inv(db) && o !in db.orders
    ensures !PlacedOn(db, o, k) && !PaidOn(db, o, k) && History(db, o) == []
  {
    assert OrderOk(db, o);
    forall e ensures !Wrote(db, o, e) {
      WroteIsHistory(db, o, e);
    }
  }

  lemma PaidInHistory(h: seq<Envelope>)
    requires LegalHistory(h) && WasPaid(h)
    ensures h[1].payload.StatusChanged?
  {
    PaidIsStatusChange(h);
  }

  /** An order's share of the report is what its rows and its status say. */
  lemma ShareIsDue(db: Db, o: OrderId, k: Key, c: Column)
    requires Orders.Inv(db)
    ensures CommittedShare(db, o, k, c) == Due(db, o, k, c)
  {
    if o in db.orders {
      HistoryIsLegal(db, o);
      PlacedFirst(db, o, k);
      PaidSecond(db, o, k);
      HistoryShareIsDue(db, o, k, c);
    } else {
      NothingWritten(db, o, k);
    }
  }

  lemma HistoryShareIsDue(db: Db, o: OrderId, k: Key, c: Column)
    requires o in db.orders && LegalHistory(History(db, o))
    requires var h := History(db, o);
             && h != [] && h[0].payload == OrderCreated(db.orders[o].totalMinor, db.orders[o].currency)
             && Reached(h[|h| - 1]) == db.orders[o].status
             && (PlacedOn(db, o, k) <==> FallsOn(h[0], k))
             && (PaidOn(db, o, k) <==> WasPaid(h) && FallsOn(h[1], k))
    ensures CommittedShare(db, o, k, c) == Due(db, o, k, c)
  {
    var h := History(db, o);
    OneDay(h[0], k);
    if WasPaid(h) {
      PaidInHistory(h);
      OneDay(h[1], k);
    }
  }

  /** Drained, every report cell adds up what the orders owe it: those created and those
      paid on that very day in that currency, the totals of the latter, and the totals of
      those of them that are refunded. */
  lemma DrainedReport(s: State, k: Key, c: Column)
    requires Guarantees.Reachable(s) && Drained(s)
    ensures Cell(s.tables.figures, k, c) == Sum(s.db.nextOrder, (o: nat) => Due(s.db, o, k, c))
  {
    ReachableInv(s);
    DrainedIsAggregate(s, k, c);
    DuesAreShares(s.db, k, c);
  }

  lemma DuesAreShares(db: Db, k: Key, c: Column)
    requires Orders.Inv(db)
    ensures Sum(db.nextOrder, (o: nat) => CommittedShare(db, o, k, c))
            == Sum(db.nextOrder, (o: nat) => Due(db, o, k, c))
  {
    forall o: nat ensures CommittedShare(db, o, k, c) == Due(db, o, k, c) {
      ShareIsDue(db, o, k, c);
    }
    SumEq(db.nextOrder, (o: nat) => CommittedShare(db, o, k, c), (o: nat) => Due(db, o, k, c));
  }

  /** The rows one lawful history makes. */
  lemma {:induction false} LegalRows(h: seq<Envelope>, k: Key)
    requires LegalHistory(h) && h != []
    ensures k in Fold(h).revenue <==> FallsOn(h[0], k) || (WasPaid(h) && FallsOn(h[1], k))
  {
    var n := |h| - 1;
    var p, e := h[..n], h[n];
    CountsWhereItTouches(Fold(p), e, k);
    RevenueIsLocal(Fold(p), e, k, PlacedCount);
    if n > 0 {
      LegalPrefix(h, n);
      LegalRows(p, k);
      LegalFigures(p, k, PlacedCount);
      LastEvent(h);
      assert LegalNext(h[0], h[n - 1], e);
      if MovesTo(e, Refunded) && CountsAt(Fold(p), e, k) {
        OneDay(h[1], k);
      }
    }
  }

  /** Drained, the report has exactly the rows of days and currencies in which some
      order was created or paid. */
  lemma DrainedRows(s: State, k: Key)
    requires Guarantees.Reachable(s) && Drained(s)
    ensures k in s.tables.figures.revenue <==> exists o :: PlacedOn(s.db, o, k) || PaidOn(s.db, o, k)
  {
    ReachableInv(s);
    RowsDecompose(s.applied, k);
    forall o ensures Creates(s.applied, o, k) <==> PlacedOn(s.db, o, k) || PaidOn(s.db, o, k) {
      DrainedAppliesAll(s, o);
      if o in s.db.orders {
        HistoryIsLegal(s.db, o);
        LegalRows(History(s.db, o), k);
        PlacedFirst(s.db, o, k);
        PaidSecond(s.db, o, k);
      } else {
        NothingWritten(s.db, o, k);
      }
    }
  }

  /** Drained, the ledger holds the orders paid at some time and not refunded, each with
      its total under the day it was paid on and its currency. */
  lemma DrainedEntries(s: State, o: OrderId)
    requires Guarantees.Reachable(s) && Drained(s)
    ensures o in s.tables.figures.ledger
            <==> o in s.db.orders && s.db.orders[o].status != Refunded && exists k :: PaidOn(s.db, o, k)
    ensures o in s.tables.figures.ledger ==>
              && PaidOn(s.db, o, s.tables.figures.ledger[o].key)
              && s.tables.figures.ledger[o].amount == s.db.orders[o].totalMinor
  {
    ReachableInv(s);
    DrainedLedger(s, o);
    if o in s.db.orders {
      var h := History(s.db, o);
      HistoryIsLegal(s.db, o);
      forall k ensures PaidOn(s.db, o, k) <==> WasPaid(h) && FallsOn(h[1], k) {
        PaidSecond(s.db, o, k);
      }
      if WasPaid(h) {
        PaidInHistory(h);
        OneDay(h[1], KeyOf(h[1]));
        assert PaidOn(s.db, o, KeyOf(h[1]));
      }
    }
  }

  ghost function Owed(db: Db, k: Key, c: Column): int {
    Sum(db.nextOrder, (o: nat) => Due(db, o, k, c))
  }

  /** Fewer than 2^31 orders a day to count, and less than 2^63 to recognise. */
  ghost predicate Fits(db: Db, k: Key) {
    && Owed(db, k, PlacedCount) < 2147483648
    && Owed(db, k, PaidCount) < 2147483648
    && Owed(db, k, RecognisedMinor) < 9223372036854775808
  }

  lemma OwedBounds(db: Db, k: Key, c: Column)
    requires Orders.Inv(db)
    ensures 0 <= Owed(db, k, c) == In(CommittedTotals(db, k), c)
    ensures Owed(db, k, RefundedMinor) <= Owed(db, k, RecognisedMinor)
  {
    DuesAreShares(db, k, c);
    forall o: nat ensures 0 <= Due(db, o, k, c) && Due(db, o, k, RefundedMinor) <= Due(db, o, k, RecognisedMinor) {
      assert OrderOk(db, o);
    }
    SumNonNegative(db.nextOrder, (o: nat) => Due(db, o, k, c));
    SumAtMost(db.nextOrder, (o: nat) => Due(db, o, k, RefundedMinor), (o: nat) => Due(db, o, k, RecognisedMinor));
  }

  lemma FitsExactly(db: Db, k: Key)
    requires Orders.Inv(db)
    ensures FitsRow(CommittedTotals(db, k)) <==> Fits(db, k)
  {
    OwedBounds(db, k, PlacedCount);
    OwedBounds(db, k, PaidCount);
    OwedBounds(db, k, RecognisedMinor);
    OwedBounds(db, k, RefundedMinor);
  }

  /** When the pipeline can drain, in numbers: on every day and in every currency fewer
      than 2^31 orders created, fewer than 2^31 paid, and less than 2^63 minor units. */
  lemma DrainsWithin(s: State)
    requires Guarantees.Reachable(s)
    ensures (exists t :: Leads(s, t) && Drained(t)) <==> forall k :: Fits(s.db, k)
  {
    ReachableInv(s);
    DrainsExactly(s);
    forall k ensures FitsRow(CommittedTotals(s.db, k)) <==> Fits(s.db, k) {
      FitsExactly(s.db, k);
    }
  }
}
