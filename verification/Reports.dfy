/** The reports read from the tables: the dashboard's net revenue, a customer's
    lifetime value, and how the two must add up. */
module Reports {
  import opened Lifecycle
  import opened Projection
  import opened Conservation
  import opened Orders
  import opened Pipeline
  import opened Guarantees
  import opened Sums

  datatype RevenueDay = RevenueDay(key: Key, totals: Totals, net: int)

  /** The window query: one row per revenue row later than today - days, with the
      net still unset. */
  ghost predicate IsRevenueWindow(f: Figures, today: int, days: int, rows: seq<RevenueDay>) {
    && (forall i | 0 <= i < |rows| :: rows[i].key in f.revenue && rows[i].totals == f.revenue[rows[i].key]
                                      && rows[i].key.day > today - days)
    && (forall i, j | 0 <= i < j < |rows| :: rows[i].key != rows[j].key)
    && (forall k | k in f.revenue && k.day > today - days :: exists i | 0 <= i < |rows| :: rows[i].key == k)
  }

  /** The rows shown are the rows queried, each with its net. */
  ghost predicate IsReport(queried: seq<RevenueDay>, shown: seq<RevenueDay>) {
    && |shown| == |queried|
    && forall i | 0 <= i < |shown| ::
         shown[i] == queried[i].(net := queried[i].totals.recognised - queried[i].totals.refunded)
  }

  /** The dashboard sets every row's net in place. */
  method Dashboard(rows: array<RevenueDay>)
    modifies rows
    ensures IsReport(old(rows[..]), rows[..])
  {
    for i := 0 to rows.Length
      invariant forall j | 0 <= j < i ::
                  rows[j] == old(rows[j]).(net := old(rows[j]).totals.recognised - old(rows[j]).totals.refunded)
      invariant forall j | i <= j < rows.Length :: rows[j] == old(rows[j])
    {
      rows[i] := rows[i].(net := rows[i].totals.recognised - rows[i].totals.refunded);
    }
  }

  /** In every reachable state the dashboard shows each revenue row of its window once,
      and the net it shows is the money of the orders still recognised on that day,
      never negative. */
  lemma DashboardNetIsLedger(s: State, today: int, days: int, queried: seq<RevenueDay>, shown: seq<RevenueDay>)
    requires Guarantees.Reachable(s) && IsRevenueWindow(s.tables.figures, today, days, queried)
             && IsReport(queried, shown)
    ensures forall i | 0 <= i < |shown| ::
              shown[i].net == LedgerSum(s.tables.figures, s.db.nextOrder, shown[i].key) >= 0
    ensures forall i, j | 0 <= i < j < |shown| :: shown[i].key != shown[j].key
    ensures forall k | k in s.tables.figures.revenue && k.day > today - days ::
              exists i | 0 <= i < |shown| :: shown[i].key == k
  {
    forall i | 0 <= i < |shown|
      ensures shown[i].net == LedgerSum(s.tables.figures, s.db.nextOrder, shown[i].key) >= 0
    {
      Conserved(s, queried[i].key);
    }
    forall k | k in s.tables.figures.revenue && k.day > today - days
      ensures exists i | 0 <= i < |shown| :: shown[i].key == k
    {
      var i :| 0 <= i < |queried| && queried[i].key == k;
      assert shown[i].key == k;
    }
  }

  /** Statuses whose money the business holds. */
  predicate Live(s: Status) {
    s in {Paid, Packed, Shipped, Delivered}
  }

  function LiveAmount(db: Db, o: OrderId, currency: string): int {
    if o in db.orders && Live(db.orders[o].status) && db.orders[o].currency == currency
    then db.orders[o].totalMinor else 0
  }

  function CustomerAmount(db: Db, customer: nat, o: OrderId, currency: string): int {
    if o in db.orders && db.orders[o].customer == customer then LiveAmount(db, o, currency) else 0
  }

  /** The lifetime-value row of a customer in one currency. */
  ghost function LifetimeRow(db: Db, customer: nat, currency: string): int {
    Sum(db.nextOrder, (o: nat) => CustomerAmount(db, customer, o, currency))
  }

  predicate HasLiveOrder(db: Db, customer: nat, currency: string) {
    exists o | o in db.orders ::
      db.orders[o].customer == customer && Live(db.orders[o].status) && db.orders[o].currency == currency
  }

  /** The grouped query: one row per currency the customer has live orders in. */
  ghost predicate IsLifetimeResult(db: Db, customer: nat, rows: seq<(string, int)>) {
    && (forall i | 0 <= i < |rows| ::
          HasLiveOrder(db, customer, rows[i].0) && rows[i].1 == LifetimeRow(db, customer, rows[i].0))
    && (forall i, j | 0 <= i < j < |rows| :: rows[i].0 != rows[j].0)
    && (forall c | HasLiveOrder(db, customer, c) :: exists i | 0 <= i < |rows| :: rows[i].0 == c)
  }

  /** The currencies customer has live orders in, among the orders below n. */
  function LiveCurrencies(db: Db, customer: nat, n: nat): (cs: seq<string>)
    ensures forall i, j | 0 <= i < j < |cs| :: cs[i] != cs[j]
    ensures forall c | c in cs :: HasLiveOrder(db, customer, c)
    ensures forall o | o in db.orders && o < n && db.orders[o].customer == customer && Live(db.orders[o].status) ::
              db.orders[o].currency in cs
  {
    if n == 0 then []
    else
      var before := LiveCurrencies(db, customer, n - 1);
      if n - 1 in db.orders && db.orders[n - 1].customer == customer && Live(db.orders[n - 1].status)
         && db.orders[n - 1].currency !in before
      then before + [db.orders[n - 1].currency]
      else before
  }

  /** Whatever the tables hold, the grouped query has an answer. */
  lemma LifetimeResultExists(db: Db, customer: nat) returns (rows: seq<(string, int)>)
    requires TablesOk(db)
    ensures IsLifetimeResult(db, customer, rows)
  {
    var cs := LiveCurrencies(db, customer, db.nextOrder);
    rows := seq(|cs|, i requires 0 <= i < |cs| => (cs[i], LifetimeRow(db, customer, cs[i])));
    forall c | HasLiveOrder(db, customer, c) ensures exists i | 0 <= i < |rows| :: rows[i].0 == c {
      var j :| 0 <= j < |cs| && cs[j] == c;
      assert rows[j].0 == c;
    }
  }

  /** Unscannable is a sum, computed by the database without bound, that does not fit
      the 64 bits it is read into. */
  datatype Lifetime = Value(totalMinor: int, currency: string) | MixedCurrency | Unscannable

  predicate Fits64(x: int) {
    -0x8000_0000_0000_0000 <= x < 0x8000_0000_0000_0000
  }

  /** One figure in one currency, or a refusal: unscannable exactly when some sum is out
      of range, else mixed exactly when live orders in two currencies exist, and
      otherwise nothing is left out of the figure. */
  method LifetimeValueMinor(db: Db, customer: nat, rows: seq<(string, int)>) returns (value: Lifetime)
    requires IsLifetimeResult(db, customer, rows)
    ensures value.Unscannable? <==>
              exists c :: HasLiveOrder(db, customer, c) && !Fits64(LifetimeRow(db, customer, c))
    ensures !value.Unscannable? ==> (value.MixedCurrency? <==>
              exists c, d :: c != d && HasLiveOrder(db, customer, c) && HasLiveOrder(db, customer, d))
    ensures value.Value? ==> forall c | HasLiveOrder(db, customer, c) :: c == value.currency
    ensures value.Value? ==>
              value.totalMinor == if HasLiveOrder(db, customer, value.currency)
                then LifetimeRow(db, customer, value.currency) else 0
  {
    var total, currency := 0, "";
    var seen := 0;
    for i := 0 to |rows|
      invariant seen == i
      invariant i == 0 ==> total == 0 && currency == ""
      invariant i > 0 ==> total == rows[i - 1].1 && currency == rows[i - 1].0
      invariant forall j | 0 <= j < i :: Fits64(rows[j].1)
    {
      if !Fits64(rows[i].1) {
        assert HasLiveOrder(db, customer, rows[i].0);
        return Unscannable;
      }
      currency, total := rows[i].0, rows[i].1;
      seen := seen + 1;
    }
    if seen > 1 {
      assert rows[0].0 != rows[1].0 && HasLiveOrder(db, customer, rows[0].0) && HasLiveOrder(db, customer, rows[1].0);
      return MixedCurrency;
    }
    value := Value(total, currency);
  }

  /** An order's money that stays recognised although the order was cancelled. */
  function CancelledAmount(db: Db, o: OrderId, currency: string): int {
    if o in db.orders && db.orders[o].status == Cancelled && db.orders[o].currency == currency
      && WasPaid(History(db, o))
    then db.orders[o].totalMinor else 0
  }

  function RecognisedAmount(f: Figures, o: OrderId, currency: string): int {
    if o in f.ledger && f.ledger[o].key.currency == currency then f.ledger[o].amount else 0
  }

  /** Every ledger row points at an existing revenue row. */
  lemma {:induction false} LedgerKeysAreRows(s: seq<Envelope>, o: OrderId)
    ensures o in Fold(s).ledger ==> Fold(s).ledger[o].key in Fold(s).revenue
  {
    if s != [] {
      var p, e := s[..|s| - 1], s[|s| - 1];
      LedgerKeysAreRows(p, o);
      LedgerIsLocal(Fold(p), e, o);
      assert Held(Fold(p), o).Some? <==> o in Fold(p).ledger;
      assert Held(Fold(s), o).Some? <==> o in Fold(s).ledger;
      if o in Fold(s).ledger {
        RevenueIsLocal(Fold(p), e, Fold(s).ledger[o].key, PlacedCount);
      }
    }
  }

  ghost predicate Enumerates(keys: seq<Key>, f: Figures) {
    && (forall i | 0 <= i < |keys| :: keys[i] in f.revenue)
    && (forall i, j | 0 <= i < j < |keys| :: keys[i] != keys[j])
    && (forall k | k in f.revenue :: k in keys)
  }

  function NetIn(f: Figures, k: Key, currency: string): int {
    if k.currency == currency then Net(f, k) else 0
  }

  function LedgerIn(f: Figures, o: OrderId, k: Key, currency: string): int {
    if k.currency == currency then LedgerAt(f, o, k) else 0
  }

  /** Net revenue over all days in one currency, for the keys in any order. */
  ghost function NetTotal(f: Figures, keys: seq<Key>, currency: string): int {
    Sum(|keys|, (i: nat) => if i < |keys| then NetIn(f, keys[i], currency) else 0)
  }

  lemma OneKeyPerOrder(s: State, keys: seq<Key>, currency: string, o: OrderId)
    requires PipelineInv(s) && Enumerates(keys, s.tables.figures)
    ensures var f := s.tables.figures;
            Sum(|keys|, (i: nat) => if i < |keys| then LedgerIn(f, o, keys[i], currency) else 0)
            == RecognisedAmount(f, o, currency)
  {
    var f := s.tables.figures;
    var terms := (i: nat) => if i < |keys| then LedgerIn(f, o, keys[i], currency) else 0;
    if o in f.ledger {
      LedgerKeysAreRows(s.applied, o);
      var j :| 0 <= j < |keys| && keys[j] == f.ledger[o].key;
      SumSingle(|keys|, terms, j);
    } else {
      SumZero(|keys|, terms);
    }
  }

  lemma NetTotalIsRecognised(s: State, keys: seq<Key>, currency: string)
    requires Guarantees.Reachable(s) && Enumerates(keys, s.tables.figures)
    ensures NetTotal(s.tables.figures, keys, currency)
            == Sum(s.db.nextOrder, (o: nat) => RecognisedAmount(s.tables.figures, o, currency))
  {
    Guarantees.ReachableInv(s);
    var f, n, m := s.tables.figures, s.db.nextOrder, |keys|;
    var cell := (i: nat, o: nat) => if i < |keys| then LedgerIn(f, o, keys[i], currency) else 0;
    forall i: nat | i < m ensures NetIn(f, keys[i], currency) == Sum(n, (o: nat) => cell(i, o)) {
      Conserved(s, keys[i]);
      if keys[i].currency == currency {
        SumEq(n, (o: nat) => LedgerAt(f, o, keys[i]), (o: nat) => cell(i, o));
      } else {
        SumZero(n, (o: nat) => cell(i, o));
      }
    }
    SumEq(m, (i: nat) => if i < |keys| then NetIn(f, keys[i], currency) else 0,
          (i: nat) => Sum(n, (o: nat) => cell(i, o)));
    SumSwap(m, n, cell);
    forall o: nat ensures Sum(m, (i: nat) => cell(i, o)) == RecognisedAmount(f, o, currency) {
      OneKeyPerOrder(s, keys, currency, o);
      SumEq(m, (i: nat) => cell(i, o), (i: nat) => if i < |keys| then LedgerIn(f, o, keys[i], currency) else 0);
    }
    SumEq(n, (o: nat) => Sum(m, (i: nat) => cell(i, o)), (o: nat) => RecognisedAmount(f, o, currency));
  }

  /** Live money was paid; paid and not refunded is live or cancelled. */
  lemma PaidOrLive(db: Db, o: OrderId)
    requires Orders.Inv(db) && o in db.orders
    ensures Live(db.orders[o].status) ==> WasPaid(History(db, o))
    ensures WasPaid(History(db, o)) ==> db.orders[o].status != Pending
  {
    HistoryIsLegal(db, o);
    var h := History(db, o);
    LegalIsPath(h);
    PaidFirst(Statuses(h), |h| - 1);
    assert Statuses(h)[|h| - 1] == db.orders[o].status;
    if |h| > 1 {
      assert Statuses(h)[1] == Reached(h[1]);
      PaidNotPending(h);
    }
  }

  /** Drained, what is still recognised is what is live plus what was paid and then
      cancelled. */
  lemma RecognisedIsLiveOrCancelled(s: State, o: OrderId, currency: string)
    requires Guarantees.Reachable(s) && Drained(s)
    ensures RecognisedAmount(s.tables.figures, o, currency)
            == LiveAmount(s.db, o, currency) + CancelledAmount(s.db, o, currency)
  {
    Guarantees.ReachableInv(s);
    DrainedLedger(s, o);
    if o in s.db.orders {
      PaidOrLive(s.db, o);
    }
    if o in s.tables.figures.ledger {
      LedgerAmount(s, o);
    }
  }

  lemma PaidNotPending(h: seq<Envelope>)
    requires LegalHistory(h) && |h| > 1
    ensures Reached(h[|h| - 1]) != Pending
  {
    LastEvent(h);
    assert LegalNext(h[0], h[|h| - 2], h[|h| - 1]);
  }

  lemma LifetimesAreLive(db: Db, customers: nat, currency: string)
    requires forall o | o in db.orders :: db.orders[o].customer < customers
    ensures Sum(customers, (c: nat) => LifetimeRow(db, c, currency))
            == Sum(db.nextOrder, (o: nat) => LiveAmount(db, o, currency))
  {
    var n := db.nextOrder;
    var cell := (c: nat, o: nat) => CustomerAmount(db, c, o, currency);
    forall c: nat ensures LifetimeRow(db, c, currency) == Sum(n, (o: nat) => cell(c, o)) {
      SumEq(n, (o: nat) => CustomerAmount(db, c, o, currency), (o: nat) => cell(c, o));
    }
    SumEq(customers, (c: nat) => LifetimeRow(db, c, currency), (c: nat) => Sum(n, (o: nat) => cell(c, o)));
    SumSwap(customers, n, cell);
    forall o: nat ensures Sum(customers, (c: nat) => cell(c, o)) == LiveAmount(db, o, currency) {
      if o in db.orders {
        SumSingle(customers, (c: nat) => cell(c, o), db.orders[o].customer);
      } else {
        SumZero(customers, (c: nat) => cell(c, o));
      }
    }
    SumEq(n, (o: nat) => Sum(customers, (c: nat) => cell(c, o)), (o: nat) => LiveAmount(db, o, currency));
  }

  /** Cross-report conservation: once drained, net revenue over all days in a currency
      is the lifetime value of all customers in it plus the totals of the orders
      cancelled after being paid, because only a refund takes revenue back. */
  lemma CrossReport(s: State, keys: seq<Key>, customers: nat, currency: string)
    requires Guarantees.Reachable(s) && Drained(s) && Enumerates(keys, s.tables.figures)
    requires forall o | o in s.db.orders :: s.db.orders[o].customer < customers
    ensures NetTotal(s.tables.figures, keys, currency)
            == Sum(customers, (c: nat) => LifetimeRow(s.db, c, currency))
               + Sum(s.db.nextOrder, (o: nat) => CancelledAmount(s.db, o, currency))
  {
    NetTotalIsRecognised(s, keys, currency);
    forall o: nat ensures RecognisedAmount(s.tables.figures, o, currency)
                          == LiveAmount(s.db, o, currency) + CancelledAmount(s.db, o, currency) {
      RecognisedIsLiveOrCancelled(s, o, currency);
    }
    SumPlus(s.db.nextOrder, (o: nat) => LiveAmount(s.db, o, currency), (o: nat) => CancelledAmount(s.db, o, currency),
            (o: nat) => RecognisedAmount(s.tables.figures, o, currency));
    LifetimesAreLive(s.db, customers, currency);
  }

  /** An order with a positive total that was cancelled after it was paid. */
  predicate CancelledPaid(db: Db, o: OrderId, currency: string) {
    && o in db.orders && db.orders[o].status == Cancelled && db.orders[o].currency == currency
    && db.orders[o].totalMinor > 0 && WasPaid(History(db, o))
  }

  lemma CancelledAmounts(db: Db, currency: string)
    requires Orders.Inv(db)
    ensures Sum(db.nextOrder, (o: nat) => CancelledAmount(db, o, currency)) == 0
            <==> forall o: OrderId :: !CancelledPaid(db, o, currency)
  {
    var amounts := (o: nat) => CancelledAmount(db, o, currency);
    forall o: nat ensures amounts(o) >= 0 && (amounts(o) == 0 <==> !CancelledPaid(db, o, currency)) {
      assert OrderOk(db, o);
    }
    SumIsZero(db.nextOrder, amounts);
    forall o: OrderId | CancelledPaid(db, o, currency) ensures o < db.nextOrder {}
    if forall o: nat | o < db.nextOrder :: amounts(o) == 0 {
      forall o: OrderId ensures !CancelledPaid(db, o, currency) {
        assert CancelledPaid(db, o, currency) ==> amounts(o) != 0;
      }
    }
  }

  /** So the two reports agree in a currency exactly when no order of positive total in
      it was cancelled after payment. */
  lemma ReportsAgreeExactly(s: State, keys: seq<Key>, customers: nat, currency: string)
    requires Guarantees.Reachable(s) && Drained(s) && Enumerates(keys, s.tables.figures)
    requires forall o | o in s.db.orders :: s.db.orders[o].customer < customers
    ensures NetTotal(s.tables.figures, keys, currency) == Sum(customers, (c: nat) => LifetimeRow(s.db, c, currency))
            <==> forall o: OrderId :: !CancelledPaid(s.db, o, currency)
  {
    Guarantees.ReachableInv(s);
    CrossReport(s, keys, customers, currency);
    CancelledAmounts(s.db, currency);
  }
}
