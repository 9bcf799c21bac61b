/** The revenue projection on values: what each event does to revenue_by_day and
    recognised_orders, and why only each order's own event order can matter. */
module Projection {
  import opened Options
  import opened Lifecycle
  import opened Sums

  type OrderId = nat
  type EventId = nat

  /** The payloads the two producers write, and those only a foreign producer could. */
  datatype Payload =
    | OrderCreated(totalMinor: int, currency: string)
    | StatusChanged(from: Status, to: Status, totalMinor: int, currency: string)
    | Unparseable
    | OtherType

  datatype Envelope = Envelope(id: EventId, version: int, occurredAt: int, order: OrderId, payload: Payload)

  const VERSION := 1

  datatype Key = Key(day: int, currency: string)
  datatype Totals = Totals(placed: int, paid: int, recognised: int, refunded: int)
  datatype Entry = Entry(key: Key, amount: int)

  /** The two tables a report reads: revenue_by_day and recognised_orders. */
  datatype Figures = Figures(revenue: map<Key, Totals>, ledger: map<OrderId, Entry>)

  const EMPTY := Figures(map[], map[])
  const ZERO := Totals(0, 0, 0, 0)
  const SECONDS_PER_DAY := 86400

  /** The UTC day of an instant given in seconds since the epoch. */
  function Day(at: int): int {
    at / SECONDS_PER_DAY
  }

  /** A day is the 86400 seconds from its midnight, before the epoch as after it. */
  lemma DayIsUtcDate(at: int, day: int)
    ensures Day(at) == day <==> day * 86400 <= at < (day + 1) * 86400
  {}

  function Plus(a: Totals, b: Totals): Totals {
    Totals(a.placed + b.placed, a.paid + b.paid, a.recognised + b.recognised, a.refunded + b.refunded)
  }

  /** A row not yet inserted counts as the column defaults. */
  function Row(revenue: map<Key, Totals>, k: Key): Totals {
    if k in revenue then revenue[k] else ZERO
  }

  function Upsert(revenue: map<Key, Totals>, k: Key, d: Totals): map<Key, Totals> {
    revenue[k := Plus(Row(revenue, k), d)]
  }

  function InsertRecognised(ledger: map<OrderId, Entry>, o: OrderId, entry: Entry): map<OrderId, Entry> {
    if o in ledger then ledger else ledger[o := entry]
  }

  function KeyOf(e: Envelope): Key
    requires e.payload.OrderCreated? || e.payload.StatusChanged?
  {
    Key(Day(e.occurredAt), e.payload.currency)
  }

  function Recognise(f: Figures, e: Envelope): Figures
    requires e.payload.StatusChanged?
  {
    Figures(Upsert(f.revenue, KeyOf(e), Totals(0, 1, e.payload.totalMinor, 0)),
            InsertRecognised(f.ledger, e.order, Entry(KeyOf(e), e.payload.totalMinor)))
  }

  function Reverse(f: Figures, o: OrderId): Figures {
    if o !in f.ledger then f
    else Figures(Upsert(f.revenue, f.ledger[o].key, Totals(0, 0, 0, f.ledger[o].amount)), f.ledger - {o})
  }

  function Project(f: Figures, e: Envelope): Figures {
    match e.payload
    case OrderCreated(_, _) => Figures(Upsert(f.revenue, KeyOf(e), Totals(1, 0, 0, 0)), f.ledger)
    case StatusChanged(_, to, _, _) =>
      if to == Paid then Recognise(f, e)
      else if to == Refunded then Reverse(f, e.order)
      else f
    case Unparseable => f
    case OtherType => f
  }

  function Fold(s: seq<Envelope>): Figures {
    if s == [] then EMPTY else Project(Fold(s[..|s| - 1]), s[|s| - 1])
  }

  /** The events of order o, in the order s has them. */
  function Of(s: seq<Envelope>, o: OrderId): seq<Envelope> {
    if s == [] then []
    else if s[|s| - 1].order == o then Of(s[..|s| - 1], o) + [s[|s| - 1]]
    else Of(s[..|s| - 1], o)
  }

  lemma FoldSnoc(s: seq<Envelope>, e: Envelope)
    ensures Fold(s + [e]) == Project(Fold(s), e)
  {}

  lemma {:induction false} OfMembers(s: seq<Envelope>, o: OrderId, e: Envelope)
    ensures e in Of(s, o) <==> e in s && e.order == o
  {
    if s != [] {
      OfMembers(s[..|s| - 1], o, e);
      assert s == s[..|s| - 1] + [s[|s| - 1]];
    }
  }

  datatype Column = PlacedCount | PaidCount | RecognisedMinor | RefundedMinor

  function In(t: Totals, c: Column): int {
    match c
    case PlacedCount => t.placed
    case PaidCount => t.paid
    case RecognisedMinor => t.recognised
    case RefundedMinor => t.refunded
  }

  function Cell(f: Figures, k: Key, c: Column): int {
    In(Row(f.revenue, k), c)
  }

  /** The ledger row of order o, if it has one. */
  function Held(f: Figures, o: OrderId): Option<Entry> {
    if o in f.ledger then Some(f.ledger[o]) else None
  }

  /** A revenue row and what is added to it. */
  datatype Effect = NoEffect | AddTo(key: Key, delta: Totals)

  /** The one revenue row an event touches, as a function of its own order's
      ledger row alone. */
  function EffectOf(held: Option<Entry>, e: Envelope): Effect {
    match e.payload
    case OrderCreated(_, _) => AddTo(KeyOf(e), Totals(1, 0, 0, 0))
    case StatusChanged(_, to, total, _) =>
      if to == Paid then AddTo(KeyOf(e), Totals(0, 1, total, 0))
      else if to == Refunded && held.Some? then AddTo(held.value.key, Totals(0, 0, 0, held.value.amount))
      else NoEffect
    case _ => NoEffect
  }

  function HeldAfter(held: Option<Entry>, e: Envelope): Option<Entry> {
    match e.payload
    case StatusChanged(_, to, total, _) =>
      if to == Paid && held.None? then Some(Entry(KeyOf(e), total))
      else if to == Refunded then None
      else held
    case _ => held
  }

  function Added(held: Option<Entry>, e: Envelope, k: Key, c: Column): int {
    if Touches(held, e, k) then In(EffectOf(held, e).delta, c) else 0
  }

  predicate Touches(held: Option<Entry>, e: Envelope, k: Key) {
    EffectOf(held, e).AddTo? && EffectOf(held, e).key == k
  }

  function Apply(revenue: map<Key, Totals>, effect: Effect): map<Key, Totals> {
    match effect
    case AddTo(key, delta) => Upsert(revenue, key, delta)
    case NoEffect => revenue
  }

  lemma ProjectAppliesEffect(f: Figures, e: Envelope)
    ensures Project(f, e).revenue == Apply(f.revenue, EffectOf(Held(f, e.order), e))
  {
    match e.payload
    case OrderCreated(_, _) =>
    case StatusChanged(_, to, _, _) =>
      if to == Paid {
      } else if to == Refunded {
        if e.order in f.ledger {
        }
      }
    case _ =>
  }

  lemma ApplyIsLocal(revenue: map<Key, Totals>, effect: Effect, k: Key, c: Column)
    ensures In(Row(Apply(revenue, effect), k), c)
            == In(Row(revenue, k), c) + if effect.AddTo? && effect.key == k then In(effect.delta, c) else 0
    ensures k in Apply(revenue, effect) <==> k in revenue || (effect.AddTo? && effect.key == k)
  {}

  /** What an event does to a revenue row depends on the tables only through its
      own order's ledger row. */
  lemma RevenueIsLocal(f: Figures, e: Envelope, k: Key, c: Column)
    ensures Cell(Project(f, e), k, c) == Cell(f, k, c) + Added(Held(f, e.order), e, k, c)
    ensures k in Project(f, e).revenue <==> k in f.revenue || Touches(Held(f, e.order), e, k)
  {
    ProjectAppliesEffect(f, e);
    ApplyIsLocal(f.revenue, EffectOf(Held(f, e.order), e), k, c);
  }

  /** An event moves its own order's ledger row and no other. */
  lemma LedgerIsLocal(f: Figures, e: Envelope, o: OrderId)
    ensures Held(Project(f, e), o) == if o == e.order then HeldAfter(Held(f, o), e) else Held(f, o)
  {}

  /** An order's ledger row is what its own events make of it. */
  lemma {:induction false} LedgerDecomposes(s: seq<Envelope>, o: OrderId)
    ensures Held(Fold(s), o) == Held(Fold(Of(s, o)), o)
  {
    if s != [] {
      var p, e := s[..|s| - 1], s[|s| - 1];
      LedgerDecomposes(p, o);
      LedgerIsLocal(Fold(p), e, o);
      if e.order == o {
        FoldSnoc(Of(p, o), e);
        LedgerIsLocal(Fold(Of(p, o)), e, o);
      }
    }
  }

  ghost predicate OrdersBelow(s: seq<Envelope>, n: nat) {
    forall e | e in s :: e.order < n
  }

  /** Every revenue cell is the sum of what each order on its own would have put there. */
  lemma {:induction false} RevenueDecomposes(s: seq<Envelope>, n: nat, k: Key, c: Column)
    requires OrdersBelow(s, n)
    ensures Cell(Fold(s), k, c) == Sum(n, (o: nat) => Cell(Fold(Of(s, o)), k, c))
  {
    if s == [] {
      SumZero(n, (o: nat) => Cell(Fold(Of(s, o)), k, c));
    } else {
      var p, e := s[..|s| - 1], s[|s| - 1];
      RevenueDecomposes(p, n, k, c);
      RevenueIsLocal(Fold(p), e, k, c);
      LedgerDecomposes(p, e.order);
      RevenueIsLocal(Fold(Of(p, e.order)), e, k, c);
      FoldSnoc(Of(p, e.order), e);
      SumBump(n, (o: nat) => Cell(Fold(Of(p, o)), k, c), (o: nat) => Cell(Fold(Of(s, o)), k, c),
              e.order, Added(Held(Fold(p), e.order), e, k, c));
    }
  }

  /** Order o on its own would have created row k. */
  ghost predicate Creates(s: seq<Envelope>, o: OrderId, k: Key) {
    k in Fold(Of(s, o)).revenue
  }

  /** A revenue row exists exactly when some order on its own would have created it. */
  lemma {:induction false} RowsDecompose(s: seq<Envelope>, k: Key)
    ensures k in Fold(s).revenue <==> exists o :: Creates(s, o, k)
  {
    if s == [] {
      assert forall o :: Of(s, o) == [];
    } else {
      var p, e := s[..|s| - 1], s[|s| - 1];
      RowsDecompose(p, k);
      RevenueIsLocal(Fold(p), e, k, PlacedCount);
      LedgerDecomposes(p, e.order);
      RevenueIsLocal(Fold(Of(p, e.order)), e, k, PlacedCount);
      FoldSnoc(Of(p, e.order), e);
      var touched := Touches(Held(Fold(p), e.order), e, k);
      forall o ensures Creates(s, o, k) <==> Creates(p, o, k) || (o == e.order && touched) {}
      assert touched ==> Creates(s, e.order, k);
    }
  }

  function Bound(s: seq<Envelope>): (n: nat)
    ensures OrdersBelow(s, n)
  {
    if s == [] then 0
    else
      var n := Bound(s[..|s| - 1]);
      assert s == s[..|s| - 1] + [s[|s| - 1]];
      if s[|s| - 1].order < n then n else s[|s| - 1].order + 1
  }

  ghost predicate SamePerOrder(s: seq<Envelope>, t: seq<Envelope>) {
    forall o :: Of(s, o) == Of(t, o)
  }

  lemma SameFigures(f: Figures, g: Figures)
    requires forall o :: Held(f, o) == Held(g, o)
    requires forall k :: k in f.revenue <==> k in g.revenue
    requires forall k :: Row(f.revenue, k) == Row(g.revenue, k)
    ensures f == g
  {
    forall o ensures o in f.ledger <==> o in g.ledger
             ensures o in f.ledger ==> f.ledger[o] == g.ledger[o] {
      assert Held(f, o) == Held(g, o);
    }
    assert f.ledger == g.ledger;
    forall k | k in f.revenue ensures f.revenue[k] == g.revenue[k] {
      assert Row(f.revenue, k) == Row(g.revenue, k);
    }
    assert f.revenue == g.revenue;
  }

  lemma SameHeld(s: seq<Envelope>, t: seq<Envelope>, o: OrderId)
    requires SamePerOrder(s, t)
    ensures Held(Fold(s), o) == Held(Fold(t), o)
  {
    LedgerDecomposes(s, o);
    LedgerDecomposes(t, o);
  }

  lemma SameKeys(s: seq<Envelope>, t: seq<Envelope>, k: Key)
    requires SamePerOrder(s, t)
    ensures k in Fold(s).revenue <==> k in Fold(t).revenue
  {
    RowsDecompose(s, k);
    RowsDecompose(t, k);
    assert forall o :: Creates(s, o, k) == Creates(t, o, k);
  }

  /** Confluence: two interleavings that agree on each order's own sequence leave
      the same figures, whatever the orders did and however they were mixed. */
  lemma Confluence(s: seq<Envelope>, t: seq<Envelope>)
    requires SamePerOrder(s, t)
    ensures Fold(s) == Fold(t)
  {
    forall o { SameHeld(s, t, o); }
    forall k { SameKeys(s, t, k); }
    forall k { SameCells(s, t, k); }
    SameFigures(Fold(s), Fold(t));
  }

  lemma SameCells(s: seq<Envelope>, t: seq<Envelope>, k: Key)
    requires SamePerOrder(s, t)
    ensures Row(Fold(s).revenue, k) == Row(Fold(t).revenue, k)
  {
    var n := Bound(s) + Bound(t);
    forall c: Column ensures Cell(Fold(s), k, c) == Cell(Fold(t), k, c) {
      RevenueDecomposes(s, n, k, c);
      RevenueDecomposes(t, n, k, c);
      SumEq(n, (o: nat) => Cell(Fold(Of(s, o)), k, c), (o: nat) => Cell(Fold(Of(t, o)), k, c));
    }
    SameRow(Fold(s), Fold(t), k);
  }

  /** The event occurred on the key's day and carries its currency. */
  predicate FallsOn(e: Envelope, k: Key) {
    && (e.payload.OrderCreated? || e.payload.StatusChanged?)
    && e.payload.currency == k.currency
    && k.day * 86400 <= e.occurredAt < (k.day + 1) * 86400
  }

  predicate MovesTo(e: Envelope, to: Status) {
    e.payload.StatusChanged? && e.payload.to == to
  }

  /** The event counts under k: an order on the day it is created, a payment on the day
      it is made, a refund on the day the ledger has for its order. */
  predicate CountsAt(f: Figures, e: Envelope, k: Key) {
    || (e.payload.OrderCreated? && FallsOn(e, k))
    || (MovesTo(e, Paid) && FallsOn(e, k))
    || (MovesTo(e, Refunded) && e.order in f.ledger && f.ledger[e.order].key == k)
  }

  /** What it then adds to each column. */
  function Credit(f: Figures, e: Envelope, c: Column): int {
    match c
    case PlacedCount => if e.payload.OrderCreated? then 1 else 0
    case PaidCount => if MovesTo(e, Paid) then 1 else 0
    case RecognisedMinor => if MovesTo(e, Paid) then e.payload.totalMinor else 0
    case RefundedMinor => if MovesTo(e, Refunded) && e.order in f.ledger then f.ledger[e.order].amount else 0
  }

  ghost predicate CellCredited(f: Figures, e: Envelope, g: Figures, k: Key, c: Column) {
    Cell(g, k, c) == Cell(f, k, c) + if CountsAt(f, e, k) then Credit(f, e, c) else 0
  }

  /** The ledger row of order o before and after: a first payment enters the total under
      the day and currency of the payment, a refund takes the row out. */
  ghost predicate EntryKept(f: Figures, e: Envelope, g: Figures, o: OrderId) {
    if o == e.order && MovesTo(e, Refunded) then o !in g.ledger
    else if o == e.order && MovesTo(e, Paid) && o !in f.ledger then
      o in g.ledger && FallsOn(e, g.ledger[o].key) && g.ledger[o].amount == e.payload.totalMinor
    else Held(g, o) == Held(f, o)
  }

  ghost predicate Credited(f: Figures, e: Envelope, g: Figures) {
    && (forall k :: k in g.revenue <==> k in f.revenue || CountsAt(f, e, k))
    && (forall k, c :: CellCredited(f, e, g, k, c))
    && (forall o :: EntryKept(f, e, g, o))
  }

  lemma OneDay(e: Envelope, k: Key)
    requires e.payload.OrderCreated? || e.payload.StatusChanged?
    ensures FallsOn(e, k) <==> k == KeyOf(e)
  {
    DayIsUtcDate(e.occurredAt, k.day);
  }

  lemma CountsWhereItTouches(f: Figures, e: Envelope, k: Key)
    ensures CountsAt(f, e, k) <==> Touches(Held(f, e.order), e, k)
  {
    if e.payload.OrderCreated? || e.payload.StatusChanged? {
      OneDay(e, k);
    }
  }

  lemma CreditIsAdded(f: Figures, e: Envelope, k: Key, c: Column)
    requires Touches(Held(f, e.order), e, k)
    ensures Credit(f, e, c) == Added(Held(f, e.order), e, k, c)
  {}

  lemma ProjectCreditsCell(f: Figures, e: Envelope, k: Key, c: Column)
    ensures CellCredited(f, e, Project(f, e), k, c)
    ensures k in Project(f, e).revenue <==> k in f.revenue || CountsAt(f, e, k)
  {
    CountsWhereItTouches(f, e, k);
    RevenueIsLocal(f, e, k, c);
    if CountsAt(f, e, k) {
      CreditIsAdded(f, e, k, c);
    }
  }

  lemma ProjectKeepsEntry(f: Figures, e: Envelope, o: OrderId)
    ensures EntryKept(f, e, Project(f, e), o)
  {
    if MovesTo(e, Paid) {
      OneDay(e, KeyOf(e));
    }
    LedgerIsLocal(f, e, o);
  }

  lemma ProjectCredits(f: Figures, e: Envelope)
    ensures Credited(f, e, Project(f, e))
  {
    forall k, c ensures CellCredited(f, e, Project(f, e), k, c) {
      ProjectCreditsCell(f, e, k, c);
    }
    forall k ensures k in Project(f, e).revenue <==> k in f.revenue || CountsAt(f, e, k) {
      ProjectCreditsCell(f, e, k, PlacedCount);
    }
    forall o ensures EntryKept(f, e, Project(f, e), o) {
      ProjectKeepsEntry(f, e, o);
    }
  }

  lemma CreditedRow(f: Figures, e: Envelope, g: Figures, h: Figures, k: Key)
    requires forall c :: CellCredited(f, e, g, k, c) && CellCredited(f, e, h, k, c)
    ensures Row(g.revenue, k) == Row(h.revenue, k)
  {
    forall c ensures Cell(g, k, c) == Cell(h, k, c) {
      assert CellCredited(f, e, g, k, c) && CellCredited(f, e, h, k, c);
    }
    SameRow(g, h, k);
  }

  lemma SameRow(g: Figures, h: Figures, k: Key)
    requires forall c :: Cell(g, k, c) == Cell(h, k, c)
    ensures Row(g.revenue, k) == Row(h.revenue, k)
  {
    assert Cell(g, k, PlacedCount) == Cell(h, k, PlacedCount);
    assert Cell(g, k, PaidCount) == Cell(h, k, PaidCount);
    assert Cell(g, k, RecognisedMinor) == Cell(h, k, RecognisedMinor);
    assert Cell(g, k, RefundedMinor) == Cell(h, k, RefundedMinor);
  }

  lemma CreditedEntry(f: Figures, e: Envelope, g: Figures, h: Figures, o: OrderId)
    requires EntryKept(f, e, g, o) && EntryKept(f, e, h, o)
    ensures Held(g, o) == Held(h, o)
  {
    if o == e.order && MovesTo(e, Paid) && o !in f.ledger {
      OneDay(e, g.ledger[o].key);
      OneDay(e, h.ledger[o].key);
    }
  }

  /** Projecting an event credits exactly the day it occurred on, or for a refund the
      day the money was recognised on, and nothing else is what crediting means. */
  lemma ProjectIsCrediting(f: Figures, e: Envelope, g: Figures)
    ensures g == Project(f, e) <==> Credited(f, e, g)
  {
    ProjectCredits(f, e);
    if Credited(f, e, g) {
      forall k ensures (k in g.revenue <==> k in Project(f, e).revenue)
                       && Row(g.revenue, k) == Row(Project(f, e).revenue, k) {
        CreditedRow(f, e, g, Project(f, e), k);
      }
      forall o ensures Held(g, o) == Held(Project(f, e), o) {
        CreditedEntry(f, e, g, Project(f, e), o);
      }
      SameFigures(g, Project(f, e));
    }
  }
}
