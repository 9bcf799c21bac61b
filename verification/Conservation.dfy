/** What the revenue totals and the ledger of recognised orders owe each other,
    and why the lifecycle table is what makes them agree. */
module Conservation {
  import opened Options
  import opened Lifecycle
  import opened Projection
  import opened Sums

  predicate IsPaid(e: Envelope) {
    e.payload.StatusChanged? && e.payload.to == Paid
  }

  /** Revenue recognised for an order the ledger already holds: the total is added
      to the day, but the ledger insert does nothing on the conflict. */
  function Unledgered(s: seq<Envelope>, k: Key): int {
    if s == [] then 0
    else
      var p, e := s[..|s| - 1], s[|s| - 1];
      Unledgered(p, k) + if IsPaid(e) && KeyOf(e) == k && e.order in Fold(p).ledger then e.payload.totalMinor else 0
  }

  function LedgerAt(f: Figures, o: OrderId, k: Key): int {
    if o in f.ledger && f.ledger[o].key == k then f.ledger[o].amount else 0
  }

  /** The amounts still recognised under k, over the orders below n. */
  ghost function LedgerSum(f: Figures, n: nat, k: Key): int {
    Sum(n, (o: nat) => LedgerAt(f, o, k))
  }

  function Net(f: Figures, k: Key): int {
    Cell(f, k, RecognisedMinor) - Cell(f, k, RefundedMinor)
  }

  /** The ledger moves under k by its own order's row alone. */
  lemma LedgerSumStep(f: Figures, e: Envelope, n: nat, k: Key)
    requires e.order < n
    ensures LedgerSum(Project(f, e), n, k) - LedgerSum(f, n, k)
            == LedgerAt(Project(f, e), e.order, k) - LedgerAt(f, e.order, k)
  {
    forall o: nat ensures o != e.order ==> LedgerAt(Project(f, e), o, k) == LedgerAt(f, o, k) {
      LedgerIsLocal(f, e, o);
      LedgerAtHeld(f, o, k);
      LedgerAtHeld(Project(f, e), o, k);
    }
    SumBump(n, (o: nat) => LedgerAt(f, o, k), (o: nat) => LedgerAt(Project(f, e), o, k), e.order,
            LedgerAt(Project(f, e), e.order, k) - LedgerAt(f, e.order, k));
  }

  /** What one event does to the net and to its order's ledger row. */
  lemma NetStep(f: Figures, e: Envelope, k: Key)
    ensures Net(Project(f, e), k) - Net(f, k)
            == LedgerAt(Project(f, e), e.order, k) - LedgerAt(f, e.order, k)
               + if IsPaid(e) && KeyOf(e) == k && e.order in f.ledger then e.payload.totalMinor else 0
  {
    RevenueIsLocal(f, e, k, RecognisedMinor);
    RevenueIsLocal(f, e, k, RefundedMinor);
    LedgerIsLocal(f, e, e.order);
    LedgerAtHeld(f, e.order, k);
    LedgerAtHeld(Project(f, e), e.order, k);
  }

  lemma LedgerAtHeld(f: Figures, o: OrderId, k: Key)
    ensures LedgerAt(f, o, k) ==
            match Held(f, o)
            case Some(entry) => if entry.key == k then entry.amount else 0
            case None => 0
  {}

  /** The exact law, for any events in any order: recognised minus refunded is what
      the ledger holds under the key plus what was recognised without being ledgered. */
  lemma {:induction false} ConservationLaw(s: seq<Envelope>, n: nat, k: Key)
    requires OrdersBelow(s, n)
    ensures Net(Fold(s), k) == LedgerSum(Fold(s), n, k) + Unledgered(s, k)
  {
    if s == [] {
      SumZero(n, (o: nat) => LedgerAt(EMPTY, o, k));
    } else {
      var p, e := s[..|s| - 1], s[|s| - 1];
      ConservationLaw(p, n, k);
      LedgerSumStep(Fold(p), e, n, k);
      NetStep(Fold(p), e, k);
    }
  }

  /** The status an event leaves its order in. */
  function Reached(e: Envelope): Status {
    if e.payload.StatusChanged? then e.payload.to else Pending
  }

  /** The events of one order, as the lifecycle allows them: created first, then
      transitions of the table, all carrying the order's own money. */
  ghost predicate LegalHistory(h: seq<Envelope>) {
    |h| > 0 ==>
      && h[0].payload.OrderCreated?
      && forall i | 1 <= i < |h| :: LegalNext(h[0], h[i - 1], h[i])
  }

  ghost predicate LegalNext(created: Envelope, last: Envelope, e: Envelope)
    requires created.payload.OrderCreated?
  {
    && e.order == created.order
    && e.payload.StatusChanged?
    && e.payload.from == Reached(last)
    && CanTransition(e.payload.from, e.payload.to)
    && e.payload.totalMinor == created.payload.totalMinor
    && e.payload.currency == created.payload.currency
  }

  function Statuses(h: seq<Envelope>): seq<Status> {
    seq(|h|, i requires 0 <= i < |h| => Reached(h[i]))
  }

  lemma LegalIsPath(h: seq<Envelope>)
    requires LegalHistory(h) && h != []
    ensures Path(Statuses(h))
  {}

  lemma LegalPrefix(h: seq<Envelope>, n: nat)
    requires LegalHistory(h) && n <= |h|
    ensures LegalHistory(h[..n])
  {}

  predicate WasPaid(h: seq<Envelope>) {
    |h| > 1 && Reached(h[1]) == Paid
  }

  predicate WasRefunded(h: seq<Envelope>) {
    |h| > 0 && Reached(h[|h| - 1]) == Refunded
  }

  /** What one order's lawful events add to a cell, said without replaying them. */
  function Share(h: seq<Envelope>, k: Key, c: Column): int
    requires |h| > 0 && h[0].payload.OrderCreated?
    requires WasPaid(h) ==> h[1].payload.StatusChanged?
  {
    match c
    case PlacedCount => if KeyOf(h[0]) == k then 1 else 0
    case PaidCount => if WasPaid(h) && KeyOf(h[1]) == k then 1 else 0
    case RecognisedMinor => if WasPaid(h) && KeyOf(h[1]) == k then h[0].payload.totalMinor else 0
    case RefundedMinor => if WasRefunded(h) && WasPaid(h) && KeyOf(h[1]) == k then h[0].payload.totalMinor else 0
  }

  /** Where an order's last event can stand relative to its payment. */
  lemma LastEvent(h: seq<Envelope>)
    requires LegalHistory(h) && |h| > 1
    ensures h[1].payload.StatusChanged? && h[|h| - 1].payload.StatusChanged? && h[|h| - 1].order == h[0].order
    ensures Reached(h[|h| - 1]) == Paid <==> |h| == 2 && WasPaid(h)
    ensures WasRefunded(h) ==> |h| > 2 && WasPaid(h)
    ensures !WasRefunded(h[..|h| - 1])
  {
    LegalIsPath(h);
    var st := Statuses(h);
    assert LegalNext(h[0], h[0], h[1]);
    assert LegalNext(h[0], h[|h| - 2], h[|h| - 1]);
    PaidFirst(st, |h| - 1);
    assert st[1] == Reached(h[1]) && st[|h| - 1] == Reached(h[|h| - 1]);
    Absorbing(st, |h| - 2);
    assert st[|h| - 2] == Reached(h[|h| - 2]);
  }

  /** The ledger row a lawful history leaves behind. */
  function LeftInLedger(h: seq<Envelope>): Option<Entry>
    requires |h| > 0 && h[0].payload.OrderCreated?
    requires WasPaid(h) ==> h[1].payload.StatusChanged?
  {
    if WasPaid(h) && !WasRefunded(h) then Some(Entry(KeyOf(h[1]), h[0].payload.totalMinor)) else None
  }

  lemma PaidIsStatusChange(h: seq<Envelope>)
    requires LegalHistory(h) && h != []
    ensures WasPaid(h) ==> h[1].payload.StatusChanged?
  {}

  lemma ShareStep(h: seq<Envelope>, p: seq<Envelope>, k: Key, c: Column)
    requires LegalHistory(h) && LegalHistory(p) && |h| > 1 && p == h[..|h| - 1]
    requires WasPaid(h) ==> h[1].payload.StatusChanged?
    requires WasPaid(p) ==> p[1].payload.StatusChanged?
    ensures Share(h, k, c) == Share(p, k, c) + Added(LeftInLedger(p), h[|h| - 1], k, c)
    ensures LeftInLedger(h) == HeldAfter(LeftInLedger(p), h[|h| - 1])
  {
    LastEvent(h);
    assert LegalNext(h[0], h[|h| - 2], h[|h| - 1]);
    var to := Reached(h[|h| - 1]);
    if to == Paid {
    } else if to == Refunded {
    } else {
    }
  }

  lemma CreatedFigures(h: seq<Envelope>, k: Key, c: Column)
    requires LegalHistory(h) && |h| == 1
    ensures Cell(Fold(h), k, c) == Share(h, k, c)
    ensures Held(Fold(h), h[0].order) == None
  {
    assert Fold(h) == Project(EMPTY, h[0]) by {
      assert h[..0] == [];
    }
    CreatedAlone(h[0], k, c);
  }

  lemma CreatedAlone(e: Envelope, k: Key, c: Column)
    requires e.payload.OrderCreated?
    ensures Cell(Project(EMPTY, e), k, c) == if c == PlacedCount && KeyOf(e) == k then 1 else 0
    ensures Held(Project(EMPTY, e), e.order) == None
  {
    RevenueIsLocal(EMPTY, e, k, c);
    LedgerIsLocal(EMPTY, e, e.order);
  }

  lemma FoldStep(h: seq<Envelope>, k: Key, c: Column)
    requires h != []
    ensures var p, e := h[..|h| - 1], h[|h| - 1];
            && Cell(Fold(h), k, c) == Cell(Fold(p), k, c) + Added(Held(Fold(p), e.order), e, k, c)
            && Held(Fold(h), e.order) == HeldAfter(Held(Fold(p), e.order), e)
  {
    RevenueIsLocal(Fold(h[..|h| - 1]), h[|h| - 1], k, c);
    LedgerIsLocal(Fold(h[..|h| - 1]), h[|h| - 1], h[|h| - 1].order);
  }

  /** Replaying one order's lawful events gives exactly its share of every cell,
      and leaves it in the ledger just when it was paid and not refunded. */
  lemma {:induction false} LegalFigures(h: seq<Envelope>, k: Key, c: Column)
    requires LegalHistory(h) && h != []
    ensures WasPaid(h) ==> h[1].payload.StatusChanged?
    ensures Cell(Fold(h), k, c) == Share(h, k, c)
    ensures Held(Fold(h), h[0].order) == LeftInLedger(h)
  {
    PaidIsStatusChange(h);
    if |h| == 1 {
      CreatedFigures(h, k, c);
    } else {
      LegalPrefix(h, |h| - 1);
      LegalFigures(h[..|h| - 1], k, c);
      ShareStep(h, h[..|h| - 1], k, c);
      LastEvent(h);
      FoldStep(h, k, c);
    }
  }

  ghost predicate Lawful(s: seq<Envelope>) {
    forall o :: LegalHistory(Of(s, o))
  }

  /** The table lets an order be paid only once, so nothing is recognised twice. */
  lemma {:induction false} LawfulIsLedgered(s: seq<Envelope>, k: Key)
    requires Lawful(s)
    ensures Unledgered(s, k) == 0
  {
    if s != [] {
      var p, e := s[..|s| - 1], s[|s| - 1];
      forall o ensures LegalHistory(Of(p, o)) {
        LegalPrefix(Of(s, o), |Of(p, o)|);
        assert Of(s, o)[..|Of(p, o)|] == Of(p, o);
      }
      LawfulIsLedgered(p, k);
      if IsPaid(e) {
        var h := Of(s, e.order);
        assert h == Of(p, e.order) + [e];
        if |h| > 1 {
          LastEvent(h);
          assert Of(p, e.order) == [h[0]];
          LegalFigures([h[0]], k, PlacedCount);
        }
        LedgerDecomposes(p, e.order);
      }
    }
  }

  /** For lawful histories, however interleaved, the totals and the ledger agree. */
  lemma LawfulConservation(s: seq<Envelope>, n: nat, k: Key)
    requires Lawful(s) && OrdersBelow(s, n)
    ensures Net(Fold(s), k) == LedgerSum(Fold(s), n, k)
  {
    ConservationLaw(s, n, k);
    LawfulIsLedgered(s, k);
  }
}
