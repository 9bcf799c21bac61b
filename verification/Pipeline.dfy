/** The whole revenue pipeline as one machine, from order transactions through the
    outbox and the stream to the reporting tables, and what every run keeps. */
module Pipeline {
  import opened Projection
  import opened Orders
  import opened Publishing
  import opened Reporting

  /** The consumer delivers stream positions one at a time: floor is the first one
      not yet acknowledged, inbox the deliveries not yet handled, acks the
      acknowledgements on their way to the broker. Applied records, for the
      theorems only, the events whose handling changed the tables. */
  datatype State = State(
    db: Db,
    pub: Pub,
    floor: nat,
    inbox: set<nat>,
    acks: set<nat>,
    tables: Tables,
    applied: seq<Envelope>)

  const START := State(NO_DB, NO_PUB, 0, {}, {}, NO_TABLES, [])

  datatype Event =
    | OrderStep(a: Action)
    | PubStep(p: PubAction)
    | Deliver                            // the position at the floor, for the first time or again
    | HandleAt(pos: nat, fault: Fault)
    | DropDelivery(pos: nat)             // a restart, or a refusal the broker sees
    | AckArrives(pos: nat)
    | AckLost(pos: nat)

  predicate CanHappen(s: State, ev: Event) {
    match ev
    case OrderStep(a) => Orders.Enabled(s.db, a)
    case PubStep(p) => PubEnabled(s.db.outbox, s.pub, p)
    case Deliver => s.floor < |s.pub.stream|
    case HandleAt(pos, _) => pos in s.inbox && pos < |s.pub.stream|
    case DropDelivery(pos) => pos in s.inbox
    case AckArrives(pos) => pos in s.acks
    case AckLost(pos) => pos in s.acks
  }

  function Next(s: State, ev: Event): State
    requires CanHappen(s, ev)
  {
    match ev
    case OrderStep(a) => s.(db := Do(s.db, a))
    case PubStep(p) => s.(pub := PubDo(s.db.outbox, s.db.nextSlot, s.pub, p))
    case Deliver => s.(inbox := s.inbox + {s.floor})
    case HandleAt(pos, fault) =>
      var e := s.pub.stream[pos];
      var (tables, verdict) := Handle(s.tables, Decoded(e), fault);
      s.(inbox := s.inbox - {pos},
         acks := if verdict.Ack? then s.acks + {pos} else s.acks,
         tables := tables,
         applied := if tables == s.tables then s.applied else s.applied + [e])
    case DropDelivery(pos) => s.(inbox := s.inbox - {pos})
    case AckArrives(pos) => s.(acks := s.acks - {pos}, floor := if pos == s.floor then s.floor + 1 else s.floor)
    case AckLost(pos) => s.(acks := s.acks - {pos})
  }

  ghost predicate Done(s: State, pos: nat) {
    pos < |s.pub.stream| && s.pub.stream[pos].id in s.tables.processed
  }

  ghost predicate ConsumerOk(s: State) {
    && s.floor <= |s.pub.stream|
    && (forall pos: nat | pos < s.floor :: Done(s, pos))
    && (forall pos | pos in s.inbox :: pos <= s.floor && pos < |s.pub.stream|)
    && (forall pos | pos in s.acks :: pos <= s.floor && Done(s, pos))
  }

  ghost predicate AppliedOk(s: State) {
    && s.tables.figures == Fold(s.applied)
    && DistinctIds(s.applied)
    && (forall id :: id in s.tables.processed <==> HasId(s.applied, id))
  }

  ghost predicate IsPrefix<T>(a: seq<T>, b: seq<T>) {
    |a| <= |b| && a == b[..|a|]
  }

  ghost predicate InOrder(db: Db, applied: seq<Envelope>) {
    forall o :: IsPrefix(Of(applied, o), History(db, o))
  }

  ghost predicate PipelineInv(s: State) {
    && Orders.Inv(s.db)
    && PubInv(s.db.outbox, s.pub)
    && ConsumerOk(s)
    && AppliedOk(s)
    && InOrder(s.db, s.applied)
  }

  lemma StartInv()
    ensures PipelineInv(START)
  {
    Orders.InitInv();
  }

  /** E is the envelope of a row of the same order as row i, with a smaller key. */
  ghost predicate Earlier(outbox: Outbox, i: nat, e: Envelope) {
    exists j :: Behind(outbox, j, i) && outbox[j].val == e
  }

  /** A committed row stands in its order's history, behind exactly the rows of the
      order with smaller keys. */
  lemma RowInHistory(db: Db, i: nat) returns (x: nat)
    requires Orders.Inv(db) && i in db.outbox
    ensures var h := History(db, db.outbox[i].order);
            && x < |h| && h[x] == db.outbox[i].val
            && db.outbox[i].val.order == db.outbox[i].order
            && db.outbox[i].val.version == VERSION
            && forall y | 0 <= y < x :: Earlier(db.outbox, i, h[y])
  {
    var o := db.outbox[i].order;
    var ids := RowIds(db.outbox, db.nextSlot, o);
    x :| 0 <= x < |ids| && ids[x] == i;
    var h := History(db, o);
    assert OrderOk(db, o);
    assert h[x] == db.outbox[i].val && Describes(h[x], o, Events(db, o)[x], db.orders[o]);
    forall y | 0 <= y < x ensures Earlier(db.outbox, i, h[y]) {
      assert Behind(db.outbox, ids[y], i) && h[y] == db.outbox[ids[y]].val;
    }
  }

  /** Envelopes of histories are told apart by their ids. */
  lemma HistoryIds(db: Db, o: OrderId, x: nat, o': OrderId, y: nat)
    requires Orders.Inv(db) && x < |History(db, o)| && y < |History(db, o')|
    requires History(db, o)[x].id == History(db, o')[y].id
    ensures o == o' && x == y
  {}

  /** Whatever was applied is an envelope of its order's history. */
  lemma AppliedInHistory(db: Db, applied: seq<Envelope>, k: nat) returns (x: nat)
    requires InOrder(db, applied) && k < |applied|
    ensures x < |Of(applied, applied[k].order)| && x < |History(db, applied[k].order)|
    ensures History(db, applied[k].order)[x] == applied[k]
  {
    var o := applied[k].order;
    OfMembers(applied, o, applied[k]);
    x :| 0 <= x < |Of(applied, o)| && Of(applied, o)[x] == applied[k];
    assert IsPrefix(Of(applied, o), History(db, o));
  }

  lemma PrefixApplied(db: Db, applied: seq<Envelope>, o: OrderId, m: nat)
    requires InOrder(db, applied) && m < |Of(applied, o)|
    ensures m < |History(db, o)| && HasId(applied, History(db, o)[m].id)
  {
    assert IsPrefix(Of(applied, o), History(db, o));
    OfMembers(applied, o, Of(applied, o)[m]);
    var k :| 0 <= k < |applied| && applied[k] == Of(applied, o)[m];
  }

  /** If everything before position m of an order's history has been applied and
      the envelope at m has not, exactly the first m have been. */
  lemma NextInLine(db: Db, applied: seq<Envelope>, o: OrderId, m: nat)
    requires Orders.Inv(db) && InOrder(db, applied)
    requires m <= |History(db, o)|
    requires forall y | 0 <= y < m :: HasId(applied, History(db, o)[y].id)
    requires m < |History(db, o)| ==> !HasId(applied, History(db, o)[m].id)
    ensures Of(applied, o) == History(db, o)[..m]
  {
    var h, l := History(db, o), |Of(applied, o)|;
    assert IsPrefix(Of(applied, o), h);
    if l > m {
      PrefixApplied(db, applied, o, m);
    } else if l < m {
      var k :| 0 <= k < |applied| && applied[k].id == h[l].id;
      var x := AppliedInHistory(db, applied, k);
      HistoryIds(db, applied[k].order, x, o, l);
    }
  }

  lemma EarlierDone(s: State, pos: nat, i: nat, e: Envelope)
    requires PipelineInv(s) && pos <= s.floor && pos < |s.pub.stream|
    requires i in s.db.outbox && s.pub.stream[pos] == s.db.outbox[i].val && Earlier(s.db.outbox, i, e)
    ensures HasId(s.applied, e.id)
  {
    var j :| Behind(s.db.outbox, j, i) && s.db.outbox[j].val == e;
    assert StoredBefore(s.pub.stream, pos, e);
    var q :| 0 <= q < pos && s.pub.stream[q] == e;
    assert Done(s, q);
  }

  lemma StreamRow(s: State, pos: nat) returns (i: nat)
    requires PipelineInv(s) && pos < |s.pub.stream|
    ensures i in s.pub.sent && i in s.db.outbox && s.db.outbox[i].val == s.pub.stream[pos]
  {
    assert s.pub.stream[pos] in s.pub.stream && WasSent(s.db.outbox, s.pub.sent, s.pub.stream[pos]);
    i :| i in s.pub.sent && i in s.db.outbox && s.db.outbox[i].val == s.pub.stream[pos];
  }

  /** When a position still to be applied is handled, exactly the events its order
      committed before have been applied. */
  lemma DueEvent(s: State, pos: nat) returns (m: nat)
    requires PipelineInv(s) && pos <= s.floor && pos < |s.pub.stream|
    requires !HasId(s.applied, s.pub.stream[pos].id)
    ensures var e := s.pub.stream[pos];
            m < |History(s.db, e.order)| && History(s.db, e.order)[m] == e
            && Of(s.applied, e.order) == History(s.db, e.order)[..m]
  {
    var i := StreamRow(s, pos);
    m := RowInHistory(s.db, i);
    var h := History(s.db, s.db.outbox[i].order);
    forall y | 0 <= y < m ensures HasId(s.applied, h[y].id) {
      assert Earlier(s.db.outbox, i, h[y]);
      EarlierDone(s, pos, i, h[y]);
    }
    NextInLine(s.db, s.applied, s.db.outbox[i].order, m);
  }

  lemma ApplyInOrder(s: State, pos: nat)
    requires PipelineInv(s) && pos <= s.floor && pos < |s.pub.stream|
    requires s.pub.stream[pos].id !in s.tables.processed
    ensures InOrder(s.db, s.applied + [s.pub.stream[pos]])
  {
    var e := s.pub.stream[pos];
    var m := DueEvent(s, pos);
    forall o ensures IsPrefix(Of(s.applied + [e], o), History(s.db, o)) {
      assert IsPrefix(Of(s.applied, o), History(s.db, o));
      OneMore(s.applied, e, o, History(s.db, o), m);
    }
  }

  lemma OneMore(applied: seq<Envelope>, e: Envelope, o: OrderId, h: seq<Envelope>, m: nat)
    requires IsPrefix(Of(applied, o), h)
    requires e.order == o ==> m < |h| && h[m] == e && Of(applied, o) == h[..m]
    ensures IsPrefix(Of(applied + [e], o), h)
  {}

  lemma AppliedSnoc(s: State, e: Envelope, t: State)
    requires AppliedOk(s) && e.id !in s.tables.processed
    requires t.applied == s.applied + [e]
    requires t.tables == Tables(s.tables.processed + {e.id}, Project(s.tables.figures, e))
    ensures AppliedOk(t)
  {}

  lemma HandleKeepsApplied(s: State, pos: nat, fault: Fault)
    requires PipelineInv(s) && CanHappen(s, HandleAt(pos, fault))
    ensures var t := Next(s, HandleAt(pos, fault)); AppliedOk(t) && InOrder(t.db, t.applied)
  {
    var t := Next(s, HandleAt(pos, fault));
    var e := s.pub.stream[pos];
    HandleEffect(s.tables, Decoded(e), fault);
    if t.tables != s.tables {
      ApplyInOrder(s, pos);
      AppliedSnoc(s, e, t);
    }
  }

  lemma StreamVersion(s: State, pos: nat)
    requires PipelineInv(s) && pos < |s.pub.stream|
    ensures s.pub.stream[pos].version == VERSION
  {
    var i := StreamRow(s, pos);
    var _ := RowInHistory(s.db, i);
  }

  lemma ConsumerKeeps(s: State, t: State, pos: nat, acked: bool)
    requires ConsumerOk(s) && pos in s.inbox
    requires t.pub == s.pub && t.floor == s.floor && t.inbox == s.inbox - {pos}
    requires t.acks == if acked then s.acks + {pos} else s.acks
    requires s.tables.processed <= t.tables.processed
    requires acked ==> Done(t, pos)
    ensures ConsumerOk(t)
  {
    forall q | Done(s, q) ensures Done(t, q) {}
  }

  lemma HandleKeepsConsumer(s: State, pos: nat, fault: Fault)
    requires ConsumerOk(s) && CanHappen(s, HandleAt(pos, fault)) && s.pub.stream[pos].version == VERSION
    ensures ConsumerOk(Next(s, HandleAt(pos, fault)))
  {
    VerdictMeans(s.tables, Decoded(s.pub.stream[pos]), fault);
    ConsumerKeeps(s, Next(s, HandleAt(pos, fault)), pos, Handle(s.tables, Decoded(s.pub.stream[pos]), fault).1.Ack?);
  }

  lemma HandleKeeps(s: State, pos: nat, fault: Fault)
    requires PipelineInv(s) && CanHappen(s, HandleAt(pos, fault))
    ensures PipelineInv(Next(s, HandleAt(pos, fault)))
  {
    HandleKeepsApplied(s, pos, fault);
    StreamVersion(s, pos);
    HandleKeepsConsumer(s, pos, fault);
  }

  lemma CommitKeepsInOrder(db: Db, t: TxId, applied: seq<Envelope>)
    requires Orders.Inv(db) && Orders.Enabled(db, Commit(t)) && InOrder(db, applied)
    ensures InOrder(Do(db, Commit(t)), applied)
  {
    var tx := db.txs[t];
    assert TxSound(db, tx);
    forall o ensures IsPrefix(Of(applied, o), History(Do(db, Commit(t)), o)) {
      assert IsPrefix(Of(applied, o), History(db, o));
      AppendLast(db.outbox, db.nextSlot, tx.stage.slot, Rec(tx.order, tx.stage.env), o);
    }
  }

  lemma QuietStepKeepsInOrder(db: Db, a: Action, applied: seq<Envelope>)
    requires Orders.Inv(db) && Orders.Enabled(db, a) && !a.Commit? && InOrder(db, applied)
    ensures InOrder(Do(db, a), applied)
  {
    forall o ensures IsPrefix(Of(applied, o), History(Do(db, a), o)) {
      assert IsPrefix(Of(applied, o), History(db, o));
      if a.InsertOutbox? {
        BoundIsSlack(db.outbox, db.nextSlot, o);
      }
    }
  }

  lemma OrderStepKeeps(s: State, a: Action)
    requires PipelineInv(s) && CanHappen(s, OrderStep(a))
    ensures PipelineInv(Next(s, OrderStep(a)))
  {
    var t := Next(s, OrderStep(a));
    StepKeeps(s.db, a);
    if a.Commit? {
      var tx := s.db.txs[a.tx];
      assert TxSound(s.db, tx);
      CommitKeepsPub(s.db.outbox, s.pub, tx.stage.slot, Rec(tx.order, tx.stage.env));
      CommitKeepsInOrder(s.db, a.tx, s.applied);
    } else {
      QuietStepKeepsInOrder(s.db, a, s.applied);
    }
    forall q | Done(s, q) ensures Done(t, q) {}
  }

  lemma PubStepKeepsPipeline(s: State, p: PubAction)
    requires PipelineInv(s) && CanHappen(s, PubStep(p))
    ensures PipelineInv(Next(s, PubStep(p)))
  {
    var t := Next(s, PubStep(p));
    PubStepKeeps(s.db.outbox, s.db.nextSlot, s.pub, p);
    forall q | Done(s, q) ensures Done(t, q) {}
    assert AppliedOk(t) && InOrder(t.db, t.applied);
  }

  lemma NextKeeps(s: State, ev: Event)
    requires PipelineInv(s) && CanHappen(s, ev)
    ensures PipelineInv(Next(s, ev))
  {
    match ev
    case OrderStep(a) => OrderStepKeeps(s, a);
    case PubStep(p) => PubStepKeepsPipeline(s, p);
    case HandleAt(pos, fault) => HandleKeeps(s, pos, fault);
    case _ =>
      var t := Next(s, ev);
      forall q | Done(s, q) ensures Done(t, q) {}
      assert AppliedOk(t) && InOrder(t.db, t.applied);
  }
}
