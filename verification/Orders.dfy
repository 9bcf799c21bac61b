/** The writing side of the pipeline: concurrent order transactions over the
    orders, order_events and outbox tables, one statement at a time. */
module Orders {
  import opened Options
  import opened Lifecycle
  import opened Projection

  type TxId = nat

  datatype OrderRow = OrderRow(customer: nat, status: Status, totalMinor: int, currency: string)
  datatype EventRow = EventRow(from: Option<Status>, to: Status)

  /** A row that belongs to an order; its primary key is the map's key. */
  datatype Rec<+T> = Rec(order: OrderId, val: T)

  /** How far an open transaction has come. */
  datatype Stage =
    | Locked(to: Status)
    | RowWritten
    | EventInserted(event: nat)
    | OutboxInserted(event: nat, slot: nat, env: Envelope)

  /** An open transaction; from is None while it creates its order. What it has
      written is invisible to the others until it commits. */
  datatype Tx = Tx(order: OrderId, from: Option<Status>, row: OrderRow, stage: Stage)

  /** The committed tables, the sequences (which never roll back), the ids minted
      so far, and the open transactions. */
  datatype Db = Db(
    orders: map<OrderId, OrderRow>,
    events: map<nat, Rec<EventRow>>,
    outbox: map<nat, Rec<Envelope>>,
    nextOrder: nat,
    nextEvent: nat,
    nextSlot: nat,
    minted: set<EventId>,
    txs: map<TxId, Tx>)

  const NO_DB := Db(map[], map[], map[], 0, 0, 0, {}, map[])

  datatype Action =
    | BeginCreate(tx: TxId, customer: nat, totalMinor: int, currency: string)
    | LockForUpdate(tx: TxId, order: OrderId, to: Status)
    | UpdateStatus(tx: TxId)
    | InsertEvent(tx: TxId)
    | InsertOutbox(tx: TxId, id: EventId, at: int)
    | Commit(tx: TxId)
    | Rollback(tx: TxId)

  function PayloadFor(from: Option<Status>, row: OrderRow): Payload {
    match from
    case None => OrderCreated(row.totalMinor, row.currency)
    case Some(f) => StatusChanged(f, row.status, row.totalMinor, row.currency)
  }

  /** The CHECK on an order's total and the width of its column. */
  predicate TotalFits(total: int) {
    0 <= total < 0x8000_0000_0000_0000
  }

  predicate RowFree(db: Db, o: OrderId) {
    forall t | t in db.txs :: db.txs[t].order != o
  }

  predicate Enabled(db: Db, a: Action) {
    match a
    case BeginCreate(t, _, total, _) => t !in db.txs && TotalFits(total)
    case LockForUpdate(t, o, _) => t !in db.txs && (o in db.orders ==> RowFree(db, o))
    case UpdateStatus(t) => t in db.txs && db.txs[t].stage.Locked? && db.txs[t].from.Some?
    case InsertEvent(t) => t in db.txs && db.txs[t].stage.RowWritten?
    case InsertOutbox(t, id, _) => t in db.txs && db.txs[t].stage.EventInserted? && id !in db.minted
    case Commit(t) => t in db.txs && db.txs[t].stage.OutboxInserted?
    case Rollback(t) => t in db.txs
  }

  function Abort(db: Db, t: TxId): Db {
    db.(txs := db.txs - {t})
  }

  /** One statement. A missing order, a refused transition and a compare-and-set
      that misses all end the transaction with nothing written. */
  function Do(db: Db, a: Action): Db
    requires Enabled(db, a)
  {
    match a
    case BeginCreate(t, customer, total, currency) =>
      db.(nextOrder := db.nextOrder + 1,
          txs := db.txs[t := Tx(db.nextOrder, None, OrderRow(customer, Pending, total, currency), RowWritten)])
    case LockForUpdate(t, o, to) =>
      if o !in db.orders || !CanTransition(db.orders[o].status, to) then db
      else db.(txs := db.txs[t := Tx(o, Some(db.orders[o].status), db.orders[o], Locked(to))])
    case UpdateStatus(t) =>
      var tx := db.txs[t];
      if tx.order in db.orders && db.orders[tx.order].status == tx.from.value then
        db.(txs := db.txs[t := tx.(row := db.orders[tx.order].(status := tx.stage.to), stage := RowWritten)])
      else
        Abort(db, t)
    case InsertEvent(t) =>
      db.(nextEvent := db.nextEvent + 1,
          txs := db.txs[t := db.txs[t].(stage := EventInserted(db.nextEvent))])
    case InsertOutbox(t, id, at) =>
      var tx := db.txs[t];
      var env := Envelope(id, VERSION, at, tx.order, PayloadFor(tx.from, tx.row));
      db.(nextSlot := db.nextSlot + 1,
          minted := db.minted + {id},
          txs := db.txs[t := tx.(stage := OutboxInserted(tx.stage.event, db.nextSlot, env))])
    case Commit(t) =>
      var tx := db.txs[t];
      Abort(db.(orders := db.orders[tx.order := tx.row],
                events := db.events[tx.stage.event := Rec(tx.order, EventRow(tx.from, tx.row.status))],
                outbox := db.outbox[tx.stage.slot := Rec(tx.order, tx.stage.env)]), t)
    case Rollback(t) => Abort(db, t)
  }

  /** The keys below n of order o's rows, ascending. */
  function RowIds<T>(m: map<nat, Rec<T>>, n: nat, o: OrderId): (ids: seq<nat>)
    ensures forall x | 0 <= x < |ids| :: ids[x] in m && ids[x] < n && m[ids[x]].order == o
    ensures forall x, y | 0 <= x < y < |ids| :: ids[x] < ids[y]
    ensures forall i | i in m && i < n && m[i].order == o :: i in ids
  {
    if n == 0 then []
    else if n - 1 in m && m[n - 1].order == o then RowIds(m, n - 1, o) + [n - 1]
    else RowIds(m, n - 1, o)
  }

  /** Order o's rows below n, by ascending key. */
  function ById<T>(m: map<nat, Rec<T>>, n: nat, o: OrderId): seq<T> {
    var ids := RowIds(m, n, o);
    seq(|ids|, x requires 0 <= x < |ids| => m[ids[x]].val)
  }

  /** An order's recorded events and its outbox envelopes, by primary key. */
  function Events(db: Db, o: OrderId): seq<EventRow> {
    ById(db.events, db.nextEvent, o)
  }

  function History(db: Db, o: OrderId): seq<Envelope> {
    ById(db.outbox, db.nextSlot, o)
  }

  lemma {:induction false} AppendIds<T>(m: map<nat, Rec<T>>, n: nat, i: nat, rec: Rec<T>, o: OrderId)
    requires i < n && i !in m
    requires forall j | j in m && m[j].order == rec.order :: j < i
    ensures RowIds(m[i := rec], n, o) == if o == rec.order then RowIds(m, n, o) + [i] else RowIds(m, n, o)
  {
    if i < n - 1 {
      AppendIds(m, n - 1, i, rec, o);
    } else {
      assert RowIds(m, n, o) == RowIds(m, n - 1, o);
      IdsBelow(m, m[i := rec], n - 1, o);
    }
  }

  lemma {:induction false} IdsBelow<T>(m: map<nat, Rec<T>>, m': map<nat, Rec<T>>, n: nat, o: OrderId)
    requires forall j: nat | j < n :: (j in m <==> j in m') && (j in m ==> m[j] == m'[j])
    ensures RowIds(m, n, o) == RowIds(m', n, o)
  {
    if n > 0 {
      IdsBelow(m, m', n - 1, o);
    }
  }

  /** A row whose key exceeds every key its order has comes last for that order
      and moves nothing for the others. */
  lemma AppendLast<T>(m: map<nat, Rec<T>>, n: nat, i: nat, rec: Rec<T>, o: OrderId)
    requires i < n && i !in m
    requires forall j | j in m && m[j].order == rec.order :: j < i
    ensures ById(m[i := rec], n, o) == if o == rec.order then ById(m, n, o) + [rec.val] else ById(m, n, o)
  {
    AppendIds(m, n, i, rec, o);
  }

  ghost predicate Describes(e: Envelope, o: OrderId, ev: EventRow, row: OrderRow) {
    && e.order == o
    && e.version == VERSION
    && e.payload == PayloadFor(ev.from, row.(status := ev.to))
  }

  /** The events form a path of the table from creation to the order's status, and
      the envelopes describe them one for one. */
  ghost predicate Consistent(o: OrderId, row: OrderRow, es: seq<EventRow>, hs: seq<Envelope>) {
    && |es| == |hs| > 0
    && TotalFits(row.totalMinor)
    && es[0] == EventRow(None, Pending)
    && (forall i | 1 <= i < |es| :: es[i].from == Some(es[i - 1].to) && CanTransition(es[i - 1].to, es[i].to))
    && es[|es| - 1].to == row.status
    && forall i | 0 <= i < |es| :: Describes(hs[i], o, es[i], row)
  }

  ghost predicate OrderOk(db: Db, o: OrderId) {
    if o in db.orders then Consistent(o, db.orders[o], Events(db, o), History(db, o))
    else Events(db, o) == [] && History(db, o) == []
  }

  ghost predicate FreeKey<T>(m: map<nat, Rec<T>>, next: nat, o: OrderId, i: nat) {
    && i < next
    && i !in m
    && forall j | j in m && m[j].order == o :: j < i
  }

  ghost predicate RowOk(db: Db, tx: Tx) {
    && tx.order < db.nextOrder
    && TotalFits(tx.row.totalMinor)
    && match tx.from
       case None => tx.order !in db.orders && tx.row.status == Pending && !tx.stage.Locked?
       case Some(f) =>
         && tx.order in db.orders
         && db.orders[tx.order].status == f
         && CanTransition(f, if tx.stage.Locked? then tx.stage.to else tx.row.status)
         && tx.row == db.orders[tx.order].(status := tx.row.status)
  }

  ghost predicate SlotsOk(db: Db, tx: Tx) {
    && (tx.stage.EventInserted? || tx.stage.OutboxInserted? ==>
          FreeKey(db.events, db.nextEvent, tx.order, tx.stage.event))
    && (tx.stage.OutboxInserted? ==>
          && FreeKey(db.outbox, db.nextSlot, tx.order, tx.stage.slot)
          && Describes(tx.stage.env, tx.order, EventRow(tx.from, tx.row.status), tx.row)
          && tx.stage.env.id in db.minted
          && forall i | i in db.outbox :: db.outbox[i].val.id != tx.stage.env.id)
  }

  ghost predicate TxSound(db: Db, tx: Tx) {
    RowOk(db, tx) && SlotsOk(db, tx)
  }

  /** Open transactions hold different orders, and have drawn different keys and ids. */
  ghost predicate Apart(a: Tx, b: Tx) {
    && a.order != b.order
    && (a.stage.EventInserted? || a.stage.OutboxInserted? ==>
          b.stage.EventInserted? || b.stage.OutboxInserted? ==> a.stage.event != b.stage.event)
    && (a.stage.OutboxInserted? && b.stage.OutboxInserted? ==>
          a.stage.slot != b.stage.slot && a.stage.env.id != b.stage.env.id)
  }

  ghost predicate TablesOk(db: Db) {
    && (forall o | o in db.orders :: o < db.nextOrder)
    && (forall i | i in db.events :: i < db.nextEvent)
    && (forall i | i in db.outbox :: i < db.nextSlot && db.outbox[i].val.id in db.minted)
    && (forall i, j | i in db.outbox && j in db.outbox && db.outbox[i].val.id == db.outbox[j].val.id :: i == j)
  }

  ghost predicate Inv(db: Db) {
    && TablesOk(db)
    && (forall o :: OrderOk(db, o))
    && (forall t | t in db.txs :: TxSound(db, db.txs[t]))
    && (forall t, u | t in db.txs && u in db.txs && t != u :: Apart(db.txs[t], db.txs[u]))
  }

  lemma InitInv()
    ensures Inv(NO_DB)
  {}

  ghost predicate Untouched(db: Db, next: Db) {
    && next.orders == db.orders && next.events == db.events && next.outbox == db.outbox
    && next.nextEvent == db.nextEvent && next.nextSlot == db.nextSlot && next.minted == db.minted
    && db.nextOrder <= next.nextOrder
  }

  lemma UntouchedOrder(db: Db, next: Db, o: OrderId)
    requires Untouched(db, next) && OrderOk(db, o)
    ensures OrderOk(next, o)
  {}

  lemma UntouchedTx(db: Db, next: Db, tx: Tx)
    requires Untouched(db, next) && TxSound(db, tx)
    ensures TxSound(next, tx)
  {}

  /** A step that writes no table and concerns at most transaction t. */
  lemma OwnStepKeeps(db: Db, next: Db, t: TxId)
    requires Inv(db) && Untouched(db, next)
    requires forall u | u in next.txs && u != t :: u in db.txs && next.txs[u] == db.txs[u]
    requires t in next.txs ==> TxSound(next, next.txs[t])
    requires t in next.txs ==> forall u | u in next.txs && u != t ::
               Apart(next.txs[t], next.txs[u]) && Apart(next.txs[u], next.txs[t])
    ensures Inv(next)
  {
    forall o ensures OrderOk(next, o) {
      UntouchedOrder(db, next, o);
    }
    forall u | u in next.txs ensures TxSound(next, next.txs[u]) {
      if u != t {
        UntouchedTx(db, next, next.txs[u]);
      }
    }
  }

  lemma AbortKeeps(db: Db, t: TxId)
    requires Inv(db)
    ensures Inv(Abort(db, t))
  {
    OwnStepKeeps(db, Abort(db, t), t);
  }

  lemma BeginCreateKeeps(db: Db, a: Action)
    requires Inv(db) && Enabled(db, a) && a.BeginCreate?
    ensures Inv(Do(db, a))
  {
    var next := Do(db, a);
    forall u | u in db.txs ensures Apart(next.txs[a.tx], db.txs[u]) && Apart(db.txs[u], next.txs[a.tx]) {
      assert TxSound(db, db.txs[u]);
    }
    OwnStepKeeps(db, next, a.tx);
  }

  /** What the lock shows is what the table allows, so the new transaction is in
      order; a transaction already open holds another row. */
  lemma LockKeeps(db: Db, a: Action)
    requires Inv(db) && Enabled(db, a) && a.LockForUpdate?
    ensures Inv(Do(db, a))
  {
    var next := Do(db, a);
    if a.tx in next.txs {
      LockedSound(db, a);
    }
    OwnStepKeeps(db, next, a.tx);
  }

  lemma LockedSound(db: Db, a: Action)
    requires Inv(db) && Enabled(db, a) && a.LockForUpdate? && a.tx in Do(db, a).txs
    ensures TxSound(Do(db, a), Do(db, a).txs[a.tx])
  {
    assert OrderOk(db, a.order);
  }

  /** The compare-and-set repeats a check that the row lock already guarantees. */
  lemma CompareAndSetHits(db: Db, t: TxId)
    requires Inv(db) && Enabled(db, UpdateStatus(t))
    ensures db.txs[t].order in db.orders && db.orders[db.txs[t].order].status == db.txs[t].from.value
    ensures t in Do(db, UpdateStatus(t)).txs
  {}

  lemma UpdateStatusKeeps(db: Db, a: Action)
    requires Inv(db) && Enabled(db, a) && a.UpdateStatus?
    ensures Inv(Do(db, a))
  {
    CompareAndSetHits(db, a.tx);
    UpdatedSound(db, a);
    OwnStepKeeps(db, Do(db, a), a.tx);
  }

  lemma UpdatedSound(db: Db, a: Action)
    requires Inv(db) && Enabled(db, a) && a.UpdateStatus? && a.tx in Do(db, a).txs
    ensures var next := Do(db, a);
            && TxSound(next, next.txs[a.tx])
            && forall u | u in next.txs && u != a.tx ::
                 Apart(next.txs[a.tx], next.txs[u]) && Apart(next.txs[u], next.txs[a.tx])
  {
    assert TxSound(db, db.txs[a.tx]);
    forall u | u in db.txs && u != a.tx ensures Apart(db.txs[a.tx], db.txs[u]) && Apart(db.txs[u], db.txs[a.tx]) {}
  }

  lemma BoundIsSlack<T>(m: map<nat, Rec<T>>, n: nat, o: OrderId)
    requires n !in m
    ensures ById(m, n + 1, o) == ById(m, n, o)
  {}

  /** The sequences only bound the keys, so drawing one moves no order's history. */
  lemma DrawKeepsOrders(db: Db, next: Db, o: OrderId)
    requires TablesOk(db) && OrderOk(db, o)
    requires next.orders == db.orders && next.events == db.events && next.outbox == db.outbox
    requires db.nextEvent <= next.nextEvent <= db.nextEvent + 1
    requires db.nextSlot <= next.nextSlot <= db.nextSlot + 1
    ensures OrderOk(next, o)
  {
    BoundIsSlack(db.events, db.nextEvent, o);
    BoundIsSlack(db.outbox, db.nextSlot, o);
  }

  lemma InsertEventTxs(db: Db, a: Action, u: TxId)
    requires Inv(db) && Enabled(db, a) && a.InsertEvent? && u in db.txs
    ensures var next := Do(db, a); TxSound(next, next.txs[u])
  {}

  lemma InsertEventKeeps(db: Db, a: Action)
    requires Inv(db) && Enabled(db, a) && a.InsertEvent?
    ensures Inv(Do(db, a))
  {
    var next := Do(db, a);
    forall o ensures OrderOk(next, o) {
      assert OrderOk(db, o);
      DrawKeepsOrders(db, next, o);
    }
    forall u | u in next.txs ensures TxSound(next, next.txs[u]) {
      InsertEventTxs(db, a, u);
    }
    forall t, u | t in next.txs && u in next.txs && t != u ensures Apart(next.txs[t], next.txs[u]) {
      assert Apart(db.txs[t], db.txs[u]) && TxSound(db, db.txs[t]) && TxSound(db, db.txs[u]);
    }
  }

  lemma InsertOutboxTxs(db: Db, a: Action, u: TxId)
    requires Inv(db) && Enabled(db, a) && a.InsertOutbox? && u in db.txs
    ensures var next := Do(db, a); TxSound(next, next.txs[u])
  {}

  lemma InsertOutboxKeeps(db: Db, a: Action)
    requires Inv(db) && Enabled(db, a) && a.InsertOutbox?
    ensures Inv(Do(db, a))
  {
    var next := Do(db, a);
    forall o ensures OrderOk(next, o) {
      assert OrderOk(db, o);
      DrawKeepsOrders(db, next, o);
    }
    forall u | u in next.txs ensures TxSound(next, next.txs[u]) {
      InsertOutboxTxs(db, a, u);
    }
    forall t, u | t in next.txs && u in next.txs && t != u ensures Apart(next.txs[t], next.txs[u]) {
      assert Apart(db.txs[t], db.txs[u]) && TxSound(db, db.txs[t]) && TxSound(db, db.txs[u]);
    }
    assert TablesOk(next);
  }

  lemma ConsistentSnoc(o: OrderId, row: OrderRow, es: seq<EventRow>, hs: seq<Envelope>, to: Status, e: Envelope)
    requires Consistent(o, row, es, hs) && CanTransition(row.status, to)
    requires Describes(e, o, EventRow(Some(row.status), to), row.(status := to))
    ensures Consistent(o, row.(status := to), es + [EventRow(Some(row.status), to)], hs + [e])
  {}

  /** A commit seen from one order: its own event and envelope go last, and every
      other order's sequences stay as they were. */
  lemma CommitSequences(db: Db, t: TxId, o: OrderId)
    requires Inv(db) && Enabled(db, Commit(t))
    ensures var tx, next := db.txs[t], Do(db, Commit(t));
            && Events(next, o)
               == (if o == tx.order then Events(db, o) + [EventRow(tx.from, tx.row.status)] else Events(db, o))
            && History(next, o) == (if o == tx.order then History(db, o) + [tx.stage.env] else History(db, o))
            && Describes(tx.stage.env, tx.order, EventRow(tx.from, tx.row.status), tx.row)
  {
    var tx := db.txs[t];
    assert TxSound(db, tx);
    AppendLast(db.events, db.nextEvent, tx.stage.event, Rec(tx.order, EventRow(tx.from, tx.row.status)), o);
    AppendLast(db.outbox, db.nextSlot, tx.stage.slot, Rec(tx.order, tx.stage.env), o);
  }

  lemma ConsistentFirst(o: OrderId, row: OrderRow, e: Envelope)
    requires TotalFits(row.totalMinor) && row.status == Pending
    requires Describes(e, o, EventRow(None, Pending), row)
    ensures Consistent(o, row, [EventRow(None, Pending)], [e])
  {}

  lemma CommitCreated(db: Db, t: TxId)
    requires Inv(db) && Enabled(db, Commit(t)) && db.txs[t].from.None?
    ensures OrderOk(Do(db, Commit(t)), db.txs[t].order)
  {
    var tx := db.txs[t];
    CommitSequences(db, t, tx.order);
    assert OrderOk(db, tx.order) && TxSound(db, tx);
    ConsistentFirst(tx.order, tx.row, tx.stage.env);
  }

  lemma CommitMoved(db: Db, t: TxId)
    requires Inv(db) && Enabled(db, Commit(t)) && db.txs[t].from.Some?
    ensures OrderOk(Do(db, Commit(t)), db.txs[t].order)
  {
    var tx := db.txs[t];
    var o := tx.order;
    CommitSequences(db, t, o);
    assert OrderOk(db, o) && TxSound(db, tx);
    ConsistentSnoc(o, db.orders[o], Events(db, o), History(db, o), tx.row.status, tx.stage.env);
  }

  lemma CommitOther(db: Db, t: TxId, o: OrderId)
    requires Inv(db) && Enabled(db, Commit(t)) && o != db.txs[t].order
    ensures OrderOk(Do(db, Commit(t)), o)
  {
    CommitSequences(db, t, o);
    assert OrderOk(db, o);
  }

  lemma CommitOrder(db: Db, t: TxId, o: OrderId)
    requires Inv(db) && Enabled(db, Commit(t))
    ensures OrderOk(Do(db, Commit(t)), o)
  {
    if o != db.txs[t].order {
      CommitOther(db, t, o);
    } else if db.txs[t].from.Some? {
      CommitMoved(db, t);
    } else {
      CommitCreated(db, t);
    }
  }

  lemma CommitRows(db: Db, t: TxId, u: TxId)
    requires Inv(db) && Enabled(db, Commit(t)) && u in db.txs && u != t
    ensures RowOk(Do(db, Commit(t)), db.txs[u])
  {
    assert TxSound(db, db.txs[u]) && Apart(db.txs[t], db.txs[u]);
  }

  lemma CommitSlots(db: Db, t: TxId, u: TxId)
    requires Inv(db) && Enabled(db, Commit(t)) && u in db.txs && u != t
    ensures SlotsOk(Do(db, Commit(t)), db.txs[u])
  {
    assert TxSound(db, db.txs[u]) && TxSound(db, db.txs[t]) && Apart(db.txs[t], db.txs[u]);
  }

  lemma CommitTables(db: Db, t: TxId)
    requires Inv(db) && Enabled(db, Commit(t))
    ensures TablesOk(Do(db, Commit(t)))
  {
    assert TxSound(db, db.txs[t]);
  }

  lemma CommitKeeps(db: Db, t: TxId)
    requires Inv(db) && Enabled(db, Commit(t))
    ensures Inv(Do(db, Commit(t)))
  {
    var next := Do(db, Commit(t));
    CommitTables(db, t);
    forall o ensures OrderOk(next, o) {
      CommitOrder(db, t, o);
    }
    forall u | u in next.txs ensures TxSound(next, next.txs[u]) {
      CommitRows(db, t, u);
      CommitSlots(db, t, u);
    }
    forall u, v | u in next.txs && v in next.txs && u != v ensures Apart(next.txs[u], next.txs[v]) {
      assert Apart(db.txs[u], db.txs[v]);
    }
  }

  lemma StepKeeps(db: Db, a: Action)
    requires Inv(db) && Enabled(db, a)
    ensures Inv(Do(db, a))
  {
    match a
    case BeginCreate(_, _, _, _) => BeginCreateKeeps(db, a);
    case LockForUpdate(_, _, _) => LockKeeps(db, a);
    case UpdateStatus(_) => UpdateStatusKeeps(db, a);
    case InsertEvent(_) => InsertEventKeeps(db, a);
    case InsertOutbox(_, _, _) => InsertOutboxKeeps(db, a);
    case Commit(t) => CommitKeeps(db, t);
    case Rollback(t) => AbortKeeps(db, t);
  }

  /** The database after some interleaving of statements from the empty one; None
      when one of them was not possible. */
  function After(actions: seq<Action>): Option<Db> {
    if actions == [] then Some(NO_DB)
    else
      var n := |actions| - 1;
      match After(actions[..n])
      case None => None
      case Some(db) => if Enabled(db, actions[n]) then Some(Do(db, actions[n])) else None
  }

  ghost predicate Reachable(db: Db) {
    exists actions :: After(actions) == Some(db)
  }

  lemma {:induction false} AfterInv(actions: seq<Action>)
    ensures After(actions).Some? ==> Inv(After(actions).value)
  {
    if actions == [] {
      InitInv();
    } else if After(actions).Some? {
      var n := |actions| - 1;
      AfterInv(actions[..n]);
      StepKeeps(After(actions[..n]).value, actions[n]);
    }
  }

  /** The statuses an order's events record, in key order. */
  function Recorded(db: Db, o: OrderId): seq<Status> {
    var es := Events(db, o);
    seq(|es|, i requires 0 <= i < |es| => es[i].to)
  }

  /** History consistency: after any interleaving of any transactions, each order's
      events in key order are a path of the table that starts with its creation,
      each continuing where the one before ended and the last being the status
      column; and the outbox holds exactly one envelope per event, in the same
      order, describing it. */
  lemma HistoryConsistent(db: Db, o: OrderId)
    requires Reachable(db)
    ensures o in db.orders ==>
              && Consistent(o, db.orders[o], Events(db, o), History(db, o))
              && Path(Recorded(db, o))
    ensures o !in db.orders ==> Events(db, o) == [] && History(db, o) == []
  {
    var actions :| After(actions) == Some(db);
    AfterInv(actions);
    assert OrderOk(db, o);
    if o in db.orders {
      var es, st := Events(db, o), Recorded(db, o);
      forall i | 1 <= i < |st| ensures CanTransition(st[i - 1], st[i]) {
        assert CanTransition(es[i - 1].to, es[i].to);
      }
    }
  }

  /** No order is ever paid twice, refunded twice, refunded unpaid, or moved after
      it was cancelled or refunded, and none has more than six events. */
  lemma OrderLifetime(db: Db, o: OrderId, i: nat, j: nat)
    requires Reachable(db) && o in db.orders && i < j < |Events(db, o)|
    ensures |Events(db, o)| <= 6
    ensures Recorded(db, o)[i] != Recorded(db, o)[j]
    ensures Recorded(db, o)[j] == Refunded ==> Recorded(db, o)[1] == Paid
    ensures Recorded(db, o)[i] !in {Cancelled, Refunded}
  {
    HistoryConsistent(db, o);
    LifecycleBounded(Recorded(db, o));
    PaidFirst(Recorded(db, o), j);
    Absorbing(Recorded(db, o), i);
  }

  /** In every interleaving an order's recorded statuses are the fulfilment steps up to
      where it is, with at most a cancellation or a refund behind them: a delivered
      order was paid, packed and shipped, in that order and nothing else before. */
  lemma FulfilledStepByStep(db: Db, o: OrderId, i: nat)
    requires Reachable(db) && o in db.orders && i < |Events(db, o)|
    ensures StepByStep(Recorded(db, o))
    ensures var st := Recorded(db, o);
            && (st[i] == Delivered ==> st[..i + 1] == [Pending, Paid, Packed, Shipped, Delivered])
            && (st[i] == Shipped ==> st[..i + 1] == [Pending, Paid, Packed, Shipped])
            && (st[i] == Packed ==> st[..i + 1] == [Pending, Paid, Packed])
            && (st[i] == Paid ==> st[..i + 1] == [Pending, Paid])
  {
    HistoryConsistent(db, o);
    PathsAreStepByStep(Recorded(db, o));
    ReachedInOrder(Recorded(db, o), i);
  }

  /** Among one order's rows, key order is commit order: a commit appends its event
      and its envelope at the end of its order's sequences and touches no other's,
      although keys were drawn earlier and other orders may commit out of order. */
  lemma CommitAppends(db: Db, t: TxId, o: OrderId)
    requires Reachable(db) && Enabled(db, Commit(t))
    ensures var tx, next := db.txs[t], Do(db, Commit(t));
            && Events(next, o)
               == (if o == tx.order then Events(db, o) + [EventRow(tx.from, tx.row.status)] else Events(db, o))
            && History(next, o) == (if o == tx.order then History(db, o) + [tx.stage.env] else History(db, o))
            && Describes(tx.stage.env, tx.order, EventRow(tx.from, tx.row.status), tx.row)
  {
    var actions :| After(actions) == Some(db);
    AfterInv(actions);
    CommitSequences(db, t, o);
  }

  lemma ReachableStep(db: Db, a: Action)
    requires Reachable(db) && Enabled(db, a)
    ensures Reachable(Do(db, a))
  {
    var actions :| After(actions) == Some(db);
    assert (actions + [a])[..|actions|] == actions;
    assert After(actions + [a]) == Some(Do(db, a));
  }

  /** Some outbox insert of the run gave the envelope its id and its instant. */
  ghost predicate Dated(actions: seq<Action>, e: Envelope) {
    exists j | 0 <= j < |actions| ::
      actions[j].InsertOutbox? && actions[j].id == e.id && actions[j].at == e.occurredAt
  }

  ghost predicate AllDated(actions: seq<Action>, db: Db) {
    && (forall i | i in db.outbox :: Dated(actions, db.outbox[i].val))
    && (forall t | t in db.txs && db.txs[t].stage.OutboxInserted? :: Dated(actions, db.txs[t].stage.env))
  }

  lemma StillDated(actions: seq<Action>, a: Action, e: Envelope)
    requires Dated(actions, e)
    ensures Dated(actions + [a], e)
  {
    var j :| 0 <= j < |actions| && actions[j].InsertOutbox? && actions[j].id == e.id && actions[j].at == e.occurredAt;
    assert (actions + [a])[j] == actions[j];
  }

  lemma DatedStep(actions: seq<Action>, db: Db, a: Action)
    requires AllDated(actions, db) && Enabled(db, a)
    ensures AllDated(actions + [a], Do(db, a))
  {
    var next := Do(db, a);
    forall e | Dated(actions, e) ensures Dated(actions + [a], e) {
      StillDated(actions, a, e);
    }
    if a.InsertOutbox? {
      assert (actions + [a])[|actions|] == a;
      assert Dated(actions + [a], next.txs[a.tx].stage.env);
    }
  }

  /** What an envelope says of its time is what the transaction that wrote it said. */
  lemma {:induction false} RowsAreDated(actions: seq<Action>)
    ensures After(actions).Some? ==> AllDated(actions, After(actions).value)
  {
    if actions != [] && After(actions).Some? {
      var n := |actions| - 1;
      RowsAreDated(actions[..n]);
      DatedStep(actions[..n], After(actions[..n]).value, actions[n]);
      assert actions == actions[..n] + [actions[n]];
    }
  }

  /** Two creations under way, each with its envelope inserted. */
  lemma TwoInFlight() returns (db: Db)
    ensures Reachable(db) && db.outbox == map[]
    ensures 0 in db.txs && db.txs[0].stage.OutboxInserted? && db.txs[0].stage.slot == 0
    ensures 1 in db.txs && db.txs[1].stage.OutboxInserted? && db.txs[1].stage.slot == 1
  {
    db := NO_DB;
    assert After([]) == Some(db);
    var first, second := BeginCreate(0, 0, 0, "EUR"), BeginCreate(1, 0, 0, "EUR");
    ReachableStep(db, first); db := Do(db, first);
    ReachableStep(db, InsertEvent(0)); db := Do(db, InsertEvent(0));
    ReachableStep(db, InsertOutbox(0, 0, 0)); db := Do(db, InsertOutbox(0, 0, 0));
    ReachableStep(db, second); db := Do(db, second);
    ReachableStep(db, InsertEvent(1)); db := Do(db, InsertEvent(1));
    ReachableStep(db, InsertOutbox(1, 1, 0)); db := Do(db, InsertOutbox(1, 1, 0));
  }

  /** Across orders it is not: a row can become visible while one with a smaller key
      is still to be committed, so reading by key is not reading in commit order. */
  lemma IdOrderIsNotCommitOrder() returns (db: Db)
    ensures Reachable(db) && 1 in db.outbox && 0 !in db.outbox
    ensures Enabled(db, Commit(0)) && 0 in Do(db, Commit(0)).outbox
  {
    var before := TwoInFlight();
    ReachableStep(before, Commit(1));
    db := Do(before, Commit(1));
  }
}
