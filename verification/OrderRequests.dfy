/** What one request to the order service does: the answer it gets and the tables it
    leaves, wherever the store fails, and how requests served one after another are
    runs of the machine of order transactions. */
module OrderRequests {
  import opened Options
  import opened Lifecycle
  import opened Projection
  import opened Orders
  import opened OrderItems
  import opened OrderNumbers

  /** CatalogIdNotNumeric is the one refusal of a build that no error the handlers
      know stands for. */
  datatype Refusal =
    | OrderNotFound
    | InvalidTransition
    | CustomerNotFound
    | BadRequest(error: BuildError)
    | CatalogIdNotNumeric(productId: string)
    | CatalogError
    | StoreError

  datatype Result = Done(order: OrderId) | Refuse(refusal: Refusal)

  /** How far the store gets before it fails: an insert that fails may or may not have
      drawn its key, which are the faults after and before it. CommitLost is a commit
      that took effect but whose answer never arrived. */
  datatype Fault = NoFault | BeginFails | BeforeRow | BeforeEvent | BeforeOutbox | BeforeCommit | CommitLost

  /** The tables of the service; Db are those the machine of transactions has too. */
  datatype Shop = Shop(
    db: Db,
    items: map<OrderId, seq<Item>>,
    numbers: map<OrderId, string>,
    nextNumber: nat,
    customers: set<nat>)

  predicate Idle(db: Db) {
    db.txs == map[]
  }

  ghost predicate SameRows(a: Shop, b: Shop) {
    && a.db.orders == b.db.orders && a.db.events == b.db.events && a.db.outbox == b.db.outbox
    && a.items == b.items && a.numbers == b.numbers
  }

  /** Event, envelope and commit, in the machine's own steps. */
  function WriteOut(db: Db, t: TxId, id: EventId, at: int): Db
    requires t in db.txs && db.txs[t].stage.RowWritten? && id !in db.minted
  {
    Do(Do(Do(db, InsertEvent(t)), InsertOutbox(t, id, at)), Commit(t))
  }

  /** The envelope a transition writes. */
  function MovedEnvelope(row: OrderRow, o: OrderId, to: Status, id: EventId, at: int): Envelope {
    Envelope(id, VERSION, at, o, StatusChanged(row.status, to, row.totalMinor, row.currency))
  }

  /** What a lone transition changes: one row's status, one event, one envelope. */
  function Transitioned(db: Db, o: OrderId, to: Status, id: EventId, at: int): Db
    requires o in db.orders
  {
    var row := db.orders[o];
    db.(orders := db.orders[o := row.(status := to)],
        events := db.events[db.nextEvent := Rec(o, EventRow(Some(row.status), to))],
        outbox := db.outbox[db.nextSlot := Rec(o, MovedEnvelope(row, o, to, id, at))],
        nextEvent := db.nextEvent + 1, nextSlot := db.nextSlot + 1, minted := db.minted + {id})
  }

  /** What a lone creation adds: one pending order, one event, one envelope. */
  function Created(db: Db, customer: nat, total: int, currency: string, id: EventId, at: int): Db {
    var o := db.nextOrder;
    db.(orders := db.orders[o := OrderRow(customer, Pending, total, currency)],
        events := db.events[db.nextEvent := Rec(o, EventRow(None, Pending))],
        outbox := db.outbox[db.nextSlot := Rec(o, CreatedEnvelope(o, total, currency, id, at))],
        nextOrder := db.nextOrder + 1, nextEvent := db.nextEvent + 1, nextSlot := db.nextSlot + 1,
        minted := db.minted + {id})
  }

  /** The same in the machine's own steps, from the row lock to the commit. */
  function TransitionSteps(db: Db, o: OrderId, to: Status, id: EventId, at: int): Db
    requires Idle(db) && o in db.orders && CanTransition(db.orders[o].status, to) && id !in db.minted
  {
    var locked := Do(db, LockForUpdate(0, o, to));
    WriteOut(Do(locked, UpdateStatus(0)), 0, id, at)
  }

  function CreationSteps(db: Db, customer: nat, total: int, currency: string, id: EventId, at: int): Db
    requires Idle(db) && TotalFits(total) && id !in db.minted
  {
    WriteOut(Do(db, BeginCreate(0, customer, total, currency)), 0, id, at)
  }

  lemma TransitionedIsRun(db: Db, o: OrderId, to: Status, id: EventId, at: int)
    requires Idle(db) && o in db.orders && CanTransition(db.orders[o].status, to) && id !in db.minted
    ensures TransitionSteps(db, o, to, id, at) == Transitioned(db, o, to, id, at)
  {}

  lemma CreatedIsRun(db: Db, customer: nat, total: int, currency: string, id: EventId, at: int)
    requires Idle(db) && TotalFits(total) && id !in db.minted
    ensures CreationSteps(db, customer, total, currency, id, at) == Created(db, customer, total, currency, id, at)
  {}

  /** The keys a transaction has drawn when it is rolled back at a fault. */
  function Undone(db: Db, id: EventId, fault: Fault): Db {
    match fault
    case BeforeOutbox => db.(nextEvent := db.nextEvent + 1)
    case BeforeCommit => db.(nextEvent := db.nextEvent + 1, nextSlot := db.nextSlot + 1, minted := db.minted + {id})
    case _ => db
  }

  predicate Commits(fault: Fault) {
    fault.NoFault? || fault.CommitLost?
  }

  /** A transition: lock, check, compare-and-set, event, envelope, commit. */
  function MoveOrder(s: Shop, o: OrderId, to: Status, id: EventId, at: int, fault: Fault): (Shop, Result) {
    if fault.BeginFails? then (s, Refuse(StoreError))
    else if o !in s.db.orders then (s, Refuse(OrderNotFound))
    else if !CanTransition(s.db.orders[o].status, to) then (s, Refuse(InvalidTransition))
    else if !Commits(fault) then (s.(db := Undone(s.db, id, fault)), Refuse(StoreError))
    else (s.(db := Transitioned(s.db, o, to, id, at)), if fault.CommitLost? then Refuse(StoreError) else Done(o))
  }

  /** What a CHAR(3) column makes of a code: shorter ones are padded, longer ones cut if
      only spaces go, and refused otherwise. */
  function Char3(code: string): (stored: Option<string>)
    ensures stored.Some? ==> |stored.value| == 3
    ensures |code| == 3 ==> stored == Some(code)
  {
    if |code| == 3 then Some(code)
    else if |code| < 3 then Some(code + seq(3 - |code|, _ => ' '))
    else if forall i | 3 <= i < |code| :: code[i] == ' ' then Some(code[..3])
    else None
  }

  /** The constraints on an item row. */
  predicate ItemFits(item: Item) {
    && item.unitPriceMinor >= 0 && 0 < item.quantity < 0x8000_0000 && item.lineTotalMinor >= 0
    && Char3(item.currency).Some?
  }

  predicate AllFit(items: seq<Item>) {
    forall i | 0 <= i < |items| :: ItemFits(items[i])
  }

  function StoredItems(items: seq<Item>): seq<Item>
    requires AllFit(items)
  {
    seq(|items|, i requires 0 <= i < |items| => items[i].(currency := Char3(items[i].currency).value))
  }

  /** Order, items, event and envelope of a creation whose number has been drawn. */
  function InsertWhole(s: Shop, customer: nat, lines: seq<Item>, total: int, currency: string,
                       id: EventId, at: int, number: string, fault: Fault): (Shop, Result)
  {
    var o := s.db.nextOrder;
    var drawn := s.(db := s.db.(nextOrder := o + 1));
    if Char3(currency).None? || !TotalFits(total) then (drawn, Refuse(StoreError))
    else if customer !in s.customers then (drawn, Refuse(CustomerNotFound))
    else if !AllFit(lines) then (drawn, Refuse(StoreError))
    else if !Commits(fault) then (drawn.(db := Undone(drawn.db, id, fault)), Refuse(StoreError))
    else
      (s.(db := Created(s.db, customer, total, Char3(currency).value, id, at),
          items := s.items[o := StoredItems(lines)],
          numbers := s.numbers[o := number]),
       if fault.CommitLost? then Refuse(StoreError) else Done(o))
  }

  /** The transaction of a creation, from its number to its commit. */
  function WriteOrder(s: Shop, customer: nat, lines: seq<Item>, total: int, currency: string,
                      id: EventId, at: int, year: nat, fault: Fault): (Shop, Result)
  {
    var numbered := s.(nextNumber := s.nextNumber + 1);
    if fault.BeginFails? then (s, Refuse(StoreError))
    else if fault.BeforeRow? then (numbered, Refuse(StoreError))
    else InsertWhole(numbered, customer, lines, total, currency, id, at, FormatOrderNumber(year, s.nextNumber), fault)
  }

  function BuildRefusal(error: BuildError): Refusal {
    match error
    case NotNumeric(productId) => CatalogIdNotNumeric(productId)
    case _ => BadRequest(error)
  }

  /** Validate and resolve before any transaction is opened. Resolved is the catalog's
      answer, None when the call failed. */
  function CreateOrder(s: Shop, customer: nat, lines: seq<Line>, resolved: Option<seq<Product>>,
                       id: EventId, at: int, year: nat, fault: Fault): (Shop, Result)
  {
    if ShapeError(lines).Some? then (s, Refuse(BadRequest(ShapeError(lines).value)))
    else if resolved.None? then (s, Refuse(CatalogError))
    else
      match Build(Lookup(resolved.value), lines)
      case Refused(error) => (s, Refuse(BuildRefusal(error)))
      case Built(items, currency, total) => WriteOrder(s, customer, items, total, currency, id, at, year, fault)
  }

  /** A request that passes validation, resolution and the tables' constraints. */
  predicate Creatable(lines: seq<Line>, resolved: Option<seq<Product>>) {
    && lines != []
    && (forall i | 0 <= i < |lines| :: lines[i].quantity > 0)
    && resolved.Some?
    && var b := Build(Lookup(resolved.value), lines);
       b.Built? && TotalFits(b.totalMinor) && Char3(b.currency).Some? && AllFit(b.items)
  }

  /** A transition changes one status and adds one event and one envelope, or nothing;
      it answers success exactly when allowed and nothing fails, and a refusal that
      wrote everything is one whose commit was lost. */
  lemma MoveAllOrNothing(s: Shop, o: OrderId, to: Status, id: EventId, at: int, fault: Fault)
    ensures var (next, result) := MoveOrder(s, o, to, id, at, fault);
            var allowed := o in s.db.orders && CanTransition(s.db.orders[o].status, to);
            && (result.Done? <==> allowed && fault.NoFault?)
            && (if allowed && Commits(fault) then next == s.(db := Transitioned(s.db, o, to, id, at))
                else SameRows(next, s))
            && (result.Refuse? && result.refusal != StoreError ==> next == s)
            && (result == Refuse(OrderNotFound) <==> o !in s.db.orders && !fault.BeginFails?)
            && (result == Refuse(InvalidTransition) <==> o in s.db.orders && !allowed && !fault.BeginFails?)
            && (result.Refuse? ==> result.refusal in {OrderNotFound, InvalidTransition, StoreError})
  {}

  /** What a transition writes: the status of its order, and an envelope that says from
      where to where, with the order's own money, at the instant of the update. */
  lemma MoveWrites(s: Shop, o: OrderId, to: Status, id: EventId, at: int, fault: Fault)
    requires o in s.db.orders && CanTransition(s.db.orders[o].status, to) && Commits(fault)
    ensures var next, row := MoveOrder(s, o, to, id, at, fault).0, s.db.orders[o];
            && next.db.orders == s.db.orders[o := OrderRow(row.customer, to, row.totalMinor, row.currency)]
            && next.db.events == s.db.events[s.db.nextEvent := Rec(o, EventRow(Some(row.status), to))]
            && next.db.outbox == s.db.outbox[s.db.nextSlot :=
                 Rec(o, Envelope(id, 1, at, o, StatusChanged(row.status, to, row.totalMinor, row.currency)))]
            && next.items == s.items && next.numbers == s.numbers
  {}

  lemma WriteAllOrNothing(s: Shop, customer: nat, lines: seq<Item>, total: int, currency: string,
                          id: EventId, at: int, year: nat, fault: Fault)
    ensures var (next, result) := WriteOrder(s, customer, lines, total, currency, id, at, year, fault);
            var allowed := TotalFits(total) && Char3(currency).Some? && AllFit(lines) && customer in s.customers;
            && (result.Done? <==> allowed && fault.NoFault?)
            && (!allowed || !Commits(fault) ==> SameRows(next, s))
            && (allowed && Commits(fault) ==>
                  && next.db == Created(s.db, customer, total, Char3(currency).value, id, at)
                  && next.items == s.items[s.db.nextOrder := StoredItems(lines)]
                  && next.numbers == s.numbers[s.db.nextOrder := FormatOrderNumber(year, s.nextNumber)])
  {}

  /** So does a creation write its order whole or not at all. */
  lemma CreateAllOrNothing(s: Shop, customer: nat, lines: seq<Line>, resolved: Option<seq<Product>>,
                           id: EventId, at: int, year: nat, fault: Fault)
    ensures var (next, result) := CreateOrder(s, customer, lines, resolved, id, at, year, fault);
            var allowed := Creatable(lines, resolved) && customer in s.customers;
            && (result.Done? <==> allowed && fault.NoFault?)
            && (!allowed || !Commits(fault) ==> SameRows(next, s))
            && (allowed && Commits(fault) ==>
                  var b, o := Build(Lookup(resolved.value), lines), s.db.nextOrder;
                  && next.db == Created(s.db, customer, b.totalMinor, Char3(b.currency).value, id, at)
                  && next.items == s.items[o := StoredItems(b.items)]
                  && next.numbers == s.numbers[o := FormatOrderNumber(year, s.nextNumber)])
  {
    ShapeExact(lines);
    if ShapeError(lines).None? && resolved.Some? {
      var b := Build(Lookup(resolved.value), lines);
      if b.Built? {
        WriteAllOrNothing(s, customer, b.items, b.totalMinor, b.currency, id, at, year, fault);
      }
    }
  }

  lemma ReachableRollback(db: Db, t: TxId)
    requires Reachable(db) && t in db.txs
    ensures Reachable(Abort(db, t))
  {
    ReachableStep(db, Rollback(t));
  }

  /** From a written row the machine reaches every end the faults allow. */
  lemma EndsReachable(db: Db, t: TxId, id: EventId, at: int)
    requires Reachable(db) && t in db.txs && db.txs[t].stage.RowWritten? && id !in db.minted
    ensures Reachable(WriteOut(db, t, id, at))
    ensures Reachable(Abort(db, t)) && Reachable(Abort(Do(db, InsertEvent(t)), t))
    ensures Reachable(Abort(Do(Do(db, InsertEvent(t)), InsertOutbox(t, id, at)), t))
  {
    var evented := Do(db, InsertEvent(t));
    ReachableRollback(db, t);
    ReachableStep(db, InsertEvent(t));
    ReachableRollback(evented, t);
    ReachableStep(evented, InsertOutbox(t, id, at));
    ReachableRollback(Do(evented, InsertOutbox(t, id, at)), t);
    ReachableStep(Do(evented, InsertOutbox(t, id, at)), Commit(t));
  }

  /** A rolled-back transaction leaves what it drew. */
  lemma AbortedIsUndone(db: Db, next: Db, id: EventId, at: int)
    requires Idle(db) && 0 in next.txs && next.txs[0].stage.RowWritten? && next.txs.Keys == {0} && id !in next.minted
    requires next == db.(txs := next.txs)
    ensures Abort(next, 0) == db
    ensures Abort(Do(next, InsertEvent(0)), 0) == Undone(db, id, BeforeOutbox)
    ensures Abort(Do(Do(next, InsertEvent(0)), InsertOutbox(0, id, at)), 0) == Undone(db, id, BeforeCommit)
  {
    assert next.txs - {0} == map[];
    assert Do(next, InsertEvent(0)).txs - {0} == map[];
    assert Do(Do(next, InsertEvent(0)), InsertOutbox(0, id, at)).txs - {0} == map[];
  }

  lemma TransitionEnds(db: Db, o: OrderId, to: Status, id: EventId, at: int)
    requires Reachable(db) && Idle(db) && id !in db.minted
    requires o in db.orders && CanTransition(db.orders[o].status, to)
    ensures Reachable(Transitioned(db, o, to, id, at))
    ensures Reachable(Undone(db, id, BeforeOutbox)) && Reachable(Undone(db, id, BeforeCommit))
  {
    var locked := Do(db, LockForUpdate(0, o, to));
    var updated := Do(locked, UpdateStatus(0));
    ReachableStep(db, LockForUpdate(0, o, to));
    ReachableStep(locked, UpdateStatus(0));
    TransitionedIsRun(db, o, to, id, at);
    EndsReachable(updated, 0, id, at);
    AbortedIsUndone(db, updated, id, at);
  }

  lemma CreationEnds(db: Db, customer: nat, total: int, currency: string, id: EventId, at: int)
    requires Reachable(db) && Idle(db) && id !in db.minted && TotalFits(total)
    ensures Reachable(Created(db, customer, total, currency, id, at))
    ensures var drawn := db.(nextOrder := db.nextOrder + 1);
            Reachable(drawn) && Reachable(Undone(drawn, id, BeforeOutbox)) && Reachable(Undone(drawn, id, BeforeCommit))
  {
    var begun := Do(db, BeginCreate(0, customer, total, currency));
    ReachableStep(db, BeginCreate(0, customer, total, currency));
    CreatedIsRun(db, customer, total, currency, id, at);
    EndsReachable(begun, 0, id, at);
    AbortedIsUndone(db.(nextOrder := db.nextOrder + 1), begun, id, at);
  }

  /** A row inserted under the next key comes last of its order. */
  lemma RowAdded(m: map<nat, Rec<Envelope>>, n: nat, e: Envelope, o: OrderId)
    requires forall i | i in m :: i < n
    ensures ById(m[n := Rec(e.order, e)], n + 1, o) == if o == e.order then ById(m, n, o) + [e] else ById(m, n, o)
  {
    BoundIsSlack(m, n, o);
    AppendLast(m, n + 1, n, Rec(e.order, e), o);
  }

  lemma HistoryAdded(db: Db, next: Db, e: Envelope, x: OrderId)
    requires TablesOk(db) && next.nextSlot == db.nextSlot + 1
    requires next.outbox == db.outbox[db.nextSlot := Rec(e.order, e)]
    ensures History(next, x) == if x == e.order then History(db, x) + [e] else History(db, x)
  {
    RowAdded(db.outbox, db.nextSlot, e, x);
  }

  lemma ReachableTables(db: Db)
    requires Reachable(db)
    ensures TablesOk(db)
  {
    var actions :| After(actions) == Some(db);
    AfterInv(actions);
  }

  function CreatedEnvelope(o: OrderId, total: int, currency: string, id: EventId, at: int): Envelope {
    Envelope(id, VERSION, at, o, OrderCreated(total, currency))
  }

  /** A creation begins its own order's history and leaves the others. */
  lemma CreatedHistory(db: Db, customer: nat, total: int, currency: string, id: EventId, at: int, x: OrderId)
    requires Reachable(db)
    ensures History(Created(db, customer, total, currency, id, at), x)
            == if x == db.nextOrder then [CreatedEnvelope(x, total, currency, id, at)] else History(db, x)
  {
    ReachableTables(db);
    HistoryAdded(db, Created(db, customer, total, currency, id, at),
                 CreatedEnvelope(db.nextOrder, total, currency, id, at), x);
    if x == db.nextOrder {
      HistoryConsistent(db, x);
      assert [] + [CreatedEnvelope(x, total, currency, id, at)] == [CreatedEnvelope(x, total, currency, id, at)];
    }
  }

  /** A transition continues its own order's. */
  lemma TransitionedHistory(db: Db, o: OrderId, to: Status, id: EventId, at: int, x: OrderId)
    requires Reachable(db) && o in db.orders
    ensures History(Transitioned(db, o, to, id, at), x)
            == if x == o then History(db, x) + [MovedEnvelope(db.orders[o], o, to, id, at)] else History(db, x)
  {
    ReachableTables(db);
    HistoryAdded(db, Transitioned(db, o, to, id, at), MovedEnvelope(db.orders[o], o, to, id, at), x);
  }

  /** A transition served alone, whatever its fault, is a run of the machine. */
  lemma MoveIsRun(s: Shop, o: OrderId, to: Status, id: EventId, at: int, fault: Fault)
    requires Reachable(s.db) && Idle(s.db) && id !in s.db.minted
    ensures Reachable(MoveOrder(s, o, to, id, at, fault).0.db) && Idle(MoveOrder(s, o, to, id, at, fault).0.db)
  {
    if o in s.db.orders && CanTransition(s.db.orders[o].status, to) {
      TransitionEnds(s.db, o, to, id, at);
    }
  }

  /** The ends a creation can have. */
  ghost predicate CreationEnd(db: Db, next: Db, customer: nat, total: int, currency: string, id: EventId, at: int) {
    var drawn := db.(nextOrder := db.nextOrder + 1);
    || next == db || next == drawn
    || next == Undone(drawn, id, BeforeOutbox) || next == Undone(drawn, id, BeforeCommit)
    || (TotalFits(total) && Char3(currency).Some?
        && next == Created(db, customer, total, Char3(currency).value, id, at))
  }

  lemma InsertEnds(s: Shop, customer: nat, lines: seq<Item>, total: int, currency: string,
                   id: EventId, at: int, number: string, fault: Fault)
    ensures CreationEnd(s.db, InsertWhole(s, customer, lines, total, currency, id, at, number, fault).0.db,
                        customer, total, currency, id, at)
  {}

  lemma WriteEnds(s: Shop, customer: nat, lines: seq<Item>, total: int, currency: string,
                  id: EventId, at: int, year: nat, fault: Fault)
    ensures CreationEnd(s.db, WriteOrder(s, customer, lines, total, currency, id, at, year, fault).0.db,
                        customer, total, currency, id, at)
  {
    if !fault.BeginFails? && !fault.BeforeRow? {
      var numbered, number := s.(nextNumber := s.nextNumber + 1), FormatOrderNumber(year, s.nextNumber);
      assert WriteOrder(s, customer, lines, total, currency, id, at, year, fault)
             == InsertWhole(numbered, customer, lines, total, currency, id, at, number, fault);
      InsertEnds(numbered, customer, lines, total, currency, id, at, number, fault);
    }
  }

  /** So is a creation. */
  lemma CreationIsRun(s: Shop, customer: nat, lines: seq<Item>, total: int, currency: string,
                      id: EventId, at: int, year: nat, fault: Fault)
    requires Reachable(s.db) && Idle(s.db) && id !in s.db.minted
    ensures var next := WriteOrder(s, customer, lines, total, currency, id, at, year, fault).0;
            Reachable(next.db) && Idle(next.db)
  {
    WriteEnds(s, customer, lines, total, currency, id, at, year, fault);
    CreationEnds(s.db, customer, if TotalFits(total) then total else 0,
                 if Char3(currency).Some? then Char3(currency).value else "", id, at);
  }

  datatype Request =
    | Move(o: OrderId, to: Status, id: EventId, at: int, fault: Fault)
    | Create(customer: nat, lines: seq<Line>, resolved: Option<seq<Product>>, id: EventId, at: int, year: nat,
             fault: Fault)

  function Serve(s: Shop, r: Request): (Shop, Result) {
    match r
    case Move(o, to, id, at, fault) => MoveOrder(s, o, to, id, at, fault)
    case Create(customer, lines, resolved, id, at, year, fault) =>
      CreateOrder(s, customer, lines, resolved, id, at, year, fault)
  }

  /** The tables after requests served one after another; None when an event id was
      not fresh. */
  function ServeAll(customers: set<nat>, requests: seq<Request>): Option<Shop> {
    if requests == [] then Some(Shop(NO_DB, map[], map[], 1, customers))
    else
      var n := |requests| - 1;
      match ServeAll(customers, requests[..n])
      case None => None
      case Some(s) => if requests[n].id in s.db.minted then None else Some(Serve(s, requests[n]).0)
  }

  lemma ServeIsRun(s: Shop, r: Request)
    requires Reachable(s.db) && Idle(s.db) && r.id !in s.db.minted
    ensures Reachable(Serve(s, r).0.db) && Idle(Serve(s, r).0.db)
  {
    match r
    case Move(o, to, id, at, fault) => MoveIsRun(s, o, to, id, at, fault);
    case Create(customer, lines, resolved, id, at, year, fault) =>
      if ShapeError(lines).None? && resolved.Some? {
        var b := Build(Lookup(resolved.value), lines);
        if b.Built? {
          CreationIsRun(s, customer, b.items, b.totalMinor, b.currency, id, at, year, fault);
        }
      }
  }

  /** Numbers given out so far come from the sequence, and no two are equal. */
  ghost predicate NumbersUnique(numbers: map<OrderId, string>, nextNumber: nat, nextOrder: nat) {
    && (forall o | o in numbers :: o < nextOrder && Drawn(numbers[o], nextNumber))
    && (forall a, b | a in numbers && b in numbers && numbers[a] == numbers[b] :: a == b)
  }

  ghost predicate Drawn(number: string, nextNumber: nat) {
    exists year: nat, n: nat | n < nextNumber :: number == FormatOrderNumber(year, n)
  }

  /** The next number was never given out, so the UNIQUE constraint cannot fail. */
  lemma NumberFresh(numbers: map<OrderId, string>, nextNumber: nat, nextOrder: nat, year: nat)
    requires NumbersUnique(numbers, nextNumber, nextOrder)
    ensures var number := FormatOrderNumber(year, nextNumber);
            && number !in numbers.Values
            && NumbersUnique(numbers, nextNumber + 1, nextOrder)
            && NumbersUnique(numbers, nextNumber + 1, nextOrder + 1)
            && NumbersUnique(numbers[nextOrder := number], nextNumber + 1, nextOrder + 1)
  {
    var number := FormatOrderNumber(year, nextNumber);
    forall o | o in numbers ensures numbers[o] != number && Drawn(numbers[o], nextNumber + 1) {
      var y: nat, n: nat :| n < nextNumber && numbers[o] == FormatOrderNumber(y, n);
      OrderNumbersDistinct(y, n, year, nextNumber);
    }
    assert Drawn(number, nextNumber + 1);
  }

  lemma WriteKeepsNumbers(s: Shop, customer: nat, lines: seq<Item>, total: int, currency: string,
                          id: EventId, at: int, year: nat, fault: Fault)
    requires NumbersUnique(s.numbers, s.nextNumber, s.db.nextOrder)
    ensures var next := WriteOrder(s, customer, lines, total, currency, id, at, year, fault).0;
            NumbersUnique(next.numbers, next.nextNumber, next.db.nextOrder) && next.nextNumber >= s.nextNumber
  {
    NumberFresh(s.numbers, s.nextNumber, s.db.nextOrder, year);
    NumberColumns(s, customer, lines, total, currency, id, at, year, fault);
  }

  /** Once its transaction is open a creation draws a number, and with the insert of its
      row an order id, whatever becomes of it; the number is kept only by an order. */
  lemma NumberColumns(s: Shop, customer: nat, lines: seq<Item>, total: int, currency: string,
                      id: EventId, at: int, year: nat, fault: Fault)
    ensures var next := WriteOrder(s, customer, lines, total, currency, id, at, year, fault).0;
            var n, o := s.nextNumber, s.db.nextOrder;
            && next.nextNumber == (if fault.BeginFails? then n else n + 1)
            && next.db.nextOrder == (if fault.BeginFails? || fault.BeforeRow? then o else o + 1)
            && (next.numbers == s.numbers || (next.numbers == s.numbers[o := FormatOrderNumber(year, n)]
                                              && !fault.BeginFails? && !fault.BeforeRow?))
  {}

  lemma ServeKeepsNumbers(s: Shop, r: Request)
    requires NumbersUnique(s.numbers, s.nextNumber, s.db.nextOrder)
    ensures var next := Serve(s, r).0; NumbersUnique(next.numbers, next.nextNumber, next.db.nextOrder)
    ensures Serve(s, r).0.nextNumber >= s.nextNumber
  {
    match r
    case Move(_, _, _, _, _) =>
    case Create(customer, lines, resolved, id, at, year, fault) =>
      if ShapeError(lines).None? && resolved.Some? {
        var b := Build(Lookup(resolved.value), lines);
        if b.Built? {
          WriteKeepsNumbers(s, customer, b.items, b.totalMinor, b.currency, id, at, year, fault);
        }
      }
  }

  /** Requests served one after another, accepted, refused or failing anywhere, are a
      run of the machine, so all that holds of every interleaving holds of the
      service; and no two orders ever share a number. */
  lemma {:induction false} ServedAloneIsRun(customers: set<nat>, requests: seq<Request>)
    requires ServeAll(customers, requests).Some?
    ensures var s := ServeAll(customers, requests).value;
            && Reachable(s.db) && Idle(s.db)
            && NumbersUnique(s.numbers, s.nextNumber, s.db.nextOrder) && s.nextNumber >= 1
  {
    if requests == [] {
      assert After([]) == Some(NO_DB);
    } else {
      var n := |requests| - 1;
      ServedAloneIsRun(customers, requests[..n]);
      var s := ServeAll(customers, requests[..n]).value;
      ServeIsRun(s, requests[n]);
      ServeKeepsNumbers(s, requests[n]);
    }
  }
}
