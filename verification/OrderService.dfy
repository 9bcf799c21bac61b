/** The order service as it runs one request: create, set status, cancel, refund,
    each a transaction written statement by statement and rolled back on failure. */
module OrderService {
  import opened Options
  import opened Lifecycle
  import opened Projection
  import opened Orders
  import opened OrderItems
  import opened OrderNumbers
  import opened OrderRequests
  import opened StoredOrders

  class OrderStore {
    var orders: map<OrderId, OrderRow>
    var events: map<nat, Rec<EventRow>>
    var outbox: map<nat, Rec<Envelope>>
    var items: map<OrderId, seq<Item>>
    var nextOrder: nat
    var nextEvent: nat
    var nextSlot: nat
    var minted: set<EventId>
    var numbers: map<OrderId, string>
    var nextNumber: nat
    const customers: set<nat>

    constructor (customers: set<nat>)
      ensures Some(Contents()) == ServeAll(customers, [])
    {
      orders, events, outbox, items := map[], map[], map[], map[];
      nextOrder, nextEvent, nextSlot, minted := 0, 0, 0, {};
      numbers, nextNumber := map[], 1;
      this.customers := customers;
    }

    function Tables(): Db
      reads this
    {
      Db(orders, events, outbox, nextOrder, nextEvent, nextSlot, minted, map[])
    }

    function Contents(): Shop
      reads this
    {
      Shop(Tables(), items, numbers, nextNumber, customers)
    }

    method NextOrderNumber(year: nat) returns (number: string)
      modifies this`nextNumber
      ensures number == FormatOrderNumber(year, old(nextNumber)) && nextNumber == old(nextNumber) + 1
    {
      number := FormatOrderNumber(year, nextNumber);
      nextNumber := nextNumber + 1;
    }

    /** The id is drawn from its sequence whatever becomes of the row. */
    method InsertOrder(customer: nat, total: int, currency: string, number: string) returns (result: Result)
      modifies this`orders, this`numbers, this`nextOrder
      ensures nextOrder == old(nextOrder) + 1
      ensures result == if Char3(currency).None? || !TotalFits(total) then Refuse(StoreError)
                        else if customer !in customers then Refuse(CustomerNotFound)
                        else Done(old(nextOrder))
      ensures result.Done? ==>
                && orders == old(orders)[old(nextOrder) := OrderRow(customer, Pending, total, Char3(currency).value)]
                && numbers == old(numbers)[old(nextOrder) := number]
      ensures result.Refuse? ==> orders == old(orders) && numbers == old(numbers)
    {
      var o := nextOrder;
      nextOrder := nextOrder + 1;
      if Char3(currency).None? || !TotalFits(total) {
        return Refuse(StoreError);
      }
      if customer !in customers {
        return Refuse(CustomerNotFound);
      }
      orders := orders[o := OrderRow(customer, Pending, total, Char3(currency).value)];
      numbers := numbers[o := number];
      result := Done(o);
    }

    method InsertEvent(o: OrderId, from: Option<Status>, to: Status)
      modifies this`events, this`nextEvent
      ensures events == old(events)[old(nextEvent) := Rec(o, EventRow(from, to))]
      ensures nextEvent == old(nextEvent) + 1
    {
      events := events[nextEvent := Rec(o, EventRow(from, to))];
      nextEvent := nextEvent + 1;
    }

    method InsertOutbox(o: OrderId, id: EventId, at: int, payload: Payload)
      modifies this`outbox, this`nextSlot, this`minted
      ensures outbox == old(outbox)[old(nextSlot) := Rec(o, Envelope(id, VERSION, at, o, payload))]
      ensures nextSlot == old(nextSlot) + 1 && minted == old(minted) + {id}
    {
      outbox := outbox[nextSlot := Rec(o, Envelope(id, VERSION, at, o, payload))];
      nextSlot := nextSlot + 1;
      minted := minted + {id};
    }

    /** Event, envelope and commit behind a written row; false when the store fails
        before the commit, with event and envelope rolled back. */
    method InsertRecords(o: OrderId, from: Option<Status>, to: Status, id: EventId, at: int, payload: Payload,
                         fault: Fault)
      returns (committed: bool)
      requires !fault.BeginFails? && !fault.BeforeRow?
      modifies this`events, this`outbox, this`nextEvent, this`nextSlot, this`minted
      ensures committed == Commits(fault)
      ensures committed ==>
                && events == old(events)[old(nextEvent) := Rec(o, EventRow(from, to))]
                && outbox == old(outbox)[old(nextSlot) := Rec(o, Envelope(id, VERSION, at, o, payload))]
                && nextEvent == old(nextEvent) + 1 && nextSlot == old(nextSlot) + 1 && minted == old(minted) + {id}
      ensures !committed ==>
                var undone := Undone(old(Tables()), id, fault);
                && events == old(events) && outbox == old(outbox)
                && nextEvent == undone.nextEvent && nextSlot == undone.nextSlot && minted == undone.minted
    {
      var savedEvents, savedOutbox := events, outbox;
      if fault.BeforeEvent? {
        return false;
      }
      InsertEvent(o, from, to);
      if fault.BeforeOutbox? {
        events := savedEvents;
        return false;
      }
      InsertOutbox(o, id, at, payload);
      if fault.BeforeCommit? {
        events, outbox := savedEvents, savedOutbox;
        return false;
      }
      committed := true;
    }

    /** What a permitted transition writes. */
    method WriteTransition(o: OrderId, to: Status, id: EventId, at: int, fault: Fault) returns (committed: bool)
      requires o in orders && !fault.BeginFails?
      modifies this`orders, this`events, this`outbox, this`nextEvent, this`nextSlot, this`minted
      ensures committed == Commits(fault)
      ensures Tables() == if committed then Transitioned(old(Tables()), o, to, id, at)
              else Undone(old(Tables()), id, fault)
    {
      if fault.BeforeRow? {
        return false;
      }
      var saved, from := orders, orders[o].status;
      var row := orders[o].(status := to);
      orders := orders[o := row];
      var payload := StatusChanged(from, to, row.totalMinor, row.currency);
      committed := InsertRecords(o, Some(from), to, id, at, payload, fault);
      if !committed {
        orders := saved;
      }
    }

    method Transition(o: OrderId, to: Status, id: EventId, at: int, fault: Fault) returns (result: Result)
      modifies this
      ensures (Contents(), result) == MoveOrder(old(Contents()), o, to, id, at, fault)
    {
      if fault.BeginFails? {
        return Refuse(StoreError);
      }
      if o !in orders {
        return Refuse(OrderNotFound);
      }
      if !CanTransition(orders[o].status, to) {
        return Refuse(InvalidTransition);
      }
      var committed := WriteTransition(o, to, id, at, fault);
      result := if committed && !fault.CommitLost? then Done(o) else Refuse(StoreError);
    }

    /** The generic endpoint refuses cancelled and refunded before anything else. */
    method SetStatus(o: OrderId, to: Status, id: EventId, at: int, fault: Fault) returns (result: Result)
      modifies this
      ensures to == Cancelled || to == Refunded ==>
                Contents() == old(Contents()) && result == Refuse(InvalidTransition)
      ensures to != Cancelled && to != Refunded ==>
                (Contents(), result) == MoveOrder(old(Contents()), o, to, id, at, fault)
      ensures result.Done? <==>
                && fault.NoFault? && o in old(orders)
                && (old(orders)[o].status, to) in
                     {(Pending, Paid), (Paid, Packed), (Packed, Shipped), (Shipped, Delivered)}
      ensures result.Done? ==> orders == old(orders)[o := old(orders)[o].(status := to)]
    {
      if to == Cancelled || to == Refunded {
        return Refuse(InvalidTransition);
      }
      result := Transition(o, to, id, at, fault);
    }

    method Cancel(o: OrderId, id: EventId, at: int, fault: Fault) returns (result: Result)
      modifies this
      ensures (Contents(), result) == MoveOrder(old(Contents()), o, Cancelled, id, at, fault)
      ensures result.Done? <==>
                o in old(orders) && old(orders)[o].status in {Pending, Paid, Packed} && fault.NoFault?
    {
      result := Transition(o, Cancelled, id, at, fault);
    }

    method Refund(o: OrderId, id: EventId, at: int, fault: Fault) returns (result: Result)
      modifies this
      ensures (Contents(), result) == MoveOrder(old(Contents()), o, Refunded, id, at, fault)
      ensures result.Done? <==>
                o in old(orders) && old(orders)[o].status in {Paid, Packed, Shipped, Delivered} && fault.NoFault?
    {
      result := Transition(o, Refunded, id, at, fault);
    }

    /** Items, event and envelope of an inserted order, or none of them. The money of
        the envelope is read back from the row. */
    method InsertRows(o: OrderId, lines: seq<Item>, id: EventId, at: int, fault: Fault) returns (committed: bool)
      requires o in orders && !fault.BeginFails? && !fault.BeforeRow?
      modifies this`items, this`events, this`outbox, this`nextEvent, this`nextSlot, this`minted
      ensures committed == (AllFit(lines) && Commits(fault))
      ensures committed ==>
                && items == old(items)[o := StoredItems(lines)]
                && events == old(events)[old(nextEvent) := Rec(o, EventRow(None, Pending))]
                && outbox == old(outbox)[old(nextSlot) :=
                               Rec(o, CreatedEnvelope(o, orders[o].totalMinor, orders[o].currency, id, at))]
                && nextEvent == old(nextEvent) + 1 && nextSlot == old(nextSlot) + 1 && minted == old(minted) + {id}
      ensures !committed ==>
                && items == old(items)
                && Tables() == if AllFit(lines) then Undone(old(Tables()), id, fault) else old(Tables())
    {
      if !AllFit(lines) {
        return false;
      }
      var payload := OrderCreated(orders[o].totalMinor, orders[o].currency);
      committed := InsertRecords(o, None, Pending, id, at, payload, fault);
      if committed {
        items := items[o := StoredItems(lines)];
      }
    }

    method WriteRows(customer: nat, lines: seq<Item>, total: int, currency: string,
                     id: EventId, at: int, number: string, fault: Fault)
      returns (result: Result)
      requires !fault.BeginFails? && !fault.BeforeRow?
      modifies this
      ensures (Contents(), result)
              == InsertWhole(old(Contents()), customer, lines, total, currency, id, at, number, fault)
    {
      var savedOrders, savedNumbers := orders, numbers;
      result := InsertOrder(customer, total, currency, number);
      if result.Refuse? {
        return;
      }
      var committed := InsertRows(result.order, lines, id, at, fault);
      if !committed {
        orders, numbers := savedOrders, savedNumbers;
        return Refuse(StoreError);
      }
      result := if fault.CommitLost? then Refuse(StoreError) else result;
    }

    method Write(customer: nat, lines: seq<Item>, total: int, currency: string,
                 id: EventId, at: int, year: nat, fault: Fault)
      returns (result: Result)
      modifies this
      ensures (Contents(), result) == WriteOrder(old(Contents()), customer, lines, total, currency, id, at, year, fault)
    {
      if fault.BeginFails? {
        return Refuse(StoreError);
      }
      var number := NextOrderNumber(year);
      if fault.BeforeRow? {
        return Refuse(StoreError);
      }
      result := WriteRows(customer, lines, total, currency, id, at, number, fault);
    }

    method Create(customer: nat, lines: seq<Line>, resolved: Option<seq<Product>>,
                  id: EventId, at: int, year: nat, fault: Fault)
      returns (result: Result)
      modifies this
      ensures (Contents(), result) == CreateOrder(old(Contents()), customer, lines, resolved, id, at, year, fault)
      ensures result.Done? <==> fault.NoFault? && customer in customers
                                && resolved.Some? && Takeable(Lookup(resolved.value), lines)
      ensures result.Done? ==> Written(old(Contents()), Contents(), customer, lines, resolved.value, id, at)
    {
      CreationAccepted(Contents(), customer, lines, resolved, id, at, year, fault);
      CreationWrites(Contents(), customer, lines, resolved, id, at, year, fault);
      var shape := ValidateShape(lines);
      if shape.Some? {
        return Refuse(BadRequest(shape.value));
      }
      if resolved.None? {
        return Refuse(CatalogError);
      }
      var built := BuildItems(lines, resolved.value);
      if built.Refused? {
        return Refuse(BuildRefusal(built.error));
      }
      result := Write(customer, built.items, built.totalMinor, built.currency, id, at, year, fault);
    }
  }
}
