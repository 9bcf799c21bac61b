/** What a created order holds of the request it was made from, and which requests are
    taken at all. */
module StoredOrders {
  import opened Options
  import opened Decimal
  import opened Lifecycle
  import opened Projection
  import opened Orders
  import opened OrderItems
  import opened OrderRequests

  /** The character of a code at a place, spaces behind its end. */
  function At(code: string, i: nat): char {
    if i < |code| then code[i] else ' '
  }

  ghost predicate SameCode(stored: string, code: string) {
    |stored| == 3 && forall i: nat :: At(stored, i) == At(code, i)
  }

  /** A three-character column holds the code that differs from the one given in nothing
      but spaces at its end, and refuses a code for which there is none. */
  lemma StoredCode(code: string, stored: string)
    ensures Char3(code) == Some(stored) <==> SameCode(stored, code)
    ensures Char3(code).Some? <==> forall i | 3 <= i < |code| :: code[i] == ' '
  {
    if Char3(code) == Some(stored) {
      forall i: nat ensures At(stored, i) == At(code, i) {}
    }
    if SameCode(stored, code) {
      forall i: nat | 3 <= i < |code| ensures code[i] == ' ' {
        assert At(stored, i) == At(code, i);
      }
      assert forall i: nat | i < 3 :: stored[i] == At(stored, i) == At(code, i);
      assert Char3(code).Some? && Char3(code).value == stored;
    }
  }

  /** Row is one line of an order as it is stored: quantity times product. */
  ghost predicate StoresLine(row: Item, p: Product, quantity: int) {
    && ParseInt64(p.id) == Some(row.productId)
    && row.title == p.title
    && row.unitPriceMinor == p.priceMinor
    && row.quantity == quantity
    && row.lineTotalMinor == Wrap64(p.priceMinor * quantity)
    && SameCode(row.currency, p.currency)
  }

  /** One row a line, each with the product its line names. */
  ghost predicate StoresLines(rows: seq<Item>, m: map<string, Product>, lines: seq<Line>) {
    && |rows| == |lines|
    && forall i | 0 <= i < |lines| ::
         lines[i].productId in m && StoresLine(rows[i], m[lines[i].productId], lines[i].quantity)
  }

  /** What the rows of an order are worth. */
  function Worth(rows: seq<Item>): int {
    if rows == [] then 0
    else Worth(rows[..|rows| - 1]) + rows[|rows| - 1].unitPriceMinor * rows[|rows| - 1].quantity
  }

  /** Each row has the price and the quantity of its line. */
  ghost predicate Priced(rows: seq<Item>, m: map<string, Product>, lines: seq<Line>) {
    && |rows| == |lines|
    && forall i | 0 <= i < |lines| ::
         lines[i].productId in m && rows[i].unitPriceMinor == m[lines[i].productId].priceMinor
         && rows[i].quantity == lines[i].quantity
  }

  lemma {:induction false} WorthIsTotal(rows: seq<Item>, m: map<string, Product>, lines: seq<Line>)
    requires Priced(rows, m, lines)
    ensures forall l | l in lines :: l.productId in m
    ensures Worth(rows) == ExactTotal(m, lines)
  {
    if rows != [] {
      var n := |rows| - 1;
      WorthIsTotal(rows[..n], m, lines[..n]);
      assert lines == lines[..n] + [lines[n]];
    }
  }

  lemma StoredLine(m: map<string, Product>, lines: seq<Line>, i: nat)
    requires Build(m, lines).Built? && AllFit(Build(m, lines).items) && i < |lines|
    ensures |Build(m, lines).items| == |lines| && lines[i].productId in m
    ensures StoresLine(StoredItems(Build(m, lines).items)[i], m[lines[i].productId], lines[i].quantity)
  {
    var b := Build(m, lines);
    BuildMeans(m, lines);
    assert lines[i] in lines;
    assert IsItemFor(b.items[i], m[lines[i].productId], lines[i].quantity) && ItemFits(b.items[i]);
    StoredCode(b.items[i].currency, StoredItems(b.items)[i].currency);
  }

  lemma StoredLines(m: map<string, Product>, lines: seq<Line>)
    requires Build(m, lines).Built? && AllFit(Build(m, lines).items)
    ensures StoresLines(StoredItems(Build(m, lines).items), m, lines)
  {
    BuildMeans(m, lines);
    forall i | 0 <= i < |lines|
      ensures lines[i].productId in m
              && StoresLine(StoredItems(Build(m, lines).items)[i], m[lines[i].productId], lines[i].quantity)
    {
      StoredLine(m, lines, i);
    }
  }

  lemma StoredTotal(m: map<string, Product>, lines: seq<Line>)
    requires Build(m, lines).Built? && AllFit(Build(m, lines).items)
    ensures Build(m, lines).totalMinor == Wrap64(Worth(StoredItems(Build(m, lines).items)))
  {
    BuildMeans(m, lines);
    StoredLines(m, lines);
    WorthIsTotal(StoredItems(Build(m, lines).items), m, lines);
  }

  /** The currency of an order is that of every product that has one, and blank if none
      has. */
  ghost predicate InCurrency(currency: string, m: map<string, Product>, lines: seq<Line>)
    requires forall l | l in lines :: l.productId in m
  {
    && (forall l | l in lines :: m[l.productId].currency == "" || SameCode(currency, m[l.productId].currency))
    && ((forall l | l in lines :: m[l.productId].currency == "") ==> currency == "   ")
  }

  lemma StoredCurrency(m: map<string, Product>, lines: seq<Line>)
    requires Build(m, lines).Built? && Char3(Build(m, lines).currency).Some?
    ensures forall l | l in lines :: l.productId in m
    ensures InCurrency(Char3(Build(m, lines).currency).value, m, lines)
  {
    var b := Build(m, lines);
    BuildMeans(m, lines);
    StoredCode(b.currency, Char3(b.currency).value);
    StoredCode("", "   ");
    if forall l | l in lines :: m[l.productId].currency == "" {
      assert b.currency == "";
    }
  }

  /** A line that can be ordered: an active product with a numeric id, a price and a
      currency its columns take, in a quantity they take, and so its line total. */
  predicate Orderable(p: Product, quantity: int) {
    && p.status == "active"
    && ParseInt64(p.id).Some?
    && 0 <= p.priceMinor
    && 0 < quantity < 2147483648
    && 0 <= Wrap64(p.priceMinor * quantity)
    && forall i | 3 <= i < |p.currency| :: p.currency[i] == ' '
  }

  ghost predicate AllOrderable(m: map<string, Product>, lines: seq<Line>) {
    forall l | l in lines :: l.productId in m && Orderable(m[l.productId], l.quantity)
  }

  /** A request whose every line can be ordered, in one currency, at a total in range. */
  ghost predicate Takeable(m: map<string, Product>, lines: seq<Line>) {
    && lines != []
    && AllOrderable(m, lines)
    && CurrenciesAgree(m, lines)
    && 0 <= Wrap64(ExactTotal(m, lines))
  }

  lemma FittingLine(m: map<string, Product>, lines: seq<Line>, i: nat)
    requires Build(m, lines).Built? && i < |lines|
    ensures |Build(m, lines).items| == |lines| && lines[i].productId in m
    ensures ItemFits(Build(m, lines).items[i]) <==> Orderable(m[lines[i].productId], lines[i].quantity)
  {
    BuildMeans(m, lines);
    assert lines[i] in lines;
    assert IsItemFor(Build(m, lines).items[i], m[lines[i].productId], lines[i].quantity);
    StoredCode(Build(m, lines).items[i].currency, "");
  }

  lemma FittingLines(m: map<string, Product>, lines: seq<Line>)
    requires Build(m, lines).Built?
    ensures AllFit(Build(m, lines).items) <==> AllOrderable(m, lines)
  {
    BuildMeans(m, lines);
    forall i: nat | i < |lines|
      ensures ItemFits(Build(m, lines).items[i])
              <==> lines[i].productId in m && Orderable(m[lines[i].productId], lines[i].quantity)
    {
      FittingLine(m, lines, i);
    }
    if AllFit(Build(m, lines).items) {
      forall l | l in lines ensures l.productId in m && Orderable(m[l.productId], l.quantity) {
        var i :| 0 <= i < |lines| && lines[i] == l;
        assert ItemFits(Build(m, lines).items[i]);
      }
    }
  }

  lemma CarriedCodeFits(m: map<string, Product>, lines: seq<Line>)
    requires Build(m, lines).Built? && AllOrderable(m, lines)
    ensures Char3(Build(m, lines).currency).Some?
  {
    var currency := Build(m, lines).currency;
    BuildMeans(m, lines);
    if currency != "" {
      var l :| l in lines && m[l.productId].currency == currency;
      StoredCode(currency, "");
    }
  }

  /** The checks of a creation, taken together, say exactly this of its request. */
  lemma CreatableExactly(lines: seq<Line>, products: seq<Product>)
    ensures Creatable(lines, Some(products)) <==> Takeable(Lookup(products), lines)
  {
    var m := Lookup(products);
    BuildMeans(m, lines);
    if Build(m, lines).Built? {
      FittingLines(m, lines);
      if AllOrderable(m, lines) {
        CarriedCodeFits(m, lines);
      }
      assert forall i | 0 <= i < |lines| :: lines[i] in lines;
    } else {
      assert AllOrderable(m, lines) ==> AllUsable(m, lines);
    }
  }

  /** What the tables have of a new order: its row, one item row a line, and the envelope
      that announces it at the instant of its creation. */
  ghost predicate Written(s: Shop, next: Shop, customer: nat, lines: seq<Line>, products: seq<Product>,
                          id: EventId, at: int)
  {
    var o := s.db.nextOrder;
    && o in next.db.orders && o in next.items
    && StoresLines(next.items[o], Lookup(products), lines)
    && next.db.orders[o].customer == customer && next.db.orders[o].status == Pending
    && next.db.orders[o].totalMinor == Wrap64(Worth(next.items[o]))
    && (forall l | l in lines :: l.productId in Lookup(products))
    && InCurrency(next.db.orders[o].currency, Lookup(products), lines)
    && next.db.outbox == s.db.outbox[s.db.nextSlot :=
         Rec(o, Envelope(id, 1, at, o, OrderCreated(next.db.orders[o].totalMinor, next.db.orders[o].currency)))]
    && next.db.orders == s.db.orders[o := next.db.orders[o]]
    && next.items == s.items[o := next.items[o]]
  }

  lemma CreatedIsWritten(s: Shop, next: Shop, customer: nat, lines: seq<Line>, products: seq<Product>,
                         id: EventId, at: int)
    requires Creatable(lines, Some(products))
    requires var b, o := Build(Lookup(products), lines), s.db.nextOrder;
             && next.db == Created(s.db, customer, b.totalMinor, Char3(b.currency).value, id, at)
             && next.items == s.items[o := StoredItems(b.items)]
    ensures Written(s, next, customer, lines, products, id, at)
  {
    StoredLines(Lookup(products), lines);
    StoredTotal(Lookup(products), lines);
    StoredCurrency(Lookup(products), lines);
  }

  /** A creation succeeds exactly when nothing fails, the customer is known and every
      line can be ordered. */
  lemma CreationAccepted(s: Shop, customer: nat, lines: seq<Line>, resolved: Option<seq<Product>>,
                         id: EventId, at: int, year: nat, fault: Fault)
    ensures CreateOrder(s, customer, lines, resolved, id, at, year, fault).1.Done?
            <==> fault.NoFault? && customer in s.customers
                 && resolved.Some? && Takeable(Lookup(resolved.value), lines)
  {
    CreateAllOrNothing(s, customer, lines, resolved, id, at, year, fault);
    if resolved.Some? {
      CreatableExactly(lines, resolved.value);
    }
  }

  /** Then, or when only the commit's answer is lost, the order holds what was asked for
      at the catalog's prices; in every other case no order is written. */
  lemma CreationWrites(s: Shop, customer: nat, lines: seq<Line>, resolved: Option<seq<Product>>,
                       id: EventId, at: int, year: nat, fault: Fault)
    ensures var next := CreateOrder(s, customer, lines, resolved, id, at, year, fault).0;
            if customer in s.customers && resolved.Some? && Takeable(Lookup(resolved.value), lines)
               && (fault.NoFault? || fault.CommitLost?)
            then Written(s, next, customer, lines, resolved.value, id, at)
            else SameRows(next, s)
  {
    CreateAllOrNothing(s, customer, lines, resolved, id, at, year, fault);
    if resolved.Some? {
      CreatableExactly(lines, resolved.value);
      if Creatable(lines, resolved) && customer in s.customers && Commits(fault) {
        var next := CreateOrder(s, customer, lines, resolved, id, at, year, fault).0;
        CreatedIsWritten(s, next, customer, lines, resolved.value, id, at);
      }
    }
  }

  /** What a refusal of a creation says is so. */
  ghost predicate RefusedRightly(refusal: Refusal, customers: set<nat>, customer: nat, lines: seq<Line>,
                                 resolved: Option<seq<Product>>, fault: Fault)
  {
    match refusal
    case BadRequest(EmptyOrder) => lines == []
    case BadRequest(InvalidQuantity(id)) => exists l | l in lines :: l.productId == id && l.quantity <= 0
    case CatalogError => resolved.None?
    case BadRequest(ProductUnavailable(id)) =>
      && resolved.Some? && (exists l | l in lines :: l.productId == id)
      && (id in Lookup(resolved.value) ==> Lookup(resolved.value)[id].status != "active")
    case BadRequest(CurrencyMismatch) =>
      && resolved.Some?
      && exists l, k | l in lines && k in lines ::
           && l.productId in Lookup(resolved.value) && k.productId in Lookup(resolved.value)
           && Lookup(resolved.value)[l.productId].currency != Lookup(resolved.value)[k.productId].currency
    case CatalogIdNotNumeric(id) =>
      resolved.Some? && ParseInt64(id).None? && exists l | l in lines :: l.productId == id
    case CustomerNotFound => customer !in customers
    case StoreError => !fault.NoFault? || (resolved.Some? && !Takeable(Lookup(resolved.value), lines))
    case _ => false
  }

  lemma ShapeRefusal(lines: seq<Line>, customers: set<nat>, customer: nat, resolved: Option<seq<Product>>, fault: Fault)
    requires ShapeError(lines).Some?
    ensures RefusedRightly(BadRequest(ShapeError(lines).value), customers, customer, lines, resolved, fault)
  {
    if lines != [] {
      var i := FirstBad(lines);
      assert lines[i] in lines;
    }
  }

  lemma {:induction false} FirstBad(lines: seq<Line>) returns (i: nat)
    requires FirstBadQuantity(lines).Some?
    ensures i < |lines| && lines[i].quantity <= 0
    ensures FirstBadQuantity(lines) == Some(InvalidQuantity(lines[i].productId))
  {
    if lines[0].quantity <= 0 {
      i := 0;
    } else {
      i := FirstBad(lines[1..]);
      i := i + 1;
    }
  }

  lemma BuildRefused(lines: seq<Line>, products: seq<Product>, customers: set<nat>, customer: nat, fault: Fault)
    requires Build(Lookup(products), lines).Refused?
    ensures RefusedRightly(BuildRefusal(Build(Lookup(products), lines).error), customers, customer, lines,
                           Some(products), fault)
  {
    var m := Lookup(products);
    var i := RefusalMeans(m, lines);
    assert lines[i] in lines;
    if Build(m, lines).error.CurrencyMismatch? {
      BuildMeans(m, lines[..i]);
      var l :| l in lines[..i] && m[l.productId].currency == Build(m, lines[..i]).currency;
      assert l in lines;
    }
  }

  lemma WriteRefused(s: Shop, customer: nat, lines: seq<Line>, products: seq<Product>,
                     id: EventId, at: int, year: nat, fault: Fault)
    requires Build(Lookup(products), lines).Built? && ShapeError(lines).None?
    ensures var b := Build(Lookup(products), lines);
            var result := WriteOrder(s, customer, b.items, b.totalMinor, b.currency, id, at, year, fault).1;
            result.Refuse? ==> RefusedRightly(result.refusal, s.customers, customer, lines, Some(products), fault)
  {
    var b := Build(Lookup(products), lines);
    CreatableExactly(lines, products);
    ShapeExact(lines);
    WriteAllOrNothing(s, customer, b.items, b.totalMinor, b.currency, id, at, year, fault);
  }

  /** Every refusal of a creation is true. */
  lemma CreationRefusals(s: Shop, customer: nat, lines: seq<Line>, resolved: Option<seq<Product>>,
                         id: EventId, at: int, year: nat, fault: Fault)
    ensures var result := CreateOrder(s, customer, lines, resolved, id, at, year, fault).1;
            result.Refuse? ==> RefusedRightly(result.refusal, s.customers, customer, lines, resolved, fault)
  {
    if ShapeError(lines).Some? {
      ShapeRefusal(lines, s.customers, customer, resolved, fault);
    } else if resolved.Some? {
      if Build(Lookup(resolved.value), lines).Refused? {
        BuildRefused(lines, resolved.value, s.customers, customer, fault);
      } else {
        WriteRefused(s, customer, lines, resolved.value, id, at, year, fault);
      }
    }
  }

  /** Every order has item rows, and they add up to its total. */
  ghost predicate AddUp(orders: map<OrderId, OrderRow>, items: map<OrderId, seq<Item>>) {
    && orders.Keys == items.Keys
    && forall o | o in orders && o in items :: items[o] != [] && orders[o].totalMinor == Wrap64(Worth(items[o]))
  }

  lemma ServeKeepsSums(s: Shop, r: Request)
    requires AddUp(s.db.orders, s.items)
    ensures var next := Serve(s, r).0; AddUp(next.db.orders, next.items)
  {
    match r
    case Move(o, to, id, at, fault) => MoveAllOrNothing(s, o, to, id, at, fault);
    case Create(customer, lines, resolved, id, at, year, fault) =>
      CreationWrites(s, customer, lines, resolved, id, at, year, fault);
  }

  /** So it stays, whatever is asked of the service and wherever its store fails. */
  lemma {:induction false} OrdersAddUp(customers: set<nat>, requests: seq<Request>)
    requires ServeAll(customers, requests).Some?
    ensures var s := ServeAll(customers, requests).value; AddUp(s.db.orders, s.items)
  {
    if requests != [] {
      var n := |requests| - 1;
      OrdersAddUp(customers, requests[..n]);
      ServeKeepsSums(ServeAll(customers, requests[..n]).value, requests[n]);
    }
  }
}
