/** Building an order's lines from what the catalog resolved. */
module OrderItems {
  import opened Options
  import opened Decimal

  datatype Product = Product(id: string, title: string, priceMinor: int, currency: string, status: string)
  datatype Line = Line(productId: string, quantity: int)
  datatype Item = Item(productId: int, title: string, unitPriceMinor: int, currency: string, quantity: int,
                       lineTotalMinor: int)

  datatype BuildError =
    | EmptyOrder
    | InvalidQuantity(productId: string)
    | ProductUnavailable(productId: string)
    | CurrencyMismatch
    | NotNumeric(productId: string)

  datatype Built = Built(items: seq<Item>, currency: string, totalMinor: int) | Refused(error: BuildError)

  const ACTIVE := "active"
  const TWO64 := 0x1_0000_0000_0000_0000

  /** Two's complement 64-bit wrap-around. */
  function Wrap64(x: int): (w: int)
    ensures -TWO63 <= w < TWO63
    ensures -TWO63 <= x < TWO63 ==> w == x
  {
    (x + TWO63) % TWO64 - TWO63
  }

  /** The lookup table over the response; a repeated id keeps its last product. */
  function Lookup(resolved: seq<Product>): (m: map<string, Product>)
    ensures forall id | id in m :: m[id].id == id && m[id] in resolved
    ensures forall p | p in resolved :: p.id in m
  {
    if resolved == [] then map[]
    else
      var p := resolved[|resolved| - 1];
      assert resolved == resolved[..|resolved| - 1] + [p];
      Lookup(resolved[..|resolved| - 1])[p.id := p]
  }

  /** Of the products sharing an id the table keeps the last. */
  lemma {:induction false} LookupKeepsLast(resolved: seq<Product>, i: nat)
    requires i < |resolved| && forall j | i < j < |resolved| :: resolved[j].id != resolved[i].id
    ensures resolved[i].id in Lookup(resolved) && Lookup(resolved)[resolved[i].id] == resolved[i]
  {
    if i < |resolved| - 1 {
      LookupKeepsLast(resolved[..|resolved| - 1], i);
    }
  }

  predicate Usable(m: map<string, Product>, line: Line) {
    line.productId in m && m[line.productId].status == ACTIVE
  }

  function LineTotal(price: int, quantity: int): int {
    Wrap64(price * quantity)
  }

  function ItemFor(p: Product, quantity: int): Item
    requires ParseInt64(p.id).Some?
  {
    Item(ParseInt64(p.id).value, p.title, p.priceMinor, p.currency, quantity, LineTotal(p.priceMinor, quantity))
  }

  /** What the loop holds after the given lines, or the refusal it stopped at. */
  function Build(m: map<string, Product>, lines: seq<Line>): Built {
    if lines == [] then Built([], "", 0)
    else
      match Build(m, lines[..|lines| - 1])
      case Refused(error) => Refused(error)
      case Built(items, currency, total) => AddLine(m, lines[|lines| - 1], items, currency, total)
  }

  function AddLine(m: map<string, Product>, line: Line, items: seq<Item>, currency: string, total: int): Built {
    if !Usable(m, line) then Refused(ProductUnavailable(line.productId))
    else
      var p := m[line.productId];
      if currency != "" && currency != p.currency then Refused(CurrencyMismatch)
      else if ParseInt64(p.id).None? then Refused(NotNumeric(p.id))
      else
        var item := ItemFor(p, line.quantity);
        Built(items + [item], if currency == "" then p.currency else currency, Wrap64(total + item.lineTotalMinor))
  }

  /** The refusal of a request the catalog need not see: it has no lines, or this is
      the first line whose quantity is not positive. */
  function ShapeError(lines: seq<Line>): Option<BuildError> {
    if lines == [] then Some(EmptyOrder) else FirstBadQuantity(lines)
  }

  function FirstBadQuantity(lines: seq<Line>): Option<BuildError> {
    if lines == [] then None
    else if lines[0].quantity <= 0 then Some(InvalidQuantity(lines[0].productId))
    else FirstBadQuantity(lines[1..])
  }

  lemma {:induction false} FirstBadQuantityAt(lines: seq<Line>, i: nat)
    requires i <= |lines| && forall j | 0 <= j < i :: lines[j].quantity > 0
    requires i < |lines| ==> lines[i].quantity <= 0
    ensures FirstBadQuantity(lines) == if i < |lines| then Some(InvalidQuantity(lines[i].productId)) else None
  {
    if i > 0 {
      FirstBadQuantityAt(lines[1..], i - 1);
    }
  }

  lemma {:induction false} FirstBadQuantityFound(lines: seq<Line>)
    ensures FirstBadQuantity(lines).None? <==> forall i | 0 <= i < |lines| :: lines[i].quantity > 0
  {
    if lines != [] {
      FirstBadQuantityFound(lines[1..]);
      assert forall i | 1 <= i < |lines| :: lines[i] == lines[1..][i - 1];
    }
  }

  /** A shape is refused exactly for want of lines or of a positive quantity. */
  lemma ShapeExact(lines: seq<Line>)
    ensures ShapeError(lines).None? <==> lines != [] && forall i | 0 <= i < |lines| :: lines[i].quantity > 0
  {
    FirstBadQuantityFound(lines);
  }

  method ValidateShape(lines: seq<Line>) returns (error: Option<BuildError>)
    ensures error == ShapeError(lines)
    ensures error.None? <==> lines != [] && forall i | 0 <= i < |lines| :: lines[i].quantity > 0
    ensures error.Some? && lines != [] ==>
              exists i | 0 <= i < |lines| ::
                  lines[i].quantity <= 0 && error.value == InvalidQuantity(lines[i].productId)
                                             && forall j | 0 <= j < i :: lines[j].quantity > 0
    ensures lines == [] ==> error == Some(EmptyOrder)
  {
    if |lines| == 0 {
      return Some(EmptyOrder);
    }
    for i := 0 to |lines|
      invariant forall j | 0 <= j < i :: lines[j].quantity > 0
    {
      if lines[i].quantity <= 0 {
        FirstBadQuantityAt(lines, i);
        return Some(InvalidQuantity(lines[i].productId));
      }
    }
    FirstBadQuantityAt(lines, |lines|);
    error := None;
  }

  /** The index the response is matched through. */
  method IndexById(resolved: seq<Product>) returns (byId: map<string, Product>)
    ensures byId == Lookup(resolved)
  {
    byId := map[];
    for i := 0 to |resolved|
      invariant byId == Lookup(resolved[..i])
    {
      byId := byId[resolved[i].id := resolved[i]];
      assert resolved[..i + 1][..i] == resolved[..i];
    }
    assert resolved[..|resolved|] == resolved;
  }

  lemma BuildNext(m: map<string, Product>, lines: seq<Line>, i: nat)
    requires i < |lines| && Build(m, lines[..i]).Built?
    ensures var b := Build(m, lines[..i]);
            Build(m, lines[..i + 1]) == AddLine(m, lines[i], b.items, b.currency, b.totalMinor)
  {
    assert lines[..i + 1][..i] == lines[..i];
  }

  method BuildItems(requested: seq<Line>, resolved: seq<Product>) returns (built: Built)
    ensures built == Build(Lookup(resolved), requested)
  {
    var byId := IndexById(resolved);
    var items: seq<Item>, currency, total := [], "", 0;
    for i := 0 to |requested|
      invariant Build(byId, requested[..i]) == Built(items, currency, total)
    {
      var line := requested[i];
      BuildNext(byId, requested, i);
      if line.productId !in byId || byId[line.productId].status != ACTIVE {
        RefusalStands(byId, requested, i + 1);
        return Refused(ProductUnavailable(line.productId));
      }
      var p := byId[line.productId];
      if currency != "" && currency != p.currency {
        RefusalStands(byId, requested, i + 1);
        return Refused(CurrencyMismatch);
      }
      var id := ParseInt64(p.id);
      if id.None? {
        RefusalStands(byId, requested, i + 1);
        return Refused(NotNumeric(p.id));
      }
      if currency == "" {
        currency := p.currency;
      }
      var lineTotal := LineTotal(p.priceMinor, line.quantity);
      total := Wrap64(total + lineTotal);
      items := items + [Item(id.value, p.title, p.priceMinor, p.currency, line.quantity, lineTotal)];
    }
    assert requested[..|requested|] == requested;
    built := Built(items, currency, total);
  }

  /** A refusal at some line is the refusal of the whole request. */
  lemma {:induction false} RefusalStands(m: map<string, Product>, lines: seq<Line>, n: nat)
    requires n <= |lines| && Build(m, lines[..n]).Refused?
    ensures Build(m, lines) == Build(m, lines[..n])
    decreases |lines|
  {
    if n == |lines| {
      assert lines[..n] == lines;
    } else {
      assert lines[..|lines| - 1][..n] == lines[..n];
      RefusalStands(m, lines[..|lines| - 1], n);
    }
  }

  /** The currencies of the lines agree, as the loop sees it: a product without a
      currency agrees with everything after it. */
  ghost predicate CurrenciesAgree(m: map<string, Product>, lines: seq<Line>)
    requires forall l | l in lines :: l.productId in m
  {
    forall i, j | 0 <= i < j < |lines| ::
      var c := m[lines[i].productId].currency; c == "" || c == m[lines[j].productId].currency
  }

  ghost predicate AllUsable(m: map<string, Product>, lines: seq<Line>) {
    forall l | l in lines :: Usable(m, l) && ParseInt64(m[l.productId].id).Some?
  }

  function ExactTotal(m: map<string, Product>, lines: seq<Line>): int
    requires forall l | l in lines :: l.productId in m
  {
    if lines == [] then 0
    else
      var line := lines[|lines| - 1];
      ExactTotal(m, lines[..|lines| - 1]) + m[line.productId].priceMinor * line.quantity
  }

  /** The total as it is added up, wrapping at every step. */
  function RunningTotal(m: map<string, Product>, lines: seq<Line>): int
    requires forall l | l in lines :: l.productId in m
  {
    if lines == [] then 0
    else
      var line := lines[|lines| - 1];
      Wrap64(RunningTotal(m, lines[..|lines| - 1]) + LineTotal(m[line.productId].priceMinor, line.quantity))
  }

  /** Wrapping at every step is wrapping once. */
  lemma {:induction false} WrappedOnce(m: map<string, Product>, lines: seq<Line>)
    requires forall l | l in lines :: l.productId in m
    ensures RunningTotal(m, lines) == Wrap64(ExactTotal(m, lines))
  {
    if lines != [] {
      var line := lines[|lines| - 1];
      WrappedOnce(m, lines[..|lines| - 1]);
      WrapPlus(ExactTotal(m, lines[..|lines| - 1]), m[line.productId].priceMinor * line.quantity);
    }
  }

  lemma WrapPlus(a: int, b: int)
    ensures Wrap64(Wrap64(a) + Wrap64(b)) == Wrap64(a + b)
  {}

  /** The currency carried so far is that of every line unless no line has one. */
  ghost predicate Carried(m: map<string, Product>, lines: seq<Line>, currency: string)
    requires forall l | l in lines :: l.productId in m
  {
    && (forall l | l in lines :: m[l.productId].currency in {"", currency})
    && (currency != "" ==> exists l | l in lines :: m[l.productId].currency == currency)
  }

  lemma AgreeSnoc(m: map<string, Product>, lines: seq<Line>, currency: string)
    requires lines != [] && forall l | l in lines :: l.productId in m
    requires var p := lines[..|lines| - 1]; CurrenciesAgree(m, p) && Carried(m, p, currency)
    ensures var c := m[lines[|lines| - 1].productId].currency;
            && (CurrenciesAgree(m, lines) <==> currency == "" || currency == c)
            && (CurrenciesAgree(m, lines) ==> Carried(m, lines, if currency == "" then c else currency))
  {}

  /** What a built order holds of the lines it was built from. */
  ghost predicate Faithful(m: map<string, Product>, lines: seq<Line>, b: Built)
    requires forall l | l in lines :: l.productId in m
  {
    && b.Built?
    && |b.items| == |lines|
    && (forall i | 0 <= i < |lines| :: IsItemFor(b.items[i], m[lines[i].productId], lines[i].quantity))
    && Carried(m, lines, b.currency)
    && b.totalMinor == RunningTotal(m, lines)
  }

  ghost predicate IsItemFor(item: Item, p: Product, quantity: int) {
    && ParseInt64(p.id) == Some(item.productId)
    && item.title == p.title && item.unitPriceMinor == p.priceMinor && item.currency == p.currency
    && item.quantity == quantity
    && item.lineTotalMinor == LineTotal(p.priceMinor, quantity)
  }

  lemma ItemsSnoc(m: map<string, Product>, lines: seq<Line>, items: seq<Item>, item: Item)
    requires lines != [] && forall l | l in lines :: l.productId in m
    requires |items| == |lines| - 1
    requires forall i | 0 <= i < |items| ::
               IsItemFor(items[i], m[lines[..|lines| - 1][i].productId], lines[..|lines| - 1][i].quantity)
    requires IsItemFor(item, m[lines[|lines| - 1].productId], lines[|lines| - 1].quantity)
    ensures forall i | 0 <= i < |lines| :: IsItemFor((items + [item])[i], m[lines[i].productId], lines[i].quantity)
  {}

  lemma FaithfulSnoc(m: map<string, Product>, lines: seq<Line>, b: Built)
    requires lines != [] && AllUsable(m, lines)
    requires var p := lines[..|lines| - 1];
             (forall l | l in p :: l.productId in m) && CurrenciesAgree(m, p) && Faithful(m, p, b)
    ensures var c := AddLine(m, lines[|lines| - 1], b.items, b.currency, b.totalMinor);
            && (c.Built? <==> CurrenciesAgree(m, lines))
            && (c.Built? ==> Faithful(m, lines, c))
  {
    var line := lines[|lines| - 1];
    assert line in lines;
    AgreeSnoc(m, lines, b.currency);
    if CurrenciesAgree(m, lines) {
      FaithfulNext(m, lines, b, if b.currency == "" then m[line.productId].currency else b.currency);
    }
  }

  lemma FaithfulNext(m: map<string, Product>, lines: seq<Line>, b: Built, currency: string)
    requires lines != [] && AllUsable(m, lines) && lines[|lines| - 1] in lines
    requires var p := lines[..|lines| - 1]; (forall l | l in p :: l.productId in m) && Faithful(m, p, b)
    requires Carried(m, lines, currency)
    ensures var line := lines[|lines| - 1];
            var item := ItemFor(m[line.productId], line.quantity);
            Faithful(m, lines, Built(b.items + [item], currency, Wrap64(b.totalMinor + item.lineTotalMinor)))
  {
    var line := lines[|lines| - 1];
    var item := ItemFor(m[line.productId], line.quantity);
    FaithfulAdd(m, lines, b, item, currency, Wrap64(b.totalMinor + item.lineTotalMinor));
  }

  lemma FaithfulAdd(m: map<string, Product>, lines: seq<Line>, b: Built, item: Item, currency: string, total: int)
    requires lines != [] && forall l | l in lines :: l.productId in m
    requires var p := lines[..|lines| - 1]; (forall l | l in p :: l.productId in m) && Faithful(m, p, b)
    requires Carried(m, lines, currency) && total == RunningTotal(m, lines)
    requires var line := lines[|lines| - 1]; line in lines && IsItemFor(item, m[line.productId], line.quantity)
    ensures Faithful(m, lines, Built(b.items + [item], currency, total))
  {
    ItemsSnoc(m, lines, b.items, item);
    FaithfulParts(m, lines, b.items + [item], currency, total);
  }

  lemma FaithfulParts(m: map<string, Product>, lines: seq<Line>, items: seq<Item>, currency: string, total: int)
    requires forall l | l in lines :: l.productId in m
    requires |items| == |lines| && forall i | 0 <= i < |lines| ::
               IsItemFor(items[i], m[lines[i].productId], lines[i].quantity)
    requires Carried(m, lines, currency) && total == RunningTotal(m, lines)
    ensures Faithful(m, lines, Built(items, currency, total))
  {}

  /** The order is built exactly when every line names an active product with a
      numeric id and the currencies agree; then each line carries the product of its
      own id, and the total is the 64-bit sum of price times quantity. */
  lemma BuildMeans(m: map<string, Product>, lines: seq<Line>)
    ensures Build(m, lines).Built? <==> AllUsable(m, lines) && CurrenciesAgree(m, lines)
    ensures Build(m, lines).Built? ==>
              Faithful(m, lines, Build(m, lines)) && Build(m, lines).totalMinor == Wrap64(ExactTotal(m, lines))
  {
    BuiltIsFaithful(m, lines);
    if Build(m, lines).Built? {
      WrappedOnce(m, lines);
    }
  }

  lemma {:induction false} BuiltIsFaithful(m: map<string, Product>, lines: seq<Line>)
    ensures Build(m, lines).Built? <==> AllUsable(m, lines) && CurrenciesAgree(m, lines)
    ensures Build(m, lines).Built? ==> Faithful(m, lines, Build(m, lines))
  {
    if lines != [] {
      var n := |lines| - 1;
      var p := lines[..n];
      BuiltIsFaithful(m, p);
      assert lines == p + [lines[n]];
      if AllUsable(m, lines) {
        AgreePrefix(m, lines);
        if Build(m, p).Built? {
          FaithfulSnoc(m, lines, Build(m, p));
        }
      }
    }
  }

  /** A refusal names the first line that cannot be taken, and why. */
  lemma {:induction false} RefusalMeans(m: map<string, Product>, lines: seq<Line>) returns (i: nat)
    requires Build(m, lines).Refused? && forall id | id in m :: m[id].id == id
    ensures i < |lines| && Build(m, lines[..i]).Built?
    ensures var line := lines[i];
            match Build(m, lines).error
            case ProductUnavailable(id) => id == line.productId && !Usable(m, line)
            case CurrencyMismatch =>
              Usable(m, line) && Build(m, lines[..i]).currency !in {"", m[line.productId].currency}
            case NotNumeric(id) => id == line.productId && Usable(m, line) && ParseInt64(id).None?
            case _ => false
  {
    var n := |lines| - 1;
    if Build(m, lines[..n]).Refused? {
      i := RefusalMeans(m, lines[..n]);
      assert lines[..n][..i] == lines[..i];
    } else {
      i := n;
    }
  }

  lemma AgreePrefix(m: map<string, Product>, lines: seq<Line>)
    requires lines != [] && AllUsable(m, lines)
    ensures var p := lines[..|lines| - 1];
            AllUsable(m, p) && (CurrenciesAgree(m, lines) ==> CurrenciesAgree(m, p))
  {}

  /** When every product has a currency, all lines are in the order's one currency. */
  lemma OneCurrency(m: map<string, Product>, lines: seq<Line>, i: nat)
    requires Build(m, lines).Built? && i < |lines|
    requires forall id | id in m :: m[id].currency != ""
    ensures i < |Build(m, lines).items| && Build(m, lines).items[i].currency == Build(m, lines).currency
  {
    BuildMeans(m, lines);
    assert lines[i] in lines;
  }

  ghost predicate DistinctProductIds(resolved: seq<Product>) {
    forall p, q | p in resolved && q in resolved && p.id == q.id :: p == q
  }

  lemma SameLookup(resolved: seq<Product>, permuted: seq<Product>)
    requires DistinctProductIds(resolved)
    requires forall p :: p in permuted <==> p in resolved
    ensures Lookup(permuted) == Lookup(resolved)
  {}

  /** Matching is by id, not by position: the order in which the catalog answers
      cannot change what is built. */
  lemma ResponseOrderIrrelevant(requested: seq<Line>, resolved: seq<Product>, permuted: seq<Product>)
    requires DistinctProductIds(resolved) && multiset(permuted) == multiset(resolved)
    ensures Build(Lookup(permuted), requested) == Build(Lookup(resolved), requested)
  {
    forall p ensures p in permuted <==> p in resolved {
      assert p in multiset(permuted) <==> p in multiset(resolved);
    }
    SameLookup(resolved, permuted);
  }
}
