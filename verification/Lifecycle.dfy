/** The order status table and what every path through it has in common. */
module Lifecycle {

  datatype Status = Pending | Paid | Packed | Shipped | Delivered | Cancelled | Refunded

  const TRANSITIONS: map<Status, set<Status>> := map[
    Pending := {Paid, Cancelled},
    Paid := {Packed, Cancelled, Refunded},
    Packed := {Shipped, Cancelled, Refunded},
    Shipped := {Delivered, Refunded},
    Delivered := {Refunded},
    Cancelled := {},
    Refunded := {}
  ]

  predicate CanTransition(from: Status, to: Status) {
    from in TRANSITIONS && to in TRANSITIONS[from]
  }

  /** The longest way still open to an order in status s. */
  function Rank(s: Status): nat {
    match s
    case Pending => 5
    case Paid => 4
    case Packed => 3
    case Shipped => 2
    case Delivered => 1
    case Cancelled => 0
    case Refunded => 0
  }

  /** The statuses an order has been in, oldest first. */
  ghost predicate Path(h: seq<Status>) {
    && |h| > 0
    && h[0] == Pending
    && forall i | 1 <= i < |h| :: CanTransition(h[i - 1], h[i])
  }

  lemma {:induction false} RankFalls(h: seq<Status>, i: nat, j: nat)
    requires Path(h) && i <= j < |h|
    ensures Rank(h[j]) + (j - i) <= Rank(h[i])
  {
    if i < j {
      RankFalls(h, i, j - 1);
    }
  }

  /** Every order makes at most five transitions and never returns to a status
      it has left; five are really possible. */
  lemma LifecycleBounded(h: seq<Status>)
    requires Path(h)
    ensures |h| <= 6
    ensures forall i, j | 0 <= i < j < |h| :: h[i] != h[j]
    ensures Path([Pending, Paid, Packed, Shipped, Delivered, Refunded])
  {
    RankFalls(h, 0, |h| - 1);
    forall i, j | 0 <= i < j < |h| ensures h[i] != h[j] {
      RankFalls(h, i, j);
    }
  }

  /** Cancelled and refunded are where a path ends, and nowhere else must it. */
  lemma Absorbing(h: seq<Status>, i: nat)
    requires Path(h) && i < |h|
    ensures h[i] in {Cancelled, Refunded} ==> i == |h| - 1
    ensures h[|h| - 1] !in {Cancelled, Refunded} <==> exists to :: Path(h + [to])
  {
    var last := h[|h| - 1];
    if last !in {Cancelled, Refunded} {
      assert Path(h + [if last == Pending then Paid else Refunded]);
    }
    forall to | Path(h + [to]) ensures CanTransition(last, to) {
      assert (h + [to])[|h|] == to && (h + [to])[|h| - 1] == last;
    }
    if i < |h| - 1 {
      assert CanTransition(h[i + 1 - 1], h[i + 1]);
    }
  }

  /** Money can only have been taken in the first transition: whatever holds or
      gives back money was paid at index 1, and an unpaid order is pending or
      was cancelled straight away. */
  lemma {:induction false} PaidFirst(h: seq<Status>, i: nat)
    requires Path(h) && i < |h|
    ensures h[i] in {Paid, Packed, Shipped, Delivered, Refunded} ==> i >= 1 && h[1] == Paid
    ensures h[i] == Paid ==> i == 1
    ensures i >= 1 && h[1] != Paid ==> i == 1 && h == [Pending, Cancelled]
  {
    if i >= 1 {
      PaidFirst(h, i - 1);
      assert CanTransition(h[i - 1], h[i]);
      RankFalls(h, 1, i);
      Absorbing(h, 1);
    }
  }

  const FULFILMENT := [Pending, Paid, Packed, Shipped, Delivered]

  /** An order is fulfilled step by step, none left out, and may end by a cancellation
      before it is shipped or by a refund once it is paid. */
  ghost predicate StepByStep(h: seq<Status>) {
    || (1 <= |h| <= 5 && h == FULFILMENT[..|h|])
    || (2 <= |h| <= 4 && h == FULFILMENT[..|h| - 1] + [Cancelled])
    || (3 <= |h| <= 6 && h == FULFILMENT[..|h| - 1] + [Refunded])
  }

  /** Where a fulfilment can go next. */
  lemma NextOnTheWay(n: nat, to: Status)
    requires 1 <= n <= 5
    ensures StepByStep(FULFILMENT[..n] + [to]) <==> CanTransition(FULFILMENT[n - 1], to)
  {
    assert n < 5 ==> FULFILMENT[..n + 1] == FULFILMENT[..n] + [FULFILMENT[n]];
    assert (FULFILMENT[..n] + [to])[..n] == FULFILMENT[..n];
  }

  lemma NextStep(h: seq<Status>, to: Status)
    requires StepByStep(h)
    ensures StepByStep(h + [to]) <==> CanTransition(h[|h| - 1], to)
  {
    var n := |h|;
    if n <= 5 && h == FULFILMENT[..n] {
      NextOnTheWay(n, to);
    } else {
      assert h[n - 1] in {Cancelled, Refunded};
      assert (h + [to])[n - 1] == h[n - 1];
    }
  }

  /** The paths of the table are exactly those. */
  lemma {:induction false} PathsAreStepByStep(h: seq<Status>)
    ensures Path(h) <==> StepByStep(h)
  {
    if |h| > 1 {
      var p, to := h[..|h| - 1], h[|h| - 1];
      assert h == p + [to];
      PathsAreStepByStep(p);
      PathSnoc(p, to);
      if StepByStep(h) {
        StepPrefix(h);
      }
      if StepByStep(p) {
        NextStep(p, to);
      }
    }
  }

  lemma PathSnoc(p: seq<Status>, to: Status)
    requires p != []
    ensures Path(p + [to]) <==> Path(p) && CanTransition(p[|p| - 1], to)
  {
    var h := p + [to];
    if Path(h) {
      assert CanTransition(h[|p| - 1], h[|p|]);
      forall i | 1 <= i < |p| ensures CanTransition(p[i - 1], p[i]) {
        assert CanTransition(h[i - 1], h[i]);
      }
    }
  }

  lemma StepPrefix(h: seq<Status>)
    requires StepByStep(h) && |h| > 1
    ensures StepByStep(h[..|h| - 1])
  {}

  /** Whatever step of the fulfilment an order has reached, it took every one before. */
  lemma ReachedInOrder(h: seq<Status>, i: nat)
    requires StepByStep(h) && i < |h|
    ensures h[i] == Delivered ==> h[..i + 1] == [Pending, Paid, Packed, Shipped, Delivered]
    ensures h[i] == Shipped ==> h[..i + 1] == [Pending, Paid, Packed, Shipped]
    ensures h[i] == Packed ==> h[..i + 1] == [Pending, Paid, Packed]
    ensures h[i] == Paid ==> h[..i + 1] == [Pending, Paid]
  {
    assert h[i] in FULFILMENT ==> h[..i + 1] == FULFILMENT[..i + 1] && h[i] == FULFILMENT[i];
  }
}
