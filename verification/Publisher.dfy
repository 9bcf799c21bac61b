/** The publisher's drain: one ordered batch, stopped by the first failure. */
module Publisher {
  import opened Options
  import opened Projection
  import opened Publishing

  /** What happens to one row: whether a copy is appended to the stream (a first
      copy, a copy the broker's duplicate window no longer knows, or one whose
      confirmation is lost), whether the confirmation arrives, and whether the mark
      is written and answered. */
  datatype Attempt = Attempt(appends: bool, confirmed: bool, markWrites: bool, markAnswers: bool)

  const ALL_WELL := Attempt(true, true, true, true)

  /** The broker confirms only what the stream holds. */
  predicate Appends(p: Pub, e: Envelope, a: Attempt) {
    a.appends || (a.confirmed && e !in p.stream)
  }

  predicate Marks(a: Attempt) {
    a.confirmed && (a.markWrites || a.markAnswers)
  }

  predicate Succeeds(a: Attempt) {
    a.confirmed && a.markAnswers
  }

  function PublishRow(outbox: Outbox, p: Pub, row: nat, a: Attempt): Pub
    requires row in outbox
  {
    Pub(if Marks(a) then p.published + {row} else p.published,
        p.batch,
        p.sent + {row},
        if Appends(p, outbox[row].val, a) then p.stream + [outbox[row].val] else p.stream)
  }

  function DrainRows(outbox: Outbox, p: Pub, rows: seq<nat>, attempts: seq<Attempt>): Pub
    requires forall x | x in rows :: x in outbox
    requires |attempts| >= |rows|
    decreases |rows|
  {
    if rows == [] then p
    else
      var next := PublishRow(outbox, p, rows[0], attempts[0]);
      if Succeeds(attempts[0]) then DrainRows(outbox, next, rows[1..], attempts[1..]) else next
  }

  /** The store and the stream as the publisher works on them. */
  class Publisher {
    const outbox: Outbox
    const bound: nat
    var published: set<nat>
    var sent: set<nat>
    var stream: seq<Envelope>

    constructor (outbox: Outbox, bound: nat)
      ensures this.outbox == outbox && this.bound == bound && Contents() == NO_PUB
    {
      this.outbox, this.bound := outbox, bound;
      published, sent, stream := {}, {}, [];
    }

    function Contents(): Pub
      reads this
    {
      Pub(published, [], sent, stream)
    }

    method Publish(row: nat, a: Attempt) returns (ok: bool)
      requires row in outbox
      modifies this
      ensures Contents() == PublishRow(outbox, old(Contents()), row, a)
      ensures ok == Succeeds(a)
      ensures published == old(published) + if a.confirmed && (a.markWrites || a.markAnswers) then {row} else {}
      ensures stream == old(stream) || stream == old(stream) + [outbox[row].val]
      ensures ok || row in published - old(published) ==> outbox[row].val in stream
      ensures ok ==> row in published
    {
      var e := outbox[row].val;
      sent := sent + {row};
      if a.appends || (a.confirmed && e !in stream) {
        stream := stream + [e];
      }
      if !a.confirmed {
        return false;
      }
      if a.markWrites || a.markAnswers {
        published := published + {row};
      }
      ok := a.markAnswers;
    }

    method Drain(batch: nat, attempts: seq<Attempt>) returns (ok: bool)
      requires |attempts| >= batch
      modifies this
      ensures var rows := Take(Unpublished(outbox, old(published), bound), batch);
              && Contents() == DrainRows(outbox, old(Contents()), rows, attempts)
              && (ok <==> forall i | 0 <= i < |rows| :: Succeeds(attempts[i]))
    {
      var rows := Take(Unpublished(outbox, published, bound), batch);
      for i := 0 to |rows|
        invariant DrainRows(outbox, Contents(), rows[i..], attempts[i..])
                  == DrainRows(outbox, old(Contents()), rows, attempts)
        invariant forall j | 0 <= j < i :: Succeeds(attempts[j])
      {
        assert rows[i..][1..] == rows[i + 1..] && attempts[i..][1..] == attempts[i + 1..];
        var done := Publish(rows[i], attempts[i]);
        if !done {
          return false;
        }
      }
      ok := true;
    }
  }

  /** The rows published before the first failure, counting a mark that was written
      although its answer was lost. */
  function Marked(rows: seq<nat>, attempts: seq<Attempt>): nat
    requires |attempts| >= |rows|
  {
    if rows == [] || !Marks(attempts[0]) then 0
    else 1 + if Succeeds(attempts[0]) then Marked(rows[1..], attempts[1..]) else 0
  }

  function AsSet(rows: seq<nat>): set<nat> {
    set x | x in rows
  }

  lemma {:induction false} MarkedWithin(rows: seq<nat>, attempts: seq<Attempt>)
    requires |attempts| >= |rows|
    ensures Marked(rows, attempts) <= |rows|
    ensures (forall i | 0 <= i < |rows| :: Succeeds(attempts[i])) ==> Marked(rows, attempts) == |rows|
    decreases |rows|
  {
    if rows != [] {
      MarkedWithin(rows[1..], attempts[1..]);
    }
  }

  lemma {:induction false} StreamGrows(outbox: Outbox, p: Pub, rows: seq<nat>, attempts: seq<Attempt>)
    requires forall x | x in rows :: x in outbox
    requires |attempts| >= |rows|
    ensures p.stream <= DrainRows(outbox, p, rows, attempts).stream
    decreases |rows|
  {
    if rows != [] {
      StreamGrows(outbox, PublishRow(outbox, p, rows[0], attempts[0]), rows[1..], attempts[1..]);
    }
  }

  lemma {:induction false} MarksPrefix(outbox: Outbox, p: Pub, rows: seq<nat>, attempts: seq<Attempt>)
    requires forall x | x in rows :: x in outbox
    requires |attempts| >= |rows|
    ensures Marked(rows, attempts) <= |rows|
    ensures DrainRows(outbox, p, rows, attempts).published == p.published + AsSet(rows[..Marked(rows, attempts)])
    decreases |rows|
  {
    MarkedWithin(rows, attempts);
    if rows != [] {
      var m := Marked(rows, attempts);
      MarksPrefix(outbox, PublishRow(outbox, p, rows[0], attempts[0]), rows[1..], attempts[1..]);
      if Marks(attempts[0]) {
        assert rows[..m] == [rows[0]] + rows[1..][..m - 1];
      }
    }
  }

  lemma {:induction false} MarkedIsStored(outbox: Outbox, p: Pub, rows: seq<nat>, attempts: seq<Attempt>, i: nat)
    requires forall x | x in rows :: x in outbox
    requires |attempts| >= |rows| && i < Marked(rows, attempts)
    ensures i < |rows| && outbox[rows[i]].val in DrainRows(outbox, p, rows, attempts).stream
    decreases |rows|
  {
    MarkedWithin(rows, attempts);
    var next := PublishRow(outbox, p, rows[0], attempts[0]);
    if i == 0 {
      StreamGrows(outbox, next, rows[1..], attempts[1..]);
      assert outbox[rows[0]].val in next.stream;
    } else {
      MarkedIsStored(outbox, next, rows[1..], attempts[1..], i - 1);
    }
  }

  /** A drain marks a prefix of the id-ordered batch, all of it when nothing fails;
      every marked row is in the stream, and the stream only grows. */
  lemma DrainMarksPrefix(outbox: Outbox, p: Pub, rows: seq<nat>, attempts: seq<Attempt>)
    requires forall x | x in rows :: x in outbox
    requires |attempts| >= |rows|
    ensures Marked(rows, attempts) <= |rows|
    ensures DrainRows(outbox, p, rows, attempts).published == p.published + AsSet(rows[..Marked(rows, attempts)])
    ensures forall i | 0 <= i < Marked(rows, attempts) ::
              outbox[rows[i]].val in DrainRows(outbox, p, rows, attempts).stream
    ensures p.stream <= DrainRows(outbox, p, rows, attempts).stream
    ensures (forall i | 0 <= i < |rows| :: Succeeds(attempts[i])) ==> Marked(rows, attempts) == |rows|
  {
    MarkedWithin(rows, attempts);
    StreamGrows(outbox, p, rows, attempts);
    MarksPrefix(outbox, p, rows, attempts);
    forall i: nat | i < Marked(rows, attempts)
      ensures outbox[rows[i]].val in DrainRows(outbox, p, rows, attempts).stream
    {
      MarkedIsStored(outbox, p, rows, attempts, i);
    }
  }

  /** Run of the pipeline's publisher steps. */
  function PubAfter(outbox: Outbox, n: nat, p: Pub, actions: seq<PubAction>): Option<Pub>
    decreases |actions|
  {
    if actions == [] then Some(p)
    else if PubEnabled(outbox, p, actions[0]) then PubAfter(outbox, n, PubDo(outbox, n, p, actions[0]), actions[1..])
    else None
  }

  lemma {:induction false} PubAfterConcat(outbox: Outbox, n: nat, p: Pub, a: seq<PubAction>, b: seq<PubAction>)
    requires PubAfter(outbox, n, p, a).Some?
    ensures PubAfter(outbox, n, p, a + b) == PubAfter(outbox, n, PubAfter(outbox, n, p, a).value, b)
    decreases |a|
  {
    if a == [] {
      assert a + b == b;
    } else {
      assert (a + b)[1..] == a[1..] + b;
      PubAfterConcat(outbox, n, PubDo(outbox, n, p, a[0]), a[1..], b);
    }
  }

  /** The steps one row takes. */
  function RowSteps(p: Pub, row: nat, e: Envelope, a: Attempt): seq<PubAction> {
    [Send] + (if Appends(p, e, a) then [Store(row)] else []) + (if Marks(a) then [Mark] else [])
      + (if Succeeds(a) then [] else [Stop])
  }

  lemma RowIsRun(outbox: Outbox, n: nat, p: Pub, a: Attempt)
    requires p.batch != [] && p.batch[0] in outbox
    ensures PubAfter(outbox, n, p, RowSteps(p, p.batch[0], outbox[p.batch[0]].val, a))
            == Some(PublishRow(outbox, p, p.batch[0], a).(batch := if Succeeds(a) then p.batch[1..] else []))
  {
    var row := p.batch[0];
    var e := outbox[row].val;
    var sent := PubDo(outbox, n, p, Send);
    var stored := if Appends(p, e, a) then PubDo(outbox, n, sent, Store(row)) else sent;
    var marked := if Marks(a) then PubDo(outbox, n, stored, Mark) else stored;
    var tail := (if Marks(a) then [Mark] else []) + (if Succeeds(a) then [] else [Stop]);
    var middle := if Appends(p, e, a) then [Store(row)] else [];
    assert RowSteps(p, row, e, a) == [Send] + (middle + tail);
    PubAfterConcat(outbox, n, p, [Send], middle + tail);
    PubAfterConcat(outbox, n, sent, middle, tail);
    PubAfterConcat(outbox, n, stored, if Marks(a) then [Mark] else [], if Succeeds(a) then [] else [Stop]);
  }

  /** A drain, with whatever failures, is a run of the publisher's steps: what the
      pipeline keeps in every run it keeps through the code's own loop. */
  lemma {:induction false} DrainIsRun(outbox: Outbox, n: nat, p: Pub, attempts: seq<Attempt>)
    returns (actions: seq<PubAction>)
    requires forall x | x in p.batch :: x in outbox
    requires |attempts| >= |p.batch|
    ensures PubAfter(outbox, n, p, actions) == Some(DrainRows(outbox, p, p.batch, attempts).(batch := []))
    decreases |p.batch|
  {
    if p.batch == [] {
      actions := [];
    } else {
      var row, a := p.batch[0], attempts[0];
      var steps := RowSteps(p, row, outbox[row].val, a);
      var next := PublishRow(outbox, p, row, a).(batch := if Succeeds(a) then p.batch[1..] else []);
      RowIsRun(outbox, n, p, a);
      if Succeeds(a) {
        var rest := DrainIsRun(outbox, n, next, attempts[1..]);
        PubAfterConcat(outbox, n, p, steps, rest);
        DrainIgnoresBatch(outbox, PublishRow(outbox, p, row, a), next, p.batch[1..], attempts[1..]);
        actions := steps + rest;
      } else {
        actions := steps;
      }
    }
  }

  lemma {:induction false} DrainKeepsBatch(outbox: Outbox, p: Pub, rows: seq<nat>, attempts: seq<Attempt>)
    requires forall x | x in rows :: x in outbox
    requires |attempts| >= |rows|
    ensures DrainRows(outbox, p, rows, attempts).batch == p.batch
    decreases |rows|
  {
    if rows != [] {
      DrainKeepsBatch(outbox, PublishRow(outbox, p, rows[0], attempts[0]), rows[1..], attempts[1..]);
    }
  }

  lemma {:induction false} DrainIgnoresBatch(outbox: Outbox, p: Pub, q: Pub, rows: seq<nat>, attempts: seq<Attempt>)
    requires q == p.(batch := q.batch)
    requires forall x | x in rows :: x in outbox
    requires |attempts| >= |rows|
    ensures DrainRows(outbox, q, rows, attempts).(batch := []) == DrainRows(outbox, p, rows, attempts).(batch := [])
    decreases |rows|
  {
    if rows != [] {
      DrainIgnoresBatch(outbox, PublishRow(outbox, p, rows[0], attempts[0]),
                        PublishRow(outbox, q, rows[0], attempts[0]),
                        rows[1..], attempts[1..]);
    }
  }

  ghost predicate Ascending(a: seq<nat>) {
    forall x, y | 0 <= x < y < |a| :: a[x] < a[y]
  }

  lemma AscendingTail(a: seq<nat>, x: nat)
    requires Ascending(a) && a != []
    ensures Ascending(a[1..])
    ensures x in a ==> a[0] <= x
    ensures x in a[1..] <==> x in a && x != a[0]
  {}

  lemma {:induction false} AscendingUnique(a: seq<nat>, b: seq<nat>)
    requires Ascending(a) && Ascending(b)
    requires forall x :: x in a <==> x in b
    ensures a == b
  {
    assert forall i | 0 <= i < |a| :: a[i] in b;
    assert forall i | 0 <= i < |b| :: b[i] in a;
    if a != [] && b != [] {
      AscendingTail(a, b[0]);
      AscendingTail(b, a[0]);
      assert a[0] in a && b[0] in b;
      forall x ensures x in a[1..] <==> x in b[1..] {
        AscendingTail(a, x);
        AscendingTail(b, x);
      }
      AscendingUnique(a[1..], b[1..]);
      assert a == [a[0]] + a[1..] && b == [b[0]] + b[1..];
    }
  }

  lemma AscendingSplit(a: seq<nat>, m: nat, x: nat)
    requires Ascending(a) && m <= |a|
    ensures Ascending(a[m..])
    ensures x in a[m..] <==> x in a && x !in AsSet(a[..m])
  {}

  /** The unpublished rows left by one failure-free drain. */
  lemma GoodDrain(outbox: Outbox, n: nat, p: Pub, batch: nat, attempts: seq<Attempt>)
    requires |attempts| >= batch && forall a | a in attempts :: Succeeds(a)
    ensures var waiting := Unpublished(outbox, p.published, n);
            var rows := Take(waiting, batch);
            Unpublished(outbox, DrainRows(outbox, p, rows, attempts).published, n) == waiting[|rows|..]
  {
    var waiting := Unpublished(outbox, p.published, n);
    var rows := Take(waiting, batch);
    DrainMarksPrefix(outbox, p, rows, attempts);
    assert rows[..|rows|] == rows == waiting[..|rows|];
    MarkedLeave(outbox, n, p.published, |rows|);
  }

  lemma MarkedLeave(outbox: Outbox, n: nat, published: set<nat>, m: nat)
    requires m <= |Unpublished(outbox, published, n)|
    ensures var waiting := Unpublished(outbox, published, n);
            Unpublished(outbox, published + AsSet(waiting[..m]), n) == waiting[m..]
  {
    var waiting := Unpublished(outbox, published, n);
    var left := Unpublished(outbox, published + AsSet(waiting[..m]), n);
    AscendingSplit(waiting, m, 0);
    forall x ensures x in waiting[m..] <==> x in left {
      AscendingSplit(waiting, m, x);
    }
    AscendingUnique(waiting[m..], left);
  }

  /** Rounds of failure-free drains with nothing committed in between. */
  function Rounds(outbox: Outbox, n: nat, p: Pub, batch: nat, rounds: nat): Pub {
    if rounds == 0 then p
    else
      var q := Rounds(outbox, n, p, batch, rounds - 1);
      DrainRows(outbox, q, Take(Unpublished(outbox, q.published, n), batch), seq(batch, _ => ALL_WELL))
  }

  /** What is left of w rows after the given number of full batches. */
  function Left(w: nat, batch: nat, rounds: nat): nat {
    if rounds == 0 then w
    else
      var before := Left(w, batch, rounds - 1);
      if before <= batch then 0 else before - batch
  }

  lemma {:induction false} LeftIsDifference(w: nat, batch: nat, rounds: nat)
    ensures Left(w, batch, rounds) == if rounds * batch <= w then w - rounds * batch else 0
  {
    if rounds > 0 {
      LeftIsDifference(w, batch, rounds - 1);
      assert rounds * batch == (rounds - 1) * batch + batch;
    }
  }

  lemma {:induction false} RoundsLeave(outbox: Outbox, n: nat, p: Pub, batch: nat, rounds: nat)
    ensures |Unpublished(outbox, Rounds(outbox, n, p, batch, rounds).published, n)|
            == Left(|Unpublished(outbox, p.published, n)|, batch, rounds)
  {
    if rounds > 0 {
      RoundsLeave(outbox, n, p, batch, rounds - 1);
      GoodDrain(outbox, n, Rounds(outbox, n, p, batch, rounds - 1), batch, seq(batch, _ => ALL_WELL));
    }
  }

  /** Each such round takes a full batch while there is one: w waiting rows are gone
      after exactly ceil(w / batch) rounds, and not before. */
  lemma RoundsEmptyTheOutbox(outbox: Outbox, n: nat, p: Pub, batch: nat, rounds: nat)
    requires batch > 0
    ensures Unpublished(outbox, Rounds(outbox, n, p, batch, rounds).published, n) == []
            <==> rounds >= (|Unpublished(outbox, p.published, n)| + batch - 1) / batch
  {
    var w := |Unpublished(outbox, p.published, n)|;
    RoundsLeave(outbox, n, p, batch, rounds);
    LeftIsDifference(w, batch, rounds);
    Ceiling(w, batch, rounds);
  }

  lemma Ceiling(w: nat, batch: nat, rounds: nat)
    requires batch > 0
    ensures rounds * batch >= w <==> rounds >= (w + batch - 1) / batch
  {
    var c := (w + batch - 1) / batch;
    assert c * batch <= w + batch - 1 < (c + 1) * batch;
    if rounds >= c {
      Product(c, rounds, batch);
    } else {
      Product(rounds + 1, c, batch);
    }
  }

  lemma Product(a: nat, b: nat, m: nat)
    requires a <= b
    ensures a * m <= b * m
  {}
}
