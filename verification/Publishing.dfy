/** The outbox publisher and the stream it feeds: batches read in id order, sends
    that may be stored late, twice or never, and marks that only follow storage. */
module Publishing {
  import opened Projection
  import opened Orders

  type Outbox = map<nat, Rec<Envelope>>

  /** What the publisher and the broker remember: the rows marked published, what is
      left of the batch being drained, the rows handed to the network so far, and
      the stream. */
  datatype Pub = Pub(published: set<nat>, batch: seq<nat>, sent: set<nat>, stream: seq<Envelope>)

  const NO_PUB := Pub({}, [], {}, [])

  /** The unpublished keys below n, ascending. */
  function Unpublished(outbox: Outbox, published: set<nat>, n: nat): (ids: seq<nat>)
    ensures forall x | 0 <= x < |ids| :: ids[x] in outbox && ids[x] < n && ids[x] !in published
    ensures forall x, y | 0 <= x < y < |ids| :: ids[x] < ids[y]
    ensures forall i | i in outbox && i < n && i !in published :: i in ids
  {
    if n == 0 then []
    else if n - 1 in outbox && n - 1 !in published then Unpublished(outbox, published, n - 1) + [n - 1]
    else Unpublished(outbox, published, n - 1)
  }

  function Take<T>(s: seq<T>, n: nat): seq<T> {
    if |s| <= n then s else s[..n]
  }

  datatype PubAction =
    | ReadBatch(limit: nat)  // the query for unpublished rows
    | Send                   // the next row's message leaves for the broker
    | Store(slot: nat)       // a sent message is appended to the stream, once more or for the first time
    | Mark                   // the broker confirmed the row, and its mark is written
    | Stop                   // the batch is given up: an error, a lost confirmation, a restart

  predicate PubEnabled(outbox: Outbox, p: Pub, a: PubAction) {
    match a
    case ReadBatch(_) => p.batch == []
    case Send => p.batch != []
    case Store(i) => i in p.sent && i in outbox
    case Mark => p.batch != [] && p.batch[0] in p.sent && p.batch[0] in outbox && outbox[p.batch[0]].val in p.stream
    case Stop => true
  }

  function PubDo(outbox: Outbox, n: nat, p: Pub, a: PubAction): Pub
    requires PubEnabled(outbox, p, a)
  {
    match a
    case ReadBatch(limit) => p.(batch := Take(Unpublished(outbox, p.published, n), limit))
    case Send => p.(sent := p.sent + {p.batch[0]})
    case Store(i) => p.(stream := p.stream + [outbox[i].val])
    case Mark => p.(published := p.published + {p.batch[0]}, batch := p.batch[1..])
    case Stop => p.(batch := [])
  }

  /** Row i is an earlier row of the same order as row j. */
  ghost predicate Behind(outbox: Outbox, i: nat, j: nat) {
    i in outbox && j in outbox && i < j && outbox[i].order == outbox[j].order
  }

  ghost predicate StoredBefore(stream: seq<Envelope>, p: nat, e: Envelope) {
    exists q | 0 <= q < p && q < |stream| :: stream[q] == e
  }

  ghost predicate Stored(stream: seq<Envelope>, e: Envelope) {
    StoredBefore(stream, |stream|, e)
  }

  ghost predicate WasSent(outbox: Outbox, sent: set<nat>, e: Envelope) {
    exists i | i in sent && i in outbox :: outbox[i].val == e
  }

  /** In the stream every copy of a row stands behind some copy of each earlier
      row of its order. */
  ghost predicate Fifo(outbox: Outbox, stream: seq<Envelope>) {
    forall p: nat, i: nat, j: nat | p < |stream| && Behind(outbox, i, j) && stream[p] == outbox[j].val ::
      StoredBefore(stream, p, outbox[i].val)
  }

  ghost predicate BatchOk(outbox: Outbox, p: Pub) {
    && (forall x | 0 <= x < |p.batch| :: p.batch[x] in outbox && p.batch[x] !in p.published)
    && (forall x, y | 0 <= x < y < |p.batch| :: p.batch[x] < p.batch[y])
    && (forall i, j | j in p.batch && Behind(outbox, i, j) :: i in p.published || i in p.batch)
  }

  ghost predicate PubInv(outbox: Outbox, p: Pub) {
    && p.published <= outbox.Keys
    && p.sent <= outbox.Keys
    && (forall i | i in p.published :: Stored(p.stream, outbox[i].val))
    && (forall e | e in p.stream :: WasSent(outbox, p.sent, e))
    && BatchOk(outbox, p)
    && (forall i, j | j in p.sent && Behind(outbox, i, j) :: Stored(p.stream, outbox[i].val))
    && Fifo(outbox, p.stream)
  }

  ghost predicate IdsUnique(outbox: Outbox) {
    forall i, j | i in outbox && j in outbox && outbox[i].val.id == outbox[j].val.id :: i == j
  }

  /** Whatever is behind a row of the batch is published or in the batch itself. */
  lemma BatchIsPrefix(outbox: Outbox, published: set<nat>, n: nat, limit: nat, i: nat, j: nat)
    requires forall x | x in outbox :: x < n
    requires j in Take(Unpublished(outbox, published, n), limit) && Behind(outbox, i, j)
    ensures i in published || i in Take(Unpublished(outbox, published, n), limit)
  {}

  lemma ReadBatchKeeps(outbox: Outbox, n: nat, p: Pub, limit: nat)
    requires PubInv(outbox, p) && PubEnabled(outbox, p, ReadBatch(limit))
    requires forall i | i in outbox :: i < n
    ensures PubInv(outbox, PubDo(outbox, n, p, ReadBatch(limit)))
  {
    var batch := Take(Unpublished(outbox, p.published, n), limit);
    forall i, j | j in batch && Behind(outbox, i, j) ensures i in p.published || i in batch {
      BatchIsPrefix(outbox, p.published, n, limit, i, j);
    }
    assert BatchOk(outbox, p.(batch := batch));
  }

  lemma SendKeeps(outbox: Outbox, n: nat, p: Pub)
    requires PubInv(outbox, p) && PubEnabled(outbox, p, Send)
    ensures PubInv(outbox, PubDo(outbox, n, p, Send))
  {}

  lemma StoredMonotone(stream: seq<Envelope>, e: Envelope, p: nat, x: Envelope)
    requires StoredBefore(stream, p, x)
    ensures StoredBefore(stream + [e], p, x)
  {
    var q :| 0 <= q < p && q < |stream| && stream[q] == x;
    assert (stream + [e])[q] == x;
  }

  lemma StoreKeeps(outbox: Outbox, n: nat, p: Pub, slot: nat)
    requires PubInv(outbox, p) && PubEnabled(outbox, p, Store(slot)) && IdsUnique(outbox)
    ensures PubInv(outbox, PubDo(outbox, n, p, Store(slot)))
  {
    var e := outbox[slot].val;
    var next := PubDo(outbox, n, p, Store(slot));
    forall x | Stored(p.stream, x) ensures Stored(next.stream, x) {
      StoredMonotone(p.stream, e, |p.stream|, x);
      StoredLater(next.stream, |p.stream|, x);
    }
    forall x | x in next.stream ensures WasSent(outbox, next.sent, x) {
      assert x in p.stream || x == e;
    }
    forall q: nat, i: nat, j: nat | q < |next.stream| && Behind(outbox, i, j) && next.stream[q] == outbox[j].val
      ensures StoredBefore(next.stream, q, outbox[i].val)
    {
      if q < |p.stream| {
        assert p.stream[q] == outbox[j].val;
        StoredMonotone(p.stream, e, q, outbox[i].val);
      } else {
        assert j == slot;
        StoredMonotone(p.stream, e, |p.stream|, outbox[i].val);
      }
    }
    assert BatchOk(outbox, p);
  }

  lemma StoredLater(stream: seq<Envelope>, p: nat, x: Envelope)
    requires StoredBefore(stream, p, x)
    ensures Stored(stream, x)
  {}

  lemma MarkKeeps(outbox: Outbox, n: nat, p: Pub)
    requires PubInv(outbox, p) && PubEnabled(outbox, p, Mark)
    ensures PubInv(outbox, PubDo(outbox, n, p, Mark))
  {}

  lemma PubStepKeeps(outbox: Outbox, n: nat, p: Pub, a: PubAction)
    requires PubInv(outbox, p) && PubEnabled(outbox, p, a) && IdsUnique(outbox)
    requires forall i | i in outbox :: i < n
    ensures PubInv(outbox, PubDo(outbox, n, p, a))
  {
    match a
    case ReadBatch(limit) => ReadBatchKeeps(outbox, n, p, limit);
    case Send => SendKeeps(outbox, n, p);
    case Store(i) => StoreKeeps(outbox, n, p, i);
    case Mark => MarkKeeps(outbox, n, p);
    case Stop =>
  }

  /** A row committed meanwhile, last of its order whatever its key relative to
      other orders' rows, disturbs neither a batch in progress nor the stream. */
  lemma CommitKeepsPub(outbox: Outbox, p: Pub, slot: nat, rec: Rec<Envelope>)
    requires PubInv(outbox, p)
    requires slot !in outbox
    requires forall j | j in outbox && outbox[j].order == rec.order :: j < slot
    requires forall j | j in outbox :: outbox[j].val.id != rec.val.id
    ensures PubInv(outbox[slot := rec], p)
  {
    var next := outbox[slot := rec];
    forall e | e in p.stream ensures WasSent(next, p.sent, e) && e != rec.val {
      assert WasSent(outbox, p.sent, e);
      var i :| i in p.sent && i in outbox && outbox[i].val == e;
      assert next[i].val == e;
    }
    forall i, j | Behind(next, i, j) && j != slot ensures Behind(outbox, i, j) {}
    forall q: nat, i: nat, j: nat | q < |p.stream| && Behind(next, i, j) && p.stream[q] == next[j].val
      ensures StoredBefore(p.stream, q, next[i].val)
    {
      assert p.stream[q] in p.stream;
      assert j != slot;
      assert Behind(outbox, i, j);
    }
    assert BatchOk(next, p) by {
      forall i, j | j in p.batch && Behind(next, i, j) ensures i in p.published || i in p.batch {
        assert Behind(outbox, i, j);
      }
    }
    forall i, j | j in p.sent && Behind(next, i, j) ensures Stored(p.stream, next[i].val) {
      assert Behind(outbox, i, j);
    }
  }
}
