/** Applying events to the reporting tables: the deduplicating transaction, the
    projector's answer to the broker, and what repeated delivery comes to. */
module Reporting {
  import opened Options
  import opened Lifecycle
  import opened Projection

  datatype Tables = Tables(processed: set<EventId>, figures: Figures)

  const NO_TABLES := Tables({}, EMPTY)

  /** Where a transaction can break. CommitLost is a commit that took effect but
      whose answer never arrived, so the caller sees an error. */
  datatype Fault = NoFault | BeginFails | InsertFails | ProjectFails | CommitFails | CommitLost

  datatype Outcome = Ok(applied: bool) | Error

  predicate FitsRow(t: Totals) {
    && -0x8000_0000 <= t.placed < 0x8000_0000
    && -0x8000_0000 <= t.paid < 0x8000_0000
    && -0x8000_0000_0000_0000 <= t.recognised < 0x8000_0000_0000_0000
    && -0x8000_0000_0000_0000 <= t.refunded < 0x8000_0000_0000_0000
  }

  /** The statements of project fail: the payload does not parse, or a counter or a
      total would leave the width of its column. */
  predicate ProjectErrs(f: Figures, e: Envelope) {
    || e.payload.Unparseable?
    || (var effect := EffectOf(Held(f, e.order), e);
        effect.AddTo? && !FitsRow(Plus(Row(f.revenue, effect.key), effect.delta)))
  }

  /** The tables and the answer one call of Apply leaves. */
  function ApplyTx(t: Tables, e: Envelope, fault: Fault): (Tables, Outcome) {
    if fault.BeginFails? || fault.InsertFails? then (t, Error)
    else if e.id in t.processed then (t, Ok(false))
    else if fault.ProjectFails? || ProjectErrs(t.figures, e) then (t, Error)
    else if fault.CommitFails? then (t, Error)
    else (Tables(t.processed + {e.id}, Project(t.figures, e)), if fault.CommitLost? then Error else Ok(true))
  }

  datatype Message = Undecodable | Decoded(env: Envelope)
  datatype Verdict = Ack | Nak

  /** The tables and the verdict one delivery leaves. */
  function Handle(t: Tables, m: Message, fault: Fault): (Tables, Verdict) {
    match m
    case Undecodable => (t, Ack)
    case Decoded(e) =>
      if e.version != VERSION then (t, Ack)
      else
        var (after, outcome) := ApplyTx(t, e, fault);
        (after, if outcome.Error? then Nak else Ack)
  }

  /** What a verdict means: a message of another version, or one that cannot be
      decoded, is acknowledged and ignored; any other is acknowledged only once its
      event has been applied, now or before; and a refused one will come again and,
      unless the commit's answer was lost, left no trace. */
  lemma VerdictMeans(t: Tables, m: Message, fault: Fault)
    ensures var (after, verdict) := Handle(t, m, fault);
            var ours := m.Decoded? && m.env.version == VERSION;
            && t.processed <= after.processed
            && (!ours ==> verdict == Ack && after == t)
            && (ours && verdict == Ack ==> m.env.id in after.processed)
            && (verdict == Nak && fault != CommitLost ==> after == t)
            && (after != t ==> ours && m.env.id !in t.processed && m.env.id in after.processed)
  {}

  /** Handling a message changes nothing, or marks its event and projects it. */
  lemma HandleEffect(t: Tables, m: Message, fault: Fault)
    ensures var after := Handle(t, m, fault).0;
            after == t
            || (m.Decoded? && m.env.id !in t.processed
                && after == Tables(t.processed + {m.env.id}, Project(t.figures, m.env)))
  {}

  /** The reporting database, written statement by statement. */
  class ReportingStore {
    var processed: set<EventId>
    var revenue: map<Key, Totals>
    var recognised: map<OrderId, Entry>

    function Contents(): Tables
      reads this
    {
      Tables(processed, Figures(revenue, recognised))
    }

    constructor ()
      ensures Contents() == NO_TABLES
    {
      processed, revenue, recognised := {}, map[], map[];
    }

    method InsertProcessed(id: EventId) returns (conflict: bool)
      modifies this`processed
      ensures conflict == (id in old(processed))
      ensures processed == old(processed) + {id}
    {
      conflict := id in processed;
      processed := processed + {id};
    }

    /** Insert the row, or add to it on conflict; nothing is written on overflow. */
    method UpsertRevenue(k: Key, d: Totals) returns (ok: bool)
      modifies this`revenue
      ensures ok == FitsRow(Plus(Row(old(revenue), k), d))
      ensures ok <==> var row := Row(old(revenue), k);
                      && -2147483648 <= row.placed + d.placed <= 2147483647
                      && -2147483648 <= row.paid + d.paid <= 2147483647
                      && -9223372036854775808 <= row.recognised + d.recognised <= 9223372036854775807
                      && -9223372036854775808 <= row.refunded + d.refunded <= 9223372036854775807
      ensures revenue == if ok then Upsert(old(revenue), k, d) else old(revenue)
    {
      var row := if k in revenue then revenue[k] else ZERO;
      var sum := Plus(row, d);
      ok := FitsRow(sum);
      if ok {
        revenue := revenue[k := sum];
      }
    }

    method InsertRecognisedOrder(o: OrderId, entry: Entry)
      modifies this`recognised
      ensures recognised == InsertRecognised(old(recognised), o, entry)
    {
      if o !in recognised {
        recognised := recognised[o := entry];
      }
    }

    method TakeRecognisedOrder(o: OrderId) returns (taken: Option<Entry>)
      modifies this`recognised
      ensures taken == if o in old(recognised) then Some(old(recognised)[o]) else None
      ensures recognised == old(recognised) - {o}
    {
      if o in recognised {
        taken := Some(recognised[o]);
        recognised := recognised - {o};
      } else {
        taken := None;
        assert recognised == recognised - {o};
      }
    }

    /** Credits the day the revenue was recognised on. */
    method ReverseOrder(o: OrderId) returns (ok: bool)
      modifies this`revenue, this`recognised
      ensures ok ==> Figures(revenue, recognised) == Reverse(old(Contents()).figures, o)
      ensures ok <==> (o in old(recognised) ==>
                         var entry := old(recognised)[o];
                         FitsRow(Plus(Row(old(revenue), entry.key), Totals(0, 0, 0, entry.amount))))
    {
      var taken := TakeRecognisedOrder(o);
      if taken.None? {
        assert recognised == old(recognised);
        return true;
      }
      ok := UpsertRevenue(taken.value.key, Totals(0, 0, 0, taken.value.amount));
    }

    method ProjectEvent(e: Envelope) returns (ok: bool)
      modifies this`revenue, this`recognised
      ensures ok <==> !ProjectErrs(old(Contents()).figures, e)
      ensures ok ==> Figures(revenue, recognised) == Project(old(Contents()).figures, e)
      ensures ok ==> Credited(old(Contents()).figures, e, Figures(revenue, recognised))
    {
      ghost var before := Contents().figures;
      match e.payload {
        case OrderCreated(_, currency) =>
          ok := UpsertRevenue(Key(Day(e.occurredAt), currency), Totals(1, 0, 0, 0));
        case StatusChanged(_, to, total, currency) =>
          if to == Paid {
            ok := UpsertRevenue(Key(Day(e.occurredAt), currency), Totals(0, 1, total, 0));
            if ok {
              InsertRecognisedOrder(e.order, Entry(Key(Day(e.occurredAt), currency), total));
            }
          } else if to == Refunded {
            ok := ReverseOrder(e.order);
          } else {
            ok := true;
          }
        case Unparseable =>
          ok := false;
        case OtherType =>
          ok := true;
      }
      ProjectIsCrediting(before, e, Figures(revenue, recognised));
    }

    /** One transaction: mark the event processed, project it, commit; every error
        path rolls back to what the transaction began with. */
    method Apply(e: Envelope, fault: Fault) returns (outcome: Outcome)
      modifies this
      ensures (Contents(), outcome) == ApplyTx(old(Contents()), e, fault)
      ensures outcome == Ok(true) ==> Credited(old(Contents()).figures, e, Contents().figures)
    {
      ProjectCredits(Contents().figures, e);
      if fault.BeginFails? || fault.InsertFails? {
        return Error;
      }
      var saved := (processed, revenue, recognised);
      var conflict := InsertProcessed(e.id);
      if conflict {
        processed := saved.0;
        return Ok(false);
      }
      var projected := ProjectEvent(e);
      if fault.ProjectFails? || !projected || fault.CommitFails? {
        processed, revenue, recognised := saved.0, saved.1, saved.2;
        return Error;
      }
      outcome := if fault.CommitLost? then Error else Ok(true);
    }
  }

  /** The consumer's callback over a store it changes through Apply alone. */
  class Projector {
    const store: ReportingStore

    constructor (store: ReportingStore)
      ensures this.store == store
    {
      this.store := store;
    }

    method HandleMessage(m: Message, fault: Fault) returns (verdict: Verdict)
      modifies store
      ensures (store.Contents(), verdict) == Handle(old(store.Contents()), m, fault)
    {
      match m
      case Undecodable =>
        verdict := Ack;
      case Decoded(e) =>
        if e.version != VERSION {
          return Ack;
        }
        var outcome := store.Apply(e, fault);
        verdict := if outcome.Error? then Nak else Ack;
    }
  }

  datatype Delivery = Delivery(env: Envelope, fault: Fault)

  function Deliver(ds: seq<Delivery>): Tables {
    if ds == [] then NO_TABLES
    else
      var n := |ds| - 1;
      ApplyTx(Deliver(ds[..n]), ds[n].env, ds[n].fault).0
  }

  function Answer(ds: seq<Delivery>, i: nat): Outcome
    requires i < |ds|
  {
    ApplyTx(Deliver(ds[..i]), ds[i].env, ds[i].fault).1
  }

  /** The events whose delivery changed the tables, in that order. */
  function Effective(ds: seq<Delivery>): seq<Envelope> {
    if ds == [] then []
    else
      var n := |ds| - 1;
      if Deliver(ds) != Deliver(ds[..n]) then Effective(ds[..n]) + [ds[n].env] else Effective(ds[..n])
  }

  predicate Delivered(ds: seq<Delivery>, id: EventId) {
    exists i | 0 <= i < |ds| :: ds[i].env.id == id
  }

  function FirstOccurrences(ds: seq<Delivery>): seq<Envelope> {
    if ds == [] then []
    else
      var n := |ds| - 1;
      if Delivered(ds[..n], ds[n].env.id) then FirstOccurrences(ds[..n])
      else FirstOccurrences(ds[..n]) + [ds[n].env]
  }

  ghost predicate DistinctIds(es: seq<Envelope>) {
    forall i, j | 0 <= i < j < |es| :: es[i].id != es[j].id
  }

  ghost predicate HasId(es: seq<Envelope>, id: EventId) {
    exists i | 0 <= i < |es| :: es[i].id == id
  }

  lemma HasIdSnoc(es: seq<Envelope>, e: Envelope, id: EventId)
    ensures HasId(es + [e], id) <==> HasId(es, id) || e.id == id
  {
    if HasId(es, id) {
      var i :| 0 <= i < |es| && es[i].id == id;
      assert (es + [e])[i].id == id;
    }
    if e.id == id {
      assert (es + [e])[|es|].id == id;
    }
  }

  /** Applying an event changes nothing, or marks it and projects it. */
  lemma ApplyEffect(t: Tables, e: Envelope, fault: Fault)
    ensures var after := ApplyTx(t, e, fault).0;
            after == t || (e.id !in t.processed && after == Tables(t.processed + {e.id}, Project(t.figures, e)))
  {}

  /** Exactly-once effect: however often and with whatever failures events are
      delivered, the figures are those of applying each effective event once. */
  lemma {:induction false} ExactlyOnce(ds: seq<Delivery>)
    ensures Deliver(ds).figures == Fold(Effective(ds))
    ensures DistinctIds(Effective(ds))
    ensures forall id :: id in Deliver(ds).processed <==> HasId(Effective(ds), id)
  {
    if ds != [] {
      var n := |ds| - 1;
      ExactlyOnce(ds[..n]);
      ApplyEffect(Deliver(ds[..n]), ds[n].env, ds[n].fault);
      if Deliver(ds) != Deliver(ds[..n]) {
        OnceMore(Deliver(ds[..n]), Effective(ds[..n]), ds[n].env);
      }
    }
  }

  lemma OnceMore(t: Tables, es: seq<Envelope>, e: Envelope)
    requires t.figures == Fold(es) && DistinctIds(es) && e.id !in t.processed
    requires forall id :: id in t.processed <==> HasId(es, id)
    ensures Project(t.figures, e) == Fold(es + [e]) && DistinctIds(es + [e])
    ensures forall id :: id in t.processed + {e.id} <==> HasId(es + [e], id)
  {
    FoldSnoc(es, e);
    forall id ensures HasId(es + [e], id) <==> HasId(es, id) || e.id == id {
      HasIdSnoc(es, e, id);
    }
  }

  lemma {:induction false} ProcessedGrows(ds: seq<Delivery>, i: nat)
    requires i <= |ds|
    ensures Deliver(ds[..i]).processed <= Deliver(ds).processed
  {
    if i == |ds| {
      assert ds[..i] == ds;
    } else {
      ProcessedGrows(ds[..|ds| - 1], i);
      assert ds[..|ds| - 1][..i] == ds[..i];
    }
  }

  lemma DeliverStep(ds: seq<Delivery>, i: nat)
    requires i < |ds|
    ensures Deliver(ds[..i + 1]) == ApplyTx(Deliver(ds[..i]), ds[i].env, ds[i].fault).0
  {
    assert ds[..i + 1][..i] == ds[..i];
  }

  /** Apply answers true at most once per event id; an error leaves no processed
      mark unless the commit's answer was lost. */
  lemma AppliedAtMostOnce(ds: seq<Delivery>, i: nat, j: nat)
    requires i < j < |ds| && ds[i].env.id == ds[j].env.id
    ensures Answer(ds, i).Ok? ==> Answer(ds, j) != Ok(true)
    ensures Answer(ds, i).Error? && ds[i].fault != CommitLost ==> Deliver(ds[..i + 1]) == Deliver(ds[..i])
  {
    DeliverStep(ds, i);
    ProcessedGrows(ds[..j], i + 1);
    assert ds[..j][..i + 1] == ds[..i + 1];
  }

  ghost predicate FailureFree(ds: seq<Delivery>) {
    forall i | 0 <= i < |ds| :: ds[i].fault.NoFault? && Answer(ds, i).Ok?
  }

  lemma DeliveredSnoc(ds: seq<Delivery>, id: EventId)
    requires ds != []
    ensures Delivered(ds, id) <==> Delivered(ds[..|ds| - 1], id) || ds[|ds| - 1].env.id == id
  {}

  lemma FailureFreePrefix(ds: seq<Delivery>, n: nat)
    requires FailureFree(ds) && n <= |ds|
    ensures FailureFree(ds[..n])
  {
    forall i | 0 <= i < n ensures ds[..n][i].fault.NoFault? && Answer(ds[..n], i).Ok? {
      assert ds[..n][..i] == ds[..i] && Answer(ds, i).Ok?;
    }
  }

  lemma GoodDelivery(t: Tables, e: Envelope)
    requires ApplyTx(t, e, NoFault).1.Ok?
    ensures ApplyTx(t, e, NoFault).1 == Ok(e.id !in t.processed)
    ensures ApplyTx(t, e, NoFault).0 == t <==> e.id in t.processed
    ensures ApplyTx(t, e, NoFault).0.processed == t.processed + {e.id}
  {}

  /** Without failures, what is processed is what was delivered and the effective
      events are the first occurrences. */
  lemma {:induction false} FirstOccurrencesTakeEffect(ds: seq<Delivery>)
    requires FailureFree(ds)
    ensures forall id :: id in Deliver(ds).processed <==> Delivered(ds, id)
    ensures Effective(ds) == FirstOccurrences(ds)
  {
    if ds != [] {
      var n := |ds| - 1;
      FailureFreePrefix(ds, n);
      FirstOccurrencesTakeEffect(ds[..n]);
      assert Answer(ds, n).Ok?;
      GoodDelivery(Deliver(ds[..n]), ds[n].env);
      forall id ensures id in Deliver(ds).processed <==> Delivered(ds, id) {
        DeliveredSnoc(ds, id);
      }
    }
  }

  /** Without failures Apply answers true exactly on an id's first delivery. */
  lemma TrueOnFirstDelivery(ds: seq<Delivery>, i: nat)
    requires FailureFree(ds) && i < |ds|
    ensures Answer(ds, i) == Ok(!Delivered(ds[..i], ds[i].env.id))
  {
    FailureFreePrefix(ds, i);
    FirstOccurrencesTakeEffect(ds[..i]);
    assert Answer(ds, i).Ok?;
    GoodDelivery(Deliver(ds[..i]), ds[i].env);
  }
}
