/** The stores of the read model: the in-memory one, the transactional one, and the consumer's own
    record of finished events. */
module ProjectionStores {
  import opened Projections

  /** Claiming an event id counts its contribution, the first time only. */
  function ClaimOnce(claims: Claims, id: EventId, c: Contribution): Claims {
    if id in claims then claims else claims[id := c]
  }

  lemma CountsAreTheirCounters(a: Counts, b: Counts)
    requires forall counter: Counter :: a.Get(counter) == b.Get(counter)
    ensures a == b
  {
    assert a.Get(Sites) == b.Get(Sites) && a.Get(Zones) == b.Get(Zones) && a.Get(Aisles) == b.Get(Aisles);
    assert a.Get(LocationTypes) == b.Get(LocationTypes) && a.Get(Rules) == b.Get(Rules) && a.Get(Slots) == b.Get(Slots);
    assert a.Get(Decommissioned) == b.Get(Decommissioned) && a.Get(Imports) == b.Get(Imports);
    assert a.Get(RowsSubmitted) == b.Get(RowsSubmitted) && a.Get(RowsImported) == b.Get(RowsImported);
    assert a.Get(RowsRejected) == b.Get(RowsRejected);
  }

  /** The claims fix the rows: two stores with the same claims show the same report. */
  lemma SameClaimsSameRows(rows: map<RowKey, Counts>, rows': map<RowKey, Counts>, claims: Claims)
    requires Shows(rows, claims) && Shows(rows', claims)
    ensures rows == rows'
  {
    forall key | key in rows ensures key in rows' && rows[key] == rows'[key] {
      assert Sums(rows[key], claims, key) && Sums(rows'[key], claims, key);
      CountsAreTheirCounters(rows[key], rows'[key]);
    }
    assert forall key :: key in rows' ==> key in rows;
  }

  // ---- deliveries ----

  datatype Delivery = Delivery(id: EventId, contribution: Contribution)

  function Deliver(claims: Claims, deliveries: seq<Delivery>): Claims {
    if deliveries == [] then claims
    else
      var last := deliveries[|deliveries| - 1];
      ClaimOnce(Deliver(claims, deliveries[..|deliveries| - 1]), last.id, last.contribution)
  }

  /** An event id stands for one contribution. */
  ghost predicate Consistent(deliveries: seq<Delivery>) {
    forall d, e :: d in deliveries && e in deliveries && d.id == e.id ==> d == e
  }

  lemma {:induction false} DeliveredExactly(deliveries: seq<Delivery>, d: Delivery)
    requires Consistent(deliveries)
    ensures var claims := Deliver(map[], deliveries);
            d in deliveries <==> d.id in claims && claims[d.id] == d.contribution
  {
    if deliveries != [] {
      var before, last := deliveries[..|deliveries| - 1], deliveries[|deliveries| - 1];
      assert deliveries == before + [last];
      DeliveredExactly(before, d);
      var claims := Deliver(map[], before);
      if last.id in claims {
        var earlier := Delivery(last.id, claims[last.id]);
        DeliveredExactly(before, earlier);
        assert earlier in deliveries && last in deliveries;
      } else {
        DeliveredExactly(before, last);
      }
    }
  }

  /** Repetitions and reordering do not matter: deliveries of the same events give the same report. */
  lemma DeliveriesConverge(a: seq<Delivery>, b: seq<Delivery>, rows: map<RowKey, Counts>, rows': map<RowKey, Counts>)
    requires Consistent(a) && Consistent(b) && forall d :: d in a <==> d in b
    requires Shows(rows, Deliver(map[], a)) && Shows(rows', Deliver(map[], b))
    ensures Deliver(map[], a) == Deliver(map[], b) && rows == rows'
  {
    var x, y := Deliver(map[], a), Deliver(map[], b);
    forall id | id in x ensures id in y && y[id] == x[id] {
      DeliveredExactly(a, Delivery(id, x[id]));
      DeliveredExactly(b, Delivery(id, x[id]));
    }
    forall id | id in y ensures id in x {
      DeliveredExactly(b, Delivery(id, y[id]));
      DeliveredExactly(a, Delivery(id, y[id]));
    }
    assert x == y;
    SameClaimsSameRows(rows, rows', x);
  }

  // ---- the in-memory store ----

  /** Midnight UTC on the first day of year 1, the watermark of a store that has applied nothing. */
  const ZERO_TIME: int := -62_135_596_800

  ghost predicate IsLatest(latest: int, claims: Claims) {
    && latest >= ZERO_TIME
    && (forall id :: id in claims ==> claims[id].at <= latest)
    && (latest != ZERO_TIME ==> exists id :: id in claims && claims[id].at == latest)
  }

  class MemoryStore {
    var seen: set<EventId>
    var rows: map<RowKey, Counts>
    var latest: int
    ghost var claims: Claims

    ghost predicate Valid()
      reads this
    {
      seen == claims.Keys && Shows(rows, claims) && IsLatest(latest, claims)
    }

    constructor ()
      ensures Valid() && claims == map[]
    {
      seen, rows, latest, claims := {}, map[], ZERO_TIME, map[];
      new;
      assert forall key :: !Touched(map[], key);
    }

    method FirstApply(id: EventId, c: Contribution) returns (first: bool)
      requires Valid()
      modifies this`seen, this`latest
      ensures first <==> id !in claims
      ensures seen == claims.Keys + {id}
      ensures IsLatest(latest, ClaimOnce(claims, id, c))
    {
      if id in seen {
        return false;
      }
      seen := seen + {id};
      if c.at > latest {
        latest := c.at;
      }
      assert claims[id := c][id].at == c.at;
      if latest != c.at && latest != ZERO_TIME {
        ghost var i :| i in claims && claims[i].at == latest;
        assert claims[id := c][i].at == latest;
      }
      return true;
    }

    /** Applies an event: a repeated id changes nothing. */
    method Mutate(id: EventId, c: Contribution)
      requires Valid()
      modifies this
      ensures Valid() && claims == ClaimOnce(old(claims), id, c)
      ensures id in old(claims) ==> rows == old(rows) && latest == old(latest)
    {
      var first := FirstApply(id, c);
      if first {
        AddKeepsShowing(rows, claims, id, c);
        rows := AddTo(rows, c);
        claims := claims[id := c];
      }
    }

    /** The rows whose day starts in [from, to) and, when a scope is given, of that scope: each once. */
    method Query(from: int, to: int, scope: string) returns (out: seq<(RowKey, Counts)>)
      requires Valid()
      ensures forall j, k :: 0 <= j < k < |out| ==> out[j].0 != out[k].0
      ensures forall r :: r in out <==>
        r.0 in rows && rows[r.0] == r.1 && from <= r.0.day * 86_400 < to && (scope == "" || r.0.scope == scope)
      ensures forall r :: r in out ==> Sums(r.1, claims, r.0)
    {
      out := [];
      var rest := rows.Keys;
      while rest != {}
        invariant rest <= rows.Keys
        invariant forall j, k :: 0 <= j < k < |out| ==> out[j].0 != out[k].0
        invariant forall r :: r in out <==>
          r.0 in rows.Keys - rest && rows[r.0] == r.1 && Selected(r.0, from, to, scope)
        decreases |rest|
      {
        var key :| key in rest;
        ghost var was := out;
        if Selected(key, from, to, scope) {
          assert forall k :: 0 <= k < |out| ==> out[k] in out;
          out := out + [(key, rows[key])];
        }
        rest := rest - {key};
      }
    }

    /** How far the report trails `now`: never negative, and zero before the first event. */
    method FreshnessLag(now: int) returns (lag: int)
      requires Valid()
      ensures exists last :: IsLatest(last, claims) && lag == if last == ZERO_TIME || now < last then 0 else now - last
    {
      if latest == ZERO_TIME || now - latest < 0 {
        return 0;
      }
      return now - latest;
    }
  }

  predicate Selected(key: RowKey, from: int, to: int, scope: string) {
    from <= key.day * SECONDS_PER_DAY < to && (scope == "" || key.scope == scope)
  }

  // ---- the transactional store ----

  /** Where one application fails: opening the transaction, claiming, upserting, or committing; a commit
      that reports an error may have been applied. */
  datatype ApplyFault = NoFault | BeginFails | ClaimFails | UpsertFails | CommitUnclear(applied: bool)

  class PostgresProjection {
    /** analytics_processed_events: id and occurrence time. */
    var processed: map<EventId, int>
    var rollup: map<RowKey, Counts>
    ghost var claims: Claims

    ghost predicate Valid()
      reads this
    {
      && processed.Keys == claims.Keys
      && (forall id :: id in claims ==> processed[id] == claims[id].at)
      && Shows(rollup, claims)
    }

    constructor ()
      ensures Valid() && claims == map[]
    {
      processed, rollup, claims := map[], map[], map[];
      new;
      assert forall key :: !Touched(map[], key);
    }

    /** Claims the id and adds the contribution in one transaction. Whatever fails, either both happen or
        neither; success means the id is claimed, now or before. */
    method Apply(id: EventId, c: Contribution, fault: ApplyFault) returns (ok: bool)
      requires Valid()
      modifies this
      ensures Valid()
      ensures ok <==> fault.NoFault? || (fault.UpsertFails? && id in old(claims))
      ensures claims == if ok || fault == CommitUnclear(true) then ClaimOnce(old(claims), id, c) else old(claims)
      ensures ok ==> id in claims
      ensures id in old(claims) ==> rollup == old(rollup) && processed == old(processed)
    {
      if fault.BeginFails? {
        return false;
      }
      // What the transaction has written, invisible until it commits.
      var txProcessed, txRollup := processed, rollup;
      if fault.ClaimFails? {
        return false;
      }
      if id !in txProcessed {
        txProcessed := txProcessed[id := c.at];
        if fault.UpsertFails? {
          return false;
        }
        AddKeepsShowing(rollup, claims, id, c);
        txRollup := AddTo(txRollup, c);
      }
      if !fault.CommitUnclear? || fault.applied {
        processed, rollup, claims := txProcessed, txRollup, ClaimOnce(claims, id, c);
      }
      return !fault.CommitUnclear?;
    }
  }

  // ---- the consumer's own record ----

  /** A call to record an id either returns, or fails with the id inserted all the same or not. */
  datatype MarkEnd = Returned | Lost(inserted: bool)

  class ConsumedEventsRepo {
    var consumed: set<EventId>
    /** The ids recorded so far in call order, and which of those calls reported a first recording. */
    ghost var recorded: seq<EventId>
    ghost var first: seq<bool>

    /** The set is what was ever recorded, and no id was reported as new twice. */
    ghost predicate Valid()
      reads this
    {
      && |first| == |recorded|
      && (forall id :: id in consumed <==> id in recorded)
      && (forall j, k :: 0 <= j < k < |recorded| && recorded[j] == recorded[k] ==> !first[k])
    }

    constructor ()
      ensures Valid() && recorded == []
    {
      consumed, recorded, first := {}, [], [];
    }

    /** When the query succeeds, true exactly when some earlier call recorded the id. */
    method IsProcessed(id: EventId, queryFails: bool) returns (yes: bool, ok: bool)
      requires Valid()
      ensures ok == !queryFails
      ensures yes <==> ok && id in recorded
    {
      ok := !queryFails;
      yes := ok && id in consumed;
    }

    /** Records an id for good. Of all calls for one id, at most the first reports it as new. */
    method MarkProcessed(id: EventId, end: MarkEnd) returns (isNew: bool, ok: bool)
      requires Valid()
      modifies this
      ensures Valid() && (ok <==> end.Returned?)
      ensures recorded == old(recorded) + (if end.Returned? || end.inserted then [id] else [])
      ensures first == old(first) + (if end.Returned? || end.inserted then [isNew] else [])
      ensures ok ==> (isNew <==> id !in old(recorded))
    {
      ok := end.Returned?;
      isNew := ok && id !in consumed;
      if end.Returned? || end.inserted {
        assert forall j :: 0 <= j < |recorded| ==> recorded[j] in recorded;
        consumed, recorded, first := consumed + {id}, recorded + [id], first + [isNew];
      }
    }
  }
}
