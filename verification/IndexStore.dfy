/** The store as the service runs it: each method executes the statements of one transaction on
    working copies of the tables and installs them at commit. */
module IndexStore {
  import opened ProductEvents
  import IndexRetention

  /** The statement at which the database fails a call.  `CommitReply` is a commit that lands but
      whose confirmation is lost. */
  datatype Stage = Begin | Mark | Lock | Tombstone | ClearTombstone | Row | Commit | CommitReply | Never

  /** `Failed` is any error other than the two the consumer recognises. */
  datatype StoreResult = Committed(outcome: Outcome) | Failed

  /** INSERT INTO processed_events: a primary-key conflict is a duplicate delivery. */
  method MarkProcessed(ledger: map<EventId, Time>, eventId: EventId, now: Time)
    returns (ledger': map<EventId, Time>, duplicate: bool)
    ensures duplicate <==> eventId in ledger
    ensures ledger'.Keys == ledger.Keys + {eventId}
    ensures forall id :: id in ledger ==> ledger'[id] == ledger[id]
    ensures !duplicate ==> ledger'[eventId] == now
  {
    if eventId in ledger {
      return ledger, true;
    }
    return ledger[eventId := now], false;
  }

  ghost predicate Expired<K>(m: map<K, Time>, before: Time, k: K) {
    k in m && m[k] < before
  }

  ghost function AllExpired<K>(m: map<K, Time>, before: Time): set<K> {
    set k | k in m && m[k] < before
  }

  /** The rows `DELETE ... WHERE t < before ORDER BY t LIMIT limit` takes: expired, as many as the
      cap allows, and none younger than an expired row left behind. */
  ghost predicate IsOldestBatch<K>(m: map<K, Time>, before: Time, limit: nat, victims: set<K>) {
    && victims <= AllExpired(m, before)
    && |victims| == (if |AllExpired(m, before)| < limit then |AllExpired(m, before)| else limit)
    && forall a, b :: a in victims && b in AllExpired(m, before) && b !in victims ==> m[a] <= m[b]
  }

  lemma {:induction false} HasOldest<K>(m: map<K, Time>, ks: set<K>)
    requires ks != {} && ks <= m.Keys
    ensures exists k :: k in ks && forall j :: j in ks ==> m[k] <= m[j]
  {
    var k :| k in ks;
    if ks != {k} {
      HasOldest(m, ks - {k});
      var o :| o in ks - {k} && forall j :: j in ks - {k} ==> m[o] <= m[j];
      if m[o] < m[k] {
        assert forall j :: j in ks ==> m[o] <= m[j];
      } else {
        assert forall j :: j in ks ==> m[k] <= m[j];
      }
    }
  }

  method OldestExpired<K>(m: map<K, Time>, before: Time, limit: nat) returns (victims: set<K>)
    ensures IsOldestBatch(m, before, limit, victims)
  {
    var rest := set k | k in m && m[k] < before;
    ghost var all := rest;
    victims := {};
    while |victims| < limit && rest != {}
      invariant rest !! victims && rest + victims == all
      invariant |victims| <= limit
      invariant forall a, b :: a in victims && b in rest ==> m[a] <= m[b]
      decreases rest
    {
      HasOldest(m, rest);
      var k :| k in rest && forall j :: j in rest ==> m[k] <= m[j];
      victims := victims + {k};
      rest := rest - {k};
    }
    assert |all| == |rest| + |victims|;
  }

  lemma BatchIsExpired<K>(m: map<K, Time>, before: Time, limit: nat, victims: set<K>)
    requires IsOldestBatch(m, before, limit, victims)
    ensures forall k :: k in victims ==> Expired(m, before, k)
  {}

  lemma SweptTwice(s: IndexState, ps: set<ProductId>, ids: set<EventId>)
    ensures IndexRetention.Swept(IndexRetention.Swept(s, ps, {}), {}, ids) == IndexRetention.Swept(s, ps, ids)
    ensures IndexRetention.Swept(s, {}, {}) == s
  {}

  class Store {
    var ledger: map<EventId, Time>
    var tombstones: map<ProductId, Time>
    var rows: map<ProductId, ProductDoc>

    constructor ()
      ensures State() == EMPTY_INDEX
    {
      ledger, tombstones, rows := map[], map[], map[];
    }

    ghost function State(): IndexState
      reads this
    {
      IndexState(ledger.Keys, tombstones, rows)
    }

    method UpsertProduct(eventId: EventId, doc: ProductDoc, now: Time, failAt: Stage) returns (r: StoreResult)
      modifies this
      ensures r.Committed? ==>
                && r.outcome == OutcomeOf(old(State()), Upsert(eventId, doc))
                && State() == Apply(old(State()), Upsert(eventId, doc))
      ensures r.Failed? ==> State() == old(State())
                            || (failAt == CommitReply && State() == Apply(old(State()), Upsert(eventId, doc)))
      ensures failAt == Never ==> r.Committed?
      ensures forall id :: id in old(ledger) ==> id in ledger && ledger[id] == old(ledger[id])
    {
      if failAt == Begin {
        return Failed;
      }
      if failAt == Mark {
        return Failed;
      }
      var txLedger, duplicate := MarkProcessed(ledger, eventId, now);
      if duplicate {
        return Committed(Duplicate);
      }
      var txTombstones, txRows := tombstones, rows;
      if failAt == Lock || failAt == Tombstone {
        return Failed;
      }
      if doc.productId in txTombstones {
        if !(doc.updatedAt > txTombstones[doc.productId]) {
          if failAt == Commit {
            return Failed;
          }
          ledger := txLedger;
          if failAt == CommitReply {
            return Failed;
          }
          return Committed(TombstoneBlocked);
        }
        if failAt == ClearTombstone {
          return Failed;
        }
        txTombstones := txTombstones - {doc.productId};
      }
      if failAt == Row {
        return Failed;
      }
      if doc.productId !in txRows {
        txRows := txRows[doc.productId := doc];
      } else if txRows[doc.productId].updatedAt < doc.updatedAt {
        txRows := txRows[doc.productId := doc];
      }
      if failAt == Commit {
        return Failed;
      }
      ledger, tombstones, rows := txLedger, txTombstones, txRows;
      if failAt == CommitReply {
        return Failed;
      }
      return Committed(Applied);
    }

    method DeleteProduct(eventId: EventId, productId: ProductId, deletedAt: Time, now: Time, failAt: Stage)
      returns (r: StoreResult)
      modifies this
      ensures r.Committed? ==>
                && r.outcome == OutcomeOf(old(State()), Delete(eventId, productId, deletedAt))
                && State() == Apply(old(State()), Delete(eventId, productId, deletedAt))
      ensures r.Failed? ==> State() == old(State())
                            || (failAt == CommitReply
                                && State() == Apply(old(State()), Delete(eventId, productId, deletedAt)))
      ensures failAt == Never ==> r.Committed?
      ensures forall id :: id in old(ledger) ==> id in ledger && ledger[id] == old(ledger[id])
    {
      if failAt == Begin || failAt == Mark {
        return Failed;
      }
      var txLedger, duplicate := MarkProcessed(ledger, eventId, now);
      if duplicate {
        return Committed(Duplicate);
      }
      if failAt == Lock || failAt == Tombstone {
        return Failed;
      }
      var greatest := deletedAt;
      if productId in tombstones && tombstones[productId] > deletedAt {
        greatest := tombstones[productId];
      }
      var txTombstones := tombstones[productId := greatest];
      if failAt == Row {
        return Failed;
      }
      var txRows := rows;
      if productId in txRows && txRows[productId].updatedAt <= deletedAt {
        txRows := txRows - {productId};
      }
      if failAt == Commit {
        return Failed;
      }
      ledger, tombstones, rows := txLedger, txTombstones, txRows;
      if failAt == CommitReply {
        return Failed;
      }
      return Committed(Applied);
    }

    method DeleteExpiredTombstones(before: Time, limit: nat) returns (count: nat)
      modifies this
      ensures ledger == old(ledger) && rows == old(rows)
      ensures exists victims ::
                && IsOldestBatch(old(tombstones), before, limit, victims)
                && tombstones == old(tombstones) - victims
                && State() == IndexRetention.Swept(old(State()), victims, {})
                && count == |victims|
    {
      var victims := OldestExpired(tombstones, before, limit);
      tombstones := tombstones - victims;
      count := |victims|;
    }

    method DeleteExpiredProcessedEvents(before: Time, limit: nat) returns (count: nat)
      modifies this
      ensures tombstones == old(tombstones) && rows == old(rows)
      ensures exists victims ::
                && IsOldestBatch(old(ledger), before, limit, victims)
                && ledger == old(ledger) - victims
                && State() == IndexRetention.Swept(old(State()), {}, victims)
                && count == |victims|
    {
      var victims := OldestExpired(ledger, before, limit);
      ledger := ledger - victims;
      count := |victims|;
      assert State() == IndexRetention.Swept(old(State()), {}, victims);
    }

    /** One retention pass.  The two deletes are separate statements: either may fail alone. */
    method DeleteExpired(now: Time, retention: Time, limit: nat, tombstonesFail: bool, eventsFail: bool)
      modifies this
      ensures rows == old(rows)
      ensures exists ps, ids ::
                && State() == IndexRetention.Swept(old(State()), ps, ids)
                && (forall p :: p in ps ==> Expired(old(tombstones), now - retention, p))
                && (tombstonesFail ==> ps == {})
                && (!tombstonesFail ==> IsOldestBatch(old(tombstones), now - retention, limit, ps))
                && (eventsFail ==> ids == {})
                && (!eventsFail ==> IsOldestBatch(old(ledger), now - retention, limit, ids))
    {
      hide IsOldestBatch, AllExpired, IndexRetention.Swept;
      var before := now - retention;
      ghost var ps: set<ProductId>, ids: set<EventId> := {}, {};
      if !tombstonesFail {
        var _ := DeleteExpiredTombstones(before, limit);
        ps :| IsOldestBatch(old(tombstones), before, limit, ps)
              && State() == IndexRetention.Swept(old(State()), ps, {});
        BatchIsExpired(old(tombstones), before, limit, ps);
      }
      label between:
      if !eventsFail {
        var _ := DeleteExpiredProcessedEvents(before, limit);
        ids :| IsOldestBatch(old@between(ledger), before, limit, ids)
               && State() == IndexRetention.Swept(old@between(State()), {}, ids);
      }
      SweptTwice(old(State()), ps, ids);
    }
  }
}
