/** The consumer as it runs: one delivery at a time, calling the store and then acking, nacking or
    publishing a copy.  Each call is one `Handle` step of the broker model. */
module Consumer {
  import opened ProductEvents
  import opened Broker
  import opened IndexStore

  /** The channel's view of the four queues. */
  class Channel {
    var main: seq<Message>
    var unacked: seq<Message>
    var retry: seq<Message>
    var dlq: seq<Message>

    constructor ()
      ensures Contents() == Queues([], [], [], [])
    {
      main, unacked, retry, dlq := [], [], [], [];
    }

    function Contents(): Queues
      reads this
    {
      Queues(main, unacked, retry, dlq)
    }

    /** Ack removes the delivery for good. */
    method Ack(i: nat)
      requires i < |unacked|
      modifies this`unacked
      ensures unacked == Remove(old(unacked), i)
    {
      unacked := unacked[..i] + unacked[i + 1..];
    }

    /** Nack with requeue returns the delivery to the main queue unchanged. */
    method NackRequeue(i: nat)
      requires i < |unacked|
      modifies this`unacked, this`main
      ensures unacked == Remove(old(unacked), i)
      ensures main == old(main) + [old(unacked)[i]]
    {
      main := main + [unacked[i]];
      unacked := unacked[..i] + unacked[i + 1..];
    }

    /** Publish through the retry exchange to the retry queue, with the counter raised. */
    method SendToRetry(m: Message, nextRetry: int, accepted: bool) returns (ok: bool)
      modifies this`retry
      ensures ok == accepted
      ensures retry == if ok then old(retry) + [m.(header := Count(ToInt32(nextRetry)))] else old(retry)
    {
      if accepted {
        var copy := Message(m.body, Count(ToInt32(nextRetry)));
        retry := retry + [copy];
      }
      return accepted;
    }

    /** Publish through the retry exchange to the dead-letter queue, headers unchanged. */
    method SendToDLQ(m: Message, accepted: bool) returns (ok: bool)
      modifies this`dlq
      ensures ok == accepted
      ensures dlq == if ok then old(dlq) + [m] else old(dlq)
    {
      if accepted {
        dlq := dlq + [m];
      }
      return accepted;
    }
  }

  /** Decide by the result of the store call. */
  method ProcessResult(ch: Channel, i: nat, result: StoreResult, accepted: bool)
    requires i < |ch.unacked| && ch.unacked[i].body.Product?
    modifies ch
    ensures ch.Contents() == AfterHandle(old(ch.Contents()), i,
                                         if result.Committed? then Healthy else RolledBack,
                                         if accepted then Finished else PublishFailed)
  {
    var m := ch.unacked[i];
    match result
    case Committed(_) =>
      ch.Ack(i);
    case Failed =>
      var (retryCount, parsed) := GetRetryCount(m.header);
      if !parsed {
        retryCount := MAX_RETRIES;
      }
      if retryCount >= MAX_RETRIES {
        var ok := ch.SendToDLQ(m, accepted);
        if !ok {
          ch.NackRequeue(i);
          return;
        }
        ch.Ack(i);
      } else {
        var ok := ch.SendToRetry(m, retryCount + 1, accepted);
        if !ok {
          ch.NackRequeue(i);
          return;
        }
        ch.Ack(i);
      }
  }

  /** Queues and index make the handling step of the broker model with these two outcomes. */
  ghost predicate Handles(q: Queues, s: IndexState, q': Queues, s': IndexState, i: nat, db: DbResult, end: End)
    requires i < |q.unacked|
  {
    q' == AfterHandle(q, i, db, end) && s' == AfterStore(s, q.unacked[i], db)
  }

  /** Handle the delivery in hand: one step of the model, and with a database that does not fail it
      is the healthy one. */
  method HandleMessage(ch: Channel, store: Store, i: nat, now: Time, failAt: Stage, accepted: bool)
    requires i < |ch.unacked|
    modifies ch, store
    ensures var end := if accepted then Finished else PublishFailed;
            if failAt == Never
            then Handles(old(ch.Contents()), old(store.State()), ch.Contents(), store.State(), i, Healthy, end)
            else exists db :: Handles(old(ch.Contents()), old(store.State()), ch.Contents(), store.State(), i, db, end)
  {
    ghost var end := if accepted then Finished else PublishFailed;
    ghost var db := Healthy;
    var m := ch.unacked[i];
    match m.body
    case Poison(_) =>
      var ok := ch.SendToDLQ(m, accepted);
      if ok {
        ch.Ack(i);
      } else {
        ch.NackRequeue(i);
      }
      assert Handles(old(ch.Contents()), old(store.State()), ch.Contents(), store.State(), i, db, end);
    case Unknown(_) =>
      ch.Ack(i);
      assert Handles(old(ch.Contents()), old(store.State()), ch.Contents(), store.State(), i, db, end);
    case Product(event) =>
      var result;
      match event {
        case Upsert(eventId, doc) =>
          result := store.UpsertProduct(eventId, doc, now, failAt);
        case Delete(eventId, productId, deletedAt) =>
          result := store.DeleteProduct(eventId, productId, deletedAt, now, failAt);
      }
      db := if result.Committed? then Healthy
            else if store.State() == old(store.State()) then RolledBack else CommitLost;
      ProcessResult(ch, i, result, accepted);
      assert Handles(old(ch.Contents()), old(store.State()), ch.Contents(), store.State(), i, db, end);
  }
}
