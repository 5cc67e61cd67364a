/** The burst gate as the service runs it: a table of buckets, swept on the beat of the calls. */
module BurstGate {
  import opened TokenBucket

  class Burst {
    const config: Config
    var buckets: map<Key, Bucket>
    var calls: nat

    constructor (config: Config)
      ensures this.config == config && Contents() == Table(map[], 0)
    {
      this.config := config;
      buckets, calls := map[], 0;
    }

    function Contents(): Table
      reads this
    {
      Table(buckets, calls)
    }

    method MaybeSweep(now: int)
      modifies this
      ensures Contents() == Sweep(config, old(Contents()), now)
      // Every 256th call drops what has been idle for longer than it takes to fill a bucket, no other any.
      ensures calls == (if old(calls) + 1 < 256 then old(calls) + 1 else 0)
      ensures buckets == if old(calls) + 1 < 256 then old(buckets)
                         else map k | k in old(buckets) && now - old(buckets)[k].lastSeen <= config.capacity * config.refill
                                :: old(buckets)[k]
    {
      calls := calls + 1;
      if calls < SWEEP_EVERY {
        return;
      }
      calls := 0;
      var ttl := config.Full();
      var before, unseen := buckets, buckets.Keys;
      while unseen != {}
        invariant unseen <= before.Keys && calls == 0
        invariant buckets == map k | k in before && (k in unseen || now - before[k].lastSeen <= ttl) :: before[k]
        decreases unseen
      {
        var k :| k in unseen;
        if now - before[k].lastSeen > ttl {
          buckets := buckets - {k};
        }
        unseen := unseen - {k};
      }
    }

    /** Spend a token of the key, or refuse with the exact wait. */
    method Allow(key: Key, now: int) returns (d: Decision)
      modifies this
      ensures d == TableAnswer(config, old(Contents()), Call(key, now))
      ensures Contents() == NextTable(config, old(Contents()), Call(key, now))
    {
      hide Config.Full;
      MaybeSweep(now);
      var bucket;
      if key !in buckets {
        bucket := Bucket(config.Full(), now);
      } else {
        bucket := buckets[key];
        var earned := now - bucket.lastSeen;
        var level := bucket.level + earned;
        bucket := Bucket(if config.Full() < level then config.Full() else level, now);
      }
      if bucket.level < config.refill {
        buckets := buckets[key := bucket];
        return Denied(config.refill - bucket.level);
      }
      buckets := buckets[key := bucket.(level := bucket.level - config.refill)];
      return Allowed;
    }
  }
}
