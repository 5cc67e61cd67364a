/** The per-subject token bucket.  Levels are scaled by the refill period, so one token is `refill`
    nanoseconds and a level is an integer number of nanoseconds of refilling. */
module TokenBucket {
  import opened Wrappers

  type Key = string

  datatype Config = Config(capacity: nat, refill: nat)
  {
    /** A full bucket, and also the idle time after which any bucket is full again. */
    function Full(): nat { capacity * refill }
  }

  datatype Bucket = Bucket(level: int, lastSeen: int)

  datatype Decision = Allowed | Denied(retryAfter: int)

  datatype Call = Call(key: Key, now: int)

  /** The level of a key at an instant: full if unknown, otherwise refilled since last seen. */
  function LevelAt(c: Config, b: Option<Bucket>, now: int): int {
    match b
    case None => c.Full()
    case Some(b) => if c.Full() < b.level + (now - b.lastSeen) then c.Full() else b.level + (now - b.lastSeen)
  }

  function Decide(c: Config, level: int): Decision {
    if level < c.refill then Denied(c.refill - level) else Allowed
  }

  function AfterCall(c: Config, level: int, now: int): Bucket {
    Bucket(if level < c.refill then level else level - c.refill, now)
  }

  // ---------- The bucket without eviction ----------

  /** The bucket of one key after a run, were nothing ever evicted. */
  function BucketOf(c: Config, run: seq<Call>, key: Key): Option<Bucket> {
    if run == [] then None
    else
      var init, last := run[..|run| - 1], run[|run| - 1];
      var b := BucketOf(c, init, key);
      if last.key == key then Some(AfterCall(c, LevelAt(c, b, last.now), last.now)) else b
  }

  /** The decision the run's next call would get. */
  function Answer(c: Config, run: seq<Call>, call: Call): Decision {
    Decide(c, LevelAt(c, BucketOf(c, run, call.key), call.now))
  }

  ghost predicate Monotone(run: seq<Call>) {
    forall i, j :: 0 <= i < j < |run| ==> run[i].now <= run[j].now
  }

  /** Admissions of `key` among calls made in the window [from, to]. */
  function Admissions(c: Config, run: seq<Call>, key: Key, from: int, to: int): nat {
    if run == [] then 0
    else
      var init, last := run[..|run| - 1], run[|run| - 1];
      Admissions(c, init, key, from, to)
      + if last.key == key && from <= last.now <= to && Answer(c, init, last).Allowed? then 1 else 0
  }

  lemma {:induction false} BucketInRange(c: Config, run: seq<Call>, key: Key)
    requires Monotone(run)
    ensures var b := BucketOf(c, run, key);
            b.Some? ==> 0 <= b.value.level <= c.Full() && run != [] && b.value.lastSeen <= run[|run| - 1].now
  {
    if run != [] {
      BucketInRange(c, run[..|run| - 1], key);
    }
  }

  /** The tokens those admissions cost. */
  function Spent(c: Config, run: seq<Call>, key: Key, from: int, to: int): nat {
    if run == [] then 0
    else
      var init, last := run[..|run| - 1], run[|run| - 1];
      Spent(c, init, key, from, to)
      + if last.key == key && from <= last.now <= to && Answer(c, init, last).Allowed? then c.refill else 0
  }

  lemma OneMore(n: nat, k: nat)
    ensures (n + 1) * k == n * k + k
  {}

  lemma {:induction false} SpentPerAdmission(c: Config, run: seq<Call>, key: Key, from: int, to: int)
    ensures Spent(c, run, key, from, to) == Admissions(c, run, key, from, to) * c.refill
  {
    if run != [] {
      var init, last := run[..|run| - 1], run[|run| - 1];
      SpentPerAdmission(c, init, key, from, to);
      OneMore(Admissions(c, init, key, from, to), c.refill);
    }
  }

  /** Inside a window what was spent so far is paid for by a full bucket and the time passed. */
  lemma {:induction false} WindowBalance(c: Config, run: seq<Call>, key: Key, from: int, to: int)
    requires Monotone(run)
    ensures var b := BucketOf(c, run, key);
            var spent := Spent(c, run, key, from, to);
            && (spent > 0 ==> b.Some? && run != [] && from <= run[|run| - 1].now && spent <= c.Full() + (to - from))
            && (spent > 0 && run[|run| - 1].now <= to ==> spent + b.value.level <= c.Full() + (b.value.lastSeen - from))
  {
    hide Config.Full;
    if run != [] {
      var init, last := run[..|run| - 1], run[|run| - 1];
      WindowBalance(c, init, key, from, to);
      BucketInRange(c, init, key);
      BucketInRange(c, run, key);
    }
  }

  /** MAIN RESULT.  Rate law: in any window admissions cost no more than a full bucket plus the
      length of the window. */
  lemma RateLaw(c: Config, run: seq<Call>, key: Key, from: int, to: int)
    requires Monotone(run) && from <= to
    ensures Admissions(c, run, key, from, to) * c.refill <= c.capacity * c.refill + (to - from)
  {
    WindowBalance(c, run, key, from, to);
    SpentPerAdmission(c, run, key, from, to);
    assert c.Full() >= 0;
  }

  lemma {:induction false} OthersLeaveBucket(c: Config, run: seq<Call>, others: seq<Call>, key: Key)
    requires forall call :: call in others ==> call.key != key
    ensures BucketOf(c, run + others, key) == BucketOf(c, run, key)
  {
    if others == [] {
      assert run + others == run;
    } else {
      var init := others[..|others| - 1];
      assert (run + others)[..|run + others| - 1] == run + init;
      OthersLeaveBucket(c, run, init, key);
    }
  }

  // ---------- Exactly which calls are admitted ----------

  /** The calls of `key` admitted from position `i` on. */
  function AdmittedSince(c: Config, run: seq<Call>, key: Key, i: nat): nat {
    if |run| <= i then 0
    else
      var init, last := run[..|run| - 1], run[|run| - 1];
      AdmittedSince(c, init, key, i) + if last.key == key && Answer(c, init, last).Allowed? then 1 else 0
  }

  /** What they cost. */
  function SpentSince(c: Config, run: seq<Call>, key: Key, i: nat): nat {
    if |run| <= i then 0
    else
      var init, last := run[..|run| - 1], run[|run| - 1];
      SpentSince(c, init, key, i) + if last.key == key && Answer(c, init, last).Allowed? then c.refill else 0
  }

  lemma {:induction false} SpentSinceIs(c: Config, run: seq<Call>, key: Key, i: nat)
    ensures SpentSince(c, run, key, i) == AdmittedSince(c, run, key, i) * c.refill
  {
    hide Answer;
    if i < |run| {
      var init := run[..|run| - 1];
      SpentSinceIs(c, init, key, i);
      OneMore(AdmittedSince(c, init, key, i), c.refill);
    }
  }

  /** The level covers `x` exactly when a full bucket does, and no stretch since an earlier call has spent
      too much. */
  lemma {:induction false} LevelCovers(c: Config, run: seq<Call>, key: Key, now: int, x: int)
    requires Monotone(run) && (run != [] ==> run[|run| - 1].now <= now)
    ensures x <= LevelAt(c, BucketOf(c, run, key), now)
            <==> x <= c.Full() && forall i :: 0 <= i < |run| && run[i].key == key ==>
                                     x + SpentSince(c, run, key, i) <= c.Full() + (now - run[i].now)
    decreases |run|
  {
    hide Config.Full;
    if run != [] {
      var init, last := run[..|run| - 1], run[|run| - 1];
      var cost := if last.key == key && Answer(c, init, last).Allowed? then c.refill else 0;
      assert forall i :: 0 <= i < |init| ==> init[i] == run[i];
      assert forall i :: 0 <= i < |run| ==> SpentSince(c, run, key, i) == SpentSince(c, init, key, i) + cost;
      if last.key == key {
        LevelCovers(c, init, key, last.now, x - (now - last.now) + cost);
      } else {
        LevelCovers(c, init, key, now, x);
      }
    }
  }

  /** MAIN RESULT.  A call is admitted exactly when the rate law leaves room for it: counting it, the
      admissions of its key since any earlier call of the key cost no more than a full bucket and the time
      since that call.  So the capacity and the refill period determine every admission of every run. */
  lemma AdmittedIff(c: Config, run: seq<Call>, call: Call)
    requires Monotone(run + [call])
    ensures Answer(c, run, call).Allowed?
            <==> && c.refill <= c.capacity * c.refill
                 && forall i :: 0 <= i < |run| && run[i].key == call.key ==>
                      (AdmittedSince(c, run, call.key, i) + 1) * c.refill
                      <= c.capacity * c.refill + (call.now - run[i].now)
  {
    var all := run + [call];
    assert all[|run|] == call && forall i :: 0 <= i < |run| ==> all[i] == run[i];
    LevelCovers(c, run, call.key, call.now, c.refill);
    forall i | 0 <= i < |run|
      ensures (AdmittedSince(c, run, call.key, i) + 1) * c.refill == c.refill + SpentSince(c, run, call.key, i)
    {
      hide *;
      SpentSinceIs(c, run, call.key, i);
      OneMore(AdmittedSince(c, run, call.key, i), c.refill);
    }
  }

  function Repeated(call: Call, n: nat): seq<Call> {
    seq(n, i requires 0 <= i < n => call)
  }

  lemma OneTokenLess(capacity: nat, n: nat, refill: nat)
    requires n < capacity && 0 < refill
    ensures refill <= (capacity - n) * refill
    ensures (capacity - n) * refill - refill == (capacity - (n + 1)) * refill
  {}

  lemma {:induction false} FreshLevel(c: Config, call: Call, n: nat)
    requires n <= c.capacity && 0 < c.refill
    ensures LevelAt(c, BucketOf(c, Repeated(call, n), call.key), call.now) == (c.capacity - n) * c.refill
  {
    if n > 0 {
      FreshLevel(c, call, n - 1);
      OneTokenLess(c.capacity, n - 1, c.refill);
      assert Repeated(call, n)[..n - 1] == Repeated(call, n - 1);
      assert (c.capacity - n) * c.refill <= c.Full() by {
        assert c.Full() == (c.capacity - n) * c.refill + n * c.refill;
      }
    }
  }

  /** A new key is admitted `capacity` times at one instant, and then asked to wait for one token. */
  lemma FreshBurst(c: Config, call: Call, n: nat)
    requires n <= c.capacity && 0 < c.refill
    ensures Answer(c, Repeated(call, n), call) == if n < c.capacity then Allowed else Denied(c.refill)
  {
    FreshLevel(c, call, n);
    if n < c.capacity {
      OneTokenLess(c.capacity, n, c.refill);
    } else {
      assert (c.capacity - n) * c.refill == 0;
    }
  }

  /** MAIN RESULT.  A refused key that makes no call in between is admitted exactly from the
      announced instant on (and never by a bucket without capacity). */
  lemma RetryAfterIsExact(c: Config, run: seq<Call>, refused: Call, others: seq<Call>, again: Call)
    requires Monotone(run + [refused] + others + [again])
    requires Answer(c, run, refused).Denied? && again.key == refused.key
    requires forall call :: call in others ==> call.key != refused.key
    ensures Answer(c, run, refused).retryAfter > 0
    ensures Answer(c, run + [refused] + others, again).Allowed? <==>
              1 <= c.capacity && refused.now + Answer(c, run, refused).retryAfter <= again.now
  {
    OthersLeaveBucket(c, run + [refused], others, refused.key);
    assert (run + [refused])[..|run|] == run;
    var all := run + [refused] + others + [again];
    assert all[|run|] == refused && all[|all| - 1] == again;
    if 1 <= c.capacity {
      assert c.Full() == c.refill + (c.capacity - 1) * c.refill;
    } else {
      assert c.Full() == 0;
    }
    assert forall i :: 0 <= i < |run| ==> all[i] == run[i];
    BucketInRange(c, run, refused.key);
  }

  // ---------- The bucket with eviction ----------

  const SWEEP_EVERY := 256

  datatype Table = Table(buckets: map<Key, Bucket>, calls: nat)

  /** Every SWEEP_EVERY-th call drops the buckets idle for longer than a full refill. */
  function Sweep(c: Config, t: Table, now: int): Table {
    if t.calls + 1 < SWEEP_EVERY then t.(calls := t.calls + 1)
    else Table(map k | k in t.buckets && now - t.buckets[k].lastSeen <= c.Full() :: t.buckets[k], 0)
  }

  function LevelIn(c: Config, t: Table, call: Call): int {
    LevelAt(c, Lookup(t.buckets, call.key), call.now)
  }

  function NextTable(c: Config, t: Table, call: Call): Table {
    var swept := Sweep(c, t, call.now);
    swept.(buckets := swept.buckets[call.key := AfterCall(c, LevelIn(c, swept, call), call.now)])
  }

  /** The decision as the table makes it, sweeping first. */
  function TableAnswer(c: Config, t: Table, call: Call): Decision {
    Decide(c, LevelIn(c, Sweep(c, t, call.now), call))
  }

  function RunTable(c: Config, run: seq<Call>): Table {
    if run == [] then Table(map[], 0) else NextTable(c, RunTable(c, run[..|run| - 1]), run[|run| - 1])
  }

  /** A bucket kept is the unevicted one; a bucket missing would be full from `now` on. */
  ghost predicate Represents(c: Config, t: Table, run: seq<Call>, now: int) {
    forall k :: match Lookup(t.buckets, k)
                case Some(b) => BucketOf(c, run, k) == Some(b)
                case None =>
                  var b := BucketOf(c, run, k);
                  b.Some? ==> c.Full() <= b.value.level + (now - b.value.lastSeen)
  }

  lemma SweepKeeps(c: Config, t: Table, run: seq<Call>, now: int)
    requires Represents(c, t, run, if run == [] then now else run[|run| - 1].now)
    requires Monotone(run) && (run != [] ==> run[|run| - 1].now <= now)
    ensures Represents(c, Sweep(c, t, now), run, now)
  {
    forall k { BucketInRange(c, run, k); }
  }

  lemma {:induction false} TableRepresents(c: Config, run: seq<Call>)
    requires Monotone(run)
    ensures run != [] ==> Represents(c, RunTable(c, run), run, run[|run| - 1].now)
    ensures run == [] ==> forall now :: Represents(c, RunTable(c, run), run, now)
  {
    if run != [] {
      var init, last := run[..|run| - 1], run[|run| - 1];
      TableRepresents(c, init);
      SweepKeeps(c, RunTable(c, init), init, last.now);
    }
  }

  /** MAIN RESULT.  Eviction is unobservable: on every run each call is answered as it would be if
      no bucket were ever dropped. */
  lemma EvictionUnobservable(c: Config, run: seq<Call>, call: Call)
    requires Monotone(run + [call])
    ensures TableAnswer(c, RunTable(c, run), call) == Answer(c, run, call)
  {
    var all := run + [call];
    assert all[|run|] == call && forall i :: 0 <= i < |run| ==> all[i] == run[i];
    TableRepresents(c, run);
    SweepKeeps(c, RunTable(c, run), run, call.now);
  }
}
