/** The reply cache as a reader sees it: a log of accepted answers that is never pruned.  The real
    table sweeps and deletes lazily; here it is shown to answer, and to accept, as the log does. */
module ReplyLog {
  import opened Wrappers

  type Key = string

  datatype Config = Config(ttl: int, max: int)

  /** An accepted answer. */
  datatype Reply = Reply(key: Key, text: string, at: int)

  /** A lookup, or an answer to store; a store reads the clock for the sweep and again for the entry. */
  datatype Op =
    | Get(key: Key, now: int)
    | Put(key: Key, text: string, sweepAt: int, now: int)
  {
    function First(): int { if Get? then now else sweepAt }
  }

  datatype Answer = Found(text: string) | Missing | Accepted | Ignored

  // ---------- The log ----------

  /** The latest answer accepted for a key. */
  function Latest(log: seq<Reply>, key: Key): Option<Reply> {
    if log == [] then None
    else if log[|log| - 1].key == key then Some(log[|log| - 1])
    else Latest(log[..|log| - 1], key)
  }

  predicate Live(c: Config, log: seq<Reply>, key: Key, now: int) {
    Latest(log, key).Some? && now < Latest(log, key).value.at + c.ttl
  }

  function LiveKeys(c: Config, log: seq<Reply>, now: int): set<Key> {
    set r | r in log && Live(c, log, r.key, now) :: r.key
  }

  /** The log answers with the latest reply while it is younger than the TTL, and accepts an answer
      that is not empty while fewer than `max` keys are live. */
  function LogAnswer(c: Config, log: seq<Reply>, op: Op): Answer {
    match op
    case Get(key, now) => if Live(c, log, key, now) then Found(Latest(log, key).value.text) else Missing
    case Put(_, text, sweepAt, _) => if text != "" && |LiveKeys(c, log, sweepAt)| < c.max then Accepted else Ignored
  }

  function NextLog(c: Config, log: seq<Reply>, op: Op): seq<Reply> {
    if LogAnswer(c, log, op).Accepted? then log + [Reply(op.key, op.text, op.now)] else log
  }

  function RunLog(c: Config, ops: seq<Op>): seq<Reply> {
    if ops == [] then [] else NextLog(c, RunLog(c, ops[..|ops| - 1]), ops[|ops| - 1])
  }

  // ---------- The table ----------

  datatype Entry = Entry(text: string, expiresAt: int)

  type Table = map<Key, Entry>

  function Sweep(t: Table, now: int): Table {
    map k | k in t && now < t[k].expiresAt :: t[k]
  }

  /** Put's room check: sweep only when full. */
  function MakeRoom(c: Config, t: Table, sweepAt: int): Table {
    if |t| >= c.max then Sweep(t, sweepAt) else t
  }

  function TableAnswer(c: Config, t: Table, op: Op): Answer {
    match op
    case Get(key, now) => if key in t && now < t[key].expiresAt then Found(t[key].text) else Missing
    case Put(_, text, sweepAt, _) => if text != "" && |MakeRoom(c, t, sweepAt)| < c.max then Accepted else Ignored
  }

  function NextTable(c: Config, t: Table, op: Op): Table {
    match op
    case Get(key, now) => if key in t && t[key].expiresAt <= now then t - {key} else t
    case Put(key, text, sweepAt, now) =>
      if text == "" then t
      else
        var room := MakeRoom(c, t, sweepAt);
        if |room| >= c.max then room else room[key := Entry(text, now + c.ttl)]
  }

  function RunTable(c: Config, ops: seq<Op>): Table {
    if ops == [] then map[] else NextTable(c, RunTable(c, ops[..|ops| - 1]), ops[|ops| - 1])
  }

  // ---------- Refinement ----------

  ghost predicate Monotone(ops: seq<Op>) {
    && (forall i :: 0 <= i < |ops| ==> ops[i].First() <= ops[i].now)
    && (forall i, j :: 0 <= i < j < |ops| ==> ops[i].now <= ops[j].First())
  }

  /** Entries are latest replies; keys without an entry have none that is live at `now` or later. */
  ghost predicate Represents(c: Config, t: Table, log: seq<Reply>, now: int) {
    forall k :: if k in t then Latest(log, k).Some? && t[k] == Entry(Latest(log, k).value.text, Latest(log, k).value.at + c.ttl)
                else !Live(c, log, k, now)
  }

  lemma {:induction false} LatestIsLogged(log: seq<Reply>, key: Key)
    ensures Latest(log, key).Some? ==> Latest(log, key).value in log && Latest(log, key).value.key == key
  {
    if log != [] && log[|log| - 1].key != key {
      LatestIsLogged(log[..|log| - 1], key);
    }
  }

  lemma LiveKeysAre(c: Config, log: seq<Reply>, now: int, key: Key)
    ensures key in LiveKeys(c, log, now) <==> Live(c, log, key, now)
  {
    LatestIsLogged(log, key);
  }

  lemma SubsetCard<T>(a: set<T>, b: set<T>)
    requires a <= b
    ensures |a| <= |b|
  {
    assert b == a + (b - a);
  }

  /** A swept table holds exactly the live keys; an unswept one holds them all. */
  lemma TableHoldsLive(c: Config, t: Table, log: seq<Reply>, since: int, now: int)
    requires Represents(c, t, log, since) && since <= now
    ensures LiveKeys(c, log, now) <= t.Keys && |LiveKeys(c, log, now)| <= |t|
    ensures Sweep(t, now).Keys == LiveKeys(c, log, now) && |Sweep(t, now)| == |LiveKeys(c, log, now)|
    ensures Represents(c, Sweep(t, now), log, now)
  {
    forall k { LiveKeysAre(c, log, now, k); }
    SubsetCard(LiveKeys(c, log, now), t.Keys);
  }

  lemma StepRefines(c: Config, t: Table, log: seq<Reply>, since: int, op: Op)
    requires Represents(c, t, log, since) && since <= op.First() <= op.now
    ensures TableAnswer(c, t, op) == LogAnswer(c, log, op)
    ensures Represents(c, NextTable(c, t, op), NextLog(c, log, op), op.now)
  {
    TableHoldsLive(c, t, log, since, op.First());
    if op.Put? {
      assert (log + [Reply(op.key, op.text, op.now)])[..|log|] == log;
    }
  }

  lemma {:induction false} RunRefines(c: Config, ops: seq<Op>)
    requires Monotone(ops)
    ensures ops != [] ==> Represents(c, RunTable(c, ops), RunLog(c, ops), ops[|ops| - 1].now)
    ensures ops == [] ==> forall now :: Represents(c, RunTable(c, ops), RunLog(c, ops), now)
  {
    if ops != [] {
      var init, last := ops[..|ops| - 1], ops[|ops| - 1];
      RunRefines(c, init);
      StepRefines(c, RunTable(c, init), RunLog(c, init), if init == [] then last.First() else init[|init| - 1].now, last);
    }
  }

  /** MAIN RESULT.  Sweeping and lazy deletion are unobservable: on every run each lookup is answered,
      and each answer accepted or ignored, as by the log that is never pruned. */
  lemma CacheRefinesLog(c: Config, ops: seq<Op>, op: Op)
    requires Monotone(ops + [op])
    ensures TableAnswer(c, RunTable(c, ops), op) == LogAnswer(c, RunLog(c, ops), op)
  {
    var all := ops + [op];
    assert all[|ops|] == op && forall i :: 0 <= i < |ops| ==> all[i] == ops[i];
    RunRefines(c, ops);
    StepRefines(c, RunTable(c, ops), RunLog(c, ops), if ops == [] then op.First() else ops[|ops| - 1].now, op);
  }

  lemma RoomIsSmaller(c: Config, t: Table, sweepAt: int)
    ensures |MakeRoom(c, t, sweepAt)| <= |t|
  {
    SubsetCard(Sweep(t, sweepAt).Keys, t.Keys);
  }

  lemma InsertCard(t: Table, key: Key, e: Entry)
    ensures |t[key := e]| <= |t| + 1
    ensures |t - {key}| <= |t|
  {}

  /** The table never holds more than `max` entries, whatever the clock does. */
  lemma {:induction false} SizeBounded(c: Config, ops: seq<Op>)
    ensures |RunTable(c, ops)| <= if c.max < 0 then 0 else c.max
  {
    hide MakeRoom;
    if ops != [] {
      var t, op := RunTable(c, ops[..|ops| - 1]), ops[|ops| - 1];
      SizeBounded(c, ops[..|ops| - 1]);
      match op
      case Get(key, now) =>
        InsertCard(t, key, Entry("", 0));
      case Put(key, text, sweepAt, now) =>
        RoomIsSmaller(c, t, sweepAt);
        InsertCard(MakeRoom(c, t, sweepAt), key, Entry(text, now + c.ttl));
    }
  }
}
