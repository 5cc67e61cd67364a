/** The bot endpoint: its gates in order, what a refusal costs, and the days it stays off. */
module BotGate {
  import opened Wrappers
  import opened QuotaKeys
  import opened QuestionText
  import Q = QuotaAdmission
  import Limiter
  import TokenBucket
  import BurstGate
  import KillSwitch
  import ReplyCache
  import ReplyLog
  import BotPrompt
  import CircuitBreaker

  const MAX_QUESTION := 1000
  const PROVIDER_TRIP_FOR := 60 * SECOND

  /** How answering ended: before streaming, by the client leaving, by an error, or whole. */
  datatype Answer =
    | NoStream
    | ClientGone
    | Broke(err: CircuitBreaker.Error)
    | Whole(reply: BotPrompt.Reply, history: seq<BotPrompt.Turn>)

  /** A request: who asks, if that could be established; the question, if the body could be read; the
      counter's faults; how answering ends; and the clock as each gate reads it. */
  datatype Request = Request(
    subject: Option<Subject>,
    body: Option<string>,
    faults: Q.Tier -> Q.Fault,
    answer: Answer,
    enabledAt: int,
    burstAt: int,
    cachedAt: int,
    chargedAt: int,
    trippedAt: int,
    sweptAt: int,
    storedAt: int)

  datatype Outcome =
    | Disabled
    | Unauthorized
    | TooFast(wait: int)
    | BadQuestion
    | Cached(text: string)
    | QuotaUnavailable
    | Refused(reason: Q.Reason, retryAfter: int)
    | Served(remaining: int, answer: Answer)

  /** The provider is down or refuses: CircuitOpen or RateLimited. */
  predicate ProviderTrouble(a: Answer) {
    a.Broke? && (CircuitBreaker.Is(a.err, CircuitBreaker.CircuitOpen) || CircuitBreaker.Is(a.err, CircuitBreaker.RateLimited))
  }

  predicate Broken(a: Answer, k: CircuitBreaker.Kind) {
    a.Broke? && a.err.Some? && k in a.err.value
  }

  predicate AtCeiling(o: Outcome) {
    o.Refused? && o.reason.GlobalDaily?
  }

  /** Past the gates that look at nobody's quota. */
  predicate Asked(o: Outcome) {
    !(o in {Disabled, Unauthorized, BadQuestion}) && !o.TooFast?
  }

  /** The kill switch's mark after an outcome: the global ceiling trips it for the rest of the day, a
      provider in trouble for a minute, nothing else does. */
  function MarkAfter(mark: int, r: Request, o: Outcome): int {
    match o
    case Refused(GlobalDaily, retryAfter) => KillSwitch.Raise(mark, KillSwitch.Trip(r.trippedAt, retryAfter))
    case Served(_, a) =>
      if ProviderTrouble(a) then KillSwitch.Raise(mark, KillSwitch.Trip(r.trippedAt, PROVIDER_TRIP_FOR)) else mark
    case _ => mark
  }

  /** What the caller is told once charged. */
  function Told(verdict: Q.Verdict, answer: Answer): Outcome {
    match verdict
    case Told(Allowed(remaining)) => Served(remaining, answer)
    case Told(Denied(reason, retryAfter)) => Refused(reason, retryAfter)
    case _ => QuotaUnavailable
  }

  /** The cache after answering: an answer that carries no context is put there. */
  function Shared(c: ReplyCache.ReplyCache, entries: ReplyLog.Table, r: Request, question: string): ReplyLog.Table {
    if r.answer.Whole? && BotPrompt.Cacheable(r.answer.reply, r.answer.history) then
      ReplyLog.NextTable(c.config, entries,
                         ReplyLog.Put(Normalize(c.unicode, question), r.answer.reply.text, r.sweptAt, r.storedAt))
    else entries
  }

  /** No counter fails, the subject is within its own limits and the global row stands at its limit. */
  ghost predicate OnlyCeilingStops(limits: Q.Limits, counts: map<Q.Slot, nat>, r: Request)
    requires r.subject.Some?
  {
    (forall t :: r.faults(t).NoFault?) && Q.CeilingReached(limits, counts, r.subject.value, r.chargedAt)
  }

  /** The limiter's refusal at the global ceiling asks the caller to wait for the next ICT midnight. */
  lemma {:induction false} GlobalDenialWaits(l: Q.Limits, counts: map<Q.Slot, nat>, r: Q.Request, faults: Q.Tier -> Q.Fault, wait: int)
    requires Q.WellFormed(r)
    requires r.verdict == Q.Told(Q.Denied(Q.GlobalDaily, wait)) ==> wait == UntilNextDay(r.now)
    ensures Q.ChargeFrom(l, counts, r, faults).1.verdict == Q.Told(Q.Denied(Q.GlobalDaily, wait))
            ==> wait == UntilNextDay(r.now)
    decreases Q.Rank(r.phase)
  {
    hide UntilNextDay, UntilNextHour;
    if r.phase.Counting? && faults(r.phase.tier).NoFault? {
      var slot := Q.SlotOf(r, r.phase.tier);
      GlobalDenialWaits(l, Q.Raise(counts, slot), Q.AfterCount(l, r, Q.CountOf(counts, slot) + 1), faults, wait);
    }
  }

  lemma SameDayIsBeforeMidnight(now: int, t: int)
    requires DateOf(t) == DateOf(now)
    ensures t < now + UntilNextDay(now)
  {}

  /** The mark never falls, and a refusal at the ceiling lifts it to the next midnight. */
  lemma MarkCovers(mark: int, r: Request, o: Outcome)
    requires r.chargedAt <= r.trippedAt
    requires AtCeiling(o) ==> o.retryAfter == UntilNextDay(r.chargedAt)
    ensures mark <= MarkAfter(mark, r, o)
    ensures AtCeiling(o) ==> r.chargedAt + UntilNextDay(r.chargedAt) <= MarkAfter(mark, r, o)
  {}

  function QuestionOf(unicode: Unicode, r: Request): string {
    if r.body.Some? then Trim(unicode, r.body.value) else ""
  }

  /** The request was served an answer that is whole and given to a model that saw its question alone, and
      this is that answer under the question's normal form. */
  predicate Shares(keys: Unicode, unicode: Unicode, r: Request, o: Outcome, key: string, text: string) {
    && o.Served? && r.answer.Whole?
    && text == r.answer.reply.text && text != "" && !r.answer.reply.truncated
    && key == Normalize(keys, QuestionOf(unicode, r))
    && BotPrompt.FirstPrompt(r.answer.history, QuestionOf(unicode, r))
       == [BotPrompt.Text(BotPrompt.User, QuestionOf(unicode, r))]
  }

  predicate Holds(entries: ReplyLog.Table, key: string, text: string) {
    key in entries && entries[key].text == text
  }

  /** A lookup and a store put nothing in the cache but such an answer, and a hit was there before. */
  lemma OnlySharedIsCached(c: ReplyCache.ReplyCache, unicode: Unicode, before: ReplyLog.Table, r: Request, o: Outcome)
    ensures var question := QuestionOf(unicode, r);
            var get := ReplyLog.Get(Normalize(c.unicode, question), r.cachedAt);
            var looked := ReplyLog.NextTable(c.config, before, get);
            && (forall key, text :: Holds(looked, key, text) ==> Holds(before, key, text))
            && (forall key, text :: o.Served? && Holds(Shared(c, looked, r, question), key, text) ==>
                  Holds(before, key, text) || Shares(c.unicode, unicode, r, o, key, text))
            && (forall text :: ReplyLog.TableAnswer(c.config, before, get) == ReplyLog.Found(text) ==>
                  Holds(before, Normalize(c.unicode, question), text))
  {
    hide Normalize, Trim;
    if r.answer.Whole? {
      BotPrompt.CacheableIffNoContext(r.answer.reply, r.answer.history, QuestionOf(unicode, r));
    }
  }

  /** And it is there for the next who asks: a whole answer to a question without context, put into a cache
      with room, is what every question of the same normal form is given until it expires. */
  lemma SharedIsServed(c: ReplyCache.ReplyCache, entries: ReplyLog.Table, r: Request, question: string, again: string, at: int)
    requires r.answer.Whole? && r.answer.history == [] && r.answer.reply.text != "" && !r.answer.reply.truncated
    requires |entries| < c.config.max && Normalize(c.unicode, again) == Normalize(c.unicode, question)
    ensures ReplyLog.TableAnswer(c.config, Shared(c, entries, r, question), ReplyLog.Get(Normalize(c.unicode, again), at))
            == if at < r.storedAt + c.config.ttl then ReplyLog.Found(r.answer.reply.text) else ReplyLog.Missing
  {
    hide Normalize;
  }

  /** The answer was in the cache at first, or one of the first `n` requests shared it. */
  ghost predicate Origin(keys: Unicode, unicode: Unicode, first: ReplyLog.Table, rs: seq<Request>, os: seq<Outcome>,
                         n: nat, key: string, text: string)
    requires n <= |rs| && n <= |os|
  {
    Holds(first, key, text) || exists i :: 0 <= i < n && Shares(keys, unicode, rs[i], os[i], key, text)
  }

  lemma OriginStarts(keys: Unicode, unicode: Unicode, first: ReplyLog.Table, rs: seq<Request>)
    ensures forall key, text :: Holds(first, key, text) ==> Origin(keys, unicode, first, rs, [], 0, key, text)
  {}

  lemma OriginGrows(keys: Unicode, unicode: Unicode, first: ReplyLog.Table, rs: seq<Request>, os: seq<Outcome>,
                    o: Outcome, n: nat, key: string, text: string)
    requires n <= |os| < |rs|
    ensures Origin(keys, unicode, first, rs, os, n, key, text) ==> Origin(keys, unicode, first, rs, os + [o], n, key, text)
    ensures Origin(keys, unicode, first, rs, os, |os|, key, text) || Shares(keys, unicode, rs[|os|], o, key, text)
            ==> Origin(keys, unicode, first, rs, os + [o], |os| + 1, key, text)
  {
    hide Shares, Holds;
    assert (os + [o])[|os|] == o;
    assert forall i :: 0 <= i < |os| ==> (os + [o])[i] == os[i];
  }

  class Gate {
    const killSwitch: KillSwitch.Switch
    const burst: BurstGate.Burst
    const cache: ReplyCache.ReplyCache
    const limiter: Limiter.Limiter
    const unicode: Unicode

    constructor (killSwitch: KillSwitch.Switch, burst: BurstGate.Burst, cache: ReplyCache.ReplyCache,
                 limiter: Limiter.Limiter, unicode: Unicode)
      ensures this.killSwitch == killSwitch && this.burst == burst && this.cache == cache
      ensures this.limiter == limiter && this.unicode == unicode
    {
      this.killSwitch, this.burst, this.cache := killSwitch, burst, cache;
      this.limiter, this.unicode := limiter, unicode;
    }

    /** One request from the first gate to the last. */
    method Handle(r: Request) returns (o: Outcome)
      modifies killSwitch, burst, cache, limiter, limiter.counter
      // The latch is given back on every way out.
      ensures limiter.inFlight == old(limiter.inFlight)
      // A disabled bot touches nothing, an unknown asker neither.
      ensures o == Disabled <==> !killSwitch.manual || r.enabledAt < old(killSwitch.autoUntil)
      ensures o == Unauthorized <==> o != Disabled && r.subject.None?
      ensures o in {Disabled, Unauthorized} ==> burst.Contents() == old(burst.Contents())
      // Everyone else spends from the burst bucket, and those out of tokens get no further.
      ensures !(o in {Disabled, Unauthorized}) ==>
        var call := TokenBucket.Call(r.subject.value.DayKey(), r.burstAt);
        var allowed := TokenBucket.TableAnswer(burst.config, old(burst.Contents()), call);
        && burst.Contents() == TokenBucket.NextTable(burst.config, old(burst.Contents()), call)
        && (o.TooFast? <==> allowed.Denied?) && (o.TooFast? ==> o.wait == allowed.retryAfter)
      ensures o == BadQuestion <==>
        !(o in {Disabled, Unauthorized}) && !o.TooFast?
        && (r.body.None? || Trim(unicode, r.body.value) == "" || 1000 < |Trim(unicode, r.body.value)|)
      ensures !Asked(o) ==>
        cache.entries == old(cache.entries) && limiter.counter.counts == old(limiter.counter.counts)
      // A question in the cache is answered from there for the price of the latch; any other is charged.
      ensures Asked(o) ==> r.body.Some?
      ensures Asked(o) ==>
        var question := Trim(unicode, r.body.value);
        var get := ReplyLog.Get(Normalize(cache.unicode, question), r.cachedAt);
        var found := ReplyLog.TableAnswer(cache.config, old(cache.entries), get);
        var looked := ReplyLog.NextTable(cache.config, old(cache.entries), get);
        var (counts, asked) := Q.ChargeFrom(limiter.limits, old(limiter.counter.counts),
                                            Q.Fresh(r.subject.value, r.chargedAt), r.faults);
        if r.subject.value.DayKey() in old(limiter.inFlight) then
          && o == Refused(Q.InFlight, Q.IN_FLIGHT_RETRY_AFTER)
          && limiter.counter.counts == old(limiter.counter.counts) && cache.entries == looked
        else if found.Found? then
          && o == Cached(found.text)
          && limiter.counter.counts == old(limiter.counter.counts) && cache.entries == looked
        else
          && (match asked.verdict
              case Told(Allowed(remaining)) => o == Served(remaining, r.answer)
              case Told(Denied(reason, retryAfter)) => o == Refused(reason, retryAfter)
              case Failed => o == QuotaUnavailable
              case Pending => false)
          && (OnlyCeilingStops(limiter.limits, old(limiter.counter.counts), r) ==> AtCeiling(o))
          && limiter.counter.counts == counts
          && cache.entries == if o.Served? then Shared(cache, looked, r, question) else looked
      // The switch is tripped by the global ceiling and by provider trouble, and by nothing else.
      ensures killSwitch.autoUntil == MarkAfter(old(killSwitch.autoUntil), r, o)
      ensures killSwitch.autoUntil ==
        if o.Refused? && o.reason == Q.GlobalDaily then
          KillSwitch.Raise(old(killSwitch.autoUntil), KillSwitch.Trip(r.trippedAt, UntilNextDay(r.chargedAt)))
        else if o.Served? && (Broken(r.answer, CircuitBreaker.CircuitOpen) || Broken(r.answer, CircuitBreaker.RateLimited)) then
          KillSwitch.Raise(old(killSwitch.autoUntil), KillSwitch.Trip(r.trippedAt, 60_000_000_000))
        else old(killSwitch.autoUntil)
      ensures AtCeiling(o) ==> o.retryAfter == UntilNextDay(r.chargedAt)
      ensures AtCeiling(o) && r.chargedAt <= r.trippedAt ==>
        r.chargedAt + UntilNextDay(r.chargedAt) <= killSwitch.autoUntil
    {
      hide Q.ChargeFrom, Q.CeilingReached, UntilNextDay, ReplyLog.NextTable, ReplyLog.TableAnswer, Normalize, Shared, Subject.DayKey;
      var on := killSwitch.Enabled(r.enabledAt);
      if !on {
        return Disabled;
      }
      if r.subject.None? {
        return Unauthorized;
      }
      var subject := r.subject.value;
      var allowed := burst.Allow(subject.DayKey(), r.burstAt);
      if allowed.Denied? {
        return TooFast(allowed.retryAfter);
      }
      if r.body.None? {
        return BadQuestion;
      }
      var question := Trim(unicode, r.body.value);
      if question == "" || |question| > MAX_QUESTION {
        return BadQuestion;
      }
      var text, found := cache.Get(question, r.cachedAt);
      if found {
        o := ServeCached(subject, text);
      } else {
        o := Charge(r, subject, question);
      }
    }

    /** A cached answer takes the latch but no turn. */
    method ServeCached(subject: Subject, text: string) returns (o: Outcome)
      modifies limiter
      ensures limiter.inFlight == old(limiter.inFlight)
      ensures o == if subject.DayKey() in old(limiter.inFlight) then Refused(Q.InFlight, Q.IN_FLIGHT_RETRY_AFTER)
                   else Cached(text)
    {
      var grant, decision := limiter.Reserve(subject);
      if grant == null {
        return Refused(decision.reason, decision.retryAfter);
      }
      limiter.Release(grant);
      return Cached(text);
    }

    method Charge(r: Request, subject: Subject, question: string) returns (o: Outcome)
      requires r.subject == Some(subject)
      modifies killSwitch, cache, limiter, limiter.counter
      ensures limiter.inFlight == old(limiter.inFlight)
      ensures var (counts, asked) := Q.ChargeFrom(limiter.limits, old(limiter.counter.counts),
                                                  Q.Fresh(subject, r.chargedAt), r.faults);
              if subject.DayKey() in old(limiter.inFlight) then
                && o == Refused(Q.InFlight, Q.IN_FLIGHT_RETRY_AFTER)
                && limiter.counter.counts == old(limiter.counter.counts) && cache.entries == old(cache.entries)
              else
                && asked.verdict != Q.Pending && o == Told(asked.verdict, r.answer)
                && (OnlyCeilingStops(limiter.limits, old(limiter.counter.counts), r)
                    ==> o == Refused(Q.GlobalDaily, UntilNextDay(r.chargedAt)))
                && limiter.counter.counts == counts
                && cache.entries == if o.Served? then Shared(cache, old(cache.entries), r, question)
                                    else old(cache.entries)
      ensures killSwitch.autoUntil == MarkAfter(old(killSwitch.autoUntil), r, o)
      ensures killSwitch.autoUntil ==
        if o.Refused? && o.reason == Q.GlobalDaily then
          KillSwitch.Raise(old(killSwitch.autoUntil), KillSwitch.Trip(r.trippedAt, UntilNextDay(r.chargedAt)))
        else if o.Served? && (Broken(r.answer, CircuitBreaker.CircuitOpen) || Broken(r.answer, CircuitBreaker.RateLimited)) then
          KillSwitch.Raise(old(killSwitch.autoUntil), KillSwitch.Trip(r.trippedAt, 60_000_000_000))
        else old(killSwitch.autoUntil)
      ensures AtCeiling(o) ==> o.retryAfter == UntilNextDay(r.chargedAt)
      ensures AtCeiling(o) && r.chargedAt <= r.trippedAt ==>
        r.chargedAt + UntilNextDay(r.chargedAt) <= killSwitch.autoUntil
    {
      hide Q.ChargeFrom, Q.CeilingReached, UntilNextDay;
      ghost var mark, counts := killSwitch.autoUntil, limiter.counter.counts;
      if OnlyCeilingStops(limiter.limits, counts, r) {
        Q.CeilingRefuses(limiter.limits, counts, subject, r.chargedAt, r.faults);
      }
      var grant, verdict := limiter.Acquire(subject, r.chargedAt, r.faults);
      if verdict.Failed? {
        return QuotaUnavailable;
      }
      if verdict.decision.Denied? {
        GlobalDenialWaits(limiter.limits, counts, Q.Fresh(subject, r.chargedAt), r.faults, verdict.decision.retryAfter);
        if verdict.decision.reason.GlobalDaily? {
          killSwitch.TripFor(r.trippedAt, verdict.decision.retryAfter);
        }
        o := Refused(verdict.decision.reason, verdict.decision.retryAfter);
        if r.chargedAt <= r.trippedAt {
          MarkCovers(mark, r, o);
        }
        return;
      }
      Conclude(r, question);
      limiter.Release(grant);
      return Served(verdict.decision.remaining, r.answer);
    }

    /** After the model: trip on provider trouble, share an answer that carries no context. */
    method Conclude(r: Request, question: string)
      modifies killSwitch, cache
      ensures forall n :: killSwitch.autoUntil == MarkAfter(old(killSwitch.autoUntil), r, Served(n, r.answer))
      ensures killSwitch.autoUntil ==
        if Broken(r.answer, CircuitBreaker.CircuitOpen) || Broken(r.answer, CircuitBreaker.RateLimited) then
          KillSwitch.Raise(old(killSwitch.autoUntil), KillSwitch.Trip(r.trippedAt, 60_000_000_000))
        else old(killSwitch.autoUntil)
      ensures cache.entries == Shared(cache, old(cache.entries), r, question)
    {
      match r.answer
      case Broke(_) =>
        if ProviderTrouble(r.answer) {
          killSwitch.TripFor(r.trippedAt, PROVIDER_TRIP_FOR);
        }
      case Whole(reply, history) =>
        if BotPrompt.Cacheable(reply, history) {
          cache.Put(question, reply.text, r.sweptAt, r.storedAt);
        }
      case _ =>
    }

    /** What a request does to the switch and the cache. */
    method HandleNext(r: Request) returns (o: Outcome)
      requires r.chargedAt <= r.trippedAt
      modifies killSwitch, burst, cache, limiter, limiter.counter
      ensures limiter.inFlight == old(limiter.inFlight)
      ensures r.enabledAt < old(killSwitch.autoUntil) ==> o == Disabled
      ensures old(killSwitch.autoUntil) <= killSwitch.autoUntil
      ensures AtCeiling(o) ==> r.chargedAt + UntilNextDay(r.chargedAt) <= killSwitch.autoUntil
      ensures forall key, text :: Holds(cache.entries, key, text) ==>
                Holds(old(cache.entries), key, text) || Shares(cache.unicode, unicode, r, o, key, text)
      ensures o.Cached? ==> Holds(old(cache.entries), Normalize(cache.unicode, QuestionOf(unicode, r)), o.text)
    {
      hide Q.ChargeFrom, ReplyLog.NextTable, ReplyLog.TableAnswer, Normalize, Trim, Shared, Shares, Holds, MarkAfter;
      hide Subject.DayKey, UntilNextDay, TokenBucket.NextTable, TokenBucket.TableAnswer;
      ghost var mark, before := killSwitch.autoUntil, cache.entries;
      o := Handle(r);
      MarkCovers(mark, r, o);
      OnlySharedIsCached(cache, unicode, before, r, o);
    }

    /** MAIN RESULT.  Over any run of requests, once one is refused at the global ceiling, every later
        one whose first gate reads the clock on the same ICT day is answered `Disabled`, which by the
        contract of Handle costs nothing anywhere, whatever shorter trips happen in between.  And every
        answer given from the cache, if not there at first, is one an earlier request was served: whole,
        to a question with the same normal form, by a model that was shown nothing but that question. */
    method ServeAll(rs: seq<Request>) returns (os: seq<Outcome>)
      requires forall i :: 0 <= i < |rs| ==> rs[i].chargedAt <= rs[i].trippedAt
      modifies killSwitch, burst, cache, limiter, limiter.counter
      ensures |os| == |rs|
      ensures forall i, j :: 0 <= i < j < |rs| && AtCeiling(os[i]) && DateOf(rs[j].enabledAt) == DateOf(rs[i].chargedAt)
                             ==> os[j] == Disabled
      ensures limiter.inFlight == old(limiter.inFlight)
      ensures forall j :: 0 <= j < |rs| && os[j].Cached? ==>
        Origin(cache.unicode, unicode, old(cache.entries), rs, os, j,
               Normalize(cache.unicode, QuestionOf(unicode, rs[j])), os[j].text)
    {
      hide Origin, Shares, Holds, DateOf, UntilNextDay, QuestionOf, Normalize;
      os := [];
      OriginStarts(cache.unicode, unicode, cache.entries, rs);
      for k := 0 to |rs|
        invariant |os| == k
        invariant limiter.inFlight == old(limiter.inFlight)
        invariant forall i :: 0 <= i < k && AtCeiling(os[i]) ==>
          rs[i].chargedAt + UntilNextDay(rs[i].chargedAt) <= killSwitch.autoUntil
        invariant forall i, j :: 0 <= i < j < k && AtCeiling(os[i]) && DateOf(rs[j].enabledAt) == DateOf(rs[i].chargedAt)
                                 ==> os[j] == Disabled
        invariant forall key, text :: Holds(cache.entries, key, text) ==>
          Origin(cache.unicode, unicode, old(cache.entries), rs, os, k, key, text)
        invariant forall j :: 0 <= j < k && os[j].Cached? ==>
          Origin(cache.unicode, unicode, old(cache.entries), rs, os, j,
                 Normalize(cache.unicode, QuestionOf(unicode, rs[j])), os[j].text)
      {
        hide *;
        var o := HandleNext(rs[k]);
        forall i | 0 <= i < k && AtCeiling(os[i]) && DateOf(rs[k].enabledAt) == DateOf(rs[i].chargedAt)
          ensures o == Disabled
        {
          SameDayIsBeforeMidnight(rs[i].chargedAt, rs[k].enabledAt);
        }
        forall n: nat, key, text | n <= k
          ensures Origin(cache.unicode, unicode, old(cache.entries), rs, os, n, key, text)
                  ==> Origin(cache.unicode, unicode, old(cache.entries), rs, os + [o], n, key, text)
          ensures Origin(cache.unicode, unicode, old(cache.entries), rs, os, k, key, text)
                  || Shares(cache.unicode, unicode, rs[k], o, key, text)
                  ==> Origin(cache.unicode, unicode, old(cache.entries), rs, os + [o], k + 1, key, text)
        {
          OriginGrows(cache.unicode, unicode, old(cache.entries), rs, os, o, n, key, text);
        }
        os := os + [o];
      }
    }
  }
}
