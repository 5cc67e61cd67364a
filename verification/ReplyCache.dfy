/** The reply cache as the service runs it. */
module ReplyCache {
  import opened QuestionText
  import ReplyLog

  class ReplyCache {
    const config: ReplyLog.Config
    const unicode: Unicode
    var entries: ReplyLog.Table

    constructor (config: ReplyLog.Config, unicode: Unicode)
      ensures this.config == config && this.unicode == unicode && entries == map[]
    {
      this.config := config;
      this.unicode := unicode;
      entries := map[];
    }

    method Get(question: string, now: int) returns (text: string, found: bool)
      modifies this
      ensures var op := ReplyLog.Get(Normalize(unicode, question), now);
              && (if found then ReplyLog.Found(text) else ReplyLog.Missing)
                 == ReplyLog.TableAnswer(config, old(entries), op)
              && entries == ReplyLog.NextTable(config, old(entries), op)
    {
      var key := NormalizeQuestion(unicode, question);
      if key !in entries {
        return "", false;
      }
      var entry := entries[key];
      if !(now < entry.expiresAt) {
        entries := entries - {key};
        return "", false;
      }
      return entry.text, true;
    }

    method Put(question: string, answer: string, sweepAt: int, now: int)
      modifies this
      ensures entries == ReplyLog.NextTable(config, old(entries),
                                            ReplyLog.Put(Normalize(unicode, question), answer, sweepAt, now))
    {
      if answer == "" {
        return;
      }
      var key := NormalizeQuestion(unicode, question);
      if |entries| >= config.max {
        SweepExpired(sweepAt);
      }
      if |entries| >= config.max {
        return;
      }
      entries := entries[key := ReplyLog.Entry(answer, now + config.ttl)];
    }

    method SweepExpired(now: int)
      modifies this
      ensures entries == ReplyLog.Sweep(old(entries), now)
    {
      var before, unseen := entries, entries.Keys;
      while unseen != {}
        invariant unseen <= before.Keys
        invariant entries == map k | k in before && (k in unseen || now < before[k].expiresAt) :: before[k]
        decreases unseen
      {
        var k :| k in unseen;
        if !(now < before[k].expiresAt) {
          entries := entries - {k};
        }
        unseen := unseen - {k};
      }
    }
  }
}
