/** Convergence: whatever the delivery order and duplication, the visible index is the
    last-writer-wins result of the events, with deletions winning ties. */
module IndexConvergence {
  import opened Wrappers
  import opened ProductEvents

  /** The last-writer-wins reference, by position and with no reference to the tables: event `i` is
      an upsert of `p` newer than every deletion of `p`, at least as new as every other upsert of
      `p`, and the first one in the order to carry its timestamp. */
  ghost predicate Wins(es: seq<Event>, p: ProductId, i: nat) {
    && i < |es|
    && es[i].Upsert? && es[i].Product() == p
    && forall j :: 0 <= j < |es| && es[j].Product() == p ==>
                     && es[j].Stamp() <= es[i].Stamp()
                     && ((j < i || es[j].Delete?) ==> es[j].Stamp() < es[i].Stamp())
  }

  /** What the index must show for `p` after the events `es`. */
  ghost predicate Shows(es: seq<Event>, p: ProductId, row: Option<ProductDoc>) {
    match row
    case Some(doc) => exists i: nat :: Wins(es, p, i) && es[i].doc == doc
    case None => forall i: nat :: !Wins(es, p, i)
  }

  /** The greatest deletion time of `p`. */
  function LastDelete(es: seq<Event>, p: ProductId): Option<Time> {
    if es == [] then None
    else
      var e, d := es[|es| - 1], LastDelete(es[..|es| - 1], p);
      if e.Delete? && e.productId == p && (d.None? || d.value < e.deletedAt) then Some(e.deletedAt) else d
  }

  /** The position of the first upsert of `p` with the greatest upsert time. */
  function TopUpsert(es: seq<Event>, p: ProductId): (r: Option<nat>)
    ensures r.Some? ==> r.value < |es| && es[r.value].Upsert? && es[r.value].doc.productId == p
  {
    if es == [] then None
    else
      var e, u := es[|es| - 1], TopUpsert(es[..|es| - 1], p);
      if e.Upsert? && e.doc.productId == p && (u.None? || es[u.value].doc.updatedAt < e.doc.updatedAt)
      then Some(|es| - 1) else u
  }

  predicate Visible(es: seq<Event>, p: ProductId) {
    var u, d := TopUpsert(es, p), LastDelete(es, p);
    u.Some? && (d.None? || d.value < es[u.value].doc.updatedAt)
  }

  /** What the tables hold for `p`; the part about tombstones is what makes the next step work even
      though upserts clear them and late deletions rewrite them. */
  ghost predicate TablesMatch(s: IndexState, es: seq<Event>, p: ProductId) {
    var u, d := TopUpsert(es, p), LastDelete(es, p);
    if Visible(es, p) then
      && p in s.rows && s.rows[p] == es[u.value].doc
      && (p in s.tombstones ==> d.Some? && s.tombstones[p] <= d.value)
    else
      && p !in s.rows
      && Lookup(s.tombstones, p) == d
  }

  lemma {:induction false} LastDeleteBounds(es: seq<Event>, p: ProductId)
    ensures forall j :: 0 <= j < |es| && es[j].Delete? && es[j].productId == p ==>
                          LastDelete(es, p).Some? && es[j].deletedAt <= LastDelete(es, p).value
    ensures LastDelete(es, p).Some? ==>
              exists j :: 0 <= j < |es| && es[j] == Delete(es[j].eventId, p, LastDelete(es, p).value)
  {
    if es != [] {
      var init := es[..|es| - 1];
      LastDeleteBounds(init, p);
      assert forall j :: 0 <= j < |init| ==> init[j] == es[j];
    }
  }

  lemma {:induction false} TopUpsertBounds(es: seq<Event>, p: ProductId)
    ensures forall j :: 0 <= j < |es| && es[j].Upsert? && es[j].doc.productId == p ==>
                          && TopUpsert(es, p).Some?
                          && es[j].doc.updatedAt <= es[TopUpsert(es, p).value].doc.updatedAt
                          && (j < TopUpsert(es, p).value ==>
                                es[j].doc.updatedAt < es[TopUpsert(es, p).value].doc.updatedAt)
  {
    if es != [] {
      var init := es[..|es| - 1];
      TopUpsertBounds(init, p);
      assert forall j :: 0 <= j < |init| ==> init[j] == es[j];
    }
  }

  /** The computed winner and the declarative one agree. */
  lemma VisibleIsWins(es: seq<Event>, p: ProductId, i: nat)
    ensures Wins(es, p, i) <==> Visible(es, p) && TopUpsert(es, p) == Some(i)
  {
    LastDeleteBounds(es, p);
    TopUpsertBounds(es, p);
    if Wins(es, p, i) {
      var t := TopUpsert(es, p).value;
      assert es[t].Product() == p;
      if LastDelete(es, p).Some? {
        var j :| 0 <= j < |es| && es[j] == Delete(es[j].eventId, p, LastDelete(es, p).value);
        assert es[j].Product() == p;
      }
    }
  }

  /** One delivery keeps the tables matching the events. */
  lemma ApplyKeepsMatch(s: IndexState, es: seq<Event>, e: Event, p: ProductId)
    requires TablesMatch(s, es, p)
    requires e.eventId !in s.processed
    ensures TablesMatch(Apply(s, e), es + [e], p)
  {}

  /** The events that take effect: each id at its first delivery only. */
  function Dedup(es: seq<Event>): (r: seq<Event>)
  {
    if es == [] then []
    else
      var init, e := es[..|es| - 1], es[|es| - 1];
      if e.eventId in Ids(init) then Dedup(init) else Dedup(init) + [e]
  }

  lemma {:induction false} DedupKeepsIds(es: seq<Event>)
    ensures Ids(Dedup(es)) == Ids(es)
    ensures forall e :: e in Dedup(es) ==> e in es
  {
    if es != [] {
      var init, e := es[..|es| - 1], es[|es| - 1];
      DedupKeepsIds(init);
      assert es == init + [e];
      assert Ids(es) == Ids(init) + {e.eventId};
      if e.eventId !in Ids(init) {
        assert Ids(Dedup(init) + [e]) == Ids(Dedup(init)) + {e.eventId};
      }
    }
  }

  /** The id of an event is its own: no other event carries it. */
  ghost predicate OwnId(es: seq<Event>, e: Event) {
    forall f :: f in es && f.eventId == e.eventId ==> f == e
  }

  /** The ids of the events about `p` are their own. */
  ghost predicate IdentifiedOf(es: seq<Event>, p: ProductId) {
    forall e :: e in es && e.Product() == p ==> OwnId(es, e)
  }

  /** An event with an id of its own is not lost to deduplication. */
  lemma {:induction false} DedupKeepsOwn(es: seq<Event>, e: Event)
    requires e in es && OwnId(es, e)
    ensures e in Dedup(es)
  {
    var init, last := es[..|es| - 1], es[|es| - 1];
    assert es == init + [last];
    if e in init {
      DedupKeepsOwn(init, e);
    } else {
      assert e == last && last.eventId !in Ids(init);
    }
  }

  lemma {:induction false} RunMatches(es: seq<Event>, p: ProductId)
    ensures TablesMatch(Run(es), Dedup(es), p)
  {
    if es != [] {
      var init, e := es[..|es| - 1], es[|es| - 1];
      RunMatches(init, p);
      LedgerIsIds(EMPTY_INDEX, init);
      if e.eventId !in Ids(init) {
        ApplyKeepsMatch(Run(init), Dedup(init), e, p);
      }
    }
  }

  /** MAIN RESULT.  After any sequence of deliveries the row of every product is what last-writer-wins
      over the first deliveries says. */
  lemma Converges(es: seq<Event>, p: ProductId)
    ensures Shows(Dedup(es), p, Lookup(Run(es).rows, p))
  {
    RunMatches(es, p);
    var fs := Dedup(es);
    forall i: nat ensures Wins(fs, p, i) <==> Visible(fs, p) && TopUpsert(fs, p) == Some(i) {
      VisibleIsWins(fs, p, i);
    }
    if Visible(fs, p) {
      assert Wins(fs, p, TopUpsert(fs, p).value);
    }
  }

  /** A deletion delivered so far that the update is not newer than. */
  ghost predicate Buried(es: seq<Event>, e: Event) {
    e.Upsert? && exists d :: d in Dedup(es) && d.Delete? && d.productId == e.doc.productId && e.doc.updatedAt <= d.deletedAt
  }

  /** What a call reports, told from the events delivered before it: a duplicate iff its id came before; a
      tombstone in the way only if a deletion buries it, and whenever one does and no row is on show; and
      unless it reports neither, no row and no tombstone moved. */
  lemma OutcomeMeans(es: seq<Event>, e: Event)
    ensures var s, o := Run(es), OutcomeOf(Run(es), e);
            && (o == Duplicate <==> exists f :: f in es && f.eventId == e.eventId)
            && (o == TombstoneBlocked ==> Buried(es, e))
            && (o != Duplicate && Buried(es, e) && e.Product() !in s.rows ==> o == TombstoneBlocked)
            && (o == TombstoneBlocked <==>
                  && o != Duplicate && e.Upsert? && e.doc.productId in s.tombstones
                  && e.doc.updatedAt <= s.tombstones[e.doc.productId])
            && (o != Applied ==> Apply(s, e).rows == s.rows && Apply(s, e).tombstones == s.tombstones)
  {
    var p := e.Product();
    LedgerIsIds(EMPTY_INDEX, es);
    RunMatches(es, p);
    LastDeleteBounds(Dedup(es), p);
    assert Run(es).processed == Ids(es);
    assert e.eventId in Ids(es) <==> exists f :: f in es && f.eventId == e.eventId;
    hide Dedup, Run;
    if e.Upsert? && LastDelete(Dedup(es), p).Some? {
      var j :| 0 <= j < |Dedup(es)| && Dedup(es)[j] == Delete(Dedup(es)[j].eventId, p, LastDelete(Dedup(es), p).value);
      assert Dedup(es)[j] in Dedup(es);
    }
  }

  ghost predicate SameEvents(es: seq<Event>, fs: seq<Event>) {
    forall e :: e in es <==> e in fs
  }

  ghost predicate SameEventsOf(es: seq<Event>, fs: seq<Event>, p: ProductId) {
    forall e: Event :: e.Product() == p ==> (e in es <==> e in fs)
  }

  /** Upsert `e` could be the one shown: no event about its product is newer and no deletion ties. */
  ghost predicate Candidate(es: seq<Event>, e: Event) {
    && e in es && e.Upsert?
    && forall f :: f in es && f.Product() == e.Product() ==>
                     && f.Stamp() <= e.Stamp()
                     && (f.Delete? ==> f.Stamp() < e.Stamp())
  }

  /** Candidates for `p` carry one document. */
  ghost predicate TiesAgreeOf(es: seq<Event>, p: ProductId) {
    forall e, f :: Candidate(es, e) && Candidate(es, f) && e.Product() == p == f.Product() ==> e.doc == f.doc
  }

  /** Candidates for one product carry one document. */
  ghost predicate TiesAgree(es: seq<Event>) {
    forall e, f :: Candidate(es, e) && Candidate(es, f) && e.Product() == f.Product() ==> e.doc == f.doc
  }

  lemma CandidateIsVisible(es: seq<Event>, e: Event)
    requires OwnId(es, e) && Candidate(es, e)
    ensures Visible(Dedup(es), e.Product())
  {
    var fs, p := Dedup(es), e.Product();
    DedupKeepsIds(es);
    DedupKeepsOwn(es, e);
    LastDeleteBounds(fs, p);
    TopUpsertBounds(fs, p);
    assert e in fs;
    var t := TopUpsert(fs, p).value;
    assert fs[t] in es && fs[t].Product() == p;
    if LastDelete(fs, p).Some? {
      var k :| 0 <= k < |fs| && fs[k] == Delete(fs[k].eventId, p, LastDelete(fs, p).value);
      assert fs[k] in es && fs[k].Product() == p;
    }
  }

  /** The winner is a candidate, and a product with a candidate has a winner. */
  lemma WinnerIsCandidate(es: seq<Event>, p: ProductId)
    requires IdentifiedOf(es, p)
    ensures match Lookup(Run(es).rows, p)
            case Some(doc) => exists e :: Candidate(es, e) && e.Product() == p && e.doc == doc
            case None => forall e :: Candidate(es, e) ==> e.Product() != p
  {
    Converges(es, p);
    DedupKeepsIds(es);
    var fs := Dedup(es);
    match Lookup(Run(es).rows, p)
    case Some(doc) =>
      var i: nat :| Wins(fs, p, i) && fs[i].doc == doc;
      forall f | f in es && f.Product() == p ensures f in fs {
        DedupKeepsOwn(es, f);
      }
      assert Candidate(es, fs[i]);
    case None =>
      RunMatches(es, p);
      forall e | Candidate(es, e) ensures e.Product() != p {
        if e.Product() == p {
          CandidateIsVisible(es, e);
        }
      }
  }

  /** Two deliveries of the same events about `p` show the same row of `p`, if its ties agree. */
  lemma RowOrderIndependent(es: seq<Event>, fs: seq<Event>, p: ProductId)
    requires IdentifiedOf(es, p) && IdentifiedOf(fs, p) && SameEventsOf(es, fs, p) && TiesAgreeOf(es, p)
    ensures Lookup(Run(fs).rows, p) == Lookup(Run(es).rows, p)
  {
    WinnerIsCandidate(es, p);
    WinnerIsCandidate(fs, p);
    assert forall e: Event :: e.Product() == p ==> (Candidate(es, e) <==> Candidate(fs, e));
  }

  /** If ties agree, two deliveries of the same set of events end with the same rows. */
  lemma OrderIndependent(es: seq<Event>, fs: seq<Event>)
    requires WellIdentified(es) && SameEvents(es, fs) && TiesAgree(es)
    ensures Run(fs).rows == Run(es).rows
  {
    forall p: ProductId ensures Lookup(Run(fs).rows, p) == Lookup(Run(es).rows, p) {
      RowOrderIndependent(es, fs, p);
    }
    assert forall p :: p in Run(es).rows <==> Lookup(Run(es).rows, p).Some?;
    assert forall p :: p in Run(fs).rows <==> Lookup(Run(fs).rows, p).Some?;
    assert forall p :: p in Run(es).rows ==> Run(es).rows[p] == Lookup(Run(es).rows, p).value;
    assert forall p :: p in Run(fs).rows ==> Run(fs).rows[p] == Lookup(Run(fs).rows, p).value;
  }

  lemma {:induction false} DedupKeepsFirst(es: seq<Event>)
    requires es != []
    ensures Dedup(es) != [] && Dedup(es)[0] == es[0]
  {
    if |es| > 1 {
      DedupKeepsFirst(es[..|es| - 1]);
    } else {
      assert es[..0] == [];
    }
  }

  /** A candidate delivered before everything else is the one shown. */
  lemma EarlyCandidateShows(es: seq<Event>, e: Event)
    requires Candidate(es, e)
    ensures Lookup(Run([e] + es).rows, e.Product()) == Some(e.doc)
  {
    var fs := Dedup([e] + es);
    DedupKeepsFirst([e] + es);
    DedupKeepsIds([e] + es);
    assert forall f :: f in fs ==> f in es;
    assert Wins(fs, e.Product(), 0);
    Converges([e] + es, e.Product());
    assert forall i: nat :: Wins(fs, e.Product(), i) ==> i == 0;
  }

  /** MAIN RESULT.  The rows depend on nothing but the set of events exactly when upserts that tie
      for newest carry the same document. */
  lemma OrderIndependentIff(es: seq<Event>)
    requires WellIdentified(es)
    ensures TiesAgree(es) <==> forall fs :: SameEvents(es, fs) ==> Run(fs).rows == Run(es).rows
  {
    hide Run;
    if TiesAgree(es) {
      forall fs | SameEvents(es, fs) ensures Run(fs).rows == Run(es).rows {
        OrderIndependent(es, fs);
      }
    } else {
      var e, f :| Candidate(es, e) && Candidate(es, f) && e.Product() == f.Product() && e.doc != f.doc;
      EarlyCandidateShows(es, e);
      EarlyCandidateShows(es, f);
      assert SameEvents(es, [e] + es) && SameEvents(es, [f] + es);
    }
  }
}
