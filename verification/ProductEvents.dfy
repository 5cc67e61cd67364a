/** Product events and the effect of one store transaction on the search index.

    The index has three tables: the ledger of processed event ids, the tombstones of deleted
    products and the visible product rows.  One call of the store commits exactly one `Apply`.
    Here each call is a single step; IndexTransactions shows that overlapping transactions
    cannot tell the difference. */
module ProductEvents {
  import opened Wrappers

  type EventId = string
  type ProductId = string
  /** A business timestamp (updatedAt of a snapshot, occurredAt of a deletion). */
  type Time = int

  datatype ProductDoc = ProductDoc(
    productId: ProductId,
    name: string,
    slug: string,
    description: Option<string>,
    price: string,
    shopId: string,
    categoryId: Option<string>,
    thumbnailUrl: Option<string>,
    status: string,
    isHidden: bool,
    updatedAt: Time)

  datatype Event =
    | Upsert(eventId: EventId, doc: ProductDoc)
    | Delete(eventId: EventId, productId: ProductId, deletedAt: Time)
  {
    function Product(): ProductId {
      if Upsert? then doc.productId else productId
    }

    function Stamp(): Time {
      if Upsert? then doc.updatedAt else deletedAt
    }
  }

  datatype IndexState = IndexState(
    processed: set<EventId>,
    tombstones: map<ProductId, Time>,
    rows: map<ProductId, ProductDoc>)

  const EMPTY_INDEX := IndexState({}, map[], map[])

  /** What a committed call reports: nil, ErrDuplicateEvent or ErrTombstoneBlocked. */
  datatype Outcome = Applied | Duplicate | TombstoneBlocked

  /** The tombstone guard: an update not strictly newer than the deletion is dropped. */
  predicate Blocked(s: IndexState, doc: ProductDoc) {
    doc.productId in s.tombstones && doc.updatedAt <= s.tombstones[doc.productId]
  }

  /** INSERT ... ON CONFLICT DO UPDATE ... WHERE updated_at < EXCLUDED.updated_at */
  function UpsertRow(rows: map<ProductId, ProductDoc>, doc: ProductDoc): map<ProductId, ProductDoc> {
    if doc.productId in rows && doc.updatedAt <= rows[doc.productId].updatedAt then rows
    else rows[doc.productId := doc]
  }

  /** DELETE ... WHERE updated_at <= deletedAt */
  function DeleteRow(rows: map<ProductId, ProductDoc>, p: ProductId, at: Time): map<ProductId, ProductDoc> {
    if p in rows && rows[p].updatedAt <= at then rows - {p} else rows
  }

  /** INSERT ... ON CONFLICT DO UPDATE SET deleted_at = GREATEST(old, new) */
  function RaiseTombstone(tombstones: map<ProductId, Time>, p: ProductId, at: Time): map<ProductId, Time> {
    tombstones[p := if p in tombstones && at < tombstones[p] then tombstones[p] else at]
  }

  /** The guarded writes of an event, leaving the ledger alone. */
  function Write(s: IndexState, e: Event): IndexState {
    match e
    case Upsert(_, doc) =>
      if Blocked(s, doc) then s
      else s.(tombstones := s.tombstones - {doc.productId}, rows := UpsertRow(s.rows, doc))
    case Delete(_, p, at) =>
      s.(tombstones := RaiseTombstone(s.tombstones, p, at), rows := DeleteRow(s.rows, p, at))
  }

  /** One committed transaction: dedup by event id, then the guarded writes. */
  function Apply(s: IndexState, e: Event): IndexState {
    if e.eventId in s.processed then s
    else Write(s.(processed := s.processed + {e.eventId}), e)
  }

  function OutcomeOf(s: IndexState, e: Event): Outcome {
    if e.eventId in s.processed then Duplicate
    else if e.Upsert? && Blocked(s, e.doc) then TombstoneBlocked
    else Applied
  }

  /** The index after a whole delivery order, duplicates included. */
  function RunFrom(s: IndexState, es: seq<Event>): IndexState {
    if es == [] then s
    else Apply(RunFrom(s, es[..|es| - 1]), es[|es| - 1])
  }

  function Run(es: seq<Event>): IndexState {
    RunFrom(EMPTY_INDEX, es)
  }

  lemma RunSnoc(s: IndexState, es: seq<Event>, e: Event)
    ensures RunFrom(s, es + [e]) == Apply(RunFrom(s, es), e)
  {}

  function Ids(es: seq<Event>): set<EventId> {
    set e | e in es :: e.eventId
  }

  /** An event id names one event: redeliveries carry the same content. */
  ghost predicate WellIdentified(es: seq<Event>) {
    forall e, f :: e in es && f in es && e.eventId == f.eventId ==> e == f
  }

  /** The ledger holds exactly the ids delivered so far. */
  lemma {:induction false} LedgerIsIds(s: IndexState, es: seq<Event>)
    ensures RunFrom(s, es).processed == s.processed + Ids(es)
  {
    if es != [] {
      var init, last := es[..|es| - 1], es[|es| - 1];
      LedgerIsIds(s, init);
      assert es == init + [last];
      assert Ids(es) == Ids(init) + {last.eventId};
    }
  }
}
