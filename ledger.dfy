/** The `xp_events` collection: the XP events themselves, the unique index
    `uq_xp_user_unique_key` on `(user_id, unique_key)`, and `insert_one`, which the
    store refuses with `DuplicateKeyError` when the index already holds the key. */
module Ledger {
  import opened Optional
  import opened Posts

  const MYWIN_REASON := "mywin_submission"
  const COMEBACK_REASON := "comeback_submission"
  const BACKFILL_SOURCE := "backfill_mywin_posts"

  /** The audit fields an event carries under `meta`. */
  datatype Meta = Meta(fileId: string, tag: string, gameName: string, source: string)

  /** One XP event; `eventType` is the `type` field, which only one of the two
      backfills writes. */
  datatype XpEvent = XpEvent(
    userId: int,
    xp: int,
    eventType: Option<string>,
    reason: string,
    uniqueKey: string,
    ts: DateTime,
    createdAt: DateTime,
    meta: Meta)

  /** The pair the unique index is built on. */
  datatype Key = Key(userId: int, uniqueKey: string)

  function KeyOf(e: XpEvent): Key {
    Key(e.userId, e.uniqueKey)
  }

  /** The reason recorded for a submission with the given stripped, lower-cased tag. */
  function ReasonFor(tag: string): (r: string)
    ensures r == MYWIN_REASON <==> tag == "mywin"
    ensures r == MYWIN_REASON || r == COMEBACK_REASON
  {
    if tag == "mywin" then MYWIN_REASON else COMEBACK_REASON
  }

  /** The idempotency key of a submission, from its stripped `file_id`. */
  function UniqueKeyFor(fileId: string): (k: string)
    ensures |k| == |fileId| + 6 && k[..6] == "mywin:" && k[6..] == fileId
  {
    "mywin:" + fileId
  }

  /** No two rows share a key. */
  predicate KeysUnique(rows: seq<XpEvent>) {
    forall i, j :: 0 <= i < j < |rows| ==> KeyOf(rows[i]) != KeyOf(rows[j])
  }

  /** The keys present in the rows. */
  function KeySet(rows: seq<XpEvent>): set<Key> {
    if rows == [] then {} else KeySet(rows[..|rows| - 1]) + {KeyOf(rows[|rows| - 1])}
  }

  lemma {:induction false} KeySetMember(rows: seq<XpEvent>, k: Key)
    ensures k in KeySet(rows) <==> exists i :: 0 <= i < |rows| && KeyOf(rows[i]) == k
  {
    if rows != [] {
      var init := rows[..|rows| - 1];
      KeySetMember(init, k);
      if k in KeySet(init) {
        var i :| 0 <= i < |init| && KeyOf(init[i]) == k;
        assert rows[i] == init[i];
      }
      if exists i :: 0 <= i < |rows| && KeyOf(rows[i]) == k {
        var i :| 0 <= i < |rows| && KeyOf(rows[i]) == k;
        if i < |init| { assert init[i] == rows[i]; }
      }
    }
  }

  /** With unique keys there are exactly as many keys as rows. */
  lemma {:induction false} KeysUniqueCount(rows: seq<XpEvent>)
    requires KeysUnique(rows)
    ensures |KeySet(rows)| == |rows|
  {
    if rows != [] {
      var init := rows[..|rows| - 1];
      var last := rows[|rows| - 1];
      assert KeysUnique(init) by {
        forall i, j | 0 <= i < j < |init| ensures KeyOf(init[i]) != KeyOf(init[j]) {
          assert init[i] == rows[i] && init[j] == rows[j];
        }
      }
      KeysUniqueCount(init);
      KeySetMember(init, KeyOf(last));
    }
  }

  /** The collection as the backfills see it. */
  datatype Store = Store(rows: seq<XpEvent>, uniqueIndex: bool)

  /** What a collection with the unique index can hold. */
  predicate Consistent(s: Store) {
    s.uniqueIndex ==> KeysUnique(s.rows)
  }

  datatype InsertResult = Acknowledged | DuplicateKeyError

  /** `insert_one(doc)`: refused, leaving the collection as it was, exactly when the
      unique index exists and already holds the key of `doc`; otherwise appended. */
  function Insert(s: Store, doc: XpEvent): (r: (Store, InsertResult))
    ensures r.1 == DuplicateKeyError <==> s.uniqueIndex && KeyOf(doc) in KeySet(s.rows)
    ensures r.1 == DuplicateKeyError ==> r.0 == s
    ensures r.1 == Acknowledged ==> r.0 == s.(rows := s.rows + [doc])
  {
    if s.uniqueIndex && KeyOf(doc) in KeySet(s.rows) then (s, DuplicateKeyError)
    else (s.(rows := s.rows + [doc]), Acknowledged)
  }

  /** Afterwards the key of the document is present, whatever the outcome, and no
      other key has appeared. */
  lemma InsertKeySet(s: Store, doc: XpEvent)
    ensures KeySet(Insert(s, doc).0.rows) == KeySet(s.rows) + {KeyOf(doc)}
  {
    var rows := s.rows + [doc];
    assert rows[..|rows| - 1] == s.rows;
  }

  /** Inserting keeps the unique index's guarantee. */
  lemma InsertConsistent(s: Store, doc: XpEvent)
    requires Consistent(s)
    ensures Consistent(Insert(s, doc).0)
    ensures Insert(s, doc).0.uniqueIndex == s.uniqueIndex
  {
    var rows := s.rows + [doc];
    assert rows[..|rows| - 1] == s.rows;
    if Insert(s, doc).1 == Acknowledged && s.uniqueIndex {
      forall i, j | 0 <= i < j < |rows| ensures KeyOf(rows[i]) != KeyOf(rows[j]) {
        if j == |rows| - 1 {
          KeySetMember(s.rows, KeyOf(doc));
        }
      }
    }
  }

  /** A second insert of a document with the same key as one already acknowledged
      under the unique index is refused and changes nothing. */
  lemma InsertAtMostOnce(s: Store, a: XpEvent, b: XpEvent)
    requires s.uniqueIndex && KeyOf(a) == KeyOf(b)
    ensures Insert(Insert(s, a).0, b) == (Insert(s, a).0, DuplicateKeyError)
  {
    var rows := Insert(s, a).0.rows;
    if Insert(s, a).1 == Acknowledged {
      assert rows[..|rows| - 1] == s.rows;
    }
  }

  /** The index is on the pair, not on `unique_key` alone: two events for the same
      `file_id` granted to different users are both stored. */
  lemma InsertDifferentUsers(s: Store, a: XpEvent, b: XpEvent)
    requires a.uniqueKey == b.uniqueKey && a.userId != b.userId
    requires KeyOf(a) !in KeySet(s.rows) && KeyOf(b) !in KeySet(s.rows)
    ensures Insert(s, a).1 == Acknowledged
    ensures Insert(Insert(s, a).0, b) == (s.(rows := s.rows + [a, b]), Acknowledged)
  {
    InsertKeySet(s, a);
    assert s.rows + [a] + [b] == s.rows + [a, b];
  }

  /** `create_index(..., unique=True, name="uq_xp_user_unique_key")`: a no-op when the
      index exists; it fails (`None`) when the rows already hold a duplicate key. */
  function CreateUniqueIndex(s: Store): (r: Option<Store>)
    ensures r.Some? <==> KeysUnique(s.rows) || s.uniqueIndex
    ensures r.Some? ==> r.value.rows == s.rows && r.value.uniqueIndex
    ensures r.Some? && Consistent(s) ==> Consistent(r.value)
  {
    if s.uniqueIndex then Some(s)
    else if KeysUnique(s.rows) then Some(s.(uniqueIndex := true))
    else None
  }

  /** The live `xp_events` collection, updated in place by `create_index` and
      `insert_one`. */
  class XpEvents {
    var rows: seq<XpEvent>
    var uniqueIndex: bool

    function State(): Store
      reads this
    {
      Store(rows, uniqueIndex)
    }

    ghost predicate Valid()
      reads this
    {
      Consistent(State())
    }

    constructor (rows0: seq<XpEvent>, uniqueIndex0: bool)
      requires Consistent(Store(rows0, uniqueIndex0))
      ensures Valid() && State() == Store(rows0, uniqueIndex0)
    {
      rows, uniqueIndex := rows0, uniqueIndex0;
    }

    method CreateIndex() returns (ok: bool)
      requires Valid()
      modifies this
      ensures Valid()
      ensures ok <==> CreateUniqueIndex(old(State())).Some?
      ensures State() == CreateUniqueIndex(old(State())).GetOr(old(State()))
    {
      var r := CreateUniqueIndex(State());
      ok := r.Some?;
      if ok {
        uniqueIndex := true;
      }
    }

    method InsertOne(doc: XpEvent) returns (r: InsertResult)
      requires Valid()
      modifies this
      ensures Valid()
      ensures (State(), r) == Insert(old(State()), doc)
    {
      InsertConsistent(State(), doc);
      if uniqueIndex && KeyOf(doc) in KeySet(rows) {
        r := DuplicateKeyError;
      } else {
        rows := rows + [doc];
        r := Acknowledged;
      }
    }
  }
}
