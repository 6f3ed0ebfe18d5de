/** What both backfills do with a post once it has been read: derive at most one XP
    event from it, hand the event to `insert_one` (or, in a dry run, only count it),
    and tally the outcome as inserted, dup, skipped or errors. `Replay` is that loop
    over a sequence of derivations; the per-file modules differ only in how a post
    is turned into a derivation. */
module Reconciler {
  import opened Ledger

  /** What one post yields: skipped by the validity test, failed with an exception
      before reaching the store, or a document to insert. */
  datatype Derivation = Skip | Fail | Emit(doc: XpEvent)

  datatype Outcome = Inserted | Duplicate | Skipped | Errored

  /** The four counters (`inserted`, `dup`, `skipped`, `errors`). */
  datatype Tally = Tally(inserted: nat, dup: nat, skipped: nat, errors: nat) {

    function Total(): nat {
      inserted + dup + skipped + errors
    }

    /** The counters after one more post with outcome `o`. */
    function Bump(o: Outcome): Tally {
      match o
      case Inserted => this.(inserted := inserted + 1)
      case Duplicate => this.(dup := dup + 1)
      case Skipped => this.(skipped := skipped + 1)
      case Errored => this.(errors := errors + 1)
    }

    /** Counter-wise sum (`inserted += i; dup += d; ...`). */
    function Plus(t: Tally): Tally {
      Tally(inserted + t.inserted, dup + t.dup, skipped + t.skipped, errors + t.errors)
    }
  }

  const NoPosts := Tally(0, 0, 0, 0)

  /** One post's effect on the collection and its outcome. */
  function Apply(s: Store, d: Derivation, dryRun: bool): (r: (Store, Outcome))
    ensures r.0.uniqueIndex == s.uniqueIndex
  {
    match d
    case Skip => (s, Skipped)
    case Fail => (s, Errored)
    case Emit(doc) =>
      if dryRun then (s, Inserted)
      else
        var (s', res) := Insert(s, doc);
        (s', if res == Acknowledged then Inserted else Duplicate)
  }

  /** The posts' derivations processed in order, starting from the collection `s`:
      the final collection and the counters. */
  function Replay(s: Store, ds: seq<Derivation>, dryRun: bool): (Store, Tally) {
    if ds == [] then (s, NoPosts)
    else
      var (s1, t) := Replay(s, ds[..|ds| - 1], dryRun);
      var (s2, o) := Apply(s1, ds[|ds| - 1], dryRun);
      (s2, t.Bump(o))
  }

  /** Replaying one more derivation is one more `Apply`. */
  lemma ReplayStep(s: Store, ds: seq<Derivation>, i: nat, dryRun: bool)
    requires i < |ds|
    ensures Replay(s, ds[..i + 1], dryRun)
         == (Apply(Replay(s, ds[..i], dryRun).0, ds[i], dryRun).0,
             Replay(s, ds[..i], dryRun).1.Bump(Apply(Replay(s, ds[..i], dryRun).0, ds[i], dryRun).1))
  {
    assert ds[..i + 1][..i] == ds[..i];
  }

  /** The body of the per-post `try`: count the derivation, inserting its event
      unless the run is dry; `DuplicateKeyError` becomes a dup. */
  method ApplyOne(xpEvents: XpEvents, d: Derivation, dryRun: bool) returns (o: Outcome)
    requires xpEvents.Valid()
    modifies xpEvents
    ensures xpEvents.Valid()
    ensures (xpEvents.State(), o) == Apply(old(xpEvents.State()), d, dryRun)
  {
    match d
    case Skip =>
      o := Skipped;
    case Fail =>
      o := Errored;
    case Emit(doc) =>
      if dryRun {
        o := Inserted;
      } else {
        var r := xpEvents.InsertOne(doc);
        o := if r == DuplicateKeyError then Duplicate else Inserted;
      }
  }

  /** The documents the derivations emit, in order. */
  function Docs(ds: seq<Derivation>): seq<XpEvent> {
    if ds == [] then []
    else Docs(ds[..|ds| - 1]) + (if ds[|ds| - 1].Emit? then [ds[|ds| - 1].doc] else [])
  }

  function NumSkip(ds: seq<Derivation>): nat {
    if ds == [] then 0 else NumSkip(ds[..|ds| - 1]) + (if ds[|ds| - 1].Skip? then 1 else 0)
  }

  function NumFail(ds: seq<Derivation>): nat {
    if ds == [] then 0 else NumFail(ds[..|ds| - 1]) + (if ds[|ds| - 1].Fail? then 1 else 0)
  }

  /** Every emitted document comes from an `Emit` derivation. */
  lemma {:induction false} DocsFromEmits(ds: seq<Derivation>, e: XpEvent)
    requires e in Docs(ds)
    ensures exists i :: 0 <= i < |ds| && ds[i] == Emit(e)
  {
    var init := ds[..|ds| - 1];
    if e in Docs(init) {
      DocsFromEmits(init, e);
      var i :| 0 <= i < |init| && init[i] == Emit(e);
      assert ds[i] == init[i];
    } else {
      assert ds[|ds| - 1] == Emit(e);
    }
  }

  /** Every post lands in exactly one bucket: skips and failures are counted as such,
      each emitted document as inserted or dup, and the counters add up to the
      number of posts. */
  lemma {:induction false} ReplayCounts(s: Store, ds: seq<Derivation>, dryRun: bool)
    ensures Replay(s, ds, dryRun).1.skipped == NumSkip(ds)
    ensures Replay(s, ds, dryRun).1.errors == NumFail(ds)
    ensures Replay(s, ds, dryRun).1.inserted + Replay(s, ds, dryRun).1.dup == |Docs(ds)|
    ensures Replay(s, ds, dryRun).1.Total() == |ds|
  {
    if ds != [] {
      ReplayCounts(s, ds[..|ds| - 1], dryRun);
    }
  }

  lemma {:induction false} KeySetAppend(a: seq<XpEvent>, b: seq<XpEvent>)
    ensures KeySet(a + b) == KeySet(a) + KeySet(b)
  {
    if b == [] {
      assert a + b == a;
    } else {
      var b' := b[..|b| - 1];
      assert (a + b)[..|a + b| - 1] == a + b';
      assert (a + b)[|a + b| - 1] == b[|b| - 1];
      KeySetAppend(a, b');
    }
  }

  /** A replay keeps the unique index, and with it the index's guarantee. */
  lemma {:induction false} ReplayConsistent(s: Store, ds: seq<Derivation>, dryRun: bool)
    requires Consistent(s)
    ensures Consistent(Replay(s, ds, dryRun).0)
    ensures Replay(s, ds, dryRun).0.uniqueIndex == s.uniqueIndex
  {
    if ds != [] {
      var init, d := ds[..|ds| - 1], ds[|ds| - 1];
      ReplayConsistent(s, init, dryRun);
      if d.Emit? && !dryRun {
        InsertConsistent(Replay(s, init, dryRun).0, d.doc);
      }
    }
  }

  /** The collection is append-only under a replay: the old rows stay where they
      were, and each `inserted` of a non-dry run is one new row. */
  lemma {:induction false} ReplayAppendOnly(s: Store, ds: seq<Derivation>, dryRun: bool)
    ensures s.rows <= Replay(s, ds, dryRun).0.rows
    ensures !dryRun ==> |Replay(s, ds, dryRun).0.rows| == |s.rows| + Replay(s, ds, dryRun).1.inserted
  {
    if ds != [] {
      ReplayAppendOnly(s, ds[..|ds| - 1], dryRun);
    }
  }

  /** Every row a replay adds is an emitted document: a skipped or failed post never
      reaches the collection. */
  lemma {:induction false} ReplayRowsFromDocs(s: Store, ds: seq<Derivation>, dryRun: bool, k: nat)
    requires |s.rows| <= k < |Replay(s, ds, dryRun).0.rows|
    ensures Replay(s, ds, dryRun).0.rows[k] in Docs(ds)
  {
    var init, d := ds[..|ds| - 1], ds[|ds| - 1];
    var s1 := Replay(s, init, dryRun).0;
    var extra := if d.Emit? then [d.doc] else [];
    assert Docs(ds) == Docs(init) + extra;
    ReplayAppendOnly(s1, [d], dryRun);
    assert [d][..0] == [];
    if k < |s1.rows| {
      ReplayAppendOnly(s, init, dryRun);
      ReplayRowsFromDocs(s, init, dryRun, k);
    } else {
      assert d.Emit? && Replay(s, ds, dryRun).0.rows[k] == d.doc;
    }
  }

  /** After a non-dry replay the collection holds exactly its old keys and those of
      every emitted document. */
  lemma {:induction false} ReplayKeys(s: Store, ds: seq<Derivation>)
    ensures KeySet(Replay(s, ds, false).0.rows) == KeySet(s.rows) + KeySet(Docs(ds))
  {
    if ds == [] {
      assert KeySet([]) == {};
    } else {
      var init, d := ds[..|ds| - 1], ds[|ds| - 1];
      ReplayKeys(s, init);
      var extra := if d.Emit? then [d.doc] else [];
      assert Docs(ds) == Docs(init) + extra;
      KeySetAppend(Docs(init), extra);
      assert KeySet([]) == {};
      if d.Emit? {
        assert extra[..0] == [];
        InsertKeySet(Replay(s, init, false).0, d.doc);
      }
    }
  }

  /** A dry run leaves the collection exactly as it was, never counts a dup, and
      counts every emitted document as inserted. */
  lemma {:induction false} ReplayDryRun(s: Store, ds: seq<Derivation>)
    ensures Replay(s, ds, true).0 == s
    ensures Replay(s, ds, true).1.dup == 0
    ensures Replay(s, ds, true).1.inserted == |Docs(ds)|
  {
    if ds != [] {
      ReplayDryRun(s, ds[..|ds| - 1]);
    }
  }

  /** A whole dry run, index creation included: the rows are untouched, but the
      unique index is in force afterwards; and a collection that already holds a
      duplicate key stops the run before any post is read. */
  lemma DryRunAfterIndex(s: Store, ds: seq<Derivation>)
    ensures CreateUniqueIndex(s).None? <==> !s.uniqueIndex && !KeysUnique(s.rows)
    ensures CreateUniqueIndex(s).Some? ==> Replay(CreateUniqueIndex(s).value, ds, true).0 == s.(uniqueIndex := true)
  {
    if CreateUniqueIndex(s).Some? {
      ReplayDryRun(CreateUniqueIndex(s).value, ds);
    }
  }

  /** Processing in consecutive batches is processing the whole sequence: the
      counters of the parts add up to those of the whole. */
  lemma {:induction false} ReplayAppend(s: Store, x: seq<Derivation>, y: seq<Derivation>, dryRun: bool)
    ensures Replay(s, x + y, dryRun)
         == (Replay(Replay(s, x, dryRun).0, y, dryRun).0,
             Replay(s, x, dryRun).1.Plus(Replay(Replay(s, x, dryRun).0, y, dryRun).1))
  {
    if y == [] {
      assert x + y == x;
    } else {
      var y', d := y[..|y| - 1], y[|y| - 1];
      assert (x + y)[..|x + y| - 1] == x + y';
      assert (x + y)[|x + y| - 1] == d;
      ReplayAppend(s, x, y', dryRun);
      var (sx, tx) := Replay(s, x, dryRun);
      var (sy, ty) := Replay(sx, y', dryRun);
      var (s2, o) := Apply(sy, d, dryRun);
      assert Replay(s, x + y', dryRun) == (sy, tx.Plus(ty));
      assert Replay(s, x + y, dryRun) == (s2, tx.Plus(ty).Bump(o));
      assert Replay(sx, y, dryRun) == (s2, ty.Bump(o));
      assert tx.Plus(ty).Bump(o) == tx.Plus(ty.Bump(o));
    }
  }

  /** When the collection is indexed and already holds every emitted key, a replay
      inserts nothing, changes nothing, and counts every emitted document as dup. */
  lemma {:induction false} ReplayAllPresent(s: Store, ds: seq<Derivation>)
    requires s.uniqueIndex
    requires KeySet(Docs(ds)) <= KeySet(s.rows)
    ensures Replay(s, ds, false) == (s, Tally(0, |Docs(ds)|, NumSkip(ds), NumFail(ds)))
  {
    if ds != [] {
      var init, d := ds[..|ds| - 1], ds[|ds| - 1];
      var extra := if d.Emit? then [d.doc] else [];
      assert Docs(ds) == Docs(init) + extra;
      KeySetAppend(Docs(init), extra);
      ReplayAllPresent(s, init);
      if d.Emit? {
        assert extra[..0] == [];
        assert KeyOf(d.doc) in KeySet(extra);
      }
    }
  }

  /** What a derivation tells the collection: its shape and, for a document, its key.
      Two derivations with the same signature have the same effect on an indexed
      collection, whatever their timestamps. */
  datatype Signature = SkipSig | FailSig | EmitSig(key: Key)

  function SignatureOf(d: Derivation): Signature {
    match d
    case Skip => SkipSig
    case Fail => FailSig
    case Emit(doc) => EmitSig(KeyOf(doc))
  }

  predicate SameSignatures(ds: seq<Derivation>, es: seq<Derivation>) {
    |ds| == |es| && forall i :: 0 <= i < |ds| ==> SignatureOf(ds[i]) == SignatureOf(es[i])
  }

  lemma {:induction false} SameSignaturesCounts(ds: seq<Derivation>, es: seq<Derivation>)
    requires SameSignatures(ds, es)
    ensures NumSkip(ds) == NumSkip(es) && NumFail(ds) == NumFail(es)
    ensures |Docs(ds)| == |Docs(es)| && KeySet(Docs(ds)) == KeySet(Docs(es))
  {
    if ds != [] {
      var n := |ds| - 1;
      var dExtra := if ds[n].Emit? then [ds[n].doc] else [];
      var eExtra := if es[n].Emit? then [es[n].doc] else [];
      assert SameSignatures(ds[..n], es[..n]) by {
        forall i | 0 <= i < n ensures SignatureOf(ds[..n][i]) == SignatureOf(es[..n][i]) {
          assert ds[..n][i] == ds[i] && es[..n][i] == es[i];
        }
      }
      SameSignaturesCounts(ds[..n], es[..n]);
      assert SignatureOf(ds[n]) == SignatureOf(es[n]);
      assert Docs(ds) == Docs(ds[..n]) + dExtra && Docs(es) == Docs(es[..n]) + eExtra;
      KeySetAppend(Docs(ds[..n]), dExtra);
      KeySetAppend(Docs(es[..n]), eExtra);
      assert dExtra[..|dExtra|] == dExtra && eExtra[..|eExtra|] == eExtra;
      if ds[n].Emit? {
        assert dExtra[..0] == [] && eExtra[..0] == [];
      }
    }
  }

  /** Idempotence: re-running over the same posts against the collection a completed
      non-dry run left behind adds no row, and every post that was inserted or dup
      the first time is dup now (skips and errors repeat as they were). */
  lemma Rerun(s: Store, ds: seq<Derivation>, es: seq<Derivation>)
    requires Consistent(s) && s.uniqueIndex
    requires SameSignatures(ds, es)
    ensures Replay(Replay(s, ds, false).0, es, false).0 == Replay(s, ds, false).0
    ensures Replay(Replay(s, ds, false).0, es, false).1
         == Tally(0, Replay(s, ds, false).1.inserted + Replay(s, ds, false).1.dup,
                  Replay(s, ds, false).1.skipped, Replay(s, ds, false).1.errors)
  {
    var (r, t) := Replay(s, ds, false);
    ReplayKeys(s, ds);
    ReplayConsistent(s, ds, false);
    ReplayCounts(s, ds, false);
    SameSignaturesCounts(ds, es);
    assert KeySet(Docs(es)) <= KeySet(r.rows);
    ReplayAllPresent(r, es);
  }

  /** Only the first insert of a key is recorded: on an indexed collection `inserted`
      is the number of distinct emitted keys the collection did not already hold,
      and `dup` counts all the other emitted documents. */
  lemma ReplayInsertedKeys(s: Store, ds: seq<Derivation>)
    requires Consistent(s) && s.uniqueIndex
    ensures Replay(s, ds, false).1.inserted == |KeySet(Docs(ds)) - KeySet(s.rows)|
    ensures Replay(s, ds, false).1.dup == |Docs(ds)| - |KeySet(Docs(ds)) - KeySet(s.rows)|
  {
    var r := Replay(s, ds, false).0;
    ReplayConsistent(s, ds, false);
    ReplayAppendOnly(s, ds, false);
    ReplayKeys(s, ds);
    ReplayCounts(s, ds, false);
    KeysUniqueCount(s.rows);
    KeysUniqueCount(r.rows);
    var newKeys := KeySet(Docs(ds)) - KeySet(s.rows);
    assert KeySet(r.rows) == KeySet(s.rows) + newKeys;
    assert KeySet(s.rows) * newKeys == {};
    assert |KeySet(r.rows)| == |KeySet(s.rows)| + |newKeys|;
  }

  /** N grants of the same key on an indexed collection that lacks it: exactly one is
      inserted and the other N - 1 are dup. */
  lemma SameKeyInsertedOnce(s: Store, ds: seq<Derivation>, k: Key)
    requires Consistent(s) && s.uniqueIndex && k !in KeySet(s.rows)
    requires ds != [] && forall i :: 0 <= i < |ds| ==> ds[i].Emit? && KeyOf(ds[i].doc) == k
    ensures Replay(s, ds, false).1 == Tally(1, |ds| - 1, 0, 0)
  {
    SameKeyDocs(ds, k);
    ReplayInsertedKeys(s, ds);
    ReplayCounts(s, ds, false);
    assert KeySet(Docs(ds)) - KeySet(s.rows) == {k};
  }

  lemma {:induction false} SameKeyDocs(ds: seq<Derivation>, k: Key)
    requires ds != [] && forall i :: 0 <= i < |ds| ==> ds[i].Emit? && KeyOf(ds[i].doc) == k
    ensures |Docs(ds)| == |ds| && KeySet(Docs(ds)) == {k}
    ensures NumSkip(ds) == 0 && NumFail(ds) == 0
  {
    var init := ds[..|ds| - 1];
    var extra := [ds[|ds| - 1].doc];
    assert Docs(ds) == Docs(init) + extra;
    KeySetAppend(Docs(init), extra);
    assert extra[..0] == [];
    if init != [] {
      SameKeyDocs(init, k);
    }
  }

  /** Three posts, the third a resubmission of the first: on an empty indexed
      collection the run stores two rows and counts one dup; a second run over the
      same posts stores nothing and counts all three as dup. */
  lemma ResubmissionScenario(a: XpEvent, b: XpEvent, c: XpEvent)
    requires KeyOf(c) == KeyOf(a) && KeyOf(b) != KeyOf(a)
    ensures var ds := [Emit(a), Emit(b), Emit(c)];
      && Replay(Store([], true), ds, false) == (Store([a, b], true), Tally(2, 1, 0, 0))
      && Replay(Store([a, b], true), ds, false) == (Store([a, b], true), Tally(0, 3, 0, 0))
  {
    var ds := [Emit(a), Emit(b), Emit(c)];
    var e := Store([], true);
    ResubmissionFirstRun(a, b, c);
    assert SameSignatures(ds, ds);
    Rerun(e, ds, ds);
  }

  lemma ResubmissionFirstRun(a: XpEvent, b: XpEvent, c: XpEvent)
    requires KeyOf(c) == KeyOf(a) && KeyOf(b) != KeyOf(a)
    ensures Replay(Store([], true), [Emit(a), Emit(b), Emit(c)], false) == (Store([a, b], true), Tally(2, 1, 0, 0))
  {
    var ds := [Emit(a), Emit(b), Emit(c)];
    var e, one, two := Store([], true), Store([a], true), Store([a, b], true);
    assert ds[..2] == [Emit(a), Emit(b)] && ds[..2][..1] == [Emit(a)] && ds[..2][..1][..0] == [];
    assert e.rows + [a] == one.rows && one.rows + [b] == two.rows;
    assert Replay(e, ds[..1], false) == (one, Tally(1, 0, 0, 0));
    assert KeySet(one.rows) == {KeyOf(a)} by {
      assert one.rows[..0] == [];
    }
    assert Replay(e, ds[..2], false) == (two, Tally(2, 0, 0, 0));
    assert KeyOf(a) in KeySet(two.rows) by {
      assert two.rows[..1] == one.rows;
    }
  }
}
