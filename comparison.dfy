/** How the two backfills differ on the same posts. The script skips a post whose
    `user_id` is falsy (`not uid`); the library skips only a missing one
    (`user_id is None`). So a `user_id` of `0` is skipped by the script but granted
    by the library, and `""` is skipped by the script but fails `int("")` in the
    library. Every key the script grants, the library grants too, so the script
    run after the library adds nothing. */
module Comparison {
  import opened Optional
  import opened PyText
  import opened Posts
  import opened Ledger
  import opened Reconciler
  import ScriptBackfill
  import LibraryBackfill

  /** A readable post with a non-empty `file_id` and `user_id` 0: the script skips
      it, the library grants user 0. */
  lemma UserZero(post: Post, xp: int, now: DateTime)
    requires ScriptBackfill.Readable(post) && StrippedOrEmpty(post.fileId).value != []
    requires post.userId == Int(0)
    ensures ScriptBackfill.Derive(post, xp, now).Skip?
    ensures LibraryBackfill.Derive(post, xp, now).Emit?
    ensures LibraryBackfill.Derive(post, xp, now).doc.userId == 0
  {
    ScriptBackfill.DeriveSpec(post, xp, now);
    LibraryBackfill.DeriveSpec(post, xp, now);
  }

  /** A readable post with a non-empty `file_id` and `user_id` `""`: the script skips
      it, the library counts an error. */
  lemma UserEmptyString(post: Post, xp: int, now: DateTime)
    requires ScriptBackfill.Readable(post) && StrippedOrEmpty(post.fileId).value != []
    requires post.userId == Str("")
    ensures ScriptBackfill.Derive(post, xp, now).Skip?
    ensures LibraryBackfill.Derive(post, xp, now).Fail?
  {
    ScriptBackfill.DeriveSpec(post, xp, now);
    LibraryBackfill.DeriveSpec(post, xp, now);
    assert Strip("") == "";
  }

  /** Whenever the script emits an event for a post, the library emits one for it
      with the same key (the same user, the same `unique_key`). */
  lemma ScriptEmitsLibraryEmits(post: Post, xp1: int, now1: DateTime, xp2: int, now2: DateTime)
    requires ScriptBackfill.Derive(post, xp1, now1).Emit?
    ensures LibraryBackfill.Derive(post, xp2, now2).Emit?
    ensures KeyOf(LibraryBackfill.Derive(post, xp2, now2).doc) == KeyOf(ScriptBackfill.Derive(post, xp1, now1).doc)
  {
    ScriptBackfill.DeriveSpec(post, xp1, now1);
    LibraryBackfill.DeriveSpec(post, xp2, now2);
  }

  /** Position by position, every document `ds` emits has a counterpart with the same
      key in `es`. */
  predicate EmitsCovered(ds: seq<Derivation>, es: seq<Derivation>) {
    |ds| == |es| && forall i :: 0 <= i < |ds| && ds[i].Emit? ==> es[i].Emit? && KeyOf(es[i].doc) == KeyOf(ds[i].doc)
  }

  lemma {:induction false} CoveredKeys(ds: seq<Derivation>, es: seq<Derivation>)
    requires EmitsCovered(ds, es)
    ensures KeySet(Docs(ds)) <= KeySet(Docs(es))
  {
    if ds != [] {
      var n := |ds| - 1;
      assert EmitsCovered(ds[..n], es[..n]) by {
        forall i | 0 <= i < n && ds[..n][i].Emit?
          ensures es[..n][i].Emit? && KeyOf(es[..n][i].doc) == KeyOf(ds[..n][i].doc)
        {
          assert ds[..n][i] == ds[i] && es[..n][i] == es[i];
        }
      }
      CoveredKeys(ds[..n], es[..n]);
      var dExtra := if ds[n].Emit? then [ds[n].doc] else [];
      var eExtra := if es[n].Emit? then [es[n].doc] else [];
      assert Docs(ds) == Docs(ds[..n]) + dExtra && Docs(es) == Docs(es[..n]) + eExtra;
      KeySetAppend(Docs(ds[..n]), dExtra);
      KeySetAppend(Docs(es[..n]), eExtra);
      assert KeySet([]) == {};
      if ds[n].Emit? {
        assert dExtra[..0] == [] && eExtra[..0] == [];
      }
    }
  }

  lemma ScriptCoveredByLibrary(posts: seq<Post>, xp1: int, clock: nat -> DateTime, xp2: int, now: DateTime)
    ensures EmitsCovered(ScriptBackfill.Derivations(posts, 0, xp1, clock), LibraryBackfill.Derivations(posts, xp2, now))
  {
    forall i | 0 <= i < |posts| && ScriptBackfill.Derivations(posts, 0, xp1, clock)[i].Emit?
      ensures LibraryBackfill.Derivations(posts, xp2, now)[i].Emit?
      ensures KeyOf(LibraryBackfill.Derivations(posts, xp2, now)[i].doc)
           == KeyOf(ScriptBackfill.Derivations(posts, 0, xp1, clock)[i].doc)
    {
      ScriptBackfill.DerivationAt(posts, 0, xp1, clock, i);
      LibraryBackfill.DerivationAt(posts, xp2, now, i);
      ScriptEmitsLibraryEmits(posts[i], xp1, clock(i), xp2, now);
    }
  }

  /** Running the script over the posts after a completed non-dry library run over
      them leaves the collection as the library left it: every document the script
      derives is counted dup. */
  lemma ScriptAfterLibrary(s: Store, posts: seq<Post>, xp1: int, clock: nat -> DateTime, xp2: int, now: DateTime)
    requires Consistent(s) && s.uniqueIndex
    ensures var lib := Replay(s, LibraryBackfill.Derivations(posts, xp2, now), false).0;
      var script := ScriptBackfill.Derivations(posts, 0, xp1, clock);
      Replay(lib, script, false) == (lib, Tally(0, |Docs(script)|, NumSkip(script), NumFail(script)))
  {
    var es := LibraryBackfill.Derivations(posts, xp2, now);
    var ds := ScriptBackfill.Derivations(posts, 0, xp1, clock);
    var lib := Replay(s, es, false).0;
    ReplayKeys(s, es);
    ReplayConsistent(s, es, false);
    ScriptCoveredByLibrary(posts, xp1, clock, xp2, now);
    CoveredKeys(ds, es);
    ReplayAllPresent(lib, ds);
  }
}
