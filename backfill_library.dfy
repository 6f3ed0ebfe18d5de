/** `backfill_mywin.py`: the library form of the backfill. It differs from the
    standalone script in three ways: a post is skipped only when its `user_id` is
    missing (`None`), not when it is falsy; the fallback timestamp is read once per
    run; and the counters live in one `stats` dict, with a `scanned` counter, that
    `_process_batch` updates in place. */
module LibraryBackfill {
  import opened Optional
  import opened PyText
  import opened Posts
  import opened Ledger
  import opened Reconciler
  import opened Batching

  /** One iteration of `_process_batch` up to the insert: the three `(x or "").strip()`
      calls (any of which may raise), the skip test, and the event with its `type`
      equal to its `reason`. `fallbackTs` is the run's single `now_utc`. */
  function Derive(post: Post, xpPerPost: int, fallbackTs: DateTime): Derivation
  {
    var fileId := StrippedOrEmpty(post.fileId);
    var tag := StrippedOrEmpty(post.tag);
    var gameName := StrippedOrEmpty(post.gameName);
    if fileId.None? || tag.None? || gameName.None? then Fail
    else if fileId.value == [] || post.userId.Null? then Skip
    else
      var t := Lower(tag.value);
      var reason := ReasonFor(t);
      var ts := ToUtcAware(post.ts).GetOr(fallbackTs);
      match IntOf(post.userId)
      case None => Fail
      case Some(uid) =>
        Emit(XpEvent(uid, xpPerPost, Some(reason), reason, UniqueKeyFor(fileId.value), ts, ts,
                     Meta(fileId.value, t, gameName.value, BACKFILL_SOURCE)))
  }

  /** What `Derive` promises: a post is skipped exactly when its stripped `file_id` is
      empty or its `user_id` is missing, and any other value of `user_id` (`0`
      included) reaches `int()`; the event's fields follow. */
  lemma DeriveSpec(post: Post, xpPerPost: int, fallbackTs: DateTime)
    ensures var d := Derive(post, xpPerPost, fallbackTs);
      var fileId := StrippedOrEmpty(post.fileId);
      var readable := fileId.Some? && StrippedOrEmpty(post.tag).Some? && StrippedOrEmpty(post.gameName).Some?;
      && (d.Skip? <==> readable && (fileId.value == [] || post.userId.Null?))
      && (d.Emit? <==> readable && fileId.value != [] && !post.userId.Null? && IntOf(post.userId).Some?)
      && (d.Emit? ==>
        && d.doc.userId == IntOf(post.userId).value
        && d.doc.uniqueKey == UniqueKeyFor(fileId.value)
        && d.doc.xp == xpPerPost
        && d.doc.eventType == Some(d.doc.reason)
        && (d.doc.reason == MYWIN_REASON <==> Lower(StrippedOrEmpty(post.tag).value) == "mywin")
        && (d.doc.reason == MYWIN_REASON || d.doc.reason == COMEBACK_REASON)
        && d.doc.createdAt == d.doc.ts
        && (post.ts.Date? ==> d.doc.ts.IsUtc() && d.doc.ts.Instant() == post.ts.dt.Instant())
        && (!post.ts.Date? ==> d.doc.ts == fallbackTs)
        && d.doc.meta.fileId == fileId.value
        && d.doc.meta.tag == Lower(StrippedOrEmpty(post.tag).value)
        && d.doc.meta.gameName == StrippedOrEmpty(post.gameName).value
        && d.doc.meta.source == BACKFILL_SOURCE)
  {
  }

  /** The derivations of a run of posts, all sharing the run's fallback time. */
  function Derivations(posts: seq<Post>, xpPerPost: int, fallbackTs: DateTime): (ds: seq<Derivation>)
    ensures |ds| == |posts|
  {
    if posts == [] then []
    else
      var n := |posts| - 1;
      Derivations(posts[..n], xpPerPost, fallbackTs) + [Derive(posts[n], xpPerPost, fallbackTs)]
  }

  /** The `k`-th derivation is the `k`-th post's. */
  lemma {:induction false} DerivationAt(posts: seq<Post>, xpPerPost: int, fallbackTs: DateTime, k: nat)
    requires k < |posts|
    ensures Derivations(posts, xpPerPost, fallbackTs)[k] == Derive(posts[k], xpPerPost, fallbackTs)
    decreases |posts|
  {
    hide Derive;
    var n := |posts| - 1;
    if k < n {
      DerivationAt(posts[..n], xpPerPost, fallbackTs, k);
    }
  }

  /** Deriving a slice of the run gives the matching slice of its derivations. */
  lemma DerivationsSlice(posts: seq<Post>, xpPerPost: int, fallbackTs: DateTime, a: nat, b: nat)
    requires a <= b <= |posts|
    ensures Derivations(posts[a..b], xpPerPost, fallbackTs) == Derivations(posts, xpPerPost, fallbackTs)[a..b]
  {
    hide Derive;
    var ds := Derivations(posts, xpPerPost, fallbackTs);
    var slice := Derivations(posts[a..b], xpPerPost, fallbackTs);
    forall k | 0 <= k < b - a
      ensures slice[k] == ds[a + k]
    {
      DerivationAt(posts[a..b], xpPerPost, fallbackTs, k);
      DerivationAt(posts, xpPerPost, fallbackTs, a + k);
    }
  }

  /** The `stats` dict, shared by every batch of a run and updated in place. */
  class RunStats {
    var scanned: nat
    var inserted: nat
    var dup: nat
    var skipped: nat
    var errors: nat

    /** `{"scanned": 0, "inserted": 0, "dup": 0, "skipped": 0, "errors": 0}` */
    constructor ()
      ensures scanned == 0 && Counters() == NoPosts
    {
      scanned, inserted, dup, skipped, errors := 0, 0, 0, 0, 0;
    }

    /** The four outcome counters. */
    function Counters(): Tally
      reads this
    {
      Tally(inserted, dup, skipped, errors)
    }

    /** Every scanned post is counted in exactly one outcome bucket. */
    ghost predicate Valid()
      reads this
    {
      scanned == Counters().Total()
    }

    /** The counter bump the `try` block ends with. */
    method Count(o: Outcome)
      modifies this
      ensures scanned == old(scanned)
      ensures Counters() == old(Counters()).Bump(o)
    {
      match o
      case Inserted => inserted := inserted + 1;
      case Duplicate => dup := dup + 1;
      case Skipped => skipped := skipped + 1;
      case Errored => errors := errors + 1;
    }
  }

  /** `_process_batch`: for each post, `scanned` first, then the outcome's counter,
      and the insert unless the run is dry. */
  method ProcessBatch(posts: seq<Post>, xpEvents: XpEvents, stats: RunStats, xpPerPost: int, dryRun: bool,
                      fallbackTs: DateTime)
    requires xpEvents.Valid()
    modifies xpEvents, stats
    ensures xpEvents.Valid()
    ensures stats.scanned == old(stats.scanned) + |posts|
    ensures var r := Replay(old(xpEvents.State()), Derivations(posts, xpPerPost, fallbackTs), dryRun);
      xpEvents.State() == r.0 && stats.Counters() == old(stats.Counters()).Plus(r.1)
  {
    hide Derive, Derivations;
    ghost var s0 := xpEvents.State();
    ghost var c0 := stats.Counters();
    ghost var ds := Derivations(posts, xpPerPost, fallbackTs);
    assert Replay(s0, ds[..0], dryRun) == (s0, NoPosts);
    hide Replay;
    for i := 0 to |posts|
      invariant xpEvents.Valid()
      invariant stats.scanned == old(stats.scanned) + i
      invariant xpEvents.State() == Replay(s0, ds[..i], dryRun).0
      invariant stats.Counters() == c0.Plus(Replay(s0, ds[..i], dryRun).1)
    {
      stats.scanned := stats.scanned + 1;
      ReplayStep(s0, ds, i, dryRun);
      DerivationAt(posts, xpPerPost, fallbackTs, i);
      var o := ApplyOne(xpEvents, Derive(posts[i], xpPerPost, fallbackTs), dryRun);
      stats.Count(o);
    }
    assert ds[..|posts|] == ds;
  }

  /** Flushing `posts[a..a + |batch|]` after the prefix `posts[..a]` was processed
      from `s` leaves the collection and the counters where processing the longer
      prefix would. */
  method FlushBatch(xpEvents: XpEvents, stats: RunStats, ghost s: Store, posts: seq<Post>, batch: seq<Post>, a: nat,
                    xpPerPost: int, dryRun: bool, fallbackTs: DateTime)
    requires xpEvents.Valid()
    requires a + |batch| <= |posts| && batch == posts[a..a + |batch|]
    requires stats.scanned == a
    requires (xpEvents.State(), stats.Counters()) == Replay(s, Derivations(posts, xpPerPost, fallbackTs)[..a], dryRun)
    modifies xpEvents, stats
    ensures xpEvents.Valid()
    ensures stats.scanned == a + |batch|
    ensures (xpEvents.State(), stats.Counters())
         == Replay(s, Derivations(posts, xpPerPost, fallbackTs)[..a + |batch|], dryRun)
  {
    hide Derive, Derivations, Replay;
    ghost var ds := Derivations(posts, xpPerPost, fallbackTs);
    ghost var b := a + |batch|;
    DerivationsSlice(posts, xpPerPost, fallbackTs, a, b);
    assert ds[..b] == ds[..a] + ds[a..b];
    ReplayAppend(s, ds[..a], ds[a..b], dryRun);
    ghost var before := Replay(s, ds[..a], dryRun);
    ghost var flushed := Replay(before.0, ds[a..b], dryRun);
    assert Replay(s, ds[..b], dryRun) == (flushed.0, before.1.Plus(flushed.1));
    ProcessBatch(batch, xpEvents, stats, xpPerPost, dryRun, fallbackTs);
    assert xpEvents.State() == flushed.0 && stats.Counters() == before.1.Plus(flushed.1);
  }

  /** One turn of `for post in cursor`: `batch.append(post)`, and a flush once the
      batch holds `batch_limit` posts. */
  method TakePost(xpEvents: XpEvents, stats: RunStats, ghost s1: Store, posts: seq<Post>, i: nat, batch: seq<Post>,
                  ghost batches: seq<seq<Post>>,
                  xpPerPost: int, batchLimit: int, dryRun: bool, fallbackTs: DateTime)
    returns (batch': seq<Post>, ghost batches': seq<seq<Post>>)
    requires xpEvents.Valid()
    requires i < |posts| && stats.scanned + |batch| == i && |batch| < BatchSize(batchLimit)
    requires batch == posts[stats.scanned..i]
    requires FullBatches(batches, posts[..stats.scanned], batchLimit)
    requires (xpEvents.State(), stats.Counters()) == Replay(s1, Derivations(posts, xpPerPost, fallbackTs)[..stats.scanned], dryRun)
    modifies xpEvents, stats
    ensures xpEvents.Valid()
    ensures stats.scanned + |batch'| == i + 1 && |batch'| < BatchSize(batchLimit)
    ensures batch' == posts[stats.scanned..i + 1]
    ensures FullBatches(batches', posts[..stats.scanned], batchLimit)
    ensures (xpEvents.State(), stats.Counters()) == Replay(s1, Derivations(posts, xpPerPost, fallbackTs)[..stats.scanned], dryRun)
  {
    hide Derive, Derivations, Replay, Flatten;
    batch', batches' := batch + [posts[i]], batches;
    if |batch'| >= batchLimit {
      ghost var done := stats.scanned;
      FlushBatch(xpEvents, stats, s1, posts, batch', i + 1 - |batch'|, xpPerPost, dryRun, fallbackTs);
      CloseBatch(batches, posts[..done], batch', batchLimit);
      assert posts[..done] + batch' == posts[..i + 1];
      batches' := batches + [batch'];
      batch' := [];
    }
  }

  /** After the cursor is exhausted: `if batch: _process_batch(batch, ...)`. */
  method FlushRest(xpEvents: XpEvents, stats: RunStats, ghost s1: Store, posts: seq<Post>, batch: seq<Post>,
                   ghost batches: seq<seq<Post>>,
                   xpPerPost: int, batchLimit: int, dryRun: bool, fallbackTs: DateTime)
    returns (ghost batches': seq<seq<Post>>)
    requires xpEvents.Valid()
    requires stats.scanned + |batch| == |posts| && |batch| < BatchSize(batchLimit)
    requires batch == posts[stats.scanned..stats.scanned + |batch|]
    requires FullBatches(batches, posts[..stats.scanned], batchLimit)
    requires (xpEvents.State(), stats.Counters()) == Replay(s1, Derivations(posts, xpPerPost, fallbackTs)[..stats.scanned], dryRun)
    modifies xpEvents, stats
    ensures xpEvents.Valid()
    ensures stats.scanned == |posts|
    ensures (xpEvents.State(), stats.Counters()) == Replay(s1, Derivations(posts, xpPerPost, fallbackTs), dryRun)
    ensures ChunkedBy(batches', posts, batchLimit)
  {
    hide Derive, Derivations, Replay, Flatten;
    ghost var ds := Derivations(posts, xpPerPost, fallbackTs);
    ghost var done := stats.scanned;
    assert ds[..|posts|] == ds;
    FinishBatches(batches, posts[..done], batch, batchLimit);
    assert posts[..done] + batch == posts;
    batches' := batches;
    if batch != [] {
      FlushBatch(xpEvents, stats, s1, posts, batch, |posts| - |batch|, xpPerPost, dryRun, fallbackTs);
      batches' := batches + [batch];
    } else {
      assert ds[..done] == ds;
    }
  }

  /** `backfill_mywin_to_xp_events(db, ...)`: the unique index, then every post once,
      in cursor order, in batches of `batch_limit` and a final remainder. `nowUtc` is
      the clock reading taken once before the scan. The returned stats are those of
      replaying all the posts in order, whatever `batch_limit` is; `null` stands for
      the exception `create_index` raises when the collection already holds a
      duplicate key, before any post is read. */
  method BackfillMywinToXpEvents(xpEvents: XpEvents, posts: seq<Post>, xpPerPost: int, batchLimit: int,
                                 dryRun: bool, nowUtc: DateTime)
    returns (stats: RunStats?, ghost batches: seq<seq<Post>>)
    requires xpEvents.Valid()
    modifies xpEvents
    ensures xpEvents.Valid()
    ensures stats == null <==> CreateUniqueIndex(old(xpEvents.State())).None?
    ensures stats == null ==> xpEvents.State() == old(xpEvents.State())
    ensures stats != null ==>
      && fresh(stats)
      && stats.scanned == |posts|
      && stats.Valid()
      && (xpEvents.State(), stats.Counters())
         == Replay(CreateUniqueIndex(old(xpEvents.State())).value, Derivations(posts, xpPerPost, nowUtc), dryRun)
      && ChunkedBy(batches, posts, batchLimit)
  {
    hide Derive;
    batches := [];
    var ok := xpEvents.CreateIndex();
    if !ok {
      return null, batches;
    }
    ghost var s1 := xpEvents.State();
    stats := new RunStats();
    var batch: seq<Post> := [];
    for i := 0 to |posts|
      invariant xpEvents.Valid()
      invariant stats.scanned + |batch| == i && |batch| < BatchSize(batchLimit)
      invariant batch == posts[stats.scanned..i]
      invariant FullBatches(batches, posts[..stats.scanned], batchLimit)
      invariant (xpEvents.State(), stats.Counters()) == Replay(s1, Derivations(posts, xpPerPost, nowUtc)[..stats.scanned], dryRun)
    {
      batch, batches := TakePost(xpEvents, stats, s1, posts, i, batch, batches, xpPerPost, batchLimit, dryRun, nowUtc);
    }
    batches := FlushRest(xpEvents, stats, s1, posts, batch, batches, xpPerPost, batchLimit, dryRun, nowUtc);
    ScannedAddsUp(s1, posts, xpPerPost, dryRun, nowUtc);
  }

  /** After a run, `scanned == inserted + dup + skipped + errors`. */
  lemma ScannedAddsUp(s: Store, posts: seq<Post>, xpPerPost: int, dryRun: bool, nowUtc: DateTime)
    ensures Replay(s, Derivations(posts, xpPerPost, nowUtc), dryRun).1.Total() == |posts|
  {
    ReplayCounts(s, Derivations(posts, xpPerPost, nowUtc), dryRun);
  }

  /** Every row a run adds is the event of some post whose stripped `file_id` is
      non-empty and whose `user_id` is present. */
  lemma StoredRowsComeFromPosts(s: Store, posts: seq<Post>, xpPerPost: int, dryRun: bool, nowUtc: DateTime, k: nat)
    requires |s.rows| <= k < |Replay(s, Derivations(posts, xpPerPost, nowUtc), dryRun).0.rows|
    ensures exists i :: (
      && 0 <= i < |posts|
      && Derive(posts[i], xpPerPost, nowUtc) == Emit(Replay(s, Derivations(posts, xpPerPost, nowUtc), dryRun).0.rows[k])
      && StrippedOrEmpty(posts[i].fileId).Some? && StrippedOrEmpty(posts[i].fileId).value != []
      && !posts[i].userId.Null?)
  {
    var ds := Derivations(posts, xpPerPost, nowUtc);
    var row := Replay(s, ds, dryRun).0.rows[k];
    ReplayRowsFromDocs(s, ds, dryRun, k);
    DocsFromEmits(ds, row);
    var i :| 0 <= i < |ds| && ds[i] == Emit(row);
    DerivationAt(posts, xpPerPost, nowUtc, i);
  }

  /** Derivations of the same posts under another XP amount or another run time
      differ in nothing the collection looks at. */
  lemma DerivationsSameSignatures(posts: seq<Post>, xp1: int, now1: DateTime, xp2: int, now2: DateTime)
    ensures SameSignatures(Derivations(posts, xp1, now1), Derivations(posts, xp2, now2))
  {
    forall k | 0 <= k < |posts|
      ensures SignatureOf(Derivations(posts, xp1, now1)[k]) == SignatureOf(Derivations(posts, xp2, now2)[k])
    {
      DerivationAt(posts, xp1, now1, k);
      DerivationAt(posts, xp2, now2, k);
    }
  }

  /** Re-running against the collection a completed non-dry run left adds no rows,
      and every post inserted or dup the first time is dup now. */
  lemma RerunAddsNothing(s: Store, posts: seq<Post>, xp1: int, now1: DateTime, xp2: int, now2: DateTime)
    requires Consistent(s) && s.uniqueIndex
    ensures Replay(Replay(s, Derivations(posts, xp1, now1), false).0, Derivations(posts, xp2, now2), false).0
         == Replay(s, Derivations(posts, xp1, now1), false).0
    ensures Replay(Replay(s, Derivations(posts, xp1, now1), false).0, Derivations(posts, xp2, now2), false).1
         == var t := Replay(s, Derivations(posts, xp1, now1), false).1;
            Tally(0, t.inserted + t.dup, t.skipped, t.errors)
  {
    hide Derive;
    DerivationsSameSignatures(posts, xp1, now1, xp2, now2);
    Rerun(s, Derivations(posts, xp1, now1), Derivations(posts, xp2, now2));
  }
}
