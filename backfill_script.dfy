/** `backfill_mywin_xp_events.py`: the standalone backfill. `main` creates the
    unique index, streams the posts in `(ts, _id)` order, cuts them into batches of
    `BATCH_LIMIT`, and sums the four counters `process_batch` returns per batch. */
module ScriptBackfill {
  import opened Optional
  import opened PyText
  import opened Posts
  import opened Ledger
  import opened Reconciler
  import opened Batching

  /** None of the three `(x or "").strip()` calls on the post raises. */
  predicate Readable(post: Post) {
    && StrippedOrEmpty(post.fileId).Some?
    && StrippedOrEmpty(post.tag).Some?
    && StrippedOrEmpty(post.gameName).Some?
  }

  /** One iteration of `process_batch` up to the insert: a post is skipped when its
      stripped `file_id` is empty or its `user_id` is falsy (0 included); it fails
      when a conversion raises; otherwise it yields the event keyed by
      `(int(user_id), "mywin:" + file_id)`. `now` is the clock reading taken for
      this post, used when the post has no datetime `ts`. */
  function Derive(post: Post, xpPerPost: int, now: DateTime): Derivation
  {
    var fileId := StrippedOrEmpty(post.fileId);
    var tag := StrippedOrEmpty(post.tag);
    var gameName := StrippedOrEmpty(post.gameName);
    var ts := ToUtcAware(post.ts).GetOr(now);
    if fileId.None? || tag.None? || gameName.None? then Fail
    else if fileId.value == [] || !Truthy(post.userId) then Skip
    else
      match IntOf(post.userId)
      case None => Fail
      case Some(uid) =>
        var t := Lower(tag.value);
        Emit(XpEvent(uid, xpPerPost, None, ReasonFor(t), UniqueKeyFor(fileId.value), ts, ts,
                     Meta(fileId.value, t, gameName.value, BACKFILL_SOURCE)))
  }

  /** What `Derive` promises: the skip rule, the error cases, and the fields of the
      event it builds. */
  lemma DeriveSpec(post: Post, xpPerPost: int, now: DateTime)
    ensures var d := Derive(post, xpPerPost, now);
      && (d.Skip? <==> Readable(post) && (StrippedOrEmpty(post.fileId).value == [] || !Truthy(post.userId)))
      && (d.Emit? <==> Readable(post) && StrippedOrEmpty(post.fileId).value != [] && Truthy(post.userId) && IntOf(post.userId).Some?)
      && (d.Emit? ==>
        && d.doc.userId == IntOf(post.userId).value
        && d.doc.uniqueKey == UniqueKeyFor(StrippedOrEmpty(post.fileId).value)
        && d.doc.xp == xpPerPost
        && d.doc.eventType.None?
        && (d.doc.reason == MYWIN_REASON <==> Lower(StrippedOrEmpty(post.tag).value) == "mywin")
        && (d.doc.reason == MYWIN_REASON || d.doc.reason == COMEBACK_REASON)
        && d.doc.createdAt == d.doc.ts
        && (post.ts.Date? ==> d.doc.ts.IsUtc() && d.doc.ts.Instant() == post.ts.dt.Instant())
        && (!post.ts.Date? ==> d.doc.ts == now)
        && d.doc.meta.fileId == StrippedOrEmpty(post.fileId).value
        && d.doc.meta.tag == Lower(StrippedOrEmpty(post.tag).value)
        && d.doc.meta.gameName == StrippedOrEmpty(post.gameName).value
        && d.doc.meta.source == BACKFILL_SOURCE)
  {
  }

  /** The derivations of a run of posts, the `k`-th reading the clock as `clock(start + k)`. */
  function Derivations(posts: seq<Post>, start: nat, xpPerPost: int, clock: nat -> DateTime): (ds: seq<Derivation>)
    ensures |ds| == |posts|
  {
    if posts == [] then []
    else
      var n := |posts| - 1;
      Derivations(posts[..n], start, xpPerPost, clock) + [Derive(posts[n], xpPerPost, clock(start + n))]
  }

  /** The `k`-th derivation is the `k`-th post's, read at `clock(start + k)`. */
  lemma {:induction false} DerivationAt(posts: seq<Post>, start: nat, xpPerPost: int, clock: nat -> DateTime, k: nat)
    requires k < |posts|
    ensures Derivations(posts, start, xpPerPost, clock)[k] == Derive(posts[k], xpPerPost, clock(start + k))
    decreases |posts|
  {
    hide Derive;
    var n := |posts| - 1;
    if k < n {
      DerivationAt(posts[..n], start, xpPerPost, clock, k);
    }
  }

  /** Deriving a slice of the run, with the clock offset by where the slice starts,
      gives the matching slice of the run's derivations. */
  lemma DerivationsSlice(posts: seq<Post>, xpPerPost: int, clock: nat -> DateTime, a: nat, b: nat)
    requires a <= b <= |posts|
    ensures Derivations(posts[a..b], a, xpPerPost, clock) == Derivations(posts, 0, xpPerPost, clock)[a..b]
  {
    hide Derive;
    var ds := Derivations(posts, 0, xpPerPost, clock);
    var slice := Derivations(posts[a..b], a, xpPerPost, clock);
    forall k | 0 <= k < b - a
      ensures slice[k] == ds[a + k]
    {
      DerivationAt(posts[a..b], a, xpPerPost, clock, k);
      DerivationAt(posts, 0, xpPerPost, clock, a + k);
    }
  }

  /** `process_batch(posts)`: each post in order, its counter bumped, its event
      inserted unless the run is dry; a duplicate key is counted, not raised. */
  method ProcessBatch(posts: seq<Post>, xpEvents: XpEvents, xpPerPost: int, dryRun: bool, clock: nat -> DateTime, start: nat)
    returns (counts: Tally)
    requires xpEvents.Valid()
    modifies xpEvents
    ensures xpEvents.Valid()
    ensures (xpEvents.State(), counts) == Replay(old(xpEvents.State()), Derivations(posts, start, xpPerPost, clock), dryRun)
  {
    hide Derive, Derivations;
    ghost var s0 := xpEvents.State();
    ghost var ds := Derivations(posts, start, xpPerPost, clock);
    counts := NoPosts;
    for i := 0 to |posts|
      invariant xpEvents.Valid()
      invariant (xpEvents.State(), counts) == Replay(s0, ds[..i], dryRun)
    {
      ReplayStep(s0, ds, i, dryRun);
      DerivationAt(posts, start, xpPerPost, clock, i);
      var o := ApplyOne(xpEvents, Derive(posts[i], xpPerPost, clock(start + i)), dryRun);
      counts := counts.Bump(o);
    }
    assert ds[..|posts|] == ds;
  }

  /** Flushing the batch `posts[a..b]` after the prefix `posts[..a]` was replayed
      from `s` leaves the collection and the running totals where replaying the
      prefix `posts[..b]` would. */
  method FlushBatch(xpEvents: XpEvents, ghost s: Store, posts: seq<Post>, batch: seq<Post>, a: nat,
                    acc: Tally, xpPerPost: int, dryRun: bool, clock: nat -> DateTime)
    returns (acc': Tally)
    requires xpEvents.Valid()
    requires a + |batch| <= |posts| && batch == posts[a..a + |batch|]
    requires (xpEvents.State(), acc) == Replay(s, Derivations(posts, 0, xpPerPost, clock)[..a], dryRun)
    modifies xpEvents
    ensures xpEvents.Valid()
    ensures (xpEvents.State(), acc') == Replay(s, Derivations(posts, 0, xpPerPost, clock)[..a + |batch|], dryRun)
  {
    hide Derive, Derivations, Replay;
    ghost var ds := Derivations(posts, 0, xpPerPost, clock);
    ghost var b := a + |batch|;
    DerivationsSlice(posts, xpPerPost, clock, a, b);
    assert ds[..b] == ds[..a] + ds[a..b];
    ReplayAppend(s, ds[..a], ds[a..b], dryRun);
    var counts := ProcessBatch(batch, xpEvents, xpPerPost, dryRun, clock, a);
    acc' := acc.Plus(counts);
  }

  /** One turn of `for post in cursor`: `batch.append(post)`, and a flush of the
      batch once it holds `batchLimit` posts. The batch is always the posts read
      since the last flush, and what was flushed is the replay of all the posts
      before it. */
  method TakePost(xpEvents: XpEvents, ghost s1: Store, posts: seq<Post>, i: nat, batch: seq<Post>, acc: Tally,
                  ghost done: nat, ghost batches: seq<seq<Post>>,
                  xpPerPost: int, batchLimit: int, dryRun: bool, clock: nat -> DateTime)
    returns (batch': seq<Post>, acc': Tally, ghost done': nat, ghost batches': seq<seq<Post>>)
    requires xpEvents.Valid()
    requires i < |posts| && done + |batch| == i && |batch| < BatchSize(batchLimit) && batch == posts[done..i]
    requires FullBatches(batches, posts[..done], batchLimit)
    requires (xpEvents.State(), acc) == Replay(s1, Derivations(posts, 0, xpPerPost, clock)[..done], dryRun)
    modifies xpEvents
    ensures xpEvents.Valid()
    ensures done' + |batch'| == i + 1 && |batch'| < BatchSize(batchLimit) && batch' == posts[done'..i + 1]
    ensures FullBatches(batches', posts[..done'], batchLimit)
    ensures (xpEvents.State(), acc') == Replay(s1, Derivations(posts, 0, xpPerPost, clock)[..done'], dryRun)
  {
    hide Derive, Derivations, Replay, Flatten;
    batch', acc', done', batches' := batch + [posts[i]], acc, done, batches;
    if |batch'| >= batchLimit {
      acc' := FlushBatch(xpEvents, s1, posts, batch', i + 1 - |batch'|, acc, xpPerPost, dryRun, clock);
      CloseBatch(batches, posts[..done], batch', batchLimit);
      assert posts[..done] + batch' == posts[..i + 1];
      batches' := batches + [batch'];
      batch' := [];
      done' := i + 1;
    }
  }

  /** `main()`: `ensure_indexes()`, then every post once, in cursor order, in batches
      of `batchLimit` and a final remainder. The totals and the final collection are
      those of replaying all the posts in order, whatever `batchLimit` is; when the
      unique index cannot be created the script stops before reading any post. */
  method RunBackfill(xpEvents: XpEvents, posts: seq<Post>, xpPerPost: int, batchLimit: int, dryRun: bool, clock: nat -> DateTime)
    returns (totals: Option<Tally>, ghost batches: seq<seq<Post>>)
    requires xpEvents.Valid()
    modifies xpEvents
    ensures xpEvents.Valid()
    ensures totals.None? <==> CreateUniqueIndex(old(xpEvents.State())).None?
    ensures totals.None? ==> xpEvents.State() == old(xpEvents.State())
    ensures totals.Some? ==>
      && (xpEvents.State(), totals.value)
         == Replay(CreateUniqueIndex(old(xpEvents.State())).value, Derivations(posts, 0, xpPerPost, clock), dryRun)
      && ChunkedBy(batches, posts, batchLimit)
  {
    hide Derive;
    batches := [];
    var ok := xpEvents.CreateIndex();
    if !ok {
      return None, batches;
    }
    ghost var s1 := xpEvents.State();
    ghost var ds := Derivations(posts, 0, xpPerPost, clock);
    var acc := NoPosts;
    var batch: seq<Post> := [];
    ghost var done: nat := 0;
    for i := 0 to |posts|
      invariant xpEvents.Valid()
      invariant done + |batch| == i && |batch| < BatchSize(batchLimit) && batch == posts[done..i]
      invariant FullBatches(batches, posts[..done], batchLimit)
      invariant (xpEvents.State(), acc) == Replay(s1, ds[..done], dryRun)
    {
      batch, acc, done, batches := TakePost(xpEvents, s1, posts, i, batch, acc, done, batches,
                                            xpPerPost, batchLimit, dryRun, clock);
    }
    acc, batches := FlushRest(xpEvents, s1, posts, batch, acc, done, batches, xpPerPost, batchLimit, dryRun, clock);
    totals := Some(acc);
  }

  /** After the cursor is exhausted: `if batch: process_batch(batch)`. */
  method FlushRest(xpEvents: XpEvents, ghost s1: Store, posts: seq<Post>, batch: seq<Post>, acc: Tally,
                   ghost done: nat, ghost batches: seq<seq<Post>>,
                   xpPerPost: int, batchLimit: int, dryRun: bool, clock: nat -> DateTime)
    returns (acc': Tally, ghost batches': seq<seq<Post>>)
    requires xpEvents.Valid()
    requires done + |batch| == |posts| && |batch| < BatchSize(batchLimit) && batch == posts[done..done + |batch|]
    requires FullBatches(batches, posts[..done], batchLimit)
    requires (xpEvents.State(), acc) == Replay(s1, Derivations(posts, 0, xpPerPost, clock)[..done], dryRun)
    modifies xpEvents
    ensures xpEvents.Valid()
    ensures (xpEvents.State(), acc') == Replay(s1, Derivations(posts, 0, xpPerPost, clock), dryRun)
    ensures ChunkedBy(batches', posts, batchLimit)
  {
    hide Derive, Derivations, Replay, Flatten;
    ghost var ds := Derivations(posts, 0, xpPerPost, clock);
    assert ds[..|posts|] == ds;
    FinishBatches(batches, posts[..done], batch, batchLimit);
    assert posts[..done] + batch == posts;
    acc', batches' := acc, batches;
    if batch != [] {
      acc' := FlushBatch(xpEvents, s1, posts, batch, |posts| - |batch|, acc, xpPerPost, dryRun, clock);
      batches' := batches + [batch];
    }
  }

  /** A post that is skipped never reaches the collection: every row a run adds is
      the event of some post whose stripped `file_id` is non-empty and whose
      `user_id` is truthy. */
  lemma StoredRowsComeFromPosts(s: Store, posts: seq<Post>, start: nat, xpPerPost: int, dryRun: bool, clock: nat -> DateTime, k: nat)
    requires |s.rows| <= k < |Replay(s, Derivations(posts, start, xpPerPost, clock), dryRun).0.rows|
    ensures exists i :: (
      && 0 <= i < |posts|
      && Derive(posts[i], xpPerPost, clock(start + i)) == Emit(Replay(s, Derivations(posts, start, xpPerPost, clock), dryRun).0.rows[k])
      && StrippedOrEmpty(posts[i].fileId).Some? && StrippedOrEmpty(posts[i].fileId).value != []
      && Truthy(posts[i].userId))
  {
    var ds := Derivations(posts, start, xpPerPost, clock);
    var row := Replay(s, ds, dryRun).0.rows[k];
    ReplayRowsFromDocs(s, ds, dryRun, k);
    DocsFromEmits(ds, row);
    var i :| 0 <= i < |ds| && ds[i] == Emit(row);
    DerivationAt(posts, start, xpPerPost, clock, i);
  }

  /** Derivations of the same posts differ only in what the collection ignores: the
      clock readings and the XP amount change no key and no skip or failure. */
  lemma DerivationsSameSignatures(posts: seq<Post>, start1: nat, xp1: int, clock1: nat -> DateTime,
                                  start2: nat, xp2: int, clock2: nat -> DateTime)
    ensures SameSignatures(Derivations(posts, start1, xp1, clock1), Derivations(posts, start2, xp2, clock2))
  {
  }

  /** Re-running the script over the same posts against the collection a completed
      non-dry run left adds no rows: every post inserted or dup before is dup now. */
  lemma RerunAddsNothing(s: Store, posts: seq<Post>, xp1: int, clock1: nat -> DateTime, xp2: int, clock2: nat -> DateTime)
    requires Consistent(s) && s.uniqueIndex
    ensures Replay(Replay(s, Derivations(posts, 0, xp1, clock1), false).0, Derivations(posts, 0, xp2, clock2), false).0
         == Replay(s, Derivations(posts, 0, xp1, clock1), false).0
    ensures Replay(Replay(s, Derivations(posts, 0, xp1, clock1), false).0, Derivations(posts, 0, xp2, clock2), false).1
         == var t := Replay(s, Derivations(posts, 0, xp1, clock1), false).1;
            Tally(0, t.inserted + t.dup, t.skipped, t.errors)
  {
    hide Derive;
    DerivationsSameSignatures(posts, 0, xp1, clock1, 0, xp2, clock2);
    Rerun(s, Derivations(posts, 0, xp1, clock1), Derivations(posts, 0, xp2, clock2));
  }
}
