/** The batching loop both backfills run over the cursor:
    `batch.append(post); if len(batch) >= limit: flush(batch); batch = []`,
    then one last flush of a non-empty remainder. */
module Batching {

  function Flatten<T>(bs: seq<seq<T>>): seq<T> {
    if bs == [] then [] else Flatten(bs[..|bs| - 1]) + bs[|bs| - 1]
  }

  lemma FlattenAppend<T>(bs: seq<seq<T>>, b: seq<T>)
    ensures Flatten(bs + [b]) == Flatten(bs) + b
  {
    assert (bs + [b])[..|bs|] == bs;
  }

  /** The size of every full batch: a limit below one flushes after every post. */
  function BatchSize(limit: int): (n: nat)
    ensures n >= 1 && (limit >= 1 ==> n == limit)
  {
    if limit >= 1 then limit else 1
  }

  /** `bs` cuts `xs` into consecutive non-empty batches in order, each of them full
      except possibly the last. */
  predicate ChunkedBy<T(==)>(bs: seq<seq<T>>, xs: seq<T>, limit: int) {
    && Flatten(bs) == xs
    && forall i :: 0 <= i < |bs| ==> 1 <= |bs[i]| <= BatchSize(limit) && (i < |bs| - 1 ==> |bs[i]| == BatchSize(limit))
  }

  /** `bs` cuts `xs` into full batches only: what the loop has flushed so far. */
  predicate FullBatches<T(==)>(bs: seq<seq<T>>, xs: seq<T>, limit: int) {
    Flatten(bs) == xs && forall i :: 0 <= i < |bs| ==> |bs[i]| == BatchSize(limit)
  }

  /** Flushing a full batch extends the cut by that batch. */
  lemma CloseBatch<T>(bs: seq<seq<T>>, xs: seq<T>, b: seq<T>, limit: int)
    requires FullBatches(bs, xs, limit) && |b| == BatchSize(limit)
    ensures FullBatches(bs + [b], xs + b, limit)
  {
    FlattenAppend(bs, b);
  }

  /** Flushing the remainder, when there is one, completes a valid cut. */
  lemma FinishBatches<T>(bs: seq<seq<T>>, xs: seq<T>, rest: seq<T>, limit: int)
    requires FullBatches(bs, xs, limit) && |rest| < BatchSize(limit)
    ensures ChunkedBy(if rest == [] then bs else bs + [rest], xs + rest, limit)
  {
    if rest == [] {
      assert xs + rest == xs;
    } else {
      var cs := bs + [rest];
      FlattenAppend(bs, rest);
      forall i | 0 <= i < |cs|
        ensures 1 <= |cs[i]| <= BatchSize(limit) && (i < |cs| - 1 ==> |cs[i]| == BatchSize(limit))
      {
        if i < |bs| {
          assert cs[i] == bs[i];
        }
      }
    }
  }

  /** There is only one way to cut a sequence so: the batches are determined by the
      sequence and the limit. */
  lemma {:induction false} ChunkedByUnique<T>(bs: seq<seq<T>>, cs: seq<seq<T>>, xs: seq<T>, limit: int)
    requires ChunkedBy(bs, xs, limit) && ChunkedBy(cs, xs, limit)
    ensures bs == cs
    decreases |xs|
  {
    var n := BatchSize(limit);
    if bs != [] && cs != [] {
      FlattenFront(bs);
      FlattenFront(cs);
      assert |bs[0]| == |cs[0]| by {
        if |bs| > 1 {
          FlattenFrontLength(bs[1..]);
        }
        if |cs| > 1 {
          FlattenFrontLength(cs[1..]);
        }
      }
      assert bs[0] == xs[..|bs[0]|] == cs[0];
      var rest := xs[|bs[0]|..];
      assert ChunkedBy(bs[1..], rest, limit) by {
        forall i | 0 <= i < |bs[1..]| ensures 1 <= |bs[1..][i]| <= n && (i < |bs[1..]| - 1 ==> |bs[1..][i]| == n) {
          assert bs[1..][i] == bs[i + 1];
        }
      }
      assert ChunkedBy(cs[1..], rest, limit) by {
        forall i | 0 <= i < |cs[1..]| ensures 1 <= |cs[1..][i]| <= n && (i < |cs[1..]| - 1 ==> |cs[1..][i]| == n) {
          assert cs[1..][i] == cs[i + 1];
        }
      }
      ChunkedByUnique(bs[1..], cs[1..], rest, limit);
      assert bs == [bs[0]] + bs[1..] && cs == [cs[0]] + cs[1..];
    } else if bs != [] {
      FlattenFront(bs);
    } else if cs != [] {
      FlattenFront(cs);
    }
  }

  lemma {:induction false} FlattenFront<T>(bs: seq<seq<T>>)
    requires bs != []
    ensures Flatten(bs) == bs[0] + Flatten(bs[1..])
  {
    if |bs| > 1 {
      var init := bs[..|bs| - 1];
      FlattenFront(init);
      assert init[1..] == bs[1..][..|bs[1..]| - 1];
    } else {
      assert bs[..0] == [];
    }
  }

  lemma {:induction false} FlattenFrontLength<T>(bs: seq<seq<T>>)
    requires bs != [] && |bs[0]| >= 1
    ensures |Flatten(bs)| >= 1
  {
    FlattenFront(bs);
  }
}
