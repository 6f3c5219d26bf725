/** Generation of source shards with a bounded number of workers, published in order.

    Generating and publishing a shard are functions of its ID that may fail, and so is handing
    a shard to the executor.
 */
module ShardPipeline {

  datatype Option<T> = None | Some(value: T)

  datatype Outcome = Finished | Rejected | Failed

  type Shard = (int, string)

  predicate Distinct(ids: seq<int>) {
    forall i, j :: 0 <= i < j < |ids| ==> ids[i] != ids[j]
  }

  /** What the outside world makes of each shard. */
  datatype World = World(generates: int -> Option<string>, publishes: int -> bool, accepts: int -> bool)

  predicate Goes(w: World, id: int) {
    w.generates(id).Some? && w.publishes(id)
  }

  /** The sequential meaning: generate and publish one by one until something fails. */
  function Sequential(w: World, ids: seq<int>): seq<Shard>
    decreases |ids|
  {
    if ids == [] || !Goes(w, ids[0]) then [] else [(ids[0], w.generates(ids[0]).value)] + Sequential(w, ids[1..])
  }

  /** Exactly the shards before the first failure, in the requested order. */
  lemma {:induction false} SequentialStopsAtFirstFailure(w: World, ids: seq<int>)
    ensures var n := |Sequential(w, ids)|;
            && n <= |ids|
            && (forall i :: 0 <= i < n ==>
                  Goes(w, ids[i]) && Sequential(w, ids)[i] == (ids[i], w.generates(ids[i]).value))
            && (n < |ids| ==> !Goes(w, ids[n]))
    decreases |ids|
  {
    if ids == [] || !Goes(w, ids[0]) {
    } else {
      SequentialStopsAtFirstFailure(w, ids[1..]);
    }
  }

  lemma AllGo(w: World, ids: seq<int>)
    ensures |Sequential(w, ids)| <= |ids|
    ensures (forall id :: id in ids ==> Goes(w, id)) ==> |Sequential(w, ids)| == |ids|
  {
    SequentialStopsAtFirstFailure(w, ids);
  }

  lemma {:induction false} SequentialOfPrefix(w: World, ids: seq<int>, n: nat)
    requires n <= |ids| && forall i :: 0 <= i < n ==> Goes(w, ids[i])
    ensures Sequential(w, ids) == Sequential(w, ids[..n]) + Sequential(w, ids[n..]) && |Sequential(w, ids[..n])| == n
    decreases |ids|
  {
    if n == 0 {
      assert ids[n..] == ids;
    } else {
      SequentialOfPrefix(w, ids[1..], n - 1);
      assert ids[..n][1..] == ids[1..][..n - 1] && ids[1..][n - 1..] == ids[n..];
    }
  }

  /** The next shard follows in the sequential result, or that ends here. */
  lemma SequentialAt(w: World, ids: seq<int>, k: nat)
    requires k < |ids| && k <= |Sequential(w, ids)|
    ensures var all := Sequential(w, ids);
            if Goes(w, ids[k]) then k < |all| && all[..k + 1] == all[..k] + [(ids[k], w.generates(ids[k]).value)]
            else all[..k] == all
  {
    SequentialStopsAtFirstFailure(w, ids);
  }

  function Ids(shards: seq<Shard>): (r: seq<int>)
    ensures |r| == |shards| && forall i :: 0 <= i < |r| ==> r[i] == shards[i].0
  {
    seq(|shards|, i requires 0 <= i < |shards| => shards[i].0)
  }

  /** The requested shards that nobody has completed, in order. */
  function Missing(ids: seq<int>, completed: seq<int>): seq<int>
    decreases |ids|
  {
    if ids == [] then []
    else (if ids[0] in completed then [] else [ids[0]]) + Missing(ids[1..], completed)
  }

  lemma {:induction false} MissingElements(ids: seq<int>, completed: seq<int>)
    ensures forall x :: x in Missing(ids, completed) <==> x in ids && x !in completed
    ensures Distinct(ids) ==> Distinct(Missing(ids, completed))
    decreases |ids|
  {
    if ids == [] {
    } else {
      MissingElements(ids[1..], completed);
      assert ids == [ids[0]] + ids[1..];
      assert Distinct(ids) ==> Distinct(ids[1..]) && ids[0] !in ids[1..];
    }
  }

  lemma {:induction false} MissingSplits(xs: seq<int>, ys: seq<int>, completed: seq<int>)
    ensures Missing(xs + ys, completed) == Missing(xs, completed) + Missing(ys, completed)
    decreases |xs|
  {
    if xs == [] {
      assert xs + ys == ys;
    } else {
      assert (xs + ys)[1..] == xs[1..] + ys;
      MissingSplits(xs[1..], ys, completed);
    }
  }

  lemma {:induction false} MissingAgrees(ids: seq<int>, completed: seq<int>, completed': seq<int>)
    requires forall x :: x in ids ==> (x in completed <==> x in completed')
    ensures Missing(ids, completed) == Missing(ids, completed')
    decreases |ids|
  {
    if ids == [] {
    } else {
      forall x | x in ids[1..] ensures x in completed <==> x in completed' {
        assert x in ids;
      }
      var first := ids[0];
      assert first in ids;
      assert first in completed <==> first in completed';
      MissingAgrees(ids[1..], completed, completed');
    }
  }

  lemma FirstIsNoLongerMissing(ids: seq<int>, completed: seq<int>, added: seq<int>)
    requires ids != [] && Distinct(ids)
    ensures Missing(ids, completed + ([ids[0]] + added)) == Missing(ids[1..], completed + added)
  {
    assert ids[0] in completed + ([ids[0]] + added);
    assert forall x :: x in ids[1..] ==> x != ids[0];
    MissingAgrees(ids[1..], completed + added, completed + ([ids[0]] + added));
  }

  /** After a run that stopped behind `n` shards, exactly the later ones are missing. */
  lemma {:induction false} StoppingLeavesTheRest(ids: seq<int>, completed: seq<int>, n: nat)
    requires Distinct(ids) && n <= |Missing(ids, completed)|
    ensures Missing(ids, completed + Missing(ids, completed)[..n]) == Missing(ids, completed)[n..]
    decreases |ids|
  {
    if ids == [] {
    } else {
      var rest := Missing(ids[1..], completed);
      if ids[0] in completed {
        assert Missing(ids, completed) == rest;
        StoppingLeavesTheRest(ids[1..], completed, n);
      } else if n == 0 {
        assert completed + Missing(ids, completed)[..0] == completed;
      } else {
        StoppingLeavesTheRest(ids[1..], completed, n - 1);
        assert Missing(ids, completed)[..n] == [ids[0]] + rest[..n - 1];
        FirstIsNoLongerMissing(ids, completed, rest[..n - 1]);
      }
    }
  }

  lemma DistinctJoin(xs: seq<int>, ys: seq<int>)
    requires Distinct(xs) && Distinct(ys) && forall y :: y in ys ==> y !in xs
    ensures Distinct(xs + ys)
  {
    forall i, j | 0 <= i < j < |xs + ys| ensures (xs + ys)[i] != (xs + ys)[j] {
      if i < |xs| <= j {
        assert ys[j - |xs|] in ys;
      }
    }
  }

  /** A run over missing shards appends their IDs, in order. */
  lemma PublishedOnce(w: World, before: seq<Shard>, after: seq<Shard>, missing: seq<int>)
    requires Distinct(Ids(before)) && Distinct(missing) && (forall x :: x in missing ==> x !in Ids(before))
    requires before <= after <= before + Sequential(w, missing)
    ensures |after| <= |before| + |missing| && Ids(after) == Ids(before) + missing[..|after| - |before|]
    ensures Distinct(Ids(after))
  {
    SequentialStopsAtFirstFailure(w, missing);
    var n := |after| - |before|;
    assert after == before + Sequential(w, missing)[..n];
    assert Ids(after) == Ids(before) + missing[..n];
    DistinctJoin(Ids(before), missing[..n]);
  }

  /** Such a run leaves exactly the later ones missing. */
  lemma ResumedRun(w: World, before: seq<Shard>, after: seq<Shard>, ids: seq<int>)
    requires Distinct(Ids(before)) && Distinct(ids)
    requires before <= after <= before + Sequential(w, Missing(ids, Ids(before)))
    ensures var missing, n := Missing(ids, Ids(before)), |after| - |before|;
            n <= |missing| && Ids(after) == Ids(before) + missing[..n] && Missing(ids, Ids(after)) == missing[n..]
    ensures Distinct(Ids(after))
  {
    MissingElements(ids, Ids(before));
    PublishedOnce(w, before, after, Missing(ids, Ids(before)));
    StoppingLeavesTheRest(ids, Ids(before), |after| - |before|);
  }

  class Coordinator {
    const world: World
    /** The shards of the remote dataset, in the order of their publication. */
    var published: seq<Shard>
    /** Every shard handed to the executor, and how many results have been taken back. */
    ghost var submitted: seq<int>
    ghost var consumed: nat
    /** The largest number of submitted shards whose results were still out. */
    ghost var peak: nat

    constructor (world: World, published: seq<Shard>)
      ensures this.world == world && this.published == published
    {
      this.world, this.published := world, published;
      submitted, consumed, peak := [], 0, 0;
    }

    ghost predicate AcceptsAll(ids: seq<int>) {
      forall id :: id in ids ==> world.accepts(id)
    }

    method Publish(id: int, manifest: string) returns (ok: bool)
      modifies this`published
      ensures ok == world.publishes(id)
      ensures published == if ok then old(published) + [(id, manifest)] else old(published)
    {
      ok := world.publishes(id);
      if ok {
        published := published + [(id, manifest)];
      }
    }

    /** Gives the next remaining shard, if any, to the executor. */
    method SubmitNext(requested: seq<int>, next: nat, pending: seq<int>)
      returns (ok: bool, next': nat, pending': seq<int>)
      requires next <= |requested| && submitted == requested[..next]
      requires consumed + |pending| == next
      modifies this`submitted, this`peak
      ensures next <= next' <= |requested| && submitted == requested[..next']
      ensures ok ==> next' == (if next < |requested| then next + 1 else next)
      ensures pending' == pending + requested[next..next']
      ensures peak == if next' == next then old(peak) else if old(peak) < |pending'| then |pending'| else old(peak)
      ensures !ok ==>
                next' == next && next < |requested| && !world.accepts(requested[next]) && !AcceptsAll(requested)
      ensures ok && next < |requested| ==> world.accepts(requested[next])
    {
      if next == |requested| {
        return true, next, pending;
      }
      var id := requested[next];
      if !world.accepts(id) {
        return false, next, pending;
      }
      submitted := submitted + [id];
      next', pending' := next + 1, pending + [id];
      if peak < |submitted| - consumed {
        peak := |submitted| - consumed;
      }
      ok := true;
    }

    /** One worker: generate, then publish, shard by shard. */
    method GenerateInSequence(requested: seq<int>) returns (r: Outcome)
      modifies this`published
      ensures published == old(published) + Sequential(world, requested)
      ensures !r.Rejected? && (r.Finished? <==> |Sequential(world, requested)| == |requested|)
    {
      for i := 0 to |requested|
        invariant published == old(published) + Sequential(world, requested[..i])
        invariant forall j :: 0 <= j < i ==> Goes(world, requested[j])
      {
        SequentialOfPrefix(world, requested, i);
        var manifest := world.generates(requested[i]);
        if manifest.None? {
          return Failed;
        }
        var ok := Publish(requested[i], manifest.value);
        if !ok {
          return Failed;
        }
        SequentialOfPrefix(world, requested[..i + 1], i);
        assert requested[..i + 1][..i] == requested[..i] && requested[..i + 1][i..] == [requested[i]];
      }
      assert requested[..|requested|] == requested;
      SequentialOfPrefix(world, requested, |requested|);
      r := Finished;
    }

    /** Awaits the future of a shard and publishes its result. */
    method TakeResult(id: int) returns (ok: bool)
      modifies this`published, this`consumed
      ensures ok == Goes(world, id)
      ensures published == if ok then old(published) + [(id, world.generates(id).value)] else old(published)
      ensures ok ==> consumed == old(consumed) + 1
    {
      var manifest := world.generates(id);
      if manifest.None? {
        return false;
      }
      consumed := consumed + 1;
      ok := Publish(id, manifest.value);
    }

    /** Hands out the first shards, one for each worker. */
    method Fill(requested: seq<int>, workers: nat) returns (ok: bool, next: nat, pending: seq<int>)
      modifies this`submitted, this`consumed, this`peak
      ensures next <= |requested| && next <= workers && consumed == 0 && peak == next
      ensures pending == requested[..next] && submitted == requested[..next]
      ensures ok ==> next == workers || next == |requested|
      ensures !ok ==> next < |requested| && !world.accepts(requested[next]) && !AcceptsAll(requested)
      ensures AcceptsAll(submitted)
    {
      submitted, consumed, peak := [], 0, 0;
      next, pending, ok := 0, [], true;
      var initial := if workers < |requested| then workers else |requested|;
      for k := 0 to initial
        invariant next == k && ok && pending == requested[..k] && submitted == requested[..k]
        invariant consumed == 0 && peak == k && AcceptsAll(submitted)
      {
        ok, next, pending := SubmitNext(requested, next, pending);
        if !ok {
          return;
        }
      }
    }

    /** Awaits the oldest future, publishes its result and hands out one more shard. */
    method Advance(requested: seq<int>, ghost done: nat, next: nat, pending: seq<int>)
      returns (ok: bool, next': nat, pending': seq<int>)
      requires done < next <= |requested| && pending == requested[done..next] && submitted == requested[..next]
      requires consumed == done
      modifies this`published, this`submitted, this`consumed, this`peak
      ensures next <= next' <= |requested| && submitted == requested[..next']
      ensures ok ==> next' == (if next < |requested| then next + 1 else next)
      ensures ok ==> pending' == requested[done + 1..next'] && consumed == done + 1
      ensures peak <= if old(peak) < |pending| then |pending| else old(peak)
      ensures published == old(published) + if Goes(world, requested[done])
                                            then [(requested[done], world.generates(requested[done]).value)] else []
      ensures ok ==> Goes(world, requested[done])
      ensures AcceptsAll(old(submitted)) ==> AcceptsAll(submitted)
      // It fails on its own result, or on handing out the next shard behind it.
      ensures !ok ==> next' == next && (Goes(world, requested[done]) ==>
                                          && next < |requested| && !world.accepts(requested[next])
                                          && !AcceptsAll(requested))
    {
      next', pending' := next, pending[1..];
      assert pending' == requested[done + 1..next];
      ok := TakeResult(pending[0]);
      if ok {
        ok, next', pending' := SubmitNext(requested, next, pending');
      }
    }

    /** Several workers: futures are awaited in the order of their shards, and each result
        that is published makes room for one more. */
    method GenerateInParallel(requested: seq<int>, workers: nat) returns (r: Outcome)
      requires workers > 1
      modifies this`published, this`submitted, this`consumed, this`peak
      ensures old(published) <= published <= old(published) + Sequential(world, requested)
      ensures r.Finished? || AcceptsAll(requested) ==> published == old(published) + Sequential(world, requested)
      ensures !r.Rejected?
      ensures r.Finished? ==> |Sequential(world, requested)| == |requested| && submitted == requested
      ensures AcceptsAll(requested) ==> (r.Finished? <==> |Sequential(world, requested)| == |requested|)
      ensures submitted <= requested && |submitted| <= |published| - |old(published)| + workers
      ensures peak <= workers && AcceptsAll(submitted)
      // A failure is that of the first shard not published, or of handing out the next shard.
      ensures r.Failed? ==>
                var n := |published| - |old(published)|;
                || (n < |requested| && !Goes(world, requested[n]))
                || (|submitted| < |requested| && !world.accepts(requested[|submitted|]))
    {
      var ok, next, pending := Fill(requested, workers);
      if !ok {
        return Failed;
      }
      ghost var all := Sequential(world, requested);
      ghost var done: nat := 0;
      while pending != []
        invariant done <= next <= |requested| && pending == requested[done..next] && submitted == requested[..next]
        invariant consumed == done && |pending| <= workers && peak <= workers && AcceptsAll(submitted)
        invariant next < |requested| ==> |pending| == workers
        invariant done <= |all| && published == old(published) + all[..done]
        decreases |requested| - done
      {
        SequentialAt(world, requested, done);
        ok, next, pending := Advance(requested, done, next, pending);
        if !ok {
          return Failed;
        }
        done := done + 1;
      }
      SequentialStopsAtFirstFailure(world, requested);
      r := Finished;
    }

    /** Every worker count gives the sequential result. */
    method GenerateAndPublish(requested: seq<int>, workers: int) returns (r: Outcome)
      modifies this`published, this`submitted, this`consumed, this`peak
      ensures r.Rejected? <==> !Distinct(requested) || workers < 1
      ensures r.Rejected? ==> published == old(published) && submitted == []
      ensures !r.Rejected? ==> old(published) <= published <= old(published) + Sequential(world, requested)
      ensures !r.Rejected? && (workers == 1 || AcceptsAll(requested)) ==>
                && published == old(published) + Sequential(world, requested)
                && (r.Finished? <==> |Sequential(world, requested)| == |requested|)
      ensures r.Finished? ==> published == old(published) + Sequential(world, requested)
      ensures r.Finished? ==> |Sequential(world, requested)| == |requested|
      ensures submitted <= requested && Distinct(submitted)
      ensures peak == 0 || peak <= workers
      ensures r.Failed? ==>
                var n := |published| - |old(published)|;
                || (n < |requested| && !Goes(world, requested[n]))
                || (workers > 1 && |submitted| < |requested| && !world.accepts(requested[|submitted|]))
    {
      submitted, consumed, peak := [], 0, 0;
      if !IsDistinct(requested) || workers < 1 {
        return Rejected;
      }
      SequentialStopsAtFirstFailure(world, requested);
      if workers == 1 {
        r := GenerateInSequence(requested);
      } else {
        r := GenerateInParallel(requested, workers);
      }
    }

    /** Which shards are not yet in the remote dataset. */
    method FindMissing(ids: seq<int>) returns (missing: seq<int>)
      ensures missing == Missing(ids, Ids(published))
    {
      missing := [];
      for i := 0 to |ids|
        invariant missing == Missing(ids[..i], Ids(published))
      {
        if ids[i] !in Ids(published) {
          missing := missing + [ids[i]];
        }
        assert ids[..i + 1] == ids[..i] + [ids[i]];
        MissingSplits(ids[..i], [ids[i]], Ids(published));
      }
      assert ids[..|ids|] == ids;
    }

    /** A resumed run publishes no shard twice, leaves exactly the later shards for the next
        run, and leaves none once it finishes. */
    method Resume(ids: seq<int>, workers: int) returns (r: Outcome)
      requires Distinct(Ids(published)) && Distinct(ids)
      modifies this`published, this`submitted, this`consumed, this`peak
      ensures Distinct(Ids(published)) && old(published) <= published
      ensures r.Rejected? <==> workers < 1
      ensures var missing, n := Missing(ids, old(Ids(published))), |published| - |old(published)|;
              && n <= |missing| && Ids(published) == old(Ids(published)) + missing[..n]
              && Missing(ids, Ids(published)) == missing[n..]
              && (r.Finished? ==> n == |missing|)
      // What is published now is what the missing shards give, and the run finishes if they all go.
      ensures published <= old(published) + Sequential(world, Missing(ids, old(Ids(published))))
      ensures var missing, n := Missing(ids, old(Ids(published))), |published| - |old(published)|;
              && (r.Failed? ==> || (n < |missing| && !Goes(world, missing[n]))
                                || (workers > 1 && !AcceptsAll(missing)))
              && (workers >= 1 && (workers == 1 || AcceptsAll(missing))
                  && (forall id :: id in missing ==> Goes(world, id)) ==>
                    r.Finished?)
    {
      hide Sequential, Missing, Distinct, Goes, Ids;
      ghost var before := published;
      var missing := FindMissing(ids);
      MissingElements(ids, Ids(before));
      r := GenerateAndPublish(missing, workers);
      AllGo(world, missing);
      ResumedRun(world, before, published, ids);
    }
  }

  /** Compares the number of requested shards with the number of different ones. */
  predicate IsDistinct(ids: seq<int>)
    ensures IsDistinct(ids) <==> Distinct(ids)
  {
    DistinctBySize(ids);
    |ids| == |set id | id in ids|
  }

  lemma DistinctByFirst(ids: seq<int>)
    requires ids != []
    ensures Distinct(ids) <==> Distinct(ids[1..]) && ids[0] !in ids[1..]
  {
    var rest := ids[1..];
    if ids[0] in rest {
      var j :| 0 <= j < |rest| && rest[j] == ids[0];
      assert ids[j + 1] == ids[0];
    } else if !Distinct(rest) {
      var i, j :| 0 <= i < j < |rest| && rest[i] == rest[j];
      assert ids[i + 1] == ids[j + 1];
    }
  }

  lemma {:induction false} DistinctBySize(ids: seq<int>)
    ensures |ids| == |set id | id in ids| <==> Distinct(ids)
    ensures |set id | id in ids| <= |ids|
    decreases |ids|
  {
    if ids == [] {
    } else {
      DistinctBySize(ids[1..]);
      assert ids == [ids[0]] + ids[1..];
      assert (set id | id in ids) == (set id | id in ids[1..]) + {ids[0]};
      DistinctByFirst(ids);
    }
  }
}
