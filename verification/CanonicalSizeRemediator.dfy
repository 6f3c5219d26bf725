/** The operator commands `apply` and `rollback` over one bucket and one ledger file. */
module CanonicalSizeRemediator {
  import opened VersionedBucket
  import opened CanonicalSizeRemediation
  import Manifests = DatasetManifest

  /** How the dataset manifest is rebuilt: where the shard manifests are, how JSON documents
      are read and written, and what the rebuild is compared with. */
  datatype Rebuilding = Rebuilding(
    spec: Manifests.Spec, original: Manifests.Manifest, projectedTotal: int,
    nameOf: nat -> string, decode: Content -> Option<Manifests.Shard>, encode: Manifests.Manifest -> Content)

  /** The shard manifests a rebuild has read, and its result. */
  datatype Final = FinalOf(shards: seq<Manifests.Shard>, manifest: Manifests.Manifest)

  const NOTHING := FinalOf([], Manifests.Manifest(Manifests.Header("", "", 0, 0, 0, 0, 0, map[]), 0, map[]))

  /** The rebuild of these shards, accepted at the projected total. */
  ghost predicate IsFinal(x: Rebuilding, shards: seq<Manifests.Shard>, m: Manifests.Manifest) {
    && Manifests.IsRebuilt(x.spec, shards, m) && Manifests.Acceptable(x.spec, x.original, m, x.projectedTotal)
    && m.totalBytes == x.projectedTotal
  }

  /** Some generation of the shard's manifest object reads as this shard. */
  ghost predicate ReadableShard(x: Rebuilding, id: nat, shard: Manifests.Shard, b: Bucket) {
    exists g :: (x.nameOf(id), g) in b.versions && x.decode(b.versions[(x.nameOf(id), g)].content) == Some(shard)
  }

  ghost predicate Readable(x: Rebuilding, shards: seq<Manifests.Shard>, b: Bucket) {
    forall id :: 0 <= id < |shards| ==> ReadableShard(x, id, shards[id], b)
  }

  /** The live generation does. */
  predicate LiveShard(x: Rebuilding, id: nat, shard: Manifests.Shard, b: Bucket) {
    ValidBucket(b) && x.nameOf(id) in b.live && x.decode(LiveVersion(b, x.nameOf(id)).content) == Some(shard)
  }

  predicate LiveShards(x: Rebuilding, shards: seq<Manifests.Shard>, b: Bucket) {
    forall id :: 0 <= id < |shards| ==> LiveShard(x, id, shards[id], b)
  }

  ghost predicate DatasetIsNoShard(plan: Plan, x: Rebuilding) {
    forall id: nat :: x.nameOf(id) != plan.dataset.name
  }

  /** All planned items with their staged contents, the dataset manifest last. */
  function FinalItems(plan: Plan, x: Rebuilding, final: Final): seq<Item> {
    plan.objects + [Item(plan.dataset, x.encode(final.manifest))]
  }

  /** The ledger lists all planned objects and the accepted rebuild, all applied. */
  ghost predicate HasApplied(plan: Plan, x: Rebuilding, final: Final, l: Ledger) {
    l.plan == plan && IsFinal(x, final.shards, final.manifest) && Progressed(l, FinalItems(plan, x, final))
  }

  /** The ledger of a complete application. */
  ghost predicate IsApplied(plan: Plan, x: Rebuilding, final: Final, l: Ledger) {
    l.status == AllApplied && HasApplied(plan, x, final, l)
  }

  /** Everything is live as staged, and the manifest is the rebuild of the live shards. */
  ghost predicate IsLive(plan: Plan, x: Rebuilding, final: Final, b: Bucket) {
    && AllStaged(FinalItems(plan, x, final), b)
    && (DatasetIsNoShard(plan, x) ==> LiveShards(x, final.shards, b))
  }

  /** Writing the dataset manifest leaves the shards as they were read. */
  lemma FinalIsLive(plan: Plan, x: Rebuilding, final: Final, b: Bucket, b': Bucket)
    requires LiveShards(x, final.shards, b) && ValidBucket(b) && AllStaged(FinalItems(plan, x, final), b')
    requires b' == Written(b, plan.dataset.name, Version(x.encode(final.manifest), true))
    ensures IsLive(plan, x, final, b')
  {
    if DatasetIsNoShard(plan, x) {
      forall id | 0 <= id < |final.shards| ensures LiveShard(x, id, final.shards[id], b') {
        assert LiveShard(x, id, final.shards[id], b);
      }
    }
  }

  predicate AllLive(targets: seq<Target>, b: Bucket) {
    forall i :: 0 <= i < |targets| ==> LiveAt(b, targets[i].name, targets[i].oldGeneration)
  }

  /** Every planned object is the version the plan was made from. */
  predicate AllPlanned(plan: Plan, b: Bucket) {
    AllLive(Targets(plan), b)
  }

  /** The live metadata is that of the planned generation. */
  predicate IsPlanned(current: Metadata, t: Target) {
    && current.generation == t.oldGeneration && current.size == t.original.size
    && (current.digest.Some? ==> current.digest.value == t.original.digest)
  }

  /** The planned generation of the object exists with its checksum. */
  predicate PlannedFrom(t: Target, b: Bucket) {
    (t.name, t.oldGeneration) in b.versions && b.versions[(t.name, t.oldGeneration)] == Version(t.original, true)
  }

  /** An apply of this plan is under way, in hand and in the ledger file. */
  predicate InProgress(l: Ledger, disk: Option<Ledger>, plan: Plan) {
    && l.plan == plan && l.status == Applying && l.rollbacks == []
    && disk.Some? && disk.value.plan == plan && disk.value.status == Applying
  }

  // ---------------------------------------------------------------------------
  // What makes an application succeed
  // ---------------------------------------------------------------------------

  /** Objects other than these stay as they are. */
  predicate OnlyWrites(items: seq<Item>, b: Bucket, b': Bucket) {
    forall n :: n in b.live && IsOther(items, n) ==> LiveAt(b', n, b.live[n])
  }

  predicate IsOther(items: seq<Item>, name: string) {
    forall j :: 0 <= j < |items| ==> items[j].target.name != name
  }

  lemma WritesGrow(items: seq<Item>, i: nat, b: Bucket, b': Bucket)
    requires i < |items| && OnlyWrites(items[..i], b, b')
    ensures OnlyWrites(items[..i + 1], b, Written(b', items[i].target.name, Version(items[i].staged, true)))
  {
    var b'' := Written(b', items[i].target.name, Version(items[i].staged, true));
    forall n | n in b.live && IsOther(items[..i + 1], n)
      ensures LiveAt(b'', n, b.live[n])
    {
      assert items[..i + 1][i] == items[i];
      forall j | 0 <= j < i ensures items[..i][j].target.name != n {
        assert items[..i + 1][j] == items[..i][j];
      }
    }
  }

  lemma NextIsPlanned(plan: Plan, items: seq<Item>, i: nat, b: Bucket, b': Bucket)
    requires DistinctNames(Targets(plan)) && AllPlanned(plan, b) && i < |items| && InPlanOrder(plan, items)
    requires OnlyWrites(items[..i], b, b')
    ensures LiveAt(b', items[i].target.name, items[i].target.oldGeneration)
  {
    forall j | 0 <= j < i ensures items[..i][j].target.name != items[i].target.name {
      assert Targets(plan)[j].name != Targets(plan)[i].name;
    }
    assert IsOther(items[..i], items[i].target.name);
    assert LiveAt(b, Targets(plan)[i].name, Targets(plan)[i].oldGeneration);
  }

  lemma DatasetIsPlanned(plan: Plan, b: Bucket, b': Bucket)
    requires DistinctNames(Targets(plan)) && AllPlanned(plan, b) && OnlyWrites(plan.objects, b, b')
    ensures LiveAt(b', plan.dataset.name, plan.dataset.oldGeneration)
  {
    var k := |plan.objects|;
    forall j | 0 <= j < k ensures plan.objects[j].target.name != plan.dataset.name {
      assert Targets(plan)[j].name != Targets(plan)[k].name;
    }
    assert LiveAt(b, Targets(plan)[k].name, Targets(plan)[k].oldGeneration);
  }

  predicate Decodes(x: Rebuilding, id: nat, b: Bucket) {
    ValidBucket(b) && x.nameOf(id) in b.live && x.decode(LiveVersion(b, x.nameOf(id)).content).Some?
  }

  predicate AllDecode(x: Rebuilding, b: Bucket) {
    forall id :: 0 <= id < x.spec.shardCount ==> Decodes(x, id, b)
  }

  /** The live shards are in place with a common inventory, and their manifest is acceptable. */
  ghost predicate IsRebuildable(x: Rebuilding, b: Bucket) {
    && AllDecode(x, b)
    && forall shards :: |shards| == x.spec.shardCount && LiveShards(x, shards, b) ==> Passes(x, shards)
  }

  ghost predicate Passes(x: Rebuilding, shards: seq<Manifests.Shard>) {
    && Manifests.InPlace(x.spec, shards) && Manifests.SameInventory(shards)
    && forall m :: Manifests.IsRebuilt(x.spec, shards, m) ==>
         Manifests.Acceptable(x.spec, x.original, m, x.projectedTotal)
  }

  /** The plan stages this shard manifest, or leaves the one that is there. */
  predicate Stages(plan: Plan, x: Rebuilding, id: nat, before: Manifests.Shard, after: Manifests.Shard) {
    || (exists j :: 0 <= j < |plan.objects| && plan.objects[j].target.name == x.nameOf(id)
                    && x.decode(plan.objects[j].staged) == Some(after))
    || (after == before && IsOther(plan.objects, x.nameOf(id)))
  }

  /** The projected total is the original one plus the gain of the substitution. */
  predicate ProjectsGain(x: Rebuilding, shards: seq<Manifests.Shard>, staged: map<int, Manifests.Staged>) {
    x.projectedTotal == x.original.totalBytes + Manifests.Gain(shards, x.spec.table, staged)
  }

  /** The plan was prepared from these live shards: it stages the substitution of these files in
      the selected shards, and projects the total of that. */
  ghost predicate PreparedFrom(plan: Plan, x: Rebuilding, shards: seq<Manifests.Shard>,
                               staged: map<int, Manifests.Staged>, b: Bucket) {
    var after := Manifests.RemediateAll(shards, x.spec.table, staged);
    && |shards| == x.spec.shardCount && LiveShards(x, shards, b) && ValidBucket(b)
    && Manifests.IsRebuilt(x.spec, shards, x.original) && Manifests.MeetsSpec(x.spec, x.original)
    && staged.Keys == x.spec.selectedShards && x.spec.table in Manifests.TableOrder(shards)
    && ProjectsGain(x, shards, staged)
    && forall id :: 0 <= id < |shards| ==> Stages(plan, x, id, shards[id], after[id])
  }

  ghost predicate Prepared(plan: Plan, x: Rebuilding, b: Bucket) {
    exists shards, staged :: PreparedFrom(plan, x, shards, staged, b)
  }

  /** Once the planned objects are staged, the live shards are the remediated ones. */
  lemma StagedShardIsLive(plan: Plan, x: Rebuilding, id: nat, before: Manifests.Shard, after: Manifests.Shard,
                          b: Bucket, b': Bucket)
    requires LiveShard(x, id, before, b) && Stages(plan, x, id, before, after)
    requires ValidBucket(b') && Grown(b, b') && AllStaged(plan.objects, b') && OnlyWrites(plan.objects, b, b')
    ensures LiveShard(x, id, after, b')
  {
    if j :| 0 <= j < |plan.objects| && plan.objects[j].target.name == x.nameOf(id)
            && x.decode(plan.objects[j].staged) == Some(after) {
      assert LiveShows(b', plan.objects[j].target.name, plan.objects[j].staged);
    } else {
      assert LiveAt(b', x.nameOf(id), b.live[x.nameOf(id)]);
    }
  }

  lemma LiveShardsAreDetermined(x: Rebuilding, shards: seq<Manifests.Shard>, shards': seq<Manifests.Shard>, b: Bucket)
    requires LiveShards(x, shards, b) && LiveShards(x, shards', b) && |shards| == |shards'|
    ensures shards == shards'
  {
    forall id | 0 <= id < |shards| ensures shards[id] == shards'[id] {
      assert LiveShard(x, id, shards[id], b) && LiveShard(x, id, shards'[id], b);
    }
  }

  lemma PreparedIsInPlace(x: Rebuilding, shards: seq<Manifests.Shard>, staged: map<int, Manifests.Staged>)
    requires Manifests.SameInventory(shards) && Manifests.InPlace(x.spec, shards)
    ensures var after := Manifests.RemediateAll(shards, x.spec.table, staged);
            Manifests.SameInventory(after) && Manifests.InPlace(x.spec, after)
  {
    Manifests.RemediationKeepsInventory(x.spec, shards, staged);
  }

  /** The rebuild of the remediated shards reaches the projected total, and is accepted at it. */
  lemma RebuildReachesProjection(x: Rebuilding, shards: seq<Manifests.Shard>, staged: map<int, Manifests.Staged>,
                                 m: Manifests.Manifest)
    requires Manifests.IsRebuilt(x.spec, shards, x.original) && x.spec.table in Manifests.TableOrder(shards)
    requires Manifests.IsRebuilt(x.spec, Manifests.RemediateAll(shards, x.spec.table, staged), m)
    requires ProjectsGain(x, shards, staged)
    ensures m.totalBytes == x.projectedTotal
  {
    Manifests.RemediatedTotalIsProjected(x.spec, shards, staged);
  }

  lemma RebuildIsAcceptedAtItsTotal(x: Rebuilding, shards: seq<Manifests.Shard>, staged: map<int, Manifests.Staged>,
                                    m: Manifests.Manifest)
    requires Manifests.IsRebuilt(x.spec, shards, x.original) && Manifests.MeetsSpec(x.spec, x.original)
    requires staged.Keys == x.spec.selectedShards && x.spec.table in Manifests.TableOrder(shards)
    requires Manifests.IsRebuilt(x.spec, Manifests.RemediateAll(shards, x.spec.table, staged), m)
    ensures Manifests.Acceptable(x.spec, x.original, m, m.totalBytes)
  {
    Manifests.RemediatedRebuildIsAccepted(x.spec, shards, staged, x.original, m);
  }

  lemma PreparedPasses(plan: Plan, x: Rebuilding, shards: seq<Manifests.Shard>, staged: map<int, Manifests.Staged>,
                       b: Bucket)
    requires PreparedFrom(plan, x, shards, staged, b)
    ensures Passes(x, Manifests.RemediateAll(shards, x.spec.table, staged))
  {
    var after := Manifests.RemediateAll(shards, x.spec.table, staged);
    PreparedIsInPlace(x, shards, staged);
    forall m | Manifests.IsRebuilt(x.spec, after, m)
      ensures Manifests.Acceptable(x.spec, x.original, m, x.projectedTotal)
    {
      RebuildIsAcceptedAtItsTotal(x, shards, staged, m);
      RebuildReachesProjection(x, shards, staged, m);
    }
  }

  lemma PreparedIsRebuildable(plan: Plan, x: Rebuilding, b: Bucket, b': Bucket)
    requires Prepared(plan, x, b)
    requires ValidBucket(b') && Grown(b, b') && AllStaged(plan.objects, b') && OnlyWrites(plan.objects, b, b')
    ensures IsRebuildable(x, b')
  {
    var shards, staged :| PreparedFrom(plan, x, shards, staged, b);
    var after := Manifests.RemediateAll(shards, x.spec.table, staged);
    PreparedPasses(plan, x, shards, staged, b);
    forall id | 0 <= id < |shards| ensures LiveShard(x, id, after[id], b') {
      assert LiveShard(x, id, shards[id], b) && Stages(plan, x, id, shards[id], after[id]);
      StagedShardIsLive(plan, x, id, shards[id], after[id], b, b');
    }
    forall id | 0 <= id < x.spec.shardCount ensures Decodes(x, id, b') {
      assert LiveShard(x, id, after[id], b');
    }
    forall live | |live| == x.spec.shardCount && LiveShards(x, live, b') ensures Passes(x, live) {
      LiveShardsAreDetermined(x, live, after, b');
    }
  }

  class Remediator {
    const weather: nat -> Weather
    var bucket: Bucket
    var disk: Option<Ledger>
    var tick: nat
    ghost var history: seq<Write>

    /** The writes so far are safe, and every written object is in the ledger file. */
    ghost predicate Valid()
      reads this
    {
      && ValidBucket(bucket) && SafeWrites(history, bucket) && WrittenAhead(disk, history)
      && (disk.Some? ==> HonestLedger(disk.value, bucket))
    }

    /** A ledger that may become the ledger file. */
    ghost predicate Sound(l: Ledger)
      reads this
    {
      HonestLedger(l, bucket) && WrittenAhead(Some(l), history)
    }

    /** Nobody else writes to the bucket. */
    ghost predicate Calm() {
      forall t :: weather(t).acts == []
    }

    /** The last operation killed the process. */
    ghost predicate Died()
      reads this`tick
    {
      tick > 0 && (weather(tick - 1).fault.KillBefore? || weather(tick - 1).fault.KillAfter?)
    }

    /** No operation from this tick on is disturbed. */
    ghost predicate Healthy(from: nat) {
      forall t :: from <= t ==> weather(t).fault.NoFault?
    }

    /** Nothing disturbs an application from this tick on, and the plan fits the bucket. */
    ghost predicate Applicable(plan: Plan, x: Rebuilding, b: Bucket, from: nat) {
      Calm() && Healthy(from) && AllPlanned(plan, b) && Prepared(plan, x, b)
    }

    constructor (bucket: Bucket, weather: nat -> Weather)
      requires ValidBucket(bucket)
      ensures Valid() && this.bucket == bucket && this.weather == weather
      ensures disk == None && history == [] && tick == 0
    {
      this.bucket, this.weather := bucket, weather;
      disk, tick, history := None, 0, [];
    }

    // -------------------------------------------------------------------------
    // External operations
    // -------------------------------------------------------------------------

    /** Lets the other writers act and draws the fault of the coming operation. */
    method Begin() returns (fault: Fault)
      requires Valid()
      modifies this`bucket, this`tick
      ensures Valid() && Descends(old(bucket), bucket) && (Calm() ==> bucket == old(bucket))
      ensures tick == old(tick) + 1 && fault == weather(old(tick)).fault
      ensures bucket == PerformAll(old(bucket), weather(old(tick)).acts)
    {
      OthersDescend(bucket, weather(tick).acts);
      fault := weather(tick).fault;
      bucket := PerformAll(bucket, weather(tick).acts);
      tick := tick + 1;
    }

    method ReadMetadata(name: string) returns (r: Result<Metadata>)
      requires Valid()
      modifies this`bucket, this`tick
      ensures Valid() && Descends(old(bucket), bucket) && (Calm() ==> bucket == old(bucket)) && tick == old(tick) + 1
      ensures r.Killed? ==> Died()
      ensures r.Done? ==> name in bucket.live && r.value == Describe(bucket, name)
      ensures r.Done? <==> weather(old(tick)).fault.NoFault? && name in bucket.live
    {
      var fault := Begin();
      if fault.KillBefore? || fault.KillAfter? {
        return Killed;
      }
      if fault.RaiseBefore? || fault.RaiseAfter? {
        return Threw(Injected);
      }
      if name !in bucket.live {
        return Threw(NotFound);
      }
      return Done(Describe(bucket, name));
    }

    method Download(name: string, generation: nat) returns (r: Result<Content>)
      requires Valid()
      modifies this`bucket, this`tick
      ensures Valid() && Descends(old(bucket), bucket) && (Calm() ==> bucket == old(bucket)) && tick == old(tick) + 1
      ensures r.Killed? ==> Died()
      ensures r.Done? ==>
                (name, generation) in bucket.versions && r.value == bucket.versions[(name, generation)].content
      ensures r.Done? <==> weather(old(tick)).fault.NoFault? && (name, generation) in bucket.versions
    {
      var fault := Begin();
      if fault.KillBefore? || fault.KillAfter? {
        return Killed;
      }
      if fault.RaiseBefore? || fault.RaiseAfter? {
        return Threw(Injected);
      }
      if (name, generation) !in bucket.versions {
        return Threw(NotFound);
      }
      return Done(bucket.versions[(name, generation)].content);
    }

    /** Atomic replacement of the ledger file. */
    method WriteLedger(l: Ledger) returns (r: Result<()>)
      requires Valid() && Sound(l)
      modifies this`bucket, this`tick, this`disk
      ensures Valid() && Descends(old(bucket), bucket) && (Calm() ==> bucket == old(bucket)) && tick == old(tick) + 1
      ensures r.Killed? ==> Died()
      ensures var fault := weather(old(tick)).fault;
              && disk == (if fault.KillBefore? || fault.RaiseBefore? then old(disk) else Some(l))
              && (r.Done? <==> fault.NoFault?) && (r.Killed? <==> fault.KillBefore? || fault.KillAfter?)
    {
      var fault := Begin();
      if fault.KillBefore? {
        return Killed;
      }
      if fault.RaiseBefore? {
        return Threw(Injected);
      }
      disk := Some(l);
      return if fault.NoFault? then Done(()) else if fault.KillAfter? then Killed else Threw(Injected);
    }

    /** A generation-conditional write; it may take effect and still raise. */
    method Put(item: Item, content: Content, ifGeneration: nat)
      returns (r: Result<()>, ghost before: Bucket, ghost written: bool)
      requires Valid() && InLedger(disk, item.target.name)
      requires ifGeneration == item.target.oldGeneration
               || ((item.target.name, ifGeneration) in bucket.versions
                   && bucket.versions[(item.target.name, ifGeneration)].content == item.staged)
      modifies this`bucket, this`tick, this`history
      ensures Valid() && Grown(old(bucket), bucket) && (Calm() ==> before == old(bucket)) && tick > old(tick)
      ensures r.Killed? ==> Died()
      ensures ValidBucket(before)
      ensures bucket == if written then Written(before, item.target.name, Version(content, true)) else before
      ensures written ==> item.target.name in before.live && before.live[item.target.name] == ifGeneration
      ensures history == if written then old(history) + [Write(item, ifGeneration, true)] else old(history)
      ensures var fault := weather(old(tick)).fault;
              && (written <==> !fault.KillBefore? && !fault.RaiseBefore?
                               && item.target.name in before.live && before.live[item.target.name] == ifGeneration)
              && (r.Done? <==> written && fault.NoFault?)
    {
      var fault := Begin();
      before, written := bucket, false;
      var name := item.target.name;
      if fault.KillBefore? {
        return Killed, before, written;
      }
      if fault.RaiseBefore? {
        return Threw(Injected), before, written;
      }
      if name !in bucket.live || bucket.live[name] != ifGeneration {
        return Threw(GenerationConflict), before, written;
      }
      history := history + [Write(item, ifGeneration, InLedger(disk, name))];
      bucket := Written(bucket, name, Version(content, true));
      written := true;
      r := if fault.NoFault? then Done(()) else if fault.KillAfter? then Killed else Threw(Injected);
    }

    /** A write followed by a reload of the live metadata. */
    method Upload(item: Item, content: Content, ifGeneration: nat) returns (r: Result<Metadata>, ghost written: bool)
      requires Valid() && InLedger(disk, item.target.name)
      requires ifGeneration == item.target.oldGeneration
               || ((item.target.name, ifGeneration) in bucket.versions
                   && bucket.versions[(item.target.name, ifGeneration)].content == item.staged)
      modifies this`bucket, this`tick, this`history
      ensures Valid() && Grown(old(bucket), bucket) && tick > old(tick)
      ensures r.Killed? ==> Died()
      ensures OneMore(old(history), history, item)
      ensures Calm() ==>
                bucket == if written then Written(old(bucket), item.target.name, Version(content, true))
                          else old(bucket)
      ensures r.Done? ==> written && item.target.name in bucket.live && r.value == Describe(bucket, item.target.name)
      ensures Calm() && Healthy(old(tick))
              && (item.target.name in old(bucket).live && old(bucket).live[item.target.name] == ifGeneration)
              ==> r.Done?
    {
      var put;
      ghost var before;
      put, before, written := Put(item, content, ifGeneration);
      if put.Killed? {
        return Killed, written;
      }
      if put.Threw? {
        return Threw(put.error), written;
      }
      r := ReadMetadata(item.target.name);
    }

    // -------------------------------------------------------------------------
    // Apply
    // -------------------------------------------------------------------------

    /** The ledger in hand is ready, and the item is a planned object it does not know yet. */
    ghost predicate Fits(ledger: Ledger, item: Item)
      reads this
    {
      && Ready(ledger, bucket) && ledger.status == Applying && ledger.rollbacks == []
      && item.target in Targets(ledger.plan) && Untouched(ledger, item.target)
    }

    method RecordPending(ledger: Ledger, item: Item) returns (pending: Ledger, r: Result<()>)
      requires Valid() && disk == Some(ledger)
      modifies this`bucket, this`tick, this`disk
      ensures Valid() && Descends(old(bucket), bucket) && (Calm() ==> bucket == old(bucket))
      ensures r.Killed? ==> Died()
      ensures pending == Noting(ledger, item, Pending) && Sound(pending)
      ensures disk == Some(ledger) || disk == Some(pending)
      ensures r.Done? ==> disk == Some(pending)
      ensures tick == old(tick) + 1 && (weather(old(tick)).fault.NoFault? ==> r.Done?)
      ensures Calm() && old(Fits(ledger, item)) ==> Ready(pending, bucket) && Ready(ledger, bucket)
    {
      pending := Noting(ledger, item, Pending);
      NotingAddsAName(ledger, item, Pending);
      if Fits(ledger, item) {
        PendingKeepsReady(ledger, bucket, item);
      }
      r := WriteLedger(pending);
    }

    method RecordVerified(ghost before: Ledger, pending: Ledger, item: Item, uploaded: Metadata)
      returns (ledger': Ledger, r: Result<()>)
      requires Valid() && disk == Some(pending) && pending == Noting(before, item, Pending)
      requires item.target.name in bucket.live && uploaded == Describe(bucket, item.target.name)
      modifies this`bucket, this`tick, this`disk
      ensures Valid() && Descends(old(bucket), bucket) && (Calm() ==> bucket == old(bucket)) && Sound(ledger')
      ensures r.Killed? ==> Died()
      ensures ledger' == if Shows(uploaded, item.staged) then Noting(before, item, Applied(uploaded.generation))
                         else pending
      ensures disk == Some(pending) || disk == Some(ledger')
      ensures r.Done? ==> disk == Some(ledger') && Shows(uploaded, item.staged)
      ensures tick >= old(tick) && (weather(old(tick)).fault.NoFault? && Shows(uploaded, item.staged) ==> r.Done?)
      ensures Calm() && old(Ready(pending, bucket)) && pending.status == Applying ==>
                Ready(ledger', bucket) && Ready(pending, bucket)
    {
      if !Shows(uploaded, item.staged) {
        return pending, Threw(ChecksumMismatch);
      }
      var last := |pending.mutations| - 1;
      ledger' := pending.(mutations := pending.mutations[last := Mutation(item, Applied(uploaded.generation))]);
      VerifyingReplacesTheLast(before, item, uploaded.generation);
      if Ready(pending, bucket) && pending.status == Applying {
        AppliedKeepsReady(before, bucket, item, uploaded.generation);
      }
      r := WriteLedger(ledger');
    }

    /** Writes the pending ledger entry, then the object, then the verified entry. */
    method ApplyItem(ledger: Ledger, item: Item) returns (ledger': Ledger, r: Result<()>)
      requires Valid() && disk == Some(ledger)
      modifies this
      ensures Valid() && Grown(old(bucket), bucket) && Sound(ledger')
      ensures r.Killed? ==> Died()
      ensures exists p :: ledger' == Noting(ledger, item, p) && (r.Done? ==> p.Applied?)
      ensures disk.Some? && disk.value.status == ledger.status && disk.value.plan == ledger.plan
      ensures r.Done? ==> disk == Some(ledger')
      ensures Calm() && old(Fits(ledger, item)) ==> Ready(ledger', bucket) && Ready(disk.value, bucket)
      ensures tick >= old(tick)
      ensures Calm() && Healthy(old(tick)) && LiveAt(old(bucket), item.target.name, item.target.oldGeneration) ==>
                r.Done?
      ensures Calm() && r.Done? ==>
                && bucket == Written(old(bucket), item.target.name, Version(item.staged, true))
                && LiveShows(bucket, item.target.name, item.staged)
    {
      ghost var good := Calm() && Fits(ledger, item);
      var pending;
      pending, r := RecordPending(ledger, item);
      ledger' := pending;
      if !r.Done? {
        return;
      }
      NotingAddsAName(ledger, item, Pending);
      ghost var b := bucket;
      var uploaded, written := Upload(item, item.staged, item.target.oldGeneration);
      if good && written {
        UploadKeepsReady(ledger, b, item);
      }
      if uploaded.Killed? {
        return ledger', Killed;
      }
      if uploaded.Threw? {
        return ledger', Threw(uploaded.error);
      }
      ledger', r := RecordVerified(ledger, pending, item, uploaded.value);
    }

    /** Accepts an applied ledger whose objects are all at their recorded generations. Those
        that existed at the start were live then. */
    method VerifyLiveGenerations(ledger: Ledger) returns (r: Result<Ledger>)
      requires Valid() && HonestLedger(ledger, bucket)
      modifies this`bucket, this`tick
      ensures Valid() && Descends(old(bucket), bucket) && (Calm() ==> bucket == old(bucket))
      ensures r.Killed? ==> Died()
      ensures r.Done? ==> r.value == ledger && forall m :: m in ledger.mutations ==>
                            m.progress.Applied? && LiveAt(old(bucket), m.item.target.name, m.progress.newGeneration)
      ensures Calm() && Healthy(old(tick))
              && (forall m :: m in ledger.mutations ==>
                    m.progress.Applied? && LiveAt(old(bucket), m.item.target.name, m.progress.newGeneration)) ==>
                r.Done?
    {
      ghost var start := bucket;
      for i := 0 to |ledger.mutations|
        invariant Valid() && Descends(start, bucket) && (Calm() ==> bucket == start) && tick >= old(tick)
        invariant forall j :: 0 <= j < i ==>
                    && ledger.mutations[j].progress.Applied?
                    && LiveAt(start, ledger.mutations[j].item.target.name, ledger.mutations[j].progress.newGeneration)
      {
        var m := ledger.mutations[i];
        ghost var before := bucket;
        var current := ReadMetadata(m.item.target.name);
        DescendsTransitively(start, before, bucket);
        if current.Killed? {
          return Killed;
        }
        if current.Threw? {
          return Threw(current.error);
        }
        if m.progress != Applied(current.value.generation) {
          return Threw(GenerationConflict);
        }
        assert LiveAt(bucket, m.item.target.name, m.progress.newGeneration);
      }
      return Done(ledger);
    }

    /** No operation with a tick in this range is disturbed. */
    ghost predicate NoFaults(from: nat, to: nat) {
      forall t :: from <= t < to ==> weather(t).fault.NoFault?
    }

    /** The object must be the version the plan was made from. */
    method CheckPlanned(t: Target) returns (r: Result<()>)
      requires Valid() && PlannedFrom(t, bucket)
      modifies this`bucket, this`tick
      ensures Valid() && Descends(old(bucket), bucket) && (Calm() ==> bucket == old(bucket)) && tick == old(tick) + 1
      ensures r.Killed? ==> Died()
      ensures r.Done? ==> LiveAt(old(bucket), t.name, t.oldGeneration)
      ensures Calm() && weather(old(tick)).fault.NoFault? && LiveAt(old(bucket), t.name, t.oldGeneration) ==> r.Done?
    {
      var current := ReadMetadata(t.name);
      if !current.Done? {
        return if current.Killed? then Killed else Threw(current.error);
      }
      if !IsPlanned(current.value, t) {
        return Threw(GenerationConflict);
      }
      assert LiveAt(bucket, t.name, t.oldGeneration);
      r := Done(());
    }

    /** On success every object was that version at the start. */
    method CheckAllPlanned(targets: seq<Target>) returns (r: Result<()>)
      requires Valid() && forall i :: 0 <= i < |targets| ==> PlannedFrom(targets[i], bucket)
      modifies this`bucket, this`tick
      ensures Valid() && Descends(old(bucket), bucket) && (Calm() ==> bucket == old(bucket))
      ensures r.Killed? ==> Died()
      ensures r.Done? ==> AllLive(targets, old(bucket))
      ensures tick >= old(tick) && (targets != [] ==> tick > old(tick))
      ensures Calm() && NoFaults(old(tick), old(tick) + |targets|) && AllLive(targets, old(bucket)) ==>
                r.Done? && tick == old(tick) + |targets|
    {
      ghost var start := bucket;
      for i := 0 to |targets|
        invariant Valid() && Descends(start, bucket) && (Calm() ==> bucket == start) && tick == old(tick) + i
        invariant AllLive(targets[..i], start)
      {
        ghost var before := bucket;
        r := CheckPlanned(targets[i]);
        DescendsTransitively(start, before, bucket);
        if !r.Done? {
          return;
        }
      }
      r := Done(());
    }

    method Preflight(plan: Plan) returns (r: Result<()>)
      requires Valid() && PlanMatches(plan, bucket)
      modifies this`bucket, this`tick
      ensures Valid() && Descends(old(bucket), bucket) && (Calm() ==> bucket == old(bucket))
      ensures r.Killed? ==> Died()
      ensures r.Done? ==> AllPlanned(plan, old(bucket))
      ensures tick > old(tick)
      ensures Calm() && NoFaults(old(tick), old(tick) + |Targets(plan)|) && AllPlanned(plan, old(bucket)) ==>
                r.Done? && tick == old(tick) + |Targets(plan)|
    {
      r := CheckAllPlanned(Targets(plan));
    }

    /** Applies the planned objects in order; the ledger in hand is returned whatever happens. */
    method ApplyObjects(plan: Plan, start: Ledger) returns (ledger: Ledger, r: Result<()>)
      requires Valid() && disk == Some(start) && PlanMatches(plan, bucket)
      requires start == Ledger(plan, Applying, [], [])
      modifies this
      ensures Valid() && Grown(old(bucket), bucket) && Sound(ledger) && InProgress(ledger, disk, plan)
      ensures r.Killed? ==> Died()
      ensures r.Done? ==> disk == Some(ledger) && Progressed(ledger, plan.objects)
      ensures Calm() && old(Ready(start, bucket)) ==> Ready(ledger, bucket) && Ready(disk.value, bucket)
      ensures Calm() && r.Done? ==> AllStaged(plan.objects, bucket) && OnlyWrites(plan.objects, old(bucket), bucket)
      ensures tick >= old(tick) && (Calm() && Healthy(old(tick)) && AllPlanned(plan, old(bucket)) ==> r.Done?)
    {
      ghost var good, b := Calm() && Ready(start, bucket), bucket;
      ledger := start;
      for i := 0 to |plan.objects|
        invariant Valid() && Grown(old(bucket), bucket) && disk == Some(ledger) && InProgress(ledger, disk, plan)
        invariant Progressed(ledger, plan.objects[..i])
        invariant good ==> Ready(ledger, bucket)
        invariant Calm() ==> AllStaged(plan.objects[..i], bucket) && OnlyWrites(plan.objects[..i], b, bucket)
        invariant tick >= old(tick)
      {
        if Calm() && AllPlanned(plan, b) {
          NextIsPlanned(plan, plan.objects, i, b, bucket);
        }
        if Calm() {
          WritesGrow(plan.objects, i, b, bucket);
        }
        ledger, r := ApplyNext(plan, plan.objects, i, ledger);
        if !r.Done? {
          return;
        }
      }
      assert plan.objects[..|plan.objects|] == plan.objects;
      r := Done(());
    }

    /** Applies the `i`-th of the planned items, which starts with `objects` and may end with the
        dataset manifest. */
    method ApplyNext(plan: Plan, items: seq<Item>, i: nat, before: Ledger) returns (ledger: Ledger, r: Result<()>)
      requires Valid() && disk == Some(before) && PlanMatches(plan, bucket) && InProgress(before, disk, plan)
      requires InPlanOrder(plan, items) && i < |items| && Progressed(before, items[..i])
      requires Calm() ==> AllStaged(items[..i], bucket)
      modifies this
      ensures Valid() && Grown(old(bucket), bucket) && Sound(ledger) && InProgress(ledger, disk, plan)
      ensures r.Killed? ==> Died()
      ensures r.Done? ==> disk == Some(ledger) && Progressed(ledger, items[..i + 1])
      ensures Calm() && old(Ready(before, bucket)) ==> Ready(ledger, bucket) && Ready(disk.value, bucket)
      ensures Calm() && r.Done? ==>
                && AllStaged(items[..i + 1], bucket)
                && bucket == Written(old(bucket), items[i].target.name, Version(items[i].staged, true))
      ensures tick >= old(tick)
      ensures Calm() && Healthy(old(tick))
              && LiveAt(old(bucket), items[i].target.name, items[i].target.oldGeneration)
              ==> r.Done?
    {
      ghost var b := bucket;
      NextIsUntouched(plan, items, i, before);
      ledger, r := ApplyItem(before, items[i]);
      if r.Done? {
        ProgressExtends(before, items, i, ledger);
        if Calm() {
          StagedAccumulates(plan, items, i, b);
        }
      }
    }

    /** Downloads the manifests of all shards at their live generations. */
    method ReadShards(x: Rebuilding) returns (r: Result<seq<Manifests.Shard>>)
      requires Valid()
      modifies this`bucket, this`tick
      ensures Valid() && Descends(old(bucket), bucket) && (Calm() ==> bucket == old(bucket))
      ensures r.Killed? ==> Died()
      ensures r.Done? ==> |r.value| == x.spec.shardCount && Readable(x, r.value, bucket)
      ensures r.Done? && Calm() ==> LiveShards(x, r.value, bucket)
      ensures tick >= old(tick) && (Calm() && Healthy(old(tick)) && AllDecode(x, old(bucket)) ==> r.Done?)
    {
      ghost var start := bucket;
      var shards := [];
      for id := 0 to x.spec.shardCount
        invariant Valid() && Descends(start, bucket) && (Calm() ==> bucket == start)
        invariant |shards| == id && Readable(x, shards, bucket) && (Calm() ==> LiveShards(x, shards, bucket))
        invariant tick >= old(tick)
      {
        ghost var before := bucket;
        var shard := ReadShard(x, id);
        DescendsTransitively(start, before, bucket);
        if !shard.Done? {
          return if shard.Killed? then Killed else Threw(shard.error);
        }
        shards := shards + [shard.value];
      }
      r := Done(shards);
    }

    method ReadShard(x: Rebuilding, id: nat) returns (r: Result<Manifests.Shard>)
      requires Valid()
      modifies this`bucket, this`tick
      ensures Valid() && Descends(old(bucket), bucket) && (Calm() ==> bucket == old(bucket))
      ensures r.Killed? ==> Died()
      ensures r.Done? ==> ReadableShard(x, id, r.value, bucket)
      ensures r.Done? && Calm() ==> LiveShard(x, id, r.value, bucket)
      ensures tick >= old(tick) && (Calm() && Healthy(old(tick)) && Decodes(x, id, old(bucket)) ==> r.Done?)
    {
      ghost var start := bucket;
      var metadata := ReadMetadata(x.nameOf(id));
      if !metadata.Done? {
        return if metadata.Killed? then Killed else Threw(metadata.error);
      }
      ghost var described := bucket;
      var m := metadata.value;
      var payload := Download(x.nameOf(id), m.generation);
      DescendsTransitively(start, described, bucket);
      if !payload.Done? {
        return if payload.Killed? then Killed else Threw(payload.error);
      }
      if payload.value.size != m.size || (m.digest.Some? && m.digest.value != payload.value.digest) {
        return Threw(ChecksumMismatch);
      }
      var shard := x.decode(payload.value);
      r := if shard.None? then Threw(RemediationError) else Done(shard.value);
    }

    /** Rebuilds the dataset manifest from the shard manifests in the bucket and validates it. */
    method RebuildManifest(x: Rebuilding) returns (r: Result<()>, final: Final)
      requires Valid()
      modifies this`bucket, this`tick
      ensures Valid() && Descends(old(bucket), bucket) && (Calm() ==> bucket == old(bucket))
      ensures r.Killed? ==> Died()
      ensures r.Done? ==> IsFinal(x, final.shards, final.manifest) && Readable(x, final.shards, bucket)
      ensures r.Done? && Calm() ==> LiveShards(x, final.shards, bucket)
      ensures tick >= old(tick) && (Calm() && Healthy(old(tick)) && IsRebuildable(x, old(bucket)) ==> r.Done?)
    {
      final := NOTHING;
      var read := ReadShards(x);
      if !read.Done? {
        return (if read.Killed? then Killed else Threw(read.error)), final;
      }
      var rebuilt := Manifests.Rebuild(x.spec, read.value);
      if rebuilt.None? {
        return Threw(InvariantViolation), final;
      }
      final := FinalOf(read.value, rebuilt.value);
      var accepted := Manifests.Validate(x.spec, x.original, rebuilt.value, x.projectedTotal);
      r := if accepted then Done(()) else Threw(InvariantViolation);
    }

    /** Writes the rebuilt manifest over the planned one, as the last item. */
    method ApplyRebuilt(plan: Plan, x: Rebuilding, final: Final, before: Ledger)
      returns (ledger: Ledger, r: Result<()>)
      requires Valid() && disk == Some(before) && PlanMatches(plan, bucket) && InProgress(before, disk, plan)
      requires Progressed(before, plan.objects)
      requires Calm() ==> AllStaged(plan.objects, bucket)
      modifies this
      ensures Valid() && Grown(old(bucket), bucket) && Sound(ledger) && InProgress(ledger, disk, plan)
      ensures r.Killed? ==> Died()
      ensures r.Done? ==> disk == Some(ledger) && Progressed(ledger, FinalItems(plan, x, final))
      ensures Calm() && old(Ready(before, bucket)) ==> Ready(ledger, bucket) && Ready(disk.value, bucket)
      ensures Calm() && r.Done? ==>
                && AllStaged(FinalItems(plan, x, final), bucket)
                && bucket == Written(old(bucket), plan.dataset.name, Version(x.encode(final.manifest), true))
      ensures tick >= old(tick)
      ensures Calm() && Healthy(old(tick))
              && LiveAt(old(bucket), plan.dataset.name, plan.dataset.oldGeneration)
              ==> r.Done?
    {
      var items := FinalItems(plan, x, final);
      assert items[..|plan.objects|] == plan.objects && items[..|items|] == items;
      assert items[|plan.objects|] == Item(plan.dataset, x.encode(final.manifest));
      ledger, r := ApplyNext(plan, items, |plan.objects|, before);
    }

    /** The dataset manifest goes last, once every other object is in place. */
    method ApplyDatasetManifest(plan: Plan, x: Rebuilding, before: Ledger)
      returns (ledger: Ledger, r: Result<()>, final: Final)
      requires Valid() && disk == Some(before) && PlanMatches(plan, bucket) && InProgress(before, disk, plan)
      requires Progressed(before, plan.objects)
      requires Calm() ==> AllStaged(plan.objects, bucket)
      modifies this
      ensures Valid() && Sound(ledger) && InProgress(ledger, disk, plan)
      ensures r.Killed? ==> Died()
      ensures r.Done? ==> disk == Some(ledger) && HasApplied(plan, x, final, ledger)
      ensures Calm() && old(Ready(before, bucket)) ==> Ready(ledger, bucket) && Ready(disk.value, bucket)
      ensures Calm() && r.Done? ==> IsLive(plan, x, final, bucket)
      ensures tick >= old(tick)
      ensures Calm() && Healthy(old(tick)) && IsRebuildable(x, old(bucket))
              && LiveAt(old(bucket), plan.dataset.name, plan.dataset.oldGeneration)
              ==> r.Done?
    {
      ledger := before;
      var rebuilt;
      rebuilt, final := RebuildManifest(x);
      if !rebuilt.Done? {
        r := rebuilt;
        return;
      }
      ghost var read := bucket;
      ledger, r := ApplyRebuilt(plan, x, final, before);
      if r.Done? && Calm() {
        FinalIsLive(plan, x, final, read, bucket);
      }
    }

    /** Objects, shard manifests, then the rebuilt dataset manifest. */
    method ApplyItems(plan: Plan, x: Rebuilding, start: Ledger) returns (ledger: Ledger, r: Result<()>, final: Final)
      requires Valid() && disk == Some(start) && PlanMatches(plan, bucket)
      requires start == Ledger(plan, Applying, [], [])
      modifies this
      ensures Valid() && Sound(ledger) && InProgress(ledger, disk, plan)
      ensures r.Killed? ==> Died()
      ensures r.Done? ==> disk == Some(ledger) && HasApplied(plan, x, final, ledger)
      ensures Calm() && old(Ready(start, bucket)) ==> Ready(ledger, bucket) && Ready(disk.value, bucket)
      ensures Calm() && r.Done? ==> IsLive(plan, x, final, bucket)
      ensures tick >= old(tick)
      ensures Applicable(plan, x, old(bucket), old(tick)) ==> r.Done?
    {
      ghost var b := bucket;
      ledger, r := ApplyObjects(plan, start);
      final := NOTHING;
      if r.Done? {
        if Calm() && AllPlanned(plan, b) && Prepared(plan, x, b) {
          PreparedIsRebuildable(plan, x, b, bucket);
          DatasetIsPlanned(plan, b, bucket);
        }
        ledger, r, final := ApplyDatasetManifest(plan, x, ledger);
      }
    }

    method RecordApplied(before: Ledger) returns (ledger: Ledger, r: Result<Ledger>)
      requires Valid() && disk == Some(before) && before.status == Applying
      modifies this`bucket, this`tick, this`disk
      ensures Valid() && Sound(ledger) && (Calm() ==> bucket == old(bucket))
      ensures r.Killed? ==> Died()
      ensures ledger == before.(status := AllApplied) && (disk == Some(before) || disk == Some(ledger))
      ensures r.Done? ==> disk == Some(ledger) && r.value == ledger
      ensures tick > old(tick) && (weather(old(tick)).fault.NoFault? ==> r.Done?)
      ensures Calm() && old(Ready(before, bucket)) ==> Ready(ledger, bucket) && Ready(disk.value, bucket)
    {
      if Ready(before, bucket) {
        StatusKeepsReady(before, bucket, AllApplied);
      }
      ledger := before.(status := AllApplied);
      var written := WriteLedger(ledger);
      r := match written case Done(_) => Done(ledger) case Threw(e) => Threw(e) case Killed => Killed;
    }

    /** The guarded part of `apply`. */
    method ApplyAll(plan: Plan, x: Rebuilding, start: Ledger) returns (ledger: Ledger, r: Result<Ledger>, final: Final)
      requires Valid() && disk == Some(start) && PlanMatches(plan, bucket)
      requires start == Ledger(plan, Applying, [], [])
      modifies this
      ensures Valid() && Sound(ledger)
      ensures (r.Killed? ==> Died()) && (r.Done? ==> tick > 0)
      ensures ledger.plan == plan && ledger.status in {Applying, AllApplied}
      ensures disk.Some? && disk.value.plan == plan && disk.value.status in {Applying, AllApplied}
      ensures disk.value.status == AllApplied ==> HasApplied(plan, x, final, disk.value)
      ensures r.Done? ==> disk == Some(r.value) && IsApplied(plan, x, final, r.value)
      ensures Calm() && old(Ready(start, bucket)) ==> Ready(ledger, bucket) && Ready(disk.value, bucket)
      ensures Calm() && r.Done? ==> IsLive(plan, x, final, bucket)
      ensures Applicable(plan, x, old(bucket), old(tick)) ==> r.Done?
    {
      var step;
      ledger, step, final := ApplyItems(plan, x, start);
      if step.Done? {
        ledger, r := RecordApplied(ledger);
      } else {
        r := if step.Killed? then Killed else Threw(step.error);
      }
    }

    /** Keeps a failure in the ledger file, if it can be written. */
    method Conclude(ledger: Ledger, status: Status, error: Error) returns (r: Result<Ledger>)
      requires Valid() && Sound(ledger) && disk.Some? && disk.value.plan == ledger.plan
      modifies this`bucket, this`tick, this`disk
      ensures Valid() && Descends(old(bucket), bucket) && (Calm() ==> bucket == old(bucket)) && tick == old(tick) + 1
      ensures r.Killed? ==> Died()
      ensures !r.Done? && (disk == old(disk) || disk == Some(ledger.(status := status)))
      ensures Calm() && old(Ready(ledger.(status := status), bucket) && Ready(disk.value, bucket)) ==>
                Ready(disk.value, bucket)
      ensures weather(old(tick)).fault.NoFault? ==> disk == Some(ledger.(status := status))
    {
      var written := WriteLedger(ledger.(status := status));
      r := match written case Done(_) => Threw(error) case Threw(e) => Threw(e) case Killed => Killed;
    }

    /** Checks the plan against the bucket and writes the empty ledger. */
    method Start(plan: Plan) returns (r: Result<()>)
      requires Valid() && PlanMatches(plan, bucket) && disk.None?
      modifies this`bucket, this`tick, this`disk
      ensures Valid() && Descends(old(bucket), bucket) && (Calm() ==> bucket == old(bucket))
      ensures r.Killed? ==> Died()
      ensures disk.None? || disk == Some(Ledger(plan, Applying, [], []))
      ensures disk.Some? ==> AllPlanned(plan, old(bucket))
      ensures disk.Some? && !r.Done? ==> tick > 0 && !weather(tick - 1).fault.NoFault?
      ensures r.Done? ==> disk.Some?
      ensures tick > old(tick) && (Calm() && Healthy(old(tick)) && AllPlanned(plan, old(bucket)) ==> r.Done?)
      ensures KilledAtFirstWrite(plan, old(bucket), old(tick)) ==> r.Killed? && disk.Some?
    {
      r := Preflight(plan);
      if r.Done? {
        r := WriteLedger(Ledger(plan, Applying, [], []));
      }
    }

    /** An empty ledger over a bucket that is as planned is good for rollback. */
    lemma EmptyLedgerIsReady(plan: Plan, b: Bucket)
      requires ValidBucket(b) && PlanMatches(plan, b) && AllPlanned(plan, b)
      ensures Ready(Ledger(plan, Applying, [], []), b)
    {
    }

    /** Applies everything and keeps a failure in the ledger file. */
    method ApplyOrConclude(plan: Plan, x: Rebuilding) returns (r: Result<Ledger>, final: Final)
      requires Valid() && disk == Some(Ledger(plan, Applying, [], [])) && PlanMatches(plan, bucket)
      modifies this
      ensures Valid() && disk.Some? && disk.value.plan == plan
      ensures tick > 0 && (r.Killed? ==> Died())
      ensures r.Done? ==> disk == Some(r.value) && IsApplied(plan, x, final, r.value)
      ensures Calm() && old(Ready(disk.value, bucket)) ==> Ready(disk.value, bucket)
      ensures Calm() && r.Done? ==> IsLive(plan, x, final, bucket)
      ensures disk.value.status in {Applying, AllApplied, ApplyFailed}
      ensures disk.value.status == AllApplied ==> HasApplied(plan, x, final, disk.value)
      ensures r.Threw? && weather(tick - 1).fault.NoFault? ==> disk.value.status == ApplyFailed
      ensures disk.value.status == Applying ==> !weather(tick - 1).fault.NoFault?
      ensures Applicable(plan, x, old(bucket), old(tick)) ==> r.Done?
    {
      var ledger;
      ledger, r, final := ApplyAll(plan, x, disk.value);
      if r.Threw? {
        if Ready(ledger, bucket) {
          StatusKeepsReady(ledger, bucket, ApplyFailed);
        }
        r := Conclude(ledger, ApplyFailed, r.error);
      }
    }

    /** `apply` without a ledger file. */
    method ApplyAfresh(plan: Plan, x: Rebuilding) returns (r: Result<Ledger>, final: Final)
      requires Valid() && PlanMatches(plan, bucket) && disk.None?
      modifies this
      ensures Valid()
      ensures tick > 0 && (r.Killed? ==> Died())
      ensures r.Done? ==> AllPlanned(plan, old(bucket)) && disk == Some(r.value) && IsApplied(plan, x, final, r.value)
      ensures disk.Some? ==> disk.value.plan == plan && disk.value.status in {Applying, AllApplied, ApplyFailed}
      ensures disk.Some? && disk.value.status == AllApplied ==> HasApplied(plan, x, final, disk.value)
      ensures disk.Some? && r.Threw? && weather(tick - 1).fault.NoFault? ==> disk.value.status == ApplyFailed
      ensures Calm() ==> if disk.None? then bucket == old(bucket) else Ready(disk.value, bucket)
      ensures Calm() && r.Done? ==> IsLive(plan, x, final, bucket)
      ensures disk.Some? && disk.value.status == Applying ==> !weather(tick - 1).fault.NoFault?
      ensures KilledAtFirstWrite(plan, old(bucket), old(tick)) ==>
                r.Killed? && disk == Some(Ledger(plan, Applying, [], []))
      ensures Applicable(plan, x, old(bucket), old(tick)) ==> r.Done?
    {
      hide HasApplied, IsLive, Ready, AllPlanned, Prepared;
      final := NOTHING;
      var started := Start(plan);
      if Calm() && disk.Some? {
        EmptyLedgerIsReady(plan, bucket);
      }
      if started.Done? {
        r, final := ApplyOrConclude(plan, x);
      } else {
        r := if started.Killed? then Killed else Threw(started.error);
      }
    }

    /** Nobody interferes, all objects are as planned, and the process dies in the first ledger
        write, right after its effect. */
    ghost predicate KilledAtFirstWrite(plan: Plan, b: Bucket, t: nat) {
      && Calm() && AllPlanned(plan, b) && NoFaults(t, t + |Targets(plan)|)
      && weather(t + |Targets(plan)|).fault.KillAfter?
    }

    /** `apply`. With a ledger file it only re-checks an applied one. */
    method Apply(plan: Plan, x: Rebuilding) returns (r: Result<Ledger>, final: Final)
      requires Valid() && PlanMatches(plan, bucket)
      modifies this
      ensures Valid()
      ensures (r.Killed? ==> Died()) && (old(disk).None? ==> tick > 0)
      ensures old(disk).Some? ==> disk == old(disk) && history == old(history)
      ensures old(disk).Some? && r.Done? ==>
                && r.value == disk.value && r.value.status == AllApplied
                && forall m :: m in r.value.mutations ==>
                     m.progress.Applied? && LiveAt(old(bucket), m.item.target.name, m.progress.newGeneration)
      ensures old(disk).None? && r.Done? ==>
                AllPlanned(plan, old(bucket)) && disk == Some(r.value) && IsApplied(plan, x, final, r.value)
      ensures old(disk).Some? && Calm() && Healthy(old(tick)) ==>
                (r.Done? <==> disk.value.status == AllApplied
                              && forall m :: m in disk.value.mutations ==>
                                   m.progress.Applied?
                                   && LiveAt(old(bucket), m.item.target.name, m.progress.newGeneration))
      ensures old(disk).Some? && disk.value.status != AllApplied ==>
                r == Threw(RemediationError) && bucket == old(bucket)
      ensures old(disk).None? && disk.Some? ==>
                disk.value.plan == plan && disk.value.status in {Applying, AllApplied, ApplyFailed}
      // Only a complete application is written down as one, and a failure as a failure.
      ensures old(disk).None? && disk.Some? && disk.value.status == AllApplied ==>
                HasApplied(plan, x, final, disk.value)
      ensures old(disk).None? && disk.Some? && r.Threw? && weather(tick - 1).fault.NoFault? ==>
                disk.value.status == ApplyFailed
      ensures Calm() && old(disk).None? ==> if disk.None? then bucket == old(bucket) else Ready(disk.value, bucket)
      ensures Calm() && old(disk).None? && r.Done? ==> IsLive(plan, x, final, bucket)
      ensures old(disk).None? && disk.Some? && disk.value.status == Applying ==> !weather(tick - 1).fault.NoFault?
      ensures old(disk).None? && KilledAtFirstWrite(plan, old(bucket), old(tick)) ==>
                r.Killed? && disk == Some(Ledger(plan, Applying, [], []))
      // Undisturbed, a plan that fits the bucket and was prepared from its shards is applied.
      ensures old(disk).None? && Applicable(plan, x, old(bucket), old(tick)) ==> r.Done?
    {
      final := NOTHING;
      if disk.None? {
        r, final := ApplyAfresh(plan, x);
      } else if disk.value.status != AllApplied {
        r := Threw(RemediationError);
      } else {
        r := VerifyLiveGenerations(disk.value);
      }
    }

    // -------------------------------------------------------------------------
    // Rollback
    // -------------------------------------------------------------------------

    /** Copies an old generation over the live one, provided the live one is still `ifGeneration`. */
    method RestoreGeneration(item: Item, ifGeneration: nat) returns (r: Result<Metadata>, ghost written: bool)
      requires Valid() && InLedger(disk, item.target.name)
      requires (item.target.name, ifGeneration) in bucket.versions
               && bucket.versions[(item.target.name, ifGeneration)].content == item.staged
      requires (item.target.name, item.target.oldGeneration) in bucket.versions
               && bucket.versions[(item.target.name, item.target.oldGeneration)].content == item.target.original
      modifies this`bucket, this`tick, this`history
      ensures Valid() && Grown(old(bucket), bucket) && tick > old(tick)
      ensures r.Killed? ==> Died()
      ensures OneMore(old(history), history, item)
      ensures Calm() ==>
                bucket == if written then Written(old(bucket), item.target.name, Version(item.target.original, true))
                          else old(bucket)
      ensures r.Done? ==> written && item.target.name in bucket.live && r.value == Describe(bucket, item.target.name)
      ensures Calm() && Healthy(old(tick))
              && (item.target.name in old(bucket).live && old(bucket).live[item.target.name] == ifGeneration)
              ==> r.Done?
    {
      written := false;
      var payload := Download(item.target.name, item.target.oldGeneration);
      if payload.Killed? {
        return Killed, written;
      }
      if payload.Threw? {
        return Threw(payload.error), written;
      }
      r, written := Upload(item, payload.value, ifGeneration);
    }

    /** Puts the original back unless it is already there; answers the generation that holds it. */
    method Undo(ghost ledger: Ledger, m: Mutation, current: Metadata) returns (r: Result<nat>)
      requires Valid() && disk == Some(ledger) && m in ledger.mutations
      requires Recorded(ledger.rollbacks, m.item.target.name).None?
      requires PlanMatches(ledger.plan, bucket) && m.item.target in Targets(ledger.plan)
      requires m.item.target.name in bucket.live && current == Describe(bucket, m.item.target.name)
      modifies this`bucket, this`tick, this`history
      ensures Valid() && Grown(old(bucket), bucket) && tick >= old(tick)
      ensures r.Killed? ==> Died()
      ensures OneMore(old(history), history, m.item)
      ensures r.Done? ==> HoldsOriginal(bucket, m.item.target, r.value)
      // What is neither applied nor staged is accepted exactly if it is the original.
      ensures m.progress != Applied(current.generation)
              && !(m.progress.Pending? && current.size == m.item.staged.size
                   && current.digest == Some(m.item.staged.digest)) ==>
                && history == old(history) && bucket == old(bucket)
                && r == if current.size == m.item.target.original.size
                           && (if current.digest.None? then current.generation == m.item.target.oldGeneration
                               else current.digest.value == m.item.target.original.digest)
                        then Done(current.generation) else Threw(AmbiguousRollbackState)
      ensures Calm() && old(Ready(ledger, bucket)) ==> Ready(ledger, bucket)
      ensures Calm() && old(Ready(ledger, bucket)) && Healthy(old(tick)) ==> r.Done?
      ensures Calm() && r.Done? ==> LiveShows(bucket, m.item.target.name, m.item.target.original)
                                    && bucket.live[m.item.target.name] == r.value
    {
      ghost var good, b := Calm() && Ready(ledger, bucket), bucket;
      var t := m.item.target;
      if m.progress == Applied(current.generation) || (m.progress.Pending? && Shows(current, m.item.staged)) {
        MutationsAreNamed(ledger.mutations, m);
        var restore, written := RestoreGeneration(m.item, current.generation);
        if good && written {
          RestoreKeepsReady(ledger, b, m);
        }
        if restore.Killed? {
          return Killed;
        }
        if restore.Threw? {
          return Threw(restore.error);
        }
        if !IsOriginal(restore.value, t) {
          return Threw(ChecksumMismatch);
        }
        return Done(restore.value.generation);
      }
      if !IsOriginal(current, t) {
        return Threw(AmbiguousRollbackState);
      }
      return Done(current.generation);
    }

    /** Handles one mutation of the ledger: re-checks, undoes, or finds it already undone. */
    method RollbackItem(ledger: Ledger, m: Mutation) returns (ledger': Ledger, r: Result<()>)
      requires Valid() && disk == Some(ledger) && m in ledger.mutations && ledger.status == RollingBack
      requires PlanMatches(ledger.plan, bucket) && m.item.target in Targets(ledger.plan)
      modifies this
      ensures Valid() && Grown(old(bucket), bucket) && Sound(ledger') && tick >= old(tick)
      ensures r.Killed? ==> Died()
      ensures ledger' == ledger || exists g :: ledger' == Recording(ledger, m.item.target.name, g)
      ensures OneMore(old(history), history, m.item)
      ensures disk == Some(ledger) || disk == Some(ledger')
      ensures r.Done? ==> disk == Some(ledger') && Recorded(ledger'.rollbacks, m.item.target.name).Some?
      ensures Calm() && old(Ready(ledger, bucket)) ==> Ready(ledger', bucket) && Ready(disk.value, bucket)
      ensures Calm() && old(Ready(ledger, bucket)) && Healthy(old(tick)) ==> r.Done?
    {
      ledger' := ledger;
      var t := m.item.target;
      var read := ReadMetadata(t.name);
      if !read.Done? {
        return ledger', if read.Killed? then Killed else Threw(read.error);
      }
      var prior := Recorded(ledger.rollbacks, t.name);
      if prior.Some? {
        r := CheckRestored(t, read.value, prior.value);
        return;
      }
      var restored := Undo(ledger, m, read.value);
      if !restored.Done? {
        return ledger', if restored.Killed? then Killed else Threw(restored.error);
      }
      ledger', r := RecordRestoration(ledger, m, restored.value);
    }

    method RecordRestoration(ledger: Ledger, m: Mutation, generation: nat) returns (ledger': Ledger, r: Result<()>)
      requires Valid() && disk == Some(ledger) && m in ledger.mutations
      modifies this`bucket, this`tick, this`disk
      ensures Valid() && Descends(old(bucket), bucket) && Sound(ledger') && tick == old(tick) + 1
      ensures r.Killed? ==> Died()
      ensures ledger' == Recording(ledger, m.item.target.name, generation)
      ensures Recorded(ledger'.rollbacks, m.item.target.name).Some?
      ensures disk == Some(ledger) || disk == Some(ledger')
      ensures r.Done? ==> disk == Some(ledger')
      ensures Calm() && old(Ready(ledger, bucket))
              && old(LiveShows(bucket, m.item.target.name, m.item.target.original)
                     && bucket.live[m.item.target.name] == generation)
              ==> Ready(ledger', bucket) && Ready(disk.value, bucket)
      ensures Healthy(old(tick)) ==> r.Done?
    {
      var t := m.item.target;
      if Ready(ledger, bucket) && LiveShows(bucket, t.name, t.original) && bucket.live[t.name] == generation {
        RecordingKeepsReady(ledger, bucket, m);
      }
      ledger' := Recording(ledger, t.name, generation);
      RecordingAdds(ledger, t.name, generation);
      r := WriteLedger(ledger');
    }

    /** A recorded restoration must still be live and original. */
    method CheckRestored(t: Target, current: Metadata, recorded: nat) returns (r: Result<()>)
      ensures r.Done? <==>
                && current.generation == recorded && current.size == t.original.size
                && if current.digest.None? then current.generation == t.oldGeneration
                   else current.digest.value == t.original.digest
      ensures !r.Killed?
    {
      if current.generation != recorded {
        return Threw(AmbiguousRollbackState);
      }
      r := if IsOriginal(current, t) then Done(()) else Threw(ChecksumMismatch);
    }

    method VerifyRollbackComplete(ledger: Ledger) returns (r: Result<()>)
      requires Valid()
      modifies this`bucket, this`tick
      ensures Valid() && Descends(old(bucket), bucket) && (Calm() ==> bucket == old(bucket)) && tick >= old(tick)
      ensures r.Killed? ==> Died()
      ensures r.Done? ==> AllRecorded(ledger) && RestorationsLive(ledger, old(bucket))
      ensures Calm() && Ready(ledger, bucket) && Healthy(old(tick)) && AllRecorded(ledger) ==> r.Done?
    {
      ghost var start := bucket;
      for i := 0 to |ledger.mutations|
        invariant Valid() && Descends(start, bucket) && (Calm() ==> bucket == start) && tick >= old(tick)
        invariant forall j :: 0 <= j < i ==> Recorded(ledger.rollbacks, ledger.mutations[j].item.target.name).Some?
        invariant forall j :: 0 <= j < i ==> RestorationLive(ledger, ledger.mutations[j].item.target.name, start)
      {
        var t := ledger.mutations[i].item.target;
        var record := Recorded(ledger.rollbacks, t.name);
        if record.None? {
          return Threw(AmbiguousRollbackState);
        }
        ghost var before := bucket;
        var read := ReadMetadata(t.name);
        DescendsTransitively(start, before, bucket);
        if !read.Done? {
          return if read.Killed? then Killed else Threw(read.error);
        }
        r := CheckRestored(t, read.value, record.value);
        if !r.Done? {
          return;
        }
        assert LiveAt(bucket, t.name, record.value);
      }
      return Done(());
    }

    method RollbackMutations(start: Ledger) returns (ledger: Ledger, r: Result<()>)
      requires Valid() && disk == Some(start) && start.status == RollingBack && PlanMatches(start.plan, bucket)
      requires forall m :: m in start.mutations ==> m.item.target in Targets(start.plan)
      modifies this
      ensures Valid() && Sound(ledger) && tick >= old(tick)
      ensures r.Killed? ==> Died()
      ensures ledger.(rollbacks := start.rollbacks) == start
      ensures disk.Some? && disk.value.(rollbacks := start.rollbacks) == start
      ensures old(history) <= history && KindsAscend(history[|old(history)|..])
      ensures start.rollbacks <= ledger.rollbacks
      ensures RestoredInOrder(start, ledger.rollbacks[|start.rollbacks|..])
      ensures Calm() && old(Ready(start, bucket)) ==> Ready(disk.value, bucket) && Ready(ledger, bucket)
      ensures r.Done? ==> disk == Some(ledger) && AllRecorded(ledger)
      ensures Calm() && old(Ready(start, bucket)) && Healthy(old(tick)) ==> r.Done?
    {
      hide KeepsOrder, KindsAscend, RestoredInOrder, OneMore, RecordedUpTo, AllRecorded, Ready, RollbackOrder;
      ghost var good := Calm() && Ready(start, bucket);
      ledger := start;
      var order := RollbackOrder(start.mutations);
      NothingIsUndone(start, history);
      RollbackOrderCovers(start.mutations);
      ghost var wrote: seq<nat>, restored: seq<nat> := [], [];
      for i := 0 to |order|
        invariant Valid() && PlanMatches(start.plan, bucket) && disk == Some(ledger) && tick >= old(tick)
        invariant ledger.(rollbacks := start.rollbacks) == start
        invariant good ==> Ready(ledger, bucket)
        invariant RecordedUpTo(ledger, order, i)
        invariant old(history) <= history && start.rollbacks <= ledger.rollbacks
        invariant KeepsOrder(start, i, wrote, restored, history[|old(history)|..],
                             ledger.rollbacks[|start.rollbacks|..])
      {
        assert order[i] in order;
        ghost var before, h := ledger, history;
        ledger, r := RollbackItem(ledger, order[i]);
        wrote, restored := OrderIsKept(start, i, wrote, restored, old(history), h, history, before, ledger);
        if !r.Done? {
          KeptOrderAscends(start, i + 1, wrote, restored, history[|old(history)|..],
                           ledger.rollbacks[|start.rollbacks|..]);
          return;
        }
        RecordedExtends(before, order, i, ledger);
      }
      KeptOrderAscends(start, |order|, wrote, restored, history[|old(history)|..],
                       ledger.rollbacks[|start.rollbacks|..]);
      AllAreRecorded(ledger, order);
      r := Done(());
    }

    /** The guarded part of `rollback`. */
    method RollbackAll(start: Ledger) returns (ledger: Ledger, r: Result<Ledger>)
      requires Valid() && disk == Some(start) && start.status == RollingBack && PlanMatches(start.plan, bucket)
      requires forall m :: m in start.mutations ==> m.item.target in Targets(start.plan)
      modifies this
      ensures Valid() && Sound(ledger) && disk.Some? && tick >= old(tick)
      ensures r.Killed? ==> Died()
      ensures ledger.plan == start.plan && ledger.mutations == start.mutations
      ensures disk.value.plan == start.plan && disk.value.mutations == start.mutations && disk.value.status != Applying
      ensures disk.value.status == RolledBack ==> AllRecorded(disk.value)
      ensures old(history) <= history && KindsAscend(history[|old(history)|..])
      ensures Calm() && old(Ready(start, bucket)) ==>
                Ready(disk.value, bucket) && Ready(ledger.(status := RollbackFailed), bucket)
      ensures r.Done? ==> disk == Some(r.value) && r.value.status == RolledBack && AllRecorded(r.value)
      ensures Calm() && old(Ready(start, bucket)) && Healthy(old(tick)) ==> r.Done?
    {
      var step;
      ledger, step := RollbackMutations(start);
      if Ready(ledger, bucket) {
        StatusKeepsReady(ledger, bucket, RollbackFailed);
      }
      if !step.Done? {
        r := if step.Killed? then Killed else Threw(step.error);
        return;
      }
      ledger, r := FinishRollback(ledger);
    }

    /** Writes down the completed rollback and checks it once more. */
    method FinishRollback(before: Ledger) returns (ledger: Ledger, r: Result<Ledger>)
      requires Valid() && disk == Some(before) && AllRecorded(before)
      modifies this`bucket, this`tick, this`disk
      ensures Valid() && Sound(ledger) && tick >= old(tick)
      ensures r.Killed? ==> Died()
      ensures ledger == before.(status := RolledBack) && (disk == Some(before) || disk == Some(ledger))
      ensures r.Done? ==> disk == Some(ledger) && r.value == ledger && RestorationsLive(ledger, old(bucket))
      ensures Calm() && old(Ready(before, bucket)) ==>
                && Ready(ledger, bucket) && Ready(disk.value, bucket) && Ready(before, bucket)
                && (Healthy(old(tick)) ==> r.Done?)
    {
      if Ready(before, bucket) {
        FinishedKeepsReady(before, bucket);
      }
      ledger := before.(status := RolledBack);
      var written := WriteLedger(ledger);
      if written.Done? {
        written := VerifyRollbackComplete(ledger);
      }
      r := match written case Done(_) => Done(ledger) case Threw(e) => Threw(e) case Killed => Killed;
    }

    method Recheck(ledger: Ledger) returns (r: Result<Ledger>)
      requires Valid()
      modifies this`bucket, this`tick
      ensures Valid() && (Calm() ==> bucket == old(bucket)) && tick >= old(tick)
      ensures r.Killed? ==> Died()
      ensures r.Done? ==> r.value == ledger && AllRecorded(ledger) && RestorationsLive(ledger, old(bucket))
      ensures Calm() && Ready(ledger, bucket) && Healthy(old(tick)) && AllRecorded(ledger) ==> r.Done?
    {
      var complete := VerifyRollbackComplete(ledger);
      r := match complete case Done(_) => Done(ledger) case Threw(e) => Threw(e) case Killed => Killed;
    }

    /** Rolls an accepted ledger back, from its beginning or from where it stopped. */
    method Resume(start: Ledger) returns (r: Result<Ledger>)
      requires Valid() && disk == Some(start) && PlanMatches(start.plan, bucket)
      requires forall m :: m in start.mutations ==> m.item.target in Targets(start.plan)
      requires start.status != Applying && start.status != RolledBack
      modifies this
      ensures Valid() && disk.Some? && tick >= old(tick)
      ensures r.Killed? ==> Died()
      ensures disk.value.status == RolledBack ==> AllRecorded(disk.value)
      ensures r.Threw? ==> tick > 0 && (weather(tick - 1).fault.NoFault? ==> disk.value.status == RollbackFailed)
      ensures old(history) <= history && KindsAscend(history[|old(history)|..])
      ensures disk.value.plan == start.plan && disk.value.mutations == start.mutations && disk.value.status != Applying
      ensures r.Done? ==> disk == Some(r.value) && r.value.status == RolledBack && AllRecorded(r.value)
      ensures Calm() && old(Ready(start, bucket)) ==> Ready(disk.value, bucket) && (Healthy(old(tick)) ==> r.Done?)
    {
      if Ready(start, bucket) {
        StatusKeepsReady(start, bucket, RollingBack);
      }
      var ledger := start.(status := RollingBack);
      var written := WriteLedger(ledger);
      if !written.Done? {
        return if written.Killed? then Killed else Threw(written.error);
      }
      ledger, r := RollbackAll(ledger);
      if r.Threw? {
        r := Conclude(ledger, RollbackFailed, r.error);
      }
    }

    /** `rollback`. Without a ledger, with that of another plan, or with one left APPLYING, it
        refuses and changes nothing. */
    method Rollback(plan: Plan) returns (r: Result<Ledger>)
      requires Valid() && PlanMatches(plan, bucket)
      requires disk.Some? ==> forall m :: m in disk.value.mutations ==> m.item.target in Targets(disk.value.plan)
      modifies this
      ensures Valid() && (disk.Some? <==> old(disk).Some?) && tick >= old(tick)
      ensures r.Killed? ==> Died()
      ensures old(disk).None? || old(disk).value.plan != plan || old(disk).value.status == Applying ==>
                && disk == old(disk) && bucket == old(bucket) && history == old(history)
                && r == Threw(if old(disk).None? then RemediationError
                              else if old(disk).value.plan != plan then ChecksumMismatch else AmbiguousRollbackState)
      // A rollback is written down as one only with a complete record, and a failure as a failure.
      ensures disk.Some? && disk.value.status == RolledBack && old(disk).value.status != RolledBack ==>
                AllRecorded(disk.value)
      ensures disk.Some? && old(disk).value.status == RolledBack ==> disk == old(disk) && history == old(history)
      ensures r.Done? && old(disk).value.status == RolledBack ==> RestorationsLive(r.value, old(bucket))
      ensures disk.Some? && r.Threw? && disk.value.plan == plan && disk.value.status !in {Applying, RolledBack} ==>
                tick > 0 && (weather(tick - 1).fault.NoFault? ==> disk.value.status == RollbackFailed)
      // Files are restored before shard manifests, and the dataset manifest last.
      ensures old(history) <= history && KindsAscend(history[|old(history)|..])
      ensures disk.Some? ==>
                disk.value.plan == old(disk).value.plan && disk.value.mutations == old(disk).value.mutations
      ensures disk.Some? ==> (disk.value.status == Applying <==> old(disk).value.status == Applying)
      ensures r.Done? ==> disk == Some(r.value) && r.value.status == RolledBack && AllRecorded(r.value)
      ensures disk.Some? && disk.value.plan == plan && Calm() && old(Ready(disk.value, bucket)) ==>
                && Ready(disk.value, bucket)
                && (r.Done? ==> AllRestored(plan, bucket))
                && (Healthy(old(tick)) ==> (r.Done? <==> disk.value.status != Applying))
    {
      if disk.None? {
        return Threw(RemediationError);
      }
      var ledger := disk.value;
      if ledger.plan != plan {
        return Threw(ChecksumMismatch);
      }
      if ledger.status == Applying {
        return Threw(AmbiguousRollbackState);
      }
      if ledger.status == RolledBack {
        r := Recheck(ledger);
      } else {
        r := Resume(ledger);
      }
      if r.Done? && Ready(r.value, bucket) {
        FullyRecordedMeansRestored(r.value, bucket);
      }
    }

    /** The operator's whole story without foreign writers: one apply that stops anywhere, any
        number of rollbacks that stop anywhere, and a last rollback that starts at tick `last`.
        If nothing disturbs the last one, it restores every planned object, unless the ledger
        was left APPLYING, in which case every rollback refuses. */
    method ApplyThenRollBack(plan: Plan, x: Rebuilding, attempts: nat) returns (r: Result<Ledger>, ghost last: nat)
      requires Valid() && disk == None && PlanMatches(plan, bucket) && Calm()
      modifies this
      ensures Valid()
      ensures disk.None? ==> bucket == old(bucket) && !r.Done?
      ensures disk.Some? ==> Ready(disk.value, bucket)
      ensures r.Done? ==> AllRestored(plan, bucket) && disk == Some(r.value) && r.value.status == RolledBack
      ensures disk.Some? && Healthy(last) ==> (r.Done? <==> disk.value.status != Applying)
      ensures KilledAtFirstWrite(plan, old(bucket), old(tick)) ==>
                !r.Done? && disk == Some(Ledger(plan, Applying, [], []))
    {
      ghost var abandoned := KilledAtFirstWrite(plan, bucket, tick);
      var applied, final := Apply(plan, x);
      for k := 0 to attempts
        invariant Valid() && PlanMatches(plan, bucket)
        invariant if disk.None? then bucket == old(bucket) else disk.value.plan == plan && Ready(disk.value, bucket)
        invariant abandoned ==> disk == Some(Ledger(plan, Applying, [], []))
      {
        if disk.Some? {
          var attempt := Rollback(plan);
        }
      }
      last := tick;
      r := Rollback(plan);
    }
  }

  /** A ledger that is left APPLYING and never rolled back is reachable: one object, nobody
      else, and a process that dies in its first ledger write. */
  method AbandonedRun(x: Rebuilding, attempts: nat) returns (remediator: Remediator, r: Result<Ledger>)
    ensures fresh(remediator) && remediator.Valid() && remediator.Calm()
    ensures !r.Done? && remediator.disk == Some(Ledger(ONE_OBJECT, Applying, [], []))
  {
    var content := ONE_OBJECT.dataset.original;
    var bucket := Bucket(map[("dataset.json", 0) := Version(content, true)], map["dataset.json" := 0], 1);
    remediator := new Remediator(bucket, t => Weather([], if t == 1 then KillAfter else NoFault));
    assert Targets(ONE_OBJECT) == [ONE_OBJECT.dataset];
    ghost var last;
    r, last := remediator.ApplyThenRollBack(ONE_OBJECT, x, attempts);
  }

  const ONE_OBJECT := Plan([], Target(DatasetManifest, "dataset.json", 0, Content(2, "original")))

  lemma VerifyingReplacesTheLast(l: Ledger, item: Item, generation: nat)
    ensures var pending, applied := Noting(l, item, Pending), Noting(l, item, Applied(generation));
            var last := |pending.mutations| - 1;
            && pending.(mutations := pending.mutations[last := Mutation(item, Applied(generation))]) == applied
            && MutatedNames(pending.mutations) == MutatedNames(applied.mutations)
  {
    NotingAddsAName(l, item, Pending);
    NotingAddsAName(l, item, Applied(generation));
  }

  /** This generation exists and holds the original content. */
  predicate HoldsOriginal(b: Bucket, t: Target, generation: nat) {
    (t.name, generation) in b.versions && b.versions[(t.name, generation)].content == t.original
  }

  lemma MutationsAreNamed(ms: seq<Mutation>, m: Mutation)
    requires m in ms
    ensures m.item.target.name in MutatedNames(ms)
  {
    var i :| 0 <= i < |ms| && ms[i] == m;
  }

  lemma FinishedKeepsReady(l: Ledger, b: Bucket)
    requires Ready(l, b) && AllRecorded(l)
    ensures Ready(l.(status := RolledBack), b)
  {
  }

  ghost predicate AllRecorded(l: Ledger) {
    forall m :: m in l.mutations ==> Recorded(l.rollbacks, m.item.target.name).Some?
  }

  /** The restored generation was live, if it existed. */
  predicate RestorationLive(l: Ledger, name: string, b: Bucket) {
    var generation := Recorded(l.rollbacks, name);
    generation.Some? && (name, generation.value) in b.versions ==> LiveAt(b, name, generation.value)
  }

  predicate RestorationsLive(l: Ledger, b: Bucket) {
    forall m :: m in l.mutations ==> RestorationLive(l, m.item.target.name, b)
  }

  predicate RecordedUpTo(l: Ledger, order: seq<Mutation>, i: int) {
    forall j :: 0 <= j < i && j < |order| ==> Recorded(l.rollbacks, order[j].item.target.name).Some?
  }

  lemma RecordedExtends(before: Ledger, order: seq<Mutation>, i: nat, after: Ledger)
    requires i < |order| && RecordedUpTo(before, order, i) && Recorded(after.rollbacks, order[i].item.target.name).Some?
    requires after == before || exists g :: after == Recording(before, order[i].item.target.name, g)
    ensures RecordedUpTo(after, order, i + 1)
  {
    RecordingKeepsRecords(before, order[i], after);
  }

  lemma AllAreRecorded(l: Ledger, order: seq<Mutation>)
    requires RecordedUpTo(l, order, |order|) && forall m :: m in order <==> m in l.mutations
    ensures AllRecorded(l)
  {
  }

  /** In order of kind: files before shard manifests before the dataset manifest. */
  ghost predicate KindsAscend(writes: seq<Write>) {
    forall i, j :: 0 <= i < j < |writes| ==>
      var a, b := writes[i].item.target.kind, writes[j].item.target.kind;
      (b.Parquet? ==> a.Parquet?) && (a.DatasetManifest? ==> b.DatasetManifest?)
  }

  /** Likewise for the objects named by these restorations. */
  ghost predicate RestoredInOrder(l: Ledger, rs: seq<Restoration>) {
    forall i, j, m, n :: 0 <= i < j < |rs| && m in l.mutations && n in l.mutations
                         && m.item.target.name == rs[i].name && n.item.target.name == rs[j].name ==>
      var a, b := m.item.target.kind, n.item.target.kind;
      (b.Parquet? ==> a.Parquet?) && (a.DatasetManifest? ==> b.DatasetManifest?)
  }

  /** At most one write has been added, of this item. */
  predicate OneMore(before: seq<Write>, after: seq<Write>, item: Item) {
    && before <= after && |after| <= |before| + 1
    && (|after| > |before| ==> after[|before|].item == item)
  }

  /** The positions, all before `end`, of what was written in the order of rollback. */
  ghost predicate WroteAt(order: seq<Mutation>, end: nat, at: seq<nat>, writes: seq<Write>) {
    && |at| == |writes| && end <= |order|
    && (forall k :: 0 <= k < |at| ==> at[k] < end && writes[k].item == order[at[k]].item)
    && forall k, l :: 0 <= k < l < |at| ==> at[k] < at[l]
  }

  ghost predicate RestoredAt(order: seq<Mutation>, end: nat, at: seq<nat>, rs: seq<Restoration>) {
    && |at| == |rs| && end <= |order|
    && (forall k :: 0 <= k < |at| ==> at[k] < end && rs[k].name == order[at[k]].item.target.name)
    && forall k, l :: 0 <= k < l < |at| ==> at[k] < at[l]
  }

  /** What was written and recorded so far kept the order of rollback. */
  ghost predicate KeepsOrder(start: Ledger, end: nat, wrote: seq<nat>, restored: seq<nat>, writes: seq<Write>,
                             rs: seq<Restoration>) {
    && WroteAt(RollbackOrder(start.mutations), end, wrote, writes)
    && RestoredAt(RollbackOrder(start.mutations), end, restored, rs)
  }

  lemma OrderIsKept(start: Ledger, i: nat, wrote: seq<nat>, restored: seq<nat>, first: seq<Write>, before: seq<Write>,
                    after: seq<Write>, l: Ledger, l': Ledger) returns (wrote': seq<nat>, restored': seq<nat>)
    requires i < |RollbackOrder(start.mutations)| && first <= before && start.rollbacks <= l.rollbacks
    requires KeepsOrder(start, i, wrote, restored, before[|first|..], l.rollbacks[|start.rollbacks|..])
    requires var m := RollbackOrder(start.mutations)[i];
             && OneMore(before, after, m.item)
             && (l' == l || exists g :: l' == Recording(l, m.item.target.name, g))
    ensures first <= after && start.rollbacks <= l'.rollbacks
    ensures KeepsOrder(start, i + 1, wrote', restored', after[|first|..], l'.rollbacks[|start.rollbacks|..])
  {
    var order := RollbackOrder(start.mutations);
    wrote' := WroteOneMore(order, i, wrote, first, before, after);
    restored' := RestoredOneMore(order, i, restored, start, l, l');
  }

  lemma KeptOrderAscends(start: Ledger, end: nat, wrote: seq<nat>, restored: seq<nat>, writes: seq<Write>,
                         rs: seq<Restoration>)
    requires DistinctNames(Targets(start.plan))
    requires forall m :: m in start.mutations ==> m.item.target in Targets(start.plan)
    requires KeepsOrder(start, end, wrote, restored, writes, rs)
    ensures KindsAscend(writes) && RestoredInOrder(start, rs)
  {
    WritesAscend(start.mutations, end, wrote, writes);
    RestorationsAscend(start, end, restored, rs);
  }

  lemma NothingIsUndone(start: Ledger, history: seq<Write>)
    ensures KeepsOrder(start, 0, [], [], history[|history|..], start.rollbacks[|start.rollbacks|..])
    ensures RecordedUpTo(start, RollbackOrder(start.mutations), 0)
  {
  }

  lemma WroteOneMore(order: seq<Mutation>, i: nat, at: seq<nat>, start: seq<Write>, before: seq<Write>,
                     after: seq<Write>) returns (at': seq<nat>)
    requires i < |order| && start <= before && WroteAt(order, i, at, before[|start|..])
    requires OneMore(before, after, order[i].item)
    ensures start <= after && WroteAt(order, i + 1, at', after[|start|..])
  {
    at' := if |after| > |before| then at + [i] else at;
    if |after| > |before| {
      assert after[|start|..] == before[|start|..] + [after[|before|]];
    } else {
      assert after == before;
    }
  }

  lemma RestoredOneMore(order: seq<Mutation>, i: nat, at: seq<nat>, start: Ledger, before: Ledger, after: Ledger)
    returns (at': seq<nat>)
    requires i < |order| && start.rollbacks <= before.rollbacks
    requires RestoredAt(order, i, at, before.rollbacks[|start.rollbacks|..])
    requires after == before || exists g :: after == Recording(before, order[i].item.target.name, g)
    ensures start.rollbacks <= after.rollbacks
    ensures RestoredAt(order, i + 1, at', after.rollbacks[|start.rollbacks|..])
  {
    at' := at;
    if after != before {
      var g :| after == Recording(before, order[i].item.target.name, g);
      var n := |start.rollbacks|;
      assert after.rollbacks[n..] == before.rollbacks[n..] + [Restoration(order[i].item.target.name, g)];
      at' := at + [i];
    }
  }

  lemma WritesAscend(ms: seq<Mutation>, end: nat, at: seq<nat>, writes: seq<Write>)
    requires WroteAt(RollbackOrder(ms), end, at, writes)
    ensures KindsAscend(writes)
  {
    RollbackOrderIsByKind(ms);
  }

  lemma RestorationsAscend(l: Ledger, end: nat, at: seq<nat>, rs: seq<Restoration>)
    requires DistinctNames(Targets(l.plan)) && forall m :: m in l.mutations ==> m.item.target in Targets(l.plan)
    requires RestoredAt(RollbackOrder(l.mutations), end, at, rs)
    ensures RestoredInOrder(l, rs)
  {
    var order := RollbackOrder(l.mutations);
    RollbackOrderIsByKind(l.mutations);
    RollbackOrderCovers(l.mutations);
    DistinctTargets(l.plan);
    forall i, j, m, n | 0 <= i < j < |rs| && m in l.mutations && n in l.mutations
                        && m.item.target.name == rs[i].name && n.item.target.name == rs[j].name
      ensures n.item.target.kind.Parquet? ==> m.item.target.kind.Parquet?
      ensures m.item.target.kind.DatasetManifest? ==> n.item.target.kind.DatasetManifest?
    {
      assert order[at[i]] in order && order[at[j]] in order;
      assert m.item.target == order[at[i]].item.target && n.item.target == order[at[j]].item.target;
    }
  }

  lemma RollbackOrderCovers(ms: seq<Mutation>)
    ensures forall m :: m in RollbackOrder(ms) <==> m in ms
  {
    assert forall m :: m in RollbackOrder(ms) <==> m in multiset(RollbackOrder(ms));
    assert forall m :: m in ms <==> m in multiset(ms);
  }

  lemma RecordingKeepsRecords(before: Ledger, m: Mutation, after: Ledger)
    requires after == before || exists g :: after == Recording(before, m.item.target.name, g)
    ensures forall n :: Recorded(before.rollbacks, n).Some? ==> Recorded(after.rollbacks, n).Some?
  {
    if after != before {
      var g :| after == Recording(before, m.item.target.name, g);
      RecordingAdds(before, m.item.target.name, g);
    }
  }

  /** The live metadata is that of the original version. */
  predicate IsOriginal(current: Metadata, t: Target) {
    if current.digest.None? then current.generation == t.oldGeneration && current.size == t.original.size
    else Shows(current, t.original)
  }

  /** The ledger lists exactly these items, all applied. */
  predicate Progressed(l: Ledger, items: seq<Item>) {
    && |l.mutations| == |items|
    && forall j :: 0 <= j < |items| ==> l.mutations[j].item == items[j] && l.mutations[j].progress.Applied?
  }

  /** The items follow the planned targets in order. */
  predicate InPlanOrder(plan: Plan, items: seq<Item>) {
    |items| <= |Targets(plan)| && forall j :: 0 <= j < |items| ==> items[j].target == Targets(plan)[j]
  }

  lemma NextIsUntouched(plan: Plan, items: seq<Item>, i: nat, l: Ledger)
    requires DistinctNames(Targets(plan)) && InPlanOrder(plan, items) && i < |items| && Progressed(l, items[..i])
    ensures items[i].target in Targets(plan) && Untouched(l, items[i].target)
  {
    forall j | 0 <= j < |l.mutations| ensures l.mutations[j].item.target != items[i].target {
      assert l.mutations[j].item == items[j];
      assert Targets(plan)[j].name != Targets(plan)[i].name;
    }
  }

  predicate AllStaged(items: seq<Item>, b: Bucket) {
    forall j :: 0 <= j < |items| ==> LiveShows(b, items[j].target.name, items[j].staged)
  }

  lemma ProgressExtends(l: Ledger, items: seq<Item>, i: nat, l': Ledger)
    requires i < |items| && Progressed(l, items[..i])
    requires exists p :: l' == Noting(l, items[i], p) && p.Applied?
    ensures Progressed(l', items[..i + 1])
  {
  }

  lemma StagedAccumulates(plan: Plan, items: seq<Item>, i: nat, b: Bucket)
    requires DistinctNames(Targets(plan)) && i < |items| && ValidBucket(b) && AllStaged(items[..i], b)
    requires InPlanOrder(plan, items)
    ensures AllStaged(items[..i + 1], Written(b, items[i].target.name, Version(items[i].staged, true)))
  {
    forall j | 0 <= j < i ensures items[j].target.name != items[i].target.name {
      assert Targets(plan)[j].name != Targets(plan)[i].name;
    }
    forall j | 0 <= j < i ensures LiveShows(b, items[j].target.name, items[j].staged) {
      assert items[..i][j] == items[j];
    }
  }
}
