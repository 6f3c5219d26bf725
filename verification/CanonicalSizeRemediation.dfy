/** The write-ahead ledger around a generation-conditional rewrite of live objects.

    Every external operation (a store call or a ledger write) is one `tick`: first other
    writers act, then the operation is carried out, and it may raise or kill the process
    before or after taking effect, as the arbitrary schedule `weather` says.
 */
module CanonicalSizeRemediation {
  import opened Ordering
  import opened VersionedBucket

  datatype Kind = Parquet | ShardManifest | DatasetManifest

  /** One planned object: what it is, and the version the plan was made from. */
  datatype Target = Target(kind: Kind, name: string, oldGeneration: nat, original: Content)

  /** A planned object together with the content staged for it. */
  datatype Item = Item(target: Target, staged: Content)

  /** `objects` are the rewritten files and then the shard manifests, in the order of application. */
  datatype Plan = Plan(objects: seq<Item>, dataset: Target)

  datatype Progress = Pending | Applied(newGeneration: nat)

  datatype Mutation = Mutation(item: Item, progress: Progress)

  datatype Restoration = Restoration(name: string, generation: nat)

  datatype Status = Applying | AllApplied | ApplyFailed | RollingBack | RolledBack | RollbackFailed

  datatype Ledger = Ledger(plan: Plan, status: Status, mutations: seq<Mutation>, rollbacks: seq<Restoration>)

  datatype Error = Injected | NotFound | GenerationConflict | ChecksumMismatch | InvariantViolation
                 | AmbiguousRollbackState | RemediationError

  datatype Result<T> = Done(value: T) | Threw(error: Error) | Killed

  /** A write by this program: which version it replaced, and whether the ledger knew. */
  datatype Write = Write(item: Item, replaced: nat, ledgered: bool)

  function Targets(plan: Plan): seq<Target> {
    seq(|plan.objects|, i requires 0 <= i < |plan.objects| => plan.objects[i].target) + [plan.dataset]
  }

  predicate DistinctNames(ts: seq<Target>) {
    forall i, j :: 0 <= i < j < |ts| ==> ts[i].name != ts[j].name
  }

  function MutatedNames(ms: seq<Mutation>): set<string> {
    set i | 0 <= i < |ms| :: ms[i].item.target.name
  }

  predicate InLedger(disk: Option<Ledger>, name: string) {
    disk.Some? && name in MutatedNames(disk.value.mutations)
  }

  /** The restoration recorded for an object, the latest one if there are several. */
  function Recorded(rs: seq<Restoration>, name: string): Option<nat> {
    if rs == [] then None
    else if rs[|rs| - 1].name == name then Some(rs[|rs| - 1].generation)
    else Recorded(rs[..|rs| - 1], name)
  }

  /** Files before shard manifests before the dataset manifest, then by name. */
  function Priority(k: Kind): nat {
    match k
    case Parquet => 0
    case ShardManifest => 1
    case DatasetManifest => 2
  }

  predicate Precedes(a: Mutation, b: Mutation) {
    var x, y := a.item.target, b.item.target;
    Priority(x.kind) < Priority(y.kind) || (x.kind == y.kind && LexLe(x.name, y.name))
  }

  function RollbackOrder(ms: seq<Mutation>): seq<Mutation> {
    Sort(ms, (a, b) => Precedes(a, b))
  }

  /** Rollback handles every mutation exactly once, and the dataset manifest last. */
  lemma RollbackOrderIsByKind(ms: seq<Mutation>)
    ensures multiset(RollbackOrder(ms)) == multiset(ms)
    ensures |RollbackOrder(ms)| == |ms|
    ensures forall i, j :: 0 <= i < j < |ms| ==>
              var a, b := RollbackOrder(ms)[i].item.target, RollbackOrder(ms)[j].item.target;
              && (b.kind.Parquet? ==> a.kind.Parquet?) && (a.kind.DatasetManifest? ==> b.kind.DatasetManifest?)
              && (a.kind == b.kind ==> LexLe(a.name, b.name))
  {
    var le := (a, b) => Precedes(a, b);
    forall a, b ensures le(a, b) || le(b, a) {
      LexTotal(a.item.target.name, b.item.target.name);
    }
    forall a, b, c | le(a, b) && le(b, c) ensures le(a, c) {
      if LexLe(a.item.target.name, b.item.target.name) && LexLe(b.item.target.name, c.item.target.name) {
        LexTransitive(a.item.target.name, b.item.target.name, c.item.target.name);
      }
    }
    SortAscends(ms, le);
    var sorted := RollbackOrder(ms);
    forall i, j | 0 <= i < j < |ms|
      ensures Precedes(sorted[i], sorted[j])
    {
      assert le(sorted[i], sorted[j]);
    }
  }

  // ---------------------------------------------------------------------------
  // What a ledger promises about the bucket
  // ---------------------------------------------------------------------------

  /** The plan was read from this bucket: each old generation exists with its checksum. */
  predicate PlanMatches(plan: Plan, b: Bucket) {
    && DistinctNames(Targets(plan))
    && forall t :: t in Targets(plan) ==>
         (t.name, t.oldGeneration) in b.versions && b.versions[(t.name, t.oldGeneration)] == Version(t.original, true)
  }

  /** Recorded new generations hold exactly the staged content. */
  predicate HonestLedger(l: Ledger, b: Bucket) {
    forall i :: 0 <= i < |l.mutations| && l.mutations[i].progress.Applied? ==>
      var m := l.mutations[i];
      var key := (m.item.target.name, m.progress.newGeneration);
      key in b.versions && b.versions[key] == Version(m.item.staged, true)
  }

  predicate LiveShows(b: Bucket, name: string, c: Content) {
    ValidBucket(b) && name in b.live && LiveVersion(b, name) == Version(c, true)
  }

  /** A mutation whose object rollback knows how to deal with. */
  predicate Recoverable(m: Mutation, b: Bucket) {
    var t := m.item.target;
    || LiveShows(b, t.name, t.original)
    || (LiveShows(b, t.name, m.item.staged) && (m.progress.Applied? ==> b.live[t.name] == m.progress.newGeneration))
  }

  /** Everything a rollback needs to know about the ledger in hand. */
  ghost predicate Ready(l: Ledger, b: Bucket) {
    && ValidBucket(b) && PlanMatches(l.plan, b)
    && (forall i :: 0 <= i < |l.mutations| ==>
          l.mutations[i].item.target in Targets(l.plan) && Recoverable(l.mutations[i], b))
    && (forall i, j :: 0 <= i < j < |l.mutations| ==>
          l.mutations[i].item.target.name != l.mutations[j].item.target.name)
    && (forall t :: t in Targets(l.plan) && (forall m :: m in l.mutations ==> m.item.target != t) ==>
          t.name in b.live && b.live[t.name] == t.oldGeneration)
    && (forall t :: t in Targets(l.plan) && Recorded(l.rollbacks, t.name).Some? ==>
          LiveShows(b, t.name, t.original) && b.live[t.name] == Recorded(l.rollbacks, t.name).value)
    && (l.status == RolledBack ==> forall m :: m in l.mutations ==> Recorded(l.rollbacks, m.item.target.name).Some?)
  }

  predicate AllRestored(plan: Plan, b: Bucket) {
    forall t :: t in Targets(plan) ==> LiveShows(b, t.name, t.original)
  }

  /** Once every mutation has a restoration record, the whole plan is undone. */
  lemma FullyRecordedMeansRestored(l: Ledger, b: Bucket)
    requires Ready(l, b)
    requires forall m :: m in l.mutations ==> Recorded(l.rollbacks, m.item.target.name).Some?
    ensures AllRestored(l.plan, b)
  {
    forall t | t in Targets(l.plan) ensures LiveShows(b, t.name, t.original) {
      if m :| m in l.mutations && m.item.target == t {
        assert Recorded(l.rollbacks, t.name).Some?;
      }
    }
  }

  // ---------------------------------------------------------------------------
  // How single steps keep a ledger ready
  // ---------------------------------------------------------------------------

  predicate Untouched(l: Ledger, t: Target) {
    forall i :: 0 <= i < |l.mutations| ==> l.mutations[i].item.target != t
  }

  lemma StatusKeepsReady(l: Ledger, b: Bucket, status: Status)
    requires Ready(l, b) && status != RolledBack
    ensures Ready(l.(status := status), b)
  {
  }

  function Noting(l: Ledger, item: Item, progress: Progress): Ledger {
    l.(mutations := l.mutations + [Mutation(item, progress)])
  }

  lemma PendingKeepsReady(l: Ledger, b: Bucket, item: Item)
    requires Ready(l, b) && l.status != RolledBack && item.target in Targets(l.plan) && Untouched(l, item.target)
    ensures Ready(Noting(l, item, Pending), b)
  {
    var l' := Noting(l, item, Pending);
    forall t | t in Targets(l.plan) && (forall m :: m in l'.mutations ==> m.item.target != t)
      ensures t.name in b.live && b.live[t.name] == t.oldGeneration
    {
      forall m | m in l.mutations ensures m.item.target != t {
        assert m in l'.mutations;
      }
    }
    assert forall m :: m in l.mutations ==> m.item.target != item.target;
    assert LiveShows(b, item.target.name, item.target.original);
    DistinctTargets(l.plan);
  }

  lemma DistinctTargets(plan: Plan)
    requires DistinctNames(Targets(plan))
    ensures forall t, u :: t in Targets(plan) && u in Targets(plan) && t.name == u.name ==> t == u
  {
  }

  lemma UploadKeepsReady(l: Ledger, b: Bucket, item: Item)
    requires Ready(Noting(l, item, Pending), b) && l.rollbacks == [] && l.status != RolledBack
    ensures Ready(Noting(l, item, Pending), Written(b, item.target.name, Version(item.staged, true)))
  {
    DistinctTargets(l.plan);
    var l' := Noting(l, item, Pending);
    var b' := Written(b, item.target.name, Version(item.staged, true));
    assert l'.mutations[|l.mutations|] == Mutation(item, Pending);
    forall i | 0 <= i < |l'.mutations| ensures Recoverable(l'.mutations[i], b') {
      assert Recoverable(l'.mutations[i], b);
    }
    assert Mutation(item, Pending) in l'.mutations;
  }

  lemma AppliedKeepsReady(l: Ledger, b: Bucket, item: Item, generation: nat)
    requires Ready(Noting(l, item, Pending), b) && l.status != RolledBack
    requires LiveShows(b, item.target.name, item.staged) && b.live[item.target.name] == generation
    ensures Ready(Noting(l, item, Applied(generation)), b)
  {
    var p, a := Noting(l, item, Pending), Noting(l, item, Applied(generation));
    forall i | 0 <= i < |a.mutations|
      ensures a.mutations[i].item.target in Targets(l.plan) && Recoverable(a.mutations[i], b)
    {
      assert p.mutations[i].item == a.mutations[i].item;
    }
    forall i, j | 0 <= i < j < |a.mutations|
      ensures a.mutations[i].item.target.name != a.mutations[j].item.target.name
    {
      assert p.mutations[i].item == a.mutations[i].item && p.mutations[j].item == a.mutations[j].item;
    }
    forall t | t in Targets(l.plan) && (forall m :: m in a.mutations ==> m.item.target != t)
      ensures t.name in b.live && b.live[t.name] == t.oldGeneration
    {
      forall m | m in p.mutations ensures m.item.target != t {
        assert Mutation(item, Applied(generation)) in a.mutations;
        assert m in l.mutations || m.item == item;
        assert m in l.mutations ==> m in a.mutations;
      }
    }
  }

  lemma RestoreKeepsRecoverable(l: Ledger, b: Bucket, m: Mutation)
    requires Ready(l, b) && m in l.mutations
    ensures var b' := Written(b, m.item.target.name, Version(m.item.target.original, true));
            forall i :: 0 <= i < |l.mutations| ==> Recoverable(l.mutations[i], b')
  {
    DistinctTargets(l.plan);
    var b' := Written(b, m.item.target.name, Version(m.item.target.original, true));
    forall i | 0 <= i < |l.mutations| ensures Recoverable(l.mutations[i], b') {
      assert Recoverable(l.mutations[i], b);
    }
  }

  lemma RestoreKeepsReady(l: Ledger, b: Bucket, m: Mutation)
    requires Ready(l, b) && m in l.mutations && Recorded(l.rollbacks, m.item.target.name).None?
    ensures Ready(l, Written(b, m.item.target.name, Version(m.item.target.original, true)))
  {
    DistinctTargets(l.plan);
    RestoreKeepsRecoverable(l, b, m);
    var t, b' := m.item.target, Written(b, m.item.target.name, Version(m.item.target.original, true));
    forall u | u in Targets(l.plan) && (forall k :: k in l.mutations ==> k.item.target != u)
      ensures u.name in b'.live && b'.live[u.name] == u.oldGeneration
    {
      assert u.name != t.name;
    }
    forall u | u in Targets(l.plan) && Recorded(l.rollbacks, u.name).Some?
      ensures LiveShows(b', u.name, u.original) && b'.live[u.name] == Recorded(l.rollbacks, u.name).value
    {
      assert u.name != t.name;
    }
  }

  function Recording(l: Ledger, name: string, generation: nat): Ledger {
    l.(rollbacks := l.rollbacks + [Restoration(name, generation)])
  }

  lemma RecordingAdds(l: Ledger, name: string, generation: nat)
    ensures forall n :: Recorded(Recording(l, name, generation).rollbacks, n) ==
                        if n == name then Some(generation) else Recorded(l.rollbacks, n)
  {
    var rs := l.rollbacks + [Restoration(name, generation)];
    assert rs[..|rs| - 1] == l.rollbacks;
  }

  lemma RecordingKeepsReady(l: Ledger, b: Bucket, m: Mutation)
    requires Ready(l, b) && m in l.mutations && LiveShows(b, m.item.target.name, m.item.target.original)
    ensures Ready(Recording(l, m.item.target.name, b.live[m.item.target.name]), b)
  {
    DistinctTargets(l.plan);
    RecordingAdds(l, m.item.target.name, b.live[m.item.target.name]);
  }

  /** The safety of the writes so far: each replaced the planned generation or a version
      holding the staged content, and each object was in the ledger before it was written. */
  ghost predicate SafeWrites(history: seq<Write>, b: Bucket) {
    forall i :: 0 <= i < |history| ==>
      var e := history[i];
      var key := (e.item.target.name, e.replaced);
      && e.ledgered
      && (e.replaced == e.item.target.oldGeneration || (key in b.versions && b.versions[key].content == e.item.staged))
  }

  /** Every object written so far is in the ledger. */
  ghost predicate WrittenAhead(disk: Option<Ledger>, history: seq<Write>) {
    forall i :: 0 <= i < |history| ==> InLedger(disk, history[i].item.target.name)
  }

  lemma NotingAddsAName(l: Ledger, item: Item, progress: Progress)
    ensures MutatedNames(Noting(l, item, progress).mutations) == MutatedNames(l.mutations) + {item.target.name}
  {
    var ms := Noting(l, item, progress).mutations;
    forall name | name in MutatedNames(l.mutations) ensures name in MutatedNames(ms) {
      var i :| 0 <= i < |l.mutations| && l.mutations[i].item.target.name == name;
      assert ms[i] == l.mutations[i];
    }
    assert ms[|l.mutations|].item == item;
  }
}
