/** The idempotency protocol of one request key, independent of who stores it.

    A `Cell` is what the shared authority knows about one key; a `Label` is one
    atomic change of it, stamped with the clock reading it was decided on. Clock
    readings are arbitrary integers: nothing below assumes that they are ordered.
    Both stores are proved to move their records along `Path`s of this machine.
 */
module IdempotencyCell {

  datatype Cell =
    | Absent
    | Claimed(fingerprint: string, owner: string, generation: nat, leaseUntil: int)
    | Started(fingerprint: string, owner: string, generation: nat, leaseUntil: int)
    | Completed(fingerprint: string, generation: nat, result: string, until: int)
    | Ambiguous(fingerprint: string, generation: nat)

  datatype Label =
    | Take(fingerprint: string, owner: string, now: int, lease: int)
    | Start(owner: string, generation: nat, now: int, lease: int)
    | Finish(owner: string, generation: nat, result: string, now: int, ttl: int)
    | Drop(owner: string, generation: nat)
    | Doubt(now: int)
    | Vanish(now: int)

  /** The claim with this token and generation is the one the record answers to. */
  predicate Holds(c: Cell, owner: string, generation: nat) {
    (c.Claimed? || c.Started?) && c.owner == owner && c.generation == generation
  }

  predicate Enabled(c: Cell, l: Label) {
    match l
    case Take(fingerprint, _, now, _) =>
      c.Absent? || (c.Claimed? && c.fingerprint == fingerprint && c.leaseUntil <= now)
    case Start(owner, generation, _, _) => c.Claimed? && Holds(c, owner, generation)
    case Finish(owner, generation, _, _, _) => c.Started? && Holds(c, owner, generation)
    case Drop(owner, generation) => c.Claimed? && Holds(c, owner, generation)
    case Doubt(now) => c.Started? && c.leaseUntil <= now
    case Vanish(now) => (c.Claimed? && c.leaseUntil <= now) || (c.Completed? && c.until <= now)
  }

  function After(c: Cell, l: Label): Cell
    requires Enabled(c, l)
  {
    match l
    case Take(fingerprint, owner, now, lease) =>
      Claimed(fingerprint, owner, if c.Absent? then 1 else c.generation + 1, now + lease)
    case Start(_, _, now, lease) => Started(c.fingerprint, c.owner, c.generation, now + lease)
    case Finish(_, _, result, now, ttl) => Completed(c.fingerprint, c.generation, result, now + ttl)
    case Drop(_, _) => Absent
    case Doubt(_) => Ambiguous(c.fingerprint, c.generation)
    case Vanish(_) => Absent
  }

  /** The labels are enabled one after the other and lead from `c` to `c'`. */
  predicate Path(c: Cell, ls: seq<Label>, c': Cell)
    decreases |ls|
  {
    if ls == [] then c' == c else Enabled(c, ls[0]) && Path(After(c, ls[0]), ls[1..], c')
  }

  lemma {:induction false} PathJoin(c: Cell, ls: seq<Label>, mid: Cell, ms: seq<Label>, c': Cell)
    requires Path(c, ls, mid) && Path(mid, ms, c')
    ensures Path(c, ls + ms, c')
    decreases |ls|
  {
    if ls == [] {
      assert ls + ms == ms;
    } else {
      PathJoin(After(c, ls[0]), ls[1..], mid, ms, c');
      assert (ls + ms)[1..] == ls[1..] + ms;
    }
  }

  /** Any path passes through a definite cell before its `i`-th label. */
  lemma {:induction false} PathSplit(c: Cell, ls: seq<Label>, c': Cell, i: nat) returns (mid: Cell)
    requires Path(c, ls, c') && i <= |ls|
    ensures Path(c, ls[..i], mid) && Path(mid, ls[i..], c')
    decreases |ls|
  {
    if i == 0 {
      assert ls[..0] == [] && ls[0..] == ls;
      mid := c;
    } else {
      mid := PathSplit(After(c, ls[0]), ls[1..], c', i - 1);
      assert ls[..i][1..] == ls[1..][..i - 1] && ls[1..][i - 1..] == ls[i..];
    }
  }

  lemma {:induction false} PathIsDeterministic(c: Cell, ls: seq<Label>, d: Cell, d': Cell)
    requires Path(c, ls, d) && Path(c, ls, d')
    ensures d == d'
    decreases |ls|
  {
    if ls == [] {
    } else {
      PathIsDeterministic(After(c, ls[0]), ls[1..], d, d');
    }
  }

  /** A claim or a start is left alone until its lease has run out, and a result until its time to
      live has; then the next one may take over, or the record goes. */
  lemma LeasesAreKept(c: Cell, a: Label, b: Label)
    requires Enabled(c, a) && Enabled(After(c, a), b)
    ensures a.Take? && (b.Take? || b.Vanish?) ==> a.now + a.lease <= b.now
    ensures a.Start? && (b.Doubt? || b.Vanish?) ==> b.Doubt? && a.now + a.lease <= b.now
    ensures a.Finish? ==> b.Vanish? && a.now + a.ttl <= b.now
  {
  }

  // ---------------------------------------------------------------------------
  // At most one delegation per record lifetime
  // ---------------------------------------------------------------------------

  /** Between positions `k` and `m` the result was recorded and later expired. */
  predicate RecordedThenExpired(ls: seq<Label>, k: int, m: int) {
    0 <= k < m < |ls| && ls[k].Finish? && ls[m].Vanish? && ls[k].now + ls[k].ttl <= ls[m].now
  }

  /** `ambiguous` is absorbing: no label at all leaves it. */
  lemma AmbiguousIsAbsorbing(c: Cell, ls: seq<Label>, c': Cell)
    requires c.Ambiguous? && Path(c, ls, c')
    ensures ls == [] && c' == c
  {
  }

  /** A completed record changes only by expiring, at a reading at or past its expiry. */
  lemma CompletedOnlyExpires(c: Cell, ls: seq<Label>, c': Cell)
    requires c.Completed? && Path(c, ls, c')
    ensures ls == [] || (ls[0].Vanish? && c.until <= ls[0].now)
    ensures ls == [] ==> c' == c
  {
  }

  /** How a started record can end up: unchanged, in doubt, completed, or recorded and expired. */
  lemma StartedLeavesOnlyThroughResult(c: Cell, ls: seq<Label>, c': Cell)
    requires c.Started? && Path(c, ls, c')
    ensures || c' == c
            || c' == Ambiguous(c.fingerprint, c.generation)
            || (c'.Completed? && c'.fingerprint == c.fingerprint && c'.generation == c.generation)
            || exists k, m :: RecordedThenExpired(ls, k, m)
  {
    if ls != [] {
      var next := After(c, ls[0]);
      if ls[0].Doubt? {
        AmbiguousIsAbsorbing(next, ls[1..], c');
      } else {
        CompletedOnlyExpires(next, ls[1..], c');
        assert |ls| == 1 || RecordedThenExpired(ls, 0, 1);
      }
    }
  }

  /** Two successful delegation starts are separated by a recorded result and its expiry. */
  lemma DelegationsAreSeparatedByExpiry(c: Cell, ls: seq<Label>, c': Cell, i: nat, j: nat)
    requires Path(c, ls, c') && i < j < |ls| && ls[i].Start? && ls[j].Start?
    ensures exists k, m :: i < k < m < j && RecordedThenExpired(ls, k, m)
  {
    var first := PathSplit(c, ls, c', i);
    var started := After(first, ls[i..][0]);
    assert ls[i..][1..] == ls[i + 1..];
    var second := PathSplit(started, ls[i + 1..], c', j - i - 1);
    var between := ls[i + 1..][..j - i - 1];
    assert ls[i + 1..][j - i - 1..][0] == ls[j];
    assert Enabled(second, ls[j]);
    StartedLeavesOnlyThroughResult(started, between, second);
    var k, m :| RecordedThenExpired(between, k, m);
    assert RecordedThenExpired(ls, k + i + 1, m + i + 1);
  }

  // ---------------------------------------------------------------------------
  // Fencing
  // ---------------------------------------------------------------------------

  predicate ActsFor(l: Label, owner: string, generation: nat) {
    (l.Start? || l.Finish? || l.Drop?) && l.owner == owner && l.generation == generation
  }

  /** A claim that was taken over, released, expired or put in doubt stays powerless
      until its own token is used for a claim again. */
  lemma {:induction false} LostClaimsStayLost(c: Cell, ls: seq<Label>, c': Cell, owner: string, generation: nat)
    requires Path(c, ls, c') && !Holds(c, owner, generation)
    requires forall i :: 0 <= i < |ls| && ls[i].Take? ==> ls[i].owner != owner
    ensures !Holds(c', owner, generation)
    ensures forall i :: 0 <= i < |ls| ==> !ActsFor(ls[i], owner, generation)
    decreases |ls|
  {
    if ls == [] {
    } else {
      LostClaimsStayLost(After(c, ls[0]), ls[1..], c', owner, generation);
      forall i | 0 <= i < |ls| ensures !ActsFor(ls[i], owner, generation) {
        assert i > 0 ==> ls[i] == ls[1..][i - 1];
      }
    }
  }

  /** Token freshness is needed: generations restart at 1 once a record is deleted, so a
      released claim is revived by a later claim that reuses its token. */
  lemma ReusedTokenRevivesReleasedClaim(fingerprint: string, owner: string, now: int, lease: int)
    ensures var released := Path(Claimed(fingerprint, owner, 1, now + lease), [Drop(owner, 1)], Absent);
            var again := Path(Absent, [Take(fingerprint, owner, now, lease)],
                              Claimed(fingerprint, owner, 1, now + lease));
            released && again && Holds(Claimed(fingerprint, owner, 1, now + lease), owner, 1)
  {
    assert Path(Absent, [Drop(owner, 1)][1..], Absent);
    assert [Take(fingerprint, owner, now, lease)][1..] == [];
  }

  function Takes(ls: seq<Label>): nat {
    if ls == [] then 0 else (if ls[0].Take? then 1 else 0) + Takes(ls[1..])
  }

  /** Within one record lifetime the fingerprint is fixed and the generation counts takeovers. */
  lemma {:induction false} GenerationCountsTakeovers(c: Cell, ls: seq<Label>, c': Cell)
    requires Path(c, ls, c') && !c.Absent?
    requires forall i :: 0 <= i < |ls| ==> !ls[i].Vanish? && !ls[i].Drop?
    ensures !c'.Absent? && c'.fingerprint == c.fingerprint
    ensures c'.generation == c.generation + Takes(ls)
    decreases |ls|
  {
    if ls == [] {
    } else {
      GenerationCountsTakeovers(After(c, ls[0]), ls[1..], c');
    }
  }

  // ---------------------------------------------------------------------------
  // The operations of an authority, as label sequences
  // ---------------------------------------------------------------------------

  /** What a claim request does to a live cell. */
  function ClaimLabels(c: Cell, fingerprint: string, owner: string, now: int, lease: int): seq<Label> {
    if c.Absent? then [Take(fingerprint, owner, now, lease)]
    else if c.fingerprint != fingerprint || c.Completed? || c.Ambiguous? || now < c.leaseUntil then []
    else if c.Started? then [Doubt(now)]
    else [Take(fingerprint, owner, now, lease)]
  }

  lemma ClaimLabelsLead(c: Cell, fingerprint: string, owner: string, now: int, lease: int)
    ensures var ls := ClaimLabels(c, fingerprint, owner, now, lease);
            |ls| <= 1 && (ls != [] ==> Enabled(c, ls[0]))
  {
  }

  function AfterClaimLabels(c: Cell, fingerprint: string, owner: string, now: int, lease: int): Cell {
    var ls := ClaimLabels(c, fingerprint, owner, now, lease);
    if ls == [] then c else ClaimLabelsLead(c, fingerprint, owner, now, lease); After(c, ls[0])
  }

  /** A key whose time to live is not positive is gone at once. */
  function TtlLabels(milliseconds: int, now: int): seq<Label> {
    if milliseconds <= 0 then [Vanish(now)] else []
  }

  /** A reader that notices an outlived start puts the record in doubt. */
  function DoubtLabels(c: Cell, fingerprint: string, now: int): seq<Label> {
    if c.Started? && c.fingerprint == fingerprint && c.leaseUntil <= now then [Doubt(now)] else []
  }

  /** A reader that notices an expired result deletes the record. */
  function PurgeLabels(c: Cell, now: int): seq<Label> {
    if c.Completed? && c.until <= now then [Vanish(now)] else []
  }
}
