/** Any number of Coordinator workers handling requests that map to one record key.

    A worker runs `handle`; every call it makes to the authority is one atomic step that may
    be lost on the way in or on the way out, and a worker may fail between any two steps.
    `life` numbers the lifetimes of the record (a lifetime begins when a claim finds no
    record); it and the bookkeeping fields `launched`, `calls`, `recorded` and `replies`
    exist only to state what is proved.
 */
module ProgrammaticCoordinator {
  import opened IdempotencyCell
  import opened IdempotencyContract

  datatype Answer = Answer(requestId: string, body: string)

  /** The pure functions the protocol relies on: the request id a fingerprint stands for
      (digests are injective) and the JSON codec (an inverse pair). */
  datatype Setting = Setting(requestIdOf: string -> string, dumps: Answer -> string, loads: string -> Option<Answer>,
                             leaseMs: int, completedTtlMs: int)

  ghost predicate Lawful(x: Setting) {
    forall a :: x.loads(x.dumps(a)) == Some(a)
  }

  datatype Failure =
    | ConflictingReuse | BackendUnavailable | AmbiguousOutcome | StillInProgress | Cancelled
    | StateInvalid | IdentityMismatch | Crashed

  datatype Worker =
    | Fresh(fingerprint: string)
    | Polling(fingerprint: string)
    | Holding(fingerprint: string, owner: string, generation: nat, life: nat)
    | Cleared(fingerprint: string, owner: string, generation: nat, life: nat)
    | Delegating(fingerprint: string, owner: string, generation: nat, life: nat)
    | Writing(fingerprint: string, owner: string, generation: nat, life: nat, answer: Answer)
    | Returned(fingerprint: string, answer: Answer)
    | Failed(fingerprint: string, failure: Failure)
  {
    predicate Active() {
      Holding? || Cleared? || Delegating? || Writing?
    }
  }

  datatype System = System(
    cell: Cell,
    life: nat,
    used: set<string>,
    workers: map<nat, Worker>,
    launched: map<nat, nat>,
    calls: multiset<nat>,
    recorded: set<(nat, Answer)>,
    replies: set<(nat, Answer)>)

  /** How a call to the authority can go; only a delivered one answers the worker. */
  datatype Fate = Delivered | RequestLost | ReplyLost

  datatype Step =
    | Arrive(w: nat, fingerprint: string)
    | AskClaim(w: nat, owner: string, now: int, fate: Fate)
    | Poll(w: nat, fate: Fate)
    | GiveUp(w: nat, failure: Failure)
    | Release(w: nat, fate: Fate)
    | Launch(w: nat, now: int, fate: Fate)
    | Delegate(w: nat)
    | Compose(w: nat, answer: Answer)
    | Record(w: nat, now: int, fate: Fate)
    | Crash(w: nat)
    | Authority(change: Label)

  const START := System(Absent, 0, {}, map[], map[], multiset{}, {}, {})

  /** The code point at which each step can be taken. Owner tokens are fresh. */
  predicate Possible(x: Setting, s: System, st: Step) {
    match st
    case Arrive(w, _) => w !in s.workers
    case AskClaim(w, owner, _, _) => w in s.workers && s.workers[w].Fresh? && owner !in s.used
    case Poll(w, _) => w in s.workers && s.workers[w].Polling?
    case GiveUp(w, failure) =>
      w in s.workers && s.workers[w].Polling? && (failure.StillInProgress? || failure.Cancelled?)
    case Release(w, _) => w in s.workers && s.workers[w].Holding?
    case Launch(w, _, _) => w in s.workers && s.workers[w].Holding?
    case Delegate(w) => w in s.workers && s.workers[w].Cleared?
    case Compose(w, answer) =>
      && w in s.workers && s.workers[w].Delegating?
      && answer.requestId == x.requestIdOf(s.workers[w].fingerprint)
    case Record(w, _, _) => w in s.workers && s.workers[w].Writing?
    case Crash(w) => w in s.workers && (s.workers[w].Active() || s.workers[w].Fresh? || s.workers[w].Polling?)
    case Authority(change) => (change.Vanish? || change.Doubt?) && Enabled(s.cell, change)
  }

  function Put(s: System, w: nat, worker: Worker): System {
    s.(workers := s.workers[w := worker])
  }

  /** A completed record is decoded, checked for identity and returned. */
  function ReturnCompleted(x: Setting, s: System, w: nat, fingerprint: string, json: string): System {
    var answer := x.loads(json);
    if answer.None? then Put(s, w, Failed(fingerprint, StateInvalid))
    else if answer.value.requestId != x.requestIdOf(fingerprint) then Put(s, w, Failed(fingerprint, IdentityMismatch))
    else Put(s, w, Returned(fingerprint, answer.value)).(replies := s.replies + {(s.life, answer.value)})
  }

  /** What a worker does with the authority's word on a record it does not own. */
  function Heed(x: Setting, s: System, w: nat, fingerprint: string, claim: Claim): System {
    if claim.status.AlreadyCompleted? then
      if claim.result.None? then Put(s, w, Failed(fingerprint, StateInvalid))
      else ReturnCompleted(x, s, w, fingerprint, claim.result.value)
    else if claim.status.InDoubt? then Put(s, w, Failed(fingerprint, AmbiguousOutcome))
    else Put(s, w, Polling(fingerprint))
  }

  /** The system once the authority has processed a claim and before its reply is read. */
  function Processed(x: Setting, s: System, w: nat, owner: string, now: int): System
    requires w in s.workers
  {
    s.(cell := AfterClaimLabels(s.cell, s.workers[w].fingerprint, owner, now, x.leaseMs),
       used := s.used + {owner}, life := if s.cell.Absent? then s.life + 1 else s.life)
  }

  /** The worker acts on the reply to a claim that the authority moved from `before` on. */
  function ReadReply(x: Setting, before: Cell, moved: System, w: nat, owner: string, ls: seq<Label>, fate: Fate): System
    requires w in moved.workers && (Conflicts(before, moved.workers[w].fingerprint) || !moved.cell.Absent?)
  {
    var fingerprint := moved.workers[w].fingerprint;
    var reply := ClaimReply(before, ls, moved.cell, fingerprint, owner);
    if !fate.Delivered? then Put(moved, w, Failed(fingerprint, BackendUnavailable))
    else if reply.Raised? then Put(moved, w, Failed(fingerprint, ConflictingReuse))
    else if reply.claim.status.Acquired? then
      Put(moved, w, Holding(fingerprint, owner, reply.claim.generation, moved.life))
    else Heed(x, moved, w, fingerprint, reply.claim)
  }

  function DoClaim(x: Setting, s: System, w: nat, owner: string, now: int, fate: Fate): System
    requires w in s.workers
  {
    var fingerprint := s.workers[w].fingerprint;
    if fate.RequestLost? then Put(s, w, Failed(fingerprint, BackendUnavailable)).(used := s.used + {owner})
    else ReadReply(x, s.cell, Processed(x, s, w, owner, now), w, owner,
                   ClaimLabels(s.cell, fingerprint, owner, now, x.leaseMs), fate)
  }

  function DoPoll(x: Setting, s: System, w: nat, fate: Fate): System
    requires w in s.workers
  {
    var fingerprint := s.workers[w].fingerprint;
    if !fate.Delivered? then Put(s, w, Failed(fingerprint, BackendUnavailable))
    else if s.cell.Absent? then Put(s, w, Failed(fingerprint, StateInvalid))
    else if s.cell.fingerprint != fingerprint then Put(s, w, Failed(fingerprint, ConflictingReuse))
    else Heed(x, s, w, fingerprint, Decision(s.cell))
  }

  /** The worker's claim still entitles it to act on the record. */
  predicate Owns(c: Cell, worker: Worker)
    requires worker.Active()
  {
    (c.Claimed? || c.Started?) && c.fingerprint == worker.fingerprint && Holds(c, worker.owner, worker.generation)
  }

  function DoRelease(s: System, w: nat, fate: Fate): System
    requires w in s.workers && s.workers[w].Holding?
  {
    var worker := s.workers[w];
    var failed := Put(s, w, Failed(worker.fingerprint, if fate.Delivered? then Cancelled else BackendUnavailable));
    if fate.RequestLost? then failed
    else if s.cell.Claimed? && Owns(s.cell, worker) then
      failed.(cell := After(s.cell, Drop(worker.owner, worker.generation)))
    else Put(s, w, Failed(worker.fingerprint, BackendUnavailable))
  }

  function DoLaunch(x: Setting, s: System, w: nat, now: int, fate: Fate): System
    requires w in s.workers && s.workers[w].Holding?
  {
    var worker := s.workers[w];
    var failed := Put(s, w, Failed(worker.fingerprint, if fate.Delivered? then StateInvalid else BackendUnavailable));
    if fate.RequestLost? || !(s.cell.Claimed? && Owns(s.cell, worker)) then failed
    else
      var next := if fate.ReplyLost? then failed
                  else Put(s, w, Cleared(worker.fingerprint, worker.owner, worker.generation, worker.life));
      next.(cell := After(s.cell, Start(worker.owner, worker.generation, now, x.leaseMs)),
            launched := s.launched[worker.life := w])
  }

  function DoRecord(x: Setting, s: System, w: nat, now: int, fate: Fate): System
    requires w in s.workers && s.workers[w].Writing?
  {
    var worker := s.workers[w];
    var failed := Put(s, w, Failed(worker.fingerprint, if fate.Delivered? then StateInvalid else BackendUnavailable));
    if fate.RequestLost? || !(s.cell.Started? && Owns(s.cell, worker)) then failed
    else
      var finish := Finish(worker.owner, worker.generation, x.dumps(worker.answer), now, x.completedTtlMs);
      var done := failed.(cell := After(s.cell, finish), recorded := s.recorded + {(worker.life, worker.answer)});
      if fate.ReplyLost? then done
      else
        Put(done, w, Returned(worker.fingerprint, worker.answer))
          .(replies := s.replies + {(worker.life, worker.answer)})
  }

  function Do(x: Setting, s: System, st: Step): System
    requires Possible(x, s, st)
  {
    match st
    case Arrive(w, fingerprint) => Put(s, w, Fresh(fingerprint))
    case AskClaim(w, owner, now, fate) => DoClaim(x, s, w, owner, now, fate)
    case Poll(w, fate) => DoPoll(x, s, w, fate)
    case GiveUp(w, failure) => Put(s, w, Failed(s.workers[w].fingerprint, failure))
    case Release(w, fate) => DoRelease(s, w, fate)
    case Launch(w, now, fate) => DoLaunch(x, s, w, now, fate)
    case Delegate(w) =>
      var worker := s.workers[w];
      Put(s, w, Delegating(worker.fingerprint, worker.owner, worker.generation, worker.life))
        .(calls := s.calls + multiset{worker.life})
    case Compose(w, answer) =>
      var worker := s.workers[w];
      Put(s, w, Writing(worker.fingerprint, worker.owner, worker.generation, worker.life, answer))
    case Record(w, now, fate) => DoRecord(x, s, w, now, fate)
    case Crash(w) => Put(s, w, Failed(s.workers[w].fingerprint, Crashed))
    case Authority(change) => s.(cell := After(s.cell, change))
  }

  predicate Run(x: Setting, s: System, steps: seq<Step>, s': System)
    decreases |steps|
  {
    if steps == [] then s' == s else Possible(x, s, steps[0]) && Run(x, Do(x, s, steps[0]), steps[1..], s')
  }

  lemma {:induction false} RunGrows(x: Setting, s: System, steps: seq<Step>, s': System, st: Step)
    requires Run(x, s, steps, s') && Possible(x, s', st)
    ensures Run(x, s, steps + [st], Do(x, s', st))
    decreases |steps|
  {
    if steps == [] {
      assert [st][1..] == [];
    } else {
      RunGrows(x, Do(x, s, steps[0]), steps[1..], s', st);
      assert (steps + [st])[1..] == steps[1..] + [st];
    }
  }

  /** Every run ends with its last step. */
  lemma {:induction false} RunSplits(x: Setting, s: System, steps: seq<Step>, s': System) returns (mid: System)
    requires Run(x, s, steps, s') && steps != []
    ensures var k := |steps| - 1;
            Run(x, s, steps[..k], mid) && Possible(x, mid, steps[k]) && s' == Do(x, mid, steps[k])
    decreases |steps|
  {
    if |steps| == 1 {
      assert steps[1..] == [] && steps[..0] == [];
      mid := s;
    } else {
      mid := RunSplits(x, Do(x, s, steps[0]), steps[1..], s');
      var k := |steps| - 1;
      assert steps[..k][1..] == steps[1..][..k - 1];
    }
  }

  /** What follows the first part of a run leads from where that part ended. */
  lemma {:induction false} RunContinues(
    x: Setting, s: System, steps: seq<Step>, mid: System, more: seq<Step>, s': System)
    requires Run(x, s, steps, mid) && Run(x, s, steps + more, s')
    ensures Run(x, mid, more, s')
    decreases |steps|
  {
    if steps == [] {
      assert steps + more == more;
    } else {
      assert (steps + more)[1..] == steps[1..] + more;
      RunContinues(x, Do(x, s, steps[0]), steps[1..], mid, more, s');
    }
  }

  // ---------------------------------------------------------------------------
  // Whom a step concerns
  // ---------------------------------------------------------------------------

  function Actor(st: Step): Option<nat> {
    match st
    case Authority(_) => None
    case _ => Some(st.w)
  }

  /** Of all workers only this one moved; it kept its digest, and its token unless it drew one of these. */
  ghost predicate Moves(s: System, s': System, w: nat, tokens: set<string>) {
    && w in s.workers && w in s'.workers && s'.workers == s.workers[w := s'.workers[w]]
    && s'.workers[w].fingerprint == s.workers[w].fingerprint && s'.used == s.used + tokens
    && (s'.workers[w].Active() ==>
          s'.workers[w].owner in tokens || (s.workers[w].Active() && s'.workers[w].owner == s.workers[w].owner))
  }

  lemma HeedMoves(x: Setting, s: System, w: nat, fingerprint: string, claim: Claim)
    requires w in s.workers && s.workers[w].fingerprint == fingerprint
    ensures Moves(s, Heed(x, s, w, fingerprint, claim), w, {})
  {
  }

  lemma ClaimMoves(x: Setting, s: System, w: nat, owner: string, now: int, fate: Fate)
    requires w in s.workers
    ensures Moves(s, DoClaim(x, s, w, owner, now, fate), w, {owner})
  {
    if !fate.RequestLost? {
      var moved := Processed(x, s, w, owner, now);
      if !moved.cell.Absent? {
        HeedMoves(x, moved, w, s.workers[w].fingerprint, Decision(moved.cell));
      }
    }
  }

  lemma PollMoves(x: Setting, s: System, w: nat, fate: Fate)
    requires w in s.workers
    ensures Moves(s, DoPoll(x, s, w, fate), w, {})
  {
    if !s.cell.Absent? {
      HeedMoves(x, s, w, s.workers[w].fingerprint, Decision(s.cell));
    }
  }

  lemma ReleaseMoves(s: System, w: nat, fate: Fate)
    requires w in s.workers && s.workers[w].Holding?
    ensures Moves(s, DoRelease(s, w, fate), w, {})
  {
  }

  lemma LaunchMoves(x: Setting, s: System, w: nat, now: int, fate: Fate)
    requires w in s.workers && s.workers[w].Holding?
    ensures Moves(s, DoLaunch(x, s, w, now, fate), w, {})
  {
  }

  lemma RecordMoves(x: Setting, s: System, w: nat, now: int, fate: Fate)
    requires w in s.workers && s.workers[w].Writing?
    ensures Moves(s, DoRecord(x, s, w, now, fate), w, {})
  {
  }

  /** A step moves the worker who takes it and nobody else. */
  lemma StepMoves(x: Setting, s: System, st: Step)
    requires Possible(x, s, st) && !st.Arrive? && !st.Authority?
    ensures Moves(s, Do(x, s, st), st.w, if st.AskClaim? then {st.owner} else {})
  {
    match st
    case AskClaim(w, owner, now, fate) => ClaimMoves(x, s, w, owner, now, fate);
    case Poll(w, fate) => PollMoves(x, s, w, fate);
    case Release(w, fate) => ReleaseMoves(s, w, fate);
    case Launch(w, now, fate) => LaunchMoves(x, s, w, now, fate);
    case Record(w, now, fate) => RecordMoves(x, s, w, now, fate);
    case _ =>
  }

  /** Only a delegation is counted as a transport call. */
  lemma StepCalls(x: Setting, s: System, st: Step)
    requires Possible(x, s, st)
    ensures Do(x, s, st).calls == s.calls + if st.Delegate? then multiset{s.workers[st.w].life} else multiset{}
  {
  }

  // ---------------------------------------------------------------------------
  // What every step keeps
  // ---------------------------------------------------------------------------

  ghost predicate TokensInv(s: System) {
    && (s.cell.Claimed? || s.cell.Started? ==> s.cell.owner in s.used)
    && (forall w :: w in s.workers && s.workers[w].Active() ==>
          s.workers[w].owner in s.used && s.workers[w].life <= s.life)
    && (forall w, v :: w in s.workers && v in s.workers && w != v && s.workers[w].Active() && s.workers[v].Active() ==>
          s.workers[w].owner != s.workers[v].owner)
    && (s.cell.Claimed? || s.cell.Started? ==>
          forall w :: w in s.workers && s.workers[w].Active() && s.cell.owner == s.workers[w].owner ==>
            s.workers[w].life == s.life)
  }

  ghost predicate LaunchInv(s: System) {
    && (forall l :: l in s.launched ==> l <= s.life)
    && (s.cell.Claimed? ==> s.life !in s.launched)
    && (forall w :: w in s.workers && s.workers[w].Cleared? ==>
          var l := s.workers[w].life;
          l in s.launched && s.launched[l] == w && s.calls[l] == 0)
    && (forall l :: l in s.calls ==> l in s.launched && s.calls[l] == 1)
  }

  ghost predicate ResultInv(x: Setting, s: System) {
    && (forall p :: p in s.recorded ==> p.0 <= s.life)
    && (forall p, q :: p in s.recorded && q in s.recorded && p.0 == q.0 ==> p == q)
    && (forall p :: p in s.recorded && p.0 == s.life ==> s.cell.Completed? || s.cell.Absent?)
    && (s.cell.Completed? ==>
          exists a :: (s.life, a) in s.recorded && s.cell.result == x.dumps(a)
                      && a.requestId == x.requestIdOf(s.cell.fingerprint))
    && s.replies <= s.recorded
    && (forall w :: w in s.workers && s.workers[w].Writing? ==>
          s.workers[w].answer.requestId == x.requestIdOf(s.workers[w].fingerprint))
    && (forall w :: w in s.workers && s.workers[w].Failed? ==> s.workers[w].failure != IdentityMismatch)
  }

  ghost predicate Inv(x: Setting, s: System) {
    TokensInv(s) && LaunchInv(s) && ResultInv(x, s)
  }

  lemma RetiringKeepsInv(x: Setting, s: System, w: nat, worker: Worker)
    requires Inv(x, s) && !worker.Active() && worker != Failed(worker.fingerprint, IdentityMismatch)
    ensures Inv(x, Put(s, w, worker))
  {
  }

  /** Deleting, expiring or doubting the record keeps the invariant. */
  lemma EndingKeepsInv(x: Setting, s: System, l: Label)
    requires Inv(x, s) && Enabled(s.cell, l) && (l.Drop? || l.Doubt? || l.Vanish?)
    ensures Inv(x, s.(cell := After(s.cell, l)))
  {
  }

  lemma TakingKeepsInv(x: Setting, s: System, l: Label)
    requires Inv(x, s) && l.Take? && Enabled(s.cell, l) && l.owner !in s.used
    ensures Inv(x, s.(cell := After(s.cell, l), used := s.used + {l.owner},
                      life := if s.cell.Absent? then s.life + 1 else s.life))
  {
  }

  lemma HoldingKeepsInv(x: Setting, s: System, w: nat, worker: Worker)
    requires Inv(x, s) && worker.Holding? && worker.owner in s.used && worker.life == s.life
    requires forall v :: v in s.workers && s.workers[v].Active() ==> s.workers[v].owner != worker.owner
    ensures Inv(x, Put(s, w, worker))
  {
  }

  /** The result of a completed record decodes to the answer recorded for this lifetime. */
  lemma CompletedIsRecorded(x: Setting, s: System) returns (a: Answer)
    requires Lawful(x) && ResultInv(x, s) && s.cell.Completed?
    ensures (s.life, a) in s.recorded && x.loads(s.cell.result) == Some(a)
    ensures a.requestId == x.requestIdOf(s.cell.fingerprint)
  {
    a :| (s.life, a) in s.recorded && s.cell.result == x.dumps(a) && a.requestId == x.requestIdOf(s.cell.fingerprint);
  }

  lemma HeedingKeepsInv(x: Setting, s: System, w: nat, fingerprint: string)
    requires Lawful(x) && Inv(x, s) && !s.cell.Absent? && s.cell.fingerprint == fingerprint
    ensures Inv(x, Heed(x, s, w, fingerprint, Decision(s.cell)))
  {
    if s.cell.Completed? {
      var a := CompletedIsRecorded(x, s);
      ReplyingKeepsInv(x, s, w, s.life, Returned(fingerprint, a));
    } else {
      RetiringKeepsInv(x, s, w, Failed(fingerprint, AmbiguousOutcome));
      RetiringKeepsInv(x, s, w, Polling(fingerprint));
    }
  }

  lemma ClaimProcessedKeepsInv(x: Setting, s: System, w: nat, owner: string, now: int)
    requires Inv(x, s) && w in s.workers && s.workers[w].Fresh? && owner !in s.used
    ensures Inv(x, s.(used := s.used + {owner})) && Inv(x, Processed(x, s, w, owner, now))
  {
    var ls := ClaimLabels(s.cell, s.workers[w].fingerprint, owner, now, x.leaseMs);
    var lost := s.(used := s.used + {owner});
    assert Inv(x, lost);
    if ls == [] {
      assert Processed(x, s, w, owner, now) == lost;
    } else if ls[0].Take? {
      TakingKeepsInv(x, s, ls[0]);
    } else {
      EndingKeepsInv(x, lost, ls[0]);
    }
  }

  lemma ReadingReplyKeepsInv(x: Setting, before: Cell, moved: System, w: nat, owner: string, ls: seq<Label>, fate: Fate)
    requires Lawful(x) && Inv(x, moved) && w in moved.workers
    requires var fingerprint := moved.workers[w].fingerprint;
             Conflicts(before, fingerprint) || (!moved.cell.Absent? && moved.cell.fingerprint == fingerprint)
    requires ls != [] && ls[0].Take? ==>
               && owner in moved.used
               && forall v :: v in moved.workers && moved.workers[v].Active() ==> moved.workers[v].owner != owner
    ensures Inv(x, ReadReply(x, before, moved, w, owner, ls, fate))
  {
    var fingerprint := moved.workers[w].fingerprint;
    if !fate.Delivered? {
      RetiringKeepsInv(x, moved, w, Failed(fingerprint, BackendUnavailable));
    } else if Conflicts(before, fingerprint) {
      RetiringKeepsInv(x, moved, w, Failed(fingerprint, ConflictingReuse));
    } else if |ls| == 1 && ls[0].Take? {
      HoldingKeepsInv(x, moved, w, Holding(fingerprint, owner, moved.cell.generation, moved.life));
    } else {
      HeedingKeepsInv(x, moved, w, fingerprint);
    }
  }

  /** A claim leaves a record for its own digest, or conflicts. */
  lemma ClaimLeavesRecord(c: Cell, fingerprint: string, owner: string, now: int, lease: int)
    ensures var after := AfterClaimLabels(c, fingerprint, owner, now, lease);
            Conflicts(c, fingerprint) || (!after.Absent? && after.fingerprint == fingerprint)
  {
  }

  lemma ClaimKeepsInv(x: Setting, s: System, w: nat, owner: string, now: int, fate: Fate)
    requires Lawful(x) && Inv(x, s) && Possible(x, s, AskClaim(w, owner, now, fate))
    ensures Inv(x, DoClaim(x, s, w, owner, now, fate))
  {
    var fingerprint := s.workers[w].fingerprint;
    ClaimProcessedKeepsInv(x, s, w, owner, now);
    if fate.RequestLost? {
      RetiringKeepsInv(x, s.(used := s.used + {owner}), w, Failed(fingerprint, BackendUnavailable));
    } else {
      ClaimLeavesRecord(s.cell, fingerprint, owner, now, x.leaseMs);
      ReadingReplyKeepsInv(x, s.cell, Processed(x, s, w, owner, now), w, owner,
                           ClaimLabels(s.cell, fingerprint, owner, now, x.leaseMs), fate);
    }
  }

  function ClearedFrom(worker: Worker): Worker
    requires worker.Active()
  {
    Cleared(worker.fingerprint, worker.owner, worker.generation, worker.life)
  }

  function Launched(s: System, w: nat, start: Label, worker: Worker): System
    requires w in s.workers && s.workers[w].Active() && Enabled(s.cell, start)
  {
    Put(s, w, worker).(cell := After(s.cell, start), launched := s.launched[s.workers[w].life := w])
  }

  lemma LaunchingKeepsTokens(s: System, w: nat, start: Label, worker: Worker)
    requires TokensInv(s) && w in s.workers && s.workers[w].Holding? && start.Start? && Enabled(s.cell, start)
    requires worker.Failed?
             || worker == ClearedFrom(s.workers[w])
    ensures TokensInv(Launched(s, w, start, worker))
  {
  }

  lemma LaunchingKeepsLaunches(s: System, w: nat, start: Label, worker: Worker)
    requires TokensInv(s) && LaunchInv(s)
    requires w in s.workers && s.workers[w].Holding? && start.Start? && Enabled(s.cell, start)
    requires start.owner == s.workers[w].owner
    requires worker.Failed?
             || worker == ClearedFrom(s.workers[w])
    ensures LaunchInv(Launched(s, w, start, worker))
  {
    assert s.workers[w].life == s.life && s.life !in s.launched;
  }

  lemma LaunchingKeepsResults(x: Setting, s: System, w: nat, start: Label, worker: Worker)
    requires ResultInv(x, s) && w in s.workers && s.workers[w].Active() && start.Start? && Enabled(s.cell, start)
    requires !worker.Writing? && (worker.Failed? ==> worker.failure != IdentityMismatch)
    ensures ResultInv(x, Launched(s, w, start, worker))
  {
  }

  lemma LaunchingKeepsInv(x: Setting, s: System, w: nat, start: Label, worker: Worker)
    requires Inv(x, s) && w in s.workers && s.workers[w].Holding? && start.Start? && Enabled(s.cell, start)
    requires start.owner == s.workers[w].owner
    requires worker == Failed(s.workers[w].fingerprint, BackendUnavailable)
             || worker == ClearedFrom(s.workers[w])
    ensures Inv(x, Launched(s, w, start, worker))
  {
    LaunchingKeepsTokens(s, w, start, worker);
    LaunchingKeepsLaunches(s, w, start, worker);
    LaunchingKeepsResults(x, s, w, start, worker);
  }

  lemma LaunchKeepsInv(x: Setting, s: System, w: nat, now: int, fate: Fate)
    requires Inv(x, s) && Possible(x, s, Launch(w, now, fate))
    ensures Inv(x, DoLaunch(x, s, w, now, fate))
  {
    var worker := s.workers[w];
    if !fate.RequestLost? && s.cell.Claimed? && Owns(s.cell, worker) {
      LaunchingKeepsInv(x, s, w, Start(worker.owner, worker.generation, now, x.leaseMs),
                        if fate.ReplyLost? then Failed(worker.fingerprint, BackendUnavailable)
                        else Cleared(worker.fingerprint, worker.owner, worker.generation, worker.life));
    } else {
      RetiringKeepsInv(x, s, w,
                       Failed(worker.fingerprint, if fate.Delivered? then StateInvalid else BackendUnavailable));
    }
  }

  function Recorded(s: System, w: nat, finish: Label, worker: Worker): System
    requires w in s.workers && s.workers[w].Writing? && Enabled(s.cell, finish)
  {
    Put(s, w, worker).(cell := After(s.cell, finish),
                       recorded := s.recorded + {(s.workers[w].life, s.workers[w].answer)})
  }

  lemma RecordingKeepsResults(x: Setting, s: System, w: nat, finish: Label, worker: Worker)
    requires TokensInv(s) && ResultInv(x, s) && w in s.workers && s.workers[w].Writing? && Enabled(s.cell, finish)
    requires finish.Finish? && finish.owner == s.workers[w].owner && finish.result == x.dumps(s.workers[w].answer)
    requires s.cell.fingerprint == s.workers[w].fingerprint
    requires worker.Failed? && worker.failure != IdentityMismatch
    ensures ResultInv(x, Recorded(s, w, finish, worker))
  {
    assert s.workers[w].life == s.life;
    assert (s.life, s.workers[w].answer) in Recorded(s, w, finish, worker).recorded;
  }

  lemma RecordingKeepsInv(x: Setting, s: System, w: nat, finish: Label, worker: Worker)
    requires Inv(x, s) && w in s.workers && s.workers[w].Writing? && Enabled(s.cell, finish)
    requires finish.Finish? && finish.owner == s.workers[w].owner && finish.result == x.dumps(s.workers[w].answer)
    requires s.cell.fingerprint == s.workers[w].fingerprint
    requires worker.Failed? && worker.failure != IdentityMismatch
    ensures Inv(x, Recorded(s, w, finish, worker))
  {
    RecordingKeepsResults(x, s, w, finish, worker);
  }

  lemma RecordKeepsInv(x: Setting, s: System, w: nat, now: int, fate: Fate)
    requires Inv(x, s) && Possible(x, s, Record(w, now, fate))
    ensures Inv(x, DoRecord(x, s, w, now, fate))
  {
    var worker := s.workers[w];
    var failed := Failed(worker.fingerprint, if fate.Delivered? then StateInvalid else BackendUnavailable);
    if !fate.RequestLost? && s.cell.Started? && Owns(s.cell, worker) {
      var finish := Finish(worker.owner, worker.generation, x.dumps(worker.answer), now, x.completedTtlMs);
      RecordingKeepsInv(x, s, w, finish, failed);
      if fate.Delivered? {
        ReplyingKeepsInv(x, Recorded(s, w, finish, failed), w, worker.life,
                         Returned(worker.fingerprint, worker.answer));
      }
    } else {
      RetiringKeepsInv(x, s, w, failed);
    }
  }

  lemma ReplyingKeepsInv(x: Setting, s: System, w: nat, life: nat, worker: Worker)
    requires Inv(x, s) && worker.Returned? && (life, worker.answer) in s.recorded
    ensures Inv(x, Put(s, w, worker).(replies := s.replies + {(life, worker.answer)}))
  {
    RetiringKeepsInv(x, s, w, worker);
  }

  lemma ReleaseKeepsInv(x: Setting, s: System, w: nat, fate: Fate)
    requires Inv(x, s) && Possible(x, s, Release(w, fate))
    ensures Inv(x, DoRelease(s, w, fate))
  {
    var worker := s.workers[w];
    RetiringKeepsInv(x, s, w, Failed(worker.fingerprint, Cancelled));
    RetiringKeepsInv(x, s, w, Failed(worker.fingerprint, BackendUnavailable));
    if s.cell.Claimed? && Owns(s.cell, worker) {
      var failure := if fate.Delivered? then Cancelled else BackendUnavailable;
      EndingKeepsInv(x, Put(s, w, Failed(worker.fingerprint, failure)),
                     Drop(worker.owner, worker.generation));
    }
  }

  lemma DelegateKeepsInv(x: Setting, s: System, w: nat)
    requires Inv(x, s) && Possible(x, s, Delegate(w))
    ensures Inv(x, Do(x, s, Delegate(w)))
  {
    var l := s.workers[w].life;
    var s' := Do(x, s, Delegate(w));
    assert forall k :: k != l ==> s'.calls[k] == s.calls[k];
    assert s'.calls[l] == 1;
  }

  lemma ComposeKeepsInv(x: Setting, s: System, w: nat, answer: Answer)
    requires Inv(x, s) && Possible(x, s, Compose(w, answer))
    ensures Inv(x, Do(x, s, Compose(w, answer)))
  {
  }

  lemma PollKeepsInv(x: Setting, s: System, w: nat, fate: Fate)
    requires Lawful(x) && Inv(x, s) && Possible(x, s, Poll(w, fate))
    ensures Inv(x, DoPoll(x, s, w, fate))
  {
    var fingerprint := s.workers[w].fingerprint;
    RetiringKeepsInv(x, s, w, Failed(fingerprint, BackendUnavailable));
    RetiringKeepsInv(x, s, w, Failed(fingerprint, StateInvalid));
    RetiringKeepsInv(x, s, w, Failed(fingerprint, ConflictingReuse));
    if !s.cell.Absent? && s.cell.fingerprint == fingerprint {
      HeedingKeepsInv(x, s, w, fingerprint);
    }
  }

  /** The steps that a worker takes without the authority. */
  lemma LocalStepKeepsInv(x: Setting, s: System, st: Step)
    requires Inv(x, s) && Possible(x, s, st)
    requires st.Arrive? || st.GiveUp? || st.Delegate? || st.Compose? || st.Crash?
    ensures Inv(x, Do(x, s, st))
  {
    match st
    case Arrive(w, fingerprint) => RetiringKeepsInv(x, s, w, Fresh(fingerprint));
    case GiveUp(w, failure) => RetiringKeepsInv(x, s, w, Failed(s.workers[w].fingerprint, failure));
    case Delegate(w) => DelegateKeepsInv(x, s, w);
    case Compose(w, answer) => ComposeKeepsInv(x, s, w, answer);
    case Crash(w) => RetiringKeepsInv(x, s, w, Failed(s.workers[w].fingerprint, Crashed));
  }

  lemma StepKeepsInv(x: Setting, s: System, st: Step)
    requires Lawful(x) && Inv(x, s) && Possible(x, s, st)
    ensures Inv(x, Do(x, s, st))
  {
    match st
    case AskClaim(w, owner, now, fate) => ClaimKeepsInv(x, s, w, owner, now, fate);
    case Poll(w, fate) => PollKeepsInv(x, s, w, fate);
    case Release(w, fate) => ReleaseKeepsInv(x, s, w, fate);
    case Launch(w, now, fate) => LaunchKeepsInv(x, s, w, now, fate);
    case Record(w, now, fate) => RecordKeepsInv(x, s, w, now, fate);
    case Authority(change) => EndingKeepsInv(x, s, change);
    case _ => LocalStepKeepsInv(x, s, st);
  }

  lemma {:induction false} RunKeepsInv(x: Setting, s: System, steps: seq<Step>, s': System)
    requires Lawful(x) && Inv(x, s) && Run(x, s, steps, s')
    ensures Inv(x, s')
    decreases |steps|
  {
    if steps == [] {
    } else {
      StepKeepsInv(x, s, steps[0]);
      RunKeepsInv(x, Do(x, s, steps[0]), steps[1..], s');
    }
  }

  // ---------------------------------------------------------------------------
  // Main results, for every run of any number of workers
  // ---------------------------------------------------------------------------

  /** The transport is called at most once in each lifetime of the record. */
  lemma DelegatesAtMostOncePerLifetime(x: Setting, steps: seq<Step>, s: System, life: nat)
    requires Lawful(x) && Run(x, START, steps, s)
    ensures s.calls[life] <= 1
  {
    RunKeepsInv(x, START, steps, s);
    assert life in s.calls || s.calls[life] == 0;
  }

  /** Every reply of a lifetime is that lifetime's single recorded answer. */
  lemma RepliesAgree(x: Setting, steps: seq<Step>, s: System, life: nat, a: Answer, b: Answer)
    requires Lawful(x) && Run(x, START, steps, s) && (life, a) in s.replies && (life, b) in s.replies
    ensures a == b && (life, a) in s.recorded
  {
    RunKeepsInv(x, START, steps, s);
    assert (life, a) in s.recorded && (life, b) in s.recorded;
  }

  /** No worker ever fails the identity check on a completed record. */
  lemma IdentityMismatchIsUnreachable(x: Setting, steps: seq<Step>, s: System, w: nat)
    requires Lawful(x) && Run(x, START, steps, s) && w in s.workers && s.workers[w].Failed?
    ensures s.workers[w].failure != IdentityMismatch
  {
    RunKeepsInv(x, START, steps, s);
  }

  // ---------------------------------------------------------------------------
  // A launched lifetime ends with its result
  // ---------------------------------------------------------------------------

  ghost predicate IsRecorded(s: System, life: nat) {
    exists a :: (life, a) in s.recorded
  }

  /** Every lifetime that was launched and is over has its result recorded; the present one is over
      once its record is gone. */
  ghost predicate LaunchedAreSettled(s: System) {
    forall l :: l in s.launched && (l < s.life || s.cell.Absent?) ==> IsRecorded(s, l)
  }

  /** What a step does to the record and to the bookkeeping around it. */
  ghost predicate Leaves(s: System, s': System) {
    s'.launched == s.launched && s'.recorded == s.recorded
  }

  lemma HeedLeaves(x: Setting, s: System, w: nat, fingerprint: string, claim: Claim)
    ensures var s' := Heed(x, s, w, fingerprint, claim); Leaves(s, s') && s'.cell == s.cell && s'.life == s.life
  {
  }

  lemma ReadReplyLeaves(x: Setting, before: Cell, moved: System, w: nat, owner: string, ls: seq<Label>, fate: Fate)
    requires w in moved.workers && (Conflicts(before, moved.workers[w].fingerprint) || !moved.cell.Absent?)
    ensures var s' := ReadReply(x, before, moved, w, owner, ls, fate);
            Leaves(moved, s') && s'.cell == moved.cell && s'.life == moved.life
  {
    var fingerprint := moved.workers[w].fingerprint;
    if !Conflicts(before, fingerprint) {
      HeedLeaves(x, moved, w, fingerprint, Decision(moved.cell));
    }
  }

  lemma PollLeaves(x: Setting, s: System, w: nat, fate: Fate)
    requires w in s.workers
    ensures var s' := DoPoll(x, s, w, fate); Leaves(s, s') && s'.cell == s.cell && s'.life == s.life
  {
    if !s.cell.Absent? {
      HeedLeaves(x, s, w, s.workers[w].fingerprint, Decision(s.cell));
    }
  }

  /** A claim ends the present lifetime only over an absent record. */
  lemma ClaimKeepsSettled(x: Setting, s: System, w: nat, owner: string, now: int, fate: Fate)
    requires LaunchInv(s) && LaunchedAreSettled(s) && w in s.workers
    ensures LaunchedAreSettled(DoClaim(x, s, w, owner, now, fate))
  {
    if !fate.RequestLost? {
      var fingerprint := s.workers[w].fingerprint;
      var moved := Processed(x, s, w, owner, now);
      ReadReplyLeaves(x, s.cell, moved, w, owner, ClaimLabels(s.cell, fingerprint, owner, now, x.leaseMs), fate);
      ProcessingKeepsSettled(x, s, w, owner, now);
      SettledByBookkeeping(moved, DoClaim(x, s, w, owner, now, fate));
    }
  }

  lemma SettledByBookkeeping(s: System, s': System)
    requires LaunchedAreSettled(s) && Leaves(s, s') && s'.cell == s.cell && s'.life == s.life
    ensures LaunchedAreSettled(s')
  {
    forall l | l in s'.launched && (l < s'.life || s'.cell.Absent?) ensures IsRecorded(s', l) {
      assert IsRecorded(s, l);
    }
  }

  lemma ProcessingKeepsSettled(x: Setting, s: System, w: nat, owner: string, now: int)
    requires LaunchInv(s) && LaunchedAreSettled(s) && w in s.workers
    ensures LaunchedAreSettled(Processed(x, s, w, owner, now))
  {
    var s' := Processed(x, s, w, owner, now);
    forall l | l in s'.launched && (l < s'.life || s'.cell.Absent?) ensures IsRecorded(s', l) {
      assert IsRecorded(s, l);
    }
  }

  /** Starting a delegation launches the present lifetime, whose record is then there. */
  lemma LaunchKeepsSettled(x: Setting, s: System, w: nat, now: int, fate: Fate)
    requires TokensInv(s) && LaunchedAreSettled(s) && w in s.workers && s.workers[w].Holding?
    ensures LaunchedAreSettled(DoLaunch(x, s, w, now, fate))
  {
    var s' := DoLaunch(x, s, w, now, fate);
    forall l | l in s'.launched && (l < s'.life || s'.cell.Absent?) ensures IsRecorded(s', l) {
      assert IsRecorded(s, l);
    }
  }

  lemma RecordKeepsSettled(x: Setting, s: System, w: nat, now: int, fate: Fate)
    requires LaunchedAreSettled(s) && w in s.workers && s.workers[w].Writing?
    ensures LaunchedAreSettled(DoRecord(x, s, w, now, fate))
  {
    var s' := DoRecord(x, s, w, now, fate);
    forall l | l in s'.launched && (l < s'.life || s'.cell.Absent?) ensures IsRecorded(s', l) {
      var a :| (l, a) in s.recorded;
      assert (l, a) in s'.recorded;
    }
  }

  /** A record that vanishes or is released was either not launched or is completed. */
  lemma EndingKeepsSettled(x: Setting, s: System, l: Label)
    requires Inv(x, s) && LaunchedAreSettled(s) && Enabled(s.cell, l) && (l.Drop? || l.Doubt? || l.Vanish?)
    ensures LaunchedAreSettled(s.(cell := After(s.cell, l)))
  {
    var s' := s.(cell := After(s.cell, l));
    forall k | k in s'.launched && (k < s'.life || s'.cell.Absent?) ensures IsRecorded(s', k) {
      assert k <= s.life;
      if k == s.life {
        var a :| (s.life, a) in s.recorded;
      } else {
        assert IsRecorded(s, k);
      }
    }
  }

  lemma ReleaseKeepsSettled(x: Setting, s: System, w: nat, fate: Fate)
    requires Inv(x, s) && LaunchedAreSettled(s) && w in s.workers && s.workers[w].Holding?
    ensures LaunchedAreSettled(DoRelease(s, w, fate))
  {
    var worker, s' := s.workers[w], DoRelease(s, w, fate);
    if !fate.RequestLost? && s.cell.Claimed? && Owns(s.cell, worker) {
      var drop := Drop(worker.owner, worker.generation);
      EndingKeepsSettled(x, s, drop);
      SettledByBookkeeping(s.(cell := After(s.cell, drop)), s');
    } else {
      SettledByBookkeeping(s, s');
    }
  }

  lemma StepKeepsSettled(x: Setting, s: System, st: Step)
    requires Inv(x, s) && LaunchedAreSettled(s) && Possible(x, s, st)
    ensures LaunchedAreSettled(Do(x, s, st))
  {
    match st
    case AskClaim(w, owner, now, fate) => ClaimKeepsSettled(x, s, w, owner, now, fate);
    case Poll(w, fate) =>
      PollLeaves(x, s, w, fate);
      SettledByBookkeeping(s, DoPoll(x, s, w, fate));
    case Release(w, fate) => ReleaseKeepsSettled(x, s, w, fate);
    case Launch(w, now, fate) => LaunchKeepsSettled(x, s, w, now, fate);
    case Record(w, now, fate) => RecordKeepsSettled(x, s, w, now, fate);
    case Authority(change) => EndingKeepsSettled(x, s, change);
    case _ => SettledByBookkeeping(s, Do(x, s, st));
  }

  lemma {:induction false} RunKeepsSettled(x: Setting, s: System, steps: seq<Step>, s': System)
    requires Lawful(x) && Inv(x, s) && LaunchedAreSettled(s) && Run(x, s, steps, s')
    ensures LaunchedAreSettled(s')
    decreases |steps|
  {
    if steps == [] {
    } else {
      StepKeepsInv(x, s, steps[0]);
      StepKeepsSettled(x, s, steps[0]);
      RunKeepsSettled(x, Do(x, s, steps[0]), steps[1..], s');
    }
  }

  /** Two delegations of different lifetimes are separated by a recorded result: before a new
      lifetime begins, and once the record is gone, the result of every launched lifetime has been
      recorded. */
  lemma LaunchedLifetimesEndWithTheirResult(x: Setting, steps: seq<Step>, s: System, life: nat)
    requires Lawful(x) && Run(x, START, steps, s) && life in s.launched
    ensures life < s.life || s.cell.Absent? ==> exists a :: (life, a) in s.recorded
    ensures life <= s.life
  {
    RunKeepsInv(x, START, steps, s);
    RunKeepsSettled(x, START, steps, s);
    assert life < s.life || s.cell.Absent? ==> IsRecorded(s, life);
  }

  /** Of two lifetimes that delegated, the earlier one has its result recorded. */
  lemma DelegationsAreSeparatedByResults(x: Setting, steps: seq<Step>, s: System, k: nat, l: nat)
    requires Lawful(x) && Run(x, START, steps, s) && k in s.calls && l in s.calls && k < l
    ensures exists a :: (k, a) in s.recorded
  {
    RunKeepsInv(x, START, steps, s);
    LaunchedLifetimesEndWithTheirResult(x, steps, s, l);
    LaunchedLifetimesEndWithTheirResult(x, steps, s, k);
  }

  /** A lifetime in which delegation started is never claimable again: after a failure the
      record stays started or ambiguous until its result is recorded and expires. */
  lemma LaunchedLifetimeIsNeverReclaimed(x: Setting, steps: seq<Step>, s: System)
    requires Lawful(x) && Run(x, START, steps, s) && s.life in s.launched
    ensures !s.cell.Claimed?
    ensures s.cell.Started? || s.cell.Ambiguous? ==> forall a :: (s.life, a) !in s.recorded
  {
    RunKeepsInv(x, START, steps, s);
  }

  /** The workers move the record only along the abstract machine. */
  lemma StepMovesCellAlongPath(x: Setting, s: System, st: Step) returns (ls: seq<Label>)
    requires Possible(x, s, st)
    ensures Path(s.cell, ls, Do(x, s, st).cell)
    ensures |ls| <= 1
  {
    ls := [];
    match st
    case AskClaim(w, owner, now, fate) =>
      if !fate.RequestLost? {
        ls := ClaimLabels(s.cell, s.workers[w].fingerprint, owner, now, x.leaseMs);
        ClaimLabelsLead(s.cell, s.workers[w].fingerprint, owner, now, x.leaseMs);
      }
    case Release(w, fate) =>
      if !fate.RequestLost? && s.cell.Claimed? && Owns(s.cell, s.workers[w]) {
        ls := [Drop(s.workers[w].owner, s.workers[w].generation)];
      }
    case Launch(w, now, fate) =>
      if !fate.RequestLost? && s.cell.Claimed? && Owns(s.cell, s.workers[w]) {
        ls := [Start(s.workers[w].owner, s.workers[w].generation, now, x.leaseMs)];
      }
    case Record(w, now, fate) =>
      if !fate.RequestLost? && s.cell.Started? && Owns(s.cell, s.workers[w]) {
        var worker := s.workers[w];
        ls := [Finish(worker.owner, worker.generation, x.dumps(worker.answer), now, x.completedTtlMs)];
      }
    case Authority(change) => ls := [change];
    case _ =>
  }
}
