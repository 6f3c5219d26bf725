/** What connects the workers of the Coordinator with an authority that stores their record. */
module Deployment {
  import opened IdempotencyCell
  import opened IdempotencyContract
  import opened ProgrammaticCoordinator

  /** The Coordinator's bounds on leases and lifetimes, a JSON text that is never empty, and a
      request id that is a digest. */
  ghost predicate Deployable(x: Setting, requestId: string) {
    && Lawful(x) && (forall a :: x.dumps(a) != "")
    && ValidDuration(x.leaseMs) && ValidDuration(x.completedTtlMs) && ValidRequestId(requestId)
  }

  /** What a worker sends along: digests and tokens of the right form. */
  predicate WellFormed(st: Step) {
    match st
    case Arrive(_, fingerprint) => ValidFingerprint(fingerprint)
    case AskClaim(_, owner, _, _) => ValidOwnerToken(owner)
    case _ => true
  }

  ghost predicate WellFormedWorkers(s: System) {
    forall w :: w in s.workers ==>
      ValidFingerprint(s.workers[w].fingerprint) && (s.workers[w].Active() ==> ValidOwnerToken(s.workers[w].owner))
  }

  function FailureOf(e: StoreError): Failure {
    match e
    case ValueError => Crashed
    case Conflict => ConflictingReuse
    case StateError => StateInvalid
    case BackendError => BackendUnavailable
  }

  /** Where a worker goes with the reply to a claim or a read. */
  function Next(x: Setting, fingerprint: string, owner: string, life: nat, r: Reply): Worker {
    if r.Raised? then Failed(fingerprint, FailureOf(r.error))
    else if r.claim.status.Acquired? then Holding(fingerprint, owner, r.claim.generation, life)
    else if r.claim.status.InDoubt? then Failed(fingerprint, AmbiguousOutcome)
    else if r.claim.status.InProgress? then Polling(fingerprint)
    else if r.claim.result.None? then Failed(fingerprint, StateInvalid)
    else
      var answer := x.loads(r.claim.result.value);
      if answer.None? then Failed(fingerprint, StateInvalid)
      else if answer.value.requestId != x.requestIdOf(fingerprint) then Failed(fingerprint, IdentityMismatch)
      else Returned(fingerprint, answer.value)
  }

  /** The claim a worker holds. */
  function ClaimInHand(worker: Worker): Claim
    requires worker.Active()
  {
    ClaimOf(Acquired, Some(worker.owner), worker.generation, None)
  }

  /** The claim in hand entitles exactly as the machine says. */
  lemma HandEntitles(c: Cell, worker: Worker)
    requires worker.Active()
    ensures Entitles(c, worker.fingerprint, ClaimInHand(worker)) <==> Owns(c, worker)
  {
  }

  lemma HeedIsNext(x: Setting, s: System, w: nat, fingerprint: string, owner: string, claim: Claim)
    requires !claim.status.Acquired?
    ensures Heed(x, s, w, fingerprint, claim).workers[w] == Next(x, fingerprint, owner, s.life, Granted(claim))
    ensures Heed(x, s, w, fingerprint, claim).cell == s.cell && Heed(x, s, w, fingerprint, claim).life == s.life
  {
  }

  /** What the worker hears of an answer. */
  function Heard(fate: Fate, r: Reply): Reply {
    if fate.Delivered? then r else Raised(BackendError)
  }

  function HeardAck(fate: Fate, r: Ack): Ack {
    if fate.Delivered? then r else Refused(BackendError)
  }

  /** A claim over this record: unless it is lost on its way in, the record moves along the claim
      labels, and `r` is what the worker hears. */
  predicate ClaimServed(before: Cell, after: Cell, fingerprint: string, owner: string, now: int, lease: int, fate: Fate,
                        r: Reply) {
    if fate.RequestLost? then after == before && r == Raised(BackendError)
    else
      && after == AfterClaimLabels(before, fingerprint, owner, now, lease)
      && if fate.Delivered? then
           ClaimAnswer(before, ClaimLabels(before, fingerprint, owner, now, lease), after, fingerprint, owner, r)
         else r == Raised(BackendError)
  }

  /** Likewise for a delegation start. */
  predicate StartServed(before: Cell, after: Cell, worker: Worker, now: int, lease: int, fate: Fate, r: Ack)
    requires worker.Active()
  {
    var owned := before.Claimed? && Owns(before, worker);
    && r == HeardAck(fate, if owned then Ok else Refused(StateError))
    && after == if owned && !fate.RequestLost? then After(before, Start(worker.owner, worker.generation, now, lease))
                else before
  }

  /** Likewise for a result. */
  predicate ResultServed(before: Cell, after: Cell, worker: Worker, result: string, now: int, ttl: int, fate: Fate,
                         r: Ack)
    requires worker.Active()
  {
    var owned := before.Started? && Owns(before, worker);
    && r == HeardAck(fate, if owned then Ok else Refused(StateError))
    && after == if owned && !fate.RequestLost? then
                  After(before, Finish(worker.owner, worker.generation, result, now, ttl))
                else before
  }

  /** Likewise for a release. */
  predicate ReleaseServed(before: Cell, after: Cell, worker: Worker, fate: Fate, r: Ack)
    requires worker.Active()
  {
    var owned := before.Claimed? && Owns(before, worker);
    && r == HeardAck(fate, if owned then Ok else Refused(StateError))
    && after == if owned && !fate.RequestLost? then Absent else before
  }

  /** The machine's claim: the record and the worker go where the reply sends them. */
  lemma ClaimGoesWhereReplied(x: Setting, s: System, w: nat, owner: string, now: int, fate: Fate, after: Cell, r: Reply)
    requires w in s.workers
    requires ClaimServed(s.cell, after, s.workers[w].fingerprint, owner, now, x.leaseMs, fate, r)
    ensures var s' := DoClaim(x, s, w, owner, now, fate);
            s'.cell == after && s'.workers[w] == Next(x, s.workers[w].fingerprint, owner, s'.life, r)
  {
    if fate.Delivered? && r.Granted? && !r.claim.status.Acquired? {
      HeedIsNext(x, Processed(x, s, w, owner, now), w, s.workers[w].fingerprint, owner, r.claim);
    }
  }

  /** What a read of the record answers. */
  function ReadReplyOf(c: Cell, fingerprint: string): Reply {
    if c.Absent? then Raised(StateError)
    else if c.fingerprint != fingerprint then Raised(Conflict)
    else Granted(Decision(c))
  }

  /** The machine's read: likewise. */
  lemma PollGoesWhereReplied(x: Setting, s: System, w: nat, fate: Fate)
    requires w in s.workers
    ensures var fingerprint, s' := s.workers[w].fingerprint, DoPoll(x, s, w, fate);
            && s'.workers[w] == Next(x, fingerprint, "", s.life, Heard(fate, ReadReplyOf(s.cell, fingerprint)))
            && s'.cell == s.cell && s'.life == s.life
  {
    if !s.cell.Absent? && s.cell.fingerprint == s.workers[w].fingerprint {
      HeedIsNext(x, s, w, s.workers[w].fingerprint, "", Decision(s.cell));
    }
  }

  /** The stored result of a completed record is a JSON text. */
  lemma StoredResultsAreNotEmpty(x: Setting, requestId: string, steps: seq<Step>, s: System)
    requires Deployable(x, requestId) && Run(x, START, steps, s) && s.cell.Completed?
    ensures s.cell.result != ""
  {
    RunKeepsInv(x, START, steps, s);
  }

  lemma StepKeepsForm(x: Setting, s: System, st: Step)
    requires WellFormedWorkers(s) && Possible(x, s, st) && WellFormed(st)
    ensures WellFormedWorkers(Do(x, s, st))
  {
    if !st.Arrive? && !st.Authority? {
      StepMoves(x, s, st);
    }
  }

  /** A step that the worker takes without the authority. */
  predicate IsLocal(st: Step) {
    st.Arrive? || st.GiveUp? || st.Delegate? || st.Compose? || st.Crash?
  }

  /** One action of a worker, with the clock at the authority and the size of a result. */
  datatype Call = Call(step: Step, now: int, resultBytes: nat)

  lemma LocalStepsKeepCell(x: Setting, s: System, st: Step)
    requires Possible(x, s, st) && IsLocal(st)
    ensures Do(x, s, st).cell == s.cell
  {
  }

  // ---------------------------------------------------------------------------
  // What a script of calls amounts to
  // ---------------------------------------------------------------------------

  /** A worker can take this step now. */
  predicate Admissible(x: Setting, s: System, st: Step) {
    !st.Authority? && Possible(x, s, st) && WellFormed(st)
  }

  /** The step that a call takes: a result that is too large is an error that the worker does not
      handle. */
  function Taken(call: Call): Step {
    if call.step.Record? && call.resultBytes > MAX_RESULT_BYTES then Crash(call.step.w) else call.step
  }

  function Intended(x: Setting, s: System, call: Call): seq<Step> {
    if Admissible(x, s, call.step) then [Taken(call)] else []
  }

  /** The steps the authority takes of itself. */
  function Noted(ls: seq<Label>): (r: seq<Step>)
    ensures |r| == |ls| && forall i :: 0 <= i < |r| ==> r[i] == Authority(ls[i])
  {
    seq(|ls|, i requires 0 <= i < |ls| => Authority(ls[i]))
  }

  /** The steps of workers among these. */
  function Own(steps: seq<Step>): seq<Step> {
    if steps == [] then []
    else
      var others, last := Own(steps[..|steps| - 1]), steps[|steps| - 1];
      if last.Authority? then others else others + [last]
  }

  lemma {:induction false} OwnJoins(a: seq<Step>, b: seq<Step>)
    ensures Own(a + b) == Own(a) + Own(b)
    decreases |b|
  {
    if b == [] {
      assert a + b == a;
    } else {
      var k := |b| - 1;
      OwnJoins(a, b[..k]);
      assert (a + b)[..|a| + k] == a + b[..k];
    }
  }

  lemma {:induction false} NotedIsNobodys(ls: seq<Label>)
    ensures Own(Noted(ls)) == []
    decreases |ls|
  {
    if ls == [] {
    } else {
      NotedIsNobodys(ls[..|ls| - 1]);
      assert Noted(ls)[..|ls| - 1] == Noted(ls[..|ls| - 1]);
    }
  }

  lemma NothingNoted(steps: seq<Step>)
    ensures steps + Noted([]) == steps
  {
  }

  lemma NotedThenOwn(ls: seq<Label>, st: Step)
    requires !st.Authority?
    ensures Own(Noted(ls) + [st]) == [st]
  {
    NotedIsNobodys(ls);
    assert (Noted(ls) + [st])[..|ls|] == Noted(ls);
  }

  /** The steps that carry out one call: exactly the one it asks for, if a worker can take it, and
      whatever the authority does of itself. */
  ghost predicate Carried(x: Setting, s: System, call: Call, added: seq<Step>, s': System) {
    Run(x, s, added, s') && Own(added) == Intended(x, s, call)
  }

  lemma CallIsCarried(x: Setting, before: seq<Step>, s: System, call: Call, ls: seq<Label>, s': System)
    requires Run(x, START, before, s) && Admissible(x, s, call.step)
    requires Run(x, START, before + Noted(ls) + [Taken(call)], s')
    ensures Carried(x, s, call, Noted(ls) + [Taken(call)], s')
  {
    NotedThenOwn(ls, Taken(call));
    assert before + Noted(ls) + [Taken(call)] == before + (Noted(ls) + [Taken(call)]);
    RunContinues(x, START, before, s, Noted(ls) + [Taken(call)], s');
  }

  lemma NobodyIsCarried(x: Setting, before: seq<Step>, s: System, call: Call, ls: seq<Label>, s': System)
    requires Run(x, START, before, s) && !Admissible(x, s, call.step)
    requires Run(x, START, before + Noted(ls), s')
    ensures Carried(x, s, call, Noted(ls), s')
  {
    NotedIsNobodys(ls);
    RunContinues(x, START, before, s, Noted(ls), s');
  }

  /** The calls are carried out one after the other, between these states. */
  ghost predicate Served(x: Setting, states: seq<System>, script: seq<Call>, parts: seq<seq<Step>>) {
    && |states| > |script| && |parts| == |script|
    && forall k :: 0 <= k < |script| ==> Carried(x, states[k], script[k], parts[k], states[k + 1])
  }

  function Flat(parts: seq<seq<Step>>): seq<Step> {
    if parts == [] then [] else Flat(parts[..|parts| - 1]) + parts[|parts| - 1]
  }

  /** The steps that the calls of a script ask for where a worker can take them, in this order. */
  function AllIntended(x: Setting, states: seq<System>, script: seq<Call>): seq<Step>
    requires |states| >= |script|
  {
    if script == [] then []
    else
      var k := |script| - 1;
      AllIntended(x, states, script[..k]) + Intended(x, states[k], script[k])
  }

  /** The workers take exactly these steps. */
  lemma {:induction false} ServedAsIntended(x: Setting, states: seq<System>, script: seq<Call>, parts: seq<seq<Step>>)
    requires Served(x, states, script, parts)
    ensures Own(Flat(parts)) == AllIntended(x, states, script)
    decreases |script|
  {
    if script == [] {
    } else {
      var k := |script| - 1;
      ServedAsIntended(x, states, script[..k], parts[..k]);
      OwnJoins(Flat(parts[..k]), parts[k]);
      assert Carried(x, states[k], script[k], parts[k], states[k + 1]);
    }
  }

  /** The calls have led from one state of a machine to another. */
  ghost predicate Played(x: Setting, s: System, steps: seq<Step>, script: seq<Call>, states: seq<System>,
                         parts: seq<seq<Step>>, s': System, steps': seq<Step>) {
    && |states| == |script| + 1 && Served(x, states, script, parts)
    && states[0] == s && states[|script|] == s' && steps' == steps + Flat(parts)
  }

  lemma PlayingGoesOn(x: Setting, s: System, steps: seq<Step>, script: seq<Call>, k: nat, states: seq<System>,
                      parts: seq<seq<Step>>, mid: System, midSteps: seq<Step>, added: seq<Step>, s': System,
                      steps': seq<Step>)
    requires k < |script| && Played(x, s, steps, script[..k], states, parts, mid, midSteps)
    requires Carried(x, mid, script[k], added, s') && steps' == midSteps + added
    ensures Played(x, s, steps, script[..k + 1], states + [s'], parts + [added], s', steps')
  {
    assert (parts + [added])[..k] == parts;
    forall i | 0 <= i <= k
      ensures Carried(x, (states + [s'])[i], script[i], (parts + [added])[i], (states + [s'])[i + 1])
    {
      assert i < k ==> Carried(x, states[i], script[..k][i], parts[i], states[i + 1]);
    }
    assert steps + Flat(parts) + added == steps + (Flat(parts) + added);
  }

  /** How many of these steps call the transport. */
  function Delegates(steps: seq<Step>): nat {
    if steps == [] then 0
    else Delegates(steps[..|steps| - 1]) + if steps[|steps| - 1].Delegate? then 1 else 0
  }

  lemma {:induction false} DelegatesAreOwn(steps: seq<Step>)
    ensures Delegates(Own(steps)) == Delegates(steps)
    decreases |steps|
  {
    if steps == [] {
    } else {
      var k := |steps| - 1;
      DelegatesAreOwn(steps[..k]);
      assert !steps[k].Authority? ==> Own(steps)[..|Own(steps)| - 1] == Own(steps[..k]);
    }
  }

  /** The machine counts every transport call. */
  lemma {:induction false} CallsAreDelegations(x: Setting, s: System, steps: seq<Step>, s': System)
    requires Run(x, s, steps, s')
    ensures |s'.calls| == |s.calls| + Delegates(steps)
    decreases |steps|
  {
    if steps == [] {
    } else {
      var mid := RunSplits(x, s, steps, s');
      CallsAreDelegations(x, s, steps[..|steps| - 1], mid);
      StepCalls(x, mid, steps[|steps| - 1]);
    }
  }

  /** What holds at the end of any run. */
  lemma AllRepliesAgree(x: Setting, steps: seq<Step>, s: System)
    requires Lawful(x) && Run(x, START, steps, s)
    ensures forall life :: s.calls[life] <= 1
    ensures forall life, a, b :: (life, a) in s.replies && (life, b) in s.replies ==> a == b
  {
    forall life ensures s.calls[life] <= 1 {
      if life in s.calls {
        DelegatesAtMostOncePerLifetime(x, steps, s, life);
      }
    }
    forall life, a, b | (life, a) in s.replies && (life, b) in s.replies ensures a == b {
      RepliesAgree(x, steps, s, life, a, b);
    }
  }

  lemma ServingCounts(x: Setting, steps: seq<Step>, s: System, parts: seq<seq<Step>>, s': System)
    requires Run(x, START, steps, s) && Run(x, START, steps + Flat(parts), s')
    ensures |s'.calls| == |s.calls| + Delegates(Own(Flat(parts)))
  {
    RunContinues(x, START, steps, s, Flat(parts), s');
    CallsAreDelegations(x, s, Flat(parts), s');
    DelegatesAreOwn(Flat(parts));
  }

  /** The workers over a record that somebody else stores. A step is taken once its effect on the
      record is stored. */
  class Machine {
    const x: Setting
    var system: System
    ghost var steps: seq<Step>

    constructor (x: Setting)
      requires Lawful(x)
      ensures Valid() && this.x == x && system == START && steps == []
    {
      this.x, system, steps := x, START, [];
    }

    ghost predicate Valid()
      reads this
    {
      Lawful(x) && Run(x, START, steps, system) && WellFormedWorkers(system)
    }

    method Take(st: Step)
      requires Valid() && Possible(x, system, st) && WellFormed(st)
      modifies this`system, this`steps
      ensures Valid() && steps == old(steps) + [st] && system == Do(x, old(system), st)
    {
      RunGrows(x, START, steps, system, st);
      StepKeepsForm(x, system, st);
      system, steps := Do(x, system, st), steps + [st];
    }

    /** A worker does something without the record. */
    method TakeLocal(st: Step)
      requires Valid() && Possible(x, system, st) && WellFormed(st) && IsLocal(st)
      modifies this`system, this`steps
      ensures Valid() && steps == old(steps) + [st] && system == Do(x, old(system), st)
      ensures system.cell == old(system).cell
    {
      LocalStepsKeepCell(x, system, st);
      Take(st);
    }

    /** The record expires or goes into doubt. */
    method TakeAuthority(change: Label)
      requires Valid() && (change.Vanish? || change.Doubt?) && Enabled(system.cell, change)
      modifies this`system, this`steps
      ensures Valid() && steps == old(steps) + [Authority(change)]
      ensures system.workers == old(system).workers && system.used == old(system).used
      ensures system.cell == After(old(system).cell, change)
    {
      Take(Authority(change));
    }

    /** The claim of a worker that hears `r`, once the record is `after`. */
    method TakeClaim(w: nat, owner: string, now: int, fate: Fate, ghost after: Cell, r: Reply)
      requires Valid() && Possible(x, system, AskClaim(w, owner, now, fate)) && ValidOwnerToken(owner)
      requires ClaimServed(system.cell, after, system.workers[w].fingerprint, owner, now, x.leaseMs, fate, r)
      modifies this`system, this`steps
      ensures Valid() && steps == old(steps) + [AskClaim(w, owner, now, fate)] && system.cell == after
      ensures w in system.workers
      ensures system.workers[w] == Next(x, old(system).workers[w].fingerprint, owner, system.life, r)
    {
      ClaimGoesWhereReplied(x, system, w, owner, now, fate, after, r);
      ClaimMoves(x, system, w, owner, now, fate);
      Take(AskClaim(w, owner, now, fate));
    }

    method TakePoll(w: nat, fate: Fate)
      requires Valid() && Possible(x, system, Poll(w, fate))
      modifies this`system, this`steps
      ensures Valid() && steps == old(steps) + [Poll(w, fate)] && system.cell == old(system).cell
      ensures w in system.workers
      ensures var fingerprint := old(system).workers[w].fingerprint;
              system.workers[w]
              == Next(x, fingerprint, "", system.life, Heard(fate, ReadReplyOf(old(system).cell, fingerprint)))
    {
      PollGoesWhereReplied(x, system, w, fate);
      PollMoves(x, system, w, fate);
      Take(Poll(w, fate));
    }

    method TakeLaunch(w: nat, now: int, fate: Fate) returns (r: Ack)
      requires Valid() && Possible(x, system, Launch(w, now, fate))
      modifies this`system, this`steps
      ensures Valid() && steps == old(steps) + [Launch(w, now, fate)] && w in system.workers
      ensures var worker := old(system).workers[w];
              && StartServed(old(system).cell, system.cell, worker, now, x.leaseMs, fate, r)
              && system.workers[w]
                 == if r == Ok then Cleared(worker.fingerprint, worker.owner, worker.generation, worker.life)
                    else Failed(worker.fingerprint, FailureOf(r.error))
    {
      var owned := system.cell.Claimed? && Owns(system.cell, system.workers[w]);
      r := HeardAck(fate, if owned then Ok else Refused(StateError));
      Take(Launch(w, now, fate));
    }

    method TakeRecord(w: nat, now: int, fate: Fate) returns (r: Ack)
      requires Valid() && Possible(x, system, Record(w, now, fate))
      modifies this`system, this`steps
      ensures Valid() && steps == old(steps) + [Record(w, now, fate)] && w in system.workers
      ensures var worker := old(system).workers[w];
              && ResultServed(old(system).cell, system.cell, worker, x.dumps(worker.answer), now, x.completedTtlMs,
                              fate, r)
              && system.workers[w] == if r == Ok then Returned(worker.fingerprint, worker.answer)
                                      else Failed(worker.fingerprint, FailureOf(r.error))
    {
      var owned := system.cell.Started? && Owns(system.cell, system.workers[w]);
      r := HeardAck(fate, if owned then Ok else Refused(StateError));
      Take(Record(w, now, fate));
    }

    method TakeRelease(w: nat, fate: Fate) returns (r: Ack)
      requires Valid() && Possible(x, system, Release(w, fate))
      modifies this`system, this`steps
      ensures Valid() && steps == old(steps) + [Release(w, fate)] && w in system.workers
      ensures var worker := old(system).workers[w];
              && ReleaseServed(old(system).cell, system.cell, worker, fate, r)
              && system.workers[w] == Failed(worker.fingerprint, if r == Ok then Cancelled else BackendUnavailable)
    {
      var owned := system.cell.Claimed? && Owns(system.cell, system.workers[w]);
      r := HeardAck(fate, if owned then Ok else Refused(StateError));
      Take(Release(w, fate));
    }
  }
}
