/** The request handler of one worker, as a program over the system of all workers.

    Between any two of its calls the other workers, other replicas and the authority itself
    take arbitrary steps (`others`). Every run of the program is a run of the step machine, so
    that the results about all runs hold for it.
 */
module CoordinatorHandler {
  import opened IdempotencyCell
  import opened IdempotencyContract
  import opened ProgrammaticCoordinator

  datatype Outcome = Answered(answer: Answer) | Raises(failure: Failure)

  /** What the world does around the handler's `k`-th action: the steps of others before it, the
      clock and the fate of the call, whether the request is cancelled by then, and whether the
      handler gets through the unmodelled checks that may raise. */
  datatype World = World(others: seq<Step>, now: int, fate: Fate, cancelled: bool, raises: bool)

  /** A step of somebody else, with a token of his own. */
  predicate Apart(st: Step, w: nat, owner: string) {
    Actor(st) != Some(w) && (st.AskClaim? ==> st.owner != owner)
  }

  /** Which of these steps of others are taken, in their order. */
  function Taken(x: Setting, s: System, acts: seq<Step>, w: nat, owner: string): seq<Step>
    decreases |acts|
  {
    if acts == [] then []
    else if Apart(acts[0], w, owner) && Possible(x, s, acts[0]) then
      [acts[0]] + Taken(x, Do(x, s, acts[0]), acts[1..], w, owner)
    else Taken(x, s, acts[1..], w, owner)
  }

  lemma NoneTaken(x: Setting, s: System, acts: seq<Step>, w: nat, owner: string)
    ensures Taken(x, s, acts[|acts|..], w, owner) == []
  {
  }

  lemma TakenNext(x: Setting, s: System, acts: seq<Step>, i: nat, w: nat, owner: string)
    requires i < |acts|
    ensures Taken(x, s, acts[i..], w, owner)
            == if Apart(acts[i], w, owner) && Possible(x, s, acts[i])
               then [acts[i]] + Taken(x, Do(x, s, acts[i]), acts[i + 1..], w, owner)
               else Taken(x, s, acts[i + 1..], w, owner)
  {
    assert acts[i..][0] == acts[i] && acts[i..][1..] == acts[i + 1..];
  }

  lemma ApartKeepsWorker(x: Setting, s: System, st: Step, w: nat, owner: string)
    requires Possible(x, s, st) && Apart(st, w, owner)
    ensures var s' := Do(x, s, st);
            && (owner in s'.used ==> owner in s.used)
            && (w in s.workers <==> w in s'.workers) && (w in s.workers ==> s'.workers[w] == s.workers[w])
  {
    if !st.Arrive? && !st.Authority? {
      StepMoves(x, s, st);
    }
  }

  /** Where a step can take the worker who takes it. */
  predicate Leads(me: Worker, st: Step, me': Worker) {
    match st
    case AskClaim(_, _, _, _) => me'.Holding? || me'.Polling? || me'.Returned? || me'.Failed?
    case Poll(_, _) => me'.Polling? || me'.Returned? || me'.Failed?
    case Release(_, _) => me'.Failed?
    case Launch(_, _, _) => me'.Cleared? || me'.Failed?
    case Delegate(_) => me'.Delegating?
    case Compose(_, answer) => me'.Writing? && me'.answer == answer
    case Record(_, _, _) => me'.Failed? || (me'.Returned? && me.Writing? && me'.answer == me.answer)
    case GiveUp(_, _) => me'.Failed?
    case Crash(_) => me'.Failed?
    case _ => true
  }

  lemma ClaimLeads(x: Setting, s: System, w: nat, owner: string, now: int, fate: Fate)
    requires w in s.workers
    ensures var me := DoClaim(x, s, w, owner, now, fate).workers[w];
            me.Holding? || me.Polling? || me.Returned? || me.Failed?
  {
  }

  lemma PollLeads(x: Setting, s: System, w: nat, fate: Fate)
    requires w in s.workers
    ensures var me := DoPoll(x, s, w, fate).workers[w]; me.Polling? || me.Returned? || me.Failed?
  {
  }

  lemma RecordLeads(x: Setting, s: System, w: nat, now: int, fate: Fate)
    requires w in s.workers && s.workers[w].Writing?
    ensures var me := DoRecord(x, s, w, now, fate).workers[w];
            me.Failed? || (me.Returned? && me.answer == s.workers[w].answer)
  {
  }

  lemma StepLeads(x: Setting, s: System, st: Step)
    requires Possible(x, s, st) && !st.Arrive? && !st.Authority?
    ensures st.w in Do(x, s, st).workers && Leads(s.workers[st.w], st, Do(x, s, st).workers[st.w])
  {
    match st
    case AskClaim(w, owner, now, fate) => ClaimLeads(x, s, w, owner, now, fate);
    case Poll(w, fate) => PollLeads(x, s, w, fate);
    case Record(w, now, fate) => RecordLeads(x, s, w, now, fate);
    case _ =>
  }

  /** A claim over this record would be granted. */
  predicate Claimable(c: Cell, fingerprint: string, now: int) {
    c.Absent? || (c.Claimed? && c.fingerprint == fingerprint && c.leaseUntil <= now)
  }

  /** The record holds a result for this digest. */
  predicate Answers(c: Cell, fingerprint: string) {
    c.Completed? && c.fingerprint == fingerprint
  }

  /** The worker holds the claim of the record. */
  predicate Claims(s: System, w: nat) {
    w in s.workers && s.workers[w].Holding? && s.cell.Claimed? && Owns(s.cell, s.workers[w])
  }

  /** The worker owns the started record. */
  predicate Works(s: System, w: nat) {
    w in s.workers && s.workers[w].Active() && s.cell.Started? && Owns(s.cell, s.workers[w])
  }

  /** How a step whose call is delivered brings its worker on. */
  predicate Advances(x: Setting, s: System, st: Step, s': System)
    requires !st.Authority? && st.w in s.workers && st.w in s'.workers
  {
    var me, me' := s.workers[st.w], s'.workers[st.w];
    match st
    case AskClaim(w, _, now, Delivered) =>
      && (Claimable(s.cell, me.fingerprint, now) ==> Claims(s', w))
      && (Answers(s.cell, me.fingerprint) ==> me'.Returned? && x.loads(s.cell.result) == Some(me'.answer))
    case Launch(w, _, Delivered) => Claims(s, w) ==> me'.Cleared? && Works(s', w)
    case Delegate(w) => Works(s, w) ==> Works(s', w)
    case Compose(w, _) => Works(s, w) ==> Works(s', w)
    case Record(w, _, Delivered) => Works(s, w) ==> me'.Returned?
    case _ => true
  }

  lemma GrantedClaimHolds(x: Setting, s: System, w: nat, owner: string, now: int)
    requires w in s.workers && Claimable(s.cell, s.workers[w].fingerprint, now)
    ensures Claims(DoClaim(x, s, w, owner, now, Delivered), w)
  {
  }

  lemma CompletedIsReturned(x: Setting, s: System, w: nat, owner: string, now: int)
    requires Lawful(x) && ResultInv(x, s) && w in s.workers && Answers(s.cell, s.workers[w].fingerprint)
    ensures var me := DoClaim(x, s, w, owner, now, Delivered).workers[w];
            me.Returned? && x.loads(s.cell.result) == Some(me.answer)
  {
    var a := CompletedIsRecorded(x, s);
  }

  lemma StepAdvances(x: Setting, s: System, st: Step)
    requires Lawful(x) && ResultInv(x, s) && Possible(x, s, st) && !st.Arrive? && !st.Authority?
    ensures st.w in Do(x, s, st).workers && Advances(x, s, st, Do(x, s, st))
  {
    StepMoves(x, s, st);
    if st.AskClaim? && st.fate.Delivered? {
      if Claimable(s.cell, s.workers[st.w].fingerprint, st.now) {
        GrantedClaimHolds(x, s, st.w, st.owner, st.now);
      }
      if Answers(s.cell, s.workers[st.w].fingerprint) {
        CompletedIsReturned(x, s, st.w, st.owner, st.now);
      }
    }
  }

  // ---------------------------------------------------------------------------
  // What a worker is told
  // ---------------------------------------------------------------------------

  /** Another claim of the same digest is under way. */
  predicate IsHeld(c: Cell, fingerprint: string) {
    (c.Claimed? || c.Started?) && c.fingerprint == fingerprint
  }

  /** The stored result decodes to the answer that this worker returns. */
  predicate ReturnsResult(x: Setting, c: Cell, fingerprint: string, me': Worker)
    requires c.Completed?
  {
    me'.Returned? && me'.fingerprint == fingerprint && x.loads(c.result) == Some(me'.answer)
  }

  /** A claim over this record, where its worker goes. */
  predicate ClaimTells(x: Setting, c: Cell, fingerprint: string, owner: string, now: int, fate: Fate, me': Worker) {
    if !fate.Delivered? then me' == Failed(fingerprint, BackendUnavailable)
    else if !c.Absent? && c.fingerprint != fingerprint then me' == Failed(fingerprint, ConflictingReuse)
    else if c.Completed? then ReturnsResult(x, c, fingerprint, me')
    else if c.Ambiguous? || (c.Started? && c.leaseUntil <= now) then me' == Failed(fingerprint, AmbiguousOutcome)
    else if Claimable(c, fingerprint, now) then
      && me'.Holding? && me'.fingerprint == fingerprint && me'.owner == owner
      && me'.generation == if c.Absent? then 1 else c.generation + 1
    else me' == Polling(fingerprint)
  }

  /** Likewise a read. */
  predicate PollTells(x: Setting, c: Cell, fingerprint: string, fate: Fate, me': Worker) {
    if !fate.Delivered? then me' == Failed(fingerprint, BackendUnavailable)
    else if c.Absent? then me' == Failed(fingerprint, StateInvalid)
    else if c.fingerprint != fingerprint then me' == Failed(fingerprint, ConflictingReuse)
    else if c.Completed? then ReturnsResult(x, c, fingerprint, me')
    else if c.Ambiguous? then me' == Failed(fingerprint, AmbiguousOutcome)
    else me' == Polling(fingerprint)
  }

  /** The record is in the hands of this token. */
  predicate IsOwned(c: Cell, fingerprint: string, owner: string, generation: nat) {
    && (c.Claimed? || c.Started?) && c.fingerprint == fingerprint
    && c.owner == owner && c.generation == generation
  }

  /** Likewise a delegation start. */
  predicate StartTells(c: Cell, fingerprint: string, owner: string, generation: nat, fate: Fate, me': Worker) {
    if !fate.Delivered? then me' == Failed(fingerprint, BackendUnavailable)
    else if c.Claimed? && IsOwned(c, fingerprint, owner, generation) then
      me'.Cleared? && me'.fingerprint == fingerprint && me'.owner == owner && me'.generation == generation
    else me' == Failed(fingerprint, StateInvalid)
  }

  /** Likewise a result. */
  predicate ResultTells(c: Cell, fingerprint: string, owner: string, generation: nat, answer: Answer, fate: Fate,
                        me': Worker) {
    if !fate.Delivered? then me' == Failed(fingerprint, BackendUnavailable)
    else if c.Started? && IsOwned(c, fingerprint, owner, generation) then me' == Returned(fingerprint, answer)
    else me' == Failed(fingerprint, StateInvalid)
  }

  /** Likewise a release. */
  predicate ReleaseTells(c: Cell, fingerprint: string, owner: string, generation: nat, fate: Fate, me': Worker) {
    me' == Failed(fingerprint,
                  if fate.Delivered? && c.Claimed? && IsOwned(c, fingerprint, owner, generation) then Cancelled
                  else BackendUnavailable)
  }

  /** Any step, where its worker goes. */
  predicate Tells(x: Setting, c: Cell, st: Step, me: Worker, me': Worker)
    requires st.Release? || st.Launch? || st.Delegate? || st.Compose? || st.Record? ==> me.Active()
    requires st.Record? ==> me.Writing?
  {
    match st
    case AskClaim(_, owner, now, fate) => ClaimTells(x, c, me.fingerprint, owner, now, fate, me')
    case Poll(_, fate) => PollTells(x, c, me.fingerprint, fate, me')
    case GiveUp(_, failure) => me' == Failed(me.fingerprint, failure)
    case Release(_, fate) => ReleaseTells(c, me.fingerprint, me.owner, me.generation, fate, me')
    case Launch(_, _, fate) => StartTells(c, me.fingerprint, me.owner, me.generation, fate, me')
    case Delegate(_) => me' == Delegating(me.fingerprint, me.owner, me.generation, me.life)
    case Compose(_, answer) => me' == Writing(me.fingerprint, me.owner, me.generation, me.life, answer)
    case Record(_, _, fate) => ResultTells(c, me.fingerprint, me.owner, me.generation, me.answer, fate, me')
    case Crash(_) => me' == Failed(me.fingerprint, Crashed)
    case _ => true
  }

  /** The answer that a completed record stands for is this digest's. */
  lemma CompletedHeeds(x: Setting, s: System, w: nat)
    requires Lawful(x) && ResultInv(x, s) && s.cell.Completed?
    ensures ReturnsResult(x, s.cell, s.cell.fingerprint, Heed(x, s, w, s.cell.fingerprint, Decision(s.cell)).workers[w])
  {
    var a := CompletedIsRecorded(x, s);
  }

  lemma ClaimTold(x: Setting, s: System, w: nat, owner: string, now: int, fate: Fate)
    requires Lawful(x) && ResultInv(x, s) && w in s.workers
    ensures ClaimTells(x, s.cell, s.workers[w].fingerprint, owner, now, fate,
                       DoClaim(x, s, w, owner, now, fate).workers[w])
  {
    if fate.Delivered? && s.cell.Completed? && s.cell.fingerprint == s.workers[w].fingerprint {
      CompletedHeeds(x, s, w);
      var moved := Processed(x, s, w, owner, now);
      assert moved.cell == s.cell && moved.life == s.life;
      HeedWorker(x, s, moved, w, s.cell.fingerprint);
    }
  }

  lemma HeedWorker(x: Setting, s: System, moved: System, w: nat, fingerprint: string)
    requires !s.cell.Absent?
    ensures Heed(x, s, w, fingerprint, Decision(s.cell)).workers[w]
            == Heed(x, moved, w, fingerprint, Decision(s.cell)).workers[w]
  {
  }

  lemma PollTold(x: Setting, s: System, w: nat, fate: Fate)
    requires Lawful(x) && ResultInv(x, s) && w in s.workers
    ensures PollTells(x, s.cell, s.workers[w].fingerprint, fate, DoPoll(x, s, w, fate).workers[w])
  {
    if fate.Delivered? && s.cell.Completed? && s.cell.fingerprint == s.workers[w].fingerprint {
      CompletedHeeds(x, s, w);
    }
  }

  lemma StepTells(x: Setting, s: System, st: Step)
    requires Lawful(x) && ResultInv(x, s) && Possible(x, s, st) && !st.Arrive? && !st.Authority?
    ensures st.w in Do(x, s, st).workers && Tells(x, s.cell, st, s.workers[st.w], Do(x, s, st).workers[st.w])
  {
    match st
    case AskClaim(w, owner, now, fate) => ClaimTold(x, s, w, owner, now, fate);
    case Poll(w, fate) => PollTold(x, s, w, fate);
    case _ =>
  }

  /** The steps by which a worker looks at the record. */
  predicate Asks(st: Step) {
    st.AskClaim? || st.Poll? || st.Release? || st.Launch? || st.Record?
  }

  /** What the record was at each look of this worker during a run. */
  function Looks(x: Setting, s: System, steps: seq<Step>, w: nat): seq<Cell>
    decreases |steps|
  {
    if steps == [] || !Possible(x, s, steps[0]) then []
    else (if Asks(steps[0]) && Actor(steps[0]) == Some(w) then [s.cell] else [])
         + Looks(x, Do(x, s, steps[0]), steps[1..], w)
  }

  lemma {:induction false} LooksGrow(x: Setting, s: System, steps: seq<Step>, s': System, st: Step, w: nat)
    requires Run(x, s, steps, s') && Possible(x, s', st)
    ensures Looks(x, s, steps + [st], w)
            == Looks(x, s, steps, w) + if Asks(st) && Actor(st) == Some(w) then [s'.cell] else []
    decreases |steps|
  {
    if steps == [] {
      assert [st][1..] == [];
    } else {
      LooksGrow(x, Do(x, s, steps[0]), steps[1..], s', st, w);
      assert (steps + [st])[1..] == steps[1..] + [st];
    }
  }

  // ---------------------------------------------------------------------------
  // What the handler makes of it
  // ---------------------------------------------------------------------------

  /** During these polls, the first one in the world `start`, another worker holds the record. */
  predicate Waits(fingerprint: string, looks: seq<Cell>, world: nat -> World, start: nat) {
    forall i :: 0 <= i < |looks| ==>
      IsHeld(looks[i], fingerprint) && world(start + i).fate.Delivered? && !world(start + i).cancelled
  }

  /** How waiting ends: after the last poll, by cancellation between two polls, or with what the
      last poll told. */
  predicate Waited(x: Setting, fingerprint: string, patience: nat, looks: seq<Cell>, world: nat -> World, start: nat,
                   me: Worker) {
    var n := |looks|;
    || (n == patience && Waits(fingerprint, looks, world, start) && me == Failed(fingerprint, StillInProgress))
    || (n < patience && Waits(fingerprint, looks, world, start) && world(start + n).cancelled
        && me == Failed(fingerprint, Cancelled))
    || (0 < n <= patience && Waits(fingerprint, looks[..n - 1], world, start) && !world(start + n - 1).cancelled
        && me != Polling(fingerprint) && PollTells(x, looks[n - 1], fingerprint, world(start + n - 1).fate, me))
  }

  /** How the claim and the waiting behind it end. */
  predicate ClaimedOrWaited(x: Setting, fingerprint: string, owner: string, patience: nat, looks: seq<Cell>,
                            world: nat -> World, start: nat, me: Worker) {
    && looks != []
    && var first := world(start);
       if ClaimTells(x, looks[0], fingerprint, owner, first.now, first.fate, Polling(fingerprint)) then
         Waited(x, fingerprint, patience, looks[1..], world, start + 1, me)
       else |looks| == 1 && ClaimTells(x, looks[0], fingerprint, owner, first.now, first.fate, me)
  }

  /** How the work behind the transport call ends. */
  predicate Concluded(fingerprint: string, owner: string, generation: nat, answer: Answer, looks: seq<Cell>,
                      working: World, last: World, me: Worker) {
    if working.raises || working.cancelled then looks == [] && me == Failed(fingerprint, Crashed)
    else |looks| == 1 && ResultTells(looks[0], fingerprint, owner, generation, answer, last.fate, me)
  }

  /** How the work under a claim ends. */
  predicate Worked(fingerprint: string, owner: string, generation: nat, answer: Answer, looks: seq<Cell>,
                   world: nat -> World, start: nat, delegated: int, me: Worker) {
    && looks != []
    && var c, first := looks[0], world(start);
       if first.cancelled then
         |looks| == 1 && delegated == 0 && ReleaseTells(c, fingerprint, owner, generation, first.fate, me)
       else if !first.fate.Delivered? || !c.Claimed? || !IsOwned(c, fingerprint, owner, generation) then
         |looks| == 1 && delegated == 0 && StartTells(c, fingerprint, owner, generation, first.fate, me)
       else
         && delegated == 1
         && Concluded(fingerprint, owner, generation, answer, looks[1..], world(start + 2), world(start + 3), me)
  }

  lemma WaitingStarts(fingerprint: string, world: nat -> World, start: nat)
    ensures Waits(fingerprint, [], world, start)
  {
  }

  /** One more poll: the waiting goes on exactly if the record is still held. */
  lemma PollGoesOn(x: Setting, fingerprint: string, patience: nat, looks: seq<Cell>, c: Cell, world: nat -> World,
                   start: nat, me: Worker)
    requires Waits(fingerprint, looks, world, start) && |looks| < patience
    requires var here := world(start + |looks|);
             !here.cancelled && PollTells(x, c, fingerprint, here.fate, me)
    ensures me.Polling? ==> Waits(fingerprint, looks + [c], world, start)
    ensures !me.Polling? ==> Waited(x, fingerprint, patience, looks + [c], world, start, me)
    ensures me.Polling? || me.Returned? || me.Failed?
  {
    var grown := looks + [c];
    assert grown[..|looks|] == looks && grown[|looks|] == c;
    if me.Polling? {
      forall i | 0 <= i < |grown|
        ensures IsHeld(grown[i], fingerprint)
        ensures world(start + i).fate.Delivered? && !world(start + i).cancelled
      {
        if i < |looks| {
          assert grown[i] == looks[i];
        }
      }
    }
  }

  lemma WaitingEnds(x: Setting, fingerprint: string, patience: nat, looks: seq<Cell>, world: nat -> World, start: nat,
                    failure: Failure)
    requires Waits(fingerprint, looks, world, start)
    requires || (|looks| == patience && failure == StillInProgress)
             || (|looks| < patience && world(start + |looks|).cancelled && failure == Cancelled)
    ensures Waited(x, fingerprint, patience, looks, world, start, Failed(fingerprint, failure))
  {
  }

  lemma ClaimEnds(x: Setting, fingerprint: string, owner: string, patience: nat, c: Cell, world: nat -> World,
                  start: nat, me: Worker)
    requires ClaimTells(x, c, fingerprint, owner, world(start).now, world(start).fate, me) && !me.Polling?
    ensures ClaimedOrWaited(x, fingerprint, owner, patience, [c], world, start, me)
  {
  }

  lemma ClaimWaits(x: Setting, fingerprint: string, owner: string, patience: nat, c: Cell, polled: seq<Cell>,
                   world: nat -> World, start: nat, me: Worker)
    requires ClaimTells(x, c, fingerprint, owner, world(start).now, world(start).fate, Polling(fingerprint))
    requires Waited(x, fingerprint, patience, polled, world, start + 1, me)
    ensures ClaimedOrWaited(x, fingerprint, owner, patience, [c] + polled, world, start, me)
  {
    assert ([c] + polled)[1..] == polled;
  }

  /** A claim that is not granted: giving up after the last poll takes `patience` polls, and the
      result that a delivered poll finds is returned. */
  lemma WaitingTells(x: Setting, fingerprint: string, owner: string, patience: nat, looks: seq<Cell>,
                     world: nat -> World, start: nat, me: Worker)
    requires ClaimedOrWaited(x, fingerprint, owner, patience, looks, world, start, me)
    ensures me == Failed(fingerprint, StillInProgress) ==>
              |looks| == patience + 1 && forall i :: 1 <= i <= patience ==> IsHeld(looks[i], fingerprint)
    ensures forall i :: 1 <= i < |looks| && world(start + i).fate.Delivered?
                        && looks[i].Completed? && looks[i].fingerprint == fingerprint ==>
              me.Returned? && x.loads(looks[i].result) == Some(me.answer)
    ensures forall i :: 1 <= i < |looks| && world(start + i).fate.Delivered?
                        && looks[i].Ambiguous? && looks[i].fingerprint == fingerprint ==>
              me == Failed(fingerprint, AmbiguousOutcome)
  {
    if |looks| > 1 {
      var polled := looks[1..];
      assert forall i :: 1 <= i < |looks| ==> looks[i] == polled[i - 1];
    }
  }

  /** The claim is in hand exactly if the call for it was delivered over a claimable record. */
  lemma ClaimHolds(x: Setting, fingerprint: string, owner: string, patience: nat, looks: seq<Cell>,
                   world: nat -> World, start: nat, me: Worker)
    requires ClaimedOrWaited(x, fingerprint, owner, patience, looks, world, start, me)
    ensures looks != []
    ensures me.Holding? <==> world(start).fate.Delivered? && Claimable(looks[0], fingerprint, world(start).now)
    ensures me.Holding? ==>
              && |looks| == 1 && me.owner == owner
              && me.generation == if looks[0].Absent? then 1 else looks[0].generation + 1
  {
  }

  lemma WorkEndsEarly(fingerprint: string, owner: string, generation: nat, answer: Answer, c: Cell,
                      world: nat -> World, start: nat, me: Worker)
    requires var first := world(start);
             if first.cancelled then ReleaseTells(c, fingerprint, owner, generation, first.fate, me)
             else StartTells(c, fingerprint, owner, generation, first.fate, me) && me.Failed?
    ensures Worked(fingerprint, owner, generation, answer, [c], world, start, 0, me)
  {
  }

  lemma WorkEnds(fingerprint: string, owner: string, generation: nat, answer: Answer, c: Cell, more: seq<Cell>,
                 world: nat -> World, start: nat, started: Worker, me: Worker)
    requires !world(start).cancelled && StartTells(c, fingerprint, owner, generation, world(start).fate, started)
    requires started.Cleared?
    requires Concluded(fingerprint, owner, generation, answer, more, world(start + 2), world(start + 3), me)
    ensures Worked(fingerprint, owner, generation, answer, [c] + more, world, start, 1, me)
  {
    assert ([c] + more)[1..] == more;
  }

  /** Work that is answered has called the transport and answers its own result. */
  lemma WorkAnswers(fingerprint: string, owner: string, generation: nat, answer: Answer, looks: seq<Cell>,
                    world: nat -> World, start: nat, delegated: int, me: Worker)
    requires Worked(fingerprint, owner, generation, answer, looks, world, start, delegated, me)
    ensures 0 <= delegated <= 1
    ensures me.Returned? ==> delegated == 1 && me.answer == answer
    ensures me != Failed(fingerprint, StillInProgress)
  {
  }

  lemma HeedingReplies(x: Setting, s: System, w: nat, fingerprint: string, claim: Claim)
    ensures var s' := Heed(x, s, w, fingerprint, claim);
            s'.workers[w].Returned? ==> (s.life, s'.workers[w].answer) in s'.replies
  {
  }

  lemma ClaimReplies(x: Setting, s: System, w: nat, owner: string, now: int, fate: Fate)
    requires w in s.workers
    ensures var s' := DoClaim(x, s, w, owner, now, fate);
            s'.workers[w].Returned? ==> (s'.life, s'.workers[w].answer) in s'.replies
  {
    var moved := Processed(x, s, w, owner, now);
    if !moved.cell.Absent? {
      HeedingReplies(x, moved, w, s.workers[w].fingerprint, Decision(moved.cell));
    }
  }

  lemma PollReplies(x: Setting, s: System, w: nat, fate: Fate)
    requires w in s.workers
    ensures var s' := DoPoll(x, s, w, fate);
            s'.workers[w].Returned? ==> (s.life, s'.workers[w].answer) in s'.replies
  {
    if !s.cell.Absent? {
      HeedingReplies(x, s, w, s.workers[w].fingerprint, Decision(s.cell));
    }
  }

  lemma RecordReplies(x: Setting, s: System, w: nat, now: int, fate: Fate)
    requires w in s.workers && s.workers[w].Writing?
    ensures var s' := DoRecord(x, s, w, now, fate);
            s'.workers[w].Returned? ==> (s.workers[w].life, s'.workers[w].answer) in s'.replies
  {
  }

  /** A worker returns only by a step that gives a reply. */
  lemma ReturnsAreReplies(x: Setting, s: System, st: Step)
    requires Possible(x, s, st) && !st.Arrive? && !st.Authority?
    ensures var s' := Do(x, s, st);
            && st.w in s'.workers
            && (s'.workers[st.w].Returned? ==> exists life :: (life, s'.workers[st.w].answer) in s'.replies)
  {
    StepLeads(x, s, st);
    match st
    case AskClaim(w, owner, now, fate) => ClaimReplies(x, s, w, owner, now, fate);
    case Poll(w, fate) => PollReplies(x, s, w, fate);
    case Record(w, now, fate) => RecordReplies(x, s, w, now, fate);
    case _ =>
  }

  /** Hence it returns an answer that was recorded. */
  lemma ReturnsAreRecorded(x: Setting, steps: seq<Step>, s': System, w: nat, s: System, st: Step)
    requires Lawful(x) && Run(x, START, steps, s') && Possible(x, s, st) && s' == Do(x, s, st) && Actor(st) == Some(w)
    requires w in s.workers && w in s'.workers && s'.workers[w].Returned?
    ensures exists life :: (life, s'.workers[w].answer) in s'.recorded
  {
    RunKeepsInv(x, START, steps, s');
    ReturnsAreReplies(x, s, st);
    var life :| (life, s'.workers[w].answer) in s'.replies;
    assert (life, s'.workers[w].answer) in s'.recorded;
  }

  /** What a step makes of the worker who takes it. */
  lemma StepOfWorker(x: Setting, steps: seq<Step>, s: System, st: Step, w: nat)
    requires Lawful(x) && Run(x, START, steps, s) && Possible(x, s, st) && Actor(st) == Some(w) && w in s.workers
    ensures var s' := Do(x, s, st);
            && w in s'.workers && s'.workers[w].fingerprint == s.workers[w].fingerprint
            && Leads(s.workers[w], st, s'.workers[w]) && Advances(x, s, st, s')
            && Tells(x, s.cell, st, s.workers[w], s'.workers[w])
  {
    RunKeepsInv(x, START, steps, s);
    StepMoves(x, s, st);
    StepLeads(x, s, st);
    StepAdvances(x, s, st);
    StepTells(x, s, st);
  }

  /** If it is through then, it returns a recorded answer or fails for a good reason. */
  lemma StepEndsWell(x: Setting, steps: seq<Step>, s: System, st: Step, w: nat)
    requires Lawful(x) && Run(x, START, steps, s) && Possible(x, s, st) && Actor(st) == Some(w) && w in s.workers
    requires w in Do(x, s, st).workers
    ensures var s' := Do(x, s, st);
            && (s'.workers[w].Returned? ==> exists life :: (life, s'.workers[w].answer) in s'.recorded)
            && (s'.workers[w].Failed? ==> s'.workers[w].failure != IdentityMismatch)
  {
    var s' := Do(x, s, st);
    RunGrows(x, START, steps, s, st);
    if s'.workers[w].Returned? {
      ReturnsAreRecorded(x, steps + [st], s', w, s, st);
    }
    if s'.workers[w].Failed? {
      IdentityMismatchIsUnreachable(x, steps + [st], s', w);
    }
  }

  /** How often this worker has called the transport in these steps. */
  function Delegations(steps: seq<Step>, w: nat): nat {
    if steps == [] then 0
    else
      var last := steps[|steps| - 1];
      Delegations(steps[..|steps| - 1], w) + if last == Delegate(w) then 1 else 0
  }

  lemma OneMoreStep(steps: seq<Step>, st: Step, w: nat)
    ensures Delegations(steps + [st], w) == Delegations(steps, w) + if st == Delegate(w) then 1 else 0
  {
    assert (steps + [st])[..|steps|] == steps;
  }

  /** A worker that has not arrived has called nothing. */
  lemma {:induction false} StrangersDelegateNothing(x: Setting, steps: seq<Step>, s: System, w: nat)
    requires Run(x, START, steps, s) && w !in s.workers
    ensures Delegations(steps, w) == 0
    decreases |steps|
  {
    if steps == [] {
    } else {
      var mid := RunSplits(x, START, steps, s);
      StrangersWereStrangers(x, mid, steps[|steps| - 1], w);
      StrangersDelegateNothing(x, steps[..|steps| - 1], mid, w);
    }
  }

  lemma StrangersWereStrangers(x: Setting, s: System, st: Step, w: nat)
    requires Possible(x, s, st) && w !in Do(x, s, st).workers
    ensures w !in s.workers && Actor(st) != Some(w)
  {
    if !st.Arrive? && !st.Authority? {
      StepMoves(x, s, st);
    }
  }

  class Handler {
    const x: Setting
    const world: nat -> World
    const w: nat
    const fingerprint: string
    const owner: string
    var system: System
    var tick: nat
    ghost var steps: seq<Step>

    /** A request arrives at a worker that draws a fresh token. */
    constructor (x: Setting, world: nat -> World, ghost before: seq<Step>, system: System, w: nat, fingerprint: string,
                 owner: string)
      requires Lawful(x) && Run(x, START, before, system) && w !in system.workers && owner !in system.used
      ensures Valid() && this.x == x && this.w == w && this.fingerprint == fingerprint
      ensures this.system.workers[w] == Fresh(fingerprint) && owner !in this.system.used && this.owner == owner
      ensures this.steps == before + [Arrive(w, fingerprint)] && Delegations(this.steps, w) == 0
    {
      this.x, this.world, this.w, this.fingerprint, this.owner := x, world, w, fingerprint, owner;
      this.system := Put(system, w, Fresh(fingerprint));
      tick, steps := 0, before + [Arrive(w, fingerprint)];
      RunGrows(x, START, before, system, Arrive(w, fingerprint));
      StrangersDelegateNothing(x, before, system, w);
      OneMoreStep(before, Arrive(w, fingerprint), w);
    }

    ghost predicate Valid()
      reads this
    {
      && Lawful(x) && Run(x, START, steps, system)
      && w in system.workers && system.workers[w].fingerprint == fingerprint
    }

    /** Where the handler is. */
    function Me(): Worker
      reads this
      requires w in system.workers
    {
      system.workers[w]
    }

    /** What the record was whenever this worker looked. */
    ghost function Seen(): seq<Cell>
      reads this
    {
      Looks(x, START, steps, w)
    }

    /** From now on nobody interferes, every call is delivered, and nothing stops the handler. */
    ghost predicate Undisturbed() {
      forall t: nat :: world(t).others == [] && world(t).fate.Delivered? && !world(t).cancelled && !world(t).raises
    }

    /** A step of somebody else is taken if it is possible. */
    method Let(act: Step)
      requires Valid()
      modifies this`system, this`steps
      ensures Valid() && Me() == old(Me()) && (owner in system.used ==> owner in old(system).used)
      ensures if Apart(act, w, owner) && Possible(x, old(system), act)
              then system == Do(x, old(system), act) && steps == old(steps) + [act]
              else system == old(system) && steps == old(steps)
      ensures Delegations(steps, w) == Delegations(old(steps), w) && Seen() == old(Seen())
    {
      hide Run, Looks, Delegations, Do;
      if Apart(act, w, owner) && Possible(x, system, act) {
        ApartKeepsWorker(x, system, act, w, owner);
        RunGrows(x, START, steps, system, act);
        OneMoreStep(steps, act, w);
        LooksGrow(x, START, steps, system, act, w);
        system, steps := Do(x, system, act), steps + [act];
      }
    }

    /** Steps of the others that are possible are taken, in this order. */
    method Others()
      requires Valid()
      modifies this`system, this`steps
      ensures Valid() && Me() == old(Me()) && (owner in system.used ==> owner in old(system).used)
      ensures old(steps) <= steps && Delegations(steps, w) == Delegations(old(steps), w)
      ensures world(tick).others == [] ==> system == old(system)
      ensures Seen() == old(Seen())
      ensures steps == old(steps) + Taken(x, old(system), world(tick).others, w, owner)
    {
      hide Run, Looks, Delegations, Do, Apart, Possible, Taken;
      var acts := world(tick).others;
      assert acts[0..] == acts;
      for i := 0 to |acts|
        invariant Valid() && Me() == old(Me()) && (owner in system.used ==> owner in old(system).used)
        invariant old(steps) <= steps && Delegations(steps, w) == Delegations(old(steps), w)
        invariant acts == [] ==> system == old(system)
        invariant Seen() == old(Seen())
        invariant old(steps) + Taken(x, old(system), acts, w, owner) == steps + Taken(x, system, acts[i..], w, owner)
      {
        TakenNext(x, system, acts, i, w, owner);
        Let(acts[i]);
      }
      NoneTaken(x, system, acts, w, owner);
    }

    method Take(st: Step)
      requires Valid() && Possible(x, system, st) && Actor(st) == Some(w)
      modifies this`system, this`steps, this`tick
      ensures Valid() && steps == old(steps) + [st] && tick == old(tick) + 1
      ensures Advances(x, old(system), st, system) && Tells(x, old(system).cell, st, old(Me()), Me())
      ensures Seen() == old(Seen()) + if Asks(st) then [old(system).cell] else []
      ensures Delegations(steps, w) == Delegations(old(steps), w) + if st.Delegate? then 1 else 0
      ensures Me().Returned? || Me().Failed? ==> Finished()
    {
      StepOfWorker(x, steps, system, st, w);
      StepEndsWell(x, steps, system, st, w);
      RunGrows(x, START, steps, system, st);
      OneMoreStep(steps, st, w);
      LooksGrow(x, START, steps, system, st, w);
      system, steps, tick := Do(x, system, st), steps + [st], tick + 1;
    }

    /** The next action, over the record `c` that the others have left. */
    method Act(st: Step) returns (ghost c: Cell)
      requires Valid() && Possible(x, system, st) && Actor(st) == Some(w) && (st.AskClaim? ==> st.owner == owner)
      modifies this`system, this`steps, this`tick
      ensures Valid() && old(steps) <= steps && tick == old(tick) + 1
      ensures Tells(x, c, st, old(Me()), Me())
      ensures Seen() == old(Seen()) + if Asks(st) then [c] else []
      ensures Delegations(steps, w) == Delegations(old(steps), w) + if st.Delegate? then 1 else 0
      ensures Me().Returned? || Me().Failed? ==> Finished()
      ensures Undisturbed() ==> c == old(system).cell && Advances(x, old(system), st, system)
    {
      hide Run, Looks, Do, Delegations, Tells, Advances;
      Others();
      c := system.cell;
      Take(st);
    }

    /** Claims the record; while another worker holds it, polls until it is completed, in doubt
        or gone, `patience` times at most. */
    method ClaimOrWait(patience: nat) returns (ghost looks: seq<Cell>)
      requires Valid() && Me().Fresh? && owner !in system.used
      modifies this`system, this`steps, this`tick
      ensures Valid() && old(steps) <= steps && Delegations(steps, w) == Delegations(old(steps), w)
      ensures Me().Holding? || Finished()
      ensures Seen() == old(Seen()) + looks
      ensures ClaimedOrWaited(x, fingerprint, owner, patience, looks, world, old(tick), Me())
      ensures Me().Holding? ==> tick == old(tick) + 1
      ensures Undisturbed() && Claimable(old(system).cell, fingerprint, world(old(tick)).now) ==> Claims(system, w)
      ensures Undisturbed() && Answers(old(system).cell, fingerprint) ==>
                Me().Returned? && x.loads(old(system).cell.result) == Some(Me().answer)
    {
      hide Run, Looks, Do, Delegations, ClaimedOrWaited, Waited;
      ghost var c := Act(AskClaim(w, owner, world(tick).now, world(tick).fate));
      looks := [c];
      if Me().Polling? {
        ghost var polled := Wait(patience);
        looks := looks + polled;
        ClaimWaits(x, fingerprint, owner, patience, c, polled, world, old(tick), Me());
      } else {
        ClaimEnds(x, fingerprint, owner, patience, c, world, old(tick), Me());
      }
    }

    /** Polls while another worker holds the record. */
    method Wait(patience: nat) returns (ghost looks: seq<Cell>)
      requires Valid() && Me().Polling?
      modifies this`system, this`steps, this`tick
      ensures Valid() && old(steps) <= steps && Delegations(steps, w) == Delegations(old(steps), w)
      ensures Finished()
      ensures Seen() == old(Seen()) + looks
      ensures Waited(x, fingerprint, patience, looks, world, old(tick), Me())
    {
      hide Run, Looks, Do, Delegations, Waits, Waited, PollTells;
      var polls := patience;
      looks := [];
      WaitingStarts(fingerprint, world, tick);
      while Me().Polling?
        invariant Valid() && old(steps) <= steps && Delegations(steps, w) == Delegations(old(steps), w)
        invariant Me().Polling? || Finished()
        invariant Seen() == old(Seen()) + looks && polls == patience - |looks| && tick == old(tick) + |looks|
        invariant if Me().Polling? then Waits(fingerprint, looks, world, old(tick))
                  else Waited(x, fingerprint, patience, looks, world, old(tick), Me())
        decreases polls, Me().Polling?
      {
        ghost var c;
        if polls == 0 {
          WaitingEnds(x, fingerprint, patience, looks, world, old(tick), StillInProgress);
          c := Act(GiveUp(w, StillInProgress));
          return;
        }
        polls := polls - 1;
        if world(tick).cancelled {
          WaitingEnds(x, fingerprint, patience, looks, world, old(tick), Cancelled);
          c := Act(GiveUp(w, Cancelled));
          return;
        }
        c := Act(Poll(w, world(tick).fate));
        PollGoesOn(x, fingerprint, patience, looks, c, world, old(tick), Me());
        looks := looks + [c];
      }
    }

    /** The handler has nothing left to do: it answers what was recorded or raises. */
    ghost predicate Finished()
      reads this
      requires w in system.workers
    {
      || (Me().Returned? && exists life :: (life, Me().answer) in system.recorded)
      || (Me().Failed? && Me().failure != IdentityMismatch)
    }

    /** From the recorded start to the recorded result. */
    method Execute(answer: Answer) returns (ghost looks: seq<Cell>)
      requires Valid() && Me().Cleared? && answer.requestId == x.requestIdOf(fingerprint)
      modifies this`system, this`steps, this`tick
      ensures Valid() && Finished() && old(steps) <= steps
      ensures Delegations(steps, w) == Delegations(old(steps), w) + 1
      ensures Seen() == old(Seen()) + looks
      ensures Concluded(fingerprint, old(Me()).owner, old(Me()).generation, answer, looks, world(old(tick) + 1),
                        world(old(tick) + 2), Me())
      ensures Undisturbed() && old(Works(system, w)) ==> Me().Returned?
    {
      hide Run, Looks, Do, Delegations, ClaimTells, PollTells, StartTells, ReleaseTells, ResultTells;
      ghost var c := Act(Delegate(w));
      if world(tick).raises || world(tick).cancelled {
        c := Act(Crash(w));
        return [];
      }
      looks := Conclude(answer);
    }

    /** From the transport's answer to the recorded result. */
    method Conclude(answer: Answer) returns (ghost looks: seq<Cell>)
      requires Valid() && Me().Delegating? && answer.requestId == x.requestIdOf(fingerprint)
      modifies this`system, this`steps, this`tick
      ensures Valid() && Finished() && old(steps) <= steps
      ensures Delegations(steps, w) == Delegations(old(steps), w)
      ensures Seen() == old(Seen()) + looks && |looks| == 1
      ensures ResultTells(looks[0], fingerprint, old(Me()).owner, old(Me()).generation, answer,
                          world(old(tick) + 1).fate, Me())
      ensures Undisturbed() && old(Works(system, w)) ==> Me().Returned?
    {
      hide Run, Looks, Do;
      ghost var c := Act(Compose(w, answer));
      c := Act(Record(w, world(tick).now, world(tick).fate));
      looks := [c];
    }

    /** With the claim in hand: gives it back if cancelled, or else starts. */
    method Proceed(answer: Answer) returns (ghost looks: seq<Cell>)
      requires Valid() && Me().Holding? && answer.requestId == x.requestIdOf(fingerprint)
      modifies this`system, this`steps, this`tick
      ensures Valid() && Finished() && old(steps) <= steps
      ensures Seen() == old(Seen()) + looks
      ensures Worked(fingerprint, old(Me()).owner, old(Me()).generation, answer, looks, world, old(tick),
                     Delegations(steps, w) - Delegations(old(steps), w), Me())
      ensures Undisturbed() && old(Claims(system, w)) ==> Me().Returned?
    {
      hide Run, Looks, Do, Delegations, Worked, Concluded, ClaimTells, PollTells, ResultTells;
      ghost var me := Me();
      ghost var c;
      if world(tick).cancelled {
        c := Act(Release(w, world(tick).fate));
        WorkEndsEarly(fingerprint, me.owner, me.generation, answer, c, world, old(tick), Me());
        return [c];
      }
      c := Act(Launch(w, world(tick).now, world(tick).fate));
      if Me().Failed? {
        WorkEndsEarly(fingerprint, me.owner, me.generation, answer, c, world, old(tick), Me());
        return [c];
      }
      ghost var started := Me();
      ghost var more := Execute(answer);
      WorkEnds(fingerprint, me.owner, me.generation, answer, c, more, world, old(tick), started, Me());
      looks := [c] + more;
    }

    /** `handle`, once the request is parsed. `answer` is what the transport and the synthesis
        produce for it. The outcome is an answer that was recorded, or a failure other than an
        identity mismatch, and the transport is called once at most. */
    method Handle(answer: Answer, patience: nat) returns (r: Outcome, ghost looks: seq<Cell>)
      requires Valid() && Me().Fresh? && owner !in system.used && Delegations(steps, w) == 0
      requires answer.requestId == x.requestIdOf(fingerprint)
      modifies this`system, this`steps, this`tick
      ensures Valid() && Finished() && old(steps) <= steps && Delegations(steps, w) <= 1
      ensures r == if Me().Returned? then Answered(Me().answer) else Raises(Me().failure)
      ensures r.Answered? && Delegations(steps, w) == 1 ==> r.answer == answer
      // The outcome follows from the record at each look: the first one decides whether to work, to
      // wait, or to end at once.
      ensures Seen() == old(Seen()) + looks && looks != []
      ensures var first := world(old(tick));
              if first.fate.Delivered? && Claimable(looks[0], fingerprint, first.now) then
                Worked(fingerprint, owner, if looks[0].Absent? then 1 else looks[0].generation + 1, answer, looks[1..],
                       world, old(tick) + 1, Delegations(steps, w), Me())
              else
                && Delegations(steps, w) == 0
                && ClaimedOrWaited(x, fingerprint, owner, patience, looks, world, old(tick), Me())
      // Who does not work gives up only after `patience` polls of a record in other hands, and returns
      // the result, or reports the doubt, that any delivered poll finds.
      ensures r == Raises(StillInProgress) ==>
                |looks| == patience + 1 && forall i :: 1 <= i <= patience ==> IsHeld(looks[i], fingerprint)
      ensures var first := world(old(tick));
              !(first.fate.Delivered? && Claimable(looks[0], fingerprint, first.now)) ==>
                && Delegations(steps, w) == 0
                && (forall i :: 1 <= i < |looks| && world(old(tick) + i).fate.Delivered?
                                && looks[i].Completed? && looks[i].fingerprint == fingerprint ==>
                      r.Answered? && x.loads(looks[i].result) == Some(r.answer))
                && (forall i :: 1 <= i < |looks| && world(old(tick) + i).fate.Delivered?
                                && looks[i].Ambiguous? && looks[i].fingerprint == fingerprint ==>
                      r == Raises(AmbiguousOutcome))
      // Undisturbed, a free record is claimed, worked on and answered, and a completed one is answered
      // from the record.
      ensures Undisturbed() && Claimable(old(system).cell, fingerprint, world(old(tick)).now) ==>
                r == Answered(answer) && Delegations(steps, w) == 1
      ensures Undisturbed() && Answers(old(system).cell, fingerprint) ==>
                r.Answered? && x.loads(old(system).cell.result) == Some(r.answer) && Delegations(steps, w) == 0
    {
      hide Run, Looks, Do, Delegations, ClaimedOrWaited, Waited, Worked, Concluded, IsHeld;
      hide ClaimTells, PollTells, Advances, Tells, Owns;
      looks := ClaimOrWait(patience);
      ClaimHolds(x, fingerprint, owner, patience, looks, world, old(tick), Me());
      if Me().Holding? {
        ghost var claimed, me := looks[0], Me();
        ghost var worked := Proceed(answer);
        looks := [claimed] + worked;
        assert looks[1..] == worked;
        WorkAnswers(fingerprint, me.owner, me.generation, answer, worked, world, old(tick) + 1, Delegations(steps, w),
                    Me());
      } else {
        WaitingTells(x, fingerprint, owner, patience, looks, world, old(tick), Me());
      }
      r := if Me().Returned? then Answered(Me().answer) else Raises(Me().failure);
    }
  }
}
