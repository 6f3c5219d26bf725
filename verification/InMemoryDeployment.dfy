/** Any number of workers whose calls go to the in-process store. */
module InMemoryDeployment {
  import opened IdempotencyCell
  import opened IdempotencyContract
  import opened ProgrammaticCoordinator
  import opened Deployment
  import Stores = InMemoryIdempotencyStore

  class Service {
    const scope: Scope
    const requestId: string
    const store: Stores.Store
    const machine: Machine

    constructor (x: Setting, scope: Scope, requestId: string)
      requires Deployable(x, requestId)
      ensures Valid() && machine.x == x && machine.system == START
      ensures fresh(machine) && fresh(store) && fresh(store.records.Values)
    {
      this.scope, this.requestId := scope, requestId;
      store := new Stores.Store();
      machine := new Machine(x);
    }

    /** The store's record is the record of a run of the system. */
    ghost predicate Valid()
      reads this, machine, store, store.records.Values
    {
      && Deployable(machine.x, requestId) && machine.Valid() && store.Valid()
      && store.CellAt(Key()) == machine.system.cell
    }

    function Key(): string {
      KeyMaterial(scope, requestId)
    }

    /** The store has dropped an expired result. */
    method NotePurge(now: int)
      requires machine.Valid()
      modifies machine
      ensures machine.Valid()
      ensures machine.system.workers == old(machine.system).workers && machine.system.used == old(machine.system).used
      ensures var cell := old(machine.system).cell;
              && machine.steps == old(machine.steps) + Noted(PurgeLabels(cell, now))
              && machine.system.cell == if PurgeLabels(cell, now) == [] then cell else Absent
    {
      if machine.system.cell.Completed? && machine.system.cell.until <= now {
        machine.TakeAuthority(Vanish(now));
      }
    }

    /** The store decides a claim; the worker has yet to hear of it. */
    method AskStore(fingerprint: string, owner: string, now: int) returns (r: Reply)
      requires Valid() && ValidFingerprint(fingerprint) && ValidOwnerToken(owner)
      modifies machine, store, store.records.Values
      ensures store.Valid() && fresh(store.records.Values - old(store.records.Values))
      ensures machine.Valid()
      ensures machine.system.workers == old(machine.system).workers && machine.system.used == old(machine.system).used
      ensures var before := old(store.CellAt(Key()));
              && machine.steps == old(machine.steps) + Noted(PurgeLabels(before, now))
              && machine.system.cell == if PurgeLabels(before, now) == [] then before else Absent
      ensures ClaimServed(machine.system.cell, store.CellAt(Key()), fingerprint, owner, now, machine.x.leaseMs,
                          Delivered, r)
    {
      ghost var before := machine.system.cell;
      ghost var ls;
      r, ls := store.Claim(scope, requestId, fingerprint, owner, machine.x.leaseMs, now);
      NotePurge(now);
      ClaimArrives(before, machine.system.cell, store.CellAt(Key()), fingerprint, owner, now, machine.x.leaseMs, ls);
    }

    /** A worker claims the record, hears the store's answer over it unless that is lost, and goes
        where the answer sends it. The store drops an expired result first. */
    method Claim(w: nat, owner: string, now: int, fate: Fate) returns (r: Reply)
      requires Valid() && Possible(machine.x, machine.system, AskClaim(w, owner, now, fate)) && ValidOwnerToken(owner)
      modifies machine, store, store.records.Values
      ensures Valid() && fresh(store.records.Values - old(store.records.Values)) && w in machine.system.workers
      ensures var before := old(store.CellAt(Key()));
              var ls := if fate.RequestLost? then [] else PurgeLabels(before, now);
              && machine.steps == old(machine.steps) + Noted(ls) + [AskClaim(w, owner, now, fate)]
              && ClaimServed(if ls == [] then before else Absent, store.CellAt(Key()),
                             old(machine.system).workers[w].fingerprint, owner, now, machine.x.leaseMs, fate, r)
      ensures machine.system.workers[w]
              == Next(machine.x, old(machine.system).workers[w].fingerprint, owner, machine.system.life, r)
    {
      r := Raised(BackendError);
      if !fate.RequestLost? {
        r := AskStore(machine.system.workers[w].fingerprint, owner, now);
      } else {
        NothingNoted(machine.steps);
      }
      r := Heard(fate, r);
      machine.TakeClaim(w, owner, now, fate, store.CellAt(Key()), r);
    }

    method ReadStore(fingerprint: string, now: int) returns (r: Reply)
      requires Valid() && ValidFingerprint(fingerprint)
      modifies machine, store
      ensures Valid() && store.records.Values <= old(store.records.Values)
      ensures machine.system.workers == old(machine.system).workers
      ensures var ls := PurgeLabels(old(store.CellAt(Key())), now);
              && machine.steps == old(machine.steps) + Noted(ls)
              && store.CellAt(Key()) == if ls == [] then old(store.CellAt(Key())) else Absent
      ensures r == ReadReplyOf(store.CellAt(Key()), fingerprint)
    {
      ghost var ls;
      r, ls := store.Read(scope, requestId, fingerprint, now);
      NotePurge(now);
    }

    /** A polling worker reads the record; likewise. */
    method Read(w: nat, now: int, fate: Fate) returns (r: Reply)
      requires Valid() && Possible(machine.x, machine.system, Poll(w, fate))
      modifies machine, store
      ensures Valid() && store.records.Values <= old(store.records.Values) && w in machine.system.workers
      ensures var fingerprint := old(machine.system).workers[w].fingerprint;
              var ls := if fate.RequestLost? then [] else PurgeLabels(old(store.CellAt(Key())), now);
              && machine.steps == old(machine.steps) + Noted(ls) + [Poll(w, fate)]
              && store.CellAt(Key()) == (if ls == [] then old(store.CellAt(Key())) else Absent)
              && r == Heard(fate, ReadReplyOf(store.CellAt(Key()), fingerprint))
              && machine.system.workers[w] == Next(machine.x, fingerprint, "", machine.system.life, r)
    {
      r := Raised(BackendError);
      if !fate.RequestLost? {
        r := ReadStore(machine.system.workers[w].fingerprint, now);
      } else {
        NothingNoted(machine.steps);
      }
      r := Heard(fate, r);
      machine.TakePoll(w, fate);
    }

    /** What the store makes of a start, a result and a release by a worker with this claim. */
    method AskStart(worker: Worker, now: int) returns (r: Ack)
      requires Valid() && worker.Holding? && ValidOwnerToken(worker.owner)
      modifies store.records.Values
      ensures store.Valid()
      ensures var cell, owned := machine.system.cell, machine.system.cell.Claimed? && Owns(machine.system.cell, worker);
              && r == (if owned then Ok else Refused(StateError))
              && store.CellAt(Key())
                 == if owned then After(cell, Start(worker.owner, worker.generation, now, machine.x.leaseMs)) else cell
    {
      HandEntitles(machine.system.cell, worker);
      r := store.MarkStarted(scope, requestId, worker.fingerprint, ClaimInHand(worker), machine.x.leaseMs, now);
    }

    method AskFinish(worker: Worker, resultBytes: nat, now: int) returns (r: Ack)
      requires Valid() && worker.Writing? && ValidOwnerToken(worker.owner) && resultBytes <= MAX_RESULT_BYTES
      modifies store.records.Values
      ensures store.Valid()
      ensures var cell, owned := machine.system.cell, machine.system.cell.Started? && Owns(machine.system.cell, worker);
              && r == (if owned then Ok else Refused(StateError))
              && store.CellAt(Key())
                 == if owned then After(cell, Finish(worker.owner, worker.generation, machine.x.dumps(worker.answer),
                                                     now, machine.x.completedTtlMs))
                    else cell
    {
      HandEntitles(machine.system.cell, worker);
      r := store.Complete(scope, requestId, worker.fingerprint, ClaimInHand(worker), machine.x.dumps(worker.answer),
                          resultBytes, machine.x.completedTtlMs, now);
    }

    method AskRelease(worker: Worker) returns (r: Ack)
      requires Valid() && worker.Holding? && ValidOwnerToken(worker.owner)
      modifies store
      ensures store.Valid() && store.records.Values <= old(store.records.Values)
      ensures var cell, owned := machine.system.cell, machine.system.cell.Claimed? && Owns(machine.system.cell, worker);
              && r == (if owned then Ok else Refused(StateError))
              && store.CellAt(Key()) == if owned then Absent else cell
    {
      HandEntitles(machine.system.cell, worker);
      r := store.ReleaseUnstarted(scope, requestId, worker.fingerprint, ClaimInHand(worker));
    }

    /** The delegation start; the worker goes on exactly if it hears that the store agreed. */
    method MarkStarted(w: nat, now: int, fate: Fate) returns (r: Ack)
      requires Valid() && Possible(machine.x, machine.system, Launch(w, now, fate))
      modifies machine, store.records.Values
      ensures Valid() && machine.steps == old(machine.steps) + [Launch(w, now, fate)] && w in machine.system.workers
      ensures var worker := old(machine.system).workers[w];
              && StartServed(old(store.CellAt(Key())), store.CellAt(Key()), worker, now, machine.x.leaseMs, fate, r)
              && machine.system.workers[w]
                 == if r == Ok then Cleared(worker.fingerprint, worker.owner, worker.generation, worker.life)
                    else Failed(worker.fingerprint, FailureOf(r.error))
    {
      r := Refused(BackendError);
      if !fate.RequestLost? {
        r := AskStart(machine.system.workers[w], now);
      }
      r := HeardAck(fate, r);
      var _ := machine.TakeLaunch(w, now, fate);
    }

    /** The result; a worker returns it exactly if it hears that the store has recorded it. */
    method SendResult(w: nat, resultBytes: nat, now: int, fate: Fate) returns (r: Ack)
      requires Valid() && Possible(machine.x, machine.system, Record(w, now, fate)) && resultBytes <= MAX_RESULT_BYTES
      modifies machine, store.records.Values
      ensures Valid() && machine.steps == old(machine.steps) + [Record(w, now, fate)] && w in machine.system.workers
      ensures var worker := old(machine.system).workers[w];
              && ResultServed(old(store.CellAt(Key())), store.CellAt(Key()), worker, machine.x.dumps(worker.answer),
                              now, machine.x.completedTtlMs, fate, r)
              && machine.system.workers[w] == if r == Ok then Returned(worker.fingerprint, worker.answer)
                                              else Failed(worker.fingerprint, FailureOf(r.error))
    {
      r := Refused(BackendError);
      if !fate.RequestLost? {
        r := AskFinish(machine.system.workers[w], resultBytes, now);
      }
      r := HeardAck(fate, r);
      var _ := machine.TakeRecord(w, now, fate);
    }

    /** A result that is too large is an error that the worker does not handle. */
    method Complete(w: nat, resultBytes: nat, now: int, fate: Fate) returns (r: Ack)
      requires Valid() && Possible(machine.x, machine.system, Record(w, now, fate))
      modifies machine, store.records.Values
      ensures Valid() && w in machine.system.workers
      ensures machine.steps
              == old(machine.steps) + [if resultBytes > MAX_RESULT_BYTES then Crash(w) else Record(w, now, fate)]
      ensures var worker, before := old(machine.system).workers[w], old(store.CellAt(Key()));
              && (if resultBytes > MAX_RESULT_BYTES then r == Refused(ValueError) && store.CellAt(Key()) == before
                  else ResultServed(before, store.CellAt(Key()), worker, machine.x.dumps(worker.answer), now,
                                    machine.x.completedTtlMs, fate, r))
              && machine.system.workers[w] == if r == Ok then Returned(worker.fingerprint, worker.answer)
                                              else Failed(worker.fingerprint, FailureOf(r.error))
    {
      if resultBytes <= MAX_RESULT_BYTES {
        r := SendResult(w, resultBytes, now, fate);
      } else {
        machine.TakeLocal(Crash(w));
        r := Refused(ValueError);
      }
    }

    /** A cancelled claim is given back. */
    method ReleaseUnstarted(w: nat, fate: Fate) returns (r: Ack)
      requires Valid() && Possible(machine.x, machine.system, Release(w, fate))
      modifies machine, store
      ensures Valid() && store.records.Values <= old(store.records.Values)
      ensures machine.steps == old(machine.steps) + [Release(w, fate)] && w in machine.system.workers
      ensures var worker := old(machine.system).workers[w];
              && ReleaseServed(old(store.CellAt(Key())), store.CellAt(Key()), worker, fate, r)
              && machine.system.workers[w]
                 == Failed(worker.fingerprint, if r == Ok then Cancelled else BackendUnavailable)
    {
      r := Refused(BackendError);
      if !fate.RequestLost? {
        r := AskRelease(machine.system.workers[w]);
      }
      r := HeardAck(fate, r);
      var _ := machine.TakeRelease(w, fate);
    }

    /** What a worker does without the store. */
    method WorkAlone(st: Step)
      requires Valid() && Possible(machine.x, machine.system, st) && WellFormed(st) && IsLocal(st)
      modifies machine
      ensures Valid() && machine.steps == old(machine.steps) + [st]
      ensures machine.system == Do(machine.x, old(machine.system), st)
    {
      machine.TakeLocal(st);
    }

    /** Calls of any workers in any order: each that its worker can make is made, and nobody does
        anything else. The transport is called once for each delegation among them, at most once
        per record lifetime, and all replies of a lifetime agree. */
    method Serve(script: seq<Call>) returns (ghost states: seq<System>, ghost parts: seq<seq<Step>>)
      requires Valid()
      modifies machine, store, store.records.Values
      ensures Valid() && Served(machine.x, states, script, parts)
      ensures states[0] == old(machine.system) && states[|script|] == machine.system
      ensures machine.steps == old(machine.steps) + Flat(parts)
      ensures Own(Flat(parts)) == AllIntended(machine.x, states, script)
      ensures |machine.system.calls|
              == |old(machine.system).calls| + Delegates(AllIntended(machine.x, states, script))
      ensures forall life :: machine.system.calls[life] <= 1
      ensures forall life, a, b :: (life, a) in machine.system.replies && (life, b) in machine.system.replies ==> a == b
    {
      ghost var steps, start := machine.steps, machine.system;
      states, parts := Play(script);
      ServedAsIntended(machine.x, states, script, parts);
      ServingCounts(machine.x, steps, start, parts, machine.system);
      AllRepliesAgree(machine.x, machine.steps, machine.system);
    }

    /** The calls, one after the other. */
    method Play(script: seq<Call>) returns (ghost states: seq<System>, ghost parts: seq<seq<Step>>)
      requires Valid()
      modifies machine, store, store.records.Values
      ensures Valid() && fresh(store.records.Values - old(store.records.Values))
      ensures Played(machine.x, old(machine.system), old(machine.steps), script, states, parts, machine.system,
                     machine.steps)
    {
      states, parts := [machine.system], [];
      for k := 0 to |script|
        invariant Valid() && fresh(store.records.Values - old(store.records.Values))
        invariant Played(machine.x, old(machine.system), old(machine.steps), script[..k], states, parts, machine.system,
                         machine.steps)
      {
        ghost var s, steps := machine.system, machine.steps;
        ghost var added := Perform(script[k]);
        PlayingGoesOn(machine.x, old(machine.system), old(machine.steps), script, k, states, parts, s, steps, added,
                      machine.system, machine.steps);
        states, parts := states + [machine.system], parts + [added];
      }
      assert script[..|script|] == script;
    }

    /** One call, if its worker can make it now. */
    method Perform(call: Call) returns (ghost added: seq<Step>)
      requires Valid()
      modifies machine, store, store.records.Values
      ensures Valid() && fresh(store.records.Values - old(store.records.Values))
      ensures machine.steps == old(machine.steps) + added
      ensures Carried(machine.x, old(machine.system), call, added, machine.system)
    {
      ghost var steps, start, ls := machine.steps, machine.system, [];
      NothingNoted(steps);
      if Admissible(machine.x, machine.system, call.step) {
        ls := Make(call);
        added := Noted(ls) + [Taken(call)];
        CallIsCarried(machine.x, steps, start, call, ls, machine.system);
      } else {
        added := Noted(ls);
        NobodyIsCarried(machine.x, steps, start, call, ls, machine.system);
      }
    }

    /** The call of a worker that can make it; `ls` is what the authority does of itself. */
    method Make(call: Call) returns (ghost ls: seq<Label>)
      requires Valid() && Admissible(machine.x, machine.system, call.step)
      modifies machine, store, store.records.Values
      ensures Valid() && fresh(store.records.Values - old(store.records.Values))
      ensures machine.steps == old(machine.steps) + Noted(ls) + [Taken(call)]
    {
      if call.step.AskClaim? || call.step.Poll? {
        ls := Ask(call);
        return;
      }
      ls := [];
      NothingNoted(machine.steps);
      if IsLocal(call.step) {
        WorkAlone(call.step);
        return;
      }
      match call.step
      case Launch(w, now, fate) => var _ := MarkStarted(w, now, fate);
      case Record(w, now, fate) => var _ := Complete(w, call.resultBytes, now, fate);
      case Release(w, fate) => var _ := ReleaseUnstarted(w, fate);
    }

    /** A claim or a read. */
    method Ask(call: Call) returns (ghost ls: seq<Label>)
      requires Valid() && Admissible(machine.x, machine.system, call.step)
      requires call.step.AskClaim? || call.step.Poll?
      modifies machine, store, store.records.Values
      ensures Valid() && fresh(store.records.Values - old(store.records.Values))
      ensures machine.steps == old(machine.steps) + Noted(ls) + [call.step]
    {
      ls := [];
      NothingNoted(machine.steps);
      if call.step.AskClaim? {
        ls := if call.step.fate.RequestLost? then [] else PurgeLabels(store.CellAt(Key()), call.step.now);
        var _ := Claim(call.step.w, call.step.owner, call.step.now, call.step.fate);
      } else {
        ghost var before := store.CellAt(Key());
        ls := if call.step.fate.RequestLost? then []
              else PurgeLabels(before, call.now);
        var _ := Read(call.step.w, call.now, call.step.fate);
      }
    }
  }

  /** The store's path leads where the machine's claim does. */
  lemma ClaimArrives(before: Cell, live: Cell, after: Cell, fingerprint: string, owner: string, now: int, lease: int,
                     ls: seq<Label>)
    requires live == if PurgeLabels(before, now) == [] then before else Absent
    requires ls == PurgeLabels(before, now) + ClaimLabels(live, fingerprint, owner, now, lease)
    requires Path(before, ls, after)
    ensures after == AfterClaimLabels(live, fingerprint, owner, now, lease)
  {
    var claim := ClaimLabels(live, fingerprint, owner, now, lease);
    var claimed := AfterClaimLabels(live, fingerprint, owner, now, lease);
    assert Path(before, PurgeLabels(before, now), live);
    assert Path(live, claim, claimed);
    PathJoin(before, PurgeLabels(before, now), live, claim, claimed);
    PathIsDeterministic(before, ls, after, claimed);
  }
}
