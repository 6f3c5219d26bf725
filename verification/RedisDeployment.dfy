/** Any number of workers whose calls go to the Redis store. Between their calls the server
    expires keys. */
module RedisDeployment {
  import opened IdempotencyCell
  import opened IdempotencyContract
  import opened ProgrammaticCoordinator
  import opened Deployment
  import Stores = RedisIdempotencyStore

  class Service {
    const scope: Scope
    const requestId: string
    const server: Stores.Server
    const store: Stores.Store
    const machine: Machine

    constructor (x: Setting, scope: Scope, requestId: string)
      requires Deployable(x, requestId)
      ensures Valid() && machine.x == x && machine.system == START && fresh(machine) && fresh(server)
    {
      this.scope, this.requestId := scope, requestId;
      var redis := new Stores.Server();
      server := redis;
      store := new Stores.Store(redis);
      machine := new Machine(x);
    }

    /** The store's record is the record of a run of the system. */
    ghost predicate Valid()
      reads this, machine, server
    {
      && Deployable(machine.x, requestId) && machine.Valid() && store.server == server && server.Valid()
      && server.CellAt(Key()) == machine.system.cell
    }

    function Key(): string {
      KeyMaterial(scope, requestId)
    }

    /** The server expires the key, once its time has come. */
    method Expire(now: int) returns (ghost ls: seq<Label>)
      requires Valid()
      modifies machine, server
      ensures Valid() && machine.steps == old(machine.steps) + Noted(ls)
      ensures var due := Key() in old(server.expiries) && old(server.expiries)[Key()] <= now;
              if due then
                ls == [Vanish(now)] && Path(old(server.CellAt(Key())), ls, server.CellAt(Key()))
                && server.CellAt(Key()) == Absent
              else ls == [] && server.CellAt(Key()) == old(server.CellAt(Key()))
    {
      ls := [];
      if Key() in server.expiries && server.expiries[Key()] <= now {
        server.ExpireKey(Key(), now);
        machine.TakeAuthority(Vanish(now));
        ls := [Vanish(now)];
      }
    }

    /** A reader has put an outlived start in doubt. */
    method NoteDoubt(fingerprint: string, now: int)
      requires machine.Valid()
      modifies machine
      ensures machine.Valid() && machine.system.workers == old(machine.system).workers
      ensures var before := old(machine.system).cell;
              && machine.steps == old(machine.steps) + Noted(DoubtLabels(before, fingerprint, now))
              && Path(before, DoubtLabels(before, fingerprint, now), machine.system.cell)
    {
      var cell := machine.system.cell;
      if cell.Started? && cell.fingerprint == fingerprint && cell.leaseUntil <= now {
        machine.TakeAuthority(Doubt(now));
      }
    }

    /** The store decides a claim; the worker has yet to hear of it. */
    method AskStore(fingerprint: string, owner: string, now: int) returns (r: Reply)
      requires Valid()
      modifies server
      ensures server.Valid()
      ensures ClaimServed(machine.system.cell, server.CellAt(Key()), fingerprint, owner, now, machine.x.leaseMs,
                          Delivered, r)
    {
      ghost var before := machine.system.cell;
      if before.Completed? {
        StoredResultsAreNotEmpty(machine.x, requestId, machine.steps, machine.system);
      }
      ghost var ls;
      r, ls := store.Claim(scope, requestId, fingerprint, owner, machine.x.leaseMs, now);
      ClaimArrives(before, server.CellAt(Key()), fingerprint, owner, now, machine.x.leaseMs, ls);
    }

    /** A worker claims the record, hears the store's answer over it unless that is lost, and goes
        where the answer sends it. */
    method Claim(w: nat, owner: string, now: int, fate: Fate) returns (r: Reply)
      requires Valid() && Possible(machine.x, machine.system, AskClaim(w, owner, now, fate)) && ValidOwnerToken(owner)
      modifies machine, server
      ensures Valid() && w in machine.system.workers
      ensures machine.steps == old(machine.steps) + [AskClaim(w, owner, now, fate)]
      ensures var fingerprint := old(machine.system).workers[w].fingerprint;
              && ClaimServed(old(server.CellAt(Key())), server.CellAt(Key()), fingerprint, owner, now,
                             machine.x.leaseMs, fate, r)
              && machine.system.workers[w] == Next(machine.x, fingerprint, owner, machine.system.life, r)
    {
      r := Raised(BackendError);
      if !fate.RequestLost? {
        r := AskStore(machine.system.workers[w].fingerprint, owner, now);
      }
      r := Heard(fate, r);
      machine.TakeClaim(w, owner, now, fate, server.CellAt(Key()), r);
    }

    method ReadStore(fingerprint: string, now: int) returns (r: Reply)
      requires Valid()
      modifies machine, server
      ensures Valid() && machine.system.workers == old(machine.system).workers
      ensures var ls := DoubtLabels(old(server.CellAt(Key())), fingerprint, now);
              && machine.steps == old(machine.steps) + Noted(ls)
              && Path(old(server.CellAt(Key())), ls, server.CellAt(Key()))
      ensures r == ReadReplyOf(server.CellAt(Key()), fingerprint)
    {
      ghost var before := machine.system.cell;
      ghost var ls;
      r, ls := store.Read(scope, requestId, fingerprint, now);
      NoteDoubt(fingerprint, now);
      PathIsDeterministic(before, ls, machine.system.cell, server.CellAt(Key()));
      if machine.system.cell.Completed? {
        StoredResultsAreNotEmpty(machine.x, requestId, machine.steps, machine.system);
      }
    }

    /** A polling worker reads the record; likewise. */
    method Read(w: nat, now: int, fate: Fate) returns (r: Reply)
      requires Valid() && Possible(machine.x, machine.system, Poll(w, fate))
      modifies machine, server
      ensures Valid() && w in machine.system.workers
      ensures var fingerprint := old(machine.system).workers[w].fingerprint;
              var ls := if fate.RequestLost? then [] else DoubtLabels(old(server.CellAt(Key())), fingerprint, now);
              && machine.steps == old(machine.steps) + Noted(ls) + [Poll(w, fate)]
              && Path(old(server.CellAt(Key())), ls, server.CellAt(Key()))
              && r == Heard(fate, ReadReplyOf(server.CellAt(Key()), fingerprint))
              && machine.system.workers[w] == Next(machine.x, fingerprint, "", machine.system.life, r)
    {
      r := Raised(BackendError);
      if !fate.RequestLost? {
        r := ReadStore(machine.system.workers[w].fingerprint, now);
      } else {
        NothingNoted(machine.steps);
      }
      r := Heard(fate, r);
      machine.TakePoll(w, fate);
    }

    /** What the store makes of a start, a result and a release by a worker with this claim. */
    method AskStart(worker: Worker, now: int) returns (r: Ack)
      requires Valid() && worker.Holding? && ValidOwnerToken(worker.owner)
      modifies server
      ensures server.Valid()
      ensures var cell, owned := machine.system.cell, machine.system.cell.Claimed? && Owns(machine.system.cell, worker);
              && r == (if owned then Ok else Refused(StateError))
              && server.CellAt(Key())
                 == if owned then After(cell, Start(worker.owner, worker.generation, now, machine.x.leaseMs)) else cell
    {
      HandEntitles(machine.system.cell, worker);
      r := store.MarkStarted(scope, requestId, worker.fingerprint, ClaimInHand(worker), machine.x.leaseMs, now);
    }

    method AskFinish(worker: Worker, resultBytes: nat, now: int) returns (r: Ack)
      requires Valid() && worker.Writing? && ValidOwnerToken(worker.owner) && resultBytes <= MAX_RESULT_BYTES
      modifies server
      ensures server.Valid()
      ensures var cell, owned := machine.system.cell, machine.system.cell.Started? && Owns(machine.system.cell, worker);
              && r == (if owned then Ok else Refused(StateError))
              && server.CellAt(Key())
                 == if owned then After(cell, Finish(worker.owner, worker.generation, machine.x.dumps(worker.answer),
                                                     now, machine.x.completedTtlMs))
                    else cell
    {
      HandEntitles(machine.system.cell, worker);
      r := store.Complete(scope, requestId, worker.fingerprint, ClaimInHand(worker), machine.x.dumps(worker.answer),
                          resultBytes, machine.x.completedTtlMs, now);
    }

    method AskRelease(worker: Worker) returns (r: Ack)
      requires Valid() && worker.Holding? && ValidOwnerToken(worker.owner)
      modifies server
      ensures server.Valid()
      ensures var cell, owned := machine.system.cell, machine.system.cell.Claimed? && Owns(machine.system.cell, worker);
              && r == (if owned then Ok else Refused(StateError))
              && server.CellAt(Key()) == if owned then Absent else cell
    {
      HandEntitles(machine.system.cell, worker);
      r := store.ReleaseUnstarted(scope, requestId, worker.fingerprint, ClaimInHand(worker));
    }

    /** The delegation start; the worker goes on exactly if it hears that the store agreed. */
    method MarkStarted(w: nat, now: int, fate: Fate) returns (r: Ack)
      requires Valid() && Possible(machine.x, machine.system, Launch(w, now, fate))
      modifies machine, server
      ensures Valid() && machine.steps == old(machine.steps) + [Launch(w, now, fate)] && w in machine.system.workers
      ensures var worker := old(machine.system).workers[w];
              && StartServed(old(server.CellAt(Key())), server.CellAt(Key()), worker, now, machine.x.leaseMs, fate, r)
              && machine.system.workers[w]
                 == if r == Ok then Cleared(worker.fingerprint, worker.owner, worker.generation, worker.life)
                    else Failed(worker.fingerprint, FailureOf(r.error))
    {
      r := Refused(BackendError);
      if !fate.RequestLost? {
        r := AskStart(machine.system.workers[w], now);
      }
      r := HeardAck(fate, r);
      var _ := machine.TakeLaunch(w, now, fate);
    }

    /** The result; a worker returns it exactly if it hears that the store has recorded it. */
    method SendResult(w: nat, resultBytes: nat, now: int, fate: Fate) returns (r: Ack)
      requires Valid() && Possible(machine.x, machine.system, Record(w, now, fate)) && resultBytes <= MAX_RESULT_BYTES
      modifies machine, server
      ensures Valid() && machine.steps == old(machine.steps) + [Record(w, now, fate)] && w in machine.system.workers
      ensures var worker := old(machine.system).workers[w];
              && ResultServed(old(server.CellAt(Key())), server.CellAt(Key()), worker, machine.x.dumps(worker.answer),
                              now, machine.x.completedTtlMs, fate, r)
              && machine.system.workers[w] == if r == Ok then Returned(worker.fingerprint, worker.answer)
                                              else Failed(worker.fingerprint, FailureOf(r.error))
    {
      r := Refused(BackendError);
      if !fate.RequestLost? {
        r := AskFinish(machine.system.workers[w], resultBytes, now);
      }
      r := HeardAck(fate, r);
      var _ := machine.TakeRecord(w, now, fate);
    }

    /** A result that is too large is an error that the worker does not handle. */
    method Complete(w: nat, resultBytes: nat, now: int, fate: Fate) returns (r: Ack)
      requires Valid() && Possible(machine.x, machine.system, Record(w, now, fate))
      modifies machine, server
      ensures Valid() && w in machine.system.workers
      ensures machine.steps
              == old(machine.steps) + [if resultBytes > MAX_RESULT_BYTES then Crash(w) else Record(w, now, fate)]
      ensures var worker, before := old(machine.system).workers[w], old(server.CellAt(Key()));
              && (if resultBytes > MAX_RESULT_BYTES then r == Refused(ValueError) && server.CellAt(Key()) == before
                  else ResultServed(before, server.CellAt(Key()), worker, machine.x.dumps(worker.answer), now,
                                    machine.x.completedTtlMs, fate, r))
              && machine.system.workers[w] == if r == Ok then Returned(worker.fingerprint, worker.answer)
                                              else Failed(worker.fingerprint, FailureOf(r.error))
    {
      if resultBytes <= MAX_RESULT_BYTES {
        r := SendResult(w, resultBytes, now, fate);
      } else {
        machine.TakeLocal(Crash(w));
        r := Refused(ValueError);
      }
    }

    /** A cancelled claim is given back. */
    method ReleaseUnstarted(w: nat, fate: Fate) returns (r: Ack)
      requires Valid() && Possible(machine.x, machine.system, Release(w, fate))
      modifies machine, server
      ensures Valid()
      ensures machine.steps == old(machine.steps) + [Release(w, fate)] && w in machine.system.workers
      ensures var worker := old(machine.system).workers[w];
              && ReleaseServed(old(server.CellAt(Key())), server.CellAt(Key()), worker, fate, r)
              && machine.system.workers[w]
                 == Failed(worker.fingerprint, if r == Ok then Cancelled else BackendUnavailable)
    {
      r := Refused(BackendError);
      if !fate.RequestLost? {
        r := AskRelease(machine.system.workers[w]);
      }
      r := HeardAck(fate, r);
      var _ := machine.TakeRelease(w, fate);
    }

    /** What a worker does without the store. */
    method WorkAlone(st: Step)
      requires Valid() && Possible(machine.x, machine.system, st) && WellFormed(st) && IsLocal(st)
      modifies machine
      ensures Valid() && machine.steps == old(machine.steps) + [st]
      ensures machine.system == Do(machine.x, old(machine.system), st)
    {
      machine.TakeLocal(st);
    }

    /** Calls of any workers in any order: each that its worker can make is made, and nobody does
        anything else. The transport is called once for each delegation among them, at most once
        per record lifetime, and all replies of a lifetime agree. */
    method Serve(script: seq<Call>) returns (ghost states: seq<System>, ghost parts: seq<seq<Step>>)
      requires Valid()
      modifies machine, server
      ensures Valid() && Served(machine.x, states, script, parts)
      ensures states[0] == old(machine.system) && states[|script|] == machine.system
      ensures machine.steps == old(machine.steps) + Flat(parts)
      ensures Own(Flat(parts)) == AllIntended(machine.x, states, script)
      ensures |machine.system.calls|
              == |old(machine.system).calls| + Delegates(AllIntended(machine.x, states, script))
      ensures forall life :: machine.system.calls[life] <= 1
      ensures forall life, a, b :: (life, a) in machine.system.replies && (life, b) in machine.system.replies ==> a == b
    {
      ghost var steps, start := machine.steps, machine.system;
      states, parts := Play(script);
      ServedAsIntended(machine.x, states, script, parts);
      ServingCounts(machine.x, steps, start, parts, machine.system);
      AllRepliesAgree(machine.x, machine.steps, machine.system);
    }

    /** The calls, one after the other. */
    method Play(script: seq<Call>) returns (ghost states: seq<System>, ghost parts: seq<seq<Step>>)
      requires Valid()
      modifies machine, server
      ensures Valid()
      ensures Played(machine.x, old(machine.system), old(machine.steps), script, states, parts, machine.system,
                     machine.steps)
    {
      states, parts := [machine.system], [];
      for k := 0 to |script|
        invariant Valid()
        invariant Played(machine.x, old(machine.system), old(machine.steps), script[..k], states, parts, machine.system,
                         machine.steps)
      {
        ghost var s, steps := machine.system, machine.steps;
        ghost var added := Perform(script[k]);
        PlayingGoesOn(machine.x, old(machine.system), old(machine.steps), script, k, states, parts, s, steps, added,
                      machine.system, machine.steps);
        states, parts := states + [machine.system], parts + [added];
      }
      assert script[..|script|] == script;
    }

    /** One call, if its worker can make it now. */
    method Perform(call: Call) returns (ghost added: seq<Step>)
      requires Valid()
      modifies machine, server
      ensures Valid()
      ensures machine.steps == old(machine.steps) + added
      ensures Carried(machine.x, old(machine.system), call, added, machine.system)
      ensures call.step.Authority? ==>
                added == if Key() in old(server.expiries) && old(server.expiries)[Key()] <= call.now
                         then [Authority(Vanish(call.now))] else []
    {
      ghost var steps, start, ls := machine.steps, machine.system, [];
      NothingNoted(steps);
      if call.step.Authority? {
        ls := Expire(call.now);
      }
      if Admissible(machine.x, machine.system, call.step) {
        ls := Make(call);
        added := Noted(ls) + [Taken(call)];
        CallIsCarried(machine.x, steps, start, call, ls, machine.system);
      } else {
        added := Noted(ls);
        NobodyIsCarried(machine.x, steps, start, call, ls, machine.system);
      }
    }

    /** The call of a worker that can make it; `ls` is what the authority does of itself. */
    method Make(call: Call) returns (ghost ls: seq<Label>)
      requires Valid() && Admissible(machine.x, machine.system, call.step)
      modifies machine, server
      ensures Valid()
      ensures machine.steps == old(machine.steps) + Noted(ls) + [Taken(call)]
    {
      if call.step.AskClaim? || call.step.Poll? {
        ls := Ask(call);
        return;
      }
      ls := [];
      NothingNoted(machine.steps);
      if IsLocal(call.step) {
        WorkAlone(call.step);
        return;
      }
      match call.step
      case Launch(w, now, fate) => var _ := MarkStarted(w, now, fate);
      case Record(w, now, fate) => var _ := Complete(w, call.resultBytes, now, fate);
      case Release(w, fate) => var _ := ReleaseUnstarted(w, fate);
    }

    /** A claim or a read. */
    method Ask(call: Call) returns (ghost ls: seq<Label>)
      requires Valid() && Admissible(machine.x, machine.system, call.step)
      requires call.step.AskClaim? || call.step.Poll?
      modifies machine, server
      ensures Valid()
      ensures machine.steps == old(machine.steps) + Noted(ls) + [call.step]
    {
      ls := [];
      NothingNoted(machine.steps);
      if call.step.AskClaim? {
        var _ := Claim(call.step.w, call.step.owner, call.step.now, call.step.fate);
      } else {
        ghost var before := server.CellAt(Key());
        ls := if call.step.fate.RequestLost? then []
              else DoubtLabels(before, machine.system.workers[call.step.w].fingerprint, call.now);
        var _ := Read(call.step.w, call.now, call.step.fate);
      }
    }
  }

  /** The script's path leads where the machine's claim does. */
  lemma ClaimArrives(before: Cell, after: Cell, fingerprint: string, owner: string, now: int, lease: int,
                     ls: seq<Label>)
    requires lease > 0 && ls == Stores.ScriptLabels(before, fingerprint, owner, now, lease) && Path(before, ls, after)
    ensures after == AfterClaimLabels(before, fingerprint, owner, now, lease)
  {
    var claimed := AfterClaimLabels(before, fingerprint, owner, now, lease);
    assert ls == ClaimLabels(before, fingerprint, owner, now, lease);
    assert Path(before, ls, claimed);
    PathIsDeterministic(before, ls, after, claimed);
  }
}
