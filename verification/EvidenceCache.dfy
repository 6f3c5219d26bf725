/** A cache of completed requests, looked up under a lock before the request runs and filled
    under the lock after it has run. Between the two sections other calls may do the same.
 */
module EvidenceCache {

  datatype Option<T> = None | Some(value: T)

  datatype Key = Key(context: string, request: string)

  datatype Entry = Entry(fingerprint: string, evidence: string)

  datatype Answer = Returned(evidence: string) | Conflict | RunFailed

  type Cache = map<Key, Entry>

  /** What an existing entry answers to a request with this fingerprint. */
  function Reply(e: Entry, fingerprint: string): Answer {
    if e.fingerprint == fingerprint then Returned(e.evidence) else Conflict
  }

  /** Entries are added, never changed. */
  predicate Extends(before: Cache, after: Cache) {
    forall k :: k in before ==> k in after && after[k] == before[k]
  }

  /** An answer that the cache accounts for. */
  predicate Accounted(cache: Cache, key: Key, fingerprint: string, answer: Answer) {
    match answer
    case Returned(evidence) => key in cache && cache[key] == Entry(fingerprint, evidence)
    case Conflict => key in cache && cache[key].fingerprint != fingerprint
    case RunFailed => true
  }

  // ---------------------------------------------------------------------------
  // All interleavings
  // ---------------------------------------------------------------------------

  datatype Phase = Waiting | Running | Done(answer: Answer)

  datatype Call = Call(key: Key, fingerprint: string, phase: Phase)

  datatype System = System(cache: Cache, calls: seq<Call>)

  datatype Step =
    | Arrive(key: Key, fingerprint: string) | Looks(i: nat) | Fails(i: nat) | Settles(i: nat, evidence: string)

  predicate Possible(s: System, step: Step) {
    match step
    case Arrive(_, _) => true
    case Looks(i) => i < |s.calls| && s.calls[i].phase.Waiting?
    case Fails(i) => i < |s.calls| && s.calls[i].phase.Running?
    case Settles(i, _) => i < |s.calls| && s.calls[i].phase.Running?
  }

  function Do(s: System, step: Step): System
    requires Possible(s, step)
  {
    match step
    case Arrive(key, fingerprint) => s.(calls := s.calls + [Call(key, fingerprint, Waiting)])
    case Looks(i) =>
      var c := s.calls[i];
      var phase := if c.key in s.cache then Done(Reply(s.cache[c.key], c.fingerprint)) else Running;
      s.(calls := s.calls[i := c.(phase := phase)])
    case Fails(i) => s.(calls := s.calls[i := s.calls[i].(phase := Done(RunFailed))])
    case Settles(i, evidence) =>
      var c := s.calls[i];
      if c.key in s.cache
      then s.(calls := s.calls[i := c.(phase := Done(Reply(s.cache[c.key], c.fingerprint)))])
      else System(s.cache[c.key := Entry(c.fingerprint, evidence)], s.calls[i := c.(phase := Done(Returned(evidence)))])
  }

  ghost predicate Run(states: seq<System>, steps: seq<Step>) {
    && |states| == |steps| + 1 && states[0] == System(map[], [])
    && forall k :: 0 <= k < |steps| ==> Possible(states[k], steps[k]) && states[k + 1] == Do(states[k], steps[k])
  }

  ghost predicate Sound(s: System) {
    forall i :: 0 <= i < |s.calls| && s.calls[i].phase.Done? ==>
      Accounted(s.cache, s.calls[i].key, s.calls[i].fingerprint, s.calls[i].phase.answer)
  }

  lemma StepKeepsSound(s: System, step: Step)
    requires Sound(s) && Possible(s, step)
    ensures Sound(Do(s, step)) && Extends(s.cache, Do(s, step).cache)
  {
    var s' := Do(s, step);
    forall i | 0 <= i < |s'.calls| && s'.calls[i].phase.Done?
      ensures Accounted(s'.cache, s'.calls[i].key, s'.calls[i].fingerprint, s'.calls[i].phase.answer)
    {
      if i < |s.calls| && s'.calls[i] == s.calls[i] {
        assert Accounted(s.cache, s.calls[i].key, s.calls[i].fingerprint, s.calls[i].phase.answer);
      }
    }
  }

  lemma {:induction false} ReachedIsSound(states: seq<System>, steps: seq<Step>, k: nat)
    requires Run(states, steps) && k <= |steps|
    ensures Sound(states[k])
  {
    if k == 0 {
    } else {
      ReachedIsSound(states, steps, k - 1);
      StepKeepsSound(states[k - 1], steps[k - 1]);
    }
  }

  /** A key's entry is written once. */
  lemma {:induction false} EntriesNeverChange(states: seq<System>, steps: seq<Step>, j: nat, k: nat)
    requires Run(states, steps) && j <= k <= |steps|
    ensures Extends(states[j].cache, states[k].cache)
    decreases k
  {
    if j == k {
    } else {
      EntriesNeverChange(states, steps, j, k - 1);
      ReachedIsSound(states, steps, k - 1);
      StepKeepsSound(states[k - 1], steps[k - 1]);
    }
  }

  /** All calls that return for a key return the stored evidence, whenever they do, and a call
      with another fingerprint never returns anything. */
  lemma ReturnsAgree(states: seq<System>, steps: seq<Step>, j: nat, k: nat, a: nat, b: nat)
    requires Run(states, steps) && j <= k <= |steps| && a < |states[j].calls| && b < |states[k].calls|
    requires states[j].calls[a].key == states[k].calls[b].key
    requires states[j].calls[a].phase.Done? && states[j].calls[a].phase.answer.Returned?
    requires states[k].calls[b].phase.Done? && !states[k].calls[b].phase.answer.RunFailed?
    ensures states[k].calls[b].phase.answer
            == if states[k].calls[b].fingerprint == states[j].calls[a].fingerprint
               then states[j].calls[a].phase.answer else Conflict
  {
    ReachedIsSound(states, steps, j);
    ReachedIsSound(states, steps, k);
    EntriesNeverChange(states, steps, j, k);
  }

  // ---------------------------------------------------------------------------
  // The program
  // ---------------------------------------------------------------------------

  lemma RunGrows(states: seq<System>, steps: seq<Step>, step: Step)
    requires Run(states, steps) && Possible(states[|steps|], step)
    ensures Run(states + [Do(states[|steps|], step)], steps + [step])
  {
  }

  predicate IsStepOf(step: Step, i: nat) {
    !step.Arrive? && step.i == i
  }

  /** The steps of others leave this call where it is. */
  lemma OthersLeaveCall(s: System, step: Step, i: nat)
    requires Possible(s, step) && i < |s.calls| && !IsStepOf(step, i)
    ensures i < |Do(s, step).calls| && Do(s, step).calls[i] == s.calls[i]
  {
  }

  /** The cache of one executor, among all calls to it and the run that has led there. */
  class Executor {
    var completed: Cache
    var system: System
    ghost var states: seq<System>
    ghost var steps: seq<Step>

    constructor ()
      ensures Valid() && completed == map[] && steps == []
    {
      completed, system := map[], System(map[], []);
      states, steps := [System(map[], [])], [];
    }

    ghost predicate Valid()
      reads this
    {
      Run(states, steps) && states[|steps|] == system && system.cache == completed
    }

    /** Takes a step of the run, apart from what it does to the cache. */
    method Note(step: Step)
      requires Run(states, steps) && states[|steps|] == system && Possible(system, step)
      modifies this`system, this`states, this`steps
      ensures Run(states, steps) && states[|steps|] == system
      ensures steps == old(steps) + [step] && system == Do(old(system), step)
    {
      RunGrows(states, steps, step);
      system := Do(system, step);
      states, steps := states + [system], steps + [step];
    }

    /** Where a call is. */
    predicate Is(i: nat, call: Call)
      reads this
    {
      i < |system.calls| && system.calls[i] == call
    }

    /** The first locked section. */
    method Look(i: nat, key: Key, fingerprint: string) returns (cached: Option<Entry>)
      requires Valid() && Is(i, Call(key, fingerprint, Waiting))
      modifies this`system, this`states, this`steps
      ensures Valid() && steps == old(steps) + [Looks(i)]
      ensures cached == if key in completed then Some(completed[key]) else None
      ensures Is(i, Call(key, fingerprint, if cached.Some? then Done(Reply(cached.value, fingerprint)) else Running))
    {
      cached := if key in completed then Some(completed[key]) else None;
      Note(Looks(i));
    }

    /** The second locked section: the first call to get here writes the entry. */
    method Settle(i: nat, key: Key, fingerprint: string, evidence: string) returns (answer: Answer)
      requires Valid() && Is(i, Call(key, fingerprint, Running))
      modifies this
      ensures Valid() && steps == old(steps) + [Settles(i, evidence)] && Is(i, Call(key, fingerprint, Done(answer)))
      ensures Extends(old(completed), completed) && completed.Keys == old(completed).Keys + {key}
      ensures if key in old(completed) then completed == old(completed) && answer == Reply(completed[key], fingerprint)
              else completed == old(completed)[key := Entry(fingerprint, evidence)] && answer == Returned(evidence)
      ensures !answer.RunFailed? && Accounted(completed, key, fingerprint, answer)
    {
      Note(Settles(i, evidence));
      if key !in completed {
        completed := completed[key := Entry(fingerprint, evidence)];
        return Returned(evidence);
      }
      answer := Reply(completed[key], fingerprint);
    }

    /** Nobody else comes to a result. */
    ghost predicate NoneSettles(acts: seq<Step>) {
      forall k :: 0 <= k < |acts| ==> !acts[k].Settles?
    }

    /** The possible ones among these steps of other calls are taken. */
    method Others(i: nat, acts: seq<Step>)
      requires Valid() && i < |system.calls|
      modifies this
      ensures Valid() && Extends(old(completed), completed) && old(steps) <= steps && Is(i, old(system).calls[i])
      ensures NoneSettles(acts) ==> completed == old(completed)
    {
      for k := 0 to |acts|
        invariant Valid() && Extends(old(completed), completed) && old(steps) <= steps && Is(i, old(system).calls[i])
        invariant NoneSettles(acts) ==> completed == old(completed)
      {
        if !IsStepOf(acts[k], i) && Possible(system, acts[k]) {
          OthersLeaveCall(system, acts[k], i);
          ReachedIsSound(states, steps, |steps|);
          StepKeepsSound(system, acts[k]);
          Note(acts[k]);
          completed := system.cache;
        }
      }
    }

    /** One call. While it runs, the others take any steps. It is a call of the run, so that what
        holds for all runs holds for it. */
    method RunIdempotently(key: Key, fingerprint: string, run: Option<string>, others: seq<Step>)
      returns (answer: Answer)
      requires Valid()
      modifies this
      ensures Valid() && old(steps) <= steps && Is(|old(system).calls|, Call(key, fingerprint, Done(answer)))
      ensures Extends(old(completed), completed) && Accounted(completed, key, fingerprint, answer)
      ensures key in old(completed) ==> answer == Reply(old(completed)[key], fingerprint) && completed == old(completed)
      ensures answer.RunFailed? <==> key !in old(completed) && run.None?
      // A run that is the first to come to a result returns it and stores it.
      ensures key !in old(completed) && NoneSettles(others) ==>
                if run.None? then completed == old(completed)
                else
                  && answer == Returned(run.value)
                  && completed == old(completed)[key := Entry(fingerprint, run.value)]
    {
      var i := |system.calls|;
      Note(Arrive(key, fingerprint));
      var cached := Look(i, key, fingerprint);
      if cached.Some? {
        return Reply(cached.value, fingerprint);
      }
      Others(i, others);
      if run.None? {
        Note(Fails(i));
        return RunFailed;
      }
      answer := Settle(i, key, fingerprint, run.value);
    }
  }

  /** Two answers of one executor for one key agree, whoever came first. */
  lemma AnswersAgree(e: Executor, a: nat, b: nat)
    requires e.Valid() && a < |e.system.calls| && b < |e.system.calls| && e.system.calls[a].key == e.system.calls[b].key
    requires e.system.calls[a].phase.Done? && e.system.calls[a].phase.answer.Returned?
    requires e.system.calls[b].phase.Done? && !e.system.calls[b].phase.answer.RunFailed?
    ensures e.system.calls[b].phase.answer
            == if e.system.calls[b].fingerprint == e.system.calls[a].fingerprint
               then e.system.calls[a].phase.answer else Conflict
  {
    ReturnsAgree(e.states, e.steps, |e.steps|, |e.steps|, a, b);
  }
}
