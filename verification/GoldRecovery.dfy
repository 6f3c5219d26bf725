/** The operator-driven recovery of a paid chain of jobs, one step per invocation.

    Every external operation may stop the invocation before or after its effect, marking a
    task successful may push the DagRun into any state, and the operator may repeat, skip and
    reorder steps at will.
 */
module GoldRecovery {

  datatype Option<T> = None | Some(value: T)

  datatype Profile = Baseline | Optimized

  datatype Step =
    | Quota(profile: Profile)
    | Submit(profile: Profile)
    | Verify(profile: Profile)
    | Summary(profile: Profile)
    | Collect(profile: Profile)
    | Finalize

  datatype Task =
    | PreparePair
    | QuotaTask(profile: Profile)
    | SubmitTask(profile: Profile)
    | VerifyTask(profile: Profile)
    | ScanTask(profile: Profile)
    | EvidenceTask(profile: Profile)
    | SelectWinner

  datatype RunState = RunQueued | RunRunning | RunFailed | RunSuccess

  datatype BatchState = Active | Succeeded | Ended

  /** What a batch's labels and properties say about where it came from. */
  datatype Origin = Origin(controller: string, profile: Profile, scan: bool)

  datatype Batch = Batch(origin: Origin, state: BatchState)

  /** Batch IDs of the two paid attempts and of their semantic scans. */
  datatype Config = Config(
    controller: string, baseline: string, optimized: string, baselineScan: string, optimizedScan: string)

  /** `existed` and `created`: whether the ID was taken before, and whether the call took it. */
  datatype Submission = Submission(id: string, existed: bool, created: bool)

  datatype Record = Record(step: Step, controller: string, attempt: Option<string>)

  datatype Signal = Proceeds | StopsBefore | StopsAfter

  /** The fate of one external operation: its signal, the DagRun state Airflow reacts with, and
      the state that Dataproc reports for an active batch. */
  datatype Weather = Weather(signal: Signal, reaction: RunState, batch: BatchState)

  datatype Outcome = Stopped | InProgress | Recorded(record: Record)

  datatype Settlement = Settled | Running | Unsettled

  datatype Adoption = Absent | Adopted | Refused

  function Attempt(config: Config, profile: Profile): string {
    if profile.Baseline? then config.baseline else config.optimized
  }

  function Scan(config: Config, profile: Profile): string {
    if profile.Baseline? then config.baselineScan else config.optimizedScan
  }

  // ---------------------------------------------------------------------------
  // The chain
  // ---------------------------------------------------------------------------

  function Predecessor(step: Step): Task {
    match step
    case Quota(Baseline) => PreparePair
    case Submit(Baseline) => QuotaTask(Baseline)
    case Verify(Baseline) => SubmitTask(Baseline)
    case Summary(Baseline) => VerifyTask(Baseline)
    case Collect(Baseline) => ScanTask(Baseline)
    case Quota(Optimized) => EvidenceTask(Baseline)
    case Submit(Optimized) => QuotaTask(Optimized)
    case Verify(Optimized) => SubmitTask(Optimized)
    case Summary(Optimized) => VerifyTask(Optimized)
    case Collect(Optimized) => ScanTask(Optimized)
    case Finalize => EvidenceTask(Optimized)
  }

  function TaskOf(step: Step): Task {
    match step
    case Quota(p) => QuotaTask(p)
    case Submit(p) => SubmitTask(p)
    case Verify(p) => VerifyTask(p)
    case Summary(p) => ScanTask(p)
    case Collect(p) => EvidenceTask(p)
    case Finalize => SelectWinner
  }

  /** The fixed order of the chain. */
  function Chain(): seq<Task> {
    [PreparePair,
     QuotaTask(Baseline), SubmitTask(Baseline), VerifyTask(Baseline), ScanTask(Baseline), EvidenceTask(Baseline),
     QuotaTask(Optimized), SubmitTask(Optimized), VerifyTask(Optimized), ScanTask(Optimized), EvidenceTask(Optimized),
     SelectWinner]
  }

  /** The successful tasks are the first `n` of the chain. */
  ghost predicate IsPrefix(tasks: set<Task>, n: nat) {
    n <= |Chain()| && forall t :: t in tasks <==> t in Chain()[..n]
  }

  ghost predicate PrefixOfChain(tasks: set<Task>) {
    exists n :: IsPrefix(tasks, n)
  }

  function Position(step: Step): nat {
    match step
    case Finalize => 11
    case _ =>
      (if step.profile.Baseline? then 0 else 5)
      + (match step case Quota(_) => 1 case Submit(_) => 2 case Verify(_) => 3 case Summary(_) => 4 case _ => 5)
  }

  lemma ChainSteps(step: Step)
    ensures var k := Position(step);
            0 < k < |Chain()| && Chain()[k] == TaskOf(step) && Chain()[k - 1] == Predecessor(step)
  {
  }

  lemma ChainIsDuplicateFree()
    ensures forall i, j :: 0 <= i < j < |Chain()| ==> Chain()[i] != Chain()[j]
  {
  }

  /** A step behind a successful predecessor extends the prefix or repeats one of its tasks. */
  lemma SucceedingExtendsPrefix(tasks: set<Task>, step: Step)
    requires PrefixOfChain(tasks) && Predecessor(step) in tasks
    ensures PrefixOfChain(tasks + {TaskOf(step)})
  {
    var n: nat :| IsPrefix(tasks, n);
    var k := Position(step);
    ChainSteps(step);
    ChainIsDuplicateFree();
    assert Predecessor(step) in Chain()[..n];
    var i :| 0 <= i < n && Chain()[i] == Predecessor(step);
    assert i == k - 1;
    if k < n {
      assert TaskOf(step) in Chain()[..n];
      assert IsPrefix(tasks + {TaskOf(step)}, n);
    } else {
      assert Chain()[..n + 1] == Chain()[..n] + [TaskOf(step)];
      assert IsPrefix(tasks + {TaskOf(step)}, n + 1);
    }
  }

  lemma PrefixHasPredecessors(tasks: set<Task>, n: nat, step: Step)
    ensures IsPrefix(tasks, n) && TaskOf(step) in tasks ==> Predecessor(step) in tasks
  {
    var k := Position(step);
    ChainSteps(step);
    ChainIsDuplicateFree();
    if IsPrefix(tasks, n) && TaskOf(step) in tasks {
      var i :| 0 <= i < n && Chain()[i] == TaskOf(step);
      assert i == k;
      assert Chain()[..n][k - 1] == Predecessor(step);
    }
  }

  /** Marking a task whose predecessor is missing breaks the prefix, unless it was marked. */
  lemma SkippingBreaksPrefix(tasks: set<Task>, step: Step)
    requires PrefixOfChain(tasks) && Predecessor(step) !in tasks
    ensures TaskOf(step) !in tasks && !PrefixOfChain(tasks + {TaskOf(step)})
  {
    var n: nat :| IsPrefix(tasks, n);
    var k := Position(step);
    ChainSteps(step);
    ChainIsDuplicateFree();
    PrefixHasPredecessors(tasks, n, step);
    forall m: nat ensures !IsPrefix(tasks + {TaskOf(step)}, m) {
      PrefixHasPredecessors(tasks + {TaskOf(step)}, m, step);
    }
  }

  // ---------------------------------------------------------------------------
  // Paid batches
  // ---------------------------------------------------------------------------

  /** No submission was made for an ID that had a batch, and what was created is still there. */
  ghost predicate PaidOnce(submissions: seq<Submission>, batches: map<string, Batch>) {
    && (forall i :: 0 <= i < |submissions| ==> !submissions[i].existed)
    && (forall i :: 0 <= i < |submissions| && submissions[i].created ==> submissions[i].id in batches)
    && forall i, j :: 0 <= i < j < |submissions| && submissions[i].created ==> submissions[j].id != submissions[i].id
  }

  /** Batches keep their ID and origin; only active ones change state. */
  ghost predicate Progressed(before: map<string, Batch>, after: map<string, Batch>) {
    forall id :: id in before ==>
      && id in after && after[id].origin == before[id].origin
      && (!before[id].state.Active? ==> after[id] == before[id])
  }

  /** The batch a step is about, and where it has to come from. */
  function BatchOf(config: Config, step: Step): (r: Option<(string, Origin)>)
    ensures r.None? <==> step.Quota? || step.Finalize?
    ensures step in {Submit(Baseline), Verify(Baseline), Collect(Baseline)} ==>
              r == Some((config.baseline, Origin(config.controller, Baseline, false)))
    ensures step in {Submit(Optimized), Verify(Optimized), Collect(Optimized)} ==>
              r == Some((config.optimized, Origin(config.controller, Optimized, false)))
    ensures step == Summary(Baseline) ==> r == Some((config.baselineScan, Origin(config.controller, Baseline, true)))
    ensures step == Summary(Optimized) ==> r == Some((config.optimizedScan, Origin(config.controller, Optimized, true)))
  {
    match step
    case Summary(p) => Some((Scan(config, p), Origin(config.controller, p, true)))
    case Submit(p) => Some((Attempt(config, p), Origin(config.controller, p, false)))
    case Verify(p) => Some((Attempt(config, p), Origin(config.controller, p, false)))
    case Collect(p) => Some((Attempt(config, p), Origin(config.controller, p, false)))
    case _ => None
  }

  function RecordOf(config: Config, step: Step): (r: Record)
    ensures r.step == step && r.controller == config.controller
    ensures r.attempt == match step
                         case Quota(_) => None
                         case Finalize => None
                         case _ => Some(if step.profile.Baseline? then config.baseline else config.optimized)
  {
    Record(step, config.controller,
           if step.Quota? || step.Finalize? then None else Some(Attempt(config, step.profile)))
  }

  /** Nothing stands in the way of the step's batch: it is ours and not lost, or may be launched. */
  predicate CanSettle(config: Config, step: Step, batches: map<string, Batch>)
    requires BatchOf(config, step).Some?
  {
    var (id, origin) := BatchOf(config, step).value;
    if id in batches then batches[id].origin == origin && !batches[id].state.Ended?
    else step.Submit? || step.Summary?
  }

  predicate Admitted(successes: set<Task>, run: RunState, paused: bool, step: Step, authorized: bool) {
    authorized && run.RunFailed? && paused && Predecessor(step) in successes
  }

  /** What operators do before an invocation. The failed hold may be restored by hand, but a
      successful DagRun is left alone. */
  datatype Interlude = Interlude(paused: bool, restoreHold: bool, authorized: bool)

  /** A recorded finalization made the DagRun successful, and behind a successful DagRun
      everything is refused. */
  predicate SuccessIsFinal(steps: seq<Step>, results: seq<Outcome>, runs: seq<RunState>)
    requires |results| == |runs| <= |steps|
  {
    && (forall i :: 0 <= i < |runs| && steps[i].Finalize? && results[i].Recorded? ==> runs[i].RunSuccess?)
    && forall i, j :: 0 <= i < j < |runs| && runs[i].RunSuccess? ==> results[j].Stopped? && runs[j].RunSuccess?
  }

  lemma SuccessStaysFinal(steps: seq<Step>, results: seq<Outcome>, runs: seq<RunState>, r: Outcome, run: RunState)
    requires |results| == |runs| < |steps| && SuccessIsFinal(steps, results, runs)
    requires steps[|runs|].Finalize? && r.Recorded? ==> run.RunSuccess?
    requires (exists i :: 0 <= i < |runs| && runs[i].RunSuccess?) ==> r.Stopped? && run.RunSuccess?
    ensures SuccessIsFinal(steps, results + [r], runs + [run])
  {
  }

  /** Every recorded outcome is in the evidence, and its task is successful. */
  predicate AllKept(steps: seq<Step>, results: seq<Outcome>, successes: set<Task>, records: map<Step, Record>)
    requires |results| <= |steps|
  {
    forall i :: 0 <= i < |results| && results[i].Recorded? ==> Kept(steps[i], results[i].record, successes, records)
  }

  predicate Kept(step: Step, record: Record, successes: set<Task>, records: map<Step, Record>) {
    TaskOf(step) in successes && step in records && records[step] == record
  }

  lemma AllStaysKept(steps: seq<Step>, results: seq<Outcome>, successes: set<Task>, records: map<Step, Record>,
                     r: Outcome, successes': set<Task>, records': map<Step, Record>)
    requires |results| < |steps| && AllKept(steps, results, successes, records)
    requires successes <= successes' && forall s :: s in records ==> s in records' && records'[s] == records[s]
    requires r.Recorded? ==> Kept(steps[|results|], r.record, successes', records')
    ensures AllKept(steps, results + [r], successes', records')
  {
    forall i | 0 <= i < |results| && results[i].Recorded?
      ensures Kept(steps[i], results[i].record, successes', records')
    {
      assert Kept(steps[i], results[i].record, successes, records);
    }
  }

  function Steps(): seq<Step> {
    [Quota(Baseline), Submit(Baseline), Verify(Baseline), Summary(Baseline), Collect(Baseline),
     Quota(Optimized), Submit(Optimized), Verify(Optimized), Summary(Optimized), Collect(Optimized), Finalize]
  }

  predicate DistinctIds(c: Config) {
    && c.baseline != c.optimized && c.baselineScan != c.optimizedScan
    && c.baseline != c.baselineScan && c.baseline != c.optimizedScan
    && c.optimized != c.baselineScan && c.optimized != c.optimizedScan
  }

  /** The batches are those of these steps, all done. */
  ghost predicate OnlyOurs(config: Config, batches: map<string, Batch>, steps: seq<Step>) {
    && (forall s :: s in steps && BatchOf(config, s).Some? ==>
          var (id, origin) := BatchOf(config, s).value; id in batches && batches[id] == Batch(origin, Succeeded))
    && forall id :: id in batches ==>
         exists s :: s in steps && BatchOf(config, s).Some? && BatchOf(config, s).value.0 == id
  }

  lemma StepsAreInOrder(k: nat)
    requires k < |Steps()|
    ensures Position(Steps()[k]) == k + 1
    ensures Predecessor(Steps()[k]) == if k == 0 then PreparePair else TaskOf(Steps()[k - 1])
    ensures Steps()[k] !in Steps()[..k] && (Steps()[k].Finalize? <==> k == 10)
  {
  }

  lemma SameIdSameOrigin(config: Config, s: Step, t: Step)
    requires DistinctIds(config) && BatchOf(config, s).Some? && BatchOf(config, t).Some?
    requires BatchOf(config, s).value.0 == BatchOf(config, t).value.0
    ensures BatchOf(config, s) == BatchOf(config, t)
  {
  }

  lemma NextCanSettle(config: Config, batches: map<string, Batch>, k: nat)
    requires k < |Steps()| && DistinctIds(config) && OnlyOurs(config, batches, Steps()[..k])
    ensures BatchOf(config, Steps()[k]).Some? ==> CanSettle(config, Steps()[k], batches)
  {
    var step := Steps()[k];
    if step.Verify? || step.Collect? {
      var submit := Submit(step.profile);
      assert Steps()[..k][if step.Verify? then k - 1 else k - 3] == submit;
      assert submit in Steps()[..k] && BatchOf(config, submit) == BatchOf(config, step);
    } else if BatchOf(config, step).Some? && BatchOf(config, step).value.0 in batches {
      var id := BatchOf(config, step).value.0;
      var s :| s in Steps()[..k] && BatchOf(config, s).Some? && BatchOf(config, s).value.0 == id;
      SameIdSameOrigin(config, s, step);
    }
  }

  lemma StaysOnlyOurs(config: Config, before: map<string, Batch>, after: map<string, Batch>, k: nat)
    requires k < |Steps()| && OnlyOurs(config, before, Steps()[..k])
    requires Progressed(before, after)
    requires BatchOf(config, Steps()[k]).None? ==> after == before
    requires BatchOf(config, Steps()[k]).Some? ==>
               var (id, origin) := BatchOf(config, Steps()[k]).value;
               id in after && after[id] == Batch(origin, Succeeded) && after.Keys <= before.Keys + {id}
    ensures OnlyOurs(config, after, Steps()[..k + 1])
  {
    var steps, step := Steps()[..k], Steps()[k];
    assert Steps()[..k + 1] == steps + [step];
    forall id | id in after
      ensures exists s :: s in steps + [step] && BatchOf(config, s).Some? && BatchOf(config, s).value.0 == id
    {
      if id in before {
        var s :| s in steps && BatchOf(config, s).Some? && BatchOf(config, s).value.0 == id;
        assert s in steps + [step];
      } else {
        assert step in steps + [step];
      }
    }
  }

  /** Nothing but the first `k` steps has happened, each completely, and operators left the
      DagRun alone. */
  ghost predicate InOrder(config: Config, k: nat, successes: set<Task>, run: RunState, paused: bool,
                          batches: map<string, Batch>, records: map<Step, Record>)
    requires k <= |Steps()|
  {
    && DistinctIds(config) && paused && (k < |Steps()| ==> run.RunFailed?)
    && (if k == 0 then PreparePair else TaskOf(Steps()[k - 1])) in successes
    && OnlyOurs(config, batches, Steps()[..k])
    && forall s :: s in records ==> s in Steps()[..k]
  }

  lemma NextIsAdmitted(config: Config, k: nat, successes: set<Task>, run: RunState, paused: bool,
                       batches: map<string, Batch>, records: map<Step, Record>)
    requires k < |Steps()| && InOrder(config, k, successes, run, paused, batches, records)
    ensures var step := Steps()[k];
            && Admitted(successes, run, paused, step, true) && step !in records
            && (BatchOf(config, step).None? || CanSettle(config, step, batches))
  {
    StepsAreInOrder(k);
    NextCanSettle(config, batches, k);
  }

  lemma NextIsInOrder(config: Config, k: nat, successes: set<Task>, run: RunState, paused: bool,
                      batches: map<string, Batch>, records: map<Step, Record>, successes': set<Task>, run': RunState,
                      batches': map<string, Batch>, records': map<Step, Record>)
    requires k < |Steps()| && InOrder(config, k, successes, run, paused, batches, records)
    requires TaskOf(Steps()[k]) in successes' && run' == if Steps()[k].Finalize? then RunSuccess else RunFailed
    requires Progressed(batches, batches') && records'.Keys <= records.Keys + {Steps()[k]}
    requires BatchOf(config, Steps()[k]).None? ==> batches' == batches
    requires BatchOf(config, Steps()[k]).Some? ==>
               var (id, origin) := BatchOf(config, Steps()[k]).value;
               id in batches' && batches'[id] == Batch(origin, Succeeded) && batches'.Keys <= batches.Keys + {id}
    ensures InOrder(config, k + 1, successes', run', paused, batches', records')
  {
    StepsAreInOrder(k);
    StaysOnlyOurs(config, batches, batches', k);
    assert Steps()[..k + 1] == Steps()[..k] + [Steps()[k]];
  }

  lemma AllStepsCoverTheChain(tasks: set<Task>)
    requires PrefixOfChain(tasks) && SelectWinner in tasks
    ensures IsPrefix(tasks, |Chain()|)
  {
    var n: nat :| IsPrefix(tasks, n);
    ChainIsDuplicateFree();
    assert SelectWinner in Chain()[..n];
    assert n > 11;
  }

  class Recovery {
    const weather: nat -> Weather
    var tick: nat
    var successes: set<Task>
    var run: RunState
    var paused: bool
    var batches: map<string, Batch>
    var records: map<Step, Record>
    ghost var submissions: seq<Submission>

    constructor (weather: nat -> Weather, successes: set<Task>, run: RunState, paused: bool,
                 batches: map<string, Batch>)
      requires PrefixOfChain(successes)
      ensures Valid()
    {
      this.weather, this.successes, this.run, this.paused, this.batches := weather, successes, run, paused, batches;
      tick, records, submissions := 0, map[], [];
    }

    ghost predicate Valid()
      reads this
    {
      && PrefixOfChain(successes)
      && PaidOnce(submissions, batches)
      && forall s :: s in records ==> TaskOf(s) in successes && records[s].step == s
    }

    /** No operation in this range stops. */
    ghost predicate NoStops(from: nat, to: nat) {
      forall t: nat :: from <= t < to ==> weather(t).signal.Proceeds?
    }

    /** No operation stops. */
    ghost predicate Steady() {
      forall t: nat :: weather(t).signal.Proceeds?
    }

    /** No operation stops, and batches succeed as soon as anybody looks. */
    ghost predicate Smooth() {
      Steady() && forall t: nat :: weather(t).batch.Succeeded?
    }

    /** Likewise, but the operation `lost` takes effect and seems to fail. */
    ghost predicate SmoothButFor(lost: nat) {
      && weather(lost).signal.StopsAfter? && !weather(lost).batch.Ended?
      && forall t: nat :: t != lost ==> weather(t).signal.Proceeds? && weather(t).batch.Succeeded?
    }

    /** An external check without an effect here. */
    method Consult() returns (ok: bool)
      modifies this`tick
      ensures tick == old(tick) + 1 && (ok <==> weather(old(tick)).signal.Proceeds?)
    {
      ok := weather(tick).signal.Proceeds?;
      tick := tick + 1;
    }

    /** The current description of a batch, if it exists. */
    method Describe(id: string) returns (ok: bool, batch: Option<Batch>)
      requires Valid()
      modifies this`tick, this`batches
      ensures Valid() && Progressed(old(batches), batches) && batches.Keys == old(batches).Keys
      ensures forall x :: x in batches && x != id ==> batches[x] == old(batches)[x]
      ensures id in batches && old(batches)[id].state.Active? ==> batches[id].state == weather(old(tick)).batch
      ensures ok ==> batch == if id in batches then Some(batches[id]) else None
      ensures tick == old(tick) + 1 && (ok <==> weather(old(tick)).signal.Proceeds?)
    {
      var w := weather(tick);
      tick := tick + 1;
      if id in batches && batches[id].state.Active? {
        batches := batches[id := batches[id].(state := w.batch)];
      }
      ok := w.signal.Proceeds?;
      batch := if id in batches then Some(batches[id]) else None;
    }

    /** Creates the batch unless its ID is taken. It may fail with the batch created. */
    method Launch(id: string, origin: Origin) returns (ok: bool)
      requires Valid() && id !in batches
      modifies this`tick, this`batches, this`submissions
      ensures Valid() && Progressed(old(batches), batches)
      ensures var w := weather(old(tick));
              && submissions == old(submissions) + [Submission(id, false, !w.signal.StopsBefore?)]
              && batches == (if w.signal.StopsBefore? then old(batches)
                             else old(batches)[id := Batch(origin, w.batch)])
              && (ok <==> w.signal.Proceeds?)
      ensures tick == old(tick) + 1
    {
      var w := weather(tick);
      tick := tick + 1;
      var created := id !in batches && !w.signal.StopsBefore?;
      submissions := submissions + [Submission(id, id in batches, created)];
      if created {
        batches := batches[id := Batch(origin, w.batch)];
      }
      ok := created && w.signal.Proceeds?;
    }

    /** Waits for an existing batch of this origin to succeed; `patience` is the number of polls
        before the process is stopped. */
    method Adopt(id: string, origin: Origin, patience: nat) returns (r: Adoption)
      requires Valid()
      modifies this`tick, this`batches
      ensures Valid() && Progressed(old(batches), batches) && batches.Keys == old(batches).Keys
      ensures r.Absent? ==> id !in batches
      ensures r.Absent? ==> batches == old(batches) && tick == old(tick) + 1
      ensures id !in old(batches) && weather(old(tick)).signal.Proceeds? ==> r.Absent?
      ensures r.Adopted? ==> id in batches && batches[id] == Batch(origin, Succeeded)
      ensures tick > old(tick) && (r.Adopted? ==> weather(tick - 1).signal.Proceeds?)
      ensures Steady() ==>
                && (r.Absent? <==> id !in batches)
                && (r.Adopted? <==> id in batches && batches[id] == Batch(origin, Succeeded))
      // It is not refused before the last poll while it runs.
      ensures Steady() && r.Refused? && id in batches && batches[id] == Batch(origin, Active) ==>
                tick == old(tick) + 1 + patience
      ensures id in old(batches) && old(batches)[id].origin == origin && !old(batches)[id].state.Ended?
              && (forall t: nat :: old(tick) <= t ==> weather(t).signal.Proceeds? && weather(t).batch.Succeeded?) ==>
                r.Adopted?
    {
      var ok, batch := Describe(id);
      if !ok {
        return Refused;
      }
      if batch.None? {
        return Absent;
      }
      if batch.value.origin != origin {
        return Refused;
      }
      var polls := patience;
      while batch.value.state.Active?
        invariant Valid() && Progressed(old(batches), batches) && batches.Keys == old(batches).Keys
        invariant batch.Some? && id in batches && batches[id] == batch.value && batch.value.origin == origin
        invariant tick == old(tick) + 1 + patience - polls
        invariant !old(batches)[id].state.Ended?
                  && (forall t: nat :: old(tick) <= t ==>
                        weather(t).signal.Proceeds? && weather(t).batch.Succeeded?) ==>
                    batch.value.state.Succeeded?
        decreases polls
      {
        if polls == 0 {
          return Refused;
        }
        polls := polls - 1;
        ok, batch := Describe(id);
        if !ok || batch.None? {
          return Refused;
        }
      }
      if !batch.value.state.Succeeded? {
        return Refused;
      }
      ok := Consult();
      r := if ok then Adopted else Refused;
    }

    /** Adopts the batch if it exists and launches it if it does not. A launch that fails may
        still have created the batch, which is then adopted. */
    method AdoptOrLaunch(id: string, origin: Origin, patience: nat) returns (ok: bool)
      requires Valid()
      modifies this`tick, this`batches, this`submissions
      ensures Valid() && Progressed(old(batches), batches) && batches.Keys <= old(batches).Keys + {id}
      ensures id in batches && id !in old(batches) ==> batches[id].origin == origin
      ensures tick > old(tick) && (ok ==> id in batches)
      // Steady, an absent batch is created by one submission.
      ensures Steady() && id !in old(batches) ==>
                && ok && id in batches && submissions == old(submissions) + [Submission(id, false, true)]
                && batches == old(batches)[id := Batch(origin, weather(old(tick) + if origin.scan then 2 else 1).batch)]
      // A launch that seems to fail and did create the batch is as good.
      ensures id !in old(batches) && SmoothButFor(old(tick) + if origin.scan then 2 else 1) ==>
                ok && id in batches && batches[id].state.Succeeded?
    {
      var adoption := Adopt(id, origin, patience);
      if !adoption.Absent? {
        return adoption.Adopted?;
      }
      if origin.scan {
        ok := Consult();
        if !ok {
          return;
        }
      }
      ok := Launch(id, origin);
      if !ok {
        adoption := Adopt(id, origin, patience);
        ok := adoption.Adopted?;
      }
    }

    /** Marks an Airflow task successful, then puts the DagRun back into its failed hold. */
    method HoldAfterTaskPatch(task: Task) returns (ok: bool)
      modifies this`tick, this`successes, this`run
      ensures successes == old(successes) || successes == old(successes) + {task}
      ensures successes == old(successes) && task !in successes ==> run == old(run)
      ensures ok ==> task in successes && run.RunFailed?
      ensures tick > old(tick) && (ok <==> NoStops(old(tick), tick))
    {
      var patch := weather(tick);
      tick := tick + 1;
      if patch.signal.StopsBefore? {
        return false;
      }
      successes, run := successes + {task}, patch.reaction;
      if patch.signal.StopsAfter? {
        return false;
      }
      ok := Consult();
      if !ok {
        return;
      }
      if task !in successes {
        return false;
      }
      if !run.RunFailed? {
        var hold := weather(tick);
        tick := tick + 1;
        if hold.signal.StopsBefore? {
          return false;
        }
        run := RunFailed;
        ok := hold.signal.Proceeds?;
      }
    }

    /** Writes the evidence of a step once; an existing file must say the same. */
    method RecordStep(record: Record) returns (ok: bool)
      requires Valid() && TaskOf(record.step) in successes
      modifies this`tick, this`records
      ensures Valid()
      ensures records == old(records)
              || (record.step !in old(records) && records == old(records)[record.step := record])
      ensures ok ==> record.step in records && records[record.step] == record
      ensures tick == old(tick) + 1
      ensures ok <==> NoStops(old(tick), tick)
                      && (record.step in old(records) ==> old(records)[record.step] == record)
    {
      var write := weather(tick);
      tick := tick + 1;
      if record.step in records {
        return records[record.step] == record && write.signal.Proceeds?;
      }
      if write.signal.StopsBefore? {
        return false;
      }
      records := records[record.step := record];
      ok := write.signal.Proceeds?;
    }

    /** The batch part of a step: the batch exists, comes from this configuration, and is done.
        Only `Submit` and `Summary` may launch it, and only when it does not exist. */
    method SettleBatch(config: Config, step: Step, patience: nat) returns (r: Settlement)
      requires Valid() && BatchOf(config, step).Some?
      modifies this`tick, this`batches, this`submissions
      ensures Valid() && Progressed(old(batches), batches)
      ensures batches.Keys <= old(batches).Keys + {BatchOf(config, step).value.0}
      ensures !(step.Submit? || step.Summary?) ==> submissions == old(submissions)
      ensures !r.Unsettled? ==>
                var (id, origin) := BatchOf(config, step).value;
                id in batches && batches[id].origin == origin
                && (if r.Running? then batches[id].state.Active? && (step.Submit? || step.Summary?)
                    else batches[id].state.Succeeded?)
      ensures tick > old(tick) && (BatchOf(config, step).value.0 in old(batches) ==> tick == old(tick) + 1)
      ensures !r.Unsettled? ==> weather(tick - 1).signal.Proceeds?
      // Steady, the batch as it is read decides.
      ensures Steady() ==>
                var (id, origin) := BatchOf(config, step).value;
                && (id in batches <==> id in old(batches) || step.Submit? || step.Summary?)
                && (r.Settled? <==> id in batches && batches[id] == Batch(origin, Succeeded))
                && (r.Running? <==> (step.Submit? || step.Summary?) && id in batches
                                    && batches[id] == Batch(origin, Active))
                && submissions == old(submissions) + (if id in batches && id !in old(batches)
                                                      then [Submission(id, false, true)] else [])
      ensures Smooth() && CanSettle(config, step, old(batches)) ==> r.Settled?
    {
      var (id, origin) := BatchOf(config, step).value;
      var ok, batch := Describe(id);
      if !ok {
        return Unsettled;
      }
      if (step.Submit? || step.Summary?) && batch.None? {
        ok := AdoptOrLaunch(id, origin, patience);
        if !ok {
          return Unsettled;
        }
        ok, batch := Describe(id);
        if !ok {
          return Unsettled;
        }
      }
      if batch.None? || batch.value.origin != origin {
        return Unsettled;
      }
      if batch.value.state.Active? && (step.Submit? || step.Summary?) {
        return Running;
      }
      r := if batch.value.state.Succeeded? then Settled else Unsettled;
    }

    /** The Airflow part of a step, and its evidence. */
    method Reconcile(record: Record) returns (ok: bool)
      requires Valid() && run.RunFailed? && PrefixOfChain(successes + {TaskOf(record.step)})
      modifies this`tick, this`successes, this`run, this`records
      ensures Valid()
      ensures successes == old(successes) || successes == old(successes) + {TaskOf(record.step)}
      ensures TaskOf(record.step) !in successes ==> run == old(run)
      ensures records == old(records)
              || (record.step !in old(records) && records == old(records)[record.step := record])
      ensures ok ==>
                && TaskOf(record.step) in successes && record.step in records && records[record.step] == record
                && run == (if record.step.Finalize? then RunSuccess else RunFailed)
      ensures tick > old(tick)
      ensures ok <==> NoStops(old(tick), tick)
                      && (record.step in old(records) ==> old(records)[record.step] == record)
    {
      hide NoStops, PrefixOfChain;
      var step := record.step;
      NothingStops(tick);
      if !step.Quota? || TaskOf(step) !in successes {
        ok := HoldAfterTaskPatch(TaskOf(step));
        if !ok {
          return;
        }
      }
      ghost var held := tick;
      if step.Finalize? {
        ok := Release();
        StopsJoin(old(tick), held, tick);
        if !ok {
          return;
        }
      }
      ghost var released := tick;
      ok := RecordStep(record);
      StopsJoin(old(tick), released, tick);
    }

    lemma NothingStops(at: nat)
      ensures NoStops(at, at)
    {
    }

    lemma StopsJoin(from: nat, mid: nat, to: nat)
      requires from <= mid <= to
      ensures NoStops(from, to) <==> NoStops(from, mid) && NoStops(mid, to)
    {
    }

    /** Marks the DagRun successful. */
    method Release() returns (ok: bool)
      modifies this`tick, this`run
      ensures tick == old(tick) + 1 && (ok <==> NoStops(old(tick), tick))
      ensures run == if weather(old(tick)).signal.StopsBefore? then old(run) else RunSuccess
      ensures ok ==> run.RunSuccess?
    {
      var release := weather(tick);
      tick := tick + 1;
      if release.signal.StopsBefore? {
        return false;
      }
      run := RunSuccess;
      ok := release.signal.Proceeds?;
    }

    /** The checks before anything is touched. */
    method Enter(step: Step, authorized: bool) returns (ok: bool)
      modifies this`tick
      ensures ok ==> Admitted(successes, run, paused, step, authorized)
      ensures ok <==> Admitted(successes, run, paused, step, authorized) && NoStops(old(tick), tick)
      ensures tick == old(tick) ==> !authorized
      ensures ok ==> tick == old(tick) + 2
    {
      if !authorized {
        return false;
      }
      ok := Consult();
      if !ok || !run.RunFailed? || !paused || Predecessor(step) !in successes {
        return false;
      }
      ok := Consult();
    }

    /** Settles the batch of a step that has one. */
    method SettleStep(config: Config, step: Step, patience: nat) returns (r: Settlement)
      requires Valid()
      modifies this`tick, this`batches, this`submissions
      ensures Valid() && Progressed(old(batches), batches)
      ensures BatchOf(config, step).None? ==> r.Settled? && batches == old(batches)
      ensures BatchOf(config, step).Some? ==> batches.Keys <= old(batches).Keys + {BatchOf(config, step).value.0}
      ensures r.Settled? && BatchOf(config, step).Some? ==>
                var (id, origin) := BatchOf(config, step).value;
                id in batches && batches[id] == Batch(origin, Succeeded)
      ensures r.Running? ==>
                && (step.Submit? || step.Summary?)
                && var (id, origin) := BatchOf(config, step).value;
                   id in batches && batches[id] == Batch(origin, Active)
      ensures BatchOf(config, step).None? ==> submissions == old(submissions)
      // A batch is settled by its description and by the verification of its outputs behind it.
      ensures r.Settled? && BatchOf(config, step).Some? ==>
                && tick >= old(tick) + 2 && NoStops(tick - 2, tick)
                && (BatchOf(config, step).value.0 in old(batches) ==> tick == old(tick) + 2)
      ensures Steady() && BatchOf(config, step).Some? ==>
                var (id, origin) := BatchOf(config, step).value;
                && (id in batches <==> id in old(batches) || step.Submit? || step.Summary?)
                && (r.Settled? <==> id in batches && batches[id] == Batch(origin, Succeeded))
                && (r.Running? <==> (step.Submit? || step.Summary?) && id in batches
                                    && batches[id] == Batch(origin, Active))
                && submissions == old(submissions) + (if id in batches && id !in old(batches)
                                                      then [Submission(id, false, true)] else [])
      ensures Smooth() && (BatchOf(config, step).None? || CanSettle(config, step, old(batches))) ==> r.Settled?
    {
      if BatchOf(config, step).None? {
        return Settled;
      }
      r := SettleBatch(config, step, patience);
      if r.Settled? {
        var ok := Consult();
        if !ok {
          return Unsettled;
        }
      }
    }

    /** An admitted invocation: the batch is settled, then the task succeeds and is recorded. */
    method PerformStep(config: Config, step: Step, patience: nat) returns (r: Outcome)
      requires Valid() && run.RunFailed? && Predecessor(step) in successes
      modifies this`tick, this`successes, this`run, this`batches, this`records, this`submissions
      ensures Valid()
      ensures successes == old(successes) || successes == old(successes) + {TaskOf(step)}
      ensures TaskOf(step) !in successes ==> run == old(run)
      ensures r.InProgress? ==>
                && successes == old(successes) && run.RunFailed? && records == old(records)
                && (step.Submit? || step.Summary?)
                && var (id, origin) := BatchOf(config, step).value;
                   id in batches && batches[id] == Batch(origin, Active)
      ensures r.Recorded? ==>
                && TaskOf(step) in successes
                && run == (if step.Finalize? then RunSuccess else RunFailed)
                && r.record == RecordOf(config, step) && step in records && records[step] == r.record
      ensures Progressed(old(batches), batches)
      ensures BatchOf(config, step).None? ==> batches == old(batches)
      ensures BatchOf(config, step).Some? ==> batches.Keys <= old(batches).Keys + {BatchOf(config, step).value.0}
      ensures r.Recorded? && BatchOf(config, step).Some? ==>
                var (id, origin) := BatchOf(config, step).value;
                id in batches && batches[id] == Batch(origin, Succeeded)
      ensures records == old(records)
              || (step !in old(records) && records == old(records)[step := RecordOf(config, step)])
      ensures Steady() && BatchOf(config, step).Some? ==>
                var (id, origin) := BatchOf(config, step).value;
                && (id in batches <==> id in old(batches) || step.Submit? || step.Summary?)
                && (r.InProgress? <==> (step.Submit? || step.Summary?) && id in batches
                                       && batches[id] == Batch(origin, Active))
                && (r.Recorded? <==> id in batches && batches[id] == Batch(origin, Succeeded)
                                     && (step in old(records) ==> old(records)[step] == RecordOf(config, step)))
                && (!(id in batches && batches[id] == Batch(origin, Succeeded)) ==>
                      successes == old(successes) && run == old(run) && records == old(records))
                && submissions == old(submissions) + (if id in batches && id !in old(batches)
                                                      then [Submission(id, false, true)] else [])
      ensures Steady() && BatchOf(config, step).None? ==>
                && submissions == old(submissions)
                && (r.Recorded? <==> step in old(records) ==> old(records)[step] == RecordOf(config, step))
      ensures Smooth() && (BatchOf(config, step).None? || CanSettle(config, step, old(batches)))
              && (step in old(records) ==> old(records)[step] == RecordOf(config, step)) ==>
                r.Recorded?
    {
      SucceedingExtendsPrefix(successes, step);
      var settlement := SettleStep(config, step, patience);
      if settlement.Running? {
        return InProgress;
      }
      if settlement.Unsettled? {
        return Stopped;
      }
      var record := RecordOf(config, step);
      var ok := Reconcile(record);
      r := if ok then Recorded(record) else Stopped;
    }

    /** One invocation. */
    method RunGoldStep(config: Config, step: Step, authorized: bool, patience: nat) returns (r: Outcome)
      requires Valid()
      modifies this`tick, this`successes, this`run, this`batches, this`records, this`submissions
      ensures Valid()
      // Who may not enter changes nothing.
      ensures !Admitted(old(successes), old(run), paused, step, authorized) ==>
                && r.Stopped? && run == old(run) && successes == old(successes)
                && batches == old(batches) && records == old(records) && submissions == old(submissions)
      // At most this step's task succeeds, and the DagRun moves only with it.
      ensures successes == old(successes) || successes == old(successes) + {TaskOf(step)}
      ensures TaskOf(step) !in successes ==> run == old(run)
      ensures r.InProgress? ==>
                && successes == old(successes) && run.RunFailed? && records == old(records)
                && (step.Submit? || step.Summary?)
                && var (id, origin) := BatchOf(config, step).value;
                   id in batches && batches[id] == Batch(origin, Active)
      ensures r.Recorded? ==>
                && TaskOf(step) in successes
                && run == (if step.Finalize? then RunSuccess else RunFailed)
                && r.record == RecordOf(config, step) && step in records && records[step] == r.record
      // What was paid for is there, is ours, and is done.
      ensures Progressed(old(batches), batches)
      ensures BatchOf(config, step).None? ==> batches == old(batches)
      ensures BatchOf(config, step).Some? ==> batches.Keys <= old(batches).Keys + {BatchOf(config, step).value.0}
      ensures r.Recorded? && BatchOf(config, step).Some? ==>
                var (id, origin) := BatchOf(config, step).value;
                id in batches && batches[id] == Batch(origin, Succeeded)
      // Evidence is never rewritten.
      ensures forall s :: s in old(records) ==> s in records && records[s] == old(records)[s]
      ensures records.Keys <= old(records).Keys + {step}
      // Steady, the batch as it is read decides: it is still running, done, or neither.
      ensures Steady() && BatchOf(config, step).Some?
              && Admitted(old(successes), old(run), paused, step, authorized) ==>
                var (id, origin) := BatchOf(config, step).value;
                && (id in batches <==> id in old(batches) || step.Submit? || step.Summary?)
                && (r.InProgress? <==> (step.Submit? || step.Summary?) && id in batches
                                       && batches[id] == Batch(origin, Active))
                && (r.Recorded? <==> id in batches && batches[id] == Batch(origin, Succeeded)
                                     && (step in old(records) ==> old(records)[step] == RecordOf(config, step)))
                && (!(id in batches && batches[id] == Batch(origin, Succeeded)) ==>
                      successes == old(successes) && run == old(run) && records == old(records))
                && submissions == old(submissions) + (if id in batches && id !in old(batches)
                                                      then [Submission(id, false, true)] else [])
      ensures Steady() && BatchOf(config, step).None?
              && Admitted(old(successes), old(run), paused, step, authorized) ==>
                && submissions == old(submissions)
                && (r.Recorded? <==> step in old(records) ==> old(records)[step] == RecordOf(config, step))
      ensures Smooth() && Admitted(old(successes), old(run), paused, step, authorized)
              && (BatchOf(config, step).None? || CanSettle(config, step, old(batches)))
              && (step in old(records) ==> old(records)[step] == RecordOf(config, step)) ==>
                r.Recorded?
    {
      var ok := Enter(step, authorized);
      if !ok {
        return Stopped;
      }
      r := PerformStep(config, step, patience);
    }

    /** Any sequence of invocations, by any controllers, with operators acting in between; `runs`
        are the DagRun states after them. Once the DagRun is successful, whether or not the
        evidence of that could be written, everything is refused and nothing changes. */
    method Recover(configs: nat -> Config, steps: seq<Step>, interludes: nat -> Interlude, patience: nat)
      returns (results: seq<Outcome>, runs: seq<RunState>)
      requires Valid()
      modifies this`tick, this`successes, this`run, this`paused, this`batches, this`records, this`submissions
      ensures Valid() && |results| == |runs| == |steps|
      ensures SuccessIsFinal(steps, results, runs)
      ensures old(run).RunSuccess? ==>
                && run.RunSuccess? && successes == old(successes) && batches == old(batches)
                && records == old(records) && submissions == old(submissions)
                && forall i :: 0 <= i < |steps| ==> results[i].Stopped?
      ensures AllKept(steps, results, successes, records)
      ensures old(successes) <= successes && Progressed(old(batches), batches)
    {
      results, runs := [], [];
      for k := 0 to |steps|
        invariant Valid() && |results| == |runs| == k && SuccessIsFinal(steps, results, runs)
        invariant forall i :: 0 <= i < k && runs[i].RunSuccess? ==> run.RunSuccess?
        invariant old(run).RunSuccess? ==>
                    && run.RunSuccess? && successes == old(successes) && batches == old(batches)
                    && records == old(records) && submissions == old(submissions)
                    && forall i :: 0 <= i < k ==> results[i].Stopped?
        invariant AllKept(steps, results, successes, records)
        invariant old(successes) <= successes && Progressed(old(batches), batches)
      {
        ghost var tasks, evidence := successes, records;
        var r := RunAfter(interludes(k), configs(k), steps[k], patience);
        SuccessStaysFinal(steps, results, runs, r, run);
        AllStaysKept(steps, results, tasks, evidence, r, successes, records);
        results, runs := results + [r], runs + [run];
      }
    }

    /** One invocation, after operators have acted. */
    method RunAfter(interlude: Interlude, config: Config, step: Step, patience: nat) returns (r: Outcome)
      requires Valid()
      modifies this`tick, this`successes, this`run, this`paused, this`batches, this`records, this`submissions
      ensures Valid()
      ensures old(run).RunSuccess? ==>
                && r.Stopped? && run.RunSuccess? && successes == old(successes) && batches == old(batches)
                && records == old(records) && submissions == old(submissions)
      ensures paused == interlude.paused
      ensures var held := if interlude.restoreHold && !old(run).RunSuccess? then RunFailed else old(run);
              !Admitted(old(successes), held, interlude.paused, step, interlude.authorized) ==>
                && r.Stopped? && run == held && successes == old(successes) && batches == old(batches)
                && records == old(records) && submissions == old(submissions)
      ensures step.Finalize? && r.Recorded? ==> run.RunSuccess?
      ensures r.Recorded? ==> Kept(step, r.record, successes, records)
      ensures old(successes) <= successes && Progressed(old(batches), batches)
      ensures forall s :: s in old(records) ==> s in records && records[s] == old(records)[s]
    {
      paused := interlude.paused;
      if interlude.restoreHold && !run.RunSuccess? {
        run := RunFailed;
      }
      r := RunGoldStep(config, step, interlude.authorized, patience);
    }

    /** Nothing but the first `k` steps has happened, each completely. */
    ghost predicate Underway(config: Config, k: nat)
      requires k <= |Steps()|
      reads this
    {
      Smooth() && InOrder(config, k, successes, run, paused, batches, records)
    }

    /** Undisturbed, with distinct batch IDs that nobody uses, the eleven steps in order finish
        the recovery. */
    method RecoverInOrder(config: Config, patience: nat) returns (finished: bool)
      requires Valid()
      modifies this`tick, this`successes, this`run, this`batches, this`records, this`submissions
      ensures Valid()
      ensures finished ==>
                run.RunSuccess? && IsPrefix(successes, |Chain()|) && forall s :: s in Steps() ==> s in records
      ensures old(Underway(config, 0)) ==> finished
    {
      var steps := Steps();
      ghost var clear := Underway(config, 0);
      for k := 0 to |steps|
        invariant Valid()
        invariant forall i :: 0 <= i < k ==> steps[i] in records
        invariant k == |steps| ==> run.RunSuccess?
        invariant clear ==> Underway(config, k)
      {
        finished := NextStep(config, k, patience);
        if !finished {
          return;
        }
      }
      assert steps[10] == Finalize;
      AllStepsCoverTheChain(successes);
      finished := true;
    }

    method NextStep(config: Config, k: nat, patience: nat) returns (ok: bool)
      requires Valid() && k < |Steps()|
      modifies this`tick, this`successes, this`run, this`batches, this`records, this`submissions
      ensures Valid()
      ensures forall s :: s in old(records) ==> s in records
      ensures ok ==> Steps()[k] in records && (k == 10 ==> run.RunSuccess?)
      ensures old(Underway(config, k)) ==> ok && Underway(config, k + 1)
    {
      ghost var clear := Underway(config, k);
      if clear {
        NextIsAdmitted(config, k, successes, run, paused, batches, records);
      }
      var r := RunGoldStep(config, Steps()[k], true, patience);
      ok := r.Recorded?;
      StepsAreInOrder(k);
      if clear {
        NextIsInOrder(config, k, old(successes), old(run), paused, old(batches), old(records),
                      successes, run, batches, records);
      }
    }
  }
}
