/** The in-process store: a dictionary of records updated in place under one lock.

    Every public method body is one critical section, so each call is atomic; the clock
    reading it takes is the parameter `now`.
 */
module InMemoryIdempotencyStore {
  import opened IdempotencyCell
  import opened IdempotencyContract

  datatype RecordState = InClaim | InStart | InResult | InAmbiguity

  class Record {
    var fingerprint: string
    var state: RecordState
    var ownerToken: string
    var generation: nat
    var leaseUntilMs: int
    var resultJson: Option<string>
    var completedUntilMs: Option<int>

    constructor (fingerprint: string, ownerToken: string, leaseUntilMs: int)
      ensures Valid() && Snapshot() == Claimed(fingerprint, ownerToken, 1, leaseUntilMs)
    {
      this.fingerprint, this.state, this.ownerToken := fingerprint, InClaim, ownerToken;
      this.generation, this.leaseUntilMs := 1, leaseUntilMs;
      this.resultJson, this.completedUntilMs := None, None;
    }

    ghost predicate Valid()
      reads this
    {
      && (state.InResult? <==> resultJson.Some?)
      && (state.InResult? <==> completedUntilMs.Some?)
    }

    ghost function Snapshot(): Cell
      reads this
      requires Valid()
    {
      match state
      case InClaim => Claimed(fingerprint, ownerToken, generation, leaseUntilMs)
      case InStart => Started(fingerprint, ownerToken, generation, leaseUntilMs)
      case InResult => Completed(fingerprint, generation, resultJson.value, completedUntilMs.value)
      case InAmbiguity => Ambiguous(fingerprint, generation)
    }

    method Decide() returns (claim: Claim)
      requires Valid()
      ensures claim == Decision(Snapshot())
    {
      var status := match state
        case InClaim => InProgress
        case InStart => InProgress
        case InResult => AlreadyCompleted
        case InAmbiguity => InDoubt;
      claim := ClaimOf(status, None, generation, resultJson);
    }

    method OwnedBy(fingerprint: string, claim: Claim, phase: RecordState) returns (owned: bool)
      requires Valid() && (phase.InClaim? || phase.InStart?)
      ensures owned <==> state == phase && Entitles(Snapshot(), fingerprint, claim)
    {
      owned :=
        && this.fingerprint == fingerprint
        && state == phase
        && claim.status.Acquired?
        && claim.owner == Some(ownerToken)
        && generation == claim.generation;
    }

    /** Turns a start into a result and forgets its owner. */
    method Hold(resultJson: string, now: int, completedTtlMs: int)
      requires Valid() && state.InStart?
      modifies this
      ensures Valid() && Snapshot().Completed? && fingerprint == old(fingerprint)
      ensures ownerToken == "" && leaseUntilMs == 0
      ensures Path(old(Snapshot()),
                   [Finish(old(ownerToken), old(generation), resultJson, now, completedTtlMs)], Snapshot())
    {
      state := InResult;
      this.resultJson := Some(resultJson);
      completedUntilMs := Some(now + completedTtlMs);
      ownerToken := "";
      leaseUntilMs := 0;
    }

    /** Decides a claim on a record that exists and carries the same fingerprint. */
    method Arbitrate(ghost fingerprint: string, ownerToken: string, leaseMs: int, now: int)
      returns (r: Reply, ghost ls: seq<Label>)
      requires Valid() && this.fingerprint == fingerprint
      modifies this
      ensures Valid()
      ensures ls == ClaimLabels(old(Snapshot()), fingerprint, ownerToken, now, leaseMs)
      ensures Path(old(Snapshot()), ls, Snapshot())
      ensures ClaimAnswer(old(Snapshot()), ls, Snapshot(), fingerprint, ownerToken, r)
    {
      ls := [];
      if state.InResult? || state.InAmbiguity? || now < leaseUntilMs {
        var claim := Decide();
        r := Granted(claim);
      } else if state.InStart? {
        state, this.ownerToken, leaseUntilMs := InAmbiguity, "", 0;
        var claim := Decide();
        r, ls := Granted(claim), [Doubt(now)];
      } else {
        this.ownerToken := ownerToken;
        generation := generation + 1;
        leaseUntilMs := now + leaseMs;
        r, ls := Granted(ClaimOf(Acquired, Some(ownerToken), generation, None)),
                 [Take(fingerprint, ownerToken, now, leaseMs)];
      }
    }
  }

  class Store {
    var records: map<string, Record>

    constructor ()
      ensures Valid() && records == map[]
    {
      records := map[];
    }

    /** Records are never shared between keys. */
    ghost predicate Valid()
      reads this, records.Values
    {
      && (forall key :: key in records ==> records[key].Valid())
      && (forall k, l :: k in records && l in records && k != l ==> records[k] != records[l])
    }

    ghost function CellAt(key: string): Cell
      reads this, records.Values
      requires Valid()
    {
      if key in records then records[key].Snapshot() else Absent
    }

    /** Drops an expired result and rejects a foreign fingerprint. */
    method Lookup(key: string, fingerprint: string, now: int)
      returns (record: Record?, conflict: bool, ghost ls: seq<Label>)
      requires Valid()
      modifies this
      ensures Valid() && records.Values <= old(records.Values)
      ensures ls == PurgeLabels(old(CellAt(key)), now)
      ensures Path(old(CellAt(key)), ls, CellAt(key))
      ensures forall k :: k != key ==> CellAt(k) == old(CellAt(k))
      ensures conflict <==> !CellAt(key).Absent? && CellAt(key).fingerprint != fingerprint
      ensures !conflict ==> (record == null <==> key !in records) && (key in records ==> record == records[key])
    {
      record, conflict, ls := null, false, [];
      if key in records {
        record := records[key];
        if record.state.InResult? && record.completedUntilMs.Some? && now >= record.completedUntilMs.value {
          ls := [Vanish(now)];
          records := records - {key};
          record := null;
        }
      }
      if record != null && record.fingerprint != fingerprint {
        conflict := true;
      }
    }

    /** The part of a claim behind the lookup: a conflict, a new record, or a decision. */
    method ClaimLive(key: string, record: Record?, conflict: bool, fingerprint: string, ownerToken: string,
                     leaseMs: int, now: int)
      returns (r: Reply, ghost ls: seq<Label>)
      requires Valid()
      requires conflict <==> !CellAt(key).Absent? && CellAt(key).fingerprint != fingerprint
      requires !conflict ==> (record == null <==> key !in records) && (key in records ==> record == records[key])
      modifies this, records.Values
      ensures Valid() && fresh(records.Values - old(records.Values))
      ensures forall k :: k != key ==> CellAt(k) == old(CellAt(k))
      ensures ls == ClaimLabels(old(CellAt(key)), fingerprint, ownerToken, now, leaseMs)
      ensures Path(old(CellAt(key)), ls, CellAt(key))
      ensures ClaimAnswer(old(CellAt(key)), ls, CellAt(key), fingerprint, ownerToken, r)
    {
      ls := [];
      if conflict {
        r := Raised(Conflict);
      } else if record == null {
        var created := new Record(fingerprint, ownerToken, now + leaseMs);
        records := records[key := created];
        r, ls := Granted(ClaimOf(Acquired, Some(ownerToken), 1, None)), [Take(fingerprint, ownerToken, now, leaseMs)];
      } else {
        r, ls := record.Arbitrate(fingerprint, ownerToken, leaseMs, now);
      }
    }

    method Claim(scope: Scope, requestId: string, fingerprint: string, ownerToken: string, leaseMs: int, now: int)
      returns (r: Reply, ghost ls: seq<Label>)
      requires Valid()
      modifies this, records.Values
      ensures Valid() && fresh(records.Values - old(records.Values))
      ensures var key := KeyMaterial(scope, requestId);
              && Path(old(CellAt(key)), ls, CellAt(key))
              && (forall k :: k != key ==> CellAt(k) == old(CellAt(k)))
      ensures var key := KeyMaterial(scope, requestId);
              if !(ValidFingerprint(fingerprint) && ValidOwnerToken(ownerToken) && ValidDuration(leaseMs)
                   && ValidRequestId(requestId)) then
                r == Raised(ValueError) && ls == []
              else
                var purge := PurgeLabels(old(CellAt(key)), now);
                var live := if purge == [] then old(CellAt(key)) else Absent;
                var claim := ClaimLabels(live, fingerprint, ownerToken, now, leaseMs);
                ls == purge + claim && ClaimAnswer(live, claim, CellAt(key), fingerprint, ownerToken, r)
    {
      ls := [];
      if !(ValidFingerprint(fingerprint) && ValidOwnerToken(ownerToken) && ValidDuration(leaseMs)
           && ValidRequestId(requestId)) {
        return Raised(ValueError), [];
      }
      var key := KeyMaterial(scope, requestId);
      ghost var before := CellAt(key);
      var record, conflict, purge := Lookup(key, fingerprint, now);
      ghost var live := CellAt(key);
      assert live == if purge == [] then before else Absent;
      r, ls := ClaimLive(key, record, conflict, fingerprint, ownerToken, leaseMs, now);
      PathJoin(before, purge, live, ls, CellAt(key));
      ls := purge + ls;
    }

    /** Unlike the Redis script, reading leaves an outlived start alone. */
    method Read(scope: Scope, requestId: string, fingerprint: string, now: int) returns (r: Reply, ghost ls: seq<Label>)
      requires Valid()
      modifies this
      ensures Valid() && records.Values <= old(records.Values)
      ensures var key := KeyMaterial(scope, requestId);
              && Path(old(CellAt(key)), ls, CellAt(key))
              && (forall k :: k != key ==> CellAt(k) == old(CellAt(k)))
      ensures var key := KeyMaterial(scope, requestId);
              if !(ValidFingerprint(fingerprint) && ValidRequestId(requestId)) then
                r == Raised(ValueError) && ls == []
              else
                && ls == PurgeLabels(old(CellAt(key)), now)
                && r == if CellAt(key).Absent? then Raised(StateError)
                        else if CellAt(key).fingerprint != fingerprint then Raised(Conflict)
                        else Granted(Decision(CellAt(key)))
    {
      if !(ValidFingerprint(fingerprint) && ValidRequestId(requestId)) {
        return Raised(ValueError), [];
      }
      var record, conflict, purge := Lookup(KeyMaterial(scope, requestId), fingerprint, now);
      ls := purge;
      if conflict {
        r := Raised(Conflict);
      } else if record == null {
        r := Raised(StateError);
      } else {
        var claim := record.Decide();
        r := Granted(claim);
      }
    }

    method MarkStarted(scope: Scope, requestId: string, fingerprint: string, claim: Claim, leaseMs: int, now: int)
      returns (r: Ack)
      requires Valid()
      modifies records.Values
      ensures Valid()
      ensures forall k :: k != KeyMaterial(scope, requestId) ==> CellAt(k) == old(CellAt(k))
      ensures var key := KeyMaterial(scope, requestId);
              if !ValidDuration(leaseMs) || !ValidRequestId(requestId) then
                r == Refused(ValueError) && CellAt(key) == old(CellAt(key))
              else if old(CellAt(key)).Claimed? && Entitles(old(CellAt(key)), fingerprint, claim) then
                && r == Ok
                && Path(old(CellAt(key)), [Start(claim.owner.value, claim.generation, now, leaseMs)], CellAt(key))
              else
                r == Refused(StateError) && CellAt(key) == old(CellAt(key))
    {
      if !ValidDuration(leaseMs) || !ValidRequestId(requestId) {
        return Refused(ValueError);
      }
      var key := KeyMaterial(scope, requestId);
      var owned := false;
      if key in records {
        owned := records[key].OwnedBy(fingerprint, claim, InClaim);
      }
      if !owned {
        return Refused(StateError);
      }
      var record := records[key];
      record.state := InStart;
      record.leaseUntilMs := now + leaseMs;
      r := Ok;
    }

    /** `resultBytes` is the length of the UTF-8 encoding of the result. */
    method Complete(scope: Scope, requestId: string, fingerprint: string, claim: Claim, resultJson: string,
                    resultBytes: nat, completedTtlMs: int, now: int)
      returns (r: Ack)
      requires Valid()
      modifies records.Values
      ensures Valid()
      ensures forall k :: k != KeyMaterial(scope, requestId) ==> CellAt(k) == old(CellAt(k))
      ensures var key := KeyMaterial(scope, requestId);
              if !ValidDuration(completedTtlMs) || resultBytes > MAX_RESULT_BYTES || !ValidRequestId(requestId) then
                r == Refused(ValueError) && CellAt(key) == old(CellAt(key))
              else if old(CellAt(key)).Started? && Entitles(old(CellAt(key)), fingerprint, claim) then
                && r == Ok
                && Path(old(CellAt(key)),
                        [Finish(claim.owner.value, claim.generation, resultJson, now, completedTtlMs)], CellAt(key))
              else
                r == Refused(StateError) && CellAt(key) == old(CellAt(key))
    {
      if !ValidDuration(completedTtlMs) || resultBytes > MAX_RESULT_BYTES || !ValidRequestId(requestId) {
        return Refused(ValueError);
      }
      var key := KeyMaterial(scope, requestId);
      var owned := false;
      if key in records {
        owned := records[key].OwnedBy(fingerprint, claim, InStart);
      }
      if !owned {
        return Refused(StateError);
      }
      records[key].Hold(resultJson, now, completedTtlMs);
      r := Ok;
    }

    method ReleaseUnstarted(scope: Scope, requestId: string, fingerprint: string, claim: Claim) returns (r: Ack)
      requires Valid()
      modifies this
      ensures Valid() && records.Values <= old(records.Values)
      ensures forall k :: k != KeyMaterial(scope, requestId) ==> CellAt(k) == old(CellAt(k))
      ensures var key := KeyMaterial(scope, requestId);
              if !ValidRequestId(requestId) then
                r == Refused(ValueError) && CellAt(key) == old(CellAt(key))
              else if old(CellAt(key)).Claimed? && Entitles(old(CellAt(key)), fingerprint, claim) then
                r == Ok && Path(old(CellAt(key)), [Drop(claim.owner.value, claim.generation)], CellAt(key))
              else
                r == Refused(StateError) && CellAt(key) == old(CellAt(key))
    {
      if !ValidRequestId(requestId) {
        return Refused(ValueError);
      }
      var key := KeyMaterial(scope, requestId);
      var owned := false;
      if key in records {
        owned := records[key].OwnedBy(fingerprint, claim, InClaim);
      }
      if !owned {
        return Refused(StateError);
      }
      records := records - {key};
      r := Ok;
    }
  }
}
