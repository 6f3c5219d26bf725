/** The production store: five Lua scripts over one Redis hash per key.

    A script runs alone inside the server, so each is one atomic step; `now` is the server
    TIME it reads. HSET keeps a key's expiry, PEXPIRE sets it, PERSIST clears it, DEL drops
    both. The server may remove a key at any reading from its expiry on (`ExpireKey`).
 */
module RedisIdempotencyStore {
  import opened IdempotencyCell
  import opened IdempotencyContract

  datatype Phase = PhaseClaimed | PhaseStarted | PhaseCompleted | PhaseAmbiguous

  datatype Hash = Hash(fingerprint: string, state: Phase, owner: string, generation: nat, leaseUntil: int,
                       result: Option<string>)

  /** The status word of a script reply; `SaysUnknown` is any word no script sends. */
  datatype Status =
    | SaysAcquired | SaysInProgress | SaysCompleted | SaysAmbiguous
    | SaysConflict | SaysMissing | SaysInvalid | SaysOk | SaysLost | SaysUnknown

  datatype Raw = Raw(status: Status, generation: nat, result: string)

  class Server {
    var hashes: map<string, Hash>
    var expiries: map<string, int>

    constructor ()
      ensures Valid() && forall key :: CellAt(key) == Absent
    {
      hashes, expiries := map[], map[];
    }

    /** PERSIST is what keeps started and ambiguous records from expiring, and the doubled
        lease is what keeps a claimed key at least as long as its lease. */
    ghost predicate ValidKey(key: string)
      reads this
      requires key in hashes
    {
      var h := hashes[key];
      && (h.state == PhaseClaimed ==> key in expiries && h.leaseUntil <= expiries[key])
      && (h.state == PhaseStarted || h.state == PhaseAmbiguous ==> key !in expiries)
      && (h.state == PhaseCompleted ==> key in expiries && h.result.Some?)
    }

    ghost predicate Valid()
      reads this
    {
      && expiries.Keys <= hashes.Keys
      && forall key :: key in hashes ==> ValidKey(key)
    }

    ghost function CellAt(key: string): Cell
      reads this
      requires Valid()
    {
      if key !in hashes then Absent else
      var h := hashes[key];
      if h.state == PhaseClaimed then Claimed(h.fingerprint, h.owner, h.generation, h.leaseUntil)
      else if h.state == PhaseStarted then Started(h.fingerprint, h.owner, h.generation, h.leaseUntil)
      else if h.state == PhaseCompleted then Completed(h.fingerprint, h.generation, h.result.value, expiries[key])
      else Ambiguous(h.fingerprint, h.generation)
    }

    // -------------------------------------------------------------------------
    // Redis commands
    // -------------------------------------------------------------------------

    method Hset(key: string, h: Hash)
      modifies this`hashes
      ensures hashes == old(hashes)[key := h]
    {
      hashes := hashes[key := h];
    }

    /** A time to live that is not positive deletes the key. */
    method Pexpire(key: string, now: int, milliseconds: int)
      modifies this
      ensures milliseconds > 0 ==> hashes == old(hashes) && expiries == old(expiries)[key := now + milliseconds]
      ensures milliseconds <= 0 ==> hashes == old(hashes) - {key} && expiries == old(expiries) - {key}
    {
      if milliseconds > 0 {
        expiries := expiries[key := now + milliseconds];
      } else {
        hashes, expiries := hashes - {key}, expiries - {key};
      }
    }

    method Persist(key: string)
      modifies this`expiries
      ensures expiries == old(expiries) - {key}
    {
      expiries := expiries - {key};
    }

    method Del(key: string)
      modifies this
      ensures hashes == old(hashes) - {key} && expiries == old(expiries) - {key}
    {
      hashes, expiries := hashes - {key}, expiries - {key};
    }

    /** Expiry by the server itself only ever removes outlived claims and results. */
    method ExpireKey(key: string, now: int)
      requires Valid() && key in expiries && expiries[key] <= now
      modifies this
      ensures Valid()
      ensures Path(old(CellAt(key)), [Vanish(now)], CellAt(key))
      ensures forall k :: k != key ==> CellAt(k) == old(CellAt(k))
    {
      Del(key);
    }

    // -------------------------------------------------------------------------
    // Scripts
    // -------------------------------------------------------------------------

    /** Stores a claimed hash for twice its lease. With a lease that is not positive it is gone
        at once. */
    method Grant(key: string, h: Hash, lease: int, now: int)
      requires Valid() && h.state == PhaseClaimed && h.leaseUntil == now + lease
      modifies this
      ensures Valid()
      ensures forall k :: k != key ==> CellAt(k) == old(CellAt(k))
      ensures Path(Claimed(h.fingerprint, h.owner, h.generation, h.leaseUntil), TtlLabels(lease, now), CellAt(key))
    {
      Hset(key, h);
      Pexpire(key, now, lease * 2);
    }

    /** Completes a started record for `ttl`. */
    method StoreResult(key: string, result: string, ttl: int, now: int)
      requires Valid() && CellAt(key).Started?
      modifies this
      ensures Valid()
      ensures forall k :: k != key ==> CellAt(k) == old(CellAt(k))
      ensures var before := old(CellAt(key));
              Path(Completed(before.fingerprint, before.generation, result, now + ttl), TtlLabels(ttl, now),
                   CellAt(key))
    {
      Hset(key, hashes[key].(state := PhaseCompleted, owner := "", leaseUntil := 0, result := Some(result)));
      Pexpire(key, now, ttl);
    }

    /** Puts a started record in doubt, for good. */
    method MakeAmbiguous(key: string, now: int)
      requires Valid() && key in hashes && hashes[key].state == PhaseStarted && hashes[key].leaseUntil <= now
      modifies this
      ensures Valid()
      ensures forall k :: k != key ==> CellAt(k) == old(CellAt(k))
      ensures Path(old(CellAt(key)), [Doubt(now)], CellAt(key)) && !CellAt(key).Absent?
    {
      Hset(key, hashes[key].(state := PhaseAmbiguous, owner := "", leaseUntil := 0));
      Persist(key);
    }

    method ClaimScript(key: string, fingerprint: string, owner: string, lease: int, now: int)
      returns (raw: Raw, ghost ls: seq<Label>)
      requires Valid()
      modifies this
      ensures Valid()
      ensures forall k :: k != key ==> CellAt(k) == old(CellAt(k))
      ensures ls == ScriptLabels(old(CellAt(key)), fingerprint, owner, now, lease)
      ensures Path(old(CellAt(key)), ls, CellAt(key))
      ensures var before := old(CellAt(key));
              var claimed := AfterClaimLabels(before, fingerprint, owner, now, lease);
              raw == if Conflicts(before, fingerprint) then Raw(SaysConflict, 0, "")
                     else if ls != [] && ls[0].Take? then Raw(SaysAcquired, claimed.generation, "")
                     else RawDecision(claimed)
    {
      if key !in hashes {
        Grant(key, Hash(fingerprint, PhaseClaimed, owner, 1, now + lease, None), lease, now);
        return Raw(SaysAcquired, 1, ""), [Take(fingerprint, owner, now, lease)] + TtlLabels(lease, now);
      }
      var h := hashes[key];
      if h.fingerprint != fingerprint {
        return Raw(SaysConflict, 0, ""), [];
      }
      if h.state == PhaseCompleted {
        return Raw(SaysCompleted, h.generation, if h.result.Some? then h.result.value else ""), [];
      }
      if h.state == PhaseAmbiguous {
        return Raw(SaysAmbiguous, h.generation, ""), [];
      }
      if now < h.leaseUntil {
        return Raw(SaysInProgress, h.generation, ""), [];
      }
      if h.state == PhaseStarted {
        MakeAmbiguous(key, now);
        return Raw(SaysAmbiguous, h.generation, ""), [Doubt(now)];
      }
      Grant(key, h.(owner := owner, generation := h.generation + 1, leaseUntil := now + lease), lease, now);
      return Raw(SaysAcquired, h.generation + 1, ""), [Take(fingerprint, owner, now, lease)] + TtlLabels(lease, now);
    }

    /** Unlike the in-process store, reading puts an outlived start in doubt. */
    method ReadScript(key: string, fingerprint: string, now: int) returns (raw: Raw, ghost ls: seq<Label>)
      requires Valid()
      modifies this
      ensures Valid()
      ensures forall k :: k != key ==> CellAt(k) == old(CellAt(k))
      ensures ls == DoubtLabels(old(CellAt(key)), fingerprint, now)
      ensures Path(old(CellAt(key)), ls, CellAt(key))
      ensures !old(CellAt(key)).Absent? ==> !CellAt(key).Absent?
      ensures raw ==
              if old(CellAt(key)).Absent? then Raw(SaysMissing, 0, "")
              else if old(CellAt(key)).fingerprint != fingerprint then Raw(SaysConflict, 0, "")
              else RawDecision(CellAt(key))
    {
      if key !in hashes {
        return Raw(SaysMissing, 0, ""), [];
      }
      var h := hashes[key];
      if h.fingerprint != fingerprint {
        return Raw(SaysConflict, 0, ""), [];
      }
      if h.state == PhaseCompleted {
        return Raw(SaysCompleted, h.generation, if h.result.Some? then h.result.value else ""), [];
      }
      if h.state == PhaseAmbiguous {
        return Raw(SaysAmbiguous, h.generation, ""), [];
      }
      if h.state == PhaseStarted && now >= h.leaseUntil {
        MakeAmbiguous(key, now);
        return Raw(SaysAmbiguous, h.generation, ""), [Doubt(now)];
      }
      return Raw(SaysInProgress, h.generation, ""), [];
    }

    method StartScript(key: string, fingerprint: string, owner: string, generation: nat, lease: int, now: int)
      returns (raw: Raw)
      requires Valid()
      modifies this
      ensures Valid()
      ensures forall k :: k != key ==> CellAt(k) == old(CellAt(k))
      ensures if old(CellAt(key)).Claimed? && old(CellAt(key)).fingerprint == fingerprint
                 && Holds(old(CellAt(key)), owner, generation) then
                raw == Raw(SaysOk, generation, "")
                && Path(old(CellAt(key)), [Start(owner, generation, now, lease)], CellAt(key))
              else raw == Raw(SaysLost, 0, "") && CellAt(key) == old(CellAt(key))
    {
      if key !in hashes || hashes[key].fingerprint != fingerprint || hashes[key].state != PhaseClaimed
         || hashes[key].owner != owner || hashes[key].generation != generation {
        return Raw(SaysLost, 0, "");
      }
      Hset(key, hashes[key].(state := PhaseStarted, leaseUntil := now + lease));
      Persist(key);
      return Raw(SaysOk, generation, "");
    }

    method CompleteScript(key: string, fingerprint: string, owner: string, generation: nat, result: string, ttl: int,
                          now: int)
      returns (raw: Raw)
      requires Valid()
      modifies this
      ensures Valid()
      ensures forall k :: k != key ==> CellAt(k) == old(CellAt(k))
      ensures if old(CellAt(key)).Started? && old(CellAt(key)).fingerprint == fingerprint
                 && Holds(old(CellAt(key)), owner, generation) then
                raw == Raw(SaysOk, generation, "")
                && Path(old(CellAt(key)), [Finish(owner, generation, result, now, ttl)] + TtlLabels(ttl, now),
                        CellAt(key))
              else raw == Raw(SaysLost, 0, "") && CellAt(key) == old(CellAt(key))
    {
      if key !in hashes || hashes[key].fingerprint != fingerprint || hashes[key].state != PhaseStarted
         || hashes[key].owner != owner || hashes[key].generation != generation {
        return Raw(SaysLost, 0, "");
      }
      StoreResult(key, result, ttl, now);
      return Raw(SaysOk, generation, "");
    }

    method ReleaseScript(key: string, fingerprint: string, owner: string, generation: nat) returns (raw: Raw)
      requires Valid()
      modifies this
      ensures Valid()
      ensures forall k :: k != key ==> CellAt(k) == old(CellAt(k))
      ensures if old(CellAt(key)).Claimed? && old(CellAt(key)).fingerprint == fingerprint
                 && Holds(old(CellAt(key)), owner, generation) then
                raw == Raw(SaysOk, generation, "") && Path(old(CellAt(key)), [Drop(owner, generation)], CellAt(key))
              else raw == Raw(SaysLost, 0, "") && CellAt(key) == old(CellAt(key))
    {
      if key !in hashes || hashes[key].fingerprint != fingerprint || hashes[key].state != PhaseClaimed
         || hashes[key].owner != owner || hashes[key].generation != generation {
        return Raw(SaysLost, 0, "");
      }
      Del(key);
      return Raw(SaysOk, generation, "");
    }
  }

  // ---------------------------------------------------------------------------
  // The adapter's decoding of script replies
  // ---------------------------------------------------------------------------

  /** The claim script takes, doubts or leaves the record as the abstract machine does; with a
      lease that is not positive, what it took is gone at once. */
  function ScriptLabels(c: Cell, fingerprint: string, owner: string, now: int, lease: int): seq<Label> {
    var ls := ClaimLabels(c, fingerprint, owner, now, lease);
    if ls != [] && ls[0].Take? then ls + TtlLabels(lease, now) else ls
  }

  /** What the scripts say about a record they did not grant. */
  function RawDecision(c: Cell): Raw
    requires !c.Absent?
  {
    match c
    case Claimed(_, _, generation, _) => Raw(SaysInProgress, generation, "")
    case Started(_, _, generation, _) => Raw(SaysInProgress, generation, "")
    case Completed(_, generation, result, _) => Raw(SaysCompleted, generation, result)
    case Ambiguous(_, generation) => Raw(SaysAmbiguous, generation, "")
  }

  function Decode(raw: Raw): Reply {
    if raw.status == SaysConflict then Raised(Conflict)
    else if raw.status == SaysMissing || raw.status == SaysInvalid || raw.status == SaysLost then Raised(StateError)
    else
      var result := if raw.result == "" then None else Some(raw.result);
      if raw.status == SaysAcquired then Granted(ClaimOf(Acquired, None, raw.generation, result))
      else if raw.status == SaysInProgress then Granted(ClaimOf(InProgress, None, raw.generation, result))
      else if raw.status == SaysAmbiguous then Granted(ClaimOf(InDoubt, None, raw.generation, result))
      else if raw.status != SaysCompleted || raw.result == "" then Raised(BackendError)
      else Granted(ClaimOf(AlreadyCompleted, None, raw.generation, result))
  }

  /** The owner token is put back by the adapter: scripts do not echo it. */
  function WithOwner(r: Reply, owner: string): Reply {
    if r.Granted? && r.claim.status.Acquired? then Granted(r.claim.(owner := Some(owner))) else r
  }

  /** The claim carries a token to act with. */
  predicate Bears(claim: Claim) {
    claim.status.Acquired? && claim.owner.Some? && claim.owner.value != ""
  }

  /** Decoding loses nothing: the adapter reports exactly the abstract decision, except that
      a completed record with an empty result is refused as a backend fault. */
  lemma DecodedDecision(c: Cell)
    requires !c.Absent?
    ensures Decode(RawDecision(c)) == Granted(Decision(c)) <==> !(c.Completed? && c.result == "")
    ensures c.Completed? && c.result == "" ==> Decode(RawDecision(c)) == Raised(BackendError)
  {
  }

  class Store {
    const server: Server

    constructor (server: Server)
      ensures this.server == server
    {
      this.server := server;
    }

    method Claim(scope: Scope, requestId: string, fingerprint: string, ownerToken: string, leaseMs: int, now: int)
      returns (r: Reply, ghost ls: seq<Label>)
      requires server.Valid()
      modifies server
      ensures server.Valid()
      ensures var key := KeyMaterial(scope, requestId);
              forall k :: k != key ==> server.CellAt(k) == old(server.CellAt(k))
      ensures var key := KeyMaterial(scope, requestId);
              if !ValidRequestId(requestId) then
                r == Raised(ValueError) && ls == [] && server.CellAt(key) == old(server.CellAt(key))
              else
                var before := old(server.CellAt(key));
                var claimed := AfterClaimLabels(before, fingerprint, ownerToken, now, leaseMs);
                && ls == ScriptLabels(before, fingerprint, ownerToken, now, leaseMs)
                && Path(before, ls, server.CellAt(key))
                && if before.Completed? && before.fingerprint == fingerprint && before.result == ""
                   then r == Raised(BackendError)
                   else ClaimAnswer(before, ClaimLabels(before, fingerprint, ownerToken, now, leaseMs), claimed,
                                    fingerprint, ownerToken, r)
    {
      if !ValidRequestId(requestId) {
        return Raised(ValueError), [];
      }
      var raw;
      raw, ls := server.ClaimScript(KeyMaterial(scope, requestId), fingerprint, ownerToken, leaseMs, now);
      r := WithOwner(Decode(raw), ownerToken);
    }

    method Read(scope: Scope, requestId: string, fingerprint: string, now: int) returns (r: Reply, ghost ls: seq<Label>)
      requires server.Valid()
      modifies server
      ensures server.Valid()
      ensures var key := KeyMaterial(scope, requestId);
              forall k :: k != key ==> server.CellAt(k) == old(server.CellAt(k))
      ensures var key := KeyMaterial(scope, requestId);
              if !ValidRequestId(requestId) then
                r == Raised(ValueError) && ls == [] && server.CellAt(key) == old(server.CellAt(key))
              else
                var after := server.CellAt(key);
                && ls == DoubtLabels(old(server.CellAt(key)), fingerprint, now)
                && Path(old(server.CellAt(key)), ls, after)
                && r == if after.Absent? then Raised(StateError)
                        else if after.fingerprint != fingerprint then Raised(Conflict)
                        else if after.Completed? && after.result == "" then Raised(BackendError)
                        else Granted(Decision(after))
    {
      if !ValidRequestId(requestId) {
        return Raised(ValueError), [];
      }
      var raw;
      raw, ls := server.ReadScript(KeyMaterial(scope, requestId), fingerprint, now);
      r := Decode(raw);
    }

    method MarkStarted(scope: Scope, requestId: string, fingerprint: string, claim: Claim, leaseMs: int, now: int)
      returns (r: Ack)
      requires server.Valid()
      modifies server
      ensures server.Valid()
      ensures forall k :: k != KeyMaterial(scope, requestId) ==> server.CellAt(k) == old(server.CellAt(k))
      ensures var key := KeyMaterial(scope, requestId);
              var before, after := old(server.CellAt(key)), server.CellAt(key);
              if !Bears(claim) then r == Refused(StateError) && after == before
              else if !ValidRequestId(requestId) then r == Refused(ValueError) && after == before
              else if before.Claimed? && Entitles(before, fingerprint, claim) then
                r == Ok && Path(before, [Start(claim.owner.value, claim.generation, now, leaseMs)], after)
              else r == Refused(StateError) && after == before
    {
      if !Bears(claim) {
        return Refused(StateError);
      }
      if !ValidRequestId(requestId) {
        return Refused(ValueError);
      }
      var raw := server.StartScript(KeyMaterial(scope, requestId), fingerprint, claim.owner.value, claim.generation,
                                    leaseMs, now);
      r := if raw.status == SaysOk then Ok else Refused(StateError);
    }

    /** `resultBytes` is the length of the UTF-8 encoding of the result. */
    method Complete(scope: Scope, requestId: string, fingerprint: string, claim: Claim, resultJson: string,
                    resultBytes: nat, completedTtlMs: int, now: int)
      returns (r: Ack)
      requires server.Valid()
      modifies server
      ensures server.Valid()
      ensures forall k :: k != KeyMaterial(scope, requestId) ==> server.CellAt(k) == old(server.CellAt(k))
      ensures var key := KeyMaterial(scope, requestId);
              var before, after := old(server.CellAt(key)), server.CellAt(key);
              if resultBytes > MAX_RESULT_BYTES then r == Refused(ValueError) && after == before
              else if !Bears(claim) then r == Refused(StateError) && after == before
              else if !ValidRequestId(requestId) then r == Refused(ValueError) && after == before
              else if before.Started? && Entitles(before, fingerprint, claim) then
                && r == Ok
                && Path(before, [Finish(claim.owner.value, claim.generation, resultJson, now, completedTtlMs)]
                                + TtlLabels(completedTtlMs, now), after)
              else r == Refused(StateError) && after == before
    {
      if resultBytes > MAX_RESULT_BYTES {
        return Refused(ValueError);
      }
      if !Bears(claim) {
        return Refused(StateError);
      }
      if !ValidRequestId(requestId) {
        return Refused(ValueError);
      }
      var raw := server.CompleteScript(KeyMaterial(scope, requestId), fingerprint, claim.owner.value, claim.generation,
                                       resultJson, completedTtlMs, now);
      r := if raw.status == SaysOk then Ok else Refused(StateError);
    }

    method ReleaseUnstarted(scope: Scope, requestId: string, fingerprint: string, claim: Claim) returns (r: Ack)
      requires server.Valid()
      modifies server
      ensures server.Valid()
      ensures forall k :: k != KeyMaterial(scope, requestId) ==> server.CellAt(k) == old(server.CellAt(k))
      ensures var key := KeyMaterial(scope, requestId);
              var before, after := old(server.CellAt(key)), server.CellAt(key);
              if !Bears(claim) then r == Refused(StateError) && after == before
              else if !ValidRequestId(requestId) then r == Refused(ValueError) && after == before
              else if before.Claimed? && Entitles(before, fingerprint, claim) then
                r == Ok && Path(before, [Drop(claim.owner.value, claim.generation)], after)
              else r == Refused(StateError) && after == before
    {
      if !Bears(claim) {
        return Refused(StateError);
      }
      if !ValidRequestId(requestId) {
        return Refused(ValueError);
      }
      var raw := server.ReleaseScript(KeyMaterial(scope, requestId), fingerprint, claim.owner.value, claim.generation);
      r := if raw.status == SaysOk then Ok else Refused(StateError);
    }
  }
}
