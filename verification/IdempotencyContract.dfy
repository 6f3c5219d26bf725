/** The vocabulary shared by both idempotency stores and by the Coordinator. */
module IdempotencyContract {
  import opened IdempotencyCell

  datatype Option<T> = None | Some(value: T)

  datatype ClaimStatus = Acquired | InProgress | AlreadyCompleted | InDoubt

  datatype Claim = ClaimOf(status: ClaimStatus, owner: Option<string>, generation: nat, result: Option<string>)

  datatype StoreError = ValueError | Conflict | StateError | BackendError

  datatype Reply = Granted(claim: Claim) | Raised(error: StoreError)

  datatype Ack = Ok | Refused(error: StoreError)

  const MAX_RESULT_BYTES: nat := 32_768
  const MIN_DURATION_MS: int := 1_000
  const MAX_DURATION_MS: int := 30 * 24 * 60 * 60 * 1_000

  predicate ValidDuration(value: int) {
    MIN_DURATION_MS <= value <= MAX_DURATION_MS
  }

  predicate ValidFingerprint(fingerprint: string) {
    |fingerprint| == 64 && forall i :: 0 <= i < 64 ==> 'a' <= fingerprint[i] <= 'f' || '0' <= fingerprint[i] <= '9'
  }

  predicate ValidOwnerToken(owner: string) {
    1 <= |owner| <= 128
  }

  const HEX_DIGITS := "0123456789abcdef"

  lemma HexDigits(c: char)
    ensures ('a' <= c <= 'f' || '0' <= c <= '9') <==> c in HEX_DIGITS
  {
    if '0' <= c <= '9' {
      assert c == HEX_DIGITS[c as int - '0' as int];
    } else if 'a' <= c <= 'f' {
      assert c == HEX_DIGITS[c as int - 'a' as int + 10];
    }
  }

  /** The stores accept durations from one second to thirty days, digests of 64 hexadecimal digits, and
      tokens and request ids of 1 to 128 characters. */
  lemma AcceptedInputs(value: int, text: string)
    ensures ValidDuration(value) <==> 1_000 <= value <= 2_592_000_000
    ensures ValidOwnerToken(text) <==> text != "" && |text| <= 128
    ensures ValidRequestId(text) <==> text != "" && |text| <= 128
    ensures ValidFingerprint(text) <==> |text| == 64 && forall i :: 0 <= i < |text| ==> text[i] in HEX_DIGITS
  {
    hide HEX_DIGITS;
    forall i | 0 <= i < |text|
      ensures ('a' <= text[i] <= 'f' || '0' <= text[i] <= '9') <==> text[i] in HEX_DIGITS
    {
      HexDigits(text[i]);
    }
  }

  /** What a non-owner is told about an existing record. */
  function Decision(c: Cell): Claim
    requires !c.Absent?
  {
    match c
    case Claimed(_, _, generation, _) => ClaimOf(InProgress, None, generation, None)
    case Started(_, _, generation, _) => ClaimOf(InProgress, None, generation, None)
    case Completed(_, generation, result, _) => ClaimOf(AlreadyCompleted, None, generation, Some(result))
    case Ambiguous(_, generation) => ClaimOf(InDoubt, None, generation, None)
  }

  predicate Conflicts(c: Cell, fingerprint: string) {
    !c.Absent? && c.fingerprint != fingerprint
  }

  /** The answer to a claim that moved the cell from `before` to `after` along `ls`. */
  function ClaimReply(before: Cell, ls: seq<Label>, after: Cell, fingerprint: string, owner: string): Reply
    requires Conflicts(before, fingerprint) || !after.Absent?
  {
    if Conflicts(before, fingerprint) then Raised(Conflict)
    else if |ls| == 1 && ls[0].Take? then Granted(ClaimOf(Acquired, Some(owner), after.generation, None))
    else Granted(Decision(after))
  }

  predicate ClaimAnswer(before: Cell, ls: seq<Label>, after: Cell, fingerprint: string, owner: string, r: Reply) {
    && (Conflicts(before, fingerprint) || !after.Absent?)
    && r == ClaimReply(before, ls, after, fingerprint, owner)
  }

  /** A claim value that entitles its bearer to move a record in the phase he names. */
  predicate Entitles(c: Cell, fingerprint: string, claim: Claim) {
    && claim.status.Acquired? && claim.owner.Some?
    && (c.Claimed? || c.Started?) && c.fingerprint == fingerprint
    && Holds(c, claim.owner.value, claim.generation)
  }

  // ---------------------------------------------------------------------------
  // Keys
  // ---------------------------------------------------------------------------

  datatype Scope = Scope(tenant: string, principal: string)

  const NUL: char := '\0'

  predicate ScopeChar(c: char) {
    'A' <= c <= 'Z' || 'a' <= c <= 'z' || '0' <= c <= '9' || c in "_.:/-"
  }

  predicate ScopePart(s: string) {
    && 1 <= |s| <= 255
    && ScopeChar(s[0]) && s[0] !in "_.:/-"
    && (forall i :: 0 <= i < |s| ==> ScopeChar(s[i]))
    && (forall i :: 0 <= i < |s| - 1 ==> !(s[i] == '.' && s[i + 1] == '.'))
  }

  /** A part of a scope starts with a letter or digit and never holds two dots in a row. */
  lemma AcceptedScopeParts(s: string)
    requires ScopePart(s)
    ensures 1 <= |s| <= 255 && s[0] !in "_.:/-" && NUL !in s
    ensures forall i, j :: 0 <= i < j < |s| && s[i] == '.' && s[j] == '.' ==> j != i + 1
  {
  }

  /** The bytes hashed into a record key; the digest itself is taken as injective. */
  function KeyMaterial(scope: Scope, requestId: string): string {
    "ewallet-idempotency-v1" + [NUL] + scope.tenant + [NUL] + scope.principal + [NUL] + requestId
  }

  predicate ValidRequestId(requestId: string) {
    1 <= |requestId| <= 128
  }

  /** The bytes hashed into the authority id of one wallet user's request. */
  function AuthorityMaterial(userId: string, requestId: string): string {
    "ewallet-business-subject-v1" + [NUL] + userId + [NUL] + requestId
  }

  predicate NulFree(s: string) {
    NUL !in s
  }

  /** A NUL-free field is recovered from its NUL-terminated encoding. */
  lemma {:induction false} FieldIsRecovered(a: string, b: string, x: string, y: string)
    requires NulFree(a) && NulFree(b) && a + [NUL] + x == b + [NUL] + y
    ensures a == b && x == y
  {
    var s, t := a + [NUL] + x, b + [NUL] + y;
    if a == [] || b == [] {
      assert s[0] == t[0];
      assert s[1..] == x || a != [];
      assert t[1..] == y || b != [];
    } else {
      assert s[0] == a[0] && t[0] == b[0];
      assert s[1..] == a[1..] + [NUL] + x && t[1..] == b[1..] + [NUL] + y;
      FieldIsRecovered(a[1..], b[1..], x, y);
      assert a == [a[0]] + a[1..] && b == [b[0]] + b[1..];
    }
  }

  /** Distinct (tenant, principal, request id) triples never share a record key. */
  lemma ScopedKeysAreInjective(s: Scope, r: string, s': Scope, r': string)
    requires ScopePart(s.tenant) && ScopePart(s.principal) && ScopePart(s'.tenant) && ScopePart(s'.principal)
    requires KeyMaterial(s, r) == KeyMaterial(s', r')
    ensures s == s' && r == r'
  {
    var tag := "ewallet-idempotency-v1" + [NUL];
    var x, x' := s.tenant + [NUL] + (s.principal + [NUL] + r), s'.tenant + [NUL] + (s'.principal + [NUL] + r');
    assert KeyMaterial(s, r) == tag + x && KeyMaterial(s', r') == tag + x';
    assert (tag + x)[|tag|..] == x && (tag + x')[|tag|..] == x';
    FieldIsRecovered(s.tenant, s'.tenant, s.principal + [NUL] + r, s'.principal + [NUL] + r');
    FieldIsRecovered(s.principal, s'.principal, r, r');
  }

  /** Identical request ids of different users are always separated, whatever the ids contain. */
  lemma EqualRequestIdsSeparateUsers(u: string, u': string, r: string)
    requires AuthorityMaterial(u, r) == AuthorityMaterial(u', r)
    ensures u == u'
  {
    MaterialsArePairs(u, r, u', r);
    assert |Pair(u, r)| == |Pair(u', r)|;
    assert u == Pair(u, r)[..|u|] && u' == Pair(u', r)[..|u'|];
  }

  function Pair(u: string, r: string): string {
    u + [NUL] + r
  }

  /** The constant prefix does not matter: materials are equal exactly if the pairs are. */
  lemma MaterialsArePairs(u: string, r: string, u': string, r': string)
    ensures AuthorityMaterial(u, r) == AuthorityMaterial(u', r') <==> Pair(u, r) == Pair(u', r')
  {
    var tag := "ewallet-business-subject-v1" + [NUL];
    assert AuthorityMaterial(u, r) == tag + Pair(u, r) && AuthorityMaterial(u', r') == tag + Pair(u', r');
    assert (tag + Pair(u, r))[|tag|..] == Pair(u, r) && (tag + Pair(u', r'))[|tag|..] == Pair(u', r');
  }

  /** A validated user or request id: stripped of white space, of 1 to 128 characters. */
  predicate AcceptedId(id: string, space: char -> bool) {
    1 <= |id| <= 128 && !space(id[0]) && !space(id[|id| - 1])
  }

  /** The text of the pair has another NUL at this place, between two validated ids. */
  predicate CutAt(u: string, r: string, i: int, space: char -> bool) {
    var text := Pair(u, r);
    && 1 <= i <= 128 && 1 <= |u| + |r| - i <= 128 && i != |u| && text[i] == NUL
    && !space(text[i - 1]) && !space(text[i + 1])
  }

  predicate CutsElsewhere(u: string, r: string, space: char -> bool) {
    exists i :: 0 <= i < |u| + |r| && CutAt(u, r, i, space)
  }

  /** Another validated request with the authority id of this one. */
  predicate Shares(u: string, r: string, u': string, r': string, space: char -> bool) {
    && AcceptedId(u', space) && AcceptedId(r', space) && (u' != u || r' != r)
    && AuthorityMaterial(u', r') == AuthorityMaterial(u, r)
  }

  /** Over validated requests: the authority id of a request is that of another one exactly if
      its text can be cut elsewhere. */
  lemma AuthorityIdIsSharedExactly(u: string, r: string, space: char -> bool)
    requires AcceptedId(u, space) && AcceptedId(r, space)
    ensures (exists u', r' :: Shares(u, r, u', r', space)) <==> CutsElsewhere(u, r, space)
  {
    forall u', r' | Shares(u, r, u', r', space) ensures CutsElsewhere(u, r, space) {
      MaterialsArePairs(u, r, u', r');
      SharingCuts(u, r, u', r', space);
    }
    if i :| 0 <= i < |u| + |r| && CutAt(u, r, i, space) {
      CuttingShares(u, r, i, space);
    }
  }

  lemma SharingCuts(u: string, r: string, u': string, r': string, space: char -> bool)
    requires AcceptedId(u', space) && AcceptedId(r', space) && (u' != u || r' != r) && Pair(u', r') == Pair(u, r)
    ensures |u'| < |u| + |r| && CutAt(u, r, |u'|, space)
  {
    var i := |u'|;
    CharactersOfPair(u', r');
    assert |u'| + |r'| == |u| + |r|;
    if i == |u| {
      PairDetermines(u, r, u', r');
    }
  }

  lemma CharactersOfPair(u: string, r: string)
    ensures var text := Pair(u, r);
            && text[|u|] == NUL && (u != "" ==> text[|u| - 1] == u[|u| - 1]) && (r != "" ==> text[|u| + 1] == r[0])
  {
  }

  lemma PairDetermines(u: string, r: string, u': string, r': string)
    requires Pair(u, r) == Pair(u', r') && |u| == |u'|
    ensures u == u' && r == r'
  {
    assert u == Pair(u, r)[..|u|] && u' == Pair(u', r')[..|u'|];
    assert r == Pair(u, r)[|u| + 1..] && r' == Pair(u', r')[|u'| + 1..];
  }

  lemma CuttingShares(u: string, r: string, i: nat, space: char -> bool)
    requires AcceptedId(u, space) && AcceptedId(r, space) && CutAt(u, r, i, space)
    ensures Shares(u, r, Pair(u, r)[..i], Pair(u, r)[i + 1..], space)
  {
    var u', r' := Pair(u, r)[..i], Pair(u, r)[i + 1..];
    assert Pair(u', r') == Pair(u, r);
    MaterialsArePairs(u, r, u', r');
    CutIsAccepted(u, r, i, space);
  }

  lemma CutIsAccepted(u: string, r: string, i: nat, space: char -> bool)
    requires AcceptedId(u, space) && AcceptedId(r, space)
    requires 1 <= i <= 128 && 1 <= |u| + |r| - i <= 128
    requires !space(Pair(u, r)[i - 1]) && !space(Pair(u, r)[i + 1])
    ensures AcceptedId(Pair(u, r)[..i], space) && AcceptedId(Pair(u, r)[i + 1..], space)
  {
    var text := Pair(u, r);
    assert text[0] == u[0] && text[|text| - 1] == r[|r| - 1];
  }

  /** In particular ids without a NUL never share an authority id with anything. */
  lemma NulFreeRequestsShareNothing(u: string, r: string, space: char -> bool)
    requires AcceptedId(u, space) && AcceptedId(r, space) && NulFree(u) && NulFree(r)
    ensures !exists u', r' :: Shares(u, r, u', r', space)
  {
    AuthorityIdIsSharedExactly(u, r, space);
    forall i | 0 <= i < |u| + |r| && i != |u| ensures Pair(u, r)[i] != NUL {
      assert Pair(u, r)[i] == if i < |u| then u[i] else r[i - |u| - 1];
    }
  }

  /** Two validated requests of different users with one authority id. */
  lemma TwoUsersShareAnAuthorityId(space: char -> bool)
    requires !space('a') && !space('b') && !space('c')
    ensures AcceptedId("a\0b", space) && AcceptedId("c", space)
    ensures Shares("a\0b", "c", "a", "b\0c", space)
  {
    MaterialsArePairs("a\0b", "c", "a", "b\0c");
    assert Pair("a\0b", "c") == Pair("a", "b\0c");
  }
}
