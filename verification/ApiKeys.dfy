/** Tenant API keys: creating, rotating and revoking them under an advancing clock. */
module ApiKeys {
  import opened Wrappers

  // An optional timestamp in milliseconds; Invalid when it does not parse.
  datatype Stamp = Absent | Invalid | At(ms: int)

  // SHA-256 as an injective function.
  datatype Hash = Sha256(token: string)

  datatype Role = Admin | Developer | Viewer

  datatype Key = Key(
    id: Option<string>,
    token: Option<string>,          // keys of old policies may carry the token itself
    tokenHash: Option<Hash>,
    actor: string,
    role: Role,
    modelKeyEnv: Option<string>,
    createdAt: Stamp,
    notBefore: Stamp,
    expiresAt: Stamp,
    rotatedFromId: Option<string>)

  predicate IsActive(key: Key, now: int) {
    && (key.notBefore.Absent? || (key.notBefore.At? && now >= key.notBefore.ms))
    && (key.expiresAt.Absent? || (key.expiresAt.At? && now < key.expiresAt.ms))
  }

  predicate Bears(key: Key, token: string) {
    token != "" && (key.token == Some(token) || key.tokenHash == Some(Sha256(token)))
  }

  predicate Matches(key: Key, token: string, now: int) {
    IsActive(key, now) && Bears(key, token)
  }

  predicate AnyMatches(keys: seq<Key>, token: string, now: int) {
    exists i :: 0 <= i < |keys| && Matches(keys[i], token, now)
  }

  // ---------- requests ----------

  datatype Error = BadRequest | NotFound | Conflict

  // The new key's fields as requested; generated values are passed in as such.
  datatype Request = Request(
    actor: string, role: Role, modelKeyEnv: Option<string>, token: string, expiresAt: Option<int>, newId: string)

  const MIN_TOKEN_LENGTH := 24
  const MAX_OVERLAP_SECONDS := 604_800

  function NewKey(r: Request, now: int, rotatedFromId: Option<string>): Result<Key, Error> {
    if |r.token| < MIN_TOKEN_LENGTH then Err(BadRequest)
    else if r.expiresAt.Some? && r.expiresAt.value <= now then Err(BadRequest)
    else Ok(Key(Some(r.newId), None, Some(Sha256(r.token)), r.actor, r.role, r.modelKeyEnv, At(now), Absent,
                if r.expiresAt.Some? then At(r.expiresAt.value) else Absent, rotatedFromId))
  }

  datatype Selector = ById(id: string) | ByActor(actor: string, role: Option<Role>)

  predicate Selects(s: Selector, key: Key) {
    match s
    case ById(id) => key.id == Some(id)
    case ByActor(actor, role) => key.actor == actor && (role == None || Some(key.role) == role)
  }

  /** Positions of the active keys that the selector picks. */
  function Candidates(keys: seq<Key>, s: Selector, now: int): (found: seq<nat>)
    ensures forall i :: i in found <==> 0 <= i < |keys| && IsActive(keys[i], now) && Selects(s, keys[i])
  {
    if keys == [] then []
    else
      var last := |keys| - 1;
      var before := Candidates(keys[..last], s, now);
      assert forall i :: 0 <= i < last ==> keys[..last][i] == keys[i];
      if IsActive(keys[last], now) && Selects(s, keys[last]) then before + [last] else before
  }

  function Min(a: int, b: int): int { if a <= b then a else b }

  function Expire(key: Key, id: string, at: int): Key {
    key.(id := Some(id), expiresAt := At(if key.expiresAt.At? then Min(at, key.expiresAt.ms) else at))
  }

  /** The clock as one request reads it; a handler reads it again for its later checks. */
  datatype Clock = Clock(first: int, second: int, third: int)

  predicate Runs(clock: Clock) { clock.first <= clock.second <= clock.third }

  class TenantPolicy {
    const configured: seq<Key>  // keys from the server configuration
    var keys: seq<Key>          // keys stored in the tenant's policy

    constructor (configured: seq<Key>, keys: seq<Key>)
      ensures this.configured == configured && this.keys == keys
    {
      this.configured, this.keys := configured, keys;
    }

    method Create(r: Request, clock: Clock) returns (created: Result<Key, Error>)
      modifies this
      ensures AfterCreate(configured, old(keys), r, clock) == (if created.Ok? then Ok(keys) else Err(created.error))
      ensures created.Ok? ==> keys == old(keys) + [created.value]
      ensures created.Err? ==> keys == old(keys)
    {
      var made := NewKey(r, clock.first, None);
      if made.Err? { return made; }
      if AnyMatches(configured + keys, r.token, clock.second) { return Err(BadRequest); }
      keys := keys + [made.value];
      return made;
    }

    /** `currentId` is generated for the old key in case it has none. */
    method Rotate(s: Selector, overlapSeconds: nat, r: Request, generatedId: string, clock: Clock)
      returns (rotated: Result<Key, Error>)
      modifies this
      ensures AfterRotate(configured, old(keys), s, overlapSeconds, r, generatedId, clock)
           == (if rotated.Ok? then Ok(keys) else Err(rotated.error))
      ensures rotated.Ok? ==> |keys| == |old(keys)| + 1 && keys[|old(keys)|] == rotated.value
      ensures rotated.Err? ==> keys == old(keys)
    {
      if overlapSeconds > MAX_OVERLAP_SECONDS { return Err(BadRequest); }
      var candidates := Candidates(keys, s, clock.first);
      if |candidates| == 0 { return Err(NotFound); }
      if |candidates| > 1 { return Err(Conflict); }
      assert candidates[0] in candidates;
      var at := candidates[0];
      var current := keys[at];
      var currentId := if current.id.Some? then current.id.value else generatedId;
      var now := clock.second;
      var expiring := Expire(current, currentId, now + overlapSeconds * 1000);
      var request := r.(actor := current.actor, role := current.role, modelKeyEnv := current.modelKeyEnv);
      var made := NewKey(request, now, Some(currentId));
      if made.Err? { return made; }
      if AnyMatches(configured + keys, r.token, clock.third) { return Err(BadRequest); }
      keys := keys[at := expiring] + [made.value];
      return made;
    }

    method Revoke(s: Selector) returns (revoked: nat)
      modifies this
      ensures keys == Without(old(keys), s)
      ensures revoked + |keys| == |old(keys)|
    {
      var kept := [];
      revoked := 0;
      for i := 0 to |keys|
        invariant keys == old(keys)
        invariant kept == Without(keys[..i], s) && revoked + |kept| == i
      {
        assert keys[..i + 1][..i] == keys[..i];
        if Selects(s, keys[i]) { revoked := revoked + 1; } else { kept := kept + [keys[i]]; }
      }
      assert keys[..|keys|] == keys;
      keys := kept;
    }
  }

  function AfterCreate(configured: seq<Key>, keys: seq<Key>, r: Request, clock: Clock): Result<seq<Key>, Error> {
    match NewKey(r, clock.first, None)
    case Err(e) => Err(e)
    case Ok(key) =>
      if AnyMatches(configured + keys, r.token, clock.second) then Err(BadRequest) else Ok(keys + [key])
  }

  function AfterRotate(
    configured: seq<Key>, keys: seq<Key>, s: Selector, overlapSeconds: nat, r: Request, generatedId: string, clock: Clock)
    : Result<seq<Key>, Error>
  {
    var candidates := Candidates(keys, s, clock.first);
    if overlapSeconds > MAX_OVERLAP_SECONDS then Err(BadRequest)
    else if |candidates| == 0 then Err(NotFound)
    else if |candidates| > 1 then Err(Conflict)
    else
      assert candidates[0] in candidates;
      var current := keys[candidates[0]];
      var currentId := if current.id.Some? then current.id.value else generatedId;
      match NewKey(r.(actor := current.actor, role := current.role, modelKeyEnv := current.modelKeyEnv),
                   clock.second, Some(currentId))
      case Err(e) => Err(e)
      case Ok(key) =>
        if AnyMatches(configured + keys, r.token, clock.third) then Err(BadRequest)
        else Ok(keys[candidates[0] := Expire(current, currentId, clock.second + overlapSeconds * 1000)] + [key])
  }

  function Without(keys: seq<Key>, s: Selector): seq<Key> {
    if keys == [] then []
    else
      var before, last := Without(keys[..|keys| - 1], s), keys[|keys| - 1];
      if Selects(s, last) then before else before + [last]
  }

  // ---------- what a request gets ----------

  /** This key works for exactly this token, from now on and until the expiry that was asked for. */
  ghost predicate WorksAsRequested(key: Key, r: Request) {
    && (forall t :: Matches(key, r.token, t) <==> r.expiresAt.None? || t < r.expiresAt.value)
    && (forall token, t :: token != r.token ==> !Matches(key, token, t))
  }

  /** A create is refused exactly when the token is too short, the expiry is not in the future, or the token
  already matches a key; otherwise the one key it appends is the one requested. */
  lemma CreateGivesWhatIsRequested(configured: seq<Key>, keys: seq<Key>, r: Request, clock: Clock)
    ensures var made := AfterCreate(configured, keys, r, clock);
            && (made.Ok? <==>
                  && |r.token| >= 24
                  && (r.expiresAt.Some? ==> r.expiresAt.value > clock.first)
                  && !AnyMatches(configured + keys, r.token, clock.second))
            && (made.Err? ==> made.error == BadRequest)
            && (made.Ok? ==>
                  && |made.value| == |keys| + 1 && made.value[..|keys|] == keys
                  && var key := made.value[|keys|];
                     && WorksAsRequested(key, r)
                     && key.id == Some(r.newId) && key.actor == r.actor && key.role == r.role
                     && key.modelKeyEnv == r.modelKeyEnv && key.rotatedFromId == None && key.createdAt == At(clock.first))
  {
    var made := AfterCreate(configured, keys, r, clock);
    if made.Ok? { assert r.token != "" && made.value[..|keys|] == keys; }
  }

  /** Key i is active and is the kind of key the selector is for. */
  predicate IsSelected(keys: seq<Key>, s: Selector, now: int, i: int) {
    0 <= i < |keys| && IsActive(keys[i], now) && Selects(s, keys[i])
  }

  ghost predicate NoneSelected(keys: seq<Key>, s: Selector, now: int) { forall i :: !IsSelected(keys, s, now, i) }

  ghost predicate SeveralSelected(keys: seq<Key>, s: Selector, now: int) {
    exists i, j :: i < j && IsSelected(keys, s, now, i) && IsSelected(keys, s, now, j)
  }

  ghost predicate Ascends(found: seq<nat>) { forall i, j :: 0 <= i < j < |found| ==> found[i] < found[j] }

  lemma {:induction false} CandidatesAscend(keys: seq<Key>, s: Selector, now: int)
    ensures Ascends(Candidates(keys, s, now))
  {
    if keys != [] {
      var last: nat := |keys| - 1;
      var before := Candidates(keys[..last], s, now);
      CandidatesAscend(keys[..last], s, now);
      forall i | 0 <= i < |before| ensures before[i] < last { assert before[i] in before; }
      assert Ascends(before + [last]);
    }
  }

  lemma CandidatesCount(keys: seq<Key>, s: Selector, now: int)
    ensures |Candidates(keys, s, now)| == 0 <==> NoneSelected(keys, s, now)
    ensures |Candidates(keys, s, now)| > 1 <==> SeveralSelected(keys, s, now)
  {
    var found := Candidates(keys, s, now);
    if |found| > 0 { assert found[0] in found && IsSelected(keys, s, now, found[0]); }
    CandidatesAscend(keys, s, now);
    if |found| > 1 {
      assert found[1] in found && IsSelected(keys, s, now, found[1]) && found[0] < found[1];
    }
    if SeveralSelected(keys, s, now) {
      var i, j :| i < j && IsSelected(keys, s, now, i) && IsSelected(keys, s, now, j);
      assert i in found && j in found;
    }
  }

  /** A rotate finds no key, or too many, exactly when no active key or more than one is selected; it is
  otherwise refused exactly for the overlap, the token or the expiry.  The successor works as requested. */
  lemma RotateGivesWhatIsRequested(
    configured: seq<Key>, keys: seq<Key>, s: Selector, overlapSeconds: nat, r: Request, generatedId: string,
    clock: Clock)
    ensures var made := AfterRotate(configured, keys, s, overlapSeconds, r, generatedId, clock);
            var fits := overlapSeconds <= 604_800;
            var none, several := NoneSelected(keys, s, clock.first), SeveralSelected(keys, s, clock.first);
            && (made == Err(NotFound) <==> fits && none)
            && (made == Err(Conflict) <==> fits && several)
            && (made.Ok? <==>
                  && fits && !none && !several
                  && |r.token| >= 24
                  && (r.expiresAt.Some? ==> r.expiresAt.value > clock.second)
                  && !AnyMatches(configured + keys, r.token, clock.third))
            && (made.Ok? ==>
                  && |made.value| == |keys| + 1
                  && WorksAsRequested(made.value[|keys|], r)
                  && made.value[|keys|].id == Some(r.newId) && made.value[|keys|].createdAt == At(clock.second))
  {
    CandidatesCount(keys, s, clock.first);
    hide Candidates, NoneSelected, SeveralSelected, AnyMatches;
    if AfterRotate(configured, keys, s, overlapSeconds, r, generatedId, clock).Ok? { assert r.token != ""; }
  }

  /** Which keys a revocation leaves. */
  lemma {:induction false} RevokeLeavesTheOthers(keys: seq<Key>, s: Selector)
    ensures forall key :: key in Without(keys, s) <==> key in keys && !Selects(s, key)
  {
    if keys != [] {
      var init, last := keys[..|keys| - 1], keys[|keys| - 1];
      assert keys == init + [last];
      RevokeLeavesTheOthers(init, s);
    }
  }

  /** A selector by id means that key, one by actor all keys of the actor, and one by actor and role those of
  them with that role. */
  lemma SelectorsMeanWhatTheySay(keys: seq<Key>, actor: string, role: Role, id: string, key: Key)
    ensures key in Without(keys, ById(id)) <==> key in keys && key.id != Some(id)
    ensures key in Without(keys, ByActor(actor, None)) <==> key in keys && key.actor != actor
    ensures key in Without(keys, ByActor(actor, Some(role))) <==> key in keys && (key.actor != actor || key.role != role)
  {
    RevokeLeavesTheOthers(keys, ById(id));
    RevokeLeavesTheOthers(keys, ByActor(actor, None));
    RevokeLeavesTheOthers(keys, ByActor(actor, Some(role)));
  }

  /** A key that carries its token itself works for that token, and only for it. */
  lemma OldKeysWorkToo(key: Key, secret: string, token: string, t: int)
    requires key.token == Some(secret) && key.tokenHash == None && secret != ""
    ensures Matches(key, token, t) <==> token == secret && IsActive(key, t)
  {
  }

  // ---------- one token, one key ----------

  /** No token matches two of these keys at the same time, now or at any later time. */
  ghost predicate Exclusive(keys: seq<Key>, now: int) {
    forall i, j, token, t | 0 <= i < j < |keys| && t >= now ::
      !(Matches(keys[i], token, t) && Matches(keys[j], token, t))
  }

  ghost predicate NoneScheduled(keys: seq<Key>) {
    forall i :: 0 <= i < |keys| ==> keys[i].notBefore.Absent?
  }

  /** Keys without a start date that do not match a token now never will again. */
  lemma UnmatchedStaysUnmatched(keys: seq<Key>, i: nat, token: string, now: int, t: int)
    requires i < |keys| && keys[i].notBefore.Absent? && now <= t && !AnyMatches(keys, token, now)
    ensures !Matches(keys[i], token, t)
  {
    assert !Matches(keys[i], token, now);
  }

  lemma AppendKeepsExclusive(keys: seq<Key>, key: Key, token: string, now: int)
    requires Exclusive(keys, now) && NoneScheduled(keys)
    requires key.token == None && key.tokenHash == Some(Sha256(token)) && key.notBefore.Absent?
    requires !AnyMatches(keys, token, now)
    ensures Exclusive(keys + [key], now) && NoneScheduled(keys + [key])
  {
    var all := keys + [key];
    forall i, j, other, t | 0 <= i < j < |all| && t >= now
      ensures !(Matches(all[i], other, t) && Matches(all[j], other, t))
    {
      if j < |keys| {
        assert !(Matches(keys[i], other, t) && Matches(keys[j], other, t));
      } else {
        UnmatchedStaysUnmatched(keys, i, token, now, t);
        assert Bears(key, other) ==> other == token;
      }
    }
  }

  lemma ShorterLivesStayExclusive(keys: seq<Key>, at: nat, key: Key, now: int, later: int)
    requires Exclusive(keys, now) && now <= later && at < |keys|
    requires forall token, t :: Matches(key, token, t) ==> Matches(keys[at], token, t)
    ensures Exclusive(keys[at := key], later)
  {
    var all := keys[at := key];
    forall i, j, token, t | 0 <= i < j < |all| && t >= later
      ensures !(Matches(all[i], token, t) && Matches(all[j], token, t))
    {
      assert !(Matches(keys[i], token, t) && Matches(keys[j], token, t));
    }
  }

  lemma ExpiringShortensLife(key: Key, id: string, at: int)
    requires !key.expiresAt.Invalid?
    ensures forall token, t :: Matches(Expire(key, id, at), token, t) <==> Matches(key, token, t) && t < at
  {
  }

  lemma {:induction false} WithoutIsASelection(keys: seq<Key>, s: Selector) returns (from: seq<nat>)
    ensures var kept := Without(keys, s);
            && |from| == |kept|
            && (forall k :: 0 <= k < |kept| ==> from[k] < |keys| && kept[k] == keys[from[k]] && !Selects(s, kept[k]))
            && (forall j, k :: 0 <= j < k < |kept| ==> from[j] < from[k])
            && (forall i :: 0 <= i < |keys| && !Selects(s, keys[i]) ==> i in from)
  {
    from := [];
    if keys != [] {
      var n := |keys| - 1;
      from := WithoutIsASelection(keys[..n], s);
      if !Selects(s, keys[n]) {
        var longer := from + [n];
        assert forall i :: i in from ==> i in longer;
        assert longer[|from|] == n;
        from := longer;
      }
    }
  }

  lemma RevokeKeepsExclusive(configured: seq<Key>, keys: seq<Key>, s: Selector, now: int)
    requires Exclusive(configured + keys, now) && NoneScheduled(configured + keys)
    ensures Exclusive(configured + Without(keys, s), now) && NoneScheduled(configured + Without(keys, s))
  {
    var from := WithoutIsASelection(keys, s);
    var c, before, all := |configured|, configured + keys, configured + Without(keys, s);
    forall k | 0 <= k < |all| ensures all[k].notBefore.Absent? {
      if k >= c { assert all[k] == before[c + from[k - c]]; } else { assert all[k] == before[k]; }
    }
    forall i, j, token, t | 0 <= i < j < |all| && t >= now
      ensures !(Matches(all[i], token, t) && Matches(all[j], token, t))
    {
      var i', j' := if i < c then i else c + from[i - c], if j < c then j else c + from[j - c];
      assert i' < j' && all[i] == before[i'] && all[j] == before[j'];
      assert !(Matches(before[i'], token, t) && Matches(before[j'], token, t));
    }
  }

  // ---------- runs ----------

  datatype Operation =
    | DoCreate(r: Request, clock: Clock)
    | DoRotate(s: Selector, overlapSeconds: nat, r: Request, generatedId: string, clock: Clock)
    | DoRevoke(s: Selector)

  function OrKeep(result: Result<seq<Key>, Error>, keys: seq<Key>): seq<Key> {
    match result
    case Ok(changed) => changed
    case Err(_) => keys
  }

  /** The stored keys after a request, successful or refused. */
  function After(configured: seq<Key>, keys: seq<Key>, op: Operation): seq<Key> {
    match op
    case DoCreate(r, clock) => OrKeep(AfterCreate(configured, keys, r, clock), keys)
    case DoRotate(s, overlap, r, id, clock) => OrKeep(AfterRotate(configured, keys, s, overlap, r, id, clock), keys)
    case DoRevoke(s) => Without(keys, s)
  }

  function AfterAll(configured: seq<Key>, keys: seq<Key>, ops: seq<Operation>): seq<Key> {
    if ops == [] then keys
    else After(configured, AfterAll(configured, keys, ops[..|ops| - 1]), ops[|ops| - 1])
  }

  /** When the last request so far was served. */
  function Present(start: int, ops: seq<Operation>): int {
    if ops == [] then start
    else
      match ops[|ops| - 1]
      case DoCreate(_, clock) => clock.second
      case DoRotate(_, _, _, _, clock) => clock.third
      case DoRevoke(_) => Present(start, ops[..|ops| - 1])
  }

  ghost predicate ClockRuns(start: int, ops: seq<Operation>) {
    ops != [] ==>
    && ClockRuns(start, ops[..|ops| - 1])
    && match ops[|ops| - 1]
       case DoCreate(_, clock) => Runs(clock) && Present(start, ops[..|ops| - 1]) <= clock.first
       case DoRotate(_, _, _, _, clock) => Runs(clock) && Present(start, ops[..|ops| - 1]) <= clock.first
       case DoRevoke(_) => true
  }

  lemma ExclusiveLater(keys: seq<Key>, now: int, later: int)
    requires Exclusive(keys, now) && now <= later
    ensures Exclusive(keys, later)
  {
  }

  lemma CreateKeepsExclusive(configured: seq<Key>, keys: seq<Key>, r: Request, clock: Clock, now: int)
    requires Exclusive(configured + keys, now) && NoneScheduled(configured + keys)
    requires Runs(clock) && now <= clock.first
    ensures var keys' := OrKeep(AfterCreate(configured, keys, r, clock), keys);
            Exclusive(configured + keys', clock.second) && NoneScheduled(configured + keys')
  {
    ExclusiveLater(configured + keys, now, clock.second);
    if AfterCreate(configured, keys, r, clock).Ok? {
      var key := NewKey(r, clock.first, None).value;
      AppendKeepsExclusive(configured + keys, key, r.token, clock.second);
      assert configured + (keys + [key]) == (configured + keys) + [key];
    }
  }

  lemma RotateKeepsExclusive(
    configured: seq<Key>, keys: seq<Key>, s: Selector, overlapSeconds: nat, r: Request, generatedId: string,
    clock: Clock, now: int)
    requires Exclusive(configured + keys, now) && NoneScheduled(configured + keys)
    requires Runs(clock) && now <= clock.first
    ensures var keys' := OrKeep(AfterRotate(configured, keys, s, overlapSeconds, r, generatedId, clock), keys);
            Exclusive(configured + keys', clock.third) && NoneScheduled(configured + keys')
  {
    var all, c := configured + keys, |configured|;
    ExclusiveLater(all, now, clock.third);
    if AfterRotate(configured, keys, s, overlapSeconds, r, generatedId, clock).Ok? {
      var candidates := Candidates(keys, s, clock.first);
      assert candidates[0] in candidates;
      var at := candidates[0];
      var current := keys[at];
      var currentId := if current.id.Some? then current.id.value else generatedId;
      var expiring := Expire(current, currentId, clock.second + overlapSeconds * 1000);
      var key := NewKey(r.(actor := current.actor, role := current.role, modelKeyEnv := current.modelKeyEnv),
                        clock.second, Some(currentId)).value;
      ExpiringShortensLife(current, currentId, clock.second + overlapSeconds * 1000);
      assert all[c + at] == current;
      ShorterLivesStayExclusive(all, c + at, expiring, now, clock.third);
      var mid := all[c + at := expiring];
      forall i | 0 <= i < |mid| ensures !Matches(mid[i], r.token, clock.third) {
        assert !Matches(all[i], r.token, clock.third);
      }
      AppendKeepsExclusive(mid, key, r.token, clock.third);
      assert configured + (keys[at := expiring] + [key]) == mid + [key];
    }
  }

  /** In every run of creates, rotates and revokes under a clock that never goes back, starting from
  keys without start dates that satisfy it, no token matches two active keys, now or later.  The
  handlers compare a new token with the currently active keys only. */
  lemma {:induction false} TokensStayExclusive(configured: seq<Key>, keys: seq<Key>, start: int, ops: seq<Operation>)
    requires Exclusive(configured + keys, start) && NoneScheduled(configured + keys)
    requires ClockRuns(start, ops)
    ensures Exclusive(configured + AfterAll(configured, keys, ops), Present(start, ops))
    ensures NoneScheduled(configured + AfterAll(configured, keys, ops))
  {
    if ops != [] {
      var init := ops[..|ops| - 1];
      TokensStayExclusive(configured, keys, start, init);
      var before, now := AfterAll(configured, keys, init), Present(start, init);
      match ops[|ops| - 1]
      case DoCreate(r, clock) => CreateKeepsExclusive(configured, before, r, clock, now);
      case DoRotate(s, overlap, r, id, clock) => RotateKeepsExclusive(configured, before, s, overlap, r, id, clock, now);
      case DoRevoke(s) => RevokeKeepsExclusive(configured, before, s, now);
    }
  }

  /** A key with a start date that comes into force, bearing the token, while the new key is active. */
  predicate Scheduled(key: Key, token: string, created: Key, now: int) {
    && Bears(key, token)
    && key.notBefore.At? && now < key.notBefore.ms
    && IsActive(key, key.notBefore.ms) && IsActive(created, key.notBefore.ms)
  }

  /** A new key without a start date that matches nothing now keeps the exclusion exactly when none of
  the others is scheduled to bear its token during its life. */
  lemma AppendIsExclusiveIffNoneScheduled(all: seq<Key>, created: Key, token: string, now: int)
    requires Exclusive(all, now) && !AnyMatches(all, token, now)
    requires created.token == None && created.tokenHash == Some(Sha256(token)) && created.notBefore.Absent?
    ensures Exclusive(all + [created], now) <==>
              forall i :: 0 <= i < |all| ==> !Scheduled(all[i], token, created, now)
  {
    var more := all + [created];
    if Exclusive(more, now) {
      forall i | 0 <= i < |all| ensures !Scheduled(all[i], token, created, now) {
        assert more[i] == all[i] && more[|all|] == created;
        if all[i].notBefore.At? {
          var t := all[i].notBefore.ms;
          assert t >= now ==> !(Matches(more[i], token, t) && Matches(more[|all|], token, t));
        }
      }
    }
    if forall i :: 0 <= i < |all| ==> !Scheduled(all[i], token, created, now) {
      forall i, j, other, t | 0 <= i < j < |more| && t >= now
        ensures !(Matches(more[i], other, t) && Matches(more[j], other, t))
      {
        if j < |all| {
          assert !(Matches(all[i], other, t) && Matches(all[j], other, t));
        } else {
          assert !Matches(all[i], token, now) && !Scheduled(all[i], token, created, now);
          assert Bears(created, other) ==> other == token;
        }
      }
    }
  }

  /** With start dates, a create that is let through keeps the exclusion exactly when no stored or
  configured key is scheduled to bear the same token during the new key's life. */
  lemma CreateIsExclusiveIffNoneScheduled(configured: seq<Key>, keys: seq<Key>, r: Request, clock: Clock)
    requires Exclusive(configured + keys, clock.second) && Runs(clock)
    requires AfterCreate(configured, keys, r, clock).Ok?
    ensures var created := NewKey(r, clock.first, None).value;
            var all := configured + keys;
            Exclusive(all + [created], clock.second) <==>
              forall i :: 0 <= i < |all| ==> !Scheduled(all[i], r.token, created, clock.second)
  {
    var created := NewKey(r, clock.first, None).value;
    AppendIsExclusiveIffNoneScheduled(configured + keys, created, r.token, clock.second);
  }

  /** The same holds of a rotate, with the old key as it leaves it: expiring when the overlap ends. */
  lemma RotateIsExclusiveIffNoneScheduled(
    configured: seq<Key>, keys: seq<Key>, s: Selector, overlapSeconds: nat, r: Request, generatedId: string,
    clock: Clock)
    requires Exclusive(configured + keys, clock.third) && Runs(clock)
    requires AfterRotate(configured, keys, s, overlapSeconds, r, generatedId, clock).Ok?
    ensures var keys' := AfterRotate(configured, keys, s, overlapSeconds, r, generatedId, clock).value;
            var others := configured + keys'[..|keys|];
            |keys'| == |keys| + 1
            && (Exclusive(configured + keys', clock.third) <==>
                  forall i :: 0 <= i < |others| ==> !Scheduled(others[i], r.token, keys'[|keys|], clock.third))
  {
    var keys' := AfterRotate(configured, keys, s, overlapSeconds, r, generatedId, clock).value;
    var others, successor := configured + keys'[..|keys|], keys'[|keys|];
    OthersStayExclusive(configured, keys, s, overlapSeconds, r, generatedId, clock);
    AppendIsExclusiveIffNoneScheduled(others, successor, r.token, clock.third);
    assert configured + keys' == others + [successor];
  }

  lemma OthersStayExclusive(
    configured: seq<Key>, keys: seq<Key>, s: Selector, overlapSeconds: nat, r: Request, generatedId: string,
    clock: Clock)
    requires Exclusive(configured + keys, clock.third)
    requires AfterRotate(configured, keys, s, overlapSeconds, r, generatedId, clock).Ok?
    ensures var keys' := AfterRotate(configured, keys, s, overlapSeconds, r, generatedId, clock).value;
            |keys'| == |keys| + 1
            && Exclusive(configured + keys'[..|keys|], clock.third)
            && !AnyMatches(configured + keys'[..|keys|], r.token, clock.third)
  {
    var all, c := configured + keys, |configured|;
    var candidates := Candidates(keys, s, clock.first);
    assert candidates[0] in candidates;
    var at := candidates[0];
    var currentId := if keys[at].id.Some? then keys[at].id.value else generatedId;
    var expiring := Expire(keys[at], currentId, clock.second + overlapSeconds * 1000);
    ExpiringShortensLife(keys[at], currentId, clock.second + overlapSeconds * 1000);
    assert all[c + at] == keys[at];
    ShorterLivesStayExclusive(all, c + at, expiring, clock.third, clock.third);
    var keys' := AfterRotate(configured, keys, s, overlapSeconds, r, generatedId, clock).value;
    var others := all[c + at := expiring];
    assert keys'[..|keys|] == keys[at := expiring];
    assert configured + keys'[..|keys|] == others;
    forall i | 0 <= i < |others| ensures !Matches(others[i], r.token, clock.third) {
      assert !Matches(all[i], r.token, clock.third);
    }
  }

  /** A key that starts in 100 ms. */
  function Waiting(token: string): Key {
    Key(Some("old"), None, Some(Sha256(token)), "a", Developer, None, Absent, At(100), Absent, None)
  }

  function InForce(token: string): Key {
    Key(Some("cur"), None, Some(Sha256(token)), "b", Developer, None, Absent, Absent, Absent, None)
  }

  /** For instance: the waiting key is not active, so its token can be given out again. */
  lemma StartDateLetsTokenTwice(token: string)
    requires |token| >= MIN_TOKEN_LENGTH
    ensures var r := Request("b", Developer, None, token, None, "new");
            var created := AfterCreate([], [Waiting(token)], r, Clock(0, 0, 0));
            && Exclusive([] + [Waiting(token)], 0)
            && created.Ok?
            && Matches(created.value[0], token, 100) && Matches(created.value[1], token, 100)
  {
    assert [] + [Waiting(token)] == [Waiting(token)];
    assert !Matches(Waiting(token), token, 0) && token != "";
  }

  /** Rotating another key to that token goes through as well. */
  lemma StartDateLetsTokenTwiceByRotation(token: string, secret: string)
    requires |token| >= MIN_TOKEN_LENGTH && secret != token
    ensures var keys := [Waiting(token), InForce(secret)];
            var r := Request("b", Developer, None, token, None, "new");
            var rotated := AfterRotate([], keys, ById("cur"), 0, r, "", Clock(0, 0, 0));
            && Exclusive([] + keys, 0)
            && rotated.Ok? && |rotated.value| == 3
            && Matches(rotated.value[0], token, 100) && Matches(rotated.value[2], token, 100)
  {
    var keys := [Waiting(token), InForce(secret)];
    assert [] + keys == keys;
    OneInForce(token, secret);
    hide Candidates, Exclusive, AnyMatches;
    assert token != "";
  }

  lemma OneInForce(token: string, secret: string)
    requires secret != token
    ensures var keys := [Waiting(token), InForce(secret)];
            Candidates(keys, ById("cur"), 0) == [1] && Exclusive(keys, 0) && !AnyMatches(keys, token, 0)
  {
    var keys := [Waiting(token), InForce(secret)];
    assert keys[..1] == [Waiting(token)] && [Waiting(token)][..0] == [];
    assert Candidates(keys[..1], ById("cur"), 0) == [];
  }

  // ---------- rotation ----------

  /** A rotation ends the old key at the earlier of its old expiry and now plus the overlap, never
  later, keeps everything else of it, its id included if it has one, and appends an active key for the
  same actor, role and model key. */
  lemma RotationHandsOver(
    configured: seq<Key>, keys: seq<Key>, s: Selector, overlapSeconds: nat, r: Request, generatedId: string,
    clock: Clock)
    requires Runs(clock) && AfterRotate(configured, keys, s, overlapSeconds, r, generatedId, clock).Ok?
    ensures var keys' := AfterRotate(configured, keys, s, overlapSeconds, r, generatedId, clock).value;
            exists at: nat :: at < |keys|
              && |keys'| == |keys| + 1
              && (forall i :: 0 <= i < |keys| && i != at ==> keys'[i] == keys[i])
              && Selects(s, keys[at]) && IsActive(keys[at], clock.first)
              && (forall token, t :: Matches(keys'[at], token, t) <==>
                    Matches(keys[at], token, t) && t < clock.second + overlapSeconds * 1000)
              && keys'[at] == keys[at].(id := keys'[at].id, expiresAt := keys'[at].expiresAt)
              && keys'[at].id == (if keys[at].id.Some? then keys[at].id else Some(generatedId))
              && var successor := keys'[|keys|];
                 && successor.actor == keys[at].actor && successor.role == keys[at].role && successor.modelKeyEnv == keys[at].modelKeyEnv
                 && Matches(successor, r.token, clock.second)
                 && keys'[at].id.Some? && successor.rotatedFromId == keys'[at].id
  {
    var candidates := Candidates(keys, s, clock.first);
    assert candidates[0] in candidates;
    var at := candidates[0];
    var current := keys[at];
    var currentId := if current.id.Some? then current.id.value else generatedId;
    ExpiringShortensLife(current, currentId, clock.second + overlapSeconds * 1000);
    var keys' := AfterRotate(configured, keys, s, overlapSeconds, r, generatedId, clock).value;
    assert keys'[at] == Expire(current, currentId, clock.second + overlapSeconds * 1000);
    assert |r.token| > 0 && r.token != "";
  }

  // ---------- lineages ----------

  /** Key ids are unique, and a key that another one was rotated from stands before it. */
  ghost predicate Lineal(keys: seq<Key>) {
    && (forall i, j :: 0 <= i < j < |keys| && keys[i].id.Some? ==> keys[i].id != keys[j].id)
    && (forall i, j | 0 <= i < |keys| && 0 <= j < |keys| ::
          keys[j].rotatedFromId.Some? && keys[i].id == keys[j].rotatedFromId ==> i < j)
  }

  /** An id that occurs nowhere in the stored keys. */
  predicate Fresh(id: string, keys: seq<Key>) {
    forall i :: 0 <= i < |keys| ==> keys[i].id != Some(id) && keys[i].rotatedFromId != Some(id)
  }

  predicate FreshIds(op: Operation, keys: seq<Key>) {
    match op
    case DoCreate(r, _) => Fresh(r.newId, keys)
    case DoRotate(_, _, r, id, _) => Fresh(r.newId, keys) && Fresh(id, keys) && r.newId != id
    case DoRevoke(_) => true
  }

  lemma AppendKeepsLineal(keys: seq<Key>, key: Key, id: string)
    requires Lineal(keys) && Fresh(id, keys) && key.id == Some(id) && key.rotatedFromId != Some(id)
    ensures Lineal(keys + [key])
  {
    var all := keys + [key];
    forall i, j | 0 <= i < |all| && 0 <= j < |all| && all[j].rotatedFromId.Some? && all[i].id == all[j].rotatedFromId
      ensures i < j
    {
      if j < |keys| { assert keys[j].rotatedFromId != Some(id); }
    }
  }

  lemma NamingKeepsLineal(keys: seq<Key>, at: nat, key: Key)
    requires Lineal(keys) && at < |keys| && key.id.Some? && key.rotatedFromId == keys[at].rotatedFromId
    requires key.id == keys[at].id || Fresh(key.id.value, keys)
    ensures Lineal(keys[at := key])
  {
  }

  lemma RevokeKeepsLineal(keys: seq<Key>, s: Selector)
    requires Lineal(keys)
    ensures Lineal(Without(keys, s))
  {
    var from := WithoutIsASelection(keys, s);
    var kept := Without(keys, s);
    forall i, j | 0 <= i < |kept| && 0 <= j < |kept| && kept[j].rotatedFromId.Some? && kept[i].id == kept[j].rotatedFromId
      ensures i < j
    {
      assert kept[i] == keys[from[i]] && kept[j] == keys[from[j]];
      assert from[i] < from[j];
    }
    forall i, j | 0 <= i < j < |kept| && kept[i].id.Some? ensures kept[i].id != kept[j].id {
      assert kept[i] == keys[from[i]] && kept[j] == keys[from[j]] && from[i] < from[j];
    }
  }

  lemma RequestKeepsLineal(configured: seq<Key>, keys: seq<Key>, op: Operation)
    requires Lineal(keys) && FreshIds(op, keys)
    ensures Lineal(After(configured, keys, op))
  {
    match op
    case DoRevoke(s) => RevokeKeepsLineal(keys, s);
    case DoCreate(r, clock) =>
      if AfterCreate(configured, keys, r, clock).Ok? {
        AppendKeepsLineal(keys, NewKey(r, clock.first, None).value, r.newId);
      }
    case DoRotate(s, overlap, r, id, clock) =>
      if AfterRotate(configured, keys, s, overlap, r, id, clock).Ok? {
        var candidates := Candidates(keys, s, clock.first);
        assert candidates[0] in candidates;
        var at := candidates[0];
        var currentId := if keys[at].id.Some? then keys[at].id.value else id;
        var expiring := Expire(keys[at], currentId, clock.second + overlap * 1000);
        NamingKeepsLineal(keys, at, expiring);
        var key := NewKey(r.(actor := keys[at].actor, role := keys[at].role, modelKeyEnv := keys[at].modelKeyEnv),
                          clock.second, Some(currentId)).value;
        AppendKeepsLineal(keys[at := expiring], key, r.newId);
      }
  }

  ghost predicate AlwaysFresh(configured: seq<Key>, keys: seq<Key>, ops: seq<Operation>) {
    ops != [] ==>
    && AlwaysFresh(configured, keys, ops[..|ops| - 1])
    && FreshIds(ops[|ops| - 1], AfterAll(configured, keys, ops[..|ops| - 1]))
  }

  /** Over all runs, whatever is revoked in between. */
  lemma {:induction false} LineagesStayOrdered(configured: seq<Key>, keys: seq<Key>, ops: seq<Operation>)
    requires Lineal(keys) && AlwaysFresh(configured, keys, ops)
    ensures Lineal(AfterAll(configured, keys, ops))
  {
    if ops != [] {
      LineagesStayOrdered(configured, keys, ops[..|ops| - 1]);
      RequestKeepsLineal(configured, AfterAll(configured, keys, ops[..|ops| - 1]), ops[|ops| - 1]);
    }
  }

  /** So following a lineage terminates: each ancestor still present stands before its descendant. */
  ghost function Ancestors(keys: seq<Key>, j: nat): (lineage: seq<nat>)
    requires Lineal(keys) && j < |keys|
    ensures forall k :: 0 <= k < |lineage| ==> lineage[k] < j
    ensures forall k, l :: 0 <= k < l < |lineage| ==> lineage[l] < lineage[k]
    decreases j
  {
    if keys[j].rotatedFromId.Some? && exists i: nat :: i < |keys| && keys[i].id == keys[j].rotatedFromId then
      var i: nat :| i < |keys| && keys[i].id == keys[j].rotatedFromId;
      [i] + Ancestors(keys, i)
    else []
  }
}
