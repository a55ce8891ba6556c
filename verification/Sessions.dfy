/** Signed-in devices and their chains of single-use refresh tokens. */
module Sessions {
  import opened Wrappers

  datatype Reason = Logout | Reuse | Blocked

  /** A hash of 0 is an empty hash, an ID of 0 the zero ID. */
  datatype Token = Token(hash: int, session: int, createdAt: int, expiresAt: int, usedAt: Option<int>) {
    predicate Spent() { usedAt.Some? }
  }

  datatype End = End(at: int, reason: Reason)

  datatype SessionState = SessionState(id: int, user: int, createdAt: int, lastRefreshedAt: int, ended: Option<End>)

  datatype Refusal = OtherSession | TokenInvalid | TokenReused | BadToken

  function NewToken(hash: int, session: int, now: int, ttl: int): Result<Token, Refusal> {
    if hash == 0 || session == 0 || ttl <= 0 then Err(BadToken) else Ok(Token(hash, session, now, now + ttl, None))
  }

  /** Ending an ended session keeps the first reason. */
  function Revoked(s: SessionState, now: int, reason: Reason): SessionState {
    if s.ended.Some? then s else s.(ended := Some(End(now, reason)))
  }

  /** Presenting t: the session, the token and the answer. */
  function Rotated(s: SessionState, t: Token, nextHash: int, now: int, ttl: int):
      (SessionState, Token, Result<Token, Refusal>)
  {
    if t.session != s.id then (s, t, Err(OtherSession))
    else if s.ended.Some? then (s, t, Err(TokenInvalid))
    else if t.Spent() then (Revoked(s, now, Reuse), t, Err(TokenReused))
    else if now >= t.expiresAt then (s, t, Err(TokenInvalid))
    else
      var next := NewToken(nextHash, s.id, now, ttl);
      if next.Err? then (s, t, next) else (s.(lastRefreshedAt := now), t.(usedAt := Some(now)), next)
  }

  class RefreshToken {
    const hash: int
    const session: int
    const createdAt: int
    const expiresAt: int
    var usedAt: Option<int>

    ghost function State(): Token
      reads this
    {
      Token(hash, session, createdAt, expiresAt, usedAt)
    }

    constructor Rehydrate(t: Token)
      ensures State() == t
    {
      hash, session, createdAt, expiresAt, usedAt := t.hash, t.session, t.createdAt, t.expiresAt, t.usedAt;
    }
  }

  class Session {
    const id: int
    const user: int
    const createdAt: int
    var lastRefreshedAt: int
    var revokedAt: Option<int>
    var revokeReason: Reason

    ghost function State(): SessionState
      reads this
    {
      var ended := if revokedAt.Some? then Some(End(revokedAt.value, revokeReason)) else None;
      SessionState(id, user, createdAt, lastRefreshedAt, ended)
    }

    constructor Rehydrate(s: SessionState)
      ensures State() == s
    {
      id, user, createdAt, lastRefreshedAt := s.id, s.user, s.createdAt, s.lastRefreshedAt;
      revokedAt := if s.ended.Some? then Some(s.ended.value.at) else None;
      revokeReason := if s.ended.Some? then s.ended.value.reason else Logout;
    }

    method Revoke(now: int, reason: Reason)
      modifies this
      ensures State() == Revoked(old(State()), now, reason)
    {
      if revokedAt.Some? {
        return;
      }
      revokedAt, revokeReason := Some(now), reason;
    }

    method Rotate(t: RefreshToken, nextHash: int, now: int, ttl: int) returns (next: Result<Token, Refusal>)
      modifies this, t
      ensures (State(), t.State(), next) == Rotated(old(State()), old(t.State()), nextHash, now, ttl)
    {
      if t.session != id {
        return Err(OtherSession);
      }
      if revokedAt.Some? {
        return Err(TokenInvalid);
      }
      if t.usedAt.Some? {
        Revoke(now, Reuse);
        return Err(TokenReused);
      }
      if now >= t.expiresAt {
        return Err(TokenInvalid);
      }
      next := NewToken(nextHash, id, now, ttl);
      if next.Err? {
        return;
      }
      t.usedAt := Some(now);
      lastRefreshedAt := now;
    }
  }

  /** The store: session IDs and token hashes are primary keys. */
  datatype Store = Store(sessions: map<int, SessionState>, tokens: map<int, Token>)

  datatype Account = Usual | BlockedUser | Gone

  datatype Op =
    | Start(id: int, user: int, hash: int, now: int, ttl: int)
    | Refresh(presented: int, nextHash: int, now: int, ttl: int, account: Account)
    | EndBlocked(session: int, now: int)
    | LogOut(session: int, caller: int, now: int)

  datatype Answer = Issued(hash: int) | Refused(why: Refusal) | UserBlocked | Done | Failed

  /** Rotate in one transaction: a refusal is saved too, because it may end the
      session; a next hash that exists already fails and rolls everything back. */
  function RefreshTx(s: Store, op: Op): (Store, Result<Token, Refusal>)
    requires op.Refresh? && Found(s, op.presented)
  {
    var t := s.tokens[op.presented];
    var (session, token, next) := Rotated(s.sessions[t.session], t, op.nextHash, op.now, op.ttl);
    if next.Ok? && op.nextHash in s.tokens then (s, Err(BadToken))
    else
      var saved := Store(s.sessions[t.session := session], s.tokens[op.presented := token]);
      (if next.Ok? then saved.(tokens := saved.tokens[op.nextHash := next.value]) else saved, next)
  }

  /** A token is looked up together with its session. */
  predicate Found(s: Store, hash: int) { hash in s.tokens && s.tokens[hash].session in s.sessions }

  /** One transaction. A blocked user's refresh is two: the rotation, and EndBlocked
      after it, with anything in between or nothing following. */
  function Step(s: Store, op: Op): (Store, Answer) {
    match op
    case Start(id, user, hash, now, ttl) =>
      var first := NewToken(hash, id, now, ttl);
      if user == 0 || first.Err? || id in s.sessions || hash in s.tokens then (s, Failed)
      else
        var session := SessionState(id, user, now, now, None);
        (Store(s.sessions[id := session], s.tokens[hash := first.value]), Issued(hash))
    case Refresh(presented, nextHash, now, ttl, account) =>
      if !Found(s, presented) then (s, Refused(TokenInvalid))
      else
        var (after, next) := RefreshTx(s, op);
        if next.Err? then (after, Refused(next.error))
        else
          (after,
           if account == Gone then Refused(TokenInvalid)
           else if account == BlockedUser then UserBlocked
           else Issued(nextHash))
    case EndBlocked(session, now) =>
      if session in s.sessions then
        (s.(sessions := s.sessions[session := Revoked(s.sessions[session], now, Blocked)]), Done)
      else (s, Failed)
    case LogOut(session, caller, now) =>
      if session in s.sessions && s.sessions[session].user == caller then
        (s.(sessions := s.sessions[session := Revoked(s.sessions[session], now, Logout)]), Done)
      else (s, Done)
  }

  /** The presented token was taken and a next one made. */
  predicate Accepts(s: Store, op: Op) { op.Refresh? && Found(s, op.presented) && RefreshTx(s, op).1.Ok? }

  /** Rows are found under their own keys, every token has its session, and no
      session has two tokens that are not spent. */
  predicate Good(s: Store) {
    && (forall id :: id in s.sessions ==> s.sessions[id].id == id != 0)
    && (forall h :: h in s.tokens ==> s.tokens[h].hash == h && s.tokens[h].session in s.sessions)
    && (forall h, k :: h in s.tokens && k in s.tokens && h != k && s.tokens[h].session == s.tokens[k].session ==>
          s.tokens[h].Spent() || s.tokens[k].Spent())
  }

  /** Nothing is undone: tokens stay, spent ones stay spent, ended sessions stay
      ended as they were and get no new token. */
  ghost predicate OneWay(s: Store, s': Store) {
    && (forall id :: id in s.sessions ==>
          id in s'.sessions && (s.sessions[id].ended.Some? ==> s'.sessions[id] == s.sessions[id]))
    && (forall h :: h in s.tokens ==>
          && h in s'.tokens && s'.tokens[h].session == s.tokens[h].session
          && s'.tokens[h].createdAt == s.tokens[h].createdAt && s'.tokens[h].expiresAt == s.tokens[h].expiresAt
          && (s.tokens[h].Spent() ==> s'.tokens[h] == s.tokens[h]))
    && (forall h ::
          h in s'.tokens && s'.tokens[h].session in s.sessions && s.sessions[s'.tokens[h].session].ended.Some? ==>
          h in s.tokens && s'.tokens[h] == s.tokens[h])
  }

  /** A token that can still be used: its session is live, and it is neither spent nor
      expired. */
  predicate Usable(s: Store, hash: int, now: int) {
    && Found(s, hash) && s.sessions[s.tokens[hash].session].ended.None?
    && !s.tokens[hash].Spent() && now < s.tokens[hash].expiresAt
  }

  /** A next token can be made under the hash. */
  predicate CanIssue(s: Store, hash: int, ttl: int) { hash != 0 && hash !in s.tokens && ttl > 0 }

  /** A refresh takes the token presented exactly when it is usable and a next one can be
      made. */
  lemma AcceptsExactly(s: Store, op: Op)
    requires Good(s) && op.Refresh?
    ensures Accepts(s, op) <==> Usable(s, op.presented, op.now) && CanIssue(s, op.nextHash, op.ttl)
  {
  }

  /** What an accepted refresh leaves: the token spent now, the next one good for its
      lifetime, the session refreshed; and to whom the next token is given. */
  lemma AcceptedLeaves(s: Store, op: Op)
    requires Good(s) && Accepts(s, op)
    ensures var (s', r) := Step(s, op);
            var t := s.tokens[op.presented];
            && s'.sessions == s.sessions[t.session := s.sessions[t.session].(lastRefreshedAt := op.now)]
            && s'.tokens == s.tokens[op.presented := t.(usedAt := Some(op.now))]
                                    [op.nextHash := Token(op.nextHash, t.session, op.now, op.now + op.ttl, None)]
            && (r == Issued(op.nextHash) <==> op.account == Usual)
            && (r == UserBlocked <==> op.account == BlockedUser)
            && (r == Refused(TokenInvalid) <==> op.account == Gone)
  {
  }

  /** A token that is not usable, unless it is a spent one of a live session, is refused
      as invalid and changes nothing: unknown, expired, or of a session that is over. */
  lemma UnusableIsRefused(s: Store, op: Op)
    requires Good(s) && op.Refresh? && !Usable(s, op.presented, op.now)
    requires op.presented in s.tokens && s.tokens[op.presented].Spent() ==>
             s.sessions[s.tokens[op.presented].session].ended.Some?
    ensures Step(s, op) == (s, Refused(TokenInvalid))
  {
    if Found(s, op.presented) {
      var t := s.tokens[op.presented];
      assert s.sessions[t.session := s.sessions[t.session]] == s.sessions && s.tokens[op.presented := t] == s.tokens;
    }
  }

  /** A session starts exactly with a user, new names and a lifetime; then it is live,
      with one token good for that long. */
  lemma StartMeans(s: Store, op: Op)
    requires op.Start?
    ensures Step(s, op).1 == Issued(op.hash) <==>
            op.user != 0 && op.id != 0 && op.id !in s.sessions && CanIssue(s, op.hash, op.ttl)
    ensures Step(s, op).1 == Issued(op.hash) ==>
            Step(s, op).0 == Store(s.sessions[op.id := SessionState(op.id, op.user, op.now, op.now, None)],
                                   s.tokens[op.hash := Token(op.hash, op.id, op.now, op.now + op.ttl, None)])
    ensures Step(s, op).1 != Issued(op.hash) ==> Step(s, op) == (s, Failed)
  {
  }

  /** Logging out ends the caller's own session, if it is live, and nothing else. */
  lemma LogOutMeans(s: Store, op: Op)
    requires op.LogOut?
    ensures var (s', r) := Step(s, op);
            && r == Done && s'.tokens == s.tokens && s'.sessions.Keys == s.sessions.Keys
            && (forall id :: id in s.sessions && s'.sessions[id] != s.sessions[id] ==>
                  && id == op.session && s.sessions[id].user == op.caller && s.sessions[id].ended.None?
                  && s'.sessions[id] == s.sessions[id].(ended := Some(End(op.now, Logout))))
            && (op.session in s.sessions && s.sessions[op.session].user == op.caller ==>
                  s'.sessions[op.session].ended.Some?)
  {
  }

  /** A blocked user's live session is ended for that reason, and nothing else changes. */
  lemma EndBlockedMeans(s: Store, op: Op)
    requires op.EndBlocked?
    ensures var (s', r) := Step(s, op);
            && s'.tokens == s.tokens && s'.sessions.Keys == s.sessions.Keys
            && (forall id :: id in s.sessions && s'.sessions[id] != s.sessions[id] ==>
                  && id == op.session && s.sessions[id].ended.None?
                  && s'.sessions[id] == s.sessions[id].(ended := Some(End(op.now, Blocked))))
            && (op.session in s.sessions ==> s'.sessions[op.session].ended.Some?)
  {
  }

  /** The token was made by the step, and expires exactly its lifetime later. */
  predicate MadeBy(op: Op, t: Token) {
    && (op.Start? || op.Refresh?) && t.hash == (if op.Start? then op.hash else op.nextHash)
    && t.createdAt == op.now && t.expiresAt == op.now + op.ttl && op.ttl > 0
  }

  lemma NewTokensAreMade(s: Store, op: Op, h: int)
    requires Good(s) && h in Step(s, op).0.tokens && h !in s.tokens
    ensures MadeBy(op, Step(s, op).0.tokens[h]) && !Step(s, op).0.tokens[h].Spent()
  {
  }

  /** In every run, whatever became of it since, a token expires exactly its lifetime
      after the step that made it. */
  lemma {:induction false} LifetimesHold(s: Store, ops: seq<Op>, h: int)
    requires Good(s) && h in Run(s, ops).tokens && h !in s.tokens
    ensures exists k :: 0 <= k < |ops| && MadeBy(ops[k], Run(s, ops).tokens[h])
    decreases |ops|
  {
    var next := Step(s, ops[0]).0;
    StepIsGood(s, ops[0]);
    if h in next.tokens {
      NewTokensAreMade(s, ops[0], h);
      EveryRun(next, ops[1..]);
      assert next.tokens[h].hash == h == Run(next, ops[1..]).tokens[h].hash by { EveryRun(s, ops); }
      assert MadeBy(ops[0], Run(s, ops).tokens[h]);
    } else {
      LifetimesHold(next, ops[1..], h);
      var k :| 0 <= k < |ops[1..]| && MadeBy(ops[1..][k], Run(s, ops).tokens[h]);
      assert ops[k + 1] == ops[1..][k];
    }
  }

  lemma StartIsGood(s: Store, op: Op)
    requires Good(s) && op.Start?
    ensures Good(Step(s, op).0) && OneWay(s, Step(s, op).0)
  {
  }

  lemma RevokeIsGood(s: Store, id: int, now: int, reason: Reason)
    requires Good(s) && id in s.sessions
    ensures var s' := s.(sessions := s.sessions[id := Revoked(s.sessions[id], now, reason)]);
            Good(s') && OneWay(s, s')
  {
  }

  /** Whoever is taken was the session's only unspent token, and the next is now. */
  lemma RefreshIsGood(s: Store, op: Op)
    requires Good(s) && op.Refresh? && Found(s, op.presented)
    ensures Good(RefreshTx(s, op).0)
  {
    var s' := RefreshTx(s, op).0;
    if RefreshTx(s, op).1.Ok? {
      forall h, k | h in s'.tokens && k in s'.tokens && h != k && s'.tokens[h].session == s'.tokens[k].session
        ensures s'.tokens[h].Spent() || s'.tokens[k].Spent()
      {
        assert h != op.nextHash && h != op.presented ==> s'.tokens[h] == s.tokens[h];
        assert k != op.nextHash && k != op.presented ==> s'.tokens[k] == s.tokens[k];
      }
    }
  }

  lemma RefreshIsOneWay(s: Store, op: Op)
    requires Good(s) && op.Refresh? && Found(s, op.presented)
    ensures OneWay(s, RefreshTx(s, op).0)
    ensures RefreshTx(s, op).1.Ok? ==>
            !s.tokens[op.presented].Spent() && RefreshTx(s, op).0.tokens[op.presented].Spent()
  {
  }

  lemma StepIsGood(s: Store, op: Op)
    requires Good(s)
    ensures Good(Step(s, op).0) && OneWay(s, Step(s, op).0)
    ensures Accepts(s, op) ==> !s.tokens[op.presented].Spent() && Step(s, op).0.tokens[op.presented].Spent()
  {
    match op
    case Start(_, _, _, _, _) => StartIsGood(s, op);
    case LogOut(session, _, now) => if session in s.sessions { RevokeIsGood(s, session, now, Logout); }
    case EndBlocked(session, now) => if session in s.sessions { RevokeIsGood(s, session, now, Blocked); }
    case Refresh(presented, _, _, _, _) =>
      if Found(s, presented) {
        RefreshIsGood(s, op);
        RefreshIsOneWay(s, op);
      }
  }

  function Run(s: Store, ops: seq<Op>): Store
    decreases |ops|
  {
    if ops == [] then s else Run(Step(s, ops[0]).0, ops[1..])
  }

  /** The tokens taken, in order. */
  function Taken(s: Store, ops: seq<Op>): seq<int>
    decreases |ops|
  {
    if ops == [] then []
    else (if Accepts(s, ops[0]) then [ops[0].presented] else []) + Taken(Step(s, ops[0]).0, ops[1..])
  }

  /** In every run: at most one unspent token per session throughout, an ended session
      stays ended for its first reason and never gets a token again. */
  lemma {:induction false} EveryRun(s: Store, ops: seq<Op>)
    requires Good(s)
    ensures Good(Run(s, ops)) && OneWay(s, Run(s, ops))
    decreases |ops|
  {
    if ops != [] {
      StepIsGood(s, ops[0]);
      EveryRun(Step(s, ops[0]).0, ops[1..]);
    }
  }

  lemma {:induction false} SpentIsNeverTaken(s: Store, ops: seq<Op>, hash: int)
    requires Good(s) && hash in s.tokens && s.tokens[hash].Spent()
    ensures hash !in Taken(s, ops)
    decreases |ops|
  {
    if ops != [] {
      StepIsGood(s, ops[0]);
      SpentIsNeverTaken(Step(s, ops[0]).0, ops[1..], hash);
    }
  }

  /** No token is accepted twice in any run. */
  lemma {:induction false} TakenOnce(s: Store, ops: seq<Op>)
    requires Good(s)
    ensures forall i, j :: 0 <= i < j < |Taken(s, ops)| ==> Taken(s, ops)[i] != Taken(s, ops)[j]
    decreases |ops|
  {
    if ops != [] {
      StepIsGood(s, ops[0]);
      var s' := Step(s, ops[0]).0;
      TakenOnce(s', ops[1..]);
      if Accepts(s, ops[0]) {
        SpentIsNeverTaken(s', ops[1..], ops[0].presented);
        assert Taken(s, ops) == [ops[0].presented] + Taken(s', ops[1..]);
      } else {
        assert Taken(s, ops) == Taken(s', ops[1..]);
      }
    }
  }

  /** Presenting a spent token is refused, and ends its session if it was still live. */
  lemma ReuseEndsTheSession(s: Store, op: Op)
    requires Good(s) && op.Refresh? && op.presented in s.tokens && s.tokens[op.presented].Spent()
    ensures var id := s.tokens[op.presented].session;
            && Step(s, op).1.Refused?
            && Step(s, op).0.sessions[id].ended.Some?
            && (s.sessions[id].ended.None? ==>
                  && Step(s, op).1 == Refused(TokenReused)
                  && Step(s, op).0.sessions[id].ended == Some(End(op.now, Reuse)))
  {
  }

  /** A stolen copy: once a token was taken, presenting it again at any later point of
      any run leaves its session ended, for good. */
  lemma TwiceMeansOver(s: Store, first: Op, between: seq<Op>, again: Op, rest: seq<Op>)
    requires Good(s) && Accepts(s, first) && again.Refresh? && again.presented == first.presented
    ensures var later := Run(Step(s, first).0, between);
            var id := s.tokens[first.presented].session;
            && Step(later, again).1.Refused?
            && id in Step(later, again).0.sessions && Step(later, again).0.sessions[id].ended.Some?
            && id in Run(Step(later, again).0, rest).sessions
            && Run(Step(later, again).0, rest).sessions[id] == Step(later, again).0.sessions[id]
  {
    StepIsGood(s, first);
    EveryRun(Step(s, first).0, between);
    var later := Run(Step(s, first).0, between);
    ReuseEndsTheSession(later, again);
    StepIsGood(later, again);
    EveryRun(Step(later, again).0, rest);
  }

  lemma EmptyIsGood()
    ensures Good(Store(map[], map[]))
  {
  }
}
