/**
  Email tokens, recovery and password sign-in (web/lib/email-ownership.ts:39-166, web/lib/auth-db.ts:22-31), as
  transactions that run statement by statement under their account's lock. A statement of a transaction sees its
  own writes; others see them when it commits. This is one account and all transactions on it: no other account's
  transaction writes its rows. Ids are drawn fresh; a token's hash and its id are one.
*/
module EmailTokens {
  import opened Common

  type TokenId = nat
  type SessionId = nat
  type TxId = nat
  type Email = nat

  /** A password hash with its salt. */
  type Secret = nat

  datatype Purpose = ToVerify | ToReset | ToChange
  datatype Token = Token(purpose: Purpose, email: Email, expiresAt: int, used: bool)

  /** A session: whether it still works, and whether a password started it. */
  datatype Session = Session(live: bool, password: bool)

  datatype Account = Account(email: Email, secret: Secret, verified: bool, tokens: map<TokenId, Token>, sessions: map<SessionId, Session>)

  const VERIFY_TTL_S := 86400
  const RESET_TTL_S := 1800

  /**
    The transactions. A verification or reset link was issued for the address read before the lock; `taken` is
    whether another account has the new address when that is read.
  */
  datatype Op =
    | SendVerification(email: Email, id: TokenId, now: int)
    | RequestReset(email: Email, id: TokenId, now: int)
    | RequestChange(newEmail: Email, asker: Option<SessionId>, taken: bool, id: TokenId, now: int)
    | VerifyEmail(token: TokenId, taken: bool, now: int)
    | ResetPassword(token: TokenId, secret: Secret, now: int)
    | SignIn(secret: Secret, session: SessionId)

  datatype Stmt =
    | UseUp(purpose: Purpose)
    | Insert(id: TokenId, purpose: Purpose, email: Email, expiresAt: int)
    | CheckSession(asker: Option<SessionId>)
    | CheckNewEmail(email: Email, taken: bool)
    | Consume(token: TokenId, purposes: set<Purpose>, now: int)
    | Confirm(taken: bool)
    | SetSecret(secret: Secret)
    | UseUpAll
    | RevokeAll
    | CheckSecret(secret: Secret)
    | OpenSession(session: SessionId)

  /** The statements of a transaction after it has locked its account. */
  function Program(op: Op): seq<Stmt> {
    match op
    case SendVerification(email, id, now) => [UseUp(ToVerify), Insert(id, ToVerify, email, now + VERIFY_TTL_S)]
    case RequestReset(email, id, now) => [UseUp(ToReset), Insert(id, ToReset, email, now + RESET_TTL_S)]
    case RequestChange(email, session, taken, id, now) =>
      [CheckSession(session), CheckNewEmail(email, taken), UseUp(ToChange), Insert(id, ToChange, email, now + VERIFY_TTL_S)]
    case VerifyEmail(token, taken, now) => [Consume(token, {ToVerify, ToChange}, now), Confirm(taken)]
    case ResetPassword(token, secret, now) => [Consume(token, {ToReset}, now), SetSecret(secret), UseUpAll, RevokeAll]
    case SignIn(secret, session) => [CheckSecret(secret), OpenSession(session)]
  }

  /** What a transaction has written so far: the account's row and tokens, and the sessions it ended and started. */
  datatype Work = Work(email: Email, secret: Secret, verified: bool, tokens: map<TokenId, Token>, consumed: Option<TokenId>,
                       revoked: set<SessionId>, started: set<SessionId>)

  function Begin(a: Account): Work {
    Work(a.email, a.secret, a.verified, a.tokens, None, {}, {})
  }

  function UsedUp(tokens: map<TokenId, Token>, purposes: set<Purpose>): map<TokenId, Token> {
    map i | i in tokens :: if tokens[i].purpose in purposes then tokens[i].(used := true) else tokens[i]
  }

  predicate Usable(tokens: map<TokenId, Token>, token: TokenId, purposes: set<Purpose>, now: int) {
    token in tokens && tokens[token].purpose in purposes && !tokens[token].used && tokens[token].expiresAt > now
  }

  /** One statement, over the transaction's writes and the sessions committed so far; and whether it goes on. */
  function Exec(s: Stmt, w: Work, sessions: map<SessionId, Session>): (Work, bool) {
    match s
    case UseUp(p) => (w.(tokens := UsedUp(w.tokens, {p})), true)
    case Insert(id, p, email, expiresAt) => (w.(tokens := w.tokens[id := Token(p, email, expiresAt, false)]), true)
    case CheckSession(session) =>
      (w, session.None? || (session.value in sessions && sessions[session.value].live))
    case CheckNewEmail(email, taken) => (w, w.email != email && !taken)
    case Consume(token, purposes, now) =>
      if !Usable(w.tokens, token, purposes, now) then (w, false)
      else (w.(tokens := w.tokens[token := w.tokens[token].(used := true)], consumed := Some(token)), true)
    case Confirm(taken) =>
      if w.consumed.None? || w.consumed.value !in w.tokens then (w, false) else
      var row := w.tokens[w.consumed.value];
      if row.purpose == ToVerify then (if w.email == row.email then (w.(verified := true), true) else (w, false))
      else if taken then (w, false) else (w.(email := row.email, verified := true), true)
    case SetSecret(secret) =>
      if w.consumed.None? || w.consumed.value !in w.tokens || w.tokens[w.consumed.value].email != w.email then (w, false)
      else (w.(secret := secret, verified := true), true)
    case UseUpAll => (w.(tokens := UsedUp(w.tokens, {ToVerify, ToReset, ToChange})), true)
    case RevokeAll => (w.(revoked := w.revoked + sessions.Keys + w.started), true)
    case CheckSecret(secret) => (w, w.secret == secret)
    case OpenSession(session) => (w.(started := w.started + {session}), true)
  }

  /** The account with a transaction's writes: password sessions it started, and sessions it ended. */
  function Installed(a: Account, w: Work): Account {
    Account(w.email, w.secret, w.verified, w.tokens,
      map s | s in a.sessions.Keys + w.started ::
        if s in w.revoked then Session(false, if s in a.sessions then a.sessions[s].password else true)
        else if s in w.started then Session(true, true) else a.sessions[s])
  }

  // ----- the machine -----

  /** A transaction: what it does, the next statement, and its writes once it has the lock. */
  datatype Tx = Tx(op: Op, pc: nat, work: Option<Work>, stopped: bool)

  /** `ids` are the token and session ids ever drawn; `consumed` the tokens committed transactions consumed, in order. */
  datatype State = State(account: Account, holder: Option<TxId>, txs: map<TxId, Tx>, ids: set<nat>, consumed: seq<TokenId>)

  datatype Step =
    | Start(x: TxId, op: Op)
    | Lock(x: TxId)
    | Run(x: TxId)
    | Commit(x: TxId)
    | Abort(x: TxId)
    | OtherSignIn(session: SessionId)
    | SignOut(session: SessionId)

  /** The id an operation draws. */
  function Drawn(op: Op): set<nat> {
    match op
    case SendVerification(_, id, _) => {id}
    case RequestReset(_, id, _) => {id}
    case RequestChange(_, _, _, id, _) => {id}
    case SignIn(_, session) => {session}
    case _ => {}
  }

  /** A link is looked up before the lock: it is one of this account's. */
  predicate Addressed(a: Account, op: Op) {
    match op
    case VerifyEmail(token, _, _) => token in a.tokens
    case ResetPassword(token, _, _) => token in a.tokens
    case _ => true
  }

  predicate Finished(t: Tx) {
    t.work.Some? && (t.stopped || t.pc >= |Program(t.op)|)
  }

  predicate Enabled(s: State, step: Step) {
    match step
    case Start(x, op) => x !in s.txs && Addressed(s.account, op) && Drawn(op) !! s.ids
    case Lock(x) => x in s.txs && s.txs[x].work.None? && s.holder.None?
    case Run(x) => x in s.txs && s.txs[x].work.Some? && !Finished(s.txs[x])
    case Commit(x) => x in s.txs && Finished(s.txs[x])
    case Abort(x) => x in s.txs
    case OtherSignIn(session) => session !in s.ids
    case SignOut(session) => session in s.account.sessions
  }

  function Next(t: Tx, a: Account): Tx
    requires t.work.Some? && !Finished(t)
  {
    var (w, go) := Exec(Program(t.op)[t.pc], t.work.value, a.sessions);
    t.(pc := t.pc + 1, work := Some(w), stopped := !go)
  }

  function Released(s: State, x: TxId): Option<TxId> {
    if s.holder == Some(x) then None else s.holder
  }

  function Apply(s: State, step: Step): State
    requires Enabled(s, step)
  {
    match step
    case Start(x, op) => s.(txs := s.txs[x := Tx(op, 0, None, false)], ids := s.ids + Drawn(op))
    case Lock(x) => s.(holder := Some(x), txs := s.txs[x := s.txs[x].(work := Some(Begin(s.account)))])
    case Run(x) => s.(txs := s.txs[x := Next(s.txs[x], s.account)])
    case Commit(x) =>
      var w := s.txs[x].work.value;
      s.(account := Installed(s.account, w), holder := Released(s, x), txs := s.txs - {x},
         consumed := if w.consumed.Some? then s.consumed + [w.consumed.value] else s.consumed)
    case Abort(x) => s.(holder := Released(s, x), txs := s.txs - {x})
    case OtherSignIn(session) =>
      s.(account := s.account.(sessions := s.account.sessions[session := Session(true, false)]), ids := s.ids + {session})
    case SignOut(session) =>
      s.(account := s.account.(sessions := s.account.sessions[session := s.account.sessions[session].(live := false)]))
  }

  // ----- what a transaction's writes are -----

  /** At most one unused token of each purpose. */
  ghost predicate OneUnused(tokens: map<TokenId, Token>) {
    forall i, j :: i in tokens && j in tokens && !tokens[i].used && !tokens[j].used && tokens[i].purpose == tokens[j].purpose ==> i == j
  }

  /** Tokens are only added, by their own transaction, and only used up. */
  ghost predicate Grows(before: map<TokenId, Token>, after: map<TokenId, Token>, drawn: set<nat>) {
    && (forall i :: i in before ==> i in after && after[i].(used := before[i].used) == before[i] && (before[i].used ==> after[i].used))
    && (forall i :: i in after && i !in before ==> i in drawn)
  }

  /** How far a transaction is through the statements that matter here. */
  predicate Passed(t: Tx, n: nat) {
    t.pc >= n + 1 && !t.stopped
  }

  /** A transaction that holds its lock, against the account as it is committed. */
  ghost predicate WorkSound(t: Tx, a: Account)
    requires t.work.Some?
  {
    var w := t.work.value;
    && t.pc <= |Program(t.op)|
    && Grows(a.tokens, w.tokens, Drawn(t.op))
    && OneUnused(w.tokens)
    && (w.consumed.Some? ==> w.consumed.value in a.tokens && !a.tokens[w.consumed.value].used && w.tokens[w.consumed.value].used)
    && (!t.op.ResetPassword? ==> w.secret == a.secret)
    && (!t.op.SignIn? ==> w.started == {})
    && match t.op
       case SendVerification(_, id, _) => AboutToInsert(t, w, id, ToVerify, 1)
       case RequestReset(_, id, _) => AboutToInsert(t, w, id, ToReset, 1)
       case RequestChange(_, _, _, id, _) => AboutToInsert(t, w, id, ToChange, 3)
       case VerifyEmail(_, _, _) => true
       case ResetPassword(_, secret, _) => ResetSoFar(t, w, a, secret)
       case SignIn(secret, session) => SignInSoFar(t, w, a, secret, session)
  }

  /** A link is inserted only after the earlier ones of its purpose are used up. */
  ghost predicate AboutToInsert(t: Tx, w: Work, id: TokenId, p: Purpose, n: nat) {
    && (t.pc <= n ==> id !in w.tokens)
    && (t.pc == n && !t.stopped ==> NoneUnused(w.tokens, p))
  }

  ghost predicate ResetSoFar(t: Tx, w: Work, a: Account, secret: Secret) {
    && (w.secret == a.secret || w.secret == secret)
    && (t.pc <= 3 ==> w.revoked == {})
    && (Passed(t, 1) ==> w.secret == secret)
    && (Passed(t, 2) ==> forall i :: i in w.tokens ==> w.tokens[i].used)
    && (Passed(t, 3) ==> forall s :: s in a.sessions && a.sessions[s].password ==> s in w.revoked)
  }

  ghost predicate SignInSoFar(t: Tx, w: Work, a: Account, secret: Secret, session: SessionId) {
    && w.started <= {session}
    && (Passed(t, 0) || w.started != {} ==> secret == a.secret)
  }

  ghost predicate NoneUnused(tokens: map<TokenId, Token>, p: Purpose) {
    forall i :: i in tokens && tokens[i].purpose == p ==> tokens[i].used
  }
}
