/** One-time tokens and the handlers that create, activate and let in users. */
module Accounts {
  import opened Basics
  import opened Text

  type Id = string

  datatype Purpose = Unspecified | EmailVerification | AccountActivation | PasswordReset

  datatype ResetToken = ResetToken(purpose: Purpose, userID: Id, expiresAt: Time, usedAt: Option<Time>)

  type Tokens = map<string, ResetToken>

  /** `purposeMatches`: a record without a purpose passes everywhere. */
  predicate PurposeMatches(actual: Purpose, expected: set<Purpose>) {
    actual == Unspecified || actual in expected
  }

  /** `ConsumePasswordResetToken` accepts an unused token up to and including its expiry instant. */
  predicate Consumable(m: Tokens, token: string, now: Instant) {
    var key := TrimSpace(token);
    key in m && m[key].usedAt.None? && now <= m[key].expiresAt
  }

  /** A refused token is dropped, an accepted one is marked as used. */
  function AfterConsume(m: Tokens, token: string, now: Instant): Tokens {
    var key := TrimSpace(token);
    if Consumable(m, token, now) then m[key := m[key].(usedAt := Some(now))] else m - {key}
  }

  class TokenStore {
    var passwordResetTokens: Tokens

    constructor ()
      ensures passwordResetTokens == map[]
    {
      passwordResetTokens := map[];
    }

    method CreatePasswordResetToken(token: string, rec: ResetToken) returns (r: Result<ResetToken, StoreError>)
      modifies this
      ensures if TrimSpace(token) == "" || TrimSpace(rec.userID) == ""
              then r == Err(ForbiddenState) && passwordResetTokens == old(passwordResetTokens)
              else r == Ok(rec) && passwordResetTokens == old(passwordResetTokens)[TrimSpace(token) := rec]
    {
      var key := TrimSpace(token);
      if key == "" || TrimSpace(rec.userID) == "" {
        return Err(ForbiddenState);
      }
      passwordResetTokens := passwordResetTokens[key := rec];
      return Ok(rec);
    }

    method ConsumePasswordResetToken(token: string, now: Instant) returns (r: Result<ResetToken, StoreError>)
      modifies this
      ensures passwordResetTokens == AfterConsume(old(passwordResetTokens), token, now)
      ensures r == if Consumable(old(passwordResetTokens), token, now) then Ok(passwordResetTokens[TrimSpace(token)])
                   else Err(NotFound)
    {
      var key := TrimSpace(token);
      if key !in passwordResetTokens {
        assert passwordResetTokens - {key} == passwordResetTokens;
        return Err(NotFound);
      }
      var rec := passwordResetTokens[key];
      if rec.usedAt.Some? || rec.expiresAt < now {
        passwordResetTokens := passwordResetTokens - {key};
        return Err(NotFound);
      }
      rec := rec.(usedAt := Some(now));
      passwordResetTokens := passwordResetTokens[key := rec];
      return Ok(rec);
    }
  }

  // --------------------------------------------------------------- handlers

  /** How an account came into being; seeded accounts are active from the start. */
  datatype Origin = Seeded | SelfRegistered | Invited

  datatype User = User(origin: Origin, attivo: bool, emailVerificata: bool, passwordHash: string)

  datatype Endpoint = AtVerifyEmail | AtResetPassword

  datatype Event =
    | Issued(token: string, user: Id, purpose: Purpose)
    | Consumed(token: string, at: Endpoint)
    | LoggedIn(user: Id)

  /** The user and token maps, and the history of tokens and logins. */
  datatype World = World(users: map<Id, User>, byEmail: map<string, Id>, tokens: Tokens, trace: seq<Event>)

  /** Requests that got past the checks on their own text; new ids, hashes and tokens come from outside. A hash is
      empty when bcrypt refused the password, as it does beyond 72 bytes. */
  datatype Action =
    | Register(email: string, hash: string, newId: Id, token: string, ttl: nat)
    | InviteOperatore(email: string, hash: string, newId: Id, token: string)
    | ForgotPassword(email: string, token: string)
    | ResetPassword(token: string, hash: string)
    | VerifyEmail(token: string)
    | Login(email: string, credentialsOk: bool, otpOk: bool)

  const MINUTE: nat := 60 * 1_000_000_000

  predicate Active(w: World, user: Id) {
    user in w.users && w.users[user].attivo && w.users[user].emailVerificata
  }

  function Issue(w: World, token: string, user: Id, purpose: Purpose, expiresAt: Time): World {
    w.(tokens := w.tokens[token := ResetToken(purpose, user, expiresAt, None)],
       trace := w.trace + [Issued(token, user, purpose)])
  }

  function NewUser(w: World, email: string, id: Id, origin: Origin, hash: string): World {
    w.(users := w.users[id := User(origin, false, false, hash)], byEmail := w.byEmail[email := id])
  }

  function Activate(w: World, user: Id): World {
    if user in w.users then w.(users := w.users[user := w.users[user].(attivo := true, emailVerificata := true)]) else w
  }

  predicate CanLogin(w: World, email: string, credentialsOk: bool, otpOk: bool) {
    email in w.byEmail && w.byEmail[email] in w.users && w.users[w.byEmail[email]].passwordHash != ""
    && credentialsOk && Active(w, w.byEmail[email]) && otpOk
  }

  /** Consume first, look at the purpose afterwards. */
  function Consume(w: World, token: string, endpoint: Endpoint, now: Instant): World {
    w.(tokens := AfterConsume(w.tokens, token, now),
       trace := if Consumable(w.tokens, token, now) then w.trace + [Consumed(TrimSpace(token), endpoint)] else w.trace)
  }

  function Next(w: World, a: Action, now: Instant): World {
    match a
    case Register(email, hash, newId, token, ttl) =>
      if email in w.byEmail then w
      else Issue(NewUser(w, email, newId, SelfRegistered, hash), token, newId, EmailVerification, now + ttl)
    case InviteOperatore(email, hash, newId, token) =>
      if email in w.byEmail then w
      else Issue(NewUser(w, email, newId, Invited, hash), token, newId, AccountActivation, now + 72 * 60 * MINUTE)
    case ForgotPassword(email, token) =>
      if email in w.byEmail then Issue(w, token, w.byEmail[email], PasswordReset, now + 30 * MINUTE) else w
    case ResetPassword(token, hash) =>
      var w' := Consume(w, token, AtResetPassword, now);
      if !Consumable(w.tokens, token, now) then w'
      else
        var rec := w.tokens[TrimSpace(token)];
        if !PurposeMatches(rec.purpose, {PasswordReset, AccountActivation}) then w'
        else if rec.userID !in w'.users || hash == "" then w'
        else
          var w'' := w'.(users := w'.users[rec.userID := w'.users[rec.userID].(passwordHash := hash)]);
          if rec.purpose == AccountActivation then Activate(w'', rec.userID) else w''
    case VerifyEmail(token) =>
      var w' := Consume(w, token, AtVerifyEmail, now);
      if !Consumable(w.tokens, token, now) then w'
      else
        var rec := w.tokens[TrimSpace(token)];
        if PurposeMatches(rec.purpose, {EmailVerification}) then Activate(w', rec.userID) else w'
    case Login(email, credentialsOk, otpOk) =>
      if CanLogin(w, email, credentialsOk, otpOk) then w.(trace := w.trace + [LoggedIn(w.byEmail[email])]) else w
  }

  predicate WasIssued(trace: seq<Event>, token: string) {
    exists e <- trace :: e.Issued? && e.token == token
  }

  predicate FreshToken(w: World, token: string) {
    TrimSpace(token) == token && token != "" && token !in w.tokens && !WasIssued(w.trace, token)
  }

  predicate FreshId(w: World, id: Id) {
    TrimSpace(id) == id && id != "" && id !in w.users
  }

  predicate Possible(w: World, a: Action) {
    match a
    case Register(_, _, newId, token, _) => FreshId(w, newId) && FreshToken(w, token)
    case InviteOperatore(_, _, newId, token) => FreshId(w, newId) && FreshToken(w, token)
    case ForgotPassword(_, token) => FreshToken(w, token)
    case _ => true
  }

  datatype Timed = Timed(action: Action, at: Instant)

  function Run(w: World, run: seq<Timed>): World {
    if run == [] then w else Next(Run(w, run[..|run| - 1]), run[|run| - 1].action, run[|run| - 1].at)
  }

  function ClockAfter(clock: Time, run: seq<Timed>): Time {
    if run == [] then clock else run[|run| - 1].at
  }

  predicate Legal(w: World, clock: Time, run: seq<Timed>) {
    run == [] ||
    (var init, last := run[..|run| - 1], run[|run| - 1];
     Legal(w, clock, init) && ClockAfter(clock, init) <= last.at && Possible(Run(w, init), last.action))
  }

  /** The start: seeded accounts only, no tokens, nothing happened yet. */
  predicate Start(w: World) {
    && (forall u <- w.users :: w.users[u].origin == Seeded)
    && (forall email <- w.byEmail :: w.byEmail[email] in w.users)
    && w.tokens == map[] && w.trace == []
  }

  // ------------------------------------------------------------- activation

  function Required(origin: Origin): Purpose
    requires origin != Seeded
  {
    if origin == SelfRegistered then EmailVerification else AccountActivation
  }

  function Door(purpose: Purpose): Endpoint {
    if purpose == EmailVerification then AtVerifyEmail else AtResetPassword
  }

  /** Before position `n` a token of this purpose was issued to the user and then consumed where it belongs. */
  ghost predicate Unlocked(trace: seq<Event>, n: nat, user: Id, purpose: Purpose)
    requires n <= |trace|
  {
    exists i, j | 0 <= i < j < n ::
      trace[i].Issued? && trace[i].user == user && trace[i].purpose == purpose
      && trace[j] == Consumed(trace[i].token, Door(purpose))
  }

  ghost predicate TokenSound(w: World, token: string)
    requires token in w.tokens
  {
    var rec := w.tokens[token];
    && rec.userID in w.users && rec.purpose != Unspecified
    && Issued(token, rec.userID, rec.purpose) in w.trace
    && (rec.purpose == EmailVerification ==> w.users[rec.userID].origin == SelfRegistered)
    && (rec.purpose == AccountActivation ==> w.users[rec.userID].origin == Invited)
  }

  ghost predicate UserSound(w: World, user: Id)
    requires user in w.users
  {
    w.users[user].origin != Seeded && w.users[user].attivo && w.users[user].emailVerificata
    ==> Unlocked(w.trace, |w.trace|, user, Required(w.users[user].origin))
  }

  ghost predicate LoginSound(w: World, k: nat)
    requires k < |w.trace|
  {
    w.trace[k].LoggedIn? ==>
      && w.trace[k].user in w.users
      && var origin := w.users[w.trace[k].user].origin;
         origin != Seeded ==> Unlocked(w.trace, k, w.trace[k].user, Required(origin))
  }

  ghost predicate WorldSound(w: World) {
    && (forall t {:trigger TokenSound(w, t)} :: t in w.tokens ==> TokenSound(w, t))
    && (forall u {:trigger UserSound(w, u)} :: u in w.users ==> UserSound(w, u))
    && (forall k: nat {:trigger LoginSound(w, k)} :: k < |w.trace| ==> LoginSound(w, k))
    && (forall email <- w.byEmail :: w.byEmail[email] in w.users)
  }

  lemma StillUnlocked(trace: seq<Event>, n: nat, more: seq<Event>, user: Id, purpose: Purpose)
    requires n <= |trace|
    ensures Unlocked(trace, n, user, purpose) <==> Unlocked(trace + more, n, user, purpose)
    ensures Unlocked(trace, n, user, purpose) ==> Unlocked(trace + more, |trace + more|, user, purpose)
  {
    var t := trace + more;
    if Unlocked(trace, n, user, purpose) {
      var i, j :| 0 <= i < j < n && trace[i].Issued? && trace[i].user == user && trace[i].purpose == purpose
                  && trace[j] == Consumed(trace[i].token, Door(purpose));
      assert t[i] == trace[i] && t[j] == trace[j];
    }
    if Unlocked(t, n, user, purpose) {
      var i, j :| 0 <= i < j < n && t[i].Issued? && t[i].user == user && t[i].purpose == purpose
                  && t[j] == Consumed(t[i].token, Door(purpose));
      assert t[i] == trace[i] && t[j] == trace[j];
    }
  }

  /** Users are never removed, keep their origin, and the trace only grows. */
  ghost predicate Extends(w: World, w': World) {
    && w.trace <= w'.trace
    && (forall u <- w.users :: u in w'.users && w'.users[u].origin == w.users[u].origin)
  }

  lemma LoginStaysSound(w: World, w': World, k: nat)
    requires Extends(w, w') && k < |w.trace| && LoginSound(w, k)
    ensures LoginSound(w', k)
  {
    if w.trace[k].LoggedIn? && w.users[w.trace[k].user].origin != Seeded {
      StillUnlocked(w.trace, k, w'.trace[|w.trace|..], w.trace[k].user, Required(w.users[w.trace[k].user].origin));
      assert w.trace + w'.trace[|w.trace|..] == w'.trace;
    }
  }

  lemma UserStaysSound(w: World, w': World, u: Id)
    requires Extends(w, w') && u in w.users && UserSound(w, u)
    requires Active(w', u) ==> Active(w, u)
    ensures UserSound(w', u)
  {
    if Active(w, u) && w.users[u].origin != Seeded {
      StillUnlocked(w.trace, |w.trace|, w'.trace[|w.trace|..], u, Required(w.users[u].origin));
      assert w.trace + w'.trace[|w.trace|..] == w'.trace;
    }
  }

  lemma TokenStaysSound(w: World, w': World, token: string)
    requires Extends(w, w') && token in w.tokens && TokenSound(w, token)
    requires token in w'.tokens && w'.tokens[token].purpose == w.tokens[token].purpose
             && w'.tokens[token].userID == w.tokens[token].userID
    ensures TokenSound(w', token)
  {
    assert Issued(token, w.tokens[token].userID, w.tokens[token].purpose) in w.trace;
  }

  /** Consuming a token at the endpoint its purpose belongs to unlocks its user. */
  lemma ConsumptionUnlocks(w: World, token: string, now: Instant)
    requires WorldSound(w) && Consumable(w.tokens, token, now)
    ensures var rec := w.tokens[TrimSpace(token)];
            var w' := Consume(w, token, Door(rec.purpose), now);
            Unlocked(w'.trace, |w'.trace|, rec.userID, rec.purpose)
  {
    var key := TrimSpace(token);
    assert TokenSound(w, key);
    var rec := w.tokens[key];
    var w' := Consume(w, token, Door(rec.purpose), now);
    var i :| 0 <= i < |w.trace| && w.trace[i] == Issued(key, rec.userID, rec.purpose);
    assert w'.trace[i] == w.trace[i] && w'.trace[|w.trace|] == Consumed(key, Door(rec.purpose));
  }

  function EndpointOf(a: Action): Endpoint
    requires a.ResetPassword? || a.VerifyEmail?
  {
    if a.VerifyEmail? then AtVerifyEmail else AtResetPassword
  }

  /** What presenting a token does: it is consumed or dropped, and at most its own user becomes active, by a
      token that belongs to the endpoint or has no purpose. */
  ghost predicate Presented(w: World, w': World, token: string, endpoint: Endpoint, now: Instant) {
    var key := TrimSpace(token);
    && w'.tokens == AfterConsume(w.tokens, token, now) && w'.byEmail == w.byEmail && Extends(w, w')
    && w'.trace == Consume(w, token, endpoint, now).trace && w'.users.Keys == w.users.Keys
    && forall u <- w.users :: Active(w', u) && !Active(w, u) ==>
         && Consumable(w.tokens, token, now) && w.tokens[key].userID == u
         && w.tokens[key].purpose in {Unspecified, EmailVerification, AccountActivation}
         && (w.tokens[key].purpose != Unspecified ==> Door(w.tokens[key].purpose) == endpoint)
  }

  lemma VerifyShape(w: World, token: string, now: Instant)
    ensures Presented(w, Next(w, VerifyEmail(token), now), token, AtVerifyEmail, now)
  {
  }

  lemma ResetShape(w: World, token: string, hash: string, now: Instant)
    ensures Presented(w, Next(w, ResetPassword(token, hash), now), token, AtResetPassword, now)
  {
  }

  lemma TokenActionShape(w: World, a: Action, now: Instant)
    requires a.ResetPassword? || a.VerifyEmail?
    ensures Presented(w, Next(w, a, now), a.token, EndpointOf(a), now)
  {
    if a.VerifyEmail? {
      VerifyShape(w, a.token, now);
    } else {
      ResetShape(w, a.token, a.hash, now);
    }
  }

  lemma TokenActionKeepsTokens(w: World, a: Action, now: Instant, t: string)
    requires WorldSound(w) && (a.ResetPassword? || a.VerifyEmail?) && t in Next(w, a, now).tokens
    ensures TokenSound(Next(w, a, now), t)
  {
    TokenActionShape(w, a, now);
    assert t in w.tokens;
    TokenStaysSound(w, Next(w, a, now), t);
  }

  lemma TokenActionKeepsUsers(w: World, a: Action, now: Instant, u: Id)
    requires WorldSound(w) && (a.ResetPassword? || a.VerifyEmail?) && u in w.users
    ensures u in Next(w, a, now).users && UserSound(Next(w, a, now), u)
  {
    TokenActionShape(w, a, now);
    if Active(Next(w, a, now), u) && !Active(w, u) {
      assert TokenSound(w, TrimSpace(a.token));
      ConsumptionUnlocks(w, a.token, now);
    } else {
      UserStaysSound(w, Next(w, a, now), u);
    }
  }

  lemma TokenActionSound(w: World, a: Action, now: Instant)
    requires WorldSound(w) && (a.ResetPassword? || a.VerifyEmail?)
    ensures WorldSound(Next(w, a, now))
  {
    var w' := Next(w, a, now);
    TokenActionShape(w, a, now);
    forall t <- w'.tokens ensures TokenSound(w', t) { TokenActionKeepsTokens(w, a, now, t); }
    forall u <- w'.users ensures UserSound(w', u) { TokenActionKeepsUsers(w, a, now, u); }
    forall k: nat | k < |w'.trace| ensures LoginSound(w', k) {
      if k < |w.trace| { LoginStaysSound(w, w', k); }
    }
  }

  lemma LoginIsSound(w: World, user: Id)
    requires WorldSound(w) && Active(w, user)
    ensures LoginSound(w.(trace := w.trace + [LoggedIn(user)]), |w.trace|)
  {
    assert UserSound(w, user);
    if w.users[user].origin != Seeded {
      StillUnlocked(w.trace, |w.trace|, [LoggedIn(user)], user, Required(w.users[user].origin));
    }
  }

  lemma OtherActionKeepsLogins(w: World, a: Action, now: Instant, k: nat)
    requires WorldSound(w) && Possible(w, a) && !a.ResetPassword? && !a.VerifyEmail?
    requires Extends(w, Next(w, a, now)) && k < |Next(w, a, now).trace|
    ensures LoginSound(Next(w, a, now), k)
  {
    if k < |w.trace| {
      LoginStaysSound(w, Next(w, a, now), k);
    } else if Next(w, a, now).trace[k].LoggedIn? {
      LoginIsSound(w, w.byEmail[a.email]);
    }
  }

  lemma OtherActionSound(w: World, a: Action, now: Instant)
    requires WorldSound(w) && Possible(w, a) && !a.ResetPassword? && !a.VerifyEmail?
    ensures WorldSound(Next(w, a, now))
  {
    var w' := Next(w, a, now);
    assert Extends(w, w');
    forall t <- w'.tokens ensures TokenSound(w', t) {
      if t in w.tokens { TokenStaysSound(w, w', t); }
    }
    forall u <- w'.users ensures UserSound(w', u) {
      if u in w.users { UserStaysSound(w, w', u); }
    }
    forall k: nat | k < |w'.trace| ensures LoginSound(w', k) { OtherActionKeepsLogins(w, a, now, k); }
  }

  lemma {:induction false} RunSound(w: World, run: seq<Timed>)
    requires Start(w) && Legal(w, 0, run)
    ensures WorldSound(Run(w, run))
  {
    if run != [] {
      var init, last := run[..|run| - 1], run[|run| - 1];
      RunSound(w, init);
      if last.action.ResetPassword? || last.action.VerifyEmail? {
        TokenActionSound(Run(w, init), last.action, last.at);
      } else {
        OtherActionSound(Run(w, init), last.action, last.at);
      }
    }
  }

  /** No run logs in a self-registered user before an email verification token issued to that user was consumed
      at the verification endpoint, nor an invited operator before an activation token issued to them was
      consumed at the password endpoint. */
  lemma NoLoginBeforeActivation(w: World, run: seq<Timed>, k: nat)
    requires Start(w) && Legal(w, 0, run)
    requires k < |Run(w, run).trace| && Run(w, run).trace[k].LoggedIn?
    ensures var w' := Run(w, run);
            var user := w'.trace[k].user;
            && user in w'.users
            && (w'.users[user].origin == SelfRegistered ==> Unlocked(w'.trace, k, user, EmailVerification))
            && (w'.users[user].origin == Invited ==> Unlocked(w'.trace, k, user, AccountActivation))
  {
    RunSound(w, run);
    assert LoginSound(Run(w, run), k);
  }

  /** A password reset token never activates anybody, at either endpoint. */
  lemma PasswordResetNeverActivates(w: World, a: Action, now: Instant, user: Id)
    requires a.ResetPassword? || a.VerifyEmail?
    requires Consumable(w.tokens, a.token, now) && w.tokens[TrimSpace(a.token)].purpose == PasswordReset
    ensures Active(Next(w, a, now), user) <==> Active(w, user)
  {
  }

  // ----------------------------------------------------------------- logins

  /** A wrong password or a wrong one-time code lets nobody in and leaves no trace. */
  lemma WrongCredentialsRefused(w: World, email: string, credentialsOk: bool, otpOk: bool, now: Instant)
    requires !credentialsOk || !otpOk
    ensures Next(w, Login(email, credentialsOk, otpOk), now) == w
  {
  }

  /** With both, exactly the active user of that e-mail who has a password gets in. */
  lemma RightCredentialsLetIn(w: World, email: string, now: Instant)
    ensures var w' := Next(w, Login(email, true, true), now);
            if email in w.byEmail && Active(w, w.byEmail[email]) && w.users[w.byEmail[email]].passwordHash != ""
            then w' == w.(trace := w.trace + [LoggedIn(w.byEmail[email])])
            else w' == w
  {
  }

  /** The requests that were answered with a login, in order, each with its user. */
  ghost predicate MadeByLogin(w: World, run: seq<Timed>, k: nat)
    requires k < |Run(w, run).trace|
  {
    exists i | 0 <= i < |run| ::
      && run[i].action.Login? && run[i].action.credentialsOk && run[i].action.otpOk
      && var before := Run(w, run[..i]);
         && |before.trace| == k && run[i].action.email in before.byEmail
         && Run(w, run).trace[k] == LoggedIn(before.byEmail[run[i].action.email])
         && Active(before, before.byEmail[run[i].action.email])
         && before.users[before.byEmail[run[i].action.email]].passwordHash != ""
  }

  lemma TraceGrows(w: World, a: Action, now: Instant)
    ensures var t, t' := w.trace, Next(w, a, now).trace;
            t' == t || (|t'| == |t| + 1 && t <= t' && (t'[|t|].LoggedIn? ==> a.Login?))
  {
    if a.ResetPassword? || a.VerifyEmail? {
      TokenActionShape(w, a, now);
    } else {
      OtherActionShape(w, a, now);
    }
  }

  /** Every login in the history was answered to a request with the right password and the right code, for the
      user of its e-mail, who was active and had a password just then. */
  lemma {:induction false} EveryLoginHasCredentials(w: World, run: seq<Timed>, k: nat)
    requires Start(w) && k < |Run(w, run).trace| && Run(w, run).trace[k].LoggedIn?
    ensures MadeByLogin(w, run, k)
  {
    assert run != [];
    var init, last := run[..|run| - 1], run[|run| - 1];
    var w' := Run(w, init);
    TraceGrows(w', last.action, last.at);
    if k < |w'.trace| {
      EveryLoginHasCredentials(w, init, k);
      var i :| 0 <= i < |init| && init[i].action.Login? && init[i].action.credentialsOk && init[i].action.otpOk
               && |Run(w, init[..i]).trace| == k && init[i].action.email in Run(w, init[..i]).byEmail
               && w'.trace[k] == LoggedIn(Run(w, init[..i]).byEmail[init[i].action.email])
               && Active(Run(w, init[..i]), Run(w, init[..i]).byEmail[init[i].action.email])
               && Run(w, init[..i]).users[Run(w, init[..i]).byEmail[init[i].action.email]].passwordHash != "";
      assert run[..i] == init[..i] && run[i] == init[i];
    } else {
      LastLogin(w, run);
    }
  }

  lemma LastLogin(w: World, run: seq<Timed>)
    requires run != []
    requires var w' := Run(w, run[..|run| - 1]);
             |Run(w, run).trace| == |w'.trace| + 1 && Run(w, run).trace[|w'.trace|].LoggedIn?
    ensures MadeByLogin(w, run, |Run(w, run[..|run| - 1]).trace|)
  {
    var i := |run| - 1;
    var w', a := Run(w, run[..i]), run[i].action;
    TraceGrows(w', a, run[i].at);
    if a.credentialsOk && a.otpOk {
      RightCredentialsLetIn(w', a.email, run[i].at);
    } else {
      WrongCredentialsRefused(w', a.email, a.credentialsOk, a.otpOk, run[i].at);
    }
  }

  // -------------------------------------------------------------- used once

  function Uses(trace: seq<Event>, token: string): nat {
    if trace == [] then 0
    else Uses(trace[..|trace| - 1], token)
         + if trace[|trace| - 1].Consumed? && trace[|trace| - 1].token == token then 1 else 0
  }

  lemma UsesOneMore(trace: seq<Event>, e: Event, token: string)
    ensures Uses(trace + [e], token) == Uses(trace, token) + if e.Consumed? && e.token == token then 1 else 0
  {
    assert (trace + [e])[..|trace|] == trace;
  }

  /** What is left of a token: unused only while it is stored and was never consumed. */
  ghost predicate UsesSound(w: World, token: string) {
    && Uses(w.trace, token) <= 1
    && (!WasIssued(w.trace, token) ==> token !in w.tokens && Uses(w.trace, token) == 0)
    && (token in w.tokens && w.tokens[token].usedAt.None? ==> Uses(w.trace, token) == 0)
  }

  lemma IssuedOneMore(trace: seq<Event>, e: Event, token: string)
    ensures WasIssued(trace + [e], token) <==> WasIssued(trace, token) || (e.Issued? && e.token == token)
  {
    assert (trace + [e])[|trace|] == e;
  }

  /** Every other handler issues at most one fresh token and touches no stored one. */
  lemma OtherActionShape(w: World, a: Action, now: Instant)
    requires !a.ResetPassword? && !a.VerifyEmail?
    ensures var w' := Next(w, a, now);
            || (w'.tokens == w.tokens && (w'.trace == w.trace || exists u :: w'.trace == w.trace + [LoggedIn(u)]))
            || (!a.Login? && a.token in w'.tokens && w'.tokens == w.tokens[a.token := w'.tokens[a.token]]
                && exists u, p :: w'.trace == w.trace + [Issued(a.token, u, p)])
  {
    var w' := Next(w, a, now);
    if w'.trace != w.trace {
      match a {
        case Register(_, _, newId, token, _) =>
          assert w'.trace == w.trace + [Issued(token, newId, EmailVerification)];
        case InviteOperatore(_, _, newId, token) =>
          assert w'.trace == w.trace + [Issued(token, newId, AccountActivation)];
        case ForgotPassword(email, token) =>
          assert w'.trace == w.trace + [Issued(token, w.byEmail[email], PasswordReset)];
        case Login(email, _, _) =>
          assert w'.trace == w.trace + [LoggedIn(w.byEmail[email])];
      }
    }
  }

  lemma PresentedUses(w: World, w': World, text: string, endpoint: Endpoint, now: Instant, token: string)
    requires UsesSound(w, token) && Presented(w, w', text, endpoint, now)
    ensures UsesSound(w', token)
  {
    var e := Consumed(TrimSpace(text), endpoint);
    UsesOneMore(w.trace, e, token);
    IssuedOneMore(w.trace, e, token);
  }

  lemma OtherUses(w: World, a: Action, now: Instant, token: string)
    requires UsesSound(w, token) && Possible(w, a) && !a.ResetPassword? && !a.VerifyEmail?
    ensures UsesSound(Next(w, a, now), token)
  {
    var w' := Next(w, a, now);
    OtherActionShape(w, a, now);
    if w'.trace != w.trace {
      var e := w'.trace[|w.trace|];
      UsesOneMore(w.trace, e, token);
      IssuedOneMore(w.trace, e, token);
    }
  }

  lemma {:induction false} NextUses(w: World, a: Action, now: Instant, token: string)
    requires UsesSound(w, token) && Possible(w, a)
    ensures UsesSound(Next(w, a, now), token)
  {
    if a.ResetPassword? || a.VerifyEmail? {
      TokenActionShape(w, a, now);
      PresentedUses(w, Next(w, a, now), a.token, EndpointOf(a), now, token);
    } else {
      OtherUses(w, a, now, token);
    }
  }

  /** Over any run a token is consumed successfully at most once. */
  lemma {:induction false} ConsumedAtMostOnce(w: World, run: seq<Timed>, token: string)
    requires Start(w) && Legal(w, 0, run)
    ensures Uses(Run(w, run).trace, token) <= 1 && UsesSound(Run(w, run), token)
  {
    if run != [] {
      var init, last := run[..|run| - 1], run[|run| - 1];
      ConsumedAtMostOnce(w, init, token);
      NextUses(Run(w, init), last.action, last.at, token);
    }
  }

  // ----------------------------------------------------- a token spent in vain

  /** An inactive user without any unused, unexpired token that could activate the account. */
  ghost predicate Stranded(w: World, user: Id, clock: Time) {
    && user in w.users && !Active(w, user)
    && forall t <- w.tokens :: w.tokens[t].userID == user ==>
         w.tokens[t].purpose == PasswordReset || w.tokens[t].usedAt.Some? || w.tokens[t].expiresAt < clock
  }

  lemma StrandedStays(w: World, user: Id, clock: Time, a: Action, now: Instant)
    requires Stranded(w, user, clock) && clock <= now && Possible(w, a)
    ensures Stranded(Next(w, a, now), user, now)
    ensures var t, t' := w.trace, Next(w, a, now).trace;
            t' == t || (|t'| == |t| + 1 && t <= t' && t'[|t|] != LoggedIn(user))
  {
    if a.ResetPassword? || a.VerifyEmail? {
      TokenActionShape(w, a, now);
    }
  }

  /** Nobody gets a second activation token: once it is used up at the wrong endpoint or expired, no run of
      handler calls ever lets the user in. */
  lemma {:induction false} StrandedForGood(w: World, user: Id, clock: Time, run: seq<Timed>)
    requires Stranded(w, user, clock) && Legal(w, clock, run)
    ensures Stranded(Run(w, run), user, ClockAfter(clock, run))
    ensures w.trace <= Run(w, run).trace && LoggedIn(user) !in Run(w, run).trace[|w.trace|..]
  {
    if run != [] {
      var init, last := run[..|run| - 1], run[|run| - 1];
      StrandedForGood(w, user, clock, init);
      StrandedStays(Run(w, init), user, ClockAfter(clock, init), last.action, last.at);
      var t, t' := Run(w, init).trace, Run(w, run).trace;
      assert t' == t || t' == t + [t'[|t|]];
    }
  }

  // ---------------------------------------------- exactly who can still get in

  /** Nobody is ever issued a second token that could activate the account. */
  ghost predicate OneActivationEach(trace: seq<Event>) {
    forall i, j | 0 <= i < j < |trace| && trace[i].Issued? && trace[j].Issued?
                  && trace[i].purpose != PasswordReset && trace[j].purpose != PasswordReset ::
      trace[i].user != trace[j].user
  }

  ghost predicate HasEmail(w: World, user: Id) {
    exists email <- w.byEmail :: w.byEmail[email] == user
  }

  /** What else holds in every reachable world. */
  ghost predicate Orderly(w: World) {
    && OneActivationEach(w.trace)
    && (forall e <- w.trace :: e.Issued? ==> e.user in w.users)
    && (forall t <- w.tokens :: TrimSpace(t) == t)
    && (forall u <- w.users :: w.users[u].origin != Seeded ==> HasEmail(w, u))
  }

  lemma OneMoreIssued(trace: seq<Event>, e: Event)
    requires OneActivationEach(trace)
    requires e.Issued? && e.purpose != PasswordReset ==> forall f <- trace :: f.Issued? ==> f.user != e.user
    ensures OneActivationEach(trace + [e])
  {
  }

  lemma TokenActionOrderly(w: World, a: Action, now: Instant)
    requires Orderly(w) && (a.ResetPassword? || a.VerifyEmail?)
    ensures Orderly(Next(w, a, now))
  {
    var w' := Next(w, a, now);
    TokenActionShape(w, a, now);
    OneMoreIssued(w.trace, Consumed(TrimSpace(a.token), EndpointOf(a)));
    forall u <- w'.users | w'.users[u].origin != Seeded ensures HasEmail(w', u) {
      assert HasEmail(w, u);
    }
  }

  lemma NewUserOrderly(w: World, email: string, id: Id, origin: Origin, hash: string, token: string, purpose: Purpose,
                       expiresAt: Time)
    requires Orderly(w) && email !in w.byEmail && id !in w.users && FreshToken(w, token)
    ensures Orderly(Issue(NewUser(w, email, id, origin, hash), token, id, purpose, expiresAt))
  {
    var w' := Issue(NewUser(w, email, id, origin, hash), token, id, purpose, expiresAt);
    OneMoreIssued(w.trace, Issued(token, id, purpose));
    forall u <- w'.users | w'.users[u].origin != Seeded ensures HasEmail(w', u) {
      if u == id {
        assert w'.byEmail[email] == u;
      } else {
        var e :| e in w.byEmail && w.byEmail[e] == u;
        assert w'.byEmail[e] == u;
      }
    }
  }

  lemma NextOrderly(w: World, a: Action, now: Instant)
    requires WorldSound(w) && Orderly(w) && Possible(w, a)
    ensures Orderly(Next(w, a, now))
  {
    match a {
      case Register(email, hash, newId, token, ttl) =>
        if email !in w.byEmail {
          NewUserOrderly(w, email, newId, SelfRegistered, hash, token, EmailVerification, now + ttl);
        }
      case InviteOperatore(email, hash, newId, token) =>
        if email !in w.byEmail {
          NewUserOrderly(w, email, newId, Invited, hash, token, AccountActivation, now + 72 * 60 * MINUTE);
        }
      case ForgotPassword(email, token) =>
        if email in w.byEmail { ResetOrderly(w, email, token, now + 30 * MINUTE); }
      case Login(email, _, _) =>
        if email in w.byEmail { LoginOrderly(w, w.byEmail[email]); }
      case _ => TokenActionOrderly(w, a, now);
    }
  }

  lemma ResetOrderly(w: World, email: string, token: string, expiresAt: Time)
    requires WorldSound(w) && Orderly(w) && email in w.byEmail && FreshToken(w, token)
    ensures Orderly(Issue(w, token, w.byEmail[email], PasswordReset, expiresAt))
  {
    var w' := Issue(w, token, w.byEmail[email], PasswordReset, expiresAt);
    OneMoreIssued(w.trace, Issued(token, w.byEmail[email], PasswordReset));
    forall u <- w'.users | w'.users[u].origin != Seeded ensures HasEmail(w', u) { assert HasEmail(w, u); }
  }

  lemma LoginOrderly(w: World, user: Id)
    requires Orderly(w)
    ensures Orderly(w.(trace := w.trace + [LoggedIn(user)]))
  {
    var w' := w.(trace := w.trace + [LoggedIn(user)]);
    OneMoreIssued(w.trace, LoggedIn(user));
    forall u <- w'.users | w'.users[u].origin != Seeded ensures HasEmail(w', u) { assert HasEmail(w, u); }
  }

  lemma {:induction false} RunOrderly(w: World, run: seq<Timed>)
    requires Start(w) && Legal(w, 0, run)
    ensures WorldSound(Run(w, run)) && Orderly(Run(w, run))
  {
    RunSound(w, run);
    if run != [] {
      var init, last := run[..|run| - 1], run[|run| - 1];
      RunOrderly(w, init);
      NextOrderly(Run(w, init), last.action, last.at);
    }
  }

  /** A usable activation token is the only one its user ever had, and its user is not active yet. */
  lemma UnusedMeansInactive(w: World, token: string)
    requires WorldSound(w) && Orderly(w) && token in w.tokens && UsesSound(w, token)
    requires w.tokens[token].purpose != PasswordReset && w.tokens[token].usedAt.None?
    ensures var user := w.tokens[token].userID;
            && user in w.users && !Active(w, user)
            && forall t <- w.tokens :: t != token && w.tokens[t].userID == user ==> w.tokens[t].purpose == PasswordReset
  {
    var rec := w.tokens[token];
    assert TokenSound(w, token) && UserSound(w, rec.userID);
    forall t <- w.tokens | t != token && w.tokens[t].userID == rec.userID
      ensures w.tokens[t].purpose == PasswordReset {
      assert TokenSound(w, t);
    }
    if Active(w, rec.userID) {
      var i, j :| 0 <= i < j < |w.trace| && w.trace[i].Issued? && w.trace[i].user == rec.userID
                  && w.trace[i].purpose == rec.purpose && w.trace[j] == Consumed(w.trace[i].token, Door(rec.purpose));
      assert w.trace[i] == Issued(token, rec.userID, rec.purpose);
      UsedWhereConsumed(w.trace, j, token);
    }
  }

  lemma {:induction false} UsedWhereConsumed(trace: seq<Event>, j: nat, token: string)
    requires j < |trace| && trace[j].Consumed? && trace[j].token == token
    ensures Uses(trace, token) >= 1
  {
    if j < |trace| - 1 {
      UsedWhereConsumed(trace[..|trace| - 1], j, token);
    }
  }

  /** Presenting an activation token that is still good either activates its user or strands them for good: it
      activates exactly at the endpoint its purpose belongs to, and there only with a password that can be hashed. */
  lemma {:induction false} OneChance(w: World, run: seq<Timed>, a: Action, now: Instant)
    requires Start(w) && Legal(w, 0, run) && ClockAfter(0, run) <= now && (a.ResetPassword? || a.VerifyEmail?)
    requires var w' := Run(w, run); Consumable(w'.tokens, a.token, now)
    requires Run(w, run).tokens[TrimSpace(a.token)].purpose != PasswordReset
    ensures var rec, w' := Run(w, run).tokens[TrimSpace(a.token)], Next(Run(w, run), a, now);
            var taken := EndpointOf(a) == Door(rec.purpose) && (a.ResetPassword? ==> a.hash != "");
            && !Active(Run(w, run), rec.userID)
            && (Active(w', rec.userID) <==> taken)
            && (Stranded(w', rec.userID, now) <==> !taken)
  {
    var w', key := Run(w, run), TrimSpace(a.token);
    RunOrderly(w, run);
    ConsumedAtMostOnce(w, run, key);
    assert TokenSound(w', key);
    UnusedMeansInactive(w', key);
    TokenActionShape(w', a, now);
  }

  /** A good activation token presented at the endpoint it does not belong to is spent there, and no run of handler
      calls ever lets its user in. */
  lemma {:induction false} WrongEndpointStrands(w: World, run: seq<Timed>, a: Action, now: Instant)
    requires Start(w) && Legal(w, 0, run) && ClockAfter(0, run) <= now && (a.ResetPassword? || a.VerifyEmail?)
    requires var w' := Run(w, run);
             && Consumable(w'.tokens, a.token, now)
             && w'.tokens[TrimSpace(a.token)].purpose != PasswordReset
             && Door(w'.tokens[TrimSpace(a.token)].purpose) != EndpointOf(a)
    ensures Stranded(Next(Run(w, run), a, now), Run(w, run).tokens[TrimSpace(a.token)].userID, now)
  {
    OneChance(w, run, a, now);
  }

  /** Both ways to get there, in two requests: an invitation presented for verification, and a verification token
      presented as a password reset. */
  lemma StrandedInTwoSteps(w: World, email: string, hash: string, id: Id, token: string, ttl: nat, password: string,
                           at: Instant)
    requires Start(w) && email !in w.byEmail && FreshId(w, id) && FreshToken(w, token)
    ensures var run := [Timed(InviteOperatore(email, hash, id, token), at), Timed(VerifyEmail(token), at)];
            Legal(w, 0, run) && Stranded(Run(w, run), id, at)
    ensures var run := [Timed(Register(email, hash, id, token, ttl), at), Timed(ResetPassword(token, password), at)];
            Legal(w, 0, run) && Stranded(Run(w, run), id, at)
  {
    TwoSteps(w, Timed(InviteOperatore(email, hash, id, token), at), Timed(VerifyEmail(token), at));
    TwoSteps(w, Timed(Register(email, hash, id, token, ttl), at), Timed(ResetPassword(token, password), at));
  }

  lemma TwoSteps(w: World, s: Timed, t: Timed)
    ensures Run(w, [s, t]) == Next(Next(w, s.action, s.at), t.action, t.at)
    ensures Legal(w, 0, [s, t])
       <==> Possible(w, s.action) && s.at <= t.at && Possible(Next(w, s.action, s.at), t.action)
  {
    OneMoreStep(w, 0, [], s);
    OneMoreStep(w, 0, [s], t);
    assert [] + [s] == [s] && [s] + [t] == [s, t];
  }

  lemma OneMoreStep(w: World, clock: Time, run: seq<Timed>, step: Timed)
    ensures Run(w, run + [step]) == Next(Run(w, run), step.action, step.at)
    ensures Legal(w, clock, run + [step])
       <==> Legal(w, clock, run) && ClockAfter(clock, run) <= step.at && Possible(Run(w, run), step.action)
  {
    assert (run + [step])[..|run|] == run;
  }

  ghost predicate LoggedInSince(w: World, w': World, user: Id) {
    exists k :: |w.trace| <= k < |w'.trace| && w'.trace[k] == LoggedIn(user)
  }

  ghost predicate NeverActive(w: World, clock: Time, user: Id) {
    forall more :: Legal(w, clock, more) ==> !Active(Run(w, more), user)
  }

  ghost predicate NeverLetIn(w: World, clock: Time, user: Id) {
    forall more :: Legal(w, clock, more) ==> !LoggedInSince(w, Run(w, more), user)
  }

  /** Tokens of any length exist, so one that was never issued does. */
  function Letters(n: nat): (t: string)
    ensures |t| == n && forall c <- t :: c == 'a'
  {
    seq(n, _ => 'a')
  }

  function Longest(trace: seq<Event>): (n: nat)
    ensures forall e <- trace :: e.Issued? ==> |e.token| <= n
  {
    if trace == [] then 0
    else
      var n, e := Longest(trace[..|trace| - 1]), trace[|trace| - 1];
      assert forall f :: f in trace ==> f == e || f in trace[..|trace| - 1];
      if e.Issued? && |e.token| > n then |e.token| else n
  }

  lemma FreshTokenExists(w: World) returns (token: string)
    requires WorldSound(w)
    ensures FreshToken(w, token)
  {
    token := Letters(Longest(w.trace) + 1);
    assert token in w.tokens ==> TokenSound(w, token);
  }

  /** The request that makes use of an activation token. */
  function Activating(token: string, purpose: Purpose): Action {
    if purpose == EmailVerification then VerifyEmail(token) else ResetPassword(token, "new")
  }

  /** Once active, a user can set a new password and log in with it. */
  lemma ActiveGetsIn(w: World, clock: Instant, run: seq<Timed>, user: Id, email: string) returns (more: seq<Timed>)
    requires Legal(w, clock, run) && ClockAfter(clock, run) <= clock && |w.trace| <= |Run(w, run).trace|
    requires WorldSound(Run(w, run)) && Active(Run(w, run), user)
    requires email in Run(w, run).byEmail && Run(w, run).byEmail[email] == user
    ensures Legal(w, clock, more) && LoggedInSince(w, Run(w, more), user)
  {
    var token := FreshTokenExists(Run(w, run));
    var forgot, reset := Timed(ForgotPassword(email, token), clock), Timed(ResetPassword(token, "new"), clock);
    var login := Timed(Login(email, true, true), clock);
    var run1 := run + [forgot];
    var run2 := run1 + [reset];
    OneMoreStep(w, clock, run, forgot);
    OneMoreStep(w, clock, run1, reset);
    OneMoreStep(w, clock, run2, login);
    more := run2 + [login];
    NewPassword(Run(w, run), email, token, clock);
    assert Run(w, more).trace[|Run(w, run2).trace|] == LoggedIn(user);
  }

  lemma NewPassword(w: World, email: string, token: string, now: Instant)
    requires WorldSound(w) && FreshToken(w, token) && email in w.byEmail && Active(w, w.byEmail[email])
    ensures var w' := Next(Next(w, ForgotPassword(email, token), now), ResetPassword(token, "new"), now);
            && |w.trace| <= |w'.trace| && w'.byEmail == w.byEmail && CanLogin(w', email, true, true)
  {
  }

  lemma UsableActivates(w: World, token: string, now: Instant)
    requires WorldSound(w) && token in w.tokens && TrimSpace(token) == token && Consumable(w.tokens, token, now)
    requires w.tokens[token].purpose != PasswordReset
    ensures var rec := w.tokens[token]; Active(Next(w, Activating(token, rec.purpose), now), rec.userID)
  {
    assert TokenSound(w, token);
  }

  lemma {:induction false} StrandedIsNeverLetIn(w: World, clock: Time, user: Id)
    requires Stranded(w, user, clock)
    ensures NeverActive(w, clock, user) && NeverLetIn(w, clock, user)
  {
    forall more | Legal(w, clock, more)
      ensures !Active(Run(w, more), user) && !LoggedInSince(w, Run(w, more), user) {
      StrandedForGood(w, user, clock, more);
    }
  }

  /** With a token that is still good the user can be activated and let in. */
  lemma GoodTokenGetsIn(w: World, clock: Instant, token: string) returns (one: seq<Timed>, more: seq<Timed>)
    requires WorldSound(w) && Orderly(w) && token in w.tokens && w.tokens[token].purpose != PasswordReset
    requires w.tokens[token].usedAt.None? && clock <= w.tokens[token].expiresAt
    ensures var user := w.tokens[token].userID;
            && Legal(w, clock, one) && Active(Run(w, one), user)
            && Legal(w, clock, more) && LoggedInSince(w, Run(w, more), user)
  {
    var rec := w.tokens[token];
    var step := Timed(Activating(token, rec.purpose), clock);
    assert TokenSound(w, token);
    UsableActivates(w, token, clock);
    OneMoreStep(w, clock, [], step);
    one := [] + [step];
    TokenActionSound(w, step.action, clock);
    TokenActionShape(w, step.action, clock);
    assert HasEmail(w, rec.userID);
    var email :| email in w.byEmail && w.byEmail[email] == rec.userID;
    more := ActiveGetsIn(w, clock, one, rec.userID, email);
  }

  /** After any run, an inactive user is never activated, and never let in, if and only if they hold no activation
      token that is unused and has not expired. */
  lemma StrandedIff(w: World, run: seq<Timed>, user: Id)
    requires Start(w) && Legal(w, 0, run)
    requires user in Run(w, run).users && !Active(Run(w, run), user)
    ensures var w', clock := Run(w, run), ClockAfter(0, run);
            && (NeverActive(w', clock, user) <==> Stranded(w', user, clock))
            && (NeverLetIn(w', clock, user) <==> Stranded(w', user, clock))
  {
    var w', clock := Run(w, run), ClockAfter(0, run);
    RunOrderly(w, run);
    if Stranded(w', user, clock) {
      StrandedIsNeverLetIn(w', clock, user);
    } else {
      var t :| t in w'.tokens && w'.tokens[t].userID == user && w'.tokens[t].purpose != PasswordReset
               && w'.tokens[t].usedAt.None? && clock <= w'.tokens[t].expiresAt;
      assert run != [];
      var one, more := GoodTokenGetsIn(w', clock, t);
    }
  }

  // ------------------------------------------------------------- single calls

  /** A new user is inactive and gets one token, good to the end of its time: `ttl` for a registration, three days for
      an invitation. */
  lemma NewUserGetsAToken(w: World, email: string, hash: string, id: Id, token: string, ttl: nat, at: Instant,
                          t: Instant)
    requires email !in w.byEmail && FreshId(w, id) && FreshToken(w, token)
    ensures var w' := Next(w, Register(email, hash, id, token, ttl), at);
            && email in w'.byEmail && w'.byEmail[email] == id
            && id in w'.users && w'.users[id] == User(SelfRegistered, false, false, hash)
            && (Consumable(w'.tokens, token, t) <==> t <= at + ttl)
            && w'.users - {id} == w.users && w'.byEmail - {email} == w.byEmail && w'.tokens - {token} == w.tokens
    ensures var w' := Next(w, InviteOperatore(email, hash, id, token), at);
            && email in w'.byEmail && w'.byEmail[email] == id
            && id in w'.users && w'.users[id] == User(Invited, false, false, hash)
            && (Consumable(w'.tokens, token, t) <==> t <= at + 3 * 24 * 3600 * 1_000_000_000)
            && w'.users - {id} == w.users && w'.byEmail - {email} == w.byEmail && w'.tokens - {token} == w.tokens
  {
  }

  /** An e-mail in use is refused. */
  lemma TakenEmailRefused(w: World, email: string, hash: string, id: Id, token: string, ttl: nat, at: Instant)
    requires email in w.byEmail
    ensures Next(w, Register(email, hash, id, token, ttl), at) == w
    ensures Next(w, InviteOperatore(email, hash, id, token), at) == w
  {
  }

  /** A forgotten password can be set anew within half an hour, by whoever holds the token and for its user only; nobody
      is activated by it. */
  lemma ForgottenPasswordIsReset(w: World, email: string, token: string, hash: string, at: Instant, t: Instant)
    requires email in w.byEmail && w.byEmail[email] in w.users && FreshToken(w, token) && hash != "" && at <= t
    ensures var user := w.byEmail[email];
            var w' := Next(Next(w, ForgotPassword(email, token), at), ResetPassword(token, hash), t);
            && w'.users == (if t <= at + 1800 * 1_000_000_000 then w.users[user := w.users[user].(passwordHash := hash)]
                            else w.users)
            && w'.byEmail == w.byEmail
  {
  }

  /** An unknown e-mail gets no token. */
  lemma UnknownEmailGetsNothing(w: World, email: string, token: string, at: Instant)
    requires email !in w.byEmail
    ensures Next(w, ForgotPassword(email, token), at) == w
  {
  }

  /** Presenting a token touches no other user, and no other token. */
  ghost predicate TouchesOneUser(w: World, w': World, token: string, now: Instant) {
    var key := TrimSpace(token);
    && w'.tokens - {key} == w.tokens - {key} && w'.users.Keys == w.users.Keys
    && (forall u <- w.users | w'.users[u] != w.users[u] ::
          Consumable(w.tokens, token, now) && w.tokens[key].userID == u && w'.users[u].origin == w.users[u].origin)
  }

  lemma VerifyTouchesOneUser(w: World, token: string, now: Instant)
    ensures var w' := Next(w, VerifyEmail(token), now);
            && TouchesOneUser(w, w', token, now)
            && forall u <- w.users :: w'.users[u].passwordHash == w.users[u].passwordHash
  {
  }

  lemma ResetTouchesOneUser(w: World, token: string, hash: string, now: Instant)
    ensures TouchesOneUser(w, Next(w, ResetPassword(token, hash), now), token, now)
  {
  }

  lemma ResetSetsThisHash(w: World, token: string, hash: string, now: Instant, user: Id)
    requires user in w.users
    ensures var users := Next(w, ResetPassword(token, hash), now).users;
            user in users && (users[user] == w.users[user] || users[user].passwordHash == hash)
  {
  }

  /** A good activation token presented where it belongs leaves its user with the new password. */
  lemma ActivationSetsPassword(w: World, token: string, hash: string, now: Instant)
    requires Consumable(w.tokens, token, now) && w.tokens[TrimSpace(token)].purpose == AccountActivation && hash != ""
    requires w.tokens[TrimSpace(token)].userID in w.users
    ensures var user, w' := w.tokens[TrimSpace(token)].userID, Next(w, ResetPassword(token, hash), now);
            Active(w', user) && w'.users[user].passwordHash == hash
  {
  }
}
