/** Refreshes whose store calls interleave with everything else, and what a bulk revocation is worth then. */
module SessionRaces {
  import opened Basics
  import opened Text
  import opened Sessions
  import C = SessionChains

  /** A refresh has yet to find its session, was accepted and is about to read the clock for the new session, is
      about to create it, or has yet to revoke the old one. */
  datatype Pc = Finding | Issuing | Creating(issued: Instant) | Revoking | Finished(ok: bool)

  datatype Refresher = Refresher(claims: Claims, newId: Id, pc: Pc)

  type Pid = nat

  /** `given` holds the identifiers handed out to sessions so far. */
  datatype System = System(table: Table, refreshers: map<Pid, Refresher>, given: set<Id>, clock: Time)

  const INITIAL := System(map[], map[], {}, 0)

  datatype Move =
    | LogIn(user: Id, role: string, newId: Id, issued: Instant)
    | Arrive(pid: Pid, claims: Claims, newId: Id)
    | Proceed(pid: Pid)
    | RevokeUser(user: Id)
    | RevokeOne(id: Id, mark: Successor)
    | ListSessions

  datatype Step = Step(move: Move, at: Instant)

  predicate FreshId(sys: System, id: Id) {
    TrimSpace(id) == id && id != "" && id !in sys.given
  }

  /** New sessions get fresh identifiers, and time does not run backwards. */
  predicate Possible(sys: System, step: Step) {
    && sys.clock <= step.at
    && match step.move
       case LogIn(_, _, newId, issued) => FreshId(sys, newId) && sys.clock <= issued <= step.at
       case Arrive(pid, _, newId) => pid !in sys.refreshers && FreshId(sys, newId)
       case _ => true
  }

  /** The next step of a refresh; a blank session id is refused before the store is asked. */
  function Advance(sys: System, pid: Pid, now: Instant): System
    requires pid in sys.refreshers
  {
    var r := sys.refreshers[pid];
    var c := r.claims;
    match r.pc
    case Finding =>
      var table := if TrimSpace(c.id) == "" then sys.table else AfterGet(sys.table, c.id, now);
      var pc := if Accepts(sys.table, c, now) then Issuing else Finished(false);
      sys.(table := table, refreshers := sys.refreshers[pid := r.(pc := pc)])
    case Issuing =>
      sys.(refreshers := sys.refreshers[pid := r.(pc := Creating(now))])
    case Creating(issued) =>
      sys.(table := sys.table[r.newId := NewSession(c.userID, c.role, issued, now)],
           refreshers := sys.refreshers[pid := r.(pc := Revoking)])
    case Revoking =>
      sys.(table := AfterRevoke(sys.table, c.id, Session(r.newId), now),
           refreshers := sys.refreshers[pid := r.(pc := Finished(true))])
    case Finished(_) => sys
  }

  function Act(sys: System, move: Move, now: Instant): System {
    match move
    case LogIn(user, role, newId, issued) =>
      sys.(table := sys.table[newId := NewSession(user, role, issued, now)], given := sys.given + {newId})
    case Arrive(pid, claims, newId) =>
      sys.(refreshers := sys.refreshers[pid := Refresher(claims, newId, Finding)], given := sys.given + {newId})
    case Proceed(pid) => if pid in sys.refreshers then Advance(sys, pid, now) else sys
    case RevokeUser(user) => sys.(table := AfterRevokeAll(sys.table, TrimSpace(user), now))
    case RevokeOne(id, mark) => sys.(table := AfterRevoke(sys.table, id, mark, now))
    case ListSessions => sys.(table := AfterList(sys.table, now))
  }

  function Next(sys: System, step: Step): System {
    Act(sys.(clock := step.at), step.move, step.at)
  }

  function Run(sys: System, steps: seq<Step>): System {
    if steps == [] then sys else Next(Run(sys, steps[..|steps| - 1]), steps[|steps| - 1])
  }

  predicate Interleaving(sys: System, steps: seq<Step>) {
    steps == [] ||
    (Interleaving(sys, steps[..|steps| - 1]) && Possible(Run(sys, steps[..|steps| - 1]), steps[|steps| - 1]))
  }

  lemma OneMoreStep(sys: System, steps: seq<Step>, step: Step)
    ensures Run(sys, steps + [step]) == Next(Run(sys, steps), step)
    ensures Interleaving(sys, steps + [step]) <==> Interleaving(sys, steps) && Possible(Run(sys, steps), step)
  {
    assert (steps + [step])[..|steps|] == steps;
  }

  // ------------------------------------------------------ when revocation holds

  /** The user has no session that a refresh would accept now or later. */
  ghost predicate NoLive(sys: System, user: Id) {
    forall id <- sys.table :: sys.table[id].userID == user && !sys.table[id].revoked
                              ==> sys.table[id].expiresAt < sys.clock
  }

  /** The refresh was accepted and the session it goes on to create will be good for a while. */
  predicate WillIssue(r: Refresher, user: Id, clock: Time) {
    r.claims.userID == user && (r.pc.Issuing? || (r.pc.Creating? && clock <= r.pc.issued + WEEK))
  }

  ghost predicate NoneUnderway(sys: System, user: Id) {
    forall pid <- sys.refreshers :: !WillIssue(sys.refreshers[pid], user, sys.clock)
  }

  ghost predicate WithoutLogin(steps: seq<Step>, user: Id) {
    forall s <- steps :: s.move.LogIn? ==> s.move.user != user
  }

  lemma ProceedKeepsQuiet(sys: System, pid: Pid, at: Instant, user: Id)
    requires sys.clock <= at && NoLive(sys, user) && NoneUnderway(sys, user) && pid in sys.refreshers
    ensures var sys' := Next(sys, Step(Proceed(pid), at)); NoLive(sys', user) && NoneUnderway(sys', user)
  {
    assert !WillIssue(sys.refreshers[pid], user, sys.clock);
  }

  lemma NextKeepsQuiet(sys: System, step: Step, user: Id)
    requires Possible(sys, step) && NoLive(sys, user) && NoneUnderway(sys, user)
    requires step.move.LogIn? ==> step.move.user != user
    ensures NoLive(Next(sys, step), user) && NoneUnderway(Next(sys, step), user)
  {
    if step.move.Proceed? && step.move.pid in sys.refreshers {
      ProceedKeepsQuiet(sys, step.move.pid, step.at, user);
    }
  }

  lemma {:induction false} StaysQuiet(sys: System, steps: seq<Step>, user: Id)
    requires NoLive(sys, user) && NoneUnderway(sys, user) && Interleaving(sys, steps) && WithoutLogin(steps, user)
    ensures NoLive(Run(sys, steps), user) && NoneUnderway(Run(sys, steps), user)
  {
    if steps != [] {
      var init, last := steps[..|steps| - 1], steps[|steps| - 1];
      StaysQuiet(sys, init, user);
      NextKeepsQuiet(Run(sys, init), last, user);
    }
  }

  /** Until the user logs in again there is no live session, whatever happens. */
  ghost predicate RevokedForGood(sys: System, user: Id) {
    forall steps :: Interleaving(sys, steps) && WithoutLogin(steps, user) ==> NoLive(Run(sys, steps), user)
  }

  /** Whoever was accepted before can go on and create a live session. */
  lemma UnderwayCreates(sys: System, pid: Pid, user: Id, at: Instant) returns (steps: seq<Step>)
    requires sys.clock == at && pid in sys.refreshers && WillIssue(sys.refreshers[pid], user, at)
    ensures Interleaving(sys, steps) && WithoutLogin(steps, user) && !NoLive(Run(sys, steps), user)
  {
    var go := Step(Proceed(pid), at);
    steps := [] + [go];
    OneMoreStep(sys, [], go);
    if sys.refreshers[pid].pc.Issuing? {
      OneMoreStep(sys, steps, go);
      steps := steps + [go];
    }
    var sys', id := Run(sys, steps), sys.refreshers[pid].newId;
    assert id in sys'.table && !sys'.table[id].revoked && sys'.table[id].expiresAt >= at;
  }

  /** A bulk revocation ends a user's sessions for good, until the next login, if and only if no refresh of that user
      was accepted before it and has yet to create its session. */
  lemma RevocationSticksIff(sys: System, user: Id, at: Instant)
    requires sys.clock <= at && TrimSpace(user) == user
    ensures var sys' := Next(sys, Step(RevokeUser(user), at));
            RevokedForGood(sys', user) <==> NoneUnderway(sys', user)
  {
    var sys' := Next(sys, Step(RevokeUser(user), at));
    RevokeAllIsExact(sys.table, user, at);
    if NoneUnderway(sys', user) {
      forall steps | Interleaving(sys', steps) && WithoutLogin(steps, user) ensures NoLive(Run(sys', steps), user) {
        StaysQuiet(sys', steps, user);
      }
    } else {
      var pid :| pid in sys'.refreshers && WillIssue(sys'.refreshers[pid], user, at);
      var steps := UnderwayCreates(sys', pid, user, at);
    }
  }

  /** A run from the empty table in which a refresh outruns the revocation: log in, be accepted, get revoked, go on. */
  lemma RevocationOutrun(user: Id, role: string, first: Id, second: Id, at: Instant) returns (steps: seq<Step>)
    requires TrimSpace(user) == user && TrimSpace(first) == first && TrimSpace(second) == second
    requires first != "" && second != "" && first != second
    ensures Interleaving(INITIAL, steps) && !NoLive(Run(INITIAL, steps), user)
    ensures |steps| == 6 && steps[3].move == RevokeUser(user)
    ensures WithoutLogin(steps[4..], user)
  {
    var logIn, arrive := Step(LogIn(user, role, first, at), at), Step(Arrive(0, Claims(first, user, role), second), at);
    var go, revoke := Step(Proceed(0), at), Step(RevokeUser(user), at);
    var found := [] + [logIn] + [arrive] + [go];
    OneMoreStep(INITIAL, [], logIn);
    OneMoreStep(INITIAL, [] + [logIn], arrive);
    OneMoreStep(INITIAL, [] + [logIn] + [arrive], go);
    OneMoreStep(INITIAL, found, revoke);
    OneMoreStep(INITIAL, found + [revoke], go);
    OneMoreStep(INITIAL, found + [revoke] + [go], go);
    steps := found + [revoke] + [go] + [go];
    var end := Run(INITIAL, steps);
    assert second in end.table && !end.table[second].revoked && end.table[second].expiresAt >= at;
  }

  // -------------------------------------------------------- one call at a time

  /** With nobody in between, a refresh is the one step it is in the chains. */
  lemma RefreshAlone(sys: System, pid: Pid, t: Readings)
    requires pid in sys.refreshers && sys.refreshers[pid].pc == Finding && TrimSpace(sys.refreshers[pid].newId) != ""
    ensures var r := sys.refreshers[pid];
            var issuing := Advance(Advance(sys, pid, t.found), pid, t.issued);
            var sys' := Advance(Advance(issuing, pid, t.created), pid, t.revoked);
            && sys'.table == AfterRefresh(sys.table, r.claims, r.newId, t)
            && sys'.refreshers == sys.refreshers[pid := r.(pc := Finished(Accepts(sys.table, r.claims, t.found)))]
  {
    var r := sys.refreshers[pid];
    var found := Advance(sys, pid, t.found);
    if Accepts(sys.table, r.claims, t.found) {
      assert found.table == sys.table;
    }
  }

  function AsMove(a: C.Action): Move
    requires !a.Refresh?
  {
    match a
    case Login(user, role, newId, issued) => LogIn(user, role, newId, issued)
    case Logout(id) => RevokeOne(id, Nobody)
    case RevokeUser(user) => RevokeUser(user)
    case RevokeOne(id) => RevokeOne(id, AdminManualRevoke)
    case ListSessions => ListSessions
  }

  /** All other calls do to the table what they do in the chains. */
  lemma OtherCallsAsInChains(sys: System, w: C.World, a: C.Action, now: Instant)
    requires w.table == sys.table && !a.Refresh? && (a.Logout? ==> TrimSpace(a.id) != "")
    ensures Act(sys, AsMove(a), now).table == C.Next(w, a, now).table
  {
  }
}
