/** Whole runs of login, refresh, logout and revocation, each handler taken as one step: the sessions that
    descend from one login form a chain. */
module SessionChains {
  import opened Basics
  import opened Text
  import opened Sessions

  /** What is remembered of every session ever issued, also after its row was purged. */
  datatype Issue = Issue(user: Id, role: string, expiresAt: Time, root: Id, index: nat)

  /** The table together with its history: `chains` lists the sessions that descend from each login. */
  datatype World = World(table: Table, issued: map<Id, Issue>, chains: map<Id, seq<Id>>)

  const INITIAL := World(map[], map[], map[])

  datatype Action =
    | Login(user: Id, role: string, newId: Id, issued: Instant)
    | Refresh(claims: Claims, newId: Id, times: Readings)
    | Logout(id: Id)
    | RevokeUser(user: Id)
    | RevokeOne(id: Id)
    | ListSessions

  predicate FreshId(w: World, id: Id) {
    id != "" && TrimSpace(id) == id && id !in w.issued
  }

  predicate Possible(w: World, a: Action) {
    match a
    case Login(_, _, newId, _) => FreshId(w, newId)
    case Refresh(_, newId, _) => FreshId(w, newId)
    case _ => true
  }

  /** The clock does not run backwards, within a handler either; `now` is its last reading. */
  predicate Timely(clock: Time, a: Action, now: Instant) {
    clock <= now
    && match a
       case Login(_, _, _, issued) => clock <= issued <= now
       case Refresh(_, _, t) => clock <= t.found && t.InOrder() && t.revoked == now
       case _ => true
  }

  function Next(w: World, a: Action, now: Instant): World {
    match a
    case Login(user, role, newId, issued) =>
      World(w.table[newId := NewSession(user, role, issued, now)],
            w.issued[newId := Issue(user, role, issued + WEEK, newId, 0)],
            w.chains[newId := [newId]])
    case Refresh(c, newId, t) =>
      var w' := w.(table := AfterRefresh(w.table, c, newId, t));
      var key := TrimSpace(c.id);
      if !Accepts(w.table, c, t.found) || key !in w.issued || w.issued[key].root !in w.chains then w'
      else
        var root := w.issued[key].root;
        var chain := w.chains[root];
        w'.(issued := w.issued[newId := Issue(c.userID, c.role, t.issued + WEEK, root, |chain|)],
            chains := w.chains[root := chain + [newId]])
    case Logout(id) =>
      w.(table := if TrimSpace(id) == "" then w.table else AfterRevoke(w.table, id, Nobody, now))
    case RevokeUser(user) => w.(table := AfterRevokeAll(w.table, TrimSpace(user), now))
    case RevokeOne(id) => w.(table := AfterRevoke(w.table, id, AdminManualRevoke, now))
    case ListSessions => w.(table := AfterList(w.table, now))
  }

  datatype Timed = Timed(action: Action, at: Instant)

  function Run(w: World, run: seq<Timed>): World {
    if run == [] then w else Next(Run(w, run[..|run| - 1]), run[|run| - 1].action, run[|run| - 1].at)
  }

  function ClockAfter(clock: Time, run: seq<Timed>): Time {
    if run == [] then clock else run[|run| - 1].at
  }

  predicate Legal(w: World, clock: Time, run: seq<Timed>) {
    run == [] ||
    (var init, last := run[..|run| - 1], run[|run| - 1];
     && Legal(w, clock, init) && Timely(ClockAfter(clock, init), last.action, last.at)
     && Possible(Run(w, init), last.action))
  }

  // -------------------------------------------------------------- invariant

  ghost predicate ChainSound(w: World, root: Id)
    requires root in w.chains
  {
    var chain := w.chains[root];
    && chain != [] && chain[0] == root
    && (forall i | 0 <= i < |chain| ::
          chain[i] in w.issued && w.issued[chain[i]].root == root && w.issued[chain[i]].index == i)
    && (forall i, j :: 0 <= i < j < |chain| ==> w.issued[chain[i]].expiresAt <= w.issued[chain[j]].expiresAt)
  }

  ghost predicate IssueSound(w: World, clock: Time, id: Id)
    requires id in w.issued
  {
    var e := w.issued[id];
    && e.root in w.chains && e.index < |w.chains[e.root]| && w.chains[e.root][e.index] == id
    && e.root in w.issued && e.user == w.issued[e.root].user && e.role == w.issued[e.root].role
    && e.expiresAt <= clock + WEEK
  }

  /** A stored session is the one that was issued, and it points to its successor once it has one. */
  ghost predicate RowSound(w: World, id: Id)
    requires id in w.table
  {
    && id in w.issued && w.issued[id].root in w.chains
    && (var row, e := w.table[id], w.issued[id];
        var chain := w.chains[e.root];
        && row.userID == e.user && row.role == e.role && row.expiresAt == e.expiresAt
        && if e.index + 1 < |chain| then row.revoked && row.replacedBy == Session(chain[e.index + 1])
           else !row.replacedBy.Session?)
  }

  ghost predicate WorldSound(w: World, clock: Time) {
    && (forall root {:trigger ChainSound(w, root)} :: root in w.chains ==> ChainSound(w, root))
    && (forall id {:trigger IssueSound(w, clock, id)} :: id in w.issued ==> IssueSound(w, clock, id))
    && (forall id {:trigger RowSound(w, id)} :: id in w.table ==> RowSound(w, id))
  }

  /** Steps that issue nothing keep the rows they leave, or revoke them without naming a successor. */
  ghost predicate LeavesOrMarks(w: World, table: Table) {
    && table.Keys <= w.table.Keys
    && forall id <- table ::
         || table[id] == w.table[id]
         || (!w.table[id].revoked && !table[id].replacedBy.Session? && table[id].userID == w.table[id].userID
             && table[id].role == w.table[id].role && table[id].expiresAt == w.table[id].expiresAt)
  }

  lemma MarkedRow(w: World, table: Table, id: Id)
    requires LeavesOrMarks(w, table) && id in table && RowSound(w, id)
    ensures RowSound(w.(table := table), id)
  {
  }

  lemma NoNewSession(w: World, table: Table, clock: Time, now: Time)
    requires WorldSound(w, clock) && clock <= now && LeavesOrMarks(w, table)
    ensures WorldSound(w.(table := table), now)
  {
    var w' := w.(table := table);
    forall root <- w'.chains ensures ChainSound(w', root) { assert ChainSound(w, root); }
    forall id <- w'.issued ensures IssueSound(w', now, id) { assert IssueSound(w, clock, id); }
    forall id <- w'.table ensures RowSound(w', id) {
      assert RowSound(w, id);
      MarkedRow(w, table, id);
    }
  }

  lemma RootsAreIssued(w: World, clock: Time)
    requires WorldSound(w, clock)
    ensures w.chains.Keys <= w.issued.Keys
  {
    forall root <- w.chains ensures root in w.issued { assert ChainSound(w, root); }
  }

  ghost predicate LogsIn(w: World, clock: Time, a: Action, now: Instant) {
    WorldSound(w, clock) && a.Login? && FreshId(w, a.newId) && Timely(clock, a, now)
  }

  lemma LoginChain(w: World, clock: Time, a: Action, now: Instant, root: Id)
    requires LogsIn(w, clock, a, now) && root in Next(w, a, now).chains
    ensures ChainSound(Next(w, a, now), root)
  {
    RootsAreIssued(w, clock);
    if root != a.newId { assert ChainSound(w, root); }
  }

  lemma LoginIssue(w: World, clock: Time, a: Action, now: Instant, id: Id)
    requires LogsIn(w, clock, a, now) && id in Next(w, a, now).issued
    ensures IssueSound(Next(w, a, now), now, id)
  {
    RootsAreIssued(w, clock);
    if id != a.newId { assert IssueSound(w, clock, id); }
  }

  lemma LoginRow(w: World, clock: Time, a: Action, now: Instant, id: Id)
    requires LogsIn(w, clock, a, now) && id in Next(w, a, now).table
    ensures RowSound(Next(w, a, now), id)
  {
    if id != a.newId {
      assert RowSound(w, id);
      assert IssueSound(w, clock, id);
    }
  }

  lemma LoginSound(w: World, clock: Time, a: Action, now: Instant)
    requires LogsIn(w, clock, a, now)
    ensures WorldSound(Next(w, a, now), now)
  {
    var w' := Next(w, a, now);
    forall root <- w'.chains ensures ChainSound(w', root) { LoginChain(w, clock, a, now, root); }
    forall id <- w'.issued ensures IssueSound(w', now, id) { LoginIssue(w, clock, a, now, id); }
    forall id <- w'.table ensures RowSound(w', id) { LoginRow(w, clock, a, now, id); }
  }

  /** The chain of `key` has grown by `newId`, right behind `key`. */
  ghost predicate Grown(w: World, w': World, key: Id, newId: Id, issued: Instant) {
    && key in w.issued && newId !in w.issued && w.issued[key].root in w.chains
    && (var e := w.issued[key];
        var chain := w.chains[e.root];
        && e.index == |chain| - 1 && chain[e.index] == key
        && w'.chains == w.chains[e.root := chain + [newId]]
        && w'.issued == w.issued[newId := Issue(e.user, e.role, issued + WEEK, e.root, |chain|)])
  }

  lemma GrownChains(w: World, w': World, clock: Time, key: Id, newId: Id, issued: Instant, root: Id)
    requires WorldSound(w, clock) && clock <= issued && Grown(w, w', key, newId, issued) && root in w'.chains
    ensures ChainSound(w', root)
  {
    assert ChainSound(w, root);
    var chain := w.chains[root];
    forall i | 0 <= i < |chain| ensures w.issued[chain[i]].expiresAt <= clock + WEEK {
      assert IssueSound(w, clock, chain[i]);
    }
    if root != w.issued[key].root {
      assert newId !in chain by {
        forall i | 0 <= i < |chain| ensures chain[i] != newId { assert chain[i] in w.issued; }
      }
    }
  }

  lemma GrownIssues(w: World, w': World, clock: Time, key: Id, newId: Id, issued: Instant, now: Instant, id: Id)
    requires WorldSound(w, clock) && clock <= issued <= now && Grown(w, w', key, newId, issued) && id in w'.issued
    ensures IssueSound(w', now, id)
  {
    assert IssueSound(w, clock, key);
    if id != newId { assert IssueSound(w, clock, id); }
  }

  lemma GrownRow(w: World, w': World, clock: Time, key: Id, newId: Id, issued: Instant, id: Id)
    requires WorldSound(w, clock) && Grown(w, w', key, newId, issued)
    requires id in w.table && id in w'.table && id != key && w'.table[id] == w.table[id]
    ensures RowSound(w', id)
  {
    assert RowSound(w, id) && IssueSound(w, clock, id) && IssueSound(w, clock, key);
  }

  /** The two rows a refresh writes: the new session, and the old one revoked in its favour. */
  ghost predicate Rotated(w: World, w': World, key: Id, newId: Id, t: Readings) {
    && key in w.table && newId != key
    && w'.table == w.table[newId := NewSession(w.table[key].userID, w.table[key].role, t.issued, t.created)]
                          [key := Revoked(w.table[key], Session(newId), t.revoked)]
  }

  lemma RotatedRow(w: World, w': World, clock: Time, key: Id, newId: Id, t: Readings, id: Id)
    requires WorldSound(w, clock) && Grown(w, w', key, newId, t.issued) && Rotated(w, w', key, newId, t)
    requires id in w'.table
    ensures RowSound(w', id)
  {
    if id == newId || id == key {
      assert RowSound(w, key);
    } else {
      GrownRow(w, w', clock, key, newId, t.issued, id);
    }
  }

  ghost predicate Refreshes(w: World, clock: Time, a: Action, now: Instant) {
    && WorldSound(w, clock) && a.Refresh? && FreshId(w, a.newId) && Timely(clock, a, now)
    && Accepts(w.table, a.claims, a.times.found)
  }

  /** An accepted token belongs to the newest session of its chain, so the chain grows at its end. */
  lemma AcceptedIsNewest(w: World, clock: Time, a: Action, now: Instant)
    requires Refreshes(w, clock, a, now)
    ensures var w', key := Next(w, a, now), TrimSpace(a.claims.id);
            Grown(w, w', key, a.newId, a.times.issued) && Rotated(w, w', key, a.newId, a.times)
  {
    var key := TrimSpace(a.claims.id);
    assert RowSound(w, key) && IssueSound(w, clock, key);
  }

  lemma RefreshSound(w: World, clock: Time, a: Action, now: Instant)
    requires Refreshes(w, clock, a, now)
    ensures WorldSound(Next(w, a, now), now)
  {
    AcceptedIsNewest(w, clock, a, now);
    GrownSound(w, Next(w, a, now), clock, TrimSpace(a.claims.id), a.newId, a.times);
  }

  lemma GrownSound(w: World, w': World, clock: Time, key: Id, newId: Id, t: Readings)
    requires WorldSound(w, clock) && clock <= t.found && t.InOrder()
    requires Grown(w, w', key, newId, t.issued) && Rotated(w, w', key, newId, t)
    ensures WorldSound(w', t.revoked)
  {
    forall root <- w'.chains ensures ChainSound(w', root) { GrownChains(w, w', clock, key, newId, t.issued, root); }
    forall id <- w'.issued ensures IssueSound(w', t.revoked, id) {
      GrownIssues(w, w', clock, key, newId, t.issued, t.revoked, id);
    }
    forall id <- w'.table ensures RowSound(w', id) { RotatedRow(w, w', clock, key, newId, t, id); }
  }

  lemma NextSound(w: World, clock: Time, a: Action, now: Instant)
    requires WorldSound(w, clock) && Timely(clock, a, now) && Possible(w, a)
    ensures WorldSound(Next(w, a, now), now)
  {
    if a.Login? {
      LoginSound(w, clock, a, now);
    } else if a.Refresh? && Accepts(w.table, a.claims, a.times.found) {
      RefreshSound(w, clock, a, now);
    } else {
      NoNewSession(w, Next(w, a, now).table, clock, now);
    }
  }

  lemma {:induction false} RunSound(w: World, clock: Time, run: seq<Timed>)
    requires WorldSound(w, clock) && Legal(w, clock, run)
    ensures WorldSound(Run(w, run), ClockAfter(clock, run))
  {
    if run != [] {
      var init, last := run[..|run| - 1], run[|run| - 1];
      RunSound(w, clock, init);
      NextSound(Run(w, init), ClockAfter(clock, init), last.action, last.at);
    }
  }

  // ------------------------------------------------------------ main results

  /** Sessions descended from one login: no session twice, so the successor pointers never close a cycle; one
      user, one role, expiry dates that never go back; every stored session but the newest is revoked in favour
      of the next, and the newest has no successor. */
  ghost predicate OneChain(w: World, chain: seq<Id>) {
    && (forall i | 0 <= i < |chain| :: chain[i] in w.issued)
    && (forall i, j :: 0 <= i < j < |chain| ==>
          var e, f := w.issued[chain[i]], w.issued[chain[j]];
          chain[i] != chain[j] && e.user == f.user && e.role == f.role && e.expiresAt <= f.expiresAt)
    && (forall i | 0 <= i < |chain| && chain[i] in w.table ::
          var row, e := w.table[chain[i]], w.issued[chain[i]];
          && row.userID == e.user && row.role == e.role && row.expiresAt == e.expiresAt
          && if i + 1 < |chain| then row.revoked && row.replacedBy == Session(chain[i + 1])
             else !row.replacedBy.Session?)
  }

  lemma {:induction false} SessionsFormChains(run: seq<Timed>, root: Id)
    requires Legal(INITIAL, 0, run) && root in Run(INITIAL, run).chains
    ensures OneChain(Run(INITIAL, run), Run(INITIAL, run).chains[root])
  {
    RunSound(INITIAL, 0, run);
    var w, clock := Run(INITIAL, run), ClockAfter(0, run);
    var chain := w.chains[root];
    assert ChainSound(w, root);
    forall i | 0 <= i < |chain|
      ensures IssueSound(w, clock, chain[i]) && (chain[i] in w.table ==> RowSound(w, chain[i])) {
      assert chain[i] in w.issued;
    }
  }

  /** Every stored session descends from exactly one login. */
  lemma EverySessionHasItsChain(run: seq<Timed>, id: Id)
    requires Legal(INITIAL, 0, run) && id in Run(INITIAL, run).table
    ensures var w := Run(INITIAL, run);
            && id in w.issued && w.issued[id].root in w.chains && id in w.chains[w.issued[id].root]
            && forall root <- w.chains :: id in w.chains[root] ==> root == w.issued[id].root
  {
    RunSound(INITIAL, 0, run);
    var w := Run(INITIAL, run);
    assert RowSound(w, id) && IssueSound(w, ClockAfter(0, run), id);
    forall root <- w.chains | id in w.chains[root] ensures root == w.issued[id].root {
      assert ChainSound(w, root);
    }
  }

  /** Issued, and gone or revoked. */
  ghost predicate Barred(w: World, ids: set<Id>) {
    forall id <- ids :: id in w.issued && (id in w.table ==> w.table[id].revoked)
  }

  lemma BarredStays(w: World, ids: set<Id>, a: Action, now: Instant)
    requires Barred(w, ids) && Possible(w, a)
    ensures Barred(Next(w, a, now), ids)
  {
    var w' := Next(w, a, now);
    forall id <- ids ensures id in w'.issued && (id in w'.table ==> w'.table[id].revoked) {
      assert id in w.issued;
    }
  }

  lemma {:induction false} BarredForGood(w: World, clock: Time, ids: set<Id>, run: seq<Timed>)
    requires Barred(w, ids) && Legal(w, clock, run)
    ensures Barred(Run(w, run), ids)
  {
    if run != [] {
      var init, last := run[..|run| - 1], run[|run| - 1];
      BarredForGood(w, clock, ids, init);
      BarredStays(Run(w, init), ids, last.action, last.at);
    }
  }

  /** After an admin revoked a user's sessions, no run of handler calls ever makes a refresh succeed with a token
      issued to that user before. */
  lemma {:induction false} RevocationIsFinal(before: seq<Timed>, user: Id, at: Instant, after: seq<Timed>, c: Claims,
                                             now: Instant)
    requires TrimSpace(user) == user
    requires Legal(INITIAL, 0, before) && ClockAfter(0, before) <= at
    requires Legal(Next(Run(INITIAL, before), RevokeUser(user), at), at, after)
    requires var key, issued := TrimSpace(c.id), Run(INITIAL, before).issued;
             key in issued && issued[key].user == user
    ensures !Accepts(Run(Next(Run(INITIAL, before), RevokeUser(user), at), after).table, c, now)
  {
    RunSound(INITIAL, 0, before);
    var w := Run(INITIAL, before);
    var w' := Next(w, RevokeUser(user), at);
    var ids := set id | id in w.issued && w.issued[id].user == user;
    RevokeAllIsExact(w.table, user, at);
    forall id <- ids ensures id in w'.issued && (id in w'.table ==> w'.table[id].revoked) {
      if id in w.table { assert RowSound(w, id); }
    }
    BarredForGood(w', at, ids, after);
  }

  predicate RevokesOne(a: Action) {
    a.Logout? || a.RevokeOne?
  }

  /** After a logout, or an admin's revocation of one session, no run of handler calls ever makes a refresh succeed
      with a token of that session. */
  lemma {:induction false} LogoutIsFinal(before: seq<Timed>, a: Action, at: Instant, after: seq<Timed>, c: Claims,
                                         now: Instant)
    requires RevokesOne(a) && TrimSpace(a.id) != "" && TrimSpace(a.id) in Run(INITIAL, before).issued
    requires TrimSpace(c.id) == TrimSpace(a.id) && Legal(Next(Run(INITIAL, before), a, at), at, after)
    ensures !Accepts(Run(Next(Run(INITIAL, before), a, at), after).table, c, now)
  {
    BarredForGood(Next(Run(INITIAL, before), a, at), at, {TrimSpace(a.id)}, after);
  }

  /** It revokes that session if it was not revoked yet, names no successor, and touches nothing else. */
  lemma LogoutIsExact(w: World, a: Action, now: Instant)
    requires RevokesOne(a) && TrimSpace(a.id) != ""
    ensures var w', key := Next(w, a, now), TrimSpace(a.id);
            && w'.issued == w.issued && w'.chains == w.chains && w'.table.Keys == w.table.Keys
            && (forall id <- w.table | id != key :: w'.table[id] == w.table[id])
            && (key in w.table && w.table[key].revoked ==> w'.table[key] == w.table[key])
            && (key in w.table && !w.table[key].revoked ==>
                  && w'.table[key].revoked && w'.table[key].revokedAt == Some(now)
                  && w'.table[key].aggiornatoIl == now && w'.table[key].creatoIl == w.table[key].creatoIl
                  && w'.table[key].replacedBy == (if a.Logout? then Nobody else AdminManualRevoke)
                  && w'.table[key].expiresAt == w.table[key].expiresAt && w'.table[key].userID == w.table[key].userID)
  {
  }

  /** A logout with a blank session id does nothing. */
  lemma BlankLogout(w: World, id: Id, now: Instant)
    requires TrimSpace(id) == ""
    ensures Next(w, Logout(id), now) == w
  {
  }

  /** Listing drops the expired sessions and no other. */
  lemma ListingDropsExpired(w: World, now: Instant, id: Id)
    ensures var w' := Next(w, ListSessions, now);
            && (id in w'.table <==> id in w.table && now <= w.table[id].expiresAt)
            && (id in w'.table ==> w'.table[id] == w.table[id])
  {
  }

  /** A new session carries the clock readings of its creation. */
  lemma NewSessionIsDated(w: World, user: Id, role: string, newId: Id, issued: Instant, now: Instant)
    ensures var w' := Next(w, Login(user, role, newId, issued), now);
            && newId in w'.table && w'.table[newId].creatoIl == w'.table[newId].aggiornatoIl == now
            && w'.table[newId].expiresAt == issued + 7 * 24 * 3600 * 1_000_000_000
            && w'.table - {newId} == w.table - {newId}
  {
  }

  /** The token of a new session is good for a week after its issue, to the instant, and only for its user. */
  lemma GoodForAWeek(w: World, user: Id, role: string, newId: Id, issued: Instant, now: Instant, c: Claims, t: Instant)
    requires FreshId(w, newId) && TrimSpace(c.id) == newId
    ensures Accepts(Next(w, Login(user, role, newId, issued), now).table, c, t)
       <==> c.userID == user && c.role == role && t <= issued + 7 * 24 * 3600 * 1_000_000_000
  {
  }
}
