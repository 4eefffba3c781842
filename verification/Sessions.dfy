/** Refresh sessions: the maps of internal/store/memory.go and the handlers of internal/httpapi/server.go that
    rotate and revoke them. */
module Sessions {
  import opened Basics
  import opened Text

  type Id = string

  /** What the field `replaced_by` says: nothing, one of the two admin marks, or the next session. */
  datatype Successor = Nobody | AdminBulkRevoke | AdminManualRevoke | Session(id: Id)

  datatype RefreshSession = RefreshSession(
    userID: Id, role: string, revoked: bool, revokedAt: Option<Time>, replacedBy: Successor,
    expiresAt: Time, creatoIl: Time, aggiornatoIl: Time)

  type Table = map<Id, RefreshSession>

  const WEEK: nat := 7 * 24 * 3600 * 1_000_000_000

  predicate Expired(s: RefreshSession, now: Instant) {
    s.expiresAt < now
  }

  predicate Live(s: RefreshSession, now: Instant) {
    !s.revoked && !Expired(s, now)
  }

  ghost function LiveIds(m: Table, now: Instant): set<Id> {
    set id | id in m && Live(m[id], now)
  }

  ghost function LiveIdsOf(m: Table, user: Id, now: Instant): set<Id> {
    set id | id in m && m[id].userID == user && Live(m[id], now)
  }

  /** The handler reads the clock to set the expiry date, the store when it is created. */
  function NewSession(user: Id, role: string, issued: Instant, created: Instant): RefreshSession {
    RefreshSession(user, role, false, None, Nobody, issued + WEEK, created, created)
  }

  function Revoked(s: RefreshSession, next: Successor, now: Instant): RefreshSession {
    s.(revoked := true, revokedAt := Some(now), replacedBy := next, aggiornatoIl := now)
  }

  // ----------------------------------------------------- table operations

  function AfterGet(m: Table, id: Id, now: Instant): Table {
    var key := TrimSpace(id);
    if key in m && Expired(m[key], now) then m - {key} else m
  }

  function AfterList(m: Table, now: Instant): Table {
    map id | id in m && !Expired(m[id], now) :: m[id]
  }

  predicate CanRevoke(m: Table, id: Id) {
    TrimSpace(id) in m && !m[TrimSpace(id)].revoked
  }

  function AfterRevoke(m: Table, id: Id, next: Successor, now: Instant): Table {
    if CanRevoke(m, id) then m[TrimSpace(id) := Revoked(m[TrimSpace(id)], next, now)] else m
  }

  function AfterRevokeAll(m: Table, user: Id, now: Instant): Table {
    map id | id in m && !(m[id].userID == user && Expired(m[id], now)) ::
      if m[id].userID == user && !m[id].revoked then Revoked(m[id], AdminBulkRevoke, now) else m[id]
  }

  /** The claims of a refresh token whose signature was accepted. */
  datatype Claims = Claims(id: Id, userID: Id, role: string)

  /** `handleRefresh` accepts a token whose session is stored, not expired, not revoked and of the same user. */
  predicate Accepts(m: Table, c: Claims, now: Instant) {
    var key := TrimSpace(c.id);
    key != "" && key in m && Live(m[key], now) && m[key].userID == c.userID && m[key].role == c.role
  }

  /** The clock as a refresh reads it: to find the old session, to set the expiry of the new one, to create it,
      and to revoke the old one. */
  datatype Readings = Readings(found: Instant, issued: Instant, created: Instant, revoked: Instant) {
    predicate InOrder() {
      found <= issued <= created <= revoked
    }
  }

  /** A successful refresh stores the new session, then revokes the old one in its favour. */
  function AfterRefresh(m: Table, c: Claims, newId: Id, t: Readings): Table {
    if TrimSpace(c.id) == "" then m
    else if !Accepts(m, c, t.found) then AfterGet(m, c.id, t.found)
    else AfterRevoke(m[newId := NewSession(c.userID, c.role, t.issued, t.created)], c.id, Session(newId), t.revoked)
  }

  class SessionStore {
    var refreshSessions: Table

    constructor ()
      ensures refreshSessions == map[]
    {
      refreshSessions := map[];
    }

    method CreateRefreshSession(id: Id, session: RefreshSession, now: Instant)
        returns (r: Result<RefreshSession, StoreError>)
      modifies this
      ensures var key := TrimSpace(id);
              if key == "" then r == Err(ForbiddenState) && refreshSessions == old(refreshSessions)
              else
                var creatoIl := if session.creatoIl == 0 then now else session.creatoIl;
                var stored := session.(creatoIl := creatoIl, aggiornatoIl := now);
                r == Ok(stored) && refreshSessions == old(refreshSessions)[key := stored]
    {
      var key := TrimSpace(id);
      if key == "" {
        return Err(ForbiddenState);
      }
      var stored := session;
      if stored.creatoIl == 0 {
        stored := stored.(creatoIl := now);
      }
      stored := stored.(aggiornatoIl := now);
      refreshSessions := refreshSessions[key := stored];
      return Ok(stored);
    }

    method GetRefreshSessionByID(id: Id, now: Instant) returns (r: Result<RefreshSession, StoreError>)
      modifies this
      ensures refreshSessions == AfterGet(old(refreshSessions), id, now)
      ensures r == if TrimSpace(id) in refreshSessions then Ok(refreshSessions[TrimSpace(id)]) else Err(NotFound)
    {
      var key := TrimSpace(id);
      if key !in refreshSessions {
        return Err(NotFound);
      }
      var session := refreshSessions[key];
      if Expired(session, now) {
        refreshSessions := refreshSessions - {key};
        return Err(NotFound);
      }
      return Ok(session);
    }

    method RevokeRefreshSession(id: Id, next: Successor, now: Instant) returns (ok: bool)
      modifies this
      ensures ok == CanRevoke(old(refreshSessions), id)
      ensures refreshSessions == AfterRevoke(old(refreshSessions), id, next, now)
    {
      var key := TrimSpace(id);
      if key !in refreshSessions {
        return false;
      }
      var session := refreshSessions[key];
      if session.revoked {
        return false;
      }
      session := session.(revoked := true, revokedAt := Some(now), replacedBy := next, aggiornatoIl := now);
      refreshSessions := refreshSessions[key := session];
      return true;
    }

    /** The loop over the map, in any order, deleting and revoking as it goes. */
    method RevokeAllRefreshSessionsByUser(user: Id, now: Instant) returns (revoked: nat)
      modifies this
      ensures refreshSessions == AfterRevokeAll(old(refreshSessions), TrimSpace(user), now)
      ensures revoked == |LiveIdsOf(old(refreshSessions), TrimSpace(user), now)|
    {
      var userID := TrimSpace(user);
      ghost var m := refreshSessions;
      revoked := 0;
      var keys := refreshSessions.Keys;
      PartlyEnds(m, userID, now);
      while keys != {}
        invariant keys <= m.Keys && refreshSessions == Partly(m, keys, userID, now)
        invariant revoked == |LiveIdsOf(m, userID, now) - keys|
        decreases keys
      {
        var id :| id in keys;
        PartlyNext(m, keys, id, userID, now);
        CountNext(LiveIdsOf(m, userID, now), keys, id);
        keys := keys - {id};
        var session := refreshSessions[id];
        if session.userID == userID {
          if Expired(session, now) {
            refreshSessions := refreshSessions - {id};
          } else if !session.revoked {
            session := session.(revoked := true, revokedAt := Some(now), replacedBy := AdminBulkRevoke);
            session := session.(aggiornatoIl := now);
            refreshSessions := refreshSessions[id := session];
            revoked := revoked + 1;
          }
        }
      }
      assert LiveIdsOf(m, userID, now) - keys == LiveIdsOf(m, userID, now);
    }

    // -------------------------------------------------------------- handlers

    /** The end of handleLogin, once the credentials were accepted; `newId` is a fresh uuid. */
    method Login(user: Id, role: string, newId: Id, issued: Instant, created: Instant)
      requires newId != "" && TrimSpace(newId) == newId && issued <= created
      modifies this
      ensures refreshSessions == old(refreshSessions)[newId := NewSession(user, role, issued, created)]
    {
      var session := RefreshSession(user, role, false, None, Nobody, issued + WEEK, 0, 0);
      var _ := CreateRefreshSession(newId, session, created);
    }

    method Refresh(c: Claims, newId: Id, t: Readings) returns (ok: bool)
      requires newId != "" && TrimSpace(newId) == newId && newId != TrimSpace(c.id) && t.InOrder()
      modifies this
      ensures ok == Accepts(old(refreshSessions), c, t.found)
      ensures refreshSessions == AfterRefresh(old(refreshSessions), c, newId, t)
    {
      if TrimSpace(c.id) == "" {
        return false;
      }
      var r := GetRefreshSessionByID(c.id, t.found);
      if r.Err? || r.value.revoked || r.value.userID != c.userID || r.value.role != c.role {
        return false;
      }
      var session := RefreshSession(c.userID, c.role, false, None, Nobody, t.issued + WEEK, 0, 0);
      var _ := CreateRefreshSession(newId, session, t.created);
      var _ := RevokeRefreshSession(c.id, Session(newId), t.revoked);
      return true;
    }
  }

  // ------------------------------------------------------------- the loop

  /** The table while the loop still has `keys` to visit. */
  ghost function Partly(m: Table, keys: set<Id>, user: Id, now: Instant): Table {
    map id | id in m && (id in keys || !(m[id].userID == user && Expired(m[id], now))) ::
      if id !in keys && m[id].userID == user && !m[id].revoked then Revoked(m[id], AdminBulkRevoke, now) else m[id]
  }

  lemma PartlyEnds(m: Table, user: Id, now: Instant)
    ensures Partly(m, m.Keys, user, now) == m
    ensures Partly(m, {}, user, now) == AfterRevokeAll(m, user, now)
    ensures LiveIdsOf(m, user, now) - m.Keys == {}
  {
  }

  lemma PartlyNext(m: Table, keys: set<Id>, id: Id, user: Id, now: Instant)
    requires keys <= m.Keys && id in keys
    ensures var before, after := Partly(m, keys, user, now), Partly(m, keys - {id}, user, now);
            && id in before && before[id] == m[id]
            && after == if m[id].userID == user && Expired(m[id], now) then before - {id}
                        else if m[id].userID == user && !m[id].revoked
                        then before[id := Revoked(m[id], AdminBulkRevoke, now)]
                        else before
  {
  }

  lemma CountNext(live: set<Id>, keys: set<Id>, id: Id)
    requires id in keys
    ensures |live - (keys - {id})| == |live - keys| + if id in live then 1 else 0
  {
    if id in live {
      assert live - (keys - {id}) == live - keys + {id};
    } else {
      assert live - (keys - {id}) == live - keys;
    }
  }

  /** The bulk revocation leaves the user no live session, dates and marks those it revokes, drops the expired ones,
      and touches nobody else's. */
  lemma {:induction false} RevokeAllIsExact(m: Table, user: Id, now: Instant)
    ensures var m' := AfterRevokeAll(m, user, now);
            && LiveIdsOf(m', user, now) == {}
            && (forall id <- m' :: m'[id].userID == user ==> m'[id].revoked)
            && (forall id <- m :: m[id].userID != user ==> id in m' && m'[id] == m[id])
            && (forall id <- m | m[id].userID == user ::
                  && (id in m' <==> !Expired(m[id], now))
                  && (id in m' && m[id].revoked ==> m'[id] == m[id])
                  && (id in m' && !m[id].revoked ==>
                        && m'[id].revokedAt == Some(now) && m'[id].replacedBy == AdminBulkRevoke
                        && m'[id].aggiornatoIl == now && m'[id].expiresAt == m[id].expiresAt
                        && m'[id].role == m[id].role && m'[id].creatoIl == m[id].creatoIl))
            && m'.Keys <= m.Keys
  {
  }

  lemma AcceptedTradesOne(m: Table, c: Claims, newId: Id, t: Readings, now: Instant)
    requires newId !in m && t.InOrder() && t.found <= now <= t.issued + WEEK && Accepts(m, c, t.found)
    ensures LiveIds(AfterRefresh(m, c, newId, t), now) == LiveIds(m, now) - {TrimSpace(c.id)} + {newId}
  {
  }

  lemma RefusedTradesNone(m: Table, c: Claims, newId: Id, t: Readings, now: Instant)
    requires t.found <= now && !Accepts(m, c, t.found)
    ensures LiveIds(AfterRefresh(m, c, newId, t), now) == LiveIds(m, now)
  {
  }

  /** A refresh trades one live session for another, so their number never grows; looked at again at one later
      instant, it is the same number unless the old session would have expired meanwhile anyway. */
  lemma RefreshKeepsLiveCount(m: Table, c: Claims, newId: Id, t: Readings, now: Instant)
    requires newId !in m && t.InOrder() && t.found <= now <= t.issued + WEEK
    ensures var m', key := AfterRefresh(m, c, newId, t), TrimSpace(c.id);
            && |LiveIds(m', now)| <= |LiveIds(m, t.found)|
            && |LiveIds(m', now)| == |LiveIds(m, now)|
                                     + if Accepts(m, c, t.found) && Expired(m[key], now) then 1 else 0
  {
    var before, later, key := LiveIds(m, t.found), LiveIds(m, now), TrimSpace(c.id);
    assert later <= before;
    if Accepts(m, c, t.found) {
      AcceptedTradesOne(m, c, newId, t, now);
      assert key in before && newId !in later && (key in later <==> !Expired(m[key], now));
      FewerLive(later - {key}, before - {key});
    } else {
      RefusedTradesNone(m, c, newId, t, now);
      FewerLive(later, before);
    }
  }

  lemma FewerLive(a: set<Id>, b: set<Id>)
    requires a <= b
    ensures |a| <= |b|
  {
    assert b == a + (b - a);
  }
}
