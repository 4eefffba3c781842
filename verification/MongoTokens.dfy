/** One-time tokens in MongoDB: a find, then a delete or a guarded update, each atomic on its own. */
module MongoTokens {
  import opened Basics
  import opened Text
  import A = Accounts

  const MILLISECOND: nat := 1_000_000

  /** Dates are stored, and compared by the database, in whole milliseconds. */
  function Millis(t: Time): (r: Time)
    ensures r <= t < r + MILLISECOND && r % MILLISECOND == 0
  {
    t - t % MILLISECOND
  }

  /** Both dates in whole milliseconds. */
  datatype TokenDoc = TokenDoc(expiresAt: Time, usedAt: Option<Time>)

  type Collection = map<string, TokenDoc>

  /** The check on the document as it was found, against the full clock reading. */
  predicate Stale(d: TokenDoc, now: Instant) {
    d.usedAt.Some? || d.expiresAt < now
  }

  /** The filter of the update: unused, and expiring strictly later by the milliseconds. */
  predicate Updatable(docs: Collection, token: string, now: Instant) {
    token in docs && docs[token].usedAt.None? && Millis(now) < docs[token].expiresAt
  }

  function Updated(docs: Collection, token: string, now: Instant): Collection {
    if Updatable(docs, token, now) then docs[token := docs[token].(usedAt := Some(Millis(now)))] else docs
  }

  class TokenCollection {
    var docs: Collection

    constructor ()
      ensures docs == map[]
    {
      docs := map[];
    }

    ghost predicate Valid()
      reads this
    {
      forall t <- docs :: docs[t].expiresAt % MILLISECOND == 0
    }

    /** One call with nobody in between: the answer carries the full clock reading, the document the milliseconds. */
    method ConsumePasswordResetToken(token: string, now: Instant) returns (r: Result<TokenDoc, StoreError>)
      requires Valid()
      modifies this
      ensures Valid()
      ensures var key := TrimSpace(token);
              if Updatable(old(docs), key, now)
              then docs == Updated(old(docs), key, now) && r == Ok(old(docs)[key].(usedAt := Some(now)))
              else r == Err(NotFound)
                   && docs == if key in old(docs) && Stale(old(docs)[key], now) then old(docs) - {key} else old(docs)
    {
      var key := TrimSpace(token);
      if key !in docs {
        return Err(NotFound);
      }
      var rec := docs[key];
      if rec.usedAt.Some? || rec.expiresAt < now {
        assert !Updatable(docs, key, now) by { WholeMillis(rec.expiresAt, now); }
        docs := docs - {key};
        return Err(NotFound);
      }
      if !(docs[key].usedAt.None? && Millis(now) < docs[key].expiresAt) {
        return Err(NotFound);
      }
      docs := docs[key := docs[key].(usedAt := Some(Millis(now)))];
      return Ok(rec.(usedAt := Some(now)));
    }
  }

  /** For an expiry in whole milliseconds it does not matter whether the clock is cut off. */
  lemma WholeMillis(expiresAt: Time, now: Time)
    requires expiresAt % MILLISECOND == 0
    ensures Millis(now) < expiresAt <==> now < expiresAt
  {
    if Millis(now) < expiresAt {
      var k := (expiresAt - Millis(now)) / MILLISECOND;
      assert (expiresAt - Millis(now)) % MILLISECOND == 0;
      assert expiresAt - Millis(now) == k * MILLISECOND && k >= 1;
    }
  }

  /** The two stores, holding the same token, disagree exactly in its last millisecond, from the start of the
      millisecond it expires in up to and including the expiry itself: memory still accepts it, MongoDB does not. */
  lemma StoresDisagreeAtExpiryOnly(m: A.Tokens, docs: Collection, token: string, now: Instant)
    requires var key := TrimSpace(token);
             && key in m && key in docs && docs[key].expiresAt == Millis(m[key].expiresAt)
             && (docs[key].usedAt.Some? <==> m[key].usedAt.Some?)
    ensures var rec := m[TrimSpace(token)];
            (A.Consumable(m, token, now) <==> Updatable(docs, TrimSpace(token), now))
            <==> !(rec.usedAt.None? && Millis(rec.expiresAt) <= now <= rec.expiresAt)
  {
    WholeMillis(Millis(m[TrimSpace(token)].expiresAt), now);
  }

  // ------------------------------------------------------------ interleaving

  datatype Pc = Finding | Dropping | Updating | Finished(ok: bool)

  /** One call of `ConsumePasswordResetToken`; its clock was read before the find. */
  datatype Consumer = Consumer(token: string, now: Instant, pc: Pc)

  type Pid = nat

  /** `created` remembers the expiry every token was created with, `accepted` how often it was accepted. */
  datatype System = System(docs: Collection, consumers: map<Pid, Consumer>,
                           created: map<string, Time>, accepted: multiset<string>)

  const INITIAL := System(map[], map[], map[], multiset{})

  datatype Move =
    | Create(token: string, expiresAt: Time)
    | Arrive(pid: Pid, token: string, now: Instant)
    | Proceed(pid: Pid)

  predicate Possible(sys: System, move: Move) {
    match move
    case Create(token, _) => token !in sys.created
    case Arrive(pid, _, _) => pid !in sys.consumers
    case Proceed(_) => true
  }

  function Advance(sys: System, pid: Pid): System
    requires pid in sys.consumers
  {
    var c := sys.consumers[pid];
    match c.pc
    case Finding =>
      var pc := if c.token !in sys.docs then Finished(false)
                else if Stale(sys.docs[c.token], c.now) then Dropping
                else Updating;
      sys.(consumers := sys.consumers[pid := c.(pc := pc)])
    case Dropping =>
      sys.(docs := sys.docs - {c.token}, consumers := sys.consumers[pid := c.(pc := Finished(false))])
    case Updating =>
      var ok := Updatable(sys.docs, c.token, c.now);
      sys.(docs := Updated(sys.docs, c.token, c.now),
           consumers := sys.consumers[pid := c.(pc := Finished(ok))],
           accepted := if ok then sys.accepted + multiset{c.token} else sys.accepted)
    case Finished(_) => sys
  }

  function Next(sys: System, move: Move): System {
    match move
    case Create(token, expiresAt) =>
      sys.(docs := sys.docs[token := TokenDoc(Millis(expiresAt), None)],
           created := sys.created[token := expiresAt])
    case Arrive(pid, token, now) => sys.(consumers := sys.consumers[pid := Consumer(token, now, Finding)])
    case Proceed(pid) => if pid in sys.consumers then Advance(sys, pid) else sys
  }

  function Run(moves: seq<Move>): System {
    if moves == [] then INITIAL else Next(Run(moves[..|moves| - 1]), moves[|moves| - 1])
  }

  predicate Interleaving(moves: seq<Move>) {
    moves == [] ||
    (Interleaving(moves[..|moves| - 1]) && Possible(Run(moves[..|moves| - 1]), moves[|moves| - 1]))
  }

  /** A stored token was created; an accepted one is marked as used or gone. */
  ghost predicate TokenSound(sys: System, token: string) {
    && (token in sys.docs ==> token in sys.created && sys.docs[token].expiresAt == Millis(sys.created[token]))
    && sys.accepted[token] <= 1
    && (sys.accepted[token] == 1 ==> token in sys.created && (token in sys.docs ==> sys.docs[token].usedAt.Some?))
  }

  ghost predicate ConsumerSound(sys: System, pid: Pid)
    requires pid in sys.consumers
  {
    var c := sys.consumers[pid];
    c.pc == Finished(true) ==> c.token in sys.created && c.now < Millis(sys.created[c.token])
  }

  ghost predicate SystemSound(sys: System) {
    && (forall t :: TokenSound(sys, t))
    && (forall pid <- sys.consumers :: ConsumerSound(sys, pid))
  }

  lemma ConsumersStaySound(sys: System, move: Move, pid: Pid)
    requires SystemSound(sys) && Possible(sys, move) && pid in Next(sys, move).consumers
    ensures ConsumerSound(Next(sys, move), pid)
  {
    if pid in sys.consumers {
      var c := sys.consumers[pid];
      assert ConsumerSound(sys, pid) && TokenSound(sys, c.token);
      if c.token in sys.created { WholeMillis(Millis(sys.created[c.token]), c.now); }
    }
  }

  lemma NextSound(sys: System, move: Move)
    requires SystemSound(sys) && Possible(sys, move)
    ensures SystemSound(Next(sys, move))
  {
    var sys' := Next(sys, move);
    forall t ensures TokenSound(sys', t) { assert TokenSound(sys, t); }
    forall pid <- sys'.consumers ensures ConsumerSound(sys', pid) { ConsumersStaySound(sys, move, pid); }
  }

  /** In every interleaving of any number of consumers a token is accepted at most once, and every consumer that
      was told yes had read its clock before the millisecond of the token's expiry. */
  lemma {:induction false} AcceptedAtMostOnce(moves: seq<Move>, token: string, pid: Pid)
    requires Interleaving(moves)
    ensures SystemSound(Run(moves))
    ensures Run(moves).accepted[token] <= 1
    ensures var sys := Run(moves);
            pid in sys.consumers && sys.consumers[pid].pc == Finished(true)
            ==> var c := sys.consumers[pid]; c.token in sys.created && c.now < Millis(sys.created[c.token])
  {
    if moves != [] {
      AcceptedAtMostOnce(moves[..|moves| - 1], token, pid);
      NextSound(Run(moves[..|moves| - 1]), moves[|moves| - 1]);
    }
    assert TokenSound(Run(moves), token);
  }

  /** Two consumers were both told yes only if they were consuming different tokens. */
  ghost predicate WinnersDiffer(sys: System) {
    forall a, b | a in sys.consumers && b in sys.consumers && a != b ::
      sys.consumers[a].pc == Finished(true) && sys.consumers[b].pc == Finished(true)
      ==> sys.consumers[a].token != sys.consumers[b].token
  }

  ghost predicate WinnersCounted(sys: System) {
    forall pid <- sys.consumers ::
      sys.consumers[pid].pc == Finished(true) ==> sys.accepted[sys.consumers[pid].token] >= 1
  }

  /** Whoever is told yes now finds the token not accepted before, so nobody else was told yes for it. */
  lemma UpdatingKeepsOneWinner(sys: System, pid: Pid)
    requires pid in sys.consumers && sys.consumers[pid].pc == Updating
    requires SystemSound(sys) && WinnersDiffer(sys) && WinnersCounted(sys)
    ensures WinnersDiffer(Advance(sys, pid)) && WinnersCounted(Advance(sys, pid))
  {
    var token := sys.consumers[pid].token;
    assert TokenSound(sys, token);
    forall other <- sys.consumers | other != pid && sys.consumers[other].pc == Finished(true)
      ensures Updatable(sys.docs, token, sys.consumers[pid].now) ==> sys.consumers[other].token != token
    {
      assert sys.accepted[sys.consumers[other].token] >= 1;
    }
  }

  lemma NextKeepsOneWinner(sys: System, move: Move)
    requires Possible(sys, move) && SystemSound(sys) && WinnersDiffer(sys) && WinnersCounted(sys)
    ensures WinnersDiffer(Next(sys, move)) && WinnersCounted(Next(sys, move))
  {
    if move.Proceed? && move.pid in sys.consumers && sys.consumers[move.pid].pc == Updating {
      UpdatingKeepsOneWinner(sys, move.pid);
    }
  }

  /** In every interleaving no two consumers of one token are both told yes. */
  lemma {:induction false} OneWinner(moves: seq<Move>)
    requires Interleaving(moves)
    ensures WinnersDiffer(Run(moves)) && WinnersCounted(Run(moves))
  {
    if moves != [] {
      var init, move := moves[..|moves| - 1], moves[|moves| - 1];
      OneWinner(init);
      AcceptedAtMostOnce(init, "", 0);
      NextKeepsOneWinner(Run(init), move);
    }
  }

  // ------------------------------------------------------ a consumer by itself

  /** With nobody in between a consumer is told yes exactly when the token is unused and the millisecond of its expiry
      has not begun, and does what the method does. */
  lemma ConsumerAlone(sys: System, pid: Pid)
    requires SystemSound(sys) && pid in sys.consumers && sys.consumers[pid].pc == Finding
    ensures var sys' := Advance(Advance(sys, pid), pid);
            var c := sys.consumers[pid];
            var good := c.token in sys.docs && sys.docs[c.token].usedAt.None? && c.now < sys.docs[c.token].expiresAt;
            && sys'.consumers == sys.consumers[pid := c.(pc := Finished(good))]
            && (if good then
                  && sys'.docs == sys.docs[c.token := sys.docs[c.token].(usedAt := Some(Millis(c.now)))]
                  && sys'.accepted == sys.accepted + multiset{c.token}
                else
                  && sys'.docs == (if c.token in sys.docs && Stale(sys.docs[c.token], c.now) then sys.docs - {c.token}
                                   else sys.docs)
                  && sys'.accepted == sys.accepted)
  {
    var c := sys.consumers[pid];
    assert TokenSound(sys, c.token);
    if c.token in sys.docs { WholeMillis(sys.docs[c.token].expiresAt, c.now); }
  }
}
