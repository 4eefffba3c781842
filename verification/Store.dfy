/** The case and payment part of the data store as a value, and the atomic calls that change it. */
module Store {
  import opened Basics
  import opened Text
  import opened Pratiche
  import opened CaseCodes

  type Token = string

  datatype PagamentoStato = Pendente | Completato | Fallito | Rimborsato

  datatype Pagamento = Pagamento(praticaID: Id, token: Token, stato: PagamentoStato, pagatoIl: Option<Time>,
                                 creatoIl: Time)

  /** Payments by token; `webhooks` holds the keys of the events already processed. */
  datatype Store = Store(utenti: set<Id>, pratiche: map<Id, Pratica>, contatore: nat,
                         pagamenti: map<Token, Pagamento>, webhooks: map<string, Time>)

  const EMPTY := Store({}, map[], 0, map[], map[])

  datatype Op =
    | CreateUser(utente: Id)
    | CreatePratica(id: Id, utente: Id, dati: Dati, attore: Id, anno: nat)
    | Update(id: Id, update: Pratiche.Update)
    | DeletePraticaAsDraft(id: Id, utente: Id)
    | CreatePayment(praticaID: Id, token: Token)
    | ConfirmPayment(token: Token)
    | RefundPayment(token: Token)
    | MarkProcessed(key: string)

  datatype Outcome = Accepted | Refused(error: StoreError) | AlreadyProcessed

  /** The key under which a webhook event is remembered; the provider comes trimmed and in lower case. */
  function WebhookKey(provider: string, eventID: string): string {
    provider + ":" + TrimSpace(eventID)
  }

  function Confirmed(p: Pagamento, now: Instant): Pagamento {
    p.(stato := Completato, pagatoIl := Some(now))
  }

  function Step(s: Store, op: Op, now: Instant, stamp: Time -> string): (Store, Outcome) {
    match op
    case CreateUser(utente) => (s.(utenti := s.utenti + {utente}), Accepted)
    case CreatePratica(id, utente, dati, attore, anno) =>
      var p := NewPratica(id, Render(anno, s.contatore + 1), utente, dati, attore, now);
      (s.(pratiche := s.pratiche[id := p], contatore := s.contatore + 1), Accepted)
    case Update(id, u) =>
      if id !in s.pratiche then (s, Refused(NotFound))
      else
        var r := Apply(s.pratiche[id], u, now, Env(s.utenti, stamp));
        if r.Ok? then (s.(pratiche := s.pratiche[id := r.value]), Accepted) else (s, Refused(r.error))
    case DeletePraticaAsDraft(id, utente) =>
      if id !in s.pratiche then (s, Refused(NotFound))
      else if s.pratiche[id].utenteID != utente || s.pratiche[id].stato != Bozza then (s, Refused(ForbiddenState))
      else (s.(pratiche := s.pratiche - {id}), Accepted)
    case CreatePayment(praticaID, token) =>
      if praticaID !in s.pratiche then (s, Refused(NotFound))
      else (s.(pagamenti := s.pagamenti[token := Pagamento(praticaID, token, Pendente, None, now)]), Accepted)
    case ConfirmPayment(token) =>
      if token !in s.pagamenti then (s, Refused(NotFound))
      else (s.(pagamenti := s.pagamenti[token := Confirmed(s.pagamenti[token], now)]), Accepted)
    case RefundPayment(token) =>
      if token !in s.pagamenti then (s, Refused(NotFound))
      else if s.pagamenti[token].stato != Completato then (s, Refused(InvalidState))
      else (s.(pagamenti := s.pagamenti[token := s.pagamenti[token].(stato := Rimborsato)]), Accepted)
    case MarkProcessed(key) =>
      if key == ":" then (s, Refused(ForbiddenState))
      else if key in s.webhooks then (s, AlreadyProcessed)
      else (s.(webhooks := s.webhooks[key := now]), Accepted)
  }

  /** New cases and payments come with identifiers that were never used. */
  predicate Fresh(s: Store, op: Op) {
    match op
    case CreatePratica(id, _, _, _, _) => id !in s.pratiche
    case CreatePayment(_, token) => token !in s.pagamenti
    case _ => true
  }

  // -------------------------------------------------------------- soundness

  ghost predicate CasesSound(m: map<Id, Pratica>, clock: Time, stamp: Time -> string) {
    forall id <- m :: Pratiche.Sound(m[id], clock, stamp) && m[id].id == id
  }

  /** The code was rendered with a counter value up to `last`. */
  ghost predicate Numbered(codice: string, last: nat) {
    Parse(codice).Some? && Parse(codice).value.1 <= last
  }

  ghost predicate CodesSound(m: map<Id, Pratica>, last: nat) {
    && (forall id <- m :: Numbered(m[id].codice, last))
    && (forall a, b | a in m && b in m && a != b :: m[a].codice != m[b].codice)
  }

  /** A payment carries its payment date exactly when it has left the pending state. */
  ghost predicate PaymentsSound(m: map<Token, Pagamento>) {
    forall t <- m :: m[t].token == t && (m[t].pagatoIl.Some? <==> m[t].stato != Pendente)
  }

  ghost predicate StoreSound(s: Store, clock: Time, stamp: Time -> string) {
    CasesSound(s.pratiche, clock, stamp) && CodesSound(s.pratiche, s.contatore) && PaymentsSound(s.pagamenti)
  }

  lemma CasesLater(m: map<Id, Pratica>, clock: Time, now: Time, stamp: Time -> string)
    requires CasesSound(m, clock, stamp) && clock <= now
    ensures CasesSound(m, now, stamp)
  {
    forall id <- m ensures Pratiche.Sound(m[id], now, stamp) {
      SoundLater(m[id], clock, now, stamp);
    }
  }

  lemma PutSound(m: map<Id, Pratica>, id: Id, p: Pratica, clock: Time, stamp: Time -> string)
    requires CasesSound(m, clock, stamp) && Pratiche.Sound(p, clock, stamp) && p.id == id
    ensures CasesSound(m[id := p], clock, stamp)
  {
  }

  lemma UpdateKeepsCases(s: Store, id: Id, u: Pratiche.Update, clock: Time, now: Instant, stamp: Time -> string)
    requires CasesSound(s.pratiche, clock, stamp) && clock <= now
    ensures CasesSound(Step(s, Op.Update(id, u), now, stamp).0.pratiche, now, stamp)
  {
    CasesLater(s.pratiche, clock, now, stamp);
    if id in s.pratiche {
      var env := Env(s.utenti, stamp);
      var r := Apply(s.pratiche[id], u, now, env);
      if r.Ok? {
        ApplyKeepsSound(s.pratiche[id], u, clock, now, env);
        ApplyIsLater(s.pratiche[id], u, now, env);
        PutSound(s.pratiche, id, r.value, now, stamp);
      }
    }
  }

  lemma {:induction false} StepKeepsCases(s: Store, op: Op, clock: Time, now: Instant, stamp: Time -> string)
    requires CasesSound(s.pratiche, clock, stamp) && clock <= now && Fresh(s, op)
    ensures CasesSound(Step(s, op, now, stamp).0.pratiche, now, stamp)
  {
    if op.Update? {
      UpdateKeepsCases(s, op.id, op.update, clock, now, stamp);
    } else {
      CasesLater(s.pratiche, clock, now, stamp);
      if op.CreatePratica? {
        var p := NewPratica(op.id, Render(op.anno, s.contatore + 1), op.utente, op.dati, op.attore, now);
        NewIsSound(op.id, p.codice, op.utente, op.dati, op.attore, now, stamp);
        PutSound(s.pratiche, op.id, p, now, stamp);
      }
    }
  }

  lemma PutSameCode(m: map<Id, Pratica>, last: nat, id: Id, p: Pratica)
    requires CodesSound(m, last) && id in m && p.codice == m[id].codice
    ensures CodesSound(m[id := p], last)
  {
  }

  lemma NewCodeIsNew(codice: string, last: nat, anno: nat)
    requires Numbered(codice, last)
    ensures Numbered(codice, last + 1) && codice != Render(anno, last + 1)
  {
    ParseRender(anno, last + 1);
  }

  lemma PutNewCode(m: map<Id, Pratica>, last: nat, id: Id, p: Pratica, anno: nat)
    requires CodesSound(m, last) && id !in m && p.codice == Render(anno, last + 1)
    ensures CodesSound(m[id := p], last + 1)
  {
    forall k <- m ensures Numbered(m[k].codice, last + 1) && m[k].codice != p.codice {
      NewCodeIsNew(m[k].codice, last, anno);
    }
    assert Numbered(p.codice, last + 1) by { ParseRender(anno, last + 1); }
  }

  /** An update either changes nothing or puts a later version of the one case. */
  lemma UpdateShape(s: Store, id: Id, u: Pratiche.Update, now: Instant, stamp: Time -> string)
    ensures var s' := Step(s, Op.Update(id, u), now, stamp).0;
            s' == s || (id in s.pratiche && id in s'.pratiche && Later(s.pratiche[id], s'.pratiche[id])
                        && s' == s.(pratiche := s.pratiche[id := s'.pratiche[id]]))
  {
    if id in s.pratiche && Apply(s.pratiche[id], u, now, Env(s.utenti, stamp)).Ok? {
      ApplyIsLater(s.pratiche[id], u, now, Env(s.utenti, stamp));
    }
  }

  lemma {:induction false} StepKeepsCodes(s: Store, op: Op, now: Instant, stamp: Time -> string)
    requires CodesSound(s.pratiche, s.contatore) && Fresh(s, op)
    ensures var s' := Step(s, op, now, stamp).0; CodesSound(s'.pratiche, s'.contatore)
  {
    var s' := Step(s, op, now, stamp).0;
    if op.CreatePratica? {
      PutNewCode(s.pratiche, s.contatore, op.id, s'.pratiche[op.id], op.anno);
    } else if op.Update? {
      UpdateShape(s, op.id, op.update, now, stamp);
      if s' != s {
        PutSameCode(s.pratiche, s.contatore, op.id, s'.pratiche[op.id]);
      }
    }
  }

  lemma StepKeepsPayments(s: Store, op: Op, now: Instant, stamp: Time -> string)
    requires PaymentsSound(s.pagamenti)
    ensures PaymentsSound(Step(s, op, now, stamp).0.pagamenti)
  {
  }

  lemma {:induction false} StepKeepsSound(s: Store, op: Op, clock: Time, now: Instant, stamp: Time -> string)
    requires StoreSound(s, clock, stamp) && clock <= now && Fresh(s, op)
    ensures StoreSound(Step(s, op, now, stamp).0, now, stamp)
  {
    StepKeepsCases(s, op, clock, now, stamp);
    StepKeepsCodes(s, op, now, stamp);
    StepKeepsPayments(s, op, now, stamp);
  }

  datatype Timed = Timed(op: Op, at: Instant)

  function Run(run: seq<Timed>, stamp: Time -> string): Store {
    if run == [] then EMPTY
    else Step(Run(run[..|run| - 1], stamp), run[|run| - 1].op, run[|run| - 1].at, stamp).0
  }

  function ClockAfter(run: seq<Timed>): Time {
    if run == [] then 0 else run[|run| - 1].at
  }

  /** New identifiers are fresh, and the clock does not run backwards. */
  predicate Legal(run: seq<Timed>, stamp: Time -> string) {
    run == [] ||
    (var init, last := run[..|run| - 1], run[|run| - 1];
     Legal(init, stamp) && ClockAfter(init) <= last.at && Fresh(Run(init, stamp), last.op))
  }

  /** In every reachable store each log replays to the stored fields, codes are distinct, and a payment carries
      its payment date exactly when it has left the pending state. */
  lemma {:induction false} EveryRunIsSound(run: seq<Timed>, stamp: Time -> string)
    requires Legal(run, stamp)
    ensures StoreSound(Run(run, stamp), ClockAfter(run), stamp)
  {
    if run != [] {
      var init, last := run[..|run| - 1], run[|run| - 1];
      EveryRunIsSound(init, stamp);
      StepKeepsSound(Run(init, stamp), last.op, ClockAfter(init), last.at, stamp);
    }
  }

  /** Spaces around an event id make no other event of it; different events of one provider have different keys. */
  lemma WebhookKeysTellEventsApart(provider: string, eventID: string, eventID': string)
    ensures WebhookKey(provider, eventID) == WebhookKey(provider, eventID')
       <==> TrimSpace(eventID) == TrimSpace(eventID')
  {
    var n := |provider + ":"|;
    assert WebhookKey(provider, eventID)[n..] == TrimSpace(eventID);
    assert WebhookKey(provider, eventID')[n..] == TrimSpace(eventID');
  }

  // ---------------------------------------------------------- what calls do

  /** A confirmed payment can be refunded, once, whatever it went through before; it keeps its case and the date of its
      confirmation. */
  lemma ConfirmedIsRefundedOnce(s: Store, token: Token, t: Instant, now: Instant, later: Instant, stamp: Time -> string)
    requires token in s.pagamenti
    ensures var (s1, confirmed) := Step(s, ConfirmPayment(token), t, stamp);
            var (s2, refunded) := Step(s1, RefundPayment(token), now, stamp);
            && confirmed == Accepted && refunded == Accepted
            && Step(s2, RefundPayment(token), later, stamp) == (s2, Refused(InvalidState))
            && s2 == s.(pagamenti := s.pagamenti[token := s2.pagamenti[token]])
            && s2.pagamenti[token] == s.pagamenti[token].(stato := Rimborsato, pagatoIl := Some(t))
  {
    assert s.pagamenti[token := Confirmed(s.pagamenti[token], t)].Keys == s.pagamenti.Keys;
  }

  /** Only a payment that is confirmed and not refunded since can be refunded. */
  lemma RefundsNeedConfirmation(s: Store, token: Token, now: Instant, stamp: Time -> string)
    ensures var (s', outcome) := Step(s, RefundPayment(token), now, stamp);
            && (outcome == Accepted <==> token in s.pagamenti && s.pagamenti[token].stato == Completato)
            && (outcome != Accepted ==>
                  s' == s && outcome == Refused(if token in s.pagamenti then InvalidState else NotFound))
  {
  }

  /** An event is new once. */
  lemma EventsAreNewOnce(s: Store, key: string, t: Instant, now: Instant, stamp: Time -> string)
    requires key != ":"
    ensures var (s', outcome) := Step(s, MarkProcessed(key), t, stamp);
            && (outcome == Accepted <==> key !in s.webhooks) && (outcome != Accepted ==> outcome == AlreadyProcessed)
            && Step(s', MarkProcessed(key), now, stamp) == (s', AlreadyProcessed)
            && (forall k | k != key :: k in s'.webhooks <==> k in s.webhooks)
  {
  }

  /** Nobody but its owner edits or deletes a draft, and nobody edits or deletes anything else that way; other cases are
      left alone. */
  lemma DraftsBelongToTheirOwner(s: Store, id: Id, utente: Id, m: Modifica, now: Instant, stamp: Time -> string)
    ensures var own := id in s.pratiche && s.pratiche[id].utenteID == utente && s.pratiche[id].stato == Bozza;
            var why := if id in s.pratiche then ForbiddenState else NotFound;
            var (deleted, edited) := (Step(s, DeletePraticaAsDraft(id, utente), now, stamp),
                                      Step(s, Op.Update(id, UpdateAsDraft(utente, m)), now, stamp));
            && deleted == (if own then (s.(pratiche := s.pratiche - {id}), Accepted) else (s, Refused(why)))
            && (edited.1 == Accepted <==> own) && (!own ==> edited == (s, Refused(why)))
            && edited.0.pratiche - {id} == s.pratiche - {id}
  {
  }

  /** A new case is a draft of the user, with the data given, nothing else in it, and nothing else changed. */
  lemma NewCaseIsADraft(s: Store, id: Id, utente: Id, dati: Dati, attore: Id, anno: nat, now: Instant,
                        stamp: Time -> string)
    requires id !in s.pratiche
    ensures var (s', outcome) := Step(s, Op.CreatePratica(id, utente, dati, attore, anno), now, stamp);
            && outcome == Accepted && id in s'.pratiche && s'.pratiche - {id} == s.pratiche
            && var p := s'.pratiche[id];
               && p.id == id && p.utenteID == utente && p.dati == dati && p.stato == Bozza && p.creatoIl == now
               && p.aggiornatoIl == now && p.documenti == []
               && p.operatoreID == p.noteInterne == p.noteRichiedente == ""
               && p.inviatoIl.None? && p.completatoIl.None? && p.eventi == [PraticaCreata(attore, now)]
  {
  }

  /** A payment can be created for a stored case in any state, and is pending then. */
  lemma NewPaymentIsPending(s: Store, praticaID: Id, token: Token, now: Instant, stamp: Time -> string)
    ensures var (s', outcome) := Step(s, Op.CreatePayment(praticaID, token), now, stamp);
            && (outcome == Accepted <==> praticaID in s.pratiche)
            && (outcome != Accepted ==> s' == s && outcome == Refused(NotFound))
            && (outcome == Accepted ==>
                  && s' == s.(pagamenti := s'.pagamenti) && s'.pagamenti - {token} == s.pagamenti - {token}
                  && token in s'.pagamenti && s'.pagamenti[token] == Pagamento(praticaID, token, Pendente, None, now))
  {
  }

  /** Whoever was created can be assigned, to any stored case. */
  lemma CreatedUsersCanBeAssigned(s: Store, utente: Id, id: Id, attore: Id, t: Instant, now: Instant,
                                  stamp: Time -> string)
    requires id in s.pratiche
    ensures var s' := Step(s, CreateUser(utente), t, stamp).0;
            var (s'', outcome) := Step(s', Op.Update(id, AssignOperatore(utente, attore)), now, stamp);
            && s' == s.(utenti := s.utenti + {utente})
            && outcome == Accepted && id in s''.pratiche && s''.pratiche[id].operatoreID == utente
  {
  }

  /** Every operator on a stored case is a known user. */
  ghost predicate OperatorsKnown(s: Store) {
    forall id <- s.pratiche :: s.pratiche[id].operatoreID == "" || s.pratiche[id].operatoreID in s.utenti
  }

  lemma UpdateKeepsOperators(p: Pratica, u: Pratiche.Update, now: Instant, env: Env)
    requires Apply(p, u, now, env).Ok?
    ensures var q := Apply(p, u, now, env).value; q.operatoreID == p.operatoreID || q.operatoreID in env.utenti
  {
  }

  lemma StepKeepsOperators(s: Store, op: Op, now: Instant, stamp: Time -> string)
    requires OperatorsKnown(s)
    ensures OperatorsKnown(Step(s, op, now, stamp).0)
  {
    if op.Update? && op.id in s.pratiche && Apply(s.pratiche[op.id], op.update, now, Env(s.utenti, stamp)).Ok? {
      UpdateKeepsOperators(s.pratiche[op.id], op.update, now, Env(s.utenti, stamp));
    }
  }

  /** In every reachable store the operators of all cases are known users. */
  lemma {:induction false} EveryOperatorIsKnown(run: seq<Timed>, stamp: Time -> string)
    ensures OperatorsKnown(Run(run, stamp))
  {
    if run != [] {
      EveryOperatorIsKnown(run[..|run| - 1], stamp);
      StepKeepsOperators(Run(run[..|run| - 1], stamp), run[|run| - 1].op, run[|run| - 1].at, stamp);
    }
  }

  // ------------------------------------------------------------------ codes

  /** The codes of all cases ever created, also of drafts deleted since, in the order of their creation. */
  function CodesGiven(run: seq<Timed>, stamp: Time -> string): seq<string> {
    if run == [] then []
    else
      var init, op := run[..|run| - 1], run[|run| - 1].op;
      CodesGiven(init, stamp)
      + if op.CreatePratica? then
          assert op.id in Run(run, stamp).pratiche;
          [Run(run, stamp).pratiche[op.id].codice]
        else []
  }

  function YearsOf(run: seq<Timed>): seq<nat> {
    if run == [] then []
    else
      var op := run[|run| - 1].op;
      YearsOf(run[..|run| - 1]) + if op.CreatePratica? then [op.anno] else []
  }

  lemma OneMoreCode(years: seq<nat>, year: nat)
    ensures Codes(0, years + [year]) == Codes(0, years) + [Render(year, |years| + 1)]
  {
    var a, b := Codes(0, years + [year]), Codes(0, years) + [Render(year, |years| + 1)];
    forall i | 0 <= i < |a| ensures a[i] == b[i] {
    }
  }

  /** Over a run the store numbers its creations one after the other, deletions or not. */
  lemma {:induction false} CodesGivenAre(run: seq<Timed>, stamp: Time -> string)
    ensures CodesGiven(run, stamp) == Codes(0, YearsOf(run))
    ensures Run(run, stamp).contatore == |YearsOf(run)|
  {
    if run != [] {
      var init, last := run[..|run| - 1], run[|run| - 1];
      CodesGivenAre(init, stamp);
      CounterStep(Run(init, stamp), last.op, last.at, stamp);
      if last.op.CreatePratica? {
        OneMoreCode(YearsOf(init), last.op.anno);
      }
    }
  }

  lemma CounterStep(s: Store, op: Op, now: Instant, stamp: Time -> string)
    ensures Step(s, op, now, stamp).0.contatore == s.contatore + if op.CreatePratica? then 1 else 0
  {
  }

  /** No code is ever given twice, in any run, in whatever years its cases are created and whichever are deleted. */
  lemma CodesNeverRepeat(run: seq<Timed>, stamp: Time -> string, i: nat, j: nat)
    requires i < j < |CodesGiven(run, stamp)|
    ensures CodesGiven(run, stamp)[i] != CodesGiven(run, stamp)[j]
  {
    CodesGivenAre(run, stamp);
    CodesDistinct(0, YearsOf(run), i, j);
  }

  // -------------------------------------------------------------- evolution

  /** A case past the draft stage stays in the store, and what is stored later is a later version of it. */
  ghost predicate Evolves(m: map<Id, Pratica>, m': map<Id, Pratica>) {
    forall id <- m :: m[id].stato != Bozza ==> id in m' && Later(m[id], m'[id])
  }

  lemma {:induction false} StepEvolves(s: Store, op: Op, now: Instant, stamp: Time -> string)
    requires Fresh(s, op)
    ensures Evolves(s.pratiche, Step(s, op, now, stamp).0.pratiche)
  {
    match op {
      case Update(id, u) => UpdateShape(s, id, u, now, stamp);
      case CreatePratica(id, _, _, _, _) =>
      case DeletePraticaAsDraft(id, _) =>
      case _ => assert Step(s, op, now, stamp).0.pratiche == s.pratiche;
    }
  }
}
