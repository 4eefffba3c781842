/** Visa cases: their states, their event log, and the updates both stores apply to a single case. */
module Pratiche {
  import opened Basics
  import opened Text

  type Id = string

  datatype Stato =
    | Bozza | Inviata | InLavorazione | IntegrazioneRichiesta | Sospesa | Approvata | Rifiutata
    | AttendePagamento | PagamentoRicevuto | VistoInElaborazione | VistoEmesso | Completata | Annullata
    | Ignoto  // any other text an operator may ask for

  /** `allowedTransitions` */
  predicate Allowed(from: Stato, to: Stato) {
    match from
    case Bozza => to in {Annullata, Inviata}
    case Inviata => to in {InLavorazione, Rifiutata}
    case InLavorazione => to in {Sospesa, IntegrazioneRichiesta, Approvata, Rifiutata}
    case IntegrazioneRichiesta => to in {Approvata, InLavorazione}
    case Sospesa => to in {InLavorazione, Rifiutata}
    case Approvata => to == AttendePagamento
    case AttendePagamento => to == PagamentoRicevuto
    case PagamentoRicevuto => to == VistoInElaborazione
    case VistoInElaborazione => to == VistoEmesso
    case VistoEmesso => to == Completata
    case _ => false
  }

  datatype Evento =
    | PraticaCreata(attore: Id, il: Time)
    | StatoCambiato(attore: Id, da: Stato, a: Stato, messaggio: string, il: Time)
    | AssegnazioneOperatore(attore: Id, operatore: Id, il: Time)
    | NotaAggiunta(attore: Id, messaggio: string, interna: bool, il: Time)

  datatype Documento = Documento(id: Id, nomeFile: string, caricatoIl: Time)

  datatype Dati = Dati(tipoVisto: string, paeseDest: string, anagrafici: string, passaporto: string)

  datatype Pratica = Pratica(
    id: Id, codice: string, utenteID: Id, operatoreID: Id, dati: Dati, stato: Stato,
    noteInterne: string, noteRichiedente: string, creatoIl: Time, aggiornatoIl: Time,
    inviatoIl: Option<Time>, completatoIl: Option<Time>, documenti: seq<Documento>, eventi: seq<Evento>)

  /** What an update needs to know besides the case: the known users and how an instant is rendered in a note. */
  datatype Env = Env(utenti: set<Id>, stamp: Time -> string)

  /** The draft fields a request may carry. */
  datatype Modifica = Modifica(tipoVisto: Option<string>, paeseDest: Option<string>,
                               anagrafici: Option<string>, passaporto: Option<string>)

  datatype Update =
    | ChangeState(attore: Id, next: Stato, nota: string)
    | AssignOperatore(operatore: Id, attore: Id)
    | AddNota(attore: Id, messaggio: string, interna: bool)
    | AddDocumento(documento: Documento)  // already carries its id and its own clock reading
    | DeleteDocumento(documentoID: Id)
    | UpdateAsDraft(utente: Id, modifica: Modifica)

  /** `CreatePratica`, as the handlers call it: no operator and no notes yet. */
  function NewPratica(id: Id, codice: string, utente: Id, dati: Dati, attore: Id, now: Instant): Pratica {
    Pratica(id, codice, utente, "", dati, Bozza, "", "", now, now, None, None, [], [PraticaCreata(attore, now)])
  }

  function Changed(p: Pratica, attore: Id, next: Stato, nota: string, now: Instant): Pratica {
    p.(stato := next, aggiornatoIl := now,
       inviatoIl := if next == Inviata then Some(now) else p.inviatoIl,
       completatoIl := if next == Completata then Some(now) else p.completatoIl,
       eventi := p.eventi + [StatoCambiato(attore, p.stato, next, nota, now)])
  }

  function Appended(stamp: Time -> string, note: string, nota: string, now: Time): string {
    (if note != "" then note + "\n" else "") + stamp(now) + " | " + nota
  }

  function Annotated(p: Pratica, attore: Id, nota: string, interna: bool, now: Instant, stamp: Time -> string):
      Pratica
  {
    p.(noteInterne := if interna then Appended(stamp, p.noteInterne, nota, now) else p.noteInterne,
       noteRichiedente := if interna then p.noteRichiedente else Appended(stamp, p.noteRichiedente, nota, now),
       aggiornatoIl := now,
       eventi := p.eventi + [NotaAggiunta(attore, nota, interna, now)])
  }

  /** The documents with another id, in the same order. */
  function Without(documenti: seq<Documento>, id: Id): seq<Documento> {
    if documenti == [] then []
    else
      var last := documenti[|documenti| - 1];
      Without(documenti[..|documenti| - 1], id) + if last.id == id then [] else [last]
  }

  function Given(field: string, change: Option<string>): string {
    if change.Some? && TrimSpace(change.value) != "" then change.value else field
  }

  function Edited(dati: Dati, m: Modifica): Dati {
    Dati(Given(dati.tipoVisto, m.tipoVisto), Given(dati.paeseDest, m.paeseDest),
         if m.anagrafici.Some? then m.anagrafici.value else dati.anagrafici,
         if m.passaporto.Some? then m.passaporto.value else dati.passaporto)
  }

  /** What one store call makes of the case it found. */
  function Apply(p: Pratica, u: Update, now: Instant, env: Env): Result<Pratica, StoreError> {
    match u
    case ChangeState(attore, next, nota) =>
      if Allowed(p.stato, next) then Ok(Changed(p, attore, next, nota, now)) else Err(InvalidState)
    case AssignOperatore(operatore, attore) =>
      if operatore !in env.utenti then Err(NotFound)
      else Ok(p.(operatoreID := operatore, aggiornatoIl := now,
                 eventi := p.eventi + [AssegnazioneOperatore(attore, operatore, now)]))
    case AddNota(attore, messaggio, interna) =>
      if TrimSpace(messaggio) == "" then Err(ForbiddenState)
      else Ok(Annotated(p, attore, TrimSpace(messaggio), interna, now, env.stamp))
    case AddDocumento(d) =>
      Ok(p.(documenti := p.documenti + [d], aggiornatoIl := now))
    case DeleteDocumento(id) =>
      if forall d <- p.documenti :: d.id != id then Ok(p)
      else Ok(p.(documenti := Without(p.documenti, id), aggiornatoIl := now))
    case UpdateAsDraft(utente, modifica) =>
      if p.utenteID != utente || p.stato != Bozza then Err(ForbiddenState)
      else Ok(p.(dati := Edited(p.dati, modifica), aggiornatoIl := now))
  }

  // ----------------------------------------------------------------- replay

  /** The fields of a case that its log determines. */
  datatype Vista = Vista(stato: Stato, inviatoIl: Option<Time>, completatoIl: Option<Time>,
                         operatoreID: Id, noteInterne: string, noteRichiedente: string)

  function Fields(p: Pratica): Vista {
    Vista(p.stato, p.inviatoIl, p.completatoIl, p.operatoreID, p.noteInterne, p.noteRichiedente)
  }

  function Advance(v: Vista, e: Evento, stamp: Time -> string): Option<Vista> {
    match e
    case PraticaCreata(_, _) => None
    case StatoCambiato(_, da, a, _, il) =>
      if da != v.stato || !Allowed(da, a) then None
      else Some(v.(stato := a, inviatoIl := if a == Inviata then Some(il) else v.inviatoIl,
                   completatoIl := if a == Completata then Some(il) else v.completatoIl))
    case AssegnazioneOperatore(_, operatore, _) => Some(v.(operatoreID := operatore))
    case NotaAggiunta(_, nota, interna, il) =>
      if interna then Some(v.(noteInterne := Appended(stamp, v.noteInterne, nota, il)))
      else Some(v.(noteRichiedente := Appended(stamp, v.noteRichiedente, nota, il)))
  }

  /** The fields rebuilt from the log alone; nothing when the log does not start with the creation or when a
      state event does not continue the path in `Allowed`. */
  function Replay(log: seq<Evento>, stamp: Time -> string): Option<Vista> {
    if log == [] then None
    else if |log| == 1 then
      if log[0].PraticaCreata? then Some(Vista(Bozza, None, None, "", "", "")) else None
    else
      var before := Replay(log[..|log| - 1], stamp);
      if before.None? then None else Advance(before.value, log[|log| - 1], stamp)
  }

  ghost predicate InOrder(log: seq<Evento>, clock: Time) {
    && (forall i, j :: 0 <= i < j < |log| ==> log[i].il <= log[j].il)
    && (forall e <- log :: e.il <= clock)
  }

  /** The log tells the whole story of the case. */
  ghost predicate Sound(p: Pratica, clock: Time, stamp: Time -> string) {
    Replay(p.eventi, stamp) == Some(Fields(p)) && InOrder(p.eventi, clock)
  }

  lemma NewIsSound(id: Id, codice: string, utente: Id, dati: Dati, attore: Id, now: Instant, stamp: Time -> string)
    ensures Sound(NewPratica(id, codice, utente, dati, attore, now), now, stamp)
  {
  }

  lemma OneMoreEvent(log: seq<Evento>, e: Evento, clock: Time, stamp: Time -> string)
    requires log != [] && Replay(log, stamp).Some? && InOrder(log, clock) && clock <= e.il
    ensures Replay(log + [e], stamp) == Advance(Replay(log, stamp).value, e, stamp)
    ensures InOrder(log + [e], e.il)
  {
    assert (log + [e])[..|log|] == log;
  }

  /** An update that logs one event keeps the log sound if the event tells what changed. */
  lemma LoggedKeepsSound(p: Pratica, q: Pratica, e: Evento, clock: Time, stamp: Time -> string)
    requires Sound(p, clock, stamp) && clock <= e.il && q.eventi == p.eventi + [e]
    requires Advance(Fields(p), e, stamp) == Some(Fields(q))
    ensures Sound(q, e.il, stamp)
  {
    OneMoreEvent(p.eventi, e, clock, stamp);
  }

  lemma SilentKeepsSound(p: Pratica, q: Pratica, clock: Time, now: Time, stamp: Time -> string)
    requires Sound(p, clock, stamp) && clock <= now && q.eventi == p.eventi && Fields(q) == Fields(p)
    ensures Sound(q, now, stamp)
  {
  }

  /** What an accepted update appends to the log. */
  function Logged(p: Pratica, u: Update, now: Instant): seq<Evento> {
    match u
    case ChangeState(attore, next, nota) => [StatoCambiato(attore, p.stato, next, nota, now)]
    case AssignOperatore(operatore, attore) => [AssegnazioneOperatore(attore, operatore, now)]
    case AddNota(attore, messaggio, interna) => [NotaAggiunta(attore, TrimSpace(messaggio), interna, now)]
    case _ => []
  }

  lemma ApplyLogs(p: Pratica, u: Update, now: Instant, env: Env)
    requires Apply(p, u, now, env).Ok?
    ensures var q, log := Apply(p, u, now, env).value, Logged(p, u, now);
            && q.eventi == p.eventi + log
            && (if log == [] then Fields(q) == Fields(p) else Advance(Fields(p), log[0], env.stamp) == Some(Fields(q)))
  {
  }

  /** Every update keeps the log sound and only ever adds to it. */
  lemma {:induction false} ApplyKeepsSound(p: Pratica, u: Update, clock: Time, now: Instant, env: Env)
    requires Sound(p, clock, env.stamp) && clock <= now && Apply(p, u, now, env).Ok?
    ensures Sound(Apply(p, u, now, env).value, now, env.stamp)
    ensures p.eventi <= Apply(p, u, now, env).value.eventi
  {
    var q, log := Apply(p, u, now, env).value, Logged(p, u, now);
    ApplyLogs(p, u, now, env);
    if log == [] {
      SilentKeepsSound(p, q, clock, now, env.stamp);
    } else {
      LoggedKeepsSound(p, q, log[0], clock, env.stamp);
    }
  }

  /** `q` is a later version of the case `p`: same identity, a step along `Allowed` at most, a longer log. */
  ghost predicate Later(p: Pratica, q: Pratica) {
    && q.id == p.id && q.codice == p.codice && q.utenteID == p.utenteID
    && (q.stato == p.stato || Allowed(p.stato, q.stato))
    && p.eventi <= q.eventi
    && (p.inviatoIl.Some? ==> q.inviatoIl.Some?)
  }

  lemma ApplyIsLater(p: Pratica, u: Update, now: Instant, env: Env)
    requires Apply(p, u, now, env).Ok?
    ensures Later(p, Apply(p, u, now, env).value)
  {
  }

  lemma SoundLater(p: Pratica, clock: Time, now: Time, stamp: Time -> string)
    requires Sound(p, clock, stamp) && clock <= now
    ensures Sound(p, now, stamp)
  {
  }

  // ----------------------------------------------------- what updates change

  /** Whatever is written is dated; no update touches who the case belongs to, its code or its creation, and only the
      updates meant for them touch the documents and the applicant's data. */
  lemma {:induction false} UpdatesKeepTheRest(p: Pratica, u: Update, now: Instant, env: Env)
    requires Apply(p, u, now, env).Ok?
    ensures var q := Apply(p, u, now, env).value;
            && (q == p || q.aggiornatoIl == now)
            && q.id == p.id && q.codice == p.codice && q.utenteID == p.utenteID && q.creatoIl == p.creatoIl
            && (!u.AddDocumento? && !u.DeleteDocumento? ==> q.documenti == p.documenti)
            && (!u.UpdateAsDraft? ==> q.dati == p.dati)
  {
  }

  /** A document is added at the end, and deleted without disturbing the others. */
  lemma DocumentsComeAndGo(p: Pratica, d: Documento, id: Id, now: Instant, env: Env)
    ensures var r := Apply(p, AddDocumento(d), now, env); r.Ok? && r.value.documenti == p.documenti + [d]
    ensures var r := Apply(p, DeleteDocumento(id), now, env);
            r.Ok? && forall e :: e in r.value.documenti <==> e in p.documenti && e.id != id
  {
    WithoutKeepsOthers(p.documenti, id);
  }

  lemma {:induction false} WithoutKeepsOthers(documenti: seq<Documento>, id: Id)
    ensures forall e :: e in Without(documenti, id) <==> e in documenti && e.id != id
  {
    if documenti != [] {
      var init, last := documenti[..|documenti| - 1], documenti[|documenti| - 1];
      WithoutKeepsOthers(init, id);
      assert documenti == init + [last];
    }
  }

  lemma AppendedLine(stamp: Time -> string, before: string, nota: string, now: Time)
    ensures var line := stamp(now) + " | " + nota;
            Appended(stamp, before, nota, now) == if before == "" then line else before + "\n" + line
  {
    if before != "" {
      assert before + "\n" + stamp(now) + " | " + nota == before + "\n" + (stamp(now) + " | " + nota);
    } else {
      assert "" + stamp(now) == stamp(now);
    }
  }

  /** A note is written at the end of the notes it is meant for, behind its time stamp; the others stay. */
  lemma NotesGrow(p: Pratica, attore: Id, messaggio: string, interna: bool, now: Instant, env: Env)
    ensures var r := Apply(p, AddNota(attore, messaggio, interna), now, env);
            var line := env.stamp(now) + " | " + TrimSpace(messaggio);
            && (r.Ok? <==> TrimSpace(messaggio) != "") && (r.Err? ==> r.error == ForbiddenState)
            && (r.Ok? ==>
                  var (before, after) := if interna then (p.noteInterne, r.value.noteInterne)
                                         else (p.noteRichiedente, r.value.noteRichiedente);
                  && (if before == "" then after == line else after == before + "\n" + line)
                  && (if interna then r.value.noteRichiedente == p.noteRichiedente
                      else r.value.noteInterne == p.noteInterne))
  {
    AppendedLine(env.stamp, if interna then p.noteInterne else p.noteRichiedente, TrimSpace(messaggio), now);
  }

  /** An edit takes each field the request fills in, keeps the others, and is refused to anybody but the owner and to
      any case but a draft. */
  lemma EditsTakeTheirFields(p: Pratica, utente: Id, m: Modifica, now: Instant, env: Env)
    ensures var r := Apply(p, UpdateAsDraft(utente, m), now, env);
            && (r.Ok? <==> p.utenteID == utente && p.stato == Bozza) && (r.Err? ==> r.error == ForbiddenState)
            && (r.Ok? ==>
                  var d := r.value.dati;
                  && (m.tipoVisto.Some? && !Blank(m.tipoVisto.value) ==> d.tipoVisto == m.tipoVisto.value)
                  && (m.tipoVisto.None? || Blank(m.tipoVisto.value) ==> d.tipoVisto == p.dati.tipoVisto)
                  && (m.paeseDest.Some? && !Blank(m.paeseDest.value) ==> d.paeseDest == m.paeseDest.value)
                  && (m.paeseDest.None? || Blank(m.paeseDest.value) ==> d.paeseDest == p.dati.paeseDest)
                  && m.anagrafici in {None, Some(d.anagrafici)} && m.passaporto in {None, Some(d.passaporto)}
                  && (m.anagrafici.None? ==> d.anagrafici == p.dati.anagrafici)
                  && (m.passaporto.None? ==> d.passaporto == p.dati.passaporto))
  {
  }

  /** An operator can only be one of the known users. */
  lemma OnlyKnownOperators(p: Pratica, operatore: Id, attore: Id, now: Instant, env: Env)
    ensures var r := Apply(p, AssignOperatore(operatore, attore), now, env);
            && (r.Ok? <==> operatore in env.utenti) && (r.Err? ==> r.error == NotFound)
            && (r.Ok? ==> r.value.operatoreID == operatore)
  {
  }

  // ------------------------------------------------------------------ paths

  /** From where a state can be entered. */
  function Predecessors(to: Stato): set<Stato> {
    match to
    case Inviata => {Bozza}
    case InLavorazione => {Inviata, IntegrazioneRichiesta, Sospesa}
    case IntegrazioneRichiesta => {InLavorazione}
    case Sospesa => {InLavorazione}
    case Approvata => {InLavorazione, IntegrazioneRichiesta}
    case Rifiutata => {Inviata, InLavorazione, Sospesa}
    case AttendePagamento => {Approvata}
    case PagamentoRicevuto => {AttendePagamento}
    case VistoInElaborazione => {PagamentoRicevuto}
    case VistoEmesso => {VistoInElaborazione}
    case Completata => {VistoEmesso}
    case Annullata => {Bozza}
    case _ => {}
  }

  lemma AllowedByPredecessors(from: Stato, to: Stato)
    ensures Allowed(from, to) <==> from in Predecessors(to)
  {
  }

  predicate IsWay(from: Stato, way: seq<Stato>, to: Stato)
    decreases |way|
  {
    if way == [] then from == to else Allowed(from, way[0]) && IsWay(way[0], way[1..], to)
  }

  ghost predicate CanReach(from: Stato, to: Stato) {
    exists way :: IsWay(from, way, to)
  }

  lemma OneMoreStep(from: Stato, next: Stato, to: Stato)
    requires Allowed(from, next) && CanReach(next, to)
    ensures CanReach(from, to)
  {
    var way :| IsWay(next, way, to);
    assert ([next] + way)[1..] == way;
    assert IsWay(from, [next] + way, to);
  }

  lemma ApprovedCanComplete()
    ensures CanReach(Approvata, Completata) && CanReach(AttendePagamento, Completata)
    ensures CanReach(PagamentoRicevuto, Completata) && CanReach(VistoInElaborazione, Completata)
    ensures CanReach(VistoEmesso, Completata) && CanReach(Completata, Completata)
  {
    assert IsWay(Completata, [], Completata);
    OneMoreStep(VistoEmesso, Completata, Completata);
    OneMoreStep(VistoInElaborazione, VistoEmesso, Completata);
    OneMoreStep(PagamentoRicevuto, VistoInElaborazione, Completata);
    OneMoreStep(AttendePagamento, PagamentoRicevuto, Completata);
    OneMoreStep(Approvata, AttendePagamento, Completata);
  }

  lemma EndsLeadNowhere(s: Stato, way: seq<Stato>)
    requires s in {Rifiutata, Annullata, Ignoto}
    ensures !IsWay(s, way, Completata)
  {
  }

  /** A case can be brought to completion from every state but the refused, the cancelled and the unknown. */
  lemma {:induction false} CompletableIff(s: Stato)
    ensures CanReach(s, Completata) <==> s !in {Rifiutata, Annullata, Ignoto}
  {
    if s in {Rifiutata, Annullata, Ignoto} {
      forall way ensures !IsWay(s, way, Completata) { EndsLeadNowhere(s, way); }
    } else {
      ApprovedCanComplete();
      OneMoreStep(InLavorazione, Approvata, Completata);
      OneMoreStep(IntegrazioneRichiesta, Approvata, Completata);
      OneMoreStep(Sospesa, InLavorazione, Completata);
      OneMoreStep(Inviata, InLavorazione, Completata);
      OneMoreStep(Bozza, Inviata, Completata);
    }
  }

  /** How often the log enters a state. */
  function Entries(log: seq<Evento>, s: Stato): nat {
    if log == [] then 0
    else Entries(log[..|log| - 1], s)
         + match log[|log| - 1]
           case PraticaCreata(_, _) => (if s == Bozza then 1 else 0)
           case StatoCambiato(_, _, a, _, _) => (if s == a then 1 else 0)
           case _ => 0
  }

  /** How often the log goes from one given state to another; `Exits` adds up over all targets. */
  function Steps(log: seq<Evento>, from: Stato, to: Stato): nat {
    if log == [] then 0
    else Steps(log[..|log| - 1], from, to)
         + var e := log[|log| - 1]; if e.StatoCambiato? && e.da == from && e.a == to then 1 else 0
  }

  function Exits(log: seq<Evento>, s: Stato): nat {
    if log == [] then 0
    else Exits(log[..|log| - 1], s)
         + var e := log[|log| - 1]; if e.StatoCambiato? && e.da == s then 1 else 0
  }

  predicate Working(s: Stato) {
    s in {InLavorazione, IntegrazioneRichiesta, Sospesa}
  }

  function Rank(s: Stato): nat {
    match s
    case Bozza => 0
    case Inviata => 1
    case InLavorazione => 2
    case IntegrazioneRichiesta => 2
    case Sospesa => 2
    case Approvata => 3
    case AttendePagamento => 4
    case PagamentoRicevuto => 5
    case VistoInElaborazione => 6
    case VistoEmesso => 7
    case _ => 8
  }

  /** The states that every path to `s` goes through. */
  function Milestones(s: Stato): set<Stato> {
    match s
    case Bozza => {Bozza}
    case Annullata => {Bozza, Annullata}
    case Ignoto => {}
    case Inviata => {Bozza, Inviata}
    case Rifiutata => {Bozza, Inviata, Rifiutata}
    case _ => (set t | t in Chain() && Rank(t) <= Rank(s)) + {s}
  }

  /** The one way from a draft to a completed case, apart from the working loops. */
  function Chain(): set<Stato> {
    {Bozza, Inviata, InLavorazione, Approvata, AttendePagamento, PagamentoRicevuto, VistoInElaborazione,
     VistoEmesso, Completata}
  }

  lemma AllowedClimbs(from: Stato, to: Stato)
    requires Allowed(from, to)
    ensures Rank(from) < Rank(to) || (Working(from) && Working(to))
    ensures Milestones(to) <= Milestones(from) + {to}
    ensures to != Bozza && to != Ignoto
  {
  }

  /** Entries minus exits is 1 for the current state and 0 for every other. */
  lemma {:induction false} EntriesBalanceExits(log: seq<Evento>, stamp: Time -> string, s: Stato)
    requires Replay(log, stamp).Some?
    ensures Entries(log, s) == Exits(log, s) + if Replay(log, stamp).value.stato == s then 1 else 0
  {
    var init := log[..|log| - 1];
    if |log| > 1 {
      EntriesBalanceExits(init, stamp, s);
    } else {
      assert init == [];
    }
  }

  /** Only the working states can be entered twice, and nothing beyond the current state was entered at all. */
  lemma {:induction false} OnlyWorkRepeats(log: seq<Evento>, stamp: Time -> string, s: Stato)
    requires Replay(log, stamp).Some?
    ensures !Working(s) ==> Entries(log, s) <= 1
    ensures Rank(s) > Rank(Replay(log, stamp).value.stato) ==> Entries(log, s) == 0
  {
    var init := log[..|log| - 1];
    if |log| > 1 {
      OnlyWorkRepeats(init, stamp, s);
      var e := log[|log| - 1];
      if e.StatoCambiato? {
        AllowedClimbs(e.da, e.a);
      }
    } else {
      assert init == [];
    }
  }

  /** Every path to the current state went through all its milestones. */
  lemma {:induction false} MilestonesVisited(log: seq<Evento>, stamp: Time -> string, s: Stato)
    requires Replay(log, stamp).Some? && s in Milestones(Replay(log, stamp).value.stato)
    ensures Entries(log, s) >= 1
  {
    var init := log[..|log| - 1];
    if |log| > 1 {
      var e := log[|log| - 1];
      if e.StatoCambiato? {
        AllowedClimbs(e.da, e.a);
      }
      if s in Milestones(Replay(init, stamp).value.stato) {
        MilestonesVisited(init, stamp, s);
      }
    } else {
      assert init == [];
    }
  }

  predicate OnlyWay(from: Stato, to: Stato) {
    Allowed(from, to) && Rank(to) >= 4
  }

  lemma OnlyPredecessor(from: Stato, other: Stato, to: Stato)
    requires OnlyWay(from, to) && to in Chain() && Allowed(other, to)
    ensures other == from && to != Bozza
  {
  }

  /** A log is replayed by replaying all but its last event first. */
  lemma LastEvent(log: seq<Evento>, stamp: Time -> string)
    requires Replay(log, stamp).Some?
    ensures log != []
    ensures |log| == 1 ==> log[0].PraticaCreata?
    ensures |log| > 1 ==> var e := log[|log| - 1];
                          Replay(log[..|log| - 1], stamp).Some? && !e.PraticaCreata?
                          && (e.StatoCambiato? ==> Allowed(e.da, e.a))
  {
  }

  lemma {:induction false} OneWayIn(log: seq<Evento>, stamp: Time -> string, from: Stato, to: Stato)
    requires Replay(log, stamp).Some? && OnlyWay(from, to) && to in Chain()
    ensures Steps(log, from, to) == Entries(log, to)
  {
    OnlyPredecessor(from, from, to);
    LastEvent(log, stamp);
    var init, e := log[..|log| - 1], log[|log| - 1];
    if |log| > 1 {
      OneWayIn(init, stamp, from, to);
      if e.StatoCambiato? && e.a == to {
        OnlyPredecessor(from, e.da, to);
      }
    } else {
      assert init == [];
    }
  }

  /** Going through each state of the payment chain once means taking each of its steps once. */
  lemma ChainOfEntries(log: seq<Evento>, stamp: Time -> string)
    requires Replay(log, stamp).Some?
    requires Entries(log, PagamentoRicevuto) == Entries(log, VistoInElaborazione) == 1
    requires Entries(log, VistoEmesso) == Entries(log, Completata) == 1
    ensures ChainTakenOnce(log)
  {
    OneWayIn(log, stamp, AttendePagamento, PagamentoRicevuto);
    OneWayIn(log, stamp, PagamentoRicevuto, VistoInElaborazione);
    OneWayIn(log, stamp, VistoInElaborazione, VistoEmesso);
    OneWayIn(log, stamp, VistoEmesso, Completata);
  }

  /** A completed case went through its submission, its processing, its approval and each step of the payment
      chain, and took each step of that chain exactly once. */
  lemma CompletedPath(log: seq<Evento>, stamp: Time -> string)
    requires Replay(log, stamp).Some? && Replay(log, stamp).value.stato == Completata
    ensures forall s <- Chain() :: Entries(log, s) >= 1
    ensures forall s <- Chain() :: s != InLavorazione ==> Entries(log, s) == 1
    ensures ChainTakenOnce(log)
  {
    forall s <- Chain() ensures Entries(log, s) >= 1 && (s != InLavorazione ==> Entries(log, s) == 1) {
      MilestonesVisited(log, stamp, s);
      OnlyWorkRepeats(log, stamp, s);
    }
    ChainOfEntries(log, stamp);
  }

  predicate ChainTakenOnce(log: seq<Evento>) {
    && Steps(log, AttendePagamento, PagamentoRicevuto) == 1
    && Steps(log, PagamentoRicevuto, VistoInElaborazione) == 1
    && Steps(log, VistoInElaborazione, VistoEmesso) == 1
    && Steps(log, VistoEmesso, Completata) == 1
  }
}
