/** The handlers of internal/httpapi/server.go that make several store calls, as processes whose atomic calls
    interleave in any order with each other's and with every other store call. */
module Handlers {
  import opened Basics
  import opened Text
  import opened Pratiche
  import S = Store
  import M = MemoryStore

  datatype WebhookPc = Reading | Marking | Confirming | Changing(done: nat) | Finished(processed: bool)
  datatype RequestPc = Checking | Requesting | Noting | Answered(changed: bool, error: Option<StoreError>)
  datatype SubmitPc = Verifying | Submitting | Submitted(error: Option<StoreError>)
  datatype SendPc = Sending | Completing | Sent(ok: bool)
  datatype LinkPc = Creating | Linking | Linked(ok: bool)

  /** One request being handled. `onChain` remembers whether the case was waiting for its payment, or further
      along the payment chain, when the four state changes of a webhook began. */
  datatype Proc =
    | Webhook(key: string, token: S.Token, wpc: WebhookPc, caso: Id, onChain: bool)
    | RequestDocumento(id: Id, attore: Id, documento: string, nota: string, rpc: RequestPc)
    | SubmitPratica(id: Id, utente: Id, spc: SubmitPc)
    | InviaVisto(id: Id, attore: Id, ipc: SendPc)
    | CreateLink(id: Id, attore: Id, token: S.Token, providerOk: bool, lpc: LinkPc)

  predicate Initial(p: Proc) {
    match p
    case Webhook(_, _, pc, _, onChain) => pc == Reading && !onChain
    case RequestDocumento(_, _, _, _, pc) => pc == Checking
    case SubmitPratica(_, _, pc) => pc == Verifying
    case InviaVisto(_, _, pc) => pc == Sending
    case CreateLink(_, _, _, _, pc) => pc == Creating
  }

  /** Where a state stands on the chain from the awaited payment to the completed case; -1 before it. */
  function ChainPosition(s: Stato): int {
    match s
    case AttendePagamento => 0
    case PagamentoRicevuto => 1
    case VistoInElaborazione => 2
    case VistoEmesso => 3
    case Completata => 4
    case _ => -1
  }

  predicate OnChain(m: map<Id, Pratica>, id: Id, position: int) {
    id in m && ChainPosition(m[id].stato) >= position
  }

  function ChainState(position: nat): Stato {
    if position == 1 then PagamentoRicevuto
    else if position == 2 then VistoInElaborazione
    else if position == 3 then VistoEmesso
    else Completata
  }

  function ChainNote(position: nat): string {
    if position == 1 then "webhook provider"
    else if position == 2 then "generazione visto"
    else if position == 3 then "visto emesso"
    else "visto consegnato"
  }

  /** The atomic store call a process makes next, if its next step changes the store at all. */
  function NextCall(p: Proc): Option<S.Op> {
    match p
    case Webhook(key, token, pc, caso, _) => (
      match pc
      case Marking => Some(S.MarkProcessed(key))
      case Confirming => Some(S.ConfirmPayment(token))
      case Changing(n) => Some(S.Op.Update(caso, ChangeState("system", ChainState(n + 1), ChainNote(n + 1))))
      case _ => None)
    case RequestDocumento(id, attore, documento, nota, pc) => (
      match pc
      case Requesting =>
        Some(S.Op.Update(id, ChangeState(attore, IntegrazioneRichiesta, "richiesta integrazione documentale")))
      case Noting => Some(S.Op.Update(id, AddNota(attore, M.RequestMessage(documento, nota), false)))
      case _ => None)
    case SubmitPratica(id, utente, pc) =>
      if pc == Submitting then Some(S.Op.Update(id, ChangeState(utente, Inviata, "pratica inviata dal richiedente")))
      else None
    case InviaVisto(id, attore, pc) => (
      match pc
      case Sending => Some(S.Op.Update(id, ChangeState(attore, VistoEmesso, "invio manuale visto")))
      case Completing => Some(S.Op.Update(id, ChangeState(attore, Completata, "pratica completata")))
      case Sent(_) => None)
    case CreateLink(id, attore, token, _, pc) => (
      match pc
      case Creating => Some(S.CreatePayment(id, token))
      case Linking => Some(S.Op.Update(id, ChangeState(attore, AttendePagamento, "link pagamento generato")))
      case Linked(_) => None)
  }

  function ErrorOf(outcome: S.Outcome): Option<StoreError> {
    if outcome.Refused? then Some(outcome.error) else None
  }

  /** Where a process stands after its step, given the store the step started from and its outcome. */
  function Resume(p: Proc, s: S.Store, outcome: S.Outcome): Proc {
    match p
    case Webhook(_, token, pc, caso, _) => (
      match pc
      case Reading => p.(wpc := if token in s.pagamenti then Marking else Finished(false))
      case Marking => p.(wpc := if outcome == S.Accepted then Confirming else Finished(false))
      case Confirming =>
        if outcome == S.Accepted && token in s.pagamenti
        then p.(wpc := Changing(0), caso := s.pagamenti[token].praticaID)
        else p.(wpc := Finished(false))
      case Changing(n) =>
        p.(wpc := if n < 3 then Changing(n + 1) else Finished(true),
           onChain := if n == 0 then OnChain(s.pratiche, caso, 0) else p.onChain)
      case Finished(_) => p)
    case RequestDocumento(id, _, _, _, pc) => (
      match pc
      case Checking =>
        p.(rpc := if id !in s.pratiche then Answered(false, Some(NotFound))
                  else if s.pratiche[id].stato in {InLavorazione, Sospesa} then Requesting
                  else Answered(false, Some(InvalidState)))
      case Requesting => p.(rpc := if outcome == S.Accepted then Noting else Answered(false, ErrorOf(outcome)))
      case Noting => p.(rpc := Answered(true, ErrorOf(outcome)))
      case Answered(_, _) => p)
    case SubmitPratica(id, utente, pc) => (
      match pc
      case Verifying =>
        p.(spc := if id !in s.pratiche then Submitted(Some(NotFound))
                  else if s.pratiche[id].utenteID != utente || s.pratiche[id].stato != Bozza
                  then Submitted(Some(ForbiddenState))
                  else Submitting)
      case Submitting => p.(spc := Submitted(ErrorOf(outcome)))
      case Submitted(_) => p)
    case InviaVisto(_, _, pc) => (
      match pc
      case Sending => p.(ipc := if outcome == S.Accepted then Completing else Sent(false))
      case Completing => p.(ipc := Sent(true))
      case Sent(_) => p)
    case CreateLink(_, _, _, providerOk, pc) => (
      match pc
      case Creating => p.(lpc := if outcome == S.Accepted && providerOk then Linking else Linked(false))
      case Linking => p.(lpc := Linked(true))
      case Linked(_) => p)
  }

  // ----------------------------------------------------------------- system

  type Pid = nat

  /** The store, the requests in progress, and what happened to payments: for which token each event key was
      marked and then confirmed, and how often each token was confirmed and refunded. */
  datatype System = System(store: S.Store, procs: map<Pid, Proc>,
                           marked: map<string, S.Token>, confirmedBy: map<string, S.Token>,
                           confirmations: multiset<S.Token>, refunds: multiset<S.Token>)

  const INITIAL := System(S.EMPTY, map[], map[], map[], multiset{}, multiset{})

  /** A request arrives, a request takes its next step, or any other handler makes its single store call. */
  datatype Move = Arrive(pid: Pid, proc: Proc) | Proceed(pid: Pid) | Call(op: S.Op)

  function CallOf(sys: System, move: Move): Option<S.Op> {
    match move
    case Arrive(_, _) => None
    case Proceed(pid) => if pid in sys.procs then NextCall(sys.procs[pid]) else None
    case Call(op) => Some(op)
  }

  function Effect(s: S.Store, call: Option<S.Op>, now: Instant, stamp: Time -> string): (S.Store, S.Outcome) {
    if call.Some? then S.Step(s, call.value, now, stamp) else (s, S.Accepted)
  }

  function Next(sys: System, move: Move, now: Instant, stamp: Time -> string): System {
    var (store, outcome) := Effect(sys.store, CallOf(sys, move), now, stamp);
    match move
    case Arrive(pid, proc) => sys.(procs := sys.procs[pid := proc])
    case Call(op) =>
      sys.(store := store,
           refunds := if op.RefundPayment? && outcome == S.Accepted then sys.refunds + multiset{op.token}
                      else sys.refunds)
    case Proceed(pid) =>
      if pid !in sys.procs then sys
      else
        var p := sys.procs[pid];
        var marks := p.Webhook? && p.wpc == Marking && outcome == S.Accepted;
        var confirms := p.Webhook? && p.wpc == Confirming && outcome == S.Accepted;
        sys.(store := store, procs := sys.procs[pid := Resume(p, sys.store, outcome)],
             marked := if marks then sys.marked[p.key := p.token] else sys.marked,
             confirmedBy := if confirms then sys.confirmedBy[p.key := p.token] else sys.confirmedBy,
             confirmations := if confirms then sys.confirmations + multiset{p.token} else sys.confirmations)
  }

  /** New identifiers are fresh, and only webhooks mark events and confirm payments. */
  predicate Possible(sys: System, move: Move) {
    match move
    case Arrive(pid, proc) => pid !in sys.procs && Initial(proc)
    case Proceed(_) => var call := CallOf(sys, move); call.Some? ==> S.Fresh(sys.store, call.value)
    case Call(op) => S.Fresh(sys.store, op) && !op.MarkProcessed? && !op.ConfirmPayment?
  }

  datatype Timed = Timed(move: Move, at: Instant)

  function Run(run: seq<Timed>, stamp: Time -> string): System {
    if run == [] then INITIAL else Next(Run(run[..|run| - 1], stamp), run[|run| - 1].move, run[|run| - 1].at, stamp)
  }

  function ClockAfter(run: seq<Timed>): Time {
    if run == [] then 0 else run[|run| - 1].at
  }

  /** Any interleaving whatsoever, on a clock that does not run backwards. */
  predicate Interleaving(run: seq<Timed>, stamp: Time -> string) {
    run == [] ||
    (var init, last := run[..|run| - 1], run[|run| - 1];
     Interleaving(init, stamp) && ClockAfter(init) <= last.at && Possible(Run(init, stamp), last.move))
  }

  // ---------------------------------------------------- process invariants

  /** What a process can rely on at its program counter, whatever the others do. */
  predicate Assured(m: map<Id, Pratica>, p: Proc) {
    match p
    case Webhook(_, _, pc, caso, onChain) => (
      match pc
      case Changing(n) => n <= 3 && (n == 0 ==> !onChain) && (onChain ==> OnChain(m, caso, n))
      case Finished(processed) => onChain ==> processed && OnChain(m, caso, 4)
      case _ => !onChain)
    case RequestDocumento(id, _, _, _, pc) => (
      match pc
      case Noting => id in m && m[id].stato != Bozza
      case Answered(changed, error) => changed ==> error == None
      case _ => true)
    case SubmitPratica(id, _, pc) =>
      pc == Submitted(None) ==> id in m && m[id].stato != Bozza && m[id].inviatoIl.Some?
    case InviaVisto(id, _, pc) => (
      match pc
      case Sending => true
      case Completing => OnChain(m, id, 3)
      case Sent(ok) => ok ==> OnChain(m, id, 4))
    case CreateLink(_, _, _, _, _) => true
  }

  lemma ChainAdvances(from: Stato, to: Stato)
    requires Allowed(from, to)
    ensures ChainPosition(from) >= 0 ==> ChainPosition(to) == ChainPosition(from) + 1
    ensures to != Bozza
  {
  }

  /** Other requests never take away what a process relies on. */
  lemma StaysAssured(m: map<Id, Pratica>, m': map<Id, Pratica>, p: Proc)
    requires Assured(m, p) && S.Evolves(m, m')
    ensures Assured(m', p)
  {
    forall id | id in m && id in m' && Allowed(m[id].stato, m'[id].stato)
      ensures ChainPosition(m[id].stato) >= 0 ==> ChainPosition(m'[id].stato) == ChainPosition(m[id].stato) + 1
      ensures m'[id].stato != Bozza {
      ChainAdvances(m[id].stato, m'[id].stato);
    }
  }

  lemma ChangeStep(s: S.Store, id: Id, attore: Id, next: Stato, nota: string, now: Instant, stamp: Time -> string)
    ensures var (s', outcome) := S.Step(s, S.Op.Update(id, ChangeState(attore, next, nota)), now, stamp);
            if id in s.pratiche && Allowed(s.pratiche[id].stato, next)
            then outcome == S.Accepted && id in s'.pratiche
                 && s'.pratiche[id] == Changed(s.pratiche[id], attore, next, nota, now)
            else s' == s && outcome.Refused?
  {
  }

  lemma WebhookStep(s: S.Store, p: Proc, now: Instant, stamp: Time -> string)
    requires p.Webhook? && Assured(s.pratiche, p)
    ensures var (s', outcome) := Effect(s, NextCall(p), now, stamp); Assured(s'.pratiche, Resume(p, s, outcome))
  {
    if p.wpc.Changing? {
      var n := p.wpc.done;
      ChangeStep(s, p.caso, "system", ChainState(n + 1), ChainNote(n + 1), now, stamp);
      if OnChain(s.pratiche, p.caso, n) {
        assert ChainPosition(s.pratiche[p.caso].stato) == n ==> Allowed(s.pratiche[p.caso].stato, ChainState(n + 1));
      }
    }
  }

  lemma RequestStep(s: S.Store, p: Proc, now: Instant, stamp: Time -> string)
    requires p.RequestDocumento? && Assured(s.pratiche, p)
    ensures var (s', outcome) := Effect(s, NextCall(p), now, stamp); Assured(s'.pratiche, Resume(p, s, outcome))
  {
    ChangeStep(s, p.id, p.attore, IntegrazioneRichiesta, "richiesta integrazione documentale", now, stamp);
    M.RequestMessageNotBlank(p.documento, p.nota);
  }

  lemma SubmitStep(s: S.Store, p: Proc, now: Instant, stamp: Time -> string)
    requires p.SubmitPratica? && Assured(s.pratiche, p)
    ensures var (s', outcome) := Effect(s, NextCall(p), now, stamp); Assured(s'.pratiche, Resume(p, s, outcome))
  {
    ChangeStep(s, p.id, p.utente, Inviata, "pratica inviata dal richiedente", now, stamp);
  }

  lemma SendStep(s: S.Store, p: Proc, now: Instant, stamp: Time -> string)
    requires p.InviaVisto? && Assured(s.pratiche, p)
    ensures var (s', outcome) := Effect(s, NextCall(p), now, stamp); Assured(s'.pratiche, Resume(p, s, outcome))
  {
    if p.ipc == Sending {
      ChangeStep(s, p.id, p.attore, VistoEmesso, "invio manuale visto", now, stamp);
    } else {
      ChangeStep(s, p.id, p.attore, Completata, "pratica completata", now, stamp);
    }
  }

  ghost predicate AllAssured(sys: System) {
    forall pid <- sys.procs :: Assured(sys.store.pratiche, sys.procs[pid])
  }

  lemma {:induction false} NextEvolves(sys: System, move: Move, now: Instant, stamp: Time -> string)
    requires Possible(sys, move)
    ensures S.Evolves(sys.store.pratiche, Next(sys, move, now, stamp).store.pratiche)
  {
    var call := CallOf(sys, move);
    if call.Some? {
      S.StepEvolves(sys.store, call.value, now, stamp);
    }
  }

  lemma {:induction false} NextAssured(sys: System, move: Move, now: Instant, stamp: Time -> string)
    requires AllAssured(sys) && Possible(sys, move)
    ensures AllAssured(Next(sys, move, now, stamp))
  {
    var sys' := Next(sys, move, now, stamp);
    NextEvolves(sys, move, now, stamp);
    forall pid <- sys'.procs ensures Assured(sys'.store.pratiche, sys'.procs[pid]) {
      if move == Proceed(pid) {
        var p := sys.procs[pid];
        if p.Webhook? {
          WebhookStep(sys.store, p, now, stamp);
        } else if p.RequestDocumento? {
          RequestStep(sys.store, p, now, stamp);
        } else if p.SubmitPratica? {
          SubmitStep(sys.store, p, now, stamp);
        } else if p.InviaVisto? {
          SendStep(sys.store, p, now, stamp);
        }
      } else if pid in sys.procs {
        StaysAssured(sys.store.pratiche, sys'.store.pratiche, sys.procs[pid]);
      }
    }
  }

  lemma {:induction false} NextSound(sys: System, move: Move, clock: Time, now: Instant, stamp: Time -> string)
    requires S.StoreSound(sys.store, clock, stamp) && clock <= now && Possible(sys, move)
    ensures S.StoreSound(Next(sys, move, now, stamp).store, now, stamp)
  {
    var call := CallOf(sys, move);
    if call.Some? {
      S.StepKeepsSound(sys.store, call.value, clock, now, stamp);
    } else {
      S.CasesLater(sys.store.pratiche, clock, now, stamp);
    }
  }

  /** In every interleaving the store stays sound and every process finds what it relies on. */
  lemma {:induction false} EveryInterleaving(run: seq<Timed>, stamp: Time -> string)
    requires Interleaving(run, stamp)
    ensures S.StoreSound(Run(run, stamp).store, ClockAfter(run), stamp)
    ensures AllAssured(Run(run, stamp))
  {
    if run != [] {
      var init, last := run[..|run| - 1], run[|run| - 1];
      EveryInterleaving(init, stamp);
      NextSound(Run(init, stamp), last.move, ClockAfter(init), last.at, stamp);
      NextAssured(Run(init, stamp), last.move, last.at, stamp);
    }
  }

  // ------------------------------------------------- payments and their cases

  /** A stored payment keeps its case for good, and only `CreatePayment` adds one, for the case it is called with. */
  lemma StepKeepsPaymentCase(s: S.Store, op: S.Op, now: Instant, stamp: Time -> string, token: S.Token)
    requires S.Fresh(s, op)
    ensures var (s', outcome) := S.Step(s, op, now, stamp);
            && (token in s.pagamenti ==> token in s'.pagamenti
                                         && s'.pagamenti[token].praticaID == s.pagamenti[token].praticaID)
            && (token !in s.pagamenti && token in s'.pagamenti ==>
                  op == S.CreatePayment(s'.pagamenti[token].praticaID, token) && outcome == S.Accepted)
            && (token !in s'.pagamenti ==> !op.CreatePayment? || op.token != token || outcome != S.Accepted)
  {
  }

  /** The case that a payment was created for, as the calls of the run tell. */
  function CreatedFor(run: seq<Timed>, token: S.Token, stamp: Time -> string): Option<Id> {
    if run == [] then None
    else
      var init, last := run[..|run| - 1], run[|run| - 1];
      var before := CreatedFor(init, token, stamp);
      var sys, call := Run(init, stamp), CallOf(Run(init, stamp), last.move);
      if before.Some? then before
      else if call.Some? && call.value.CreatePayment? && call.value.token == token
              && S.Step(sys.store, call.value, last.at, stamp).1 == S.Accepted
      then Some(call.value.praticaID)
      else None
  }

  lemma NextStore(sys: System, move: Move, now: Instant, stamp: Time -> string)
    ensures var call := CallOf(sys, move);
            Next(sys, move, now, stamp).store
            == if call.Some? then S.Step(sys.store, call.value, now, stamp).0 else sys.store
  {
  }

  lemma PossibleIsFresh(sys: System, move: Move)
    requires Possible(sys, move)
    ensures CallOf(sys, move).Some? ==> S.Fresh(sys.store, CallOf(sys, move).value)
  {
  }

  /** In every interleaving the payments are those that were created, each for the case it was created for. */
  lemma {:induction false} PaymentsKeepTheirCase(run: seq<Timed>, token: S.Token, stamp: Time -> string)
    requires Interleaving(run, stamp)
    ensures var m := Run(run, stamp).store.pagamenti;
            CreatedFor(run, token, stamp) == if token in m then Some(m[token].praticaID) else None
  {
    if run != [] {
      var init, last := run[..|run| - 1], run[|run| - 1];
      var sys := Run(init, stamp);
      PaymentsKeepTheirCase(init, token, stamp);
      PossibleIsFresh(sys, last.move);
      NextStore(sys, last.move, last.at, stamp);
      if CallOf(sys, last.move).Some? {
        StepKeepsPaymentCase(sys.store, CallOf(sys, last.move).value, last.at, stamp, token);
      }
    }
  }

  /** A webhook that changes states changes those of the case its payment is for. */
  predicate Tied(m: map<S.Token, S.Pagamento>, p: Proc) {
    p.Webhook? && (p.wpc.Changing? || p.wpc == Finished(true))
    ==> p.token in m && p.caso == m[p.token].praticaID
  }

  ghost predicate AllTied(sys: System) {
    forall pid <- sys.procs :: Tied(sys.store.pagamenti, sys.procs[pid])
  }

  lemma ResumeTied(s: S.Store, p: Proc, now: Instant, stamp: Time -> string)
    requires Tied(s.pagamenti, p) && (NextCall(p).Some? ==> S.Fresh(s, NextCall(p).value))
    ensures var (s', outcome) := Effect(s, NextCall(p), now, stamp); Tied(s'.pagamenti, Resume(p, s, outcome))
  {
    if p.Webhook? && NextCall(p).Some? {
      StepKeepsPaymentCase(s, NextCall(p).value, now, stamp, p.token);
    }
  }

  lemma StaysTied(m: map<S.Token, S.Pagamento>, m': map<S.Token, S.Pagamento>, p: Proc)
    requires Tied(m, p)
    requires p.Webhook? && p.token in m ==> p.token in m' && m'[p.token].praticaID == m[p.token].praticaID
    ensures Tied(m', p)
  {
  }

  lemma NextTied(sys: System, move: Move, now: Instant, stamp: Time -> string)
    requires AllTied(sys) && Possible(sys, move)
    ensures AllTied(Next(sys, move, now, stamp))
  {
    var sys', call := Next(sys, move, now, stamp), CallOf(sys, move);
    NextStore(sys, move, now, stamp);
    PossibleIsFresh(sys, move);
    forall pid <- sys'.procs ensures Tied(sys'.store.pagamenti, sys'.procs[pid]) {
      if move == Proceed(pid) {
        ResumeTied(sys.store, sys.procs[pid], now, stamp);
      } else if pid in sys.procs {
        var p := sys.procs[pid];
        if p.Webhook? && call.Some? {
          StepKeepsPaymentCase(sys.store, call.value, now, stamp, p.token);
        }
        StaysTied(sys.store.pagamenti, sys'.store.pagamenti, p);
      }
    }
  }

  lemma {:induction false} EveryWebhookTied(run: seq<Timed>, stamp: Time -> string)
    requires Interleaving(run, stamp)
    ensures AllTied(Run(run, stamp))
  {
    if run != [] {
      var init, last := run[..|run| - 1], run[|run| - 1];
      EveryWebhookTied(init, stamp);
      NextTied(Run(init, stamp), last.move, last.at, stamp);
    }
  }

  // ------------------------------------------------------------ main results

  lemma {:induction false} ChainEnds(s: S.Store, id: Id, clock: Time, stamp: Time -> string)
    requires S.StoreSound(s, clock, stamp) && OnChain(s.pratiche, id, 4)
    ensures s.pratiche[id].stato == Completata && ChainTakenOnce(s.pratiche[id].eventi)
  {
    CompletedPath(s.pratiche[id].eventi, stamp);
  }

  /** A webhook that found the case of its payment on the payment chain leaves that case completed, and the log then
      holds each of the four transitions of the chain exactly once, however many webhooks and other requests ran
      meanwhile. */
  lemma {:induction false} WebhookCompletesTheCase(run: seq<Timed>, pid: Pid, stamp: Time -> string)
    requires Interleaving(run, stamp) && pid in Run(run, stamp).procs
    requires var p := Run(run, stamp).procs[pid]; p.Webhook? && p.wpc.Finished? && p.onChain
    ensures var sys := Run(run, stamp);
            var token := sys.procs[pid].token;
            && token in sys.store.pagamenti
            && var caso := sys.store.pagamenti[token].praticaID;
               && CreatedFor(run, token, stamp) == Some(caso)
               && caso in sys.store.pratiche && sys.store.pratiche[caso].stato == Completata
               && ChainTakenOnce(sys.store.pratiche[caso].eventi)
  {
    EveryInterleaving(run, stamp);
    EveryWebhookTied(run, stamp);
    var sys := Run(run, stamp);
    var p := sys.procs[pid];
    assert Assured(sys.store.pratiche, p) && Tied(sys.store.pagamenti, p);
    PaymentsKeepTheirCase(run, p.token, stamp);
    ChainEnds(sys.store, p.caso, ClockAfter(run), stamp);
  }

  /** Whatever the others do, a webhook that is about to start on a case on the chain remembers so. */
  ghost predicate Remembers(sys: System, pid: Pid, token: S.Token, caso: Id) {
    && pid in sys.procs && sys.procs[pid].Webhook?
    && sys.procs[pid].token == token && sys.procs[pid].caso == caso
    && (sys.procs[pid].onChain || (sys.procs[pid].wpc == Changing(0) && OnChain(sys.store.pratiche, caso, 0)))
  }

  lemma StaysOnChain(m: map<Id, Pratica>, m': map<Id, Pratica>, id: Id)
    requires S.Evolves(m, m') && OnChain(m, id, 0)
    ensures OnChain(m', id, 0)
  {
    assert m[id].stato != Bozza;
    if m'[id].stato != m[id].stato {
      ChainAdvances(m[id].stato, m'[id].stato);
    }
  }

  lemma NextRemembers(sys: System, move: Move, now: Instant, stamp: Time -> string, pid: Pid, token: S.Token, caso: Id)
    requires Remembers(sys, pid, token, caso) && AllAssured(sys) && Possible(sys, move)
    ensures Remembers(Next(sys, move, now, stamp), pid, token, caso)
  {
    assert Assured(sys.store.pratiche, sys.procs[pid]);
    if move != Proceed(pid) && !sys.procs[pid].onChain {
      NextEvolves(sys, move, now, stamp);
      StaysOnChain(sys.store.pratiche, Next(sys, move, now, stamp).store.pratiche, caso);
    }
  }

  lemma {:induction false} ChainIsRemembered(before: seq<Timed>, after: seq<Timed>, pid: Pid, token: S.Token, caso: Id,
                                             stamp: Time -> string)
    requires Interleaving(before + after, stamp) && Remembers(Run(before, stamp), pid, token, caso)
    ensures Remembers(Run(before + after, stamp), pid, token, caso)
  {
    if after == [] {
      assert before + after == before;
    } else {
      var run := before + after;
      var init, last := run[..|run| - 1], run[|run| - 1];
      assert init == before + after[..|after| - 1];
      ChainIsRemembered(before, after[..|after| - 1], pid, token, caso, stamp);
      EveryInterleaving(init, stamp);
      NextRemembers(Run(init, stamp), last.move, last.at, stamp, pid, token, caso);
    }
  }

  /** The same without the flag: if the case is awaiting its payment or further along when the four changes of a webhook
      are about to begin, it is completed when they have ended. */
  lemma {:induction false} WebhookCompletesWhatItFinds(before: seq<Timed>, after: seq<Timed>, pid: Pid,
                                                       stamp: Time -> string)
    requires Interleaving(before, stamp) && Interleaving(before + after, stamp) && pid in Run(before, stamp).procs
    requires var sys := Run(before, stamp);
             var p := sys.procs[pid];
             && p.Webhook? && p.wpc == Changing(0) && p.token in sys.store.pagamenti
             && OnChain(sys.store.pratiche, sys.store.pagamenti[p.token].praticaID, 0)
    requires var sys' := Run(before + after, stamp);
             pid in sys'.procs && sys'.procs[pid].Webhook? && sys'.procs[pid].wpc.Finished?
    ensures var sys, sys' := Run(before, stamp), Run(before + after, stamp);
            var caso := sys.store.pagamenti[sys.procs[pid].token].praticaID;
            && caso in sys'.store.pratiche && sys'.store.pratiche[caso].stato == Completata
            && ChainTakenOnce(sys'.store.pratiche[caso].eventi)
  {
    EveryWebhookTied(before, stamp);
    var p := Run(before, stamp).procs[pid];
    assert Tied(Run(before, stamp).store.pagamenti, p);
    ChainIsRemembered(before, after, pid, p.token, p.caso, stamp);
    EveryInterleaving(before + after, stamp);
    var sys' := Run(before + after, stamp);
    assert Assured(sys'.store.pratiche, sys'.procs[pid]);
    ChainEnds(sys'.store, p.caso, ClockAfter(before + after), stamp);
  }

  // -------------------------------------------------- a handler by itself

  /** One step of a request with nobody in between. */
  function Turn(s: S.Store, p: Proc, now: Instant, stamp: Time -> string): (S.Store, Proc) {
    var (s', outcome) := Effect(s, NextCall(p), now, stamp);
    (s', Resume(p, s, outcome))
  }

  /** Alone, `SubmitPratica` submits exactly a draft of the user. */
  lemma SubmitAlone(s: S.Store, id: Id, utente: Id, t: Instant, now: Instant, stamp: Time -> string)
    ensures var (s1, p1) := Turn(s, SubmitPratica(id, utente, Verifying), t, stamp);
            var (s2, p2) := Turn(s1, p1, now, stamp);
            if id in s.pratiche && s.pratiche[id].utenteID == utente && s.pratiche[id].stato == Bozza then
              && p2 == SubmitPratica(id, utente, Submitted(None))
              && s2 == s.(pratiche := s.pratiche[id := Changed(s.pratiche[id], utente, Inviata,
                                                               "pratica inviata dal richiedente", now)])
            else
              && p2 == SubmitPratica(id, utente, Submitted(Some(if id in s.pratiche then ForbiddenState else NotFound)))
              && s2 == s
  {
  }

  lemma CheckingTurn(s: S.Store, p: Proc, now: Instant, stamp: Time -> string)
    requires p.RequestDocumento? && p.rpc == Checking && p.id in s.pratiche && s.pratiche[p.id].stato == InLavorazione
    ensures Turn(s, p, now, stamp) == (s, p.(rpc := Requesting))
  {
  }

  lemma RequestingTurn(s: S.Store, p: Proc, now: Instant, stamp: Time -> string)
    requires p.RequestDocumento? && p.rpc == Requesting && p.id in s.pratiche && s.pratiche[p.id].stato == InLavorazione
    ensures var note := "richiesta integrazione documentale";
            var q := Changed(s.pratiche[p.id], p.attore, IntegrazioneRichiesta, note, now);
            Turn(s, p, now, stamp) == (s.(pratiche := s.pratiche[p.id := q]), p.(rpc := Noting))
  {
  }

  lemma NoteStep(s: S.Store, id: Id, q: Pratica, attore: Id, messaggio: string, now: Instant, stamp: Time -> string)
    requires TrimSpace(messaggio) != ""
    ensures var noted := Annotated(q, attore, TrimSpace(messaggio), false, now, stamp);
            var op := S.Op.Update(id, AddNota(attore, messaggio, false));
            S.Step(s.(pratiche := s.pratiche[id := q]), op, now, stamp)
            == (s.(pratiche := s.pratiche[id := noted]), S.Accepted)
  {
    var noted := Annotated(q, attore, TrimSpace(messaggio), false, now, stamp);
    assert s.pratiche[id := q][id := noted] == s.pratiche[id := noted];
  }

  /** The note is added to whatever the state change left. */
  lemma NotingTurn(s: S.Store, p: Proc, q: Pratica, now: Instant, stamp: Time -> string)
    requires p.RequestDocumento? && p.rpc == Noting
    ensures var noted := Annotated(q, p.attore, TrimSpace(M.RequestMessage(p.documento, p.nota)), false, now, stamp);
            Turn(s.(pratiche := s.pratiche[p.id := q]), p, now, stamp)
            == (s.(pratiche := s.pratiche[p.id := noted]), p.(rpc := Answered(true, None)))
  {
    M.RequestMessageNotBlank(p.documento, p.nota);
    NoteStep(s, p.id, q, p.attore, M.RequestMessage(p.documento, p.nota), now, stamp);
  }

  /** Three steps of one request in a row. */
  function ThreeTurns(s: S.Store, p: Proc, t: Instant, now: Instant, later: Instant, stamp: Time -> string):
      (S.Store, Proc)
  {
    var (s1, p1) := Turn(s, p, t, stamp);
    var (s2, p2) := Turn(s1, p1, now, stamp);
    Turn(s2, p2, later, stamp)
  }

  lemma FirstTwoRequestTurns(s: S.Store, p: Proc, t: Instant, now: Instant, later: Instant, stamp: Time -> string)
    requires p.RequestDocumento? && p.rpc == Checking && p.id in s.pratiche && s.pratiche[p.id].stato == InLavorazione
    ensures var note := "richiesta integrazione documentale";
            var q := Changed(s.pratiche[p.id], p.attore, IntegrazioneRichiesta, note, now);
            ThreeTurns(s, p, t, now, later, stamp)
            == Turn(s.(pratiche := s.pratiche[p.id := q]), p.(rpc := Noting), later, stamp)
  {
    CheckingTurn(s, p, t, stamp);
    RequestingTurn(s, p.(rpc := Requesting), now, stamp);
  }

  /** Alone, `RequestDocumento` does what the in-memory method does. */
  lemma RequestAlone(s: S.Store, p: Proc, t: Instant, now: Instant, later: Instant, stamp: Time -> string)
    requires p.RequestDocumento? && p.rpc == Checking && p.id in s.pratiche && s.pratiche[p.id].stato == InLavorazione
    ensures var requested := M.Requested(s.pratiche[p.id], p.attore, p.documento, p.nota, now, later, stamp);
            ThreeTurns(s, p, t, now, later, stamp)
            == (s.(pratiche := s.pratiche[p.id := requested]), p.(rpc := Answered(true, None)))
  {
    var q := Changed(s.pratiche[p.id], p.attore, IntegrazioneRichiesta, "richiesta integrazione documentale", now);
    FirstTwoRequestTurns(s, p, t, now, later, stamp);
    NotingTurn(s, p.(rpc := Noting), q, later, stamp);
  }

  /** On any other case it changes nothing and says why. */
  lemma RequestAloneRefused(s: S.Store, p: Proc, t: Instant, now: Instant, later: Instant, stamp: Time -> string)
    requires p.RequestDocumento? && p.rpc == Checking
    requires p.id in s.pratiche ==> s.pratiche[p.id].stato != InLavorazione
    ensures ThreeTurns(s, p, t, now, later, stamp)
         == (s, p.(rpc := Answered(false, Some(if p.id in s.pratiche then InvalidState else NotFound))))
  {
    ChangeStep(s, p.id, p.attore, IntegrazioneRichiesta, "richiesta integrazione documentale", now, stamp);
  }

  lemma SendingTurn(s: S.Store, id: Id, attore: Id, now: Instant, stamp: Time -> string)
    ensures var t := Turn(s, InviaVisto(id, attore, Sending), now, stamp);
            if id in s.pratiche && s.pratiche[id].stato == VistoInElaborazione then
              && t.1 == InviaVisto(id, attore, Completing)
              && var q := Changed(s.pratiche[id], attore, VistoEmesso, "invio manuale visto", now);
                 t.0 == s.(pratiche := s.pratiche[id := q])
            else t == (s, InviaVisto(id, attore, Sent(false)))
  {
  }

  lemma CompletingTurn(s: S.Store, id: Id, attore: Id, now: Instant, stamp: Time -> string)
    requires id in s.pratiche && s.pratiche[id].stato == VistoEmesso
    ensures Turn(s, InviaVisto(id, attore, Completing), now, stamp)
         == (s.(pratiche := s.pratiche[id := Changed(s.pratiche[id], attore, Completata, "pratica completata", now)]),
             InviaVisto(id, attore, Sent(true)))
  {
  }

  /** Alone, sending a visa by hand completes exactly a case whose visa is being prepared. */
  lemma SendAlone(s: S.Store, id: Id, attore: Id, t: Instant, now: Instant, stamp: Time -> string)
    ensures var (s1, p1) := Turn(s, InviaVisto(id, attore, Sending), t, stamp);
            var (s2, p2) := Turn(s1, p1, now, stamp);
            if id in s.pratiche && s.pratiche[id].stato == VistoInElaborazione then
              && p2 == InviaVisto(id, attore, Sent(true))
              && id in s2.pratiche && s2.pratiche[id].stato == Completata && s2.pratiche[id].completatoIl == Some(now)
              && s2 == s.(pratiche := s.pratiche[id := s2.pratiche[id]])
            else p2 == InviaVisto(id, attore, Sent(false)) && s2 == s
  {
    SendingTurn(s, id, attore, t, stamp);
    if id in s.pratiche && s.pratiche[id].stato == VistoInElaborazione {
      CompletingTurn(Turn(s, InviaVisto(id, attore, Sending), t, stamp).0, id, attore, now, stamp);
    }
  }

  /** Alone, creating a payment link leaves a pending payment for the case and, if the provider answered, an approved
      case awaiting it; a case in any other state keeps it. */
  lemma LinkAlone(s: S.Store, id: Id, attore: Id, token: S.Token, providerOk: bool, t: Instant, now: Instant,
                  stamp: Time -> string)
    requires token !in s.pagamenti
    ensures var (s1, p1) := Turn(s, CreateLink(id, attore, token, providerOk, Creating), t, stamp);
            var (s2, p2) := Turn(s1, p1, now, stamp);
            && p2 == CreateLink(id, attore, token, providerOk, Linked(providerOk && id in s.pratiche))
            && s2.pagamenti == (if id in s.pratiche
                                then s.pagamenti[token := S.Pagamento(id, token, S.Pendente, None, t)] else s.pagamenti)
            && (if providerOk && id in s.pratiche && s.pratiche[id].stato == Approvata
                then id in s2.pratiche && s2.pratiche[id].stato == AttendePagamento
                     && s2.pratiche == s.pratiche[id := s2.pratiche[id]]
                else s2.pratiche == s.pratiche)
  {
    var s1 := Turn(s, CreateLink(id, attore, token, providerOk, Creating), t, stamp).0;
    ChangeStep(s1, id, attore, AttendePagamento, "link pagamento generato", now, stamp);
  }

  // ------------------------------------------------- requests for documents

  /** Once the state change of `RequestDocumento` has gone through, its note goes through as well. */
  lemma {:induction false} RequestNoteSucceeds(run: seq<Timed>, pid: Pid, now: Instant, stamp: Time -> string)
    requires Interleaving(run, stamp) && pid in Run(run, stamp).procs
    requires var p := Run(run, stamp).procs[pid]; p.RequestDocumento? && p.rpc == Noting
    ensures var sys := Next(Run(run, stamp), Proceed(pid), now, stamp);
            pid in sys.procs && sys.procs[pid].RequestDocumento? && sys.procs[pid].rpc == Answered(true, None)
  {
    EveryInterleaving(run, stamp);
    RequestStep(Run(run, stamp).store, Run(run, stamp).procs[pid], now, stamp);
  }

  /** The state change of `RequestDocumento` succeeds exactly on a case in processing, never on a suspended one,
      although the check before it lets both through. */
  lemma RequestChangesWorkOnly(sys: System, pid: Pid, now: Instant, stamp: Time -> string)
    requires pid in sys.procs && sys.procs[pid].RequestDocumento? && sys.procs[pid].rpc == Requesting
    ensures var sys', id := Next(sys, Proceed(pid), now, stamp), sys.procs[pid].id;
            && sys'.procs[pid].RequestDocumento?
            && (sys'.procs[pid].rpc == Noting
                <==> id in sys.store.pratiche && sys.store.pratiche[id].stato == InLavorazione)
            && (sys'.procs[pid].rpc == Noting ==>
                  id in sys'.store.pratiche && sys'.store.pratiche[id].stato == IntegrazioneRichiesta)
  {
    var p := sys.procs[pid];
    ChangeStep(sys.store, p.id, p.attore, IntegrazioneRichiesta, "richiesta integrazione documentale", now, stamp);
  }

  /** A visa sent by hand leaves a completed case behind, even when a webhook gets between the two changes. */
  lemma {:induction false} SentVisaIsCompleted(run: seq<Timed>, pid: Pid, stamp: Time -> string)
    requires Interleaving(run, stamp) && pid in Run(run, stamp).procs
    requires var p := Run(run, stamp).procs[pid]; p.InviaVisto? && p.ipc == Sent(true)
    ensures var sys := Run(run, stamp);
            var id := sys.procs[pid].id;
            && id in sys.store.pratiche && sys.store.pratiche[id].stato == Completata
            && ChainTakenOnce(sys.store.pratiche[id].eventi)
  {
    EveryInterleaving(run, stamp);
    var sys := Run(run, stamp);
    ChainEnds(sys.store, sys.procs[pid].id, ClockAfter(run), stamp);
  }
}
