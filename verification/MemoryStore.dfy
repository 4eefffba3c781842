/** The in-memory store: each method holds the lock for its whole body and does one atomic step of `Store`. */
module MemoryStore {
  import opened Basics
  import opened Text
  import opened Pratiche
  import opened CaseCodes
  import S = Store

  // ------------------------------------------------------ payments by token

  /** Payments are stored by id; `idOf` finds the one payment of each token. */
  ghost predicate Indexed(m: map<Id, S.Pagamento>, idOf: map<S.Token, Id>) {
    && (forall t <- idOf :: idOf[t] in m && m[idOf[t]].token == t)
    && (forall id <- m :: m[id].token in idOf && idOf[m[id].token] == id)
  }

  ghost function ByToken(m: map<Id, S.Pagamento>, idOf: map<S.Token, Id>): map<S.Token, S.Pagamento>
    requires Indexed(m, idOf)
  {
    map t | t in idOf :: m[idOf[t]]
  }

  /** Storing a payment under its own token, over its old version or under a new token. */
  lemma PutByToken(m: map<Id, S.Pagamento>, idOf: map<S.Token, Id>, id: Id, p: S.Pagamento)
    requires Indexed(m, idOf)
    requires if id in m then m[id].token == p.token else p.token !in idOf
    ensures Indexed(m[id := p], idOf[p.token := id])
    ensures ByToken(m[id := p], idOf[p.token := id]) == ByToken(m, idOf)[p.token := p]
  {
  }

  // -------------------------------------------------------------- documents

  ghost predicate DistinctDocuments(docs: seq<Documento>) {
    forall i, j :: 0 <= i < j < |docs| ==> docs[i].id != docs[j].id
  }

  lemma {:induction false} WithoutNothing(docs: seq<Documento>, id: Id)
    requires forall d <- docs :: d.id != id
    ensures Without(docs, id) == docs
  {
    if docs != [] {
      var init, last := docs[..|docs| - 1], docs[|docs| - 1];
      assert docs == init + [last] && last in docs;
      forall d <- init ensures d.id != id { assert d in docs; }
      WithoutNothing(init, id);
    }
  }

  lemma CutStaysDistinct(docs: seq<Documento>, i: nat)
    requires DistinctDocuments(docs) && i < |docs|
    ensures DistinctDocuments(docs[..i] + docs[i + 1..])
  {
    var rest := docs[..i] + docs[i + 1..];
    assert forall k | 0 <= k < |rest| :: rest[k] == if k < i then docs[k] else docs[k + 1];
  }

  /** Cutting out the first hit is the same as filtering, since document ids are distinct. */
  lemma {:induction false} CutIsWithout(docs: seq<Documento>, i: nat)
    requires DistinctDocuments(docs) && i < |docs|
    ensures Without(docs, docs[i].id) == docs[..i] + docs[i + 1..]
  {
    var init, last := docs[..|docs| - 1], docs[|docs| - 1];
    if i == |docs| - 1 {
      WithoutNothing(init, last.id);
    } else {
      CutIsWithout(init, i);
      assert init[..i] == docs[..i] && init[i + 1..] + [last] == docs[i + 1..];
    }
  }

  // ------------------------------------------------------------------ class

  class MemoryStore {
    const stamp: Time -> string
    var users: set<Id>
    var pratiche: map<Id, Pratica>
    var payments: map<Id, S.Pagamento>
    var webhooks: map<string, Time>
    var counter: nat
    ghost var idOf: map<S.Token, Id>

    ghost predicate Valid()
      reads this
    {
      Indexed(payments, idOf) && forall id <- pratiche :: DistinctDocuments(pratiche[id].documenti)
    }

    ghost function View(): S.Store
      requires Valid()
      reads this
    {
      S.Store(users, pratiche, counter, ByToken(payments, idOf), webhooks)
    }

    /** The result of a call on one case, as its outcome and the stored case tell it. */
    ghost predicate Tells(r: Result<Pratica, StoreError>, outcome: S.Outcome, id: Id)
      reads this
    {
      match r
      case Ok(p) => outcome == S.Accepted && id in pratiche && p == pratiche[id]
      case Err(e) => outcome == S.Refused(e)
    }

    constructor (stamp: Time -> string)
      ensures Valid() && View() == S.EMPTY && this.stamp == stamp
    {
      this.stamp := stamp;
      users, pratiche, payments, webhooks, counter, idOf := {}, map[], map[], map[], 0, map[];
    }

    /** `id` is a fresh uuid, `anno` the year of `now`. */
    method CreatePratica(utente: Id, dati: Dati, attore: Id, id: Id, anno: nat, now: Instant) returns (p: Pratica)
      requires Valid() && id !in pratiche
      modifies this
      ensures Valid() && id in pratiche && p == pratiche[id]
      ensures View() == S.Step(old(View()), S.Op.CreatePratica(id, utente, dati, attore, anno), now, stamp).0
    {
      counter := counter + 1;
      p := Pratica(id, Render(anno, counter), utente, "", dati, Bozza, "", "", now, now, None, None, [],
                   [PraticaCreata(attore, now)]);
      pratiche := pratiche[id := p];
    }

    method GetPratica(id: Id) returns (r: Result<Pratica, StoreError>)
      ensures r == if id in pratiche then Ok(pratiche[id]) else Err(NotFound)
    {
      if id !in pratiche {
        return Err(NotFound);
      }
      return Ok(pratiche[id]);
    }

    method UpdatePraticaAsDraft(id: Id, utente: Id, m: Modifica, now: Instant) returns (r: Result<Pratica, StoreError>)
      requires Valid()
      modifies this
      ensures Valid()
      ensures var (s, outcome) := S.Step(old(View()), S.Op.Update(id, UpdateAsDraft(utente, m)), now, stamp);
              View() == s && Tells(r, outcome, id)
    {
      if id !in pratiche {
        return Err(NotFound);
      }
      var p := pratiche[id];
      if p.utenteID != utente {
        return Err(ForbiddenState);
      }
      if p.stato != Bozza {
        return Err(ForbiddenState);
      }
      var dati := p.dati;
      if m.tipoVisto.Some? && TrimSpace(m.tipoVisto.value) != "" {
        dati := dati.(tipoVisto := m.tipoVisto.value);
      }
      if m.paeseDest.Some? && TrimSpace(m.paeseDest.value) != "" {
        dati := dati.(paeseDest := m.paeseDest.value);
      }
      if m.anagrafici.Some? {
        dati := dati.(anagrafici := m.anagrafici.value);
      }
      if m.passaporto.Some? {
        dati := dati.(passaporto := m.passaporto.value);
      }
      p := p.(dati := dati, aggiornatoIl := now);
      pratiche := pratiche[id := p];
      return Ok(p);
    }

    method DeletePraticaAsDraft(id: Id, utente: Id, now: Instant) returns (r: Result<(), StoreError>)
      requires Valid()
      modifies this
      ensures Valid()
      ensures var (s, outcome) := S.Step(old(View()), S.Op.DeletePraticaAsDraft(id, utente), now, stamp);
              View() == s && outcome == if r.Ok? then S.Accepted else S.Refused(r.error)
    {
      if id !in pratiche {
        return Err(NotFound);
      }
      if pratiche[id].utenteID != utente || pratiche[id].stato != Bozza {
        return Err(ForbiddenState);
      }
      pratiche := pratiche - {id};
      return Ok(());
    }

    method ChangePraticaState(id: Id, attore: Id, next: Stato, nota: string, now: Instant)
        returns (r: Result<Pratica, StoreError>)
      requires Valid()
      modifies this
      ensures Valid()
      ensures var (s, outcome) := S.Step(old(View()), S.Op.Update(id, ChangeState(attore, next, nota)), now, stamp);
              View() == s && Tells(r, outcome, id)
    {
      if id !in pratiche {
        return Err(NotFound);
      }
      var p := pratiche[id];
      if !Allowed(p.stato, next) {
        return Err(InvalidState);
      }
      var evt := StatoCambiato(attore, p.stato, next, nota, now);
      p := p.(stato := next, aggiornatoIl := now);
      if next == Inviata {
        p := p.(inviatoIl := Some(now));
      }
      if next == Completata {
        p := p.(completatoIl := Some(now));
      }
      p := p.(eventi := p.eventi + [evt]);
      pratiche := pratiche[id := p];
      return Ok(p);
    }

    method AssignOperatore(id: Id, operatore: Id, attore: Id, now: Instant) returns (r: Result<Pratica, StoreError>)
      requires Valid()
      modifies this
      ensures Valid()
      ensures var op := S.Op.Update(id, Update.AssignOperatore(operatore, attore));
              var (s, outcome) := S.Step(old(View()), op, now, stamp);
              View() == s && Tells(r, outcome, id)
    {
      if id !in pratiche {
        return Err(NotFound);
      }
      var p := pratiche[id];
      if operatore !in users {
        return Err(NotFound);
      }
      p := p.(operatoreID := operatore, aggiornatoIl := now);
      p := p.(eventi := p.eventi + [AssegnazioneOperatore(attore, operatore, now)]);
      pratiche := pratiche[id := p];
      return Ok(p);
    }

    method AddNota(id: Id, attore: Id, messaggio: string, interna: bool, now: Instant)
        returns (r: Result<Pratica, StoreError>)
      requires Valid()
      modifies this
      ensures Valid()
      ensures var op := S.Op.Update(id, Update.AddNota(attore, messaggio, interna));
              var (s, outcome) := S.Step(old(View()), op, now, stamp);
              View() == s && Tells(r, outcome, id)
    {
      if id !in pratiche {
        return Err(NotFound);
      }
      var p := pratiche[id];
      var nota := TrimSpace(messaggio);
      if nota == "" {
        return Err(ForbiddenState);
      }
      if interna {
        var testo := if p.noteInterne != "" then p.noteInterne + "\n" else "";
        p := p.(noteInterne := testo + stamp(now) + " | " + nota);
      } else {
        var testo := if p.noteRichiedente != "" then p.noteRichiedente + "\n" else "";
        p := p.(noteRichiedente := testo + stamp(now) + " | " + nota);
      }
      p := p.(aggiornatoIl := now, eventi := p.eventi + [NotaAggiunta(attore, nota, interna, now)]);
      pratiche := pratiche[id := p];
      return Ok(p);
    }

    /** The document comes with a fresh uuid; the clock is read for it first, and again for the case. */
    method AddDocumento(id: Id, d: Documento, caricatoIl: Instant, now: Instant)
        returns (r: Result<Documento, StoreError>)
      requires Valid() && caricatoIl <= now
      requires id in pratiche ==> forall e <- pratiche[id].documenti :: e.id != d.id
      modifies this
      ensures Valid()
      ensures var stored := d.(caricatoIl := caricatoIl);
              var (s, outcome) := S.Step(old(View()), S.Op.Update(id, Update.AddDocumento(stored)), now, stamp);
              View() == s && match r case Ok(e) => outcome == S.Accepted && e == stored
                                     case Err(e) => outcome == S.Refused(e)
    {
      if id !in pratiche {
        return Err(NotFound);
      }
      var p := pratiche[id];
      var stored := d.(caricatoIl := caricatoIl);
      p := p.(documenti := p.documenti + [stored]);
      p := p.(aggiornatoIl := now);
      pratiche := pratiche[id := p];
      return Ok(stored);
    }

    /** Cuts out the first document with the id; the filter of `Step` drops them all, which is the same. */
    method DeleteDocumento(id: Id, documentoID: Id, now: Instant) returns (r: Result<bool, StoreError>)
      requires Valid()
      modifies this
      ensures Valid()
      ensures View() == S.Step(old(View()), S.Op.Update(id, Update.DeleteDocumento(documentoID)), now, stamp).0
      ensures r == if id !in old(pratiche) then Err(NotFound)
                   else Ok(exists d <- old(pratiche[id].documenti) :: d.id == documentoID)
    {
      if id !in pratiche {
        return Err(NotFound);
      }
      var p := pratiche[id];
      for i := 0 to |p.documenti|
        invariant forall d <- p.documenti[..i] :: d.id != documentoID
        invariant pratiche == old(pratiche) && View() == old(View())
      {
        if p.documenti[i].id == documentoID {
          CutIsWithout(p.documenti, i);
          CutStaysDistinct(p.documenti, i);
          assert p.documenti[i] in p.documenti;
          p := p.(documenti := p.documenti[..i] + p.documenti[i + 1..], aggiornatoIl := now);
          pratiche := pratiche[id := p];
          return Ok(true);
        }
        assert p.documenti[..i + 1] == p.documenti[..i] + [p.documenti[i]];
      }
      assert p.documenti[..|p.documenti|] == p.documenti;
      assert pratiche == pratiche[id := p];
      return Ok(false);
    }

    /** Called by one client alone: a draft of the user becomes a submitted case, anything else is refused. */
    method SubmitPratica(id: Id, utente: Id, now: Instant) returns (r: Result<Pratica, StoreError>)
      requires Valid()
      modifies this
      ensures Valid()
      ensures r.Ok? <==> id in old(pratiche) && old(pratiche)[id].utenteID == utente && old(pratiche)[id].stato == Bozza
      ensures r.Ok? ==> id in pratiche && r.value == pratiche[id]
      ensures r.Ok? ==> r.value.stato == Inviata && r.value.inviatoIl == Some(now)
      ensures r.Err? ==> View() == old(View()) && r.error == if id in pratiche then ForbiddenState else NotFound
    {
      r := GetPratica(id);
      if r.Err? {
        return;
      }
      if r.value.utenteID != utente || r.value.stato != Bozza {
        return Err(ForbiddenState);
      }
      r := ChangePraticaState(id, utente, Inviata, "pratica inviata dal richiedente", now);
    }

    /** Called by one client alone: works on a case in processing only. The first check also lets suspended
        cases through, but the state change then refuses them. */
    method RequestDocumento(id: Id, attore: Id, documento: string, nota: string, now: Instant, later: Instant)
        returns (r: Result<Pratica, StoreError>)
      requires Valid() && now <= later
      modifies this
      ensures Valid()
      ensures r.Ok? <==> id in old(pratiche) && old(pratiche)[id].stato == InLavorazione
      ensures r.Ok? ==> id in pratiche && r.value == pratiche[id]
      ensures r.Ok? ==> r.value == Requested(old(pratiche)[id], attore, documento, nota, now, later, stamp)
      ensures r.Err? ==> View() == old(View()) && r.error == if id in pratiche then InvalidState else NotFound
    {
      r := GetPratica(id);
      if r.Err? {
        return;
      }
      if r.value.stato != InLavorazione && r.value.stato != Sospesa {
        return Err(InvalidState);
      }
      r := ChangePraticaState(id, attore, IntegrazioneRichiesta, "richiesta integrazione documentale", now);
      if r.Err? {
        return;
      }
      assert r.value
          == Changed(old(pratiche)[id], attore, IntegrazioneRichiesta, "richiesta integrazione documentale", now);
      var msg := RequestMessage(documento, nota);
      RequestMessageNotBlank(documento, nota);
      r := AddNota(id, attore, msg, false, later);
    }

    /** `id` and `token` come from fresh uuids. */
    method CreatePayment(praticaID: Id, id: Id, token: S.Token, now: Instant)
        returns (r: Result<S.Pagamento, StoreError>)
      requires Valid() && id !in payments && forall p <- payments.Values :: p.token != token
      modifies this
      ensures Valid()
      ensures var (s, outcome) := S.Step(old(View()), S.Op.CreatePayment(praticaID, token), now, stamp);
              View() == s && outcome == if r.Ok? then S.Accepted else S.Refused(r.error)
    {
      if praticaID !in pratiche {
        return Err(NotFound);
      }
      var pay := S.Pagamento(praticaID, token, S.Pendente, None, now);
      PutByToken(payments, idOf, id, pay);
      payments, idOf := payments[id := pay], idOf[token := id];
      return Ok(pay);
    }

    /** The search shared by the payment methods: a loop over the map in any order. */
    method FindPayment(token: S.Token) returns (found: Option<Id>)
      requires Valid()
      ensures found.Some? <==> token in ByToken(payments, idOf)
      ensures found.Some? ==> found.value in payments && payments[found.value].token == token
      ensures found.Some? ==> ByToken(payments, idOf)[token] == payments[found.value]
    {
      var ids := payments.Keys;
      while ids != {}
        invariant ids <= payments.Keys
        invariant forall id <- payments.Keys - ids :: payments[id].token != token
        decreases ids
      {
        var id :| id in ids;
        if payments[id].token == token {
          return Some(id);
        }
        ids := ids - {id};
      }
      return None;
    }

    method GetPaymentByToken(token: S.Token) returns (r: Result<S.Pagamento, StoreError>)
      requires Valid()
      ensures r == if token in View().pagamenti then Ok(View().pagamenti[token]) else Err(NotFound)
    {
      var id := FindPayment(token);
      return if id.Some? then Ok(payments[id.value]) else Err(NotFound);
    }

    method ConfirmPaymentByToken(token: S.Token, now: Instant) returns (r: Result<S.Pagamento, StoreError>)
      requires Valid()
      modifies this
      ensures Valid()
      ensures var (s, outcome) := S.Step(old(View()), S.Op.ConfirmPayment(token), now, stamp);
              View() == s && outcome == if r.Ok? then S.Accepted else S.Refused(r.error)
      ensures r.Ok? ==> token in View().pagamenti && r.value == View().pagamenti[token]
    {
      var id := FindPayment(token);
      if id.None? {
        return Err(NotFound);
      }
      var p := payments[id.value].(stato := S.Completato, pagatoIl := Some(now));
      PutByToken(payments, idOf, id.value, p);
      payments, idOf := payments[id.value := p], idOf[token := id.value];
      return Ok(p);
    }

    method RefundPaymentByToken(token: S.Token, now: Instant) returns (r: Result<S.Pagamento, StoreError>)
      requires Valid()
      modifies this
      ensures Valid()
      ensures var (s, outcome) := S.Step(old(View()), S.Op.RefundPayment(token), now, stamp);
              View() == s && outcome == if r.Ok? then S.Accepted else S.Refused(r.error)
    {
      var id := FindPayment(token);
      if id.None? {
        return Err(NotFound);
      }
      var p := payments[id.value];
      if p.stato != S.Completato {
        return Err(InvalidState);
      }
      p := p.(stato := S.Rimborsato);
      PutByToken(payments, idOf, id.value, p);
      payments, idOf := payments[id.value := p], idOf[token := id.value];
      return Ok(p);
    }

    method MarkWebhookEventProcessed(provider: string, eventID: string, now: Instant)
        returns (r: Result<bool, StoreError>)
      requires Valid()
      modifies this
      ensures Valid()
      ensures var (s, outcome) := S.Step(old(View()), S.Op.MarkProcessed(S.WebhookKey(provider, eventID)), now, stamp);
              View() == s
              && outcome == match r case Ok(seen) => (if seen then S.AlreadyProcessed else S.Accepted)
                                    case Err(e) => S.Refused(e)
    {
      var key := provider + ":" + TrimSpace(eventID);
      if key == ":" {
        return Err(ForbiddenState);
      }
      if key in webhooks {
        return Ok(true);
      }
      webhooks := webhooks[key := now];
      return Ok(false);
    }
  }

  /** The note that `RequestDocumento` leaves. */
  function RequestMessage(documento: string, nota: string): string {
    var msg := TrimSpace(documento);
    var full := if TrimSpace(nota) != "" then msg + " - " + TrimSpace(nota) else msg;
    if full == "" then "documento aggiuntivo richiesto" else full
  }

  function Requested(p: Pratica, attore: Id, documento: string, nota: string, now: Instant, later: Instant,
                     stamp: Time -> string): Pratica {
    Annotated(Changed(p, attore, IntegrazioneRichiesta, "richiesta integrazione documentale", now), attore,
              TrimSpace(RequestMessage(documento, nota)), false, later, stamp)
  }

  lemma {:induction false} RequestMessageNotBlank(documento: string, nota: string)
    ensures TrimSpace(RequestMessage(documento, nota)) != ""
  {
    var msg := RequestMessage(documento, nota);
    if TrimSpace(nota) != "" {
      assert msg[|TrimSpace(documento)| + 1] == '-';
    } else {
      assert !IsSpace(msg[0]);
    }
  }
}
