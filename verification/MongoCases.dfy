/** Visa cases in MongoDB: an update reads a whole document, changes its copy and replaces the document, with other
    calls in between; drawing a case number, inserting and deleting are single atomic steps. */
module MongoCases {
  import opened Basics
  import opened Text
  import opened Pratiche
  import opened CaseCodes

  type Collection = map<Id, Pratica>

  /** `ReplaceOne` writes over a document that is there and does nothing, without an error, otherwise. */
  function Replaced(docs: Collection, id: Id, p: Pratica): Collection {
    if id in docs then docs[id := p] else docs
  }

  /** The filter of `DeletePraticaAsDraft`. */
  predicate DeletableDraft(docs: Collection, id: Id, utente: Id) {
    id in docs && docs[id].utenteID == utente && docs[id].stato == Bozza
  }

  /** The update would write its copy back; deleting a document that the case does not have never does. */
  predicate Writes(p: Pratica, u: Update) {
    u.DeleteDocumento? ==> exists d <- p.documenti :: d.id == u.documentoID
  }

  /** The update as one atomic step. */
  function Alone(docs: Collection, id: Id, u: Update, now: Instant, env: Env):
      (Collection, Result<Pratica, StoreError>)
  {
    if id !in docs then (docs, Err(NotFound))
    else
      var r := Apply(docs[id], u, now, env);
      if r.Ok? then (docs[id := r.value], r) else (docs, r)
  }

  lemma FilterNext(docs: seq<Documento>, i: nat, id: Id)
    requires i < |docs|
    ensures Without(docs[..i + 1], id) == Without(docs[..i], id) + if docs[i].id == id then [] else [docs[i]]
  {
    assert docs[..i + 1][..i] == docs[..i];
  }

  // ------------------------------------------------- the methods, undisturbed

  class MongoStore {
    const stamp: Time -> string
    var pratiche: Collection
    var users: set<Id>

    constructor (stamp: Time -> string)
      ensures pratiche == map[] && users == {} && this.stamp == stamp
    {
      this.stamp := stamp;
      pratiche, users := map[], {};
    }

    method GetPratica(id: Id) returns (r: Result<Pratica, StoreError>)
      ensures r == if id in pratiche then Ok(pratiche[id]) else Err(NotFound)
    {
      if id !in pratiche {
        return Err(NotFound);
      }
      return Ok(pratiche[id]);
    }

    method ReplaceOne(id: Id, p: Pratica)
      modifies this
      ensures pratiche == Replaced(old(pratiche), id, p) && users == old(users)
    {
      if id in pratiche {
        pratiche := pratiche[id := p];
      }
    }

    /** Unlike the in-memory store, a missing case is reported as a forbidden one. */
    method DeletePraticaAsDraft(id: Id, utente: Id) returns (r: Result<(), StoreError>)
      modifies this
      ensures users == old(users)
      ensures if DeletableDraft(old(pratiche), id, utente) then r == Ok(()) && pratiche == old(pratiche) - {id}
              else r == Err(ForbiddenState) && pratiche == old(pratiche)
    {
      if !DeletableDraft(pratiche, id, utente) {
        return Err(ForbiddenState);
      }
      pratiche := pratiche - {id};
      return Ok(());
    }

    method ChangePraticaState(id: Id, attore: Id, next: Stato, nota: string, now: Instant)
        returns (r: Result<Pratica, StoreError>)
      modifies this
      ensures users == old(users)
      ensures (pratiche, r) == Alone(old(pratiche), id, ChangeState(attore, next, nota), now, Env(users, stamp))
    {
      r := GetPratica(id);
      if r.Err? {
        return;
      }
      var p := r.value;
      if !Allowed(p.stato, next) {
        return Err(InvalidState);
      }
      var evt := StatoCambiato(attore, p.stato, next, nota, now);
      p := p.(stato := next, aggiornatoIl := now);
      if next == Inviata {
        p := p.(inviatoIl := Some(now));
      }
      if next == Completata {
        p := p.(completatoIl := Some(now));
      }
      p := p.(eventi := p.eventi + [evt]);
      ReplaceOne(id, p);
      return Ok(p);
    }

    method AddNota(id: Id, attore: Id, messaggio: string, interna: bool, now: Instant)
        returns (r: Result<Pratica, StoreError>)
      modifies this
      ensures users == old(users)
      ensures var update := Update.AddNota(attore, messaggio, interna);
              (pratiche, r) == Alone(old(pratiche), id, update, now, Env(users, stamp))
    {
      r := GetPratica(id);
      if r.Err? {
        return;
      }
      var p := r.value;
      var nota := TrimSpace(messaggio);
      if nota == "" {
        return Err(ForbiddenState);
      }
      if interna {
        var testo := if p.noteInterne != "" then p.noteInterne + "\n" else "";
        p := p.(noteInterne := testo + stamp(now) + " | " + nota);
      } else {
        var testo := if p.noteRichiedente != "" then p.noteRichiedente + "\n" else "";
        p := p.(noteRichiedente := testo + stamp(now) + " | " + nota);
      }
      p := p.(aggiornatoIl := now, eventi := p.eventi + [NotaAggiunta(attore, nota, interna, now)]);
      ReplaceOne(id, p);
      return Ok(p);
    }

    /** Keeps the other documents in their order; no replacement at all when nothing was removed. */
    method DeleteDocumento(id: Id, documentoID: Id, now: Instant) returns (r: Result<bool, StoreError>)
      modifies this
      ensures users == old(users)
      ensures pratiche == Alone(old(pratiche), id, Update.DeleteDocumento(documentoID), now, Env(users, stamp)).0
      ensures r == if id !in old(pratiche) then Err(NotFound)
                   else Ok(Writes(old(pratiche)[id], Update.DeleteDocumento(documentoID)))
    {
      var found := GetPratica(id);
      if found.Err? {
        return Err(found.error);
      }
      var p := found.value;
      var docs := p.documenti;
      var removed, filtered := false, [];
      for i := 0 to |docs|
        invariant filtered == Without(docs[..i], documentoID)
        invariant removed <==> exists j | 0 <= j < i :: docs[j].id == documentoID
        invariant pratiche == old(pratiche) && users == old(users)
      {
        FilterNext(docs, i, documentoID);
        if docs[i].id == documentoID {
          removed := true;
          continue;
        }
        filtered := filtered + [docs[i]];
      }
      assert docs[..|docs|] == docs;
      if !removed {
        assert pratiche == pratiche[id := p];
        return Ok(false);
      }
      p := p.(documenti := filtered, aggiornatoIl := now);
      ReplaceOne(id, p);
      return Ok(true);
    }
  }

  // ------------------------------------------------------------ interleaving

  /** A writer has yet to find the document, holds a copy, or holds the changed copy it will write. */
  datatype Pc =
    | Reading
    | Computing(copy: Pratica)
    | Writing(copy: Pratica, written: Pratica, il: Instant, env: Env)
    | Finished(r: Result<Pratica, StoreError>)

  datatype Writer = Writer(id: Id, update: Update, pc: Pc)

  datatype Birth = Drawing | Inserting(numero: nat) | Inserted(numero: nat)

  /** A call of `CreatePratica`; `il` is when it read its clock and `anno` the year of that reading. */
  datatype Creator = Creator(utente: Id, dati: Dati, attore: Id, anno: nat, il: Instant, birth: Birth)

  type Pid = nat

  datatype System = System(docs: Collection, creators: map<Id, Creator>, writers: map<Pid, Writer>,
                           counter: nat, env: Env, clock: Time)

  function Initial(stamp: Time -> string): System {
    System(map[], map[], map[], 0, Env({}, stamp), 0)
  }

  datatype Move =
    | Register(user: Id)
    | BeginCreate(id: Id, utente: Id, dati: Dati, attore: Id, anno: nat)
    | Create(id: Id)
    | BeginUpdate(pid: Pid, id: Id, update: Update)
    | Proceed(pid: Pid)
    | DeleteDraft(id: Id, utente: Id)

  datatype Step = Step(move: Move, at: Instant)

  /** Time does not run backwards, and a new case gets an identifier no other case was ever given. */
  predicate Possible(sys: System, step: Step) {
    && sys.clock <= step.at
    && match step.move
       case BeginCreate(id, _, _, _, _) => id !in sys.creators
       case BeginUpdate(pid, _, _) => pid !in sys.writers
       case _ => true
  }

  function Newborn(id: Id, c: Creator): Pratica
    requires !c.birth.Drawing?
  {
    NewPratica(id, Render(c.anno, c.birth.numero), c.utente, c.dati, c.attore, c.il)
  }

  /** The next database step of a creation: draw a number, then insert. */
  function CreateStep(sys: System, id: Id): System
    requires id in sys.creators
  {
    var c := sys.creators[id];
    match c.birth
    case Drawing =>
      sys.(counter := sys.counter + 1, creators := sys.creators[id := c.(birth := Inserting(sys.counter + 1))])
    case Inserting(n) =>
      sys.(docs := sys.docs[id := Newborn(id, c)], creators := sys.creators[id := c.(birth := Inserted(n))])
    case Inserted(_) => sys
  }

  /** What a writer that holds a copy goes on to do. */
  function Computed(p: Pratica, u: Update, now: Instant, env: Env): Pc {
    match Apply(p, u, now, env)
    case Err(e) => Finished(Err(e))
    case Ok(q) => if Writes(p, u) then Writing(p, q, now, env) else Finished(Ok(p))
  }

  /** The next step of an update: find, compute, replace. */
  function UpdateStep(sys: System, pid: Pid, now: Instant): System
    requires pid in sys.writers
  {
    var w := sys.writers[pid];
    match w.pc
    case Reading =>
      var pc := if w.id in sys.docs then Computing(sys.docs[w.id]) else Finished(Err(NotFound));
      sys.(writers := sys.writers[pid := w.(pc := pc)])
    case Computing(p) =>
      sys.(writers := sys.writers[pid := w.(pc := Computed(p, w.update, now, sys.env))])
    case Writing(_, q, _, _) =>
      sys.(docs := Replaced(sys.docs, w.id, q), writers := sys.writers[pid := w.(pc := Finished(Ok(q)))])
    case Finished(_) => sys
  }

  function Act(sys: System, move: Move, now: Instant): System {
    match move
    case Register(user) => sys.(env := Env(sys.env.utenti + {user}, sys.env.stamp))
    case BeginCreate(id, utente, dati, attore, anno) =>
      sys.(creators := sys.creators[id := Creator(utente, dati, attore, anno, now, Drawing)])
    case Create(id) => if id in sys.creators then CreateStep(sys, id) else sys
    case BeginUpdate(pid, id, update) => sys.(writers := sys.writers[pid := Writer(id, update, Reading)])
    case Proceed(pid) => if pid in sys.writers then UpdateStep(sys, pid, now) else sys
    case DeleteDraft(id, utente) =>
      if DeletableDraft(sys.docs, id, utente) then sys.(docs := sys.docs - {id}) else sys
  }

  function Next(sys: System, step: Step): System {
    Act(sys.(clock := step.at), step.move, step.at)
  }

  function Run(steps: seq<Step>, stamp: Time -> string): System {
    if steps == [] then Initial(stamp) else Next(Run(steps[..|steps| - 1], stamp), steps[|steps| - 1])
  }

  predicate Interleaving(steps: seq<Step>, stamp: Time -> string) {
    steps == [] ||
    (Interleaving(steps[..|steps| - 1], stamp) && Possible(Run(steps[..|steps| - 1], stamp), steps[|steps| - 1]))
  }

  // ------------------------------------------- what survives every interleaving

  /** The case was inserted, still has the owner and the code it was born with, and its log tells its story. */
  ghost predicate Genuine(sys: System, id: Id, p: Pratica) {
    && id in sys.creators && sys.creators[id].birth.Inserted?
    && p.id == id && p.utenteID == sys.creators[id].utente
    && p.codice == Render(sys.creators[id].anno, sys.creators[id].birth.numero)
    && Sound(p, sys.clock, sys.env.stamp)
  }

  ghost predicate WriterSound(sys: System, w: Writer) {
    match w.pc
    case Computing(p) => Genuine(sys, w.id, p)
    case Writing(p, q, il, env) =>
      && Genuine(sys, w.id, p) && Genuine(sys, w.id, q) && env.stamp == sys.env.stamp
      && Apply(p, w.update, il, env) == Ok(q) && Writes(p, w.update)
    case _ => true
  }

  ghost predicate CreatorSound(sys: System, id: Id)
    requires id in sys.creators
  {
    var c := sys.creators[id];
    c.il <= sys.clock && (!c.birth.Drawing? ==> c.birth.numero <= sys.counter)
  }

  ghost predicate NumbersDistinct(m: map<Id, Creator>) {
    forall a, b | a in m && b in m && a != b && !m[a].birth.Drawing? && !m[b].birth.Drawing? ::
      m[a].birth.numero != m[b].birth.numero
  }

  ghost predicate DocsSound(sys: System) {
    forall id <- sys.docs :: Genuine(sys, id, sys.docs[id])
  }

  ghost predicate WritersSound(sys: System) {
    forall pid <- sys.writers :: WriterSound(sys, sys.writers[pid])
  }

  ghost predicate CreatorsSound(sys: System) {
    NumbersDistinct(sys.creators) && forall id <- sys.creators :: CreatorSound(sys, id)
  }

  ghost predicate SystemSound(sys: System) {
    DocsSound(sys) && WritersSound(sys) && CreatorsSound(sys)
  }

  /** Inserted cases stay inserted under the same owner and number, time only grows, notes are stamped alike. */
  ghost predicate Grows(sys: System, sys': System) {
    && sys.clock <= sys'.clock && sys.env.stamp == sys'.env.stamp
    && forall id <- sys.creators :: sys.creators[id].birth.Inserted? ==>
         id in sys'.creators && sys'.creators[id] == sys.creators[id]
  }

  lemma StillGenuine(sys: System, sys': System, id: Id, p: Pratica)
    requires Grows(sys, sys') && Genuine(sys, id, p)
    ensures Genuine(sys', id, p)
  {
    SoundLater(p, sys.clock, sys'.clock, sys.env.stamp);
  }

  lemma StillSound(sys: System, sys': System, w: Writer)
    requires Grows(sys, sys') && WriterSound(sys, w)
    ensures WriterSound(sys', w)
  {
    match w.pc {
      case Computing(p) => StillGenuine(sys, sys', w.id, p);
      case Writing(p, q, _, _) => StillGenuine(sys, sys', w.id, p); StillGenuine(sys, sys', w.id, q);
      case _ =>
    }
  }

  lemma NextGrows(sys: System, step: Step)
    requires Possible(sys, step)
    ensures Grows(sys, Next(sys, step))
  {
  }

  lemma PutCreator(m: map<Id, Creator>, counter: nat, id: Id, c: Creator)
    requires NumbersDistinct(m) && forall k <- m :: !m[k].birth.Drawing? ==> m[k].birth.numero <= counter
    requires c.birth.Drawing? || c.birth.numero > counter
             || (id in m && !m[id].birth.Drawing? && m[id].birth.numero == c.birth.numero)
    ensures NumbersDistinct(m[id := c])
  {
  }

  lemma NextKeepsNumbers(sys: System, step: Step)
    requires Possible(sys, step) && CreatorsSound(sys)
    ensures NumbersDistinct(Next(sys, step).creators)
  {
    forall id <- sys.creators ensures CreatorSound(sys, id) {
    }
    match step.move {
      case BeginCreate(id, utente, dati, attore, anno) =>
        PutCreator(sys.creators, sys.counter, id, Creator(utente, dati, attore, anno, step.at, Drawing));
      case Create(id) =>
        if id in sys.creators { PutCreator(sys.creators, sys.counter, id, CreateStep(sys, id).creators[id]); }
      case _ =>
    }
  }

  lemma NextKeepsCreators(sys: System, step: Step)
    requires Possible(sys, step) && CreatorsSound(sys)
    ensures CreatorsSound(Next(sys, step))
  {
    var sys' := Next(sys, step);
    NextKeepsNumbers(sys, step);
    forall id <- sys'.creators ensures CreatorSound(sys', id) {
      if id in sys.creators { assert CreatorSound(sys, id); }
    }
  }

  lemma NewbornGenuine(sys: System, id: Id)
    requires id in sys.creators && sys.creators[id].birth.Inserted? && CreatorSound(sys, id)
    ensures Genuine(sys, id, Newborn(id, sys.creators[id]))
  {
    var c := sys.creators[id];
    NewIsSound(id, Render(c.anno, c.birth.numero), c.utente, c.dati, c.attore, c.il, sys.env.stamp);
    SoundLater(Newborn(id, c), c.il, sys.clock, sys.env.stamp);
  }

  predicate WritesBack(sys: System, move: Move, id: Id) {
    move.Proceed? && move.pid in sys.writers && sys.writers[move.pid].pc.Writing? && sys.writers[move.pid].id == id
  }

  predicate InsertsNow(sys: System, move: Move, id: Id) {
    move == Create(id) && id in sys.creators && sys.creators[id].birth.Inserting?
  }

  /** A stored document was stored before, is inserted now, or is the copy that its writer held. */
  lemma NextDocs(sys: System, step: Step, id: Id)
    requires id in Next(sys, step).docs
    ensures var sys' := Next(sys, step);
            if WritesBack(sys, step.move, id) then
              id in sys.docs && sys'.docs[id] == sys.writers[step.move.pid].pc.written
            else if InsertsNow(sys, step.move, id) then
              && id in sys'.creators && sys'.creators[id].birth.Inserted?
              && sys'.docs[id] == Newborn(id, sys'.creators[id])
            else id in sys.docs && sys'.docs[id] == sys.docs[id]
  {
  }

  lemma {:induction false} NextKeepsDocs(sys: System, step: Step)
    requires Possible(sys, step) && SystemSound(sys)
    ensures DocsSound(Next(sys, step))
  {
    var sys' := Next(sys, step);
    NextGrows(sys, step);
    NextKeepsCreators(sys, step);
    forall id <- sys'.docs ensures Genuine(sys', id, sys'.docs[id]) {
      NextDocs(sys, step, id);
      if WritesBack(sys, step.move, id) {
        assert WriterSound(sys, sys.writers[step.move.pid]);
        StillGenuine(sys, sys', id, sys'.docs[id]);
      } else if InsertsNow(sys, step.move, id) {
        NewbornGenuine(sys', id);
      } else {
        StillGenuine(sys, sys', id, sys.docs[id]);
      }
    }
  }

  lemma ComputedSound(sys: System, w: Writer, now: Instant)
    requires w.pc.Computing? && WriterSound(sys, w) && sys.clock <= now
    ensures WriterSound(sys.(clock := now), w.(pc := Computed(w.pc.copy, w.update, now, sys.env)))
  {
    var p := w.pc.copy;
    if Apply(p, w.update, now, sys.env).Ok? {
      ApplyKeepsSound(p, w.update, sys.clock, now, sys.env);
      ApplyIsLater(p, w.update, now, sys.env);
      SoundLater(p, sys.clock, now, sys.env.stamp);
    }
  }

  lemma ProceedSound(sys: System, pid: Pid, at: Instant)
    requires sys.clock <= at && SystemSound(sys) && pid in sys.writers
    ensures var sys' := Next(sys, Step(Proceed(pid), at)); WriterSound(sys', sys'.writers[pid])
  {
    var sys', w := Next(sys, Step(Proceed(pid), at)), sys.writers[pid];
    assert WriterSound(sys, w);
    match w.pc {
      case Reading =>
        if w.id in sys.docs { StillGenuine(sys, sys', w.id, sys.docs[w.id]); }
      case Computing(_) =>
        ComputedSound(sys, w, at);
        StillSound(sys.(clock := at), sys', sys'.writers[pid]);
      case _ =>
    }
  }

  lemma {:induction false} NextKeepsWriters(sys: System, step: Step)
    requires Possible(sys, step) && SystemSound(sys)
    ensures WritersSound(Next(sys, step))
  {
    var sys' := Next(sys, step);
    NextGrows(sys, step);
    forall pid <- sys'.writers ensures WriterSound(sys', sys'.writers[pid]) {
      if step.move == Proceed(pid) {
        ProceedSound(sys, pid, step.at);
      } else if pid in sys.writers {
        assert WriterSound(sys, sys.writers[pid]);
        StillSound(sys, sys', sys.writers[pid]);
      }
    }
  }

  /** However reads and whole-document replacements interleave, every stored case and every copy in flight still
      has a log that replays to its own fields along `Allowed`, and keeps its owner and its code. */
  lemma {:induction false} EveryInterleavingIsSound(steps: seq<Step>, stamp: Time -> string)
    requires Interleaving(steps, stamp)
    ensures SystemSound(Run(steps, stamp)) && Run(steps, stamp).env.stamp == stamp
  {
    if steps != [] {
      var init, last := steps[..|steps| - 1], steps[|steps| - 1];
      EveryInterleavingIsSound(init, stamp);
      NextKeepsDocs(Run(init, stamp), last);
      NextKeepsWriters(Run(init, stamp), last);
      NextKeepsCreators(Run(init, stamp), last);
    }
  }

  /** Two stored cases never share a code, whatever was overwritten. */
  lemma CodesNeverCollide(steps: seq<Step>, stamp: Time -> string, a: Id, b: Id)
    requires Interleaving(steps, stamp)
    requires a in Run(steps, stamp).docs && b in Run(steps, stamp).docs && a != b
    ensures Run(steps, stamp).docs[a].codice != Run(steps, stamp).docs[b].codice
  {
    var sys := Run(steps, stamp);
    EveryInterleavingIsSound(steps, stamp);
    assert Genuine(sys, a, sys.docs[a]) && Genuine(sys, b, sys.docs[b]);
    if sys.docs[a].codice == sys.docs[b].codice {
      var ca, cb := sys.creators[a], sys.creators[b];
      RenderInjective(ca.anno, ca.birth.numero, cb.anno, cb.birth.numero);
    }
  }

  // ------------------------------------------------------------- lost updates

  function After(sys: System, steps: seq<Step>): System {
    if steps == [] then sys else Next(After(sys, steps[..|steps| - 1]), steps[|steps| - 1])
  }

  /** Two updates that both read before either writes; the writes come at `end`. */
  function Overlap(a: Pid, b: Pid, ta: Instant, tb: Instant, end: Instant): seq<Step> {
    [Step(Proceed(a), ta), Step(Proceed(b), ta), Step(Proceed(a), ta), Step(Proceed(b), tb),
     Step(Proceed(a), end), Step(Proceed(b), end)]
  }

  lemma AfterOneMore(sys: System, steps: seq<Step>, step: Step)
    ensures After(sys, steps + [step]) == Next(After(sys, steps), step)
  {
    assert (steps + [step])[..|steps|] == steps;
  }

  function Both(sys: System, a: Pid, ta: Instant, b: Pid, tb: Instant): System {
    Next(Next(sys, Step(Proceed(a), ta)), Step(Proceed(b), tb))
  }

  lemma AfterOverlap(sys: System, a: Pid, b: Pid, ta: Instant, tb: Instant, end: Instant)
    ensures After(sys, Overlap(a, b, ta, tb, end))
         == Both(Both(Both(sys, a, ta, b, ta), a, ta, b, tb), a, end, b, end)
  {
    var o := Overlap(a, b, ta, tb, end);
    AfterOneMore(sys, [], o[0]);
    AfterOneMore(sys, [o[0]], o[1]);
    AfterOneMore(sys, o[..2], o[2]);
    AfterOneMore(sys, o[..3], o[3]);
    AfterOneMore(sys, o[..4], o[4]);
    AfterOneMore(sys, o[..5], o[5]);
    assert o[..2] == [o[0]] + [o[1]] && o[..3] == o[..2] + [o[2]] && o[..4] == o[..3] + [o[3]];
    assert o[..5] == o[..4] + [o[4]] && o == o[..5] + [o[5]];
  }

  predicate WouldWrite(sys: System, pid: Pid, now: Instant) {
    && pid in sys.writers && sys.writers[pid].pc == Reading && sys.writers[pid].id in sys.docs
    && Computed(sys.docs[sys.writers[pid].id], sys.writers[pid].update, now, sys.env).Writing?
  }

  function Copy(sys: System, pid: Pid, now: Instant): Pratica
    requires WouldWrite(sys, pid, now)
  {
    Computed(sys.docs[sys.writers[pid].id], sys.writers[pid].update, now, sys.env).written
  }

  function WithPcs(sys: System, a: Pid, pa: Pc, b: Pid, pb: Pc): map<Pid, Writer>
    requires a in sys.writers && b in sys.writers
  {
    sys.writers[a := sys.writers[a].(pc := pa)][b := sys.writers[b].(pc := pb)]
  }

  lemma BothRead(sys: System, a: Pid, b: Pid, now: Instant)
    requires a != b && a in sys.writers && b in sys.writers
    requires sys.writers[a].pc == Reading && sys.writers[b].pc == Reading
    requires sys.writers[a].id == sys.writers[b].id && sys.writers[a].id in sys.docs
    ensures var copy := Computing(sys.docs[sys.writers[a].id]);
            Both(sys, a, now, b, now) == sys.(clock := now, writers := WithPcs(sys, a, copy, b, copy))
  {
  }

  lemma BothCompute(sys: System, a: Pid, ta: Instant, b: Pid, tb: Instant, p: Pratica)
    requires a != b && a in sys.writers && b in sys.writers
    requires sys.writers[a].pc == Computing(p) && sys.writers[b].pc == Computing(p)
    ensures Both(sys, a, ta, b, tb)
         == sys.(clock := tb, writers := WithPcs(sys, a, Computed(p, sys.writers[a].update, ta, sys.env),
                                                 b, Computed(p, sys.writers[b].update, tb, sys.env)))
  {
  }

  lemma BothWrite(sys: System, a: Pid, b: Pid, now: Instant)
    requires a != b && a in sys.writers && b in sys.writers
    requires sys.writers[a].pc.Writing? && sys.writers[b].pc.Writing?
    requires sys.writers[a].id == sys.writers[b].id && sys.writers[a].id in sys.docs
    ensures var qa, qb := sys.writers[a].pc.written, sys.writers[b].pc.written;
            Both(sys, a, now, b, now)
            == sys.(clock := now, docs := sys.docs[sys.writers[a].id := qb],
                    writers := WithPcs(sys, a, Finished(Ok(qa)), b, Finished(Ok(qb))))
  {
  }

  /** The later of two overlapping updates wipes out the earlier one entirely, and both are told it worked. */
  lemma LastWriteWins(sys: System, a: Pid, b: Pid, ta: Instant, tb: Instant, end: Instant)
    requires a != b && WouldWrite(sys, a, ta) && WouldWrite(sys, b, tb) && sys.writers[a].id == sys.writers[b].id
    ensures var after := After(sys, Overlap(a, b, ta, tb, end));
            && after.docs == sys.docs[sys.writers[a].id := Copy(sys, b, tb)]
            && after.writers == WithPcs(sys, a, Finished(Ok(Copy(sys, a, ta))), b, Finished(Ok(Copy(sys, b, tb))))
  {
    AfterOverlap(sys, a, b, ta, tb, end);
    BothRead(sys, a, b, ta);
    var read := Both(sys, a, ta, b, ta);
    BothCompute(read, a, ta, b, tb, sys.docs[sys.writers[a].id]);
    BothWrite(Both(read, a, ta, b, tb), a, b, end);
  }

  /** The caller was told that its update worked and left the case in this state. */
  ghost predicate ToldState(sys: System, pid: Pid, stato: Stato) {
    && pid in sys.writers && sys.writers[pid].pc.Finished? && sys.writers[pid].pc.r.Ok?
    && sys.writers[pid].pc.r.value.stato == stato
  }

  /** A case that its caller was told is completed can go back to where it was, because of a note. */
  lemma {:induction false} CompletionCanBeUndone(sys: System, a: Pid, b: Pid, id: Id, attore: Id, nota: string,
                                                 messaggio: string, interna: bool, ta: Instant, tb: Instant,
                                                 end: Instant)
    requires a != b && a in sys.writers && b in sys.writers && id in sys.docs && sys.docs[id].stato == VistoEmesso
    requires sys.writers[a] == Writer(id, ChangeState(attore, Completata, nota), Reading)
    requires sys.writers[b] == Writer(id, Update.AddNota(attore, messaggio, interna), Reading)
    requires TrimSpace(messaggio) != ""
    ensures var after := After(sys, Overlap(a, b, ta, tb, end));
            && ToldState(after, a, Completata)
            && id in after.docs && after.docs[id].stato == VistoEmesso
            && Entries(after.docs[id].eventi, Completata) == Entries(sys.docs[id].eventi, Completata)
  {
    LastWriteWins(sys, a, b, ta, tb, end);
    var log := sys.docs[id].eventi;
    var noted := log + [NotaAggiunta(attore, TrimSpace(messaggio), interna, tb)];
    assert noted[..|log|] == log;
    assert Copy(sys, b, tb).eventi == noted;
  }

  /** A case that its owner was told is submitted can become a draft again and then be deleted. */
  lemma SubmittedCanBeDeleted(sys: System, a: Pid, b: Pid, id: Id, utente: Id, nota: string, modifica: Modifica,
                              ta: Instant, tb: Instant, end: Instant)
    requires a != b && a in sys.writers && b in sys.writers && DeletableDraft(sys.docs, id, utente)
    requires sys.writers[a] == Writer(id, ChangeState(utente, Inviata, nota), Reading)
    requires sys.writers[b] == Writer(id, UpdateAsDraft(utente, modifica), Reading)
    ensures var after := After(sys, Overlap(a, b, ta, tb, end) + [Step(DeleteDraft(id, utente), end)]);
            ToldState(after, a, Inviata) && id !in after.docs
  {
    var overlap, delete := Overlap(a, b, ta, tb, end), Step(DeleteDraft(id, utente), end);
    var middle := After(sys, overlap);
    assert DeletableDraft(middle.docs, id, utente) && ToldState(middle, a, Inviata) by {
      LastWriteWins(sys, a, b, ta, tb, end);
    }
    AfterOneMore(sys, overlap, delete);
  }

  // ----------------------------------------------------- runs that lose updates

  lemma OneMoreStep(steps: seq<Step>, step: Step, stamp: Time -> string)
    ensures Run(steps + [step], stamp) == Next(Run(steps, stamp), step)
    ensures Interleaving(steps + [step], stamp)
       <==> Interleaving(steps, stamp) && Possible(Run(steps, stamp), step)
  {
    assert (steps + [step])[..|steps|] == steps;
  }

  /** Steps of requests that have already arrived, at times that do not run backwards. */
  predicate Underway(steps: seq<Step>, clock: Time) {
    && (forall s <- steps :: s.move.Proceed? || s.move.DeleteDraft?)
    && (forall s <- steps :: clock <= s.at)
    && (forall i, j | 0 <= i < j < |steps| :: steps[i].at <= steps[j].at)
  }

  /** `more` goes on where the run `steps` ends. */
  ghost predicate GoesOn(steps: seq<Step>, more: seq<Step>, stamp: Time -> string) {
    Interleaving(steps + more, stamp) && Run(steps + more, stamp) == After(Run(steps, stamp), more)
  }

  lemma RunsAgree(steps: seq<Step>, more: seq<Step>, step: Step, stamp: Time -> string)
    requires Run(steps + more, stamp) == After(Run(steps, stamp), more)
    ensures Run(steps + more + [step], stamp) == After(Run(steps, stamp), more + [step])
  {
    OneMoreStep(steps + more, step, stamp);
    AfterOneMore(Run(steps, stamp), more, step);
  }

  lemma InterleavesOnByOne(steps: seq<Step>, more: seq<Step>, step: Step, stamp: Time -> string)
    requires Interleaving(steps + more, stamp) && Possible(Run(steps + more, stamp), step)
    ensures Interleaving(steps + more + [step], stamp)
  {
    OneMoreStep(steps + more, step, stamp);
  }

  lemma GoesOnByOne(steps: seq<Step>, more: seq<Step>, step: Step, stamp: Time -> string)
    requires GoesOn(steps, more, stamp) && Possible(Run(steps + more, stamp), step)
    ensures GoesOn(steps, more + [step], stamp)
  {
    RunsAgree(steps, more, step, stamp);
    InterleavesOnByOne(steps, more, step, stamp);
    assert steps + (more + [step]) == steps + more + [step];
  }

  lemma {:induction false} ClockOfAfter(sys: System, more: seq<Step>)
    ensures After(sys, more).clock == if more == [] then sys.clock else more[|more| - 1].at
  {
  }

  lemma UnderwayInit(more: seq<Step>, sys: System)
    requires more != [] && Underway(more, sys.clock)
    ensures var init, last := more[..|more| - 1], more[|more| - 1];
            Underway(init, sys.clock) && Possible(After(sys, init), last)
  {
    ClockOfAfter(sys, more[..|more| - 1]);
  }

  lemma UnderwayOneMore(steps: seq<Step>, step: Step, clock: Time)
    requires Underway(steps, clock) && clock <= step.at && forall s <- steps :: s.at <= step.at
    requires step.move.Proceed? || step.move.DeleteDraft?
    ensures Underway(steps + [step], clock)
  {
  }

  lemma OverlapUnderway(a: Pid, b: Pid, at: Instant, clock: Time)
    requires clock <= at
    ensures Underway(Overlap(a, b, at, at, at), clock)
  {
  }

  lemma LastStep(steps: seq<Step>, init: seq<Step>, last: Step, stamp: Time -> string)
    requires GoesOn(steps, init, stamp) && Underway(init + [last], Run(steps, stamp).clock)
    ensures GoesOn(steps, init + [last], stamp)
  {
    UnderwayInit(init + [last], Run(steps, stamp));
    assert (init + [last])[..|init|] == init;
    GoesOnByOne(steps, init, last, stamp);
  }

  lemma {:induction false} MoreSteps(steps: seq<Step>, more: seq<Step>, stamp: Time -> string)
    requires Interleaving(steps, stamp) && Underway(more, Run(steps, stamp).clock)
    ensures GoesOn(steps, more, stamp)
  {
    if more == [] {
      assert steps + more == steps;
    } else {
      var init, last := more[..|more| - 1], more[|more| - 1];
      assert more == init + [last];
      assert GoesOn(steps, init, stamp) by {
        UnderwayInit(more, Run(steps, stamp));
        MoreSteps(steps, init, stamp);
      }
      LastStep(steps, init, last, stamp);
    }
  }

  function EndOf(path: seq<Stato>): Stato {
    if path == [] then Bozza else path[|path| - 1]
  }

  /** From a draft along allowed transitions. */
  predicate IsPath(path: seq<Stato>) {
    path == [] || (IsPath(path[..|path| - 1]) && Allowed(EndOf(path[..|path| - 1]), path[|path| - 1]))
  }

  /** A system that holds one case in the given state, its updates all done by processes below `used`. */
  ghost predicate Holds(sys: System, id: Id, utente: Id, stato: Stato, used: nat, at: Instant) {
    && sys.clock <= at && id in sys.docs && sys.docs[id].utenteID == utente && sys.docs[id].stato == stato
    && forall pid <- sys.writers :: pid < used
  }

  lemma Created(stamp: Time -> string, id: Id, utente: Id, dati: Dati, anno: nat, at: Instant)
      returns (steps: seq<Step>)
    ensures Interleaving(steps, stamp) && Holds(Run(steps, stamp), id, utente, Bozza, 0, at)
  {
    var begin, create := Step(BeginCreate(id, utente, dati, utente, anno), at), Step(Create(id), at);
    var one := [] + [begin];
    var two := one + [create];
    steps := two + [create];
    OneMoreStep([], begin, stamp);
    OneMoreStep(one, create, stamp);
    OneMoreStep(two, create, stamp);
  }

  lemma ChangedAlone(stamp: Time -> string, before: seq<Step>, id: Id, utente: Id, stato: Stato, next: Stato, used: nat,
                     at: Instant) returns (steps: seq<Step>)
    requires Interleaving(before, stamp) && Holds(Run(before, stamp), id, utente, stato, used, at)
    requires Allowed(stato, next)
    ensures Interleaving(steps, stamp) && Holds(Run(steps, stamp), id, utente, next, used + 1, at)
  {
    var begin, go := Step(BeginUpdate(used, id, ChangeState(utente, next, "")), at), Step(Proceed(used), at);
    var one := before + [begin];
    var two := one + [go];
    var three := two + [go];
    steps := three + [go];
    OneMoreStep(before, begin, stamp);
    OneMoreStep(one, go, stamp);
    OneMoreStep(two, go, stamp);
    OneMoreStep(three, go, stamp);
  }

  /** Every state on an allowed path is reached by some run. */
  lemma {:induction false} Reached(stamp: Time -> string, id: Id, utente: Id, dati: Dati, anno: nat, path: seq<Stato>,
                                   at: Instant) returns (steps: seq<Step>)
    requires IsPath(path)
    ensures Interleaving(steps, stamp) && Holds(Run(steps, stamp), id, utente, EndOf(path), |path|, at)
  {
    if path == [] {
      steps := Created(stamp, id, utente, dati, anno, at);
    } else {
      var init := path[..|path| - 1];
      var before := Reached(stamp, id, utente, dati, anno, init, at);
      steps := ChangedAlone(stamp, before, id, utente, EndOf(init), path[|path| - 1], |init|, at);
    }
  }

  /** Two updates of a case arrive. */
  lemma BothArrive(stamp: Time -> string, before: seq<Step>, id: Id, utente: Id, stato: Stato, used: nat, u: Update,
                   v: Update, at: Instant) returns (steps: seq<Step>)
    requires Interleaving(before, stamp) && Holds(Run(before, stamp), id, utente, stato, used, at)
    ensures Interleaving(steps, stamp) && Holds(Run(steps, stamp), id, utente, stato, used + 2, at)
    ensures var writers := Run(steps, stamp).writers;
            && used in writers && writers[used] == Writer(id, u, Reading)
            && used + 1 in writers && writers[used + 1] == Writer(id, v, Reading)
  {
    var first, second := Step(BeginUpdate(used, id, u), at), Step(BeginUpdate(used + 1, id, v), at);
    var one := before + [first];
    steps := one + [second];
    OneMoreStep(before, first, stamp);
    OneMoreStep(one, second, stamp);
  }

  /** From an empty collection a case can be reported as completed and yet be back at the issued visa. */
  lemma {:induction false} CompletionUndoneFromStart(stamp: Time -> string, id: Id, utente: Id, dati: Dati,
                                                     anno: nat, at: Instant)
      returns (steps: seq<Step>, pid: Pid)
    ensures Interleaving(steps, stamp) && ToldState(Run(steps, stamp), pid, Completata)
    ensures id in Run(steps, stamp).docs && Run(steps, stamp).docs[id].stato == VistoEmesso
  {
    var path := ToIssuedVisa();
    var before := Reached(stamp, id, utente, dati, anno, path, at);
    pid := |path|;
    var complete, note := ChangeState(utente, Completata, ""), Update.AddNota(utente, "nota", false);
    var both := BothArrive(stamp, before, id, utente, VistoEmesso, pid, complete, note, at);
    steps := UndoneFrom(stamp, both, id, utente, pid, at);
  }

  lemma UndoneFrom(stamp: Time -> string, both: seq<Step>, id: Id, utente: Id, pid: Pid, at: Instant)
      returns (steps: seq<Step>)
    requires Interleaving(both, stamp) && Holds(Run(both, stamp), id, utente, VistoEmesso, pid + 2, at)
    requires var writers := Run(both, stamp).writers;
             && pid in writers && writers[pid] == Writer(id, ChangeState(utente, Completata, ""), Reading)
             && pid + 1 in writers && writers[pid + 1] == Writer(id, Update.AddNota(utente, "nota", false), Reading)
    ensures Interleaving(steps, stamp) && ToldState(Run(steps, stamp), pid, Completata)
    ensures id in Run(steps, stamp).docs && Run(steps, stamp).docs[id].stato == VistoEmesso
  {
    var sys, overlap := Run(both, stamp), Overlap(pid, pid + 1, at, at, at);
    steps := both + overlap;
    assert GoesOn(both, overlap, stamp) by {
      OverlapUnderway(pid, pid + 1, at, sys.clock);
      MoreSteps(both, overlap, stamp);
    }
    var end := After(sys, overlap);
    assert ToldState(end, pid, Completata) && id in end.docs && end.docs[id].stato == VistoEmesso by {
      CompletionCanBeUndone(sys, pid, pid + 1, id, utente, "", "nota", false, at, at, at);
    }
  }

  lemma ToIssuedVisa() returns (path: seq<Stato>)
    ensures IsPath(path) && EndOf(path) == VistoEmesso
  {
    path := [];
    path := OnTo(path, Inviata);
    path := OnTo(path, InLavorazione);
    path := OnTo(path, Approvata);
    path := OnTo(path, AttendePagamento);
    path := OnTo(path, PagamentoRicevuto);
    path := OnTo(path, VistoInElaborazione);
    path := OnTo(path, VistoEmesso);
  }

  lemma OnTo(path: seq<Stato>, next: Stato) returns (longer: seq<Stato>)
    requires IsPath(path) && Allowed(EndOf(path), next)
    ensures IsPath(longer) && EndOf(longer) == next
  {
    longer := path + [next];
    assert longer[..|longer| - 1] == path;
  }

  /** From an empty collection a case can be reported as submitted and yet be gone. */
  lemma {:induction false} SubmittedDeletedFromStart(stamp: Time -> string, id: Id, utente: Id, dati: Dati,
                                                     anno: nat, modifica: Modifica, at: Instant)
      returns (steps: seq<Step>, pid: Pid)
    ensures Interleaving(steps, stamp) && ToldState(Run(steps, stamp), pid, Inviata) && id !in Run(steps, stamp).docs
  {
    var before := Created(stamp, id, utente, dati, anno, at);
    pid := 0;
    var submit, edit := ChangeState(utente, Inviata, ""), UpdateAsDraft(utente, modifica);
    var both := BothArrive(stamp, before, id, utente, Bozza, pid, submit, edit, at);
    steps := DeletedFrom(stamp, both, id, utente, pid, modifica, at);
  }

  lemma DeletedFrom(stamp: Time -> string, both: seq<Step>, id: Id, utente: Id, pid: Pid, modifica: Modifica,
                    at: Instant) returns (steps: seq<Step>)
    requires Interleaving(both, stamp) && Holds(Run(both, stamp), id, utente, Bozza, pid + 2, at)
    requires var writers := Run(both, stamp).writers;
             && pid in writers && writers[pid] == Writer(id, ChangeState(utente, Inviata, ""), Reading)
             && pid + 1 in writers && writers[pid + 1] == Writer(id, UpdateAsDraft(utente, modifica), Reading)
    ensures Interleaving(steps, stamp) && ToldState(Run(steps, stamp), pid, Inviata) && id !in Run(steps, stamp).docs
  {
    var sys, rest := Run(both, stamp), Overlap(pid, pid + 1, at, at, at) + [Step(DeleteDraft(id, utente), at)];
    steps := both + rest;
    assert GoesOn(both, rest, stamp) by {
      OverlapUnderway(pid, pid + 1, at, sys.clock);
      UnderwayOneMore(Overlap(pid, pid + 1, at, at, at), Step(DeleteDraft(id, utente), at), sys.clock);
      MoreSteps(both, rest, stamp);
    }
    var end := After(sys, rest);
    assert ToldState(end, pid, Inviata) && id !in end.docs by {
      SubmittedCanBeDeleted(sys, pid, pid + 1, id, utente, "", modifica, at, at, at);
    }
  }

  // ------------------------------------------------ when a replacement is atomic

  /** Nothing that the update builds on has changed between the copy it read and the document now stored. */
  predicate StillFits(stored: Pratica, copy: Pratica, u: Update) {
    match u
    case UpdateAsDraft(_, modifica) =>
      && stored == copy.(aggiornatoIl := stored.aggiornatoIl, dati := stored.dati)
      && Edited(stored.dati, modifica) == Edited(copy.dati, modifica)
    case DeleteDocumento(id) =>
      && stored == copy.(aggiornatoIl := stored.aggiornatoIl, documenti := stored.documenti)
      && Without(stored.documenti, id) == Without(copy.documenti, id) && Writes(stored, u)
    case _ => stored == copy.(aggiornatoIl := stored.aggiornatoIl)
  }

  predicate Logs(u: Update) {
    u.ChangeState? || u.AssignOperatore? || u.AddNota?
  }

  /** A logged update brings two cases with sound logs to the same version only from the same version. */
  lemma SameResultSameCase(p: Pratica, stored: Pratica, u: Update, clock: Time, now: Instant, env: Env)
    requires Logs(u) && Sound(p, clock, env.stamp) && Sound(stored, clock, env.stamp)
    requires Apply(p, u, now, env).Ok? && Apply(stored, u, now, env) == Apply(p, u, now, env)
    ensures stored == p.(aggiornatoIl := stored.aggiornatoIl)
  {
    var q := Apply(p, u, now, env).value;
    assert q.eventi[..|q.eventi| - 1] == p.eventi;
    assert q.eventi[..|q.eventi| - 1] == stored.eventi;
  }

  lemma SameDocuments(p: Pratica, stored: Pratica, d: Documento)
    requires p.documenti + [d] == stored.documenti + [d]
    ensures p.documenti == stored.documenti
  {
    var all := p.documenti + [d];
    assert all[..|all| - 1] == p.documenti;
    assert all[..|all| - 1] == stored.documenti;
  }

  lemma FitsIff(p: Pratica, stored: Pratica, u: Update, clock: Time, now: Instant, env: Env)
    requires Sound(p, clock, env.stamp) && Sound(stored, clock, env.stamp)
    requires Apply(p, u, now, env).Ok? && Writes(p, u)
    ensures Apply(stored, u, now, env) == Apply(p, u, now, env) && Writes(stored, u) <==> StillFits(stored, p, u)
  {
    if Apply(stored, u, now, env) == Apply(p, u, now, env) {
      if Logs(u) {
        SameResultSameCase(p, stored, u, clock, now, env);
      } else if u.AddDocumento? {
        SameDocuments(p, stored, u.documento);
      }
    }
  }

  /** A replacement stores and answers what the update would have in one atomic step if and only if the case is
      still there and still fits the copy that was read. */
  lemma {:induction false} ReplaceIsAtomicIff(sys: System, pid: Pid, step: Step)
    requires SystemSound(sys) && step.move == Proceed(pid) && sys.clock <= step.at
    requires pid in sys.writers && sys.writers[pid].pc.Writing?
    ensures var w := sys.writers[pid];
            Alone(sys.docs, w.id, w.update, w.pc.il, w.pc.env) == (Next(sys, step).docs, Ok(w.pc.written))
            && w.id in sys.docs && Writes(sys.docs[w.id], w.update)
            <==> w.id in sys.docs && StillFits(sys.docs[w.id], w.pc.copy, w.update)
  {
    var w := sys.writers[pid];
    assert WriterSound(sys, w);
    if w.id in sys.docs {
      FitsIff(w.pc.copy, sys.docs[w.id], w.update, sys.clock, w.pc.il, w.pc.env);
    }
  }

  // ----------------------------------------------- one update of a case at a time

  predicate Holding(w: Writer) {
    w.pc.Computing? || w.pc.Writing?
  }

  /** No two updates hold a copy of the same case. */
  ghost predicate OneAtATime(sys: System) {
    forall a, b | a in sys.writers && b in sys.writers && a != b
                  && Holding(sys.writers[a]) && Holding(sys.writers[b]) ::
      sys.writers[a].id != sys.writers[b].id
  }

  ghost predicate Exclusive(steps: seq<Step>, stamp: Time -> string) {
    steps == [] || (Exclusive(steps[..|steps| - 1], stamp) && OneAtATime(Run(steps, stamp)))
  }

  /** Whoever holds a copy of a stored case holds it as it is stored. */
  ghost predicate CopiesCurrent(sys: System) {
    forall pid <- sys.writers :: Holding(sys.writers[pid]) && sys.writers[pid].id in sys.docs
                                 ==> sys.docs[sys.writers[pid].id] == sys.writers[pid].pc.copy
  }

  /** A copy in hand was in hand before the step, or was just read. */
  lemma HolderShape(sys: System, step: Step, pid: Pid)
    requires Possible(sys, step)
    requires pid in Next(sys, step).writers && Holding(Next(sys, step).writers[pid])
    ensures pid in sys.writers && Next(sys, step).writers[pid].id == sys.writers[pid].id
    ensures var sys' := Next(sys, step);
            var w, w' := sys.writers[pid], sys'.writers[pid];
            || (w.pc == Reading && w.id in sys.docs && w'.pc.copy == sys.docs[w.id] && sys'.docs == sys.docs)
            || (Holding(w) && w'.pc.copy == w.pc.copy && (step.move == Proceed(pid) ==> sys'.docs == sys.docs))
  {
  }

  lemma NextKeepsCopies(sys: System, step: Step)
    requires Possible(sys, step) && SystemSound(sys) && OneAtATime(sys) && CopiesCurrent(sys)
    ensures CopiesCurrent(Next(sys, step))
  {
    var sys' := Next(sys, step);
    forall pid <- sys'.writers | Holding(sys'.writers[pid]) && sys'.writers[pid].id in sys'.docs
      ensures sys'.docs[sys'.writers[pid].id] == sys'.writers[pid].pc.copy
    {
      HolderShape(sys, step, pid);
      var w := sys.writers[pid];
      NextDocs(sys, step, w.id);
      assert WriterSound(sys, w);
    }
  }

  /** What the collection went through: whole cases inserted, updates applied, drafts deleted. */
  datatype Commit =
    | Insert(p: Pratica)
    | Change(id: Id, update: Update, il: Instant, env: Env)
    | Discard(id: Id, utente: Id)

  function Perform(docs: Collection, c: Commit): Collection {
    match c
    case Insert(p) => docs[p.id := p]
    case Change(id, u, il, env) => Alone(docs, id, u, il, env).0
    case Discard(id, utente) => if DeletableDraft(docs, id, utente) then docs - {id} else docs
  }

  function Serially(commits: seq<Commit>): Collection {
    if commits == [] then map[] else Perform(Serially(commits[..|commits| - 1]), commits[|commits| - 1])
  }

  /** What a step commits: an update does so when it replaces the document. */
  function Committed(sys: System, move: Move): seq<Commit> {
    match move
    case Create(id) =>
      if id in sys.creators && sys.creators[id].birth.Inserting? then [Insert(Newborn(id, sys.creators[id]))] else []
    case Proceed(pid) =>
      if pid in sys.writers && sys.writers[pid].pc.Writing? then
        var w := sys.writers[pid];
        [Change(w.id, w.update, w.pc.il, w.pc.env)]
      else []
    case DeleteDraft(id, utente) => [Discard(id, utente)]
    case _ => []
  }

  function Commits(steps: seq<Step>, stamp: Time -> string): seq<Commit> {
    if steps == [] then []
    else
      var init := steps[..|steps| - 1];
      Commits(init, stamp) + Committed(Run(init, stamp), steps[|steps| - 1].move)
  }

  /** The step replaces no stored document that has changed under the copy being written. */
  predicate Fits(sys: System, move: Move) {
    move.Proceed? && move.pid in sys.writers
    && sys.writers[move.pid].pc.Writing? && sys.writers[move.pid].id in sys.docs
    ==> var w := sys.writers[move.pid]; StillFits(sys.docs[w.id], w.pc.copy, w.update)
  }

  lemma StepPerforms(sys: System, step: Step)
    requires SystemSound(sys) && sys.clock <= step.at && Fits(sys, step.move)
    ensures var c := Committed(sys, step.move);
            Next(sys, step).docs == if c == [] then sys.docs else Perform(sys.docs, c[0])
  {
    if step.move.Proceed? {
      if step.move.pid in sys.writers && sys.writers[step.move.pid].pc.Writing? {
        ReplaceIsAtomicIff(sys, step.move.pid, step);
      }
    } else {
      OtherPerforms(sys, step);
    }
  }

  lemma OtherPerforms(sys: System, step: Step)
    requires !step.move.Proceed?
    ensures var c := Committed(sys, step.move);
            Next(sys, step).docs == if c == [] then sys.docs else Perform(sys.docs, c[0])
  {
  }

  lemma OneMoreCommit(before: seq<Commit>, c: seq<Commit>)
    requires |c| <= 1
    ensures Serially(before + c) == if c == [] then Serially(before) else Perform(Serially(before), c[0])
  {
    if c == [] {
      assert before + c == before;
    } else {
      assert (before + c)[..|before|] == before;
    }
  }

  ghost predicate AlwaysFits(steps: seq<Step>, stamp: Time -> string) {
    steps == [] ||
    (var init, last := steps[..|steps| - 1], steps[|steps| - 1];
     AlwaysFits(init, stamp) && Fits(Run(init, stamp), last.move))
  }

  /** As long as every replacement of a stored case still fits it, reads and replacements of any number of cases may
      interleave at will: the collection is what atomic updates, in the order of the replacements, would have made
      of it. */
  lemma {:induction false} FittingIsSerial(steps: seq<Step>, stamp: Time -> string)
    requires Interleaving(steps, stamp) && AlwaysFits(steps, stamp)
    ensures Run(steps, stamp).docs == Serially(Commits(steps, stamp))
  {
    if steps != [] {
      var init, last := steps[..|steps| - 1], steps[|steps| - 1];
      FittingIsSerial(init, stamp);
      EveryInterleavingIsSound(init, stamp);
      StepPerforms(Run(init, stamp), last);
      OneMoreCommit(Commits(init, stamp), Committed(Run(init, stamp), last.move));
    }
  }

  /** A current copy fits. */
  lemma CurrentFits(sys: System, move: Move)
    requires SystemSound(sys) && CopiesCurrent(sys)
    ensures Fits(sys, move)
  {
    if move.Proceed? && move.pid in sys.writers && sys.writers[move.pid].pc.Writing? {
      assert WriterSound(sys, sys.writers[move.pid]);
    }
  }

  lemma {:induction false} ExclusiveFits(steps: seq<Step>, stamp: Time -> string)
    requires Interleaving(steps, stamp) && Exclusive(steps, stamp)
    ensures CopiesCurrent(Run(steps, stamp)) && AlwaysFits(steps, stamp)
  {
    if steps != [] {
      var init, last := steps[..|steps| - 1], steps[|steps| - 1];
      ExclusiveFits(init, stamp);
      EveryInterleavingIsSound(init, stamp);
      assert OneAtATime(Run(init, stamp));
      CurrentFits(Run(init, stamp), last.move);
      NextKeepsCopies(Run(init, stamp), last);
    }
  }

  /** In particular as long as no two updates of one case overlap. */
  lemma {:induction false} ExclusiveIsSerial(steps: seq<Step>, stamp: Time -> string)
    requires Interleaving(steps, stamp) && Exclusive(steps, stamp)
    ensures CopiesCurrent(Run(steps, stamp))
    ensures Run(steps, stamp).docs == Serially(Commits(steps, stamp))
  {
    ExclusiveFits(steps, stamp);
    FittingIsSerial(steps, stamp);
  }

  // ------------------------------------------------------------- nothing lost

  /** What the update that a writer computed adds to the log it read. */
  function Addition(w: Writer): seq<Evento>
    requires w.pc.Writing?
  {
    Logged(w.pc.copy, w.update, w.pc.il)
  }

  /** A replacement keeps everything that was logged if and only if the copy has it all, or the stored log is already
      the one to be written. */
  lemma {:induction false} LogKeptIff(sys: System, pid: Pid, step: Step)
    requires SystemSound(sys) && step.move == Proceed(pid) && sys.clock <= step.at
    requires pid in sys.writers && sys.writers[pid].pc.Writing? && sys.writers[pid].id in sys.docs
    ensures var w := sys.writers[pid];
            var stored, docs' := sys.docs[w.id], Next(sys, step).docs;
            && w.id in docs' && docs'[w.id].eventi == w.pc.copy.eventi + Addition(w)
            && (stored.eventi <= docs'[w.id].eventi
                <==> stored.eventi <= w.pc.copy.eventi || stored.eventi == w.pc.copy.eventi + Addition(w))
  {
    var w := sys.writers[pid];
    assert WriterSound(sys, w);
    ApplyLogs(w.pc.copy, w.update, w.pc.il, w.pc.env);
    PrefixOfOneMore(sys.docs[w.id].eventi, w.pc.copy.eventi, Addition(w));
  }

  lemma PrefixOfOneMore(log: seq<Evento>, start: seq<Evento>, addition: seq<Evento>)
    requires |addition| <= 1
    ensures log <= start + addition <==> log <= start || log == start + addition
  {
    if log <= start + addition && |log| <= |start| {
      assert log == (start + addition)[..|log|] == start[..|log|];
    }
  }

  /** A replacement that fits leaves a later version of what was stored. */
  lemma FittingEvolves(sys: System, step: Step, id: Id)
    requires Possible(sys, step) && SystemSound(sys) && Fits(sys, step.move)
    requires id in sys.docs && sys.docs[id].stato != Bozza
    ensures id in Next(sys, step).docs && Later(sys.docs[id], Next(sys, step).docs[id])
  {
    assert Genuine(sys, id, sys.docs[id]);
    StaysPastDraft(sys, step, id);
    NextDocs(sys, step, id);
    if WritesBack(sys, step.move, id) {
      var w := sys.writers[step.move.pid];
      assert WriterSound(sys, w);
      FitsIff(w.pc.copy, sys.docs[id], w.update, sys.clock, w.pc.il, w.pc.env);
      ApplyIsLater(sys.docs[id], w.update, w.pc.il, w.pc.env);
    }
  }

  lemma StaysPastDraft(sys: System, step: Step, id: Id)
    requires id in sys.docs && sys.docs[id].stato != Bozza
    ensures id in Next(sys, step).docs
  {
  }

  /** As long as replacements fit nothing is lost: past the draft stage a case stays, and only moves on to later
      versions. */
  lemma {:induction false} FittingOnlyEvolves(steps: seq<Step>, stamp: Time -> string, step: Step, id: Id)
    requires Interleaving(steps + [step], stamp) && AlwaysFits(steps + [step], stamp)
    requires var docs := Run(steps, stamp).docs; id in docs && docs[id].stato != Bozza
    ensures var docs, docs' := Run(steps, stamp).docs, Run(steps + [step], stamp).docs;
            id in docs' && Later(docs[id], docs'[id])
  {
    assert (steps + [step])[..|steps|] == steps;
    EveryInterleavingIsSound(steps, stamp);
    FittingEvolves(Run(steps, stamp), step, id);
  }

  /** In particular without overlaps. */
  lemma {:induction false} ExclusiveOnlyEvolves(steps: seq<Step>, stamp: Time -> string, step: Step, id: Id)
    requires Interleaving(steps + [step], stamp) && Exclusive(steps + [step], stamp)
    requires var docs := Run(steps, stamp).docs; id in docs && docs[id].stato != Bozza
    ensures var docs, docs' := Run(steps, stamp).docs, Run(steps + [step], stamp).docs;
            id in docs' && Later(docs[id], docs'[id])
  {
    ExclusiveFits(steps + [step], stamp);
    FittingOnlyEvolves(steps, stamp, step, id);
  }

  // --------------------------------------------------------- a call by itself

  /** With nobody in between, find, compute and replace are the atomic update, and its answer. */
  lemma WriterAlone(sys: System, pid: Pid, t: Instant, now: Instant, later: Instant)
    requires pid in sys.writers && sys.writers[pid].pc == Reading
    ensures var w := sys.writers[pid];
            var sys' := UpdateStep(UpdateStep(UpdateStep(sys, pid, t), pid, now), pid, later);
            var (docs, r) := Alone(sys.docs, w.id, w.update, now, sys.env);
            sys'.docs == docs && sys'.writers == sys.writers[pid := w.(pc := Finished(r))]
  {
    var w := sys.writers[pid];
    if w.id in sys.docs && !Writes(sys.docs[w.id], w.update) {
      assert sys.docs[w.id := sys.docs[w.id]] == sys.docs;
    }
  }

  /** With nobody in between, drawing a number and inserting leave a new draft under the next number. */
  lemma CreatorAlone(sys: System, id: Id)
    requires id in sys.creators && sys.creators[id].birth == Drawing
    ensures var c := sys.creators[id];
            var sys' := CreateStep(CreateStep(sys, id), id);
            && sys'.counter == sys.counter + 1
            && var codice := Render(c.anno, sys.counter + 1);
               sys'.docs == sys.docs[id := NewPratica(id, codice, c.utente, c.dati, c.attore, c.il)]
  {
  }

  /** Only a draft of this user is deleted, and nothing else changes. */
  lemma OnlyOwnDraftsAreDeleted(sys: System, id: Id, utente: Id, at: Instant)
    ensures var sys' := Next(sys, Step(DeleteDraft(id, utente), at));
            && (id in sys.docs ==>
                  (id !in sys'.docs <==> sys.docs[id].utenteID == utente && sys.docs[id].stato == Bozza))
            && sys'.docs - {id} == sys.docs - {id} && sys'.writers == sys.writers && sys'.creators == sys.creators
  {
  }
}
