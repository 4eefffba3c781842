/** Webhook deliveries handled one after the other: repeats and unknown payments leave no trace. */
module Deliveries {
  import opened Basics
  import opened Pratiche
  import opened Handlers
  import S = Store

  /** A process taking one step at each of the given times with nobody in between. */
  function Solo(s: S.Store, p: Proc, times: seq<Instant>, stamp: Time -> string): S.Store
    decreases |times|
  {
    if times == [] then s
    else
      var (s', outcome) := Effect(s, NextCall(p), times[0], stamp);
      Solo(s', Resume(p, s, outcome), times[1..], stamp)
  }

  /** The clock at the seven store calls of a delivery. */
  type Readings = t: seq<Instant> | |t| == 7 witness [1, 1, 1, 1, 1, 1, 1]

  /** One delivery from its first step to its last: read, mark, confirm, four state changes. */
  function Deliver(s: S.Store, key: string, token: S.Token, times: Readings, stamp: Time -> string): S.Store {
    Solo(s, Webhook(key, token, Reading, "", false), times, stamp)
  }

  /** A delivery, or any other store call; those never confirm payments or mark events. */
  datatype Item = Delivery(key: string, token: S.Token, times: Readings) | Other(op: S.Op, at: Instant)

  predicate FromElsewhere(op: S.Op) {
    !op.ConfirmPayment? && !op.MarkProcessed?
  }

  function Handle(s: S.Store, item: Item, stamp: Time -> string): S.Store {
    match item
    case Delivery(key, token, times) => Deliver(s, key, token, times, stamp)
    case Other(op, at) => S.Step(s, op, at, stamp).0
  }

  function HandleAll(s: S.Store, items: seq<Item>, stamp: Time -> string): S.Store
    decreases |items|
  {
    if items == [] then s else HandleAll(Handle(s, items[0], stamp), items[1..], stamp)
  }

  /** A delivery counts when its payment is known by then and its event did not count before. */
  predicate Counts(item: Item, known: set<S.Token>, seen: set<string>) {
    item.Delivery? ==> item.token in known && item.key !in seen && item.key != ":"
  }

  /** The items without repeated deliveries and deliveries for payments that are unknown at that point; a delivery
      refused for that reason counts when it is repeated once the payment exists. */
  function FirstDeliveries(s: S.Store, items: seq<Item>, seen: set<string>, stamp: Time -> string): seq<Item>
    decreases |items|
  {
    if items == [] then []
    else if !Counts(items[0], s.pagamenti.Keys, seen) then FirstDeliveries(s, items[1..], seen, stamp)
    else
      var seen' := if items[0].Delivery? then seen + {items[0].key} else seen;
      [items[0]] + FirstDeliveries(Handle(s, items[0], stamp), items[1..], seen', stamp)
  }

  // ------------------------------------------------------------ one delivery

  lemma OtherCall(s: S.Store, op: S.Op, now: Instant, stamp: Time -> string)
    requires FromElsewhere(op)
    ensures S.Step(s, op, now, stamp).0.webhooks == s.webhooks
  {
  }

  lemma {:induction false} FinishedIsIdle(s: S.Store, p: Proc, times: seq<Instant>, stamp: Time -> string)
    requires p.Webhook? && p.wpc.Finished?
    ensures Solo(s, p, times, stamp) == s
    decreases |times|
  {
    if times != [] {
      FinishedIsIdle(s, p, times[1..], stamp);
    }
  }

  predicate SameHistory(s: S.Store, s': S.Store) {
    s'.pagamenti.Keys == s.pagamenti.Keys && s'.webhooks == s.webhooks
  }

  lemma MarkedStep(s: S.Store, p: Proc, now: Instant, stamp: Time -> string)
    requires p.Webhook? && (p.wpc == Confirming || p.wpc.Changing? || p.wpc.Finished?)
    ensures SameHistory(s, Effect(s, NextCall(p), now, stamp).0)
  {
    if p.wpc == Confirming && p.token in s.pagamenti {
      assert s.pagamenti.Keys + {p.token} == s.pagamenti.Keys;
    }
  }

  /** Once its event is marked, a delivery marks nothing else and creates no payment. */
  lemma {:induction false} MarkedMarksNoMore(s: S.Store, p: Proc, times: seq<Instant>, stamp: Time -> string)
    requires p.Webhook? && (p.wpc == Confirming || p.wpc.Changing? || p.wpc.Finished?)
    ensures SameHistory(s, Solo(s, p, times, stamp))
    decreases |times|
  {
    if times != [] {
      var (s', outcome) := Effect(s, NextCall(p), times[0], stamp);
      MarkedStep(s, p, times[0], stamp);
      MarkedMarksNoMore(s', Resume(p, s, outcome), times[1..], stamp);
    }
  }

  lemma OneStep(s: S.Store, p: Proc, times: seq<Instant>, stamp: Time -> string)
    requires times != []
    ensures var (s', outcome) := Effect(s, NextCall(p), times[0], stamp);
            Solo(s, p, times, stamp) == Solo(s', Resume(p, s, outcome), times[1..], stamp)
  {
  }

  /** A repeated delivery, or one for an unknown payment, changes nothing at all. */
  lemma {:induction false} RefusedDelivery(s: S.Store, key: string, token: S.Token, times: Readings,
                                           stamp: Time -> string)
    requires token !in s.pagamenti || key in s.webhooks || key == ":"
    ensures Deliver(s, key, token, times, stamp) == s
  {
    var p, over := Webhook(key, token, Reading, "", false), Webhook(key, token, Finished(false), "", false);
    OneStep(s, p, times, stamp);
    if token in s.pagamenti {
      OneStep(s, p.(wpc := Marking), times[1..], stamp);
      FinishedIsIdle(s, over, times[1..][1..], stamp);
    } else {
      FinishedIsIdle(s, over, times[1..], stamp);
    }
  }

  /** A delivery that counts marks its event, at its second clock reading, and no other, and creates no payment. */
  lemma {:induction false} AcceptedDelivery(s: S.Store, key: string, token: S.Token, times: Readings,
                                            stamp: Time -> string)
    requires token in s.pagamenti && key !in s.webhooks && key != ":"
    ensures var s' := Deliver(s, key, token, times, stamp);
            s'.pagamenti.Keys == s.pagamenti.Keys && s'.webhooks == s.webhooks[key := times[1]]
  {
    var p, rest := Webhook(key, token, Reading, "", false), times[1..];
    var s' := s.(webhooks := s.webhooks[key := rest[0]]);
    OneStep(s, p, times, stamp);
    OneStep(s, p.(wpc := Marking), rest, stamp);
    assert Effect(s, NextCall(p.(wpc := Marking)), rest[0], stamp) == (s', S.Accepted);
    MarkedMarksNoMore(s', p.(wpc := Confirming), rest[1..], stamp);
  }

  /** One state change of the payment's case, `done` of them being done: along the chain or refused. */
  lemma OneChange(s: S.Store, p: Proc, now: Instant, stamp: Time -> string)
    requires p.Webhook? && p.wpc.Changing? && p.wpc.done <= 3
    ensures var s', n := Effect(s, NextCall(p), now, stamp).0, p.wpc.done;
            && (OnChain(s.pratiche, p.caso, n) ==> OnChain(s'.pratiche, p.caso, n + 1))
            && (!OnChain(s.pratiche, p.caso, 0) ==> s'.pratiche == s.pratiche)
            && s'.pratiche - {p.caso} == s.pratiche - {p.caso} && s'.pagamenti == s.pagamenti
  {
    ChangeStep(s, p.caso, "system", ChainState(p.wpc.done + 1), ChainNote(p.wpc.done + 1), now, stamp);
  }

  lemma {:induction false} ChangesComplete(s: S.Store, p: Proc, times: seq<Instant>, stamp: Time -> string)
    requires p.Webhook? && p.wpc.Changing? && p.wpc.done <= 3 && |times| == 4 - p.wpc.done
    ensures var s' := Solo(s, p, times, stamp);
            && (OnChain(s.pratiche, p.caso, p.wpc.done) ==> OnChain(s'.pratiche, p.caso, 4))
            && (!OnChain(s.pratiche, p.caso, 0) ==> s'.pratiche == s.pratiche)
            && s'.pratiche - {p.caso} == s.pratiche - {p.caso} && s'.pagamenti == s.pagamenti
    decreases |times|
  {
    var (s', outcome) := Effect(s, NextCall(p), times[0], stamp);
    var p' := Resume(p, s, outcome);
    OneChange(s, p, times[0], stamp);
    OneStep(s, p, times, stamp);
    if p.wpc.done < 3 {
      ChangesComplete(s', p', times[1..], stamp);
    } else {
      FinishedIsIdle(s', p', times[1..], stamp);
    }
  }

  /** What a delivery has done by the time it turns to the case: it goes on with the case of its payment. */
  lemma UpToConfirmation(s: S.Store, key: string, token: S.Token, times: Readings, stamp: Time -> string)
    requires token in s.pagamenti && key !in s.webhooks && key != ":"
    ensures var paid := s.pagamenti[token].(stato := S.Completato, pagatoIl := Some(times[2]));
            var confirmed := s.(webhooks := s.webhooks[key := times[1]], pagamenti := s.pagamenti[token := paid]);
            Deliver(s, key, token, times, stamp)
            == Solo(confirmed, Webhook(key, token, Changing(0), s.pagamenti[token].praticaID, false), times[3..], stamp)
  {
    var p, marked := Webhook(key, token, Reading, "", false), s.(webhooks := s.webhooks[key := times[1]]);
    OneStep(s, p, times, stamp);
    OneStep(s, p.(wpc := Marking), times[1..], stamp);
    assert Effect(s, NextCall(p.(wpc := Marking)), times[1], stamp) == (marked, S.Accepted);
    OneStep(marked, p.(wpc := Confirming), times[2..], stamp);
    assert times[1..][1..] == times[2..] && times[2..][1..] == times[3..];
  }

  /** A delivery that counts completes its payment, and with it the payment's case if that was awaiting the payment or
      further along the chain; a case that was not is left alone, and so is every other case. */
  lemma {:induction false} DeliveryCompletesTheCase(s: S.Store, key: string, token: S.Token, times: Readings,
                                                    stamp: Time -> string)
    requires token in s.pagamenti && key !in s.webhooks && key != ":"
    ensures var s', caso := Deliver(s, key, token, times, stamp), s.pagamenti[token].praticaID;
            var paid := s.pagamenti[token].(stato := S.Completato, pagatoIl := Some(times[2]));
            && s'.pagamenti == s.pagamenti[token := paid]
            && (if OnChain(s.pratiche, caso, 0) then caso in s'.pratiche && s'.pratiche[caso].stato == Completata
                else s'.pratiche == s.pratiche)
            && s'.pratiche - {caso} == s.pratiche - {caso}
  {
    var caso := s.pagamenti[token].praticaID;
    var paid := s.pagamenti[token].(stato := S.Completato, pagatoIl := Some(times[2]));
    var confirmed := s.(webhooks := s.webhooks[key := times[1]], pagamenti := s.pagamenti[token := paid]);
    UpToConfirmation(s, key, token, times, stamp);
    ChangesComplete(confirmed, Webhook(key, token, Changing(0), caso, false), times[3..], stamp);
  }

  // ---------------------------------------------------------------- whole runs

  lemma HandledItem(s: S.Store, item: Item, stamp: Time -> string)
    requires Counts(item, s.pagamenti.Keys, s.webhooks.Keys) && (item.Other? ==> FromElsewhere(item.op))
    ensures Handle(s, item, stamp).webhooks.Keys
         == if item.Delivery? then s.webhooks.Keys + {item.key} else s.webhooks.Keys
  {
    if item.Delivery? {
      AcceptedDelivery(s, item.key, item.token, item.times, stamp);
    } else {
      OtherCall(s, item.op, item.at, stamp);
    }
  }

  /** A run of deliveries, mixed with any other calls, new payments included, ends in the same store as the run in
      which only the first delivery of each event for a known payment is kept, each at its own times. */
  lemma {:induction false} RepeatsLeaveNoTrace(s: S.Store, items: seq<Item>, stamp: Time -> string)
    requires forall i | 0 <= i < |items| :: items[i].Other? ==> FromElsewhere(items[i].op)
    ensures HandleAll(s, items, stamp) == HandleAll(s, FirstDeliveries(s, items, s.webhooks.Keys, stamp), stamp)
    decreases |items|
  {
    if items != [] {
      var item, rest, seen := items[0], items[1..], s.webhooks.Keys;
      var s' := Handle(s, item, stamp);
      if !Counts(item, s.pagamenti.Keys, seen) {
        RefusedDelivery(s, item.key, item.token, item.times, stamp);
      } else {
        HandledItem(s, item, stamp);
        var kept := FirstDeliveries(s', rest, s'.webhooks.Keys, stamp);
        assert FirstDeliveries(s, items, seen, stamp) == [item] + kept;
        assert ([item] + kept)[1..] == kept;
      }
      RepeatsLeaveNoTrace(s', rest, stamp);
    }
  }

  /** No event is delivered twice, and none that was seen before. */
  ghost predicate DeliversOnce(items: seq<Item>, seen: set<string>) {
    && (forall i | 0 <= i < |items| && items[i].Delivery? :: items[i].key !in seen)
    && (forall i, j | 0 <= i < j < |items| && items[i].Delivery? && items[j].Delivery? :: items[i].key != items[j].key)
  }

  lemma OneMoreItem(item: Item, rest: seq<Item>, seen: set<string>)
    requires item.Delivery? ==> item.key !in seen
    requires DeliversOnce(rest, if item.Delivery? then seen + {item.key} else seen)
    ensures DeliversOnce([item] + rest, seen)
  {
    var all := [item] + rest;
    assert forall i | 0 < i < |all| :: all[i] == rest[i - 1];
  }

  lemma {:induction false} KeptOnce(s: S.Store, items: seq<Item>, seen: set<string>, stamp: Time -> string)
    ensures DeliversOnce(FirstDeliveries(s, items, seen, stamp), seen)
    decreases |items|
  {
    if items != [] {
      var item, rest := items[0], items[1..];
      if !Counts(item, s.pagamenti.Keys, seen) {
        KeptOnce(s, rest, seen, stamp);
      } else {
        var s', seen' := Handle(s, item, stamp), if item.Delivery? then seen + {item.key} else seen;
        KeptOnce(s', rest, seen', stamp);
        OneMoreItem(item, FirstDeliveries(s', rest, seen', stamp), seen);
      }
    }
  }
}
