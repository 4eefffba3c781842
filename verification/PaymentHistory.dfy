/** What the webhook and refund handlers did to each payment over a whole run. */
module PaymentHistory {
  import opened Basics
  import opened Handlers
  import S = Store

  /** The event keys that a history ascribes to a token. */
  ghost function KeysOf(history: map<string, S.Token>, token: S.Token): set<string> {
    set key | key in history && history[key] == token
  }

  predicate IsConfirming(p: Proc) {
    p.Webhook? && p.wpc == Confirming
  }

  /** Marked events are those the store remembers, and a confirmation uses up a mark of its own. */
  ghost predicate MarksUsedOnce(sys: System) {
    && sys.marked.Keys == sys.store.webhooks.Keys
    && (forall k <- sys.confirmedBy :: k in sys.marked && sys.marked[k] == sys.confirmedBy[k])
    && (forall pid <- sys.procs | IsConfirming(sys.procs[pid]) ::
          var p := sys.procs[pid]; p.key in sys.marked && sys.marked[p.key] == p.token && p.key !in sys.confirmedBy)
    && (forall a, b | a in sys.procs && b in sys.procs && a != b
                      && IsConfirming(sys.procs[a]) && IsConfirming(sys.procs[b]) ::
          sys.procs[a].key != sys.procs[b].key)
  }

  function Refundable(s: S.Store, token: S.Token): nat {
    if token in s.pagamenti && s.pagamenti[token].stato == S.Completato then 1 else 0
  }

  ghost predicate AccountedFor(sys: System, t: S.Token) {
    && sys.confirmations[t] == |KeysOf(sys.confirmedBy, t)|
    && sys.refunds[t] + Refundable(sys.store, t) <= sys.confirmations[t]
  }

  ghost predicate Accounted(sys: System) {
    forall t :: AccountedFor(sys, t)
  }

  lemma KeysOfPut(history: map<string, S.Token>, key: string, token: S.Token, t: S.Token)
    requires key !in history
    ensures |KeysOf(history[key := token], t)| == |KeysOf(history, t)| + if t == token then 1 else 0
  {
    var after := KeysOf(history[key := token], t);
    if t == token {
      assert after == KeysOf(history, t) + {key};
    } else {
      assert after == KeysOf(history, t);
    }
  }

  predicate TouchesHistory(p: Proc) {
    p.Webhook? && (p.wpc == Marking || p.wpc == Confirming)
  }

  /** A step that neither marks nor confirms leaves the history alone and waits for no confirmation. */
  lemma QuietStep(sys: System, pid: Pid, now: Instant, stamp: Time -> string)
    requires pid in sys.procs && !TouchesHistory(sys.procs[pid])
    ensures var sys' := Next(sys, Proceed(pid), now, stamp);
            && sys'.store.webhooks == sys.store.webhooks && sys'.procs.Keys == sys.procs.Keys
            && !IsConfirming(sys'.procs[pid])
            && (forall q <- sys.procs :: q != pid ==> sys'.procs[q] == sys.procs[q])
            && sys'.marked == sys.marked && sys'.confirmedBy == sys.confirmedBy
            && sys'.confirmations == sys.confirmations && sys'.refunds == sys.refunds
  {
  }

  lemma {:induction false} NextMarks(sys: System, move: Move, now: Instant, stamp: Time -> string)
    requires MarksUsedOnce(sys) && Possible(sys, move)
    ensures MarksUsedOnce(Next(sys, move, now, stamp))
  {
    match move {
      case Arrive(_, _) =>
      case Call(op) => CallMarks(sys, op, now, stamp);
      case Proceed(pid) =>
        if pid in sys.procs {
          var p := sys.procs[pid];
          if !TouchesHistory(p) {
            QuietStep(sys, pid, now, stamp);
          } else if p.wpc == Marking {
            MarkingMarks(sys, pid, now, stamp);
          } else {
            ConfirmingMarks(sys, pid, now, stamp);
          }
        }
    }
  }

  lemma CallMarks(sys: System, op: S.Op, now: Instant, stamp: Time -> string)
    requires MarksUsedOnce(sys) && Possible(sys, Call(op))
    ensures MarksUsedOnce(Next(sys, Call(op), now, stamp))
  {
    assert Next(sys, Call(op), now, stamp).store.webhooks == sys.store.webhooks;
  }

  /** A new mark belongs to no earlier confirmation and to no other waiting process. */
  lemma MarkingMarks(sys: System, pid: Pid, now: Instant, stamp: Time -> string)
    requires MarksUsedOnce(sys) && pid in sys.procs && sys.procs[pid].Webhook? && sys.procs[pid].wpc == Marking
    ensures MarksUsedOnce(Next(sys, Proceed(pid), now, stamp))
  {
    var p, sys' := sys.procs[pid], Next(sys, Proceed(pid), now, stamp);
    if p.key == ":" || p.key in sys.store.webhooks {
      assert sys' == sys.(procs := sys.procs[pid := p.(wpc := Finished(false))]);
    } else {
      assert sys' == sys.(store := sys.store.(webhooks := sys.store.webhooks[p.key := now]),
                          procs := sys.procs[pid := p.(wpc := Confirming)],
                          marked := sys.marked[p.key := p.token]);
      assert p.key !in sys.marked;
    }
  }

  lemma ConfirmingMarks(sys: System, pid: Pid, now: Instant, stamp: Time -> string)
    requires MarksUsedOnce(sys) && pid in sys.procs && IsConfirming(sys.procs[pid])
    ensures MarksUsedOnce(Next(sys, Proceed(pid), now, stamp))
  {
    var p, sys' := sys.procs[pid], Next(sys, Proceed(pid), now, stamp);
    assert sys'.store.webhooks == sys.store.webhooks && sys'.marked == sys.marked;
    assert sys'.procs == sys.procs[pid := sys'.procs[pid]] && !IsConfirming(sys'.procs[pid]);
  }

  /** Which payment states a call can change. */
  lemma StepRefundable(s: S.Store, op: S.Op, now: Instant, stamp: Time -> string, t: S.Token)
    requires S.Fresh(s, op)
    ensures var (s', outcome) := S.Step(s, op, now, stamp);
            && (op == S.ConfirmPayment(t) ==> Refundable(s', t) <= 1)
            && (op == S.RefundPayment(t) && outcome == S.Accepted ==> Refundable(s, t) == 1 && Refundable(s', t) == 0)
            && (op != S.ConfirmPayment(t) && !(op == S.RefundPayment(t) && outcome == S.Accepted)
                ==> Refundable(s', t) == Refundable(s, t))
  {
  }

  lemma CallAccounts(sys: System, op: S.Op, now: Instant, stamp: Time -> string, t: S.Token)
    requires AccountedFor(sys, t) && Possible(sys, Call(op))
    ensures AccountedFor(Next(sys, Call(op), now, stamp), t)
  {
    StepRefundable(sys.store, op, now, stamp, t);
  }

  lemma ProceedAccounts(sys: System, pid: Pid, now: Instant, stamp: Time -> string, t: S.Token)
    requires MarksUsedOnce(sys) && AccountedFor(sys, t) && Possible(sys, Proceed(pid)) && pid in sys.procs
    ensures AccountedFor(Next(sys, Proceed(pid), now, stamp), t)
  {
    var p := sys.procs[pid];
    if NextCall(p).Some? {
      StepRefundable(sys.store, NextCall(p).value, now, stamp, t);
    }
    if IsConfirming(p) {
      KeysOfPut(sys.confirmedBy, p.key, p.token, t);
    } else if !TouchesHistory(p) {
      QuietStep(sys, pid, now, stamp);
    }
  }

  lemma NextAccounts(sys: System, move: Move, now: Instant, stamp: Time -> string)
    requires MarksUsedOnce(sys) && Accounted(sys) && Possible(sys, move)
    ensures Accounted(Next(sys, move, now, stamp))
  {
    forall t ensures AccountedFor(Next(sys, move, now, stamp), t) {
      assert AccountedFor(sys, t);
      match move {
        case Arrive(_, _) =>
        case Call(op) => CallAccounts(sys, op, now, stamp, t);
        case Proceed(pid) => if pid in sys.procs { ProceedAccounts(sys, pid, now, stamp, t); }
      }
    }
  }

  lemma {:induction false} EveryRunAccounts(run: seq<Timed>, stamp: Time -> string)
    requires Interleaving(run, stamp)
    ensures MarksUsedOnce(Run(run, stamp)) && Accounted(Run(run, stamp))
  {
    if run != [] {
      var init, last := run[..|run| - 1], run[|run| - 1];
      EveryRunAccounts(init, stamp);
      NextMarks(Run(init, stamp), last.move, last.at, stamp);
      NextAccounts(Run(init, stamp), last.move, last.at, stamp);
    }
  }

  /** In every interleaving a payment is refunded at most as often as it was confirmed, and confirmed at most as
      often as distinct webhook events were processed for it. */
  lemma RefundsConfirmationsEvents(run: seq<Timed>, token: S.Token, stamp: Time -> string)
    requires Interleaving(run, stamp)
    ensures var sys := Run(run, stamp);
            && sys.refunds[token] <= sys.confirmations[token] <= |KeysOf(sys.marked, token)|
            && sys.refunds[token] == CallsAccepted(run, S.RefundPayment(token), stamp)
            && sys.confirmations[token] == CallsAccepted(run, S.ConfirmPayment(token), stamp)
            && sys.marked.Keys == sys.store.webhooks.Keys
  {
    EveryRunAccounts(run, stamp);
    HistoriesCountCalls(run, token, stamp);
    var sys := Run(run, stamp);
    assert AccountedFor(sys, token);
    FewerKeys(KeysOf(sys.confirmedBy, token), KeysOf(sys.marked, token));
  }

  lemma {:induction false} FewerKeys(a: set<string>, b: set<string>)
    requires a <= b
    ensures |a| <= |b|
  {
    assert b == a + (b - a);
  }

  /** How often the calls of a run confirmed or refunded a payment: the calls that were accepted, whoever made them. */
  function CallsAccepted(run: seq<Timed>, op: S.Op, stamp: Time -> string): nat {
    if run == [] then 0
    else
      var init, last := run[..|run| - 1], run[|run| - 1];
      var sys := Run(init, stamp);
      CallsAccepted(init, op, stamp)
      + if CallOf(sys, last.move) == Some(op) && S.Step(sys.store, op, last.at, stamp).1 == S.Accepted then 1 else 0
  }

  lemma NextCounts(sys: System, move: Move, now: Instant, stamp: Time -> string, t: S.Token)
    requires Possible(sys, move)
    ensures var sys', call := Next(sys, move, now, stamp), CallOf(sys, move);
            var accepted := call.Some? && S.Step(sys.store, call.value, now, stamp).1 == S.Accepted;
            && sys'.refunds[t] == sys.refunds[t] + (if call == Some(S.RefundPayment(t)) && accepted then 1 else 0)
            && sys'.confirmations[t]
               == sys.confirmations[t] + (if call == Some(S.ConfirmPayment(t)) && accepted then 1 else 0)
  {
  }

  /** The histories count real calls. */
  lemma {:induction false} HistoriesCountCalls(run: seq<Timed>, token: S.Token, stamp: Time -> string)
    requires Interleaving(run, stamp)
    ensures Run(run, stamp).refunds[token] == CallsAccepted(run, S.RefundPayment(token), stamp)
    ensures Run(run, stamp).confirmations[token] == CallsAccepted(run, S.ConfirmPayment(token), stamp)
  {
    if run != [] {
      var init, last := run[..|run| - 1], run[|run| - 1];
      HistoriesCountCalls(init, token, stamp);
      NextCounts(Run(init, stamp), last.move, last.at, stamp, token);
    }
  }
}
