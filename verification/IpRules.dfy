/** The block and allow lists of internal/store/memory.go: maps that drop an expired entry when they meet it. */
module IpRules {
  import opened Basics
  import opened Text

  /** `BlockedIP` and `AllowedIP`: the same fields under different names. */
  datatype IpEntry = IpEntry(ip: string, reason: string, setBy: string, setAt: Time, expiresAt: Option<Time>)

  type Entries = map<string, IpEntry>

  predicate Expired(e: IpEntry, now: Instant) {
    e.expiresAt.Some? && e.expiresAt.value < now
  }

  function Live(m: Entries, now: Instant): Entries {
    map ip | ip in m && !Expired(m[ip], now) :: m[ip]
  }

  function Stored(entry: IpEntry, now: Instant): IpEntry {
    entry.(ip := TrimSpace(entry.ip), setAt := if entry.setAt == 0 then now else entry.setAt)
  }

  datatype Op = Upsert(entry: IpEntry) | Remove(ip: string) | Get(ip: string) | List

  /** What a caller sees; whether `Remove` found something is not part of it. */
  datatype Answer =
    | Refused
    | Accepted(entry: IpEntry)
    | Removed
    | Missing
    | Found(entry: IpEntry)
    | Listed(entries: set<IpEntry>)

  /** The map that drops expired entries on `Get` and `List`. */
  function LazyStep(m: Entries, op: Op, now: Instant): (Entries, Answer) {
    match op
    case Upsert(entry) =>
      if TrimSpace(entry.ip) == "" then (m, Refused)
      else (m[TrimSpace(entry.ip) := Stored(entry, now)], Accepted(Stored(entry, now)))
    case Remove(ip) =>
      if TrimSpace(ip) == "" then (m, Refused) else (m - {TrimSpace(ip)}, Removed)
    case Get(ip) =>
      var key := TrimSpace(ip);
      if key !in m then (m, Missing)
      else if Expired(m[key], now) then (m - {key}, Missing)
      else (m, Found(m[key]))
    case List =>
      (Live(m, now), Listed(Live(m, now).Values))
  }

  class IpRuleList {
    var entries: Entries

    constructor ()
      ensures entries == map[]
    {
      entries := map[];
    }

    method Upsert(entry: IpEntry, now: Instant) returns (r: Result<IpEntry, StoreError>)
      modifies this
      ensures var (after, answer) := LazyStep(old(entries), Op.Upsert(entry), now);
              entries == after
              && answer == match r case Ok(e) => Accepted(e) case Err(_) => Refused
    {
      var ip := TrimSpace(entry.ip);
      if ip == "" {
        return Err(ForbiddenState);
      }
      var stored := entry.(ip := ip);
      if stored.setAt == 0 {
        stored := stored.(setAt := now);
      }
      entries := entries[ip := stored];
      return Ok(stored);
    }

    method Remove(ip: string, now: Instant) returns (r: Result<bool, StoreError>)
      modifies this
      ensures var (after, answer) := LazyStep(old(entries), Op.Remove(ip), now);
              entries == after && (r.Err? <==> answer == Refused)
      ensures r.Ok? ==> r.value == (TrimSpace(ip) in old(entries))
    {
      var key := TrimSpace(ip);
      if key == "" {
        return Err(ForbiddenState);
      }
      if key !in entries {
        assert entries == entries - {key};
        return Ok(false);
      }
      entries := entries - {key};
      return Ok(true);
    }

    method Get(ip: string, now: Instant) returns (r: Result<IpEntry, StoreError>)
      modifies this
      ensures var (after, answer) := LazyStep(old(entries), Op.Get(ip), now);
              entries == after
              && answer == match r case Ok(e) => Found(e) case Err(_) => Missing
    {
      var key := TrimSpace(ip);
      if key !in entries {
        return Err(NotFound);
      }
      var entry := entries[key];
      if Expired(entry, now) {
        entries := entries - {key};
        return Err(NotFound);
      }
      return Ok(entry);
    }

    /** The loop over the map, in any order, deleting as it goes; the final sort is left out. */
    method List(now: Instant) returns (out: seq<IpEntry>)
      modifies this
      ensures entries == Live(old(entries), now)
      ensures (set e | e in out) == entries.Values && |out| == |entries|
    {
      ghost var m := entries;
      out := [];
      var keys := entries.Keys;
      ghost var order: seq<string> := [];
      UnpurgedEnds(m, now);
      while keys != {}
        invariant keys <= m.Keys && entries == Unpurged(m, keys, now)
        invariant Visited(m, entries.Keys - keys, order, out)
        decreases keys
      {
        var ip :| ip in keys;
        var entry := entries[ip];
        UnpurgedNext(m, keys, ip, now);
        ghost var done := entries.Keys - keys;
        keys := keys - {ip};
        if Expired(entry, now) {
          entries := entries - {ip};
        } else {
          VisitedNext(m, done, order, out, ip);
          order := order + [ip];
          out := out + [entry];
        }
      }
      assert entries.Keys - keys == entries.Keys;
      ValuesOf(m, entries, order, out);
    }
  }

  /** The map while the loop still has `keys` to visit. */
  ghost function Unpurged(m: Entries, keys: set<string>, now: Instant): Entries {
    map ip | ip in m && (ip in keys || !Expired(m[ip], now)) :: m[ip]
  }

  lemma UnpurgedEnds(m: Entries, now: Instant)
    ensures Unpurged(m, m.Keys, now) == m && Unpurged(m, {}, now) == Live(m, now)
  {
  }

  lemma UnpurgedNext(m: Entries, keys: set<string>, ip: string, now: Instant)
    requires keys <= m.Keys && ip in keys
    ensures var before, after := Unpurged(m, keys, now), Unpurged(m, keys - {ip}, now);
            var done := before.Keys - keys;
            if Expired(m[ip], now) then after == before - {ip} && after.Keys - (keys - {ip}) == done
            else after == before && after.Keys - (keys - {ip}) == done + {ip} && ip !in done
  {
  }

  /** `out` holds the entries of the keys in `done`, each once. */
  ghost predicate Visited(m: Entries, done: set<string>, order: seq<string>, out: seq<IpEntry>) {
    && |order| == |out| == |done|
    && (forall i | 0 <= i < |out| :: order[i] in done && order[i] in m && out[i] == m[order[i]])
    && (forall ip <- done :: ip in order)
  }

  lemma VisitedNext(m: Entries, done: set<string>, order: seq<string>, out: seq<IpEntry>, ip: string)
    requires Visited(m, done, order, out) && ip in m && ip !in done
    ensures Visited(m, done + {ip}, order + [ip], out + [m[ip]])
  {
  }

  lemma ValuesOf(m: Entries, live: Entries, order: seq<string>, out: seq<IpEntry>)
    requires Visited(m, live.Keys, order, out) && forall ip <- live :: ip in m && live[ip] == m[ip]
    ensures (set e | e in out) == live.Values
  {
    forall e | e in live.Values ensures e in out {
      var ip :| ip in live && live[ip] == e;
      var i :| 0 <= i < |order| && order[i] == ip;
      assert out[i] == e;
    }
  }

  // ----------------------------------------------------- an eager reference

  /** A map that never drops anything on its own and looks at expiry only when asked. */
  function EagerStep(m: Entries, op: Op, now: Instant): (Entries, Answer) {
    match op
    case Upsert(_) => LazyStep(m, op, now)
    case Remove(_) => LazyStep(m, op, now)
    case Get(ip) =>
      var key := TrimSpace(ip);
      (m, if key in Live(m, now) then Found(m[key]) else Missing)
    case List =>
      (m, Listed(Live(m, now).Values))
  }

  datatype Timed = Timed(op: Op, at: Instant)

  ghost predicate Ordered(run: seq<Timed>) {
    forall i, j :: 0 <= i < j < |run| ==> run[i].at <= run[j].at
  }

  function LazyRun(run: seq<Timed>): (Entries, seq<Answer>) {
    if run == [] then (map[], [])
    else
      var (m, answers) := LazyRun(run[..|run| - 1]);
      var (m', answer) := LazyStep(m, run[|run| - 1].op, run[|run| - 1].at);
      (m', answers + [answer])
  }

  function EagerRun(run: seq<Timed>): (Entries, seq<Answer>) {
    if run == [] then (map[], [])
    else
      var (m, answers) := EagerRun(run[..|run| - 1]);
      var (m', answer) := EagerStep(m, run[|run| - 1].op, run[|run| - 1].at);
      (m', answers + [answer])
  }

  /** The lazy map lacks only entries that have already expired. */
  ghost predicate Purged(lazy: Entries, eager: Entries, clock: Time) {
    && (forall ip <- lazy :: ip in eager && lazy[ip] == eager[ip])
    && (forall ip <- eager :: ip !in lazy ==> eager[ip].expiresAt.Some? && eager[ip].expiresAt.value < clock)
  }

  lemma PurgedStep(lazy: Entries, eager: Entries, clock: Time, op: Op, now: Instant)
    requires Purged(lazy, eager, clock) && clock <= now
    ensures Purged(LazyStep(lazy, op, now).0, EagerStep(eager, op, now).0, now)
    ensures LazyStep(lazy, op, now).1 == EagerStep(eager, op, now).1
  {
    assert Live(lazy, now) == Live(eager, now);
  }

  function ClockAfter(run: seq<Timed>): Time {
    if run == [] then 0 else run[|run| - 1].at
  }

  /** Every sequence of operations gets the same answers from the map that purges as from one that never does,
      and the rules a policy decision would use at any later instant are the same. */
  lemma {:induction false} LazyAnswersAreEager(run: seq<Timed>, later: Instant)
    requires Ordered(run) && ClockAfter(run) <= later
    ensures LazyRun(run).1 == EagerRun(run).1
    ensures Purged(LazyRun(run).0, EagerRun(run).0, ClockAfter(run))
    ensures Live(LazyRun(run).0, later) == Live(EagerRun(run).0, later)
  {
    if run != [] {
      var init, last := run[..|run| - 1], run[|run| - 1];
      LazyAnswersAreEager(init, last.at);
      PurgedStep(LazyRun(init).0, EagerRun(init).0, ClockAfter(init), last.op, last.at);
    }
  }

  // ------------------------------------------------------ what was written last

  /** The entry last written for a key and not removed since, as the requests of a run tell. */
  function LastWritten(run: seq<Timed>, key: string): Option<IpEntry> {
    if run == [] then None
    else
      var op, at := run[|run| - 1].op, run[|run| - 1].at;
      match op
      case Upsert(entry) =>
        if key != "" && TrimSpace(entry.ip) == key then
          var setAt := if entry.setAt == 0 then at else entry.setAt;
          Some(IpEntry(key, entry.reason, entry.setBy, setAt, entry.expiresAt))
        else LastWritten(run[..|run| - 1], key)
      case Remove(ip) => if TrimSpace(ip) == key then None else LastWritten(run[..|run| - 1], key)
      case _ => LastWritten(run[..|run| - 1], key)
  }

  lemma {:induction false} EagerHoldsLastWritten(run: seq<Timed>, key: string)
    ensures var m := EagerRun(run).0; LastWritten(run, key) == if key in m then Some(m[key]) else None
    ensures key == "" ==> key !in EagerRun(run).0
  {
    if run != [] {
      EagerHoldsLastWritten(run[..|run| - 1], key);
    }
  }

  /** After any run `Get` finds exactly what was last written for the key, until that expires or is removed; so does
      `List`. */
  lemma GetFindsLastWritten(run: seq<Timed>, ip: string, now: Instant)
    requires Ordered(run) && ClockAfter(run) <= now
    ensures var last := LastWritten(run, TrimSpace(ip));
            var found := last.Some? && (last.value.expiresAt.Some? ==> now <= last.value.expiresAt.value);
            && LazyStep(LazyRun(run).0, Op.Get(ip), now).1 == (if found then Found(last.value) else Missing)
            && (found <==> TrimSpace(ip) in Live(LazyRun(run).0, now))
  {
    LazyAnswersAreEager(run, now);
    EagerHoldsLastWritten(run, TrimSpace(ip));
    var lazy, eager, key := LazyRun(run).0, EagerRun(run).0, TrimSpace(ip);
    assert key in Live(lazy, now) <==> key in Live(eager, now);
  }
}
