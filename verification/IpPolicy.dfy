/** The allow/block decision of internal/httpapi/server.go. */
module IpPolicy {
  import opened Basics
  import opened IpAddresses
  import R = IpRules

  /** A stored block or allow entry together with what its text parses to. */
  datatype Rule = Rule(target: Target, entry: R.IpEntry)

  /** The listed entries as rules. */
  function Read(parse: string -> Target, entries: seq<R.IpEntry>): (rules: seq<Rule>)
    ensures |rules| == |entries|
    ensures forall i | 0 <= i < |rules| :: rules[i] == Rule(parse(entries[i].ip), entries[i])
  {
    seq(|entries|, i requires 0 <= i < |entries| => Rule(parse(entries[i].ip), entries[i]))
  }

  datatype Action = Allow | Block

  datatype Reason =
    | InvalidIpFallback | ExactBlockRule | ExactAllowRule | CidrBlockPrecedence | CidrAllowPrecedence
    | BlockRule | AllowRule | NoMatchingRule

  datatype Decision = Decision(action: Action, reason: Reason, blockedBy: Option<Rule>, allowedBy: Option<Rule>)

  predicate Parsed(rules: seq<Rule>) {
    forall r <- rules :: r.target.Parsed()
  }

  ghost predicate Normalized(rules: seq<Rule>) {
    forall r <- rules :: r.target.Normalized()
  }

  ghost predicate NoFullLength(rules: seq<Rule>) {
    forall r <- rules :: !r.target.FullLength()
  }

  // ------------------------------------------------------------ best match

  predicate Beats(rule: Rule, best: Option<Rule>) {
    best.None? || Specificity(rule.target) > Specificity(best.value.target)
    || (Specificity(rule.target) == Specificity(best.value.target) && rule.entry.setAt > best.value.entry.setAt)
  }

  function BestMatch(client: Address, rules: seq<Rule>): Option<Rule>
    requires Parsed(rules)
  {
    if rules == [] then None
    else
      var best := BestMatch(client, rules[..|rules| - 1]);
      var rule := rules[|rules| - 1];
      if Matches(client, rule.target) && Beats(rule, best) then Some(rule) else best
  }

  /** `bestBlockedMatch` and `bestAllowedMatch`: the same loop over the two kinds of rules. */
  method FindBestMatch(client: Address, rules: seq<Rule>) returns (best: Option<Rule>)
    requires Parsed(rules)
    ensures best == BestMatch(client, rules)
    ensures IsBest(client, rules, best)
  {
    best := None;
    var bestSpec := -1;
    for i := 0 to |rules|
      invariant best == BestMatch(client, rules[..i])
      invariant bestSpec == if best.Some? then Specificity(best.value.target) else -1
    {
      assert rules[..i + 1][..i] == rules[..i];
      var rule := rules[i];
      if !Matches(client, rule.target) {
        continue;
      }
      var spec := Specificity(rule.target);
      if best.None? || spec > bestSpec || (spec == bestSpec && rule.entry.setAt > best.value.entry.setAt) {
        best, bestSpec := Some(rule), spec;
      }
    }
    assert rules[..|rules|] == rules;
    BestMatchIsBest(client, rules);
  }

  /** The meaning of the loop: a most specific matching rule and, among those, one set last; none exactly when
      no rule matches. */
  ghost predicate IsBest(client: Address, rules: seq<Rule>, best: Option<Rule>)
    requires Parsed(rules)
  {
    match best
    case None => forall r <- rules :: !Matches(client, r.target)
    case Some(b) =>
      && b in rules && Matches(client, b.target)
      && forall r <- rules | Matches(client, r.target) ::
           && Specificity(r.target) <= Specificity(b.target)
           && (Specificity(r.target) == Specificity(b.target) ==> r.entry.setAt <= b.entry.setAt)
  }

  lemma {:induction false} BestMatchIsBest(client: Address, rules: seq<Rule>)
    requires Parsed(rules)
    ensures IsBest(client, rules, BestMatch(client, rules))
  {
    if rules != [] {
      var init, rule := rules[..|rules| - 1], rules[|rules| - 1];
      BestMatchIsBest(client, init);
      assert forall r :: r in rules <==> r in init || r == rule by {
        assert rules == init + [rule];
      }
    }
  }

  /** The chosen rule matches, and its addresses all belong to every other matching rule. */
  lemma BestMatchIsTightest(client: Address, rules: seq<Rule>, other: Rule)
    requires client.Valid() && Parsed(rules) && other in rules && Matches(client, other.target)
    ensures var best := BestMatch(client, rules);
            best.Some? && best.value in rules && Matches(client, best.value.target)
            && Within(best.value.target, other.target)
  {
    BestMatchIsBest(client, rules);
    WithinIffLonger(client, BestMatch(client, rules).value.target, other.target);
  }

  /** The time stamps only ever decide between an address and its own full-length block. */
  lemma TieBreak(client: Address, rules: seq<Rule>, other: Rule)
    requires client.Valid() && Normalized(rules) && other in rules && Matches(client, other.target)
    requires BestMatch(client, rules).Some?
    requires Specificity(BestMatch(client, rules).value.target) == Specificity(other.target)
    ensures var best := BestMatch(client, rules).value;
            || best.target == other.target
            || (best.target == Exact(client) && other.target.FullLength())
            || (best.target.FullLength() && other.target == Exact(client))
  {
    BestMatchIsBest(client, rules);
    EqualSpecificity(client, BestMatch(client, rules).value.target, other.target);
  }

  // -------------------------------------------------------------- decision

  /** The precedence cascade over the two chosen rules. */
  function Cascade(blocked: Option<Rule>, allowed: Option<Rule>): Decision {
    if blocked.Some? && blocked.value.target.Exact? then
      Decision(Block, ExactBlockRule, blocked, allowed)
    else if allowed.Some? && allowed.value.target.Exact? then
      Decision(Allow, ExactAllowRule, blocked, allowed)
    else if blocked.Some? && allowed.Some? then
      if Specificity(blocked.value.target) >= Specificity(allowed.value.target)
      then Decision(Block, CidrBlockPrecedence, blocked, allowed)
      else Decision(Allow, CidrAllowPrecedence, blocked, allowed)
    else if blocked.Some? then
      Decision(Block, BlockRule, blocked, None)
    else if allowed.Some? then
      Decision(Allow, AllowRule, None, allowed)
    else
      Decision(Allow, NoMatchingRule, None, None)
  }

  /** `evaluateClientIPPolicy`, given what the client's text parsed to and the two stored lists. */
  function Evaluate(client: Option<Address>, blocks: seq<Rule>, allows: seq<Rule>): Decision
    requires Parsed(blocks) && Parsed(allows)
  {
    match client
    case None => Decision(Allow, InvalidIpFallback, None, None)
    case Some(c) => Cascade(BestMatch(c, blocks), BestMatch(c, allows))
  }

  /** Whatever is decided, the decision reports the best rules of both lists: the one that blocks first of all. */
  lemma ReportedRulesAreBest(client: Address, blocks: seq<Rule>, allows: seq<Rule>)
    requires Parsed(blocks) && Parsed(allows)
    ensures var d := Evaluate(Some(client), blocks, allows);
            && IsBest(client, blocks, d.blockedBy) && IsBest(client, allows, d.allowedBy)
            && (d.action == Block ==> d.blockedBy.Some?)
  {
    BestMatchIsBest(client, blocks);
    BestMatchIsBest(client, allows);
  }

  /** The reason tells which of the reported rules decided, and how. */
  lemma ReasonTellsWhy(client: Address, blocks: seq<Rule>, allows: seq<Rule>)
    requires Parsed(blocks) && Parsed(allows)
    ensures var d := Evaluate(Some(client), blocks, allows);
            var b, a := d.blockedBy, d.allowedBy;
            match d.reason
            case InvalidIpFallback => false
            case ExactBlockRule => d.action == Block && b.Some? && b.value.target.Exact?
            case ExactAllowRule =>
              d.action == Allow && a.Some? && a.value.target.Exact? && (b.Some? ==> !b.value.target.Exact?)
            case CidrBlockPrecedence =>
              && d.action == Block && b.Some? && a.Some? && !b.value.target.Exact? && !a.value.target.Exact?
              && Specificity(b.value.target) >= Specificity(a.value.target)
            case CidrAllowPrecedence =>
              && d.action == Allow && b.Some? && a.Some? && !b.value.target.Exact? && !a.value.target.Exact?
              && Specificity(b.value.target) < Specificity(a.value.target)
            case BlockRule => d.action == Block && b.Some? && a.None? && !b.value.target.Exact?
            case AllowRule => d.action == Allow && b.None? && a.Some? && !a.value.target.Exact?
            case NoMatchingRule => d.action == Allow && b.None? && a.None?
  {
    BestMatchIsBest(client, blocks);
    BestMatchIsBest(client, allows);
  }

  /** A client whose address cannot be read is let through, whatever the rules. */
  lemma UnreadableClientPasses(blocks: seq<Rule>, allows: seq<Rule>)
    requires Parsed(blocks) && Parsed(allows)
    ensures Evaluate(None, blocks, allows) == Decision(Allow, InvalidIpFallback, None, None)
  {
  }

  method EvaluateClientIPPolicy(client: Option<Address>, blocks: seq<Rule>, allows: seq<Rule>)
      returns (decision: Decision)
    requires Parsed(blocks) && Parsed(allows)
    ensures decision == Evaluate(client, blocks, allows)
    ensures client.Some? ==> IsBest(client.value, blocks, decision.blockedBy)
    ensures client.Some? ==> IsBest(client.value, allows, decision.allowedBy)
    ensures decision.action == Block ==> decision.blockedBy.Some?
  {
    if client.None? {
      return Decision(Allow, InvalidIpFallback, None, None);
    }
    var blocked := FindBestMatch(client.value, blocks);
    var allowed := FindBestMatch(client.value, allows);
    return Cascade(blocked, allowed);
  }

  /** The decision as a statement about address sets: some matching block lies within every matching allow. In
      other words, the tightest matching block is contained in the tightest matching allow, or there is none. */
  ghost predicate SetRuleBlocks(client: Address, blocks: seq<Rule>, allows: seq<Rule>)
    requires Parsed(blocks) && Parsed(allows)
  {
    exists b <- blocks :: Matches(client, b.target)
                          && forall a <- allows | Matches(client, a.target) :: Within(b.target, a.target)
  }

  /** The shorter twin was chosen among the blocks and the longer one among the allows. */
  predicate ChoseTwins(client: Address, blocked: Option<Rule>, allowed: Option<Rule>) {
    blocked.Some? && allowed.Some?
    && Twins(client, Specificity(blocked.value.target), Specificity(allowed.value.target))
  }

  lemma {:induction false} SetRuleByBest(client: Address, blocks: seq<Rule>, allows: seq<Rule>)
    requires client.Valid() && Parsed(blocks) && Parsed(allows)
    ensures var b, a := BestMatch(client, blocks), BestMatch(client, allows);
            SetRuleBlocks(client, blocks, allows)
            <==> b.Some? && (a.Some? ==> Specificity(b.value.target) >= Specificity(a.value.target)
                                         || ChoseTwins(client, b, a))
  {
    var b, a := BestMatch(client, blocks), BestMatch(client, allows);
    BestMatchIsBest(client, blocks);
    BestMatchIsBest(client, allows);
    if b.Some? {
      forall r <- blocks, s <- allows | Matches(client, r.target) && Matches(client, s.target)
        ensures Within(r.target, s.target)
           <==> Specificity(r.target) >= Specificity(s.target)
                || Twins(client, Specificity(r.target), Specificity(s.target)) {
        WithinIffLonger(client, r.target, s.target);
      }
    }
  }

  /** The cascade is the set rule unless the chosen block and the chosen allow rule hold the same addresses and the
      cascade prefers the allow rule all the same: a full-length prefix against the plain address, or the twins. */
  lemma {:induction false} CascadeIsSetRule(client: Address, blocks: seq<Rule>, allows: seq<Rule>)
    requires client.Valid() && Normalized(blocks) && Normalized(allows)
    ensures var b, a := BestMatch(client, blocks), BestMatch(client, allows);
            ((Evaluate(Some(client), blocks, allows).action == Block) <==> SetRuleBlocks(client, blocks, allows))
            <==> !(b.Some? && b.value.target.FullLength() && a.Some? && a.value.target.Exact?)
                 && !ChoseTwins(client, b, a)
  {
    SetRuleByBest(client, blocks, allows);
    BestMatchIsBest(client, blocks);
    BestMatchIsBest(client, allows);
  }

  /** Without full-length prefixes among the blocks only the twins are left, so for IPv4 clients nothing is. */
  lemma CascadeIsSetRuleWithoutFullLength(client: Address, blocks: seq<Rule>, allows: seq<Rule>)
    requires client.Valid() && Normalized(blocks) && Normalized(allows) && NoFullLength(blocks)
    ensures ((Evaluate(Some(client), blocks, allows).action == Block) <==> SetRuleBlocks(client, blocks, allows))
       <==> !ChoseTwins(client, BestMatch(client, blocks), BestMatch(client, allows))
    ensures client.family == V4 ==> !ChoseTwins(client, BestMatch(client, blocks), BestMatch(client, allows))
  {
    CascadeIsSetRule(client, blocks, allows);
    BestMatchIsBest(client, blocks);
  }

  lemma OnlyRule(client: Address, rule: Rule)
    requires rule.target.Parsed() && Matches(client, rule.target)
    ensures BestMatch(client, [rule]) == Some(rule) && rule in [rule]
  {
    assert [rule][..0] == [] && [rule][0] == rule;
  }

  /** An IPv6 client in both twins is let through although the blocked addresses are the allowed ones. */
  lemma TwinsAreLetThrough(client: Address)
    requires client.Valid() && Twins(client, 95, 96)
    ensures var blocks := [SetAt(Cidr(Address(V6, Raise(MAPPED / 2, 33)), 95), 1)];
            var allows := [SetAt(Cidr(Address(V6, Raise(MAPPED - 1, 32)), 96), 1)];
            && Normalized(blocks) && Normalized(allows) && SetRuleBlocks(client, blocks, allows)
            && Evaluate(Some(client), blocks, allows).action == Allow
  {
    var b, a := Address(V6, Raise(MAPPED / 2, 33)), Address(V6, Raise(MAPPED - 1, 32));
    RaisedBase(MAPPED / 2, 33);
    RaisedBase(MAPPED - 1, 32);
    RaisedIsNotMapped(MAPPED / 2, 33);
    DropMore(client.bits, 32, 1);
    assert client.Network(95) == Drop(client.Network(96), 1) == MAPPED / 2;
    var block, allow := SetAt(Cidr(b, 95), 1), SetAt(Cidr(a, 96), 1);
    OnlyRule(client, block);
    OnlyRule(client, allow);
    WithinIffLonger(client, block.target, allow.target);
  }

  // ----------------------------------------------------------------- order

  /** The client's own address and its full-length prefix are both best, set at the same time. */
  ghost predicate Tied(client: Address, rules: seq<Rule>)
    requires Parsed(rules)
  {
    exists r <- rules, t <- rules ::
      r.target.Exact? && t.target.Cidr? && IsBest(client, rules, Some(r)) && IsBest(client, rules, Some(t))
  }

  /** No tie among the blocks, and one among the allows only where an exact block decides anyway. */
  ghost predicate OrderDecidesNothing(client: Address, blocks: seq<Rule>, allows: seq<Rule>)
    requires Parsed(blocks) && Parsed(allows)
  {
    var b := BestMatch(client, blocks);
    !Tied(client, blocks) && (Tied(client, allows) ==> b.Some? && b.value.target.Exact?)
  }

  predicate SameVerdict(d: Decision, d': Decision) {
    d.action == d'.action && d.reason == d'.reason
  }

  ghost predicate SameRules(rules: seq<Rule>, rules': seq<Rule>) {
    forall r :: r in rules <==> r in rules'
  }

  lemma {:induction false} SameTarget(client: Address, rules: seq<Rule>, rules': seq<Rule>)
    requires client.Valid() && Normalized(rules) && SameRules(rules, rules')
    ensures Tied(client, rules) <==> Tied(client, rules')
    ensures var b, b' := BestMatch(client, rules), BestMatch(client, rules');
            && (b.Some? <==> b'.Some?)
            && (b.Some? && !Tied(client, rules) ==> b.value.target == b'.value.target)
  {
    BestMatchIsBest(client, rules);
    BestMatchIsBest(client, rules');
    var b, b' := BestMatch(client, rules), BestMatch(client, rules');
    assert forall r :: IsBest(client, rules, Some(r)) <==> IsBest(client, rules', Some(r));
    if b.Some? {
      EqualSpecificity(client, b.value.target, b'.value.target);
    }
  }

  /** Under that condition neither the action nor the reason depends on how the rules are listed. */
  lemma OrderDoesNotMatter(client: Address, blocks: seq<Rule>, allows: seq<Rule>,
                           blocks': seq<Rule>, allows': seq<Rule>)
    requires client.Valid() && Normalized(blocks) && Normalized(allows)
    requires SameRules(blocks, blocks') && SameRules(allows, allows')
    requires OrderDecidesNothing(client, blocks, allows)
    ensures SameVerdict(Evaluate(Some(client), blocks, allows), Evaluate(Some(client), blocks', allows'))
  {
    SameTarget(client, blocks, blocks');
    SameTarget(client, allows, allows');
  }

  /** Of several best rules the one listed first is chosen. */
  lemma {:induction false} FirstBestWins(client: Address, rules: seq<Rule>, k: nat)
    requires Parsed(rules) && k < |rules| && IsBest(client, rules, Some(rules[k]))
    requires forall i | 0 <= i < k :: !IsBest(client, rules, Some(rules[i]))
    ensures BestMatch(client, rules) == Some(rules[k])
  {
    var init, last := rules[..|rules| - 1], rules[|rules| - 1];
    assert rules == init + [last];
    BestMatchIsBest(client, init);
    if k < |init| {
      FirstBestWins(client, init, k);
    } else if BestMatch(client, init).Some? {
      var b := BestMatch(client, init).value;
      var i :| 0 <= i < |init| && init[i] == b;
      assert !IsBest(client, rules, Some(rules[i]));
    }
  }

  /** As the store lists them: the newest first. */
  ghost predicate NewestFirst(rules: seq<Rule>) {
    forall i, j | 0 <= i < j < |rules| :: rules[i].entry.setAt >= rules[j].entry.setAt
  }

  /** Any best rule can be made the chosen one by exchanging it with another of the same time stamp. */
  lemma ListedFirst(client: Address, rules: seq<Rule>, r: Rule) returns (rules': seq<Rule>)
    requires Parsed(rules) && IsBest(client, rules, Some(r))
    ensures multiset(rules') == multiset(rules) && (NewestFirst(rules) ==> NewestFirst(rules'))
    ensures Parsed(rules') && BestMatch(client, rules') == Some(r)
  {
    var i :| 0 <= i < |rules| && rules[i] == r;
    var k := 0;
    while !IsBest(client, rules, Some(rules[k]))
      invariant k <= i
      invariant forall j | 0 <= j < k :: !IsBest(client, rules, Some(rules[j]))
      decreases i - k
    {
      k := k + 1;
    }
    rules' := rules[i := rules[k]][k := r];
    Exchanged(rules, i, k);
    Reordered(rules, rules');
    assert forall s :: IsBest(client, rules, Some(s)) <==> IsBest(client, rules', Some(s));
    FirstBestWins(client, rules', k);
  }

  lemma Exchanged(rules: seq<Rule>, i: nat, k: nat)
    requires k <= i < |rules| && rules[i].entry.setAt == rules[k].entry.setAt
    ensures var rules' := rules[i := rules[k]][k := rules[i]];
            multiset(rules') == multiset(rules) && (NewestFirst(rules) ==> NewestFirst(rules'))
  {
  }

  /** Every reordering of the two lists gets the same action and reason. */
  ghost predicate OrderIndependent(client: Address, blocks: seq<Rule>, allows: seq<Rule>)
    requires Parsed(blocks) && Parsed(allows)
  {
    forall blocks', allows' ::
      multiset(blocks') == multiset(blocks) && multiset(allows') == multiset(allows)
      && Parsed(blocks') && Parsed(allows')
      ==> SameVerdict(Evaluate(Some(client), blocks, allows), Evaluate(Some(client), blocks', allows'))
  }

  /** Every reordering that the store could return, newest first, does. */
  ghost predicate ListingIndependent(client: Address, blocks: seq<Rule>, allows: seq<Rule>)
    requires Parsed(blocks) && Parsed(allows)
  {
    forall blocks', allows' ::
      multiset(blocks') == multiset(blocks) && multiset(allows') == multiset(allows)
      && NewestFirst(blocks') && NewestFirst(allows') && Parsed(blocks') && Parsed(allows')
      ==> SameVerdict(Evaluate(Some(client), blocks, allows), Evaluate(Some(client), blocks', allows'))
  }

  lemma NothingDecidedNothingDepends(client: Address, blocks: seq<Rule>, allows: seq<Rule>)
    requires client.Valid() && Normalized(blocks) && Normalized(allows)
    requires OrderDecidesNothing(client, blocks, allows)
    ensures OrderIndependent(client, blocks, allows)
  {
    forall blocks', allows' | multiset(blocks') == multiset(blocks) && multiset(allows') == multiset(allows)
                              && Parsed(blocks') && Parsed(allows')
      ensures SameVerdict(Evaluate(Some(client), blocks, allows), Evaluate(Some(client), blocks', allows')) {
      Reordered(blocks, blocks');
      Reordered(allows, allows');
      OrderDoesNotMatter(client, blocks, allows, blocks', allows');
    }
  }

  /** Exactly when the order of the lists can decide: among all reorderings, and among those the store could return. */
  lemma {:induction false} OrderMattersIff(client: Address, blocks: seq<Rule>, allows: seq<Rule>)
    requires client.Valid() && Normalized(blocks) && Normalized(allows)
    ensures OrderIndependent(client, blocks, allows) <==> OrderDecidesNothing(client, blocks, allows)
    ensures NewestFirst(blocks) && NewestFirst(allows)
        ==> (ListingIndependent(client, blocks, allows) <==> OrderDecidesNothing(client, blocks, allows))
  {
    if OrderDecidesNothing(client, blocks, allows) {
      NothingDecidedNothingDepends(client, blocks, allows);
    } else if Tied(client, blocks) {
      var exact, prefix := TiedOrders(client, blocks);
      var d, d' := Evaluate(Some(client), exact, allows), Evaluate(Some(client), prefix, allows);
      assert d.reason == ExactBlockRule && d'.reason != ExactBlockRule;
    } else {
      var exact, prefix := TiedOrders(client, allows);
      var d, d' := Evaluate(Some(client), blocks, exact), Evaluate(Some(client), blocks, prefix);
      assert d.reason == ExactAllowRule && d'.reason != ExactAllowRule;
    }
  }

  lemma NoFullLengthNoTies(client: Address, rules: seq<Rule>)
    requires client.Valid() && Normalized(rules) && NoFullLength(rules)
    ensures !Tied(client, rules)
  {
    forall r <- rules, t <- rules | IsBest(client, rules, Some(r)) && IsBest(client, rules, Some(t))
      ensures r.target == t.target {
      EqualSpecificity(client, r.target, t.target);
    }
  }

  /** In lists without full-length prefixes the order never decides. */
  lemma OrderIndependentWithoutFullLength(client: Address, blocks: seq<Rule>, allows: seq<Rule>)
    requires client.Valid() && Normalized(blocks) && Normalized(allows)
    requires NoFullLength(blocks) && NoFullLength(allows)
    ensures OrderIndependent(client, blocks, allows)
  {
    NoFullLengthNoTies(client, blocks);
    NoFullLengthNoTies(client, allows);
    OrderMattersIff(client, blocks, allows);
  }

  lemma Reordered(rules: seq<Rule>, rules': seq<Rule>)
    requires multiset(rules) == multiset(rules')
    ensures SameRules(rules, rules')
  {
    assert forall r :: r in rules <==> r in multiset(rules);
    assert forall r :: r in rules' <==> r in multiset(rules');
  }

  lemma TiedOrders(client: Address, rules: seq<Rule>) returns (exact: seq<Rule>, prefix: seq<Rule>)
    requires Parsed(rules) && Tied(client, rules)
    ensures multiset(exact) == multiset(rules) == multiset(prefix) && Parsed(exact) && Parsed(prefix)
    ensures NewestFirst(rules) ==> NewestFirst(exact) && NewestFirst(prefix)
    ensures var b, b' := BestMatch(client, exact), BestMatch(client, prefix);
            b.Some? && b.value.target.Exact? && b'.Some? && b'.value.target.Cidr?
  {
    var r, t :| r in rules && t in rules && r.target.Exact? && t.target.Cidr?
                && IsBest(client, rules, Some(r)) && IsBest(client, rules, Some(t));
    exact := ListedFirst(client, rules, r);
    prefix := ListedFirst(client, rules, t);
  }

  /** One such tie: the order of the block list alone decides whether an exact allow rule wins. */
  lemma OrderCanMatter(client: Address)
    requires client.Valid()
    ensures var exact, prefix := SetAt(Exact(client), 1), SetAt(Cidr(client, Width(client.family)), 1);
            && Normalized([exact, prefix]) && Normalized([prefix, exact])
            && Evaluate(Some(client), [exact, prefix], [exact]).action == Block
            && Evaluate(Some(client), [prefix, exact], [exact]).action == Allow
  {
    var exact, prefix := SetAt(Exact(client), 1), SetAt(Cidr(client, Width(client.family)), 1);
    assert [exact][..0] == [] && [prefix][..0] == [];
    assert Matches(client, prefix.target) && BestMatch(client, []) == None;
    assert BestMatch(client, [exact]) == Some(exact);
    assert [prefix][0] == prefix && BestMatch(client, [prefix]) == Some(prefix);
    assert [exact, prefix][..1] == [exact] && [prefix, exact][..1] == [prefix];
    assert BestMatch(client, [exact, prefix]) == Some(exact) && BestMatch(client, [prefix, exact]) == Some(prefix);
  }

  // ---------------------------------------------------------------- purging

  /** `out` lists the entries of a map, each once, in any order. */
  ghost predicate Lists(out: seq<R.IpEntry>, m: R.Entries) {
    (set e | e in out) == m.Values && |out| == |m|
  }

  /** A decision taken on the lists of the purging maps, each read at its own instant, is the one on maps that never
      purge and filter when asked, whatever order either comes in, as far as order decides nothing. */
  lemma {:induction false} DecisionSeesNoPurge(client: Address, parse: string -> Target,
                                               blockRun: seq<R.Timed>, allowRun: seq<R.Timed>,
                                               blocksAt: Instant, allowsAt: Instant,
                                               blocks: seq<R.IpEntry>, allows: seq<R.IpEntry>,
                                               blocks': seq<R.IpEntry>, allows': seq<R.IpEntry>)
    requires R.Ordered(blockRun) && R.ClockAfter(blockRun) <= blocksAt
    requires R.Ordered(allowRun) && R.ClockAfter(allowRun) <= allowsAt
    requires Lists(blocks, R.Live(R.LazyRun(blockRun).0, blocksAt))
    requires Lists(allows, R.Live(R.LazyRun(allowRun).0, allowsAt))
    requires Lists(blocks', R.Live(R.EagerRun(blockRun).0, blocksAt))
    requires Lists(allows', R.Live(R.EagerRun(allowRun).0, allowsAt))
    requires client.Valid() && Normalized(Read(parse, blocks)) && Normalized(Read(parse, allows))
    requires OrderDecidesNothing(client, Read(parse, blocks), Read(parse, allows))
    ensures Parsed(Read(parse, blocks')) && Parsed(Read(parse, allows'))
    ensures SameVerdict(Evaluate(Some(client), Read(parse, blocks), Read(parse, allows)),
                        Evaluate(Some(client), Read(parse, blocks'), Read(parse, allows')))
  {
    R.LazyAnswersAreEager(blockRun, blocksAt);
    R.LazyAnswersAreEager(allowRun, allowsAt);
    SameEntriesSameRules(parse, blocks, blocks');
    SameEntriesSameRules(parse, allows, allows');
    OrderDoesNotMatter(client, Read(parse, blocks), Read(parse, allows), Read(parse, blocks'), Read(parse, allows'));
  }

  lemma SameEntriesSameRules(parse: string -> Target, entries: seq<R.IpEntry>, entries': seq<R.IpEntry>)
    requires (set e | e in entries) == (set e | e in entries')
    ensures SameRules(Read(parse, entries), Read(parse, entries'))
  {
    RulesOf(parse, entries);
    RulesOf(parse, entries');
    var all, all' := set e | e in entries, set e | e in entries';
    assert forall e :: e in entries <==> e in all;
    assert forall e :: e in entries' <==> e in all';
    assert all == all';
  }

  lemma RulesOf(parse: string -> Target, entries: seq<R.IpEntry>)
    ensures forall r: Rule :: r in Read(parse, entries) <==> r.entry in entries && r == Rule(parse(r.entry.ip), r.entry)
  {
    forall r: Rule | r.entry in entries && r == Rule(parse(r.entry.ip), r.entry) ensures r in Read(parse, entries) {
      var i :| 0 <= i < |entries| && entries[i] == r.entry;
      assert Read(parse, entries)[i] == r;
    }
  }

  // -------------------------------------------------- documented precedence

  ghost predicate ExactMatch(client: Address, rules: seq<Rule>) {
    exists r <- rules :: r.target == Exact(client)
  }

  /** README.md: an exact block, then an exact allow, then the longest prefix, a tie going to the block. */
  ghost predicate DocumentedBlocks(client: Address, blocks: seq<Rule>, allows: seq<Rule>)
    requires Parsed(blocks) && Parsed(allows)
  {
    if ExactMatch(client, blocks) then true
    else if ExactMatch(client, allows) then false
    else exists b <- blocks :: Matches(client, b.target)
           && forall a <- allows | Matches(client, a.target) :: Specificity(a.target) <= Specificity(b.target)
  }

  /** The code follows the documented precedence unless a full-length prefix, set after the plain address, hides
      it: an exact block behind its own prefix when the chosen allow rule is exact, or an exact allow behind its
      own prefix when the chosen block is a full-length prefix too. */
  lemma {:induction false} CascadeIsDocumented(client: Address, blocks: seq<Rule>, allows: seq<Rule>)
    requires client.Valid() && Normalized(blocks) && Normalized(allows)
    ensures var b, a := BestMatch(client, blocks), BestMatch(client, allows);
            ((Evaluate(Some(client), blocks, allows).action == Block) <==> DocumentedBlocks(client, blocks, allows))
            <==> !(b.Some? && b.value.target.FullLength() && a.Some?
                   && if ExactMatch(client, blocks) then a.value.target.Exact?
                      else a.value.target.FullLength() && ExactMatch(client, allows))
  {
    var b, a := BestMatch(client, blocks), BestMatch(client, allows);
    BestMatchIsBest(client, blocks);
    BestMatchIsBest(client, allows);
    ExactIsMostSpecific(client, blocks);
    ExactIsMostSpecific(client, allows);
  }

  lemma ExactIsMostSpecific(client: Address, rules: seq<Rule>)
    requires client.Valid() && Normalized(rules)
    ensures var best := BestMatch(client, rules);
            && (ExactMatch(client, rules)
                ==> best.Some? && (best.value.target == Exact(client) || best.value.target.FullLength()))
            && (best.Some? && best.value.target.Exact? ==> ExactMatch(client, rules))
            && (best.Some? ==> best.value.target.Cidr? || best.value.target == Exact(client))
  {
    BestMatchIsBest(client, rules);
    var best := BestMatch(client, rules);
    if ExactMatch(client, rules) {
      var r :| r in rules && r.target == Exact(client);
      assert best.Some?;
      MatchesByPrefix(client, best.value.target, client);
    }
  }

  function SetAt(target: Target, at: Time): Rule {
    Rule(target, R.IpEntry("", "", "", at, None))
  }

  /** A plain block hidden behind its own /32 set later: an exact allow rule lets the address through. */
  lemma DocumentedPrecedenceCanFail(client: Address)
    requires client.Valid() && client.family == V4
    ensures var blocks := [SetAt(Exact(client), 1), SetAt(Cidr(client, 32), 2)];
            var allows := [SetAt(Exact(client), 1)];
            && Normalized(blocks) && Normalized(allows) && DocumentedBlocks(client, blocks, allows)
            && Evaluate(Some(client), blocks, allows).action == Allow
  {
    var exact, prefix := SetAt(Exact(client), 1), SetAt(Cidr(client, 32), 2);
    var blocks := [exact, prefix];
    assert [exact][..0] == [];
    assert BestMatch(client, [exact]) == Some(exact);
    assert blocks[..1] == [exact];
    assert BestMatch(client, blocks) == Some(prefix);
    assert blocks[0] == exact;
  }
}
