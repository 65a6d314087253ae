/** Flag evaluation over a store whose prerequisites may form cycles.
    Models libs/server-sdk/src/evaluation/evaluator.cpp and evaluation_stack.cpp. Flag keys have an
    arbitrary type K and rule clauses an arbitrary type C; matching a rule's clauses is an arbitrary
    function of the rule (a failure is None). */
module Evaluations {
  import opened Wrappers
  import opened AttributeReferences
  import opened Bucketing
  import Values

  datatype Prerequisite<K> = Prerequisite(key: K, variation: int)

  datatype Target = Target(values: seq<string>, variation: int, contextKind: string)

  datatype Rule<C> = Rule(clauses: C, outcome: VariationOrRollout, id: Option<string>)

  datatype Flag<K, C> = Flag(key: K, on: bool, prerequisites: seq<Prerequisite<K>>, targets: seq<Target>,
                             contextTargets: seq<Target>, rules: seq<Rule<C>>, fallthrough: VariationOrRollout,
                             offVariation: Option<int>, variations: seq<Value>, salt: Option<string>)

  datatype Reason<K> =
    | Off
    | PrerequisiteFailed(key: K)
    | TargetMatch
    | RuleMatch(ruleIndex: nat, ruleId: Option<string>, ruleInExperiment: bool)
    | Fallthrough(inExperiment: bool)
    | MalformedFlag

  datatype Detail<K> = Detail(value: Value, index: Option<nat>, reason: Reason<K>) {
    predicate IsError() { reason.MalformedFlag? }
  }

  /** The event sent for an evaluated prerequisite: which flag, its detail, and the flag it gates. */
  datatype Event<K> = Event(key: K, detail: Detail<K>, prerequisiteOf: K)

  /** What an evaluation reads: the flags by key (None is a deleted flag), the rule matcher, the context. */
  datatype World<!K, !C> = World(flags: map<K, Option<Flag<K, C>>>, matches: C -> Option<bool>,
                                 subject: Subject<K>)

  // ----- A flag whose prerequisites hold

  function Malformed<K>(): Detail<K> { Detail(Values.Null, None, MalformedFlag) }

  function FlagVariation<K, C>(flag: Flag<K, C>, index: int, reason: Reason<K>): Detail<K> {
    if index < 0 || index >= |flag.variations| then Malformed() else Detail(flag.variations[index], Some(index), reason)
  }

  function OffValue<K, C>(flag: Flag<K, C>, reason: Reason<K>): Detail<K> {
    if flag.offVariation.Some? then FlagVariation(flag, flag.offVariation.value, reason)
    else Detail(Values.Null, None, reason)
  }

  const KEY_REFERENCE: Reference := Reference(true, "key", ["key"])

  function TargetMatchVariation<K, C>(w: World<K, C>, target: Target): Option<int> {
    var key := w.subject.get(target.contextKind, KEY_REFERENCE);
    if key.String? && key.s in target.values then Some(target.variation) else None
  }

  function FirstTarget<K, C>(w: World<K, C>, targets: seq<Target>, variation: Option<int>): Option<int> {
    if targets == [] then None
    else
      var hit := if variation.None? || variation.value == targets[0].variation then TargetMatchVariation(w, targets[0]) else None;
      if hit.Some? then hit else FirstTarget(w, targets[1..], variation)
  }

  /** Context targets in order; an empty user target stands for the user targets of its variation. */
  function FirstContextTarget<K, C>(w: World<K, C>, targets: seq<Target>, contextTargets: seq<Target>): Option<int> {
    if contextTargets == [] then None
    else
      var t := contextTargets[0];
      var hit := if t.contextKind == "user" && t.values == [] then FirstTarget(w, targets, Some(t.variation))
                 else TargetMatchVariation(w, t);
      if hit.Some? then hit else FirstContextTarget(w, targets, contextTargets[1..])
  }

  function AnyTargetMatchVariation<K, C>(w: World<K, C>, flag: Flag<K, C>): Option<int> {
    if flag.contextTargets == [] then FirstTarget(w, flag.targets, None)
    else FirstContextTarget(w, flag.targets, flag.contextTargets)
  }

  function RulesFrom<K, C>(w: World<K, C>, flag: Flag<K, C>, i: nat): Detail<K>
    requires i <= |flag.rules|
    decreases |flag.rules| - i
  {
    if i == |flag.rules| then
      match VariationFor(w.subject, flag.fallthrough, flag.key, flag.salt)
      case Failure(_) => Malformed()
      case Success(r) => FlagVariation(flag, r.variationIndex, Fallthrough(r.inExperiment))
    else
      match w.matches(flag.rules[i].clauses)
      case None => Malformed()
      case Some(false) => RulesFrom(w, flag, i + 1)
      case Some(true) =>
        match VariationFor(w.subject, flag.rules[i].outcome, flag.key, flag.salt)
        case Failure(_) => Malformed()
        case Success(r) => FlagVariation(flag, r.variationIndex, RuleMatch(i, flag.rules[i].id, r.inExperiment))
  }

  /** Targets, then rules, then the fallthrough. */
  function Matched<K, C>(w: World<K, C>, flag: Flag<K, C>): Detail<K> {
    match AnyTargetMatchVariation(w, flag)
    case Some(index) => FlagVariation(flag, index, TargetMatch)
    case None => RulesFrom(w, flag, 0)
  }

  /** Rules that do not match have no effect: the first other rule decides, and without one the fallthrough. */
  lemma {:induction false} UnmatchedRulesAreSkipped<K, C>(w: World<K, C>, flag: Flag<K, C>, i: nat, j: nat)
    requires i <= j <= |flag.rules|
    requires forall n :: i <= n < j ==> w.matches(flag.rules[n].clauses) == Some(false)
    ensures RulesFrom(w, flag, i) == RulesFrom(w, flag, j)
    decreases j - i
  {
    if i < j { UnmatchedRulesAreSkipped(w, flag, i + 1, j); }
  }

  // ----- What targets, rules, the fallthrough and the off variation serve

  /** The detail that serves a variation: its value and index, or a malformed flag when there is no such one. */
  ghost predicate Serves<K, C>(flag: Flag<K, C>, detail: Detail<K>, variation: int, reason: Reason<K>) {
    if 0 <= variation < |flag.variations| then
      detail.value == flag.variations[variation] && detail.index == Some(variation) && detail.reason == reason
    else detail.value == Values.Null && detail.index == None && detail.reason == MalformedFlag
  }

  /** The context's key of the target's kind is one of the target's values. */
  ghost predicate Listed<K, C>(w: World<K, C>, t: Target) {
    exists n :: 0 <= n < |t.values| && w.subject.get(t.contextKind, KEY_REFERENCE) == Values.String(t.values[n])
  }

  /** A context target applies: it lists the context, or it is an empty user target and some user target of its
      variation lists the context. */
  ghost predicate Applies<K, C>(w: World<K, C>, flag: Flag<K, C>, t: Target) {
    if t.contextKind == "user" && t.values == [] then
      exists n :: 0 <= n < |flag.targets| && flag.targets[n].variation == t.variation && Listed(w, flag.targets[n])
    else Listed(w, t)
  }

  ghost predicate NoTargetHit<K, C>(w: World<K, C>, flag: Flag<K, C>) {
    if flag.contextTargets == [] then forall n :: 0 <= n < |flag.targets| ==> !Listed(w, flag.targets[n])
    else forall n :: 0 <= n < |flag.contextTargets| ==> !Applies(w, flag, flag.contextTargets[n])
  }

  lemma TargetHit<K, C>(w: World<K, C>, t: Target)
    ensures TargetMatchVariation(w, t) == if Listed(w, t) then Some(t.variation) else None
  {
  }

  lemma {:induction false} NoTargetOf<K, C>(w: World<K, C>, targets: seq<Target>, variation: Option<int>)
    requires forall n :: 0 <= n < |targets| && (variation.None? || targets[n].variation == variation.value) ==> !Listed(w, targets[n])
    ensures FirstTarget(w, targets, variation) == None
    decreases targets
  {
    if targets != [] {
      TargetHit(w, targets[0]);
      NoTargetOf(w, targets[1..], variation);
    }
  }

  lemma {:induction false} FirstListed<K, C>(w: World<K, C>, targets: seq<Target>, i: nat)
    requires i < |targets| && Listed(w, targets[i]) && forall n :: 0 <= n < i ==> !Listed(w, targets[n])
    ensures FirstTarget(w, targets, None) == Some(targets[i].variation)
    decreases targets
  {
    TargetHit(w, targets[0]);
    if i > 0 { FirstListed(w, targets[1..], i - 1); }
  }

  lemma {:induction false} SomeListed<K, C>(w: World<K, C>, targets: seq<Target>, variation: int, i: nat)
    requires i < |targets| && Listed(w, targets[i]) && targets[i].variation == variation
    ensures FirstTarget(w, targets, Some(variation)) == Some(variation)
    decreases targets
  {
    TargetHit(w, targets[0]);
    if i > 0 { SomeListed(w, targets[1..], variation, i - 1); }
  }

  /** Whether one context target applies, as the code finds out. */
  lemma ContextTargetHit<K, C>(w: World<K, C>, flag: Flag<K, C>, t: Target)
    ensures
      var hit := if t.contextKind == "user" && t.values == [] then FirstTarget(w, flag.targets, Some(t.variation))
                 else TargetMatchVariation(w, t);
      hit == if Applies(w, flag, t) then Some(t.variation) else None
  {
    TargetHit(w, t);
    if t.contextKind == "user" && t.values == [] {
      if Applies(w, flag, t) {
        var n :| 0 <= n < |flag.targets| && flag.targets[n].variation == t.variation && Listed(w, flag.targets[n]);
        SomeListed(w, flag.targets, t.variation, n);
      } else {
        NoTargetOf(w, flag.targets, Some(t.variation));
      }
    }
  }

  lemma {:induction false} FirstApplies<K, C>(w: World<K, C>, flag: Flag<K, C>, targets: seq<Target>, i: nat)
    requires i <= |targets| && forall n :: 0 <= n < i ==> !Applies(w, flag, targets[n])
    requires i < |targets| ==> Applies(w, flag, targets[i])
    ensures FirstContextTarget(w, flag.targets, targets) == if i < |targets| then Some(targets[i].variation) else None
    decreases targets
  {
    hide Applies, FirstTarget, TargetMatchVariation;
    if targets != [] {
      ContextTargetHit(w, flag, targets[0]);
      if i > 0 { FirstApplies(w, flag, targets[1..], i - 1); }
    }
  }

  lemma NoHitMeansRules<K, C>(w: World<K, C>, flag: Flag<K, C>)
    requires NoTargetHit(w, flag)
    ensures Matched(w, flag) == RulesFrom(w, flag, 0)
  {
    hide Listed, Applies, RulesFrom;
    if flag.contextTargets == [] { NoTargetOf(w, flag.targets, None); }
    else { FirstApplies(w, flag, flag.contextTargets, |flag.contextTargets|); }
  }

  /** The first user target that lists the context serves its variation, when there are no context targets. */
  lemma TargetServes<K, C>(w: World<K, C>, flag: Flag<K, C>, i: nat)
    requires flag.contextTargets == [] && i < |flag.targets| && Listed(w, flag.targets[i])
    requires forall n :: 0 <= n < i ==> !Listed(w, flag.targets[n])
    ensures Serves(flag, Matched(w, flag), flag.targets[i].variation, TargetMatch)
  {
    hide Listed, RulesFrom;
    FirstListed(w, flag.targets, i);
  }

  /** Otherwise the first context target that applies serves its variation. */
  lemma ContextTargetServes<K, C>(w: World<K, C>, flag: Flag<K, C>, i: nat)
    requires i < |flag.contextTargets| && Applies(w, flag, flag.contextTargets[i])
    requires forall n :: 0 <= n < i ==> !Applies(w, flag, flag.contextTargets[n])
    ensures Serves(flag, Matched(w, flag), flag.contextTargets[i].variation, TargetMatch)
  {
    hide Applies, RulesFrom;
    FirstApplies(w, flag, flag.contextTargets, i);
  }

  /** Without a target hit, the first rule that matches serves what its own rollout gives. */
  lemma RuleServes<K, C>(w: World<K, C>, flag: Flag<K, C>, i: nat)
    requires NoTargetHit(w, flag) && i < |flag.rules|
    requires forall n :: 0 <= n < i ==> w.matches(flag.rules[n].clauses) == Some(false)
    requires w.matches(flag.rules[i].clauses) == Some(true)
    ensures
      match VariationFor(w.subject, flag.rules[i].outcome, flag.key, flag.salt)
      case Success(r) => Serves(flag, Matched(w, flag), r.variationIndex, RuleMatch(i, flag.rules[i].id, r.inExperiment))
      case Failure(_) => Matched(w, flag) == Detail(Values.Null, None, MalformedFlag)
  {
    hide NoTargetHit, VariationFor;
    NoHitMeansRules(w, flag);
    UnmatchedRulesAreSkipped(w, flag, 0, i);
  }

  /** A rule with a fixed variation serves exactly that variation. */
  lemma FixedRuleServes<K, C>(w: World<K, C>, flag: Flag<K, C>, i: nat, v: nat)
    requires NoTargetHit(w, flag) && i < |flag.rules| && flag.salt.Some? && v < |flag.variations|
    requires forall n :: 0 <= n < i ==> w.matches(flag.rules[n].clauses) == Some(false)
    requires w.matches(flag.rules[i].clauses) == Some(true) && flag.rules[i].outcome == FixedVariation(Some(v))
    ensures Matched(w, flag) == Detail(flag.variations[v], Some(v), RuleMatch(i, flag.rules[i].id, false))
  {
    hide NoTargetHit;
    RuleServes(w, flag, i);
  }

  /** A rule that cannot be matched makes the flag malformed. */
  lemma BrokenRuleIsMalformed<K, C>(w: World<K, C>, flag: Flag<K, C>, i: nat)
    requires NoTargetHit(w, flag) && i < |flag.rules| && w.matches(flag.rules[i].clauses) == None
    requires forall n :: 0 <= n < i ==> w.matches(flag.rules[n].clauses) == Some(false)
    ensures Matched(w, flag) == Detail(Values.Null, None, MalformedFlag)
  {
    hide NoTargetHit, VariationFor;
    NoHitMeansRules(w, flag);
    UnmatchedRulesAreSkipped(w, flag, 0, i);
  }

  /** Without a target hit or a matching rule, the fallthrough serves what it gives. */
  lemma FallthroughServes<K, C>(w: World<K, C>, flag: Flag<K, C>)
    requires NoTargetHit(w, flag)
    requires forall n :: 0 <= n < |flag.rules| ==> w.matches(flag.rules[n].clauses) == Some(false)
    ensures
      match VariationFor(w.subject, flag.fallthrough, flag.key, flag.salt)
      case Success(r) => Serves(flag, Matched(w, flag), r.variationIndex, Fallthrough(r.inExperiment))
      case Failure(_) => Matched(w, flag) == Detail(Values.Null, None, MalformedFlag)
  {
    hide NoTargetHit, VariationFor;
    NoHitMeansRules(w, flag);
    UnmatchedRulesAreSkipped(w, flag, 0, |flag.rules|);
  }

  /** Once a rule decides, neither the later rules nor the fallthrough matter. */
  lemma {:induction false} LaterRulesDoNotMatter<K, C>(w: World<K, C>, flag: Flag<K, C>, i: nat, from: nat,
                                                       later: seq<Rule<C>>, fallthrough: VariationOrRollout)
    requires from <= i < |flag.rules| && w.matches(flag.rules[i].clauses) != Some(false)
    ensures RulesFrom(w, flag.(rules := flag.rules[..i + 1] + later, fallthrough := fallthrough), from) == RulesFrom(w, flag, from)
    decreases i - from
  {
    hide VariationFor;
    var other := flag.(rules := flag.rules[..i + 1] + later, fallthrough := fallthrough);
    assert other.rules[from] == flag.rules[from];
    if from < i && w.matches(flag.rules[from].clauses) == Some(false) {
      LaterRulesDoNotMatter(w, flag, i, from + 1, later, fallthrough);
    }
  }

  lemma MatchIgnoresWhatFollows<K, C>(w: World<K, C>, flag: Flag<K, C>, i: nat, later: seq<Rule<C>>, fallthrough: VariationOrRollout)
    requires i < |flag.rules| && w.matches(flag.rules[i].clauses) != Some(false)
    ensures Matched(w, flag.(rules := flag.rules[..i + 1] + later, fallthrough := fallthrough)) == Matched(w, flag)
  {
    hide RulesFrom, FirstTarget, FirstContextTarget;
    LaterRulesDoNotMatter(w, flag, i, 0, later, fallthrough);
  }

  /** An off flag, or one with a failed prerequisite, serves its off variation for that reason, and null without one. */
  lemma OffServes<K, C>(flag: Flag<K, C>, reason: Reason<K>)
    ensures flag.offVariation.Some? ==> Serves(flag, OffValue(flag, reason), flag.offVariation.value, reason)
    ensures flag.offVariation.None? ==> OffValue(flag, reason) == Detail(Values.Null, None, reason)
  {
  }

  // ----- Guarded evaluation

  /** The result of an evaluation, the events it sends in order, and whether it logs a cyclic reference. */
  datatype Outcome<K> = Outcome(detail: Detail<K>, events: seq<Event<K>>, cyclic: bool)

  function Item<K, C>(w: World<K, C>, key: K): Option<Flag<K, C>> {
    if key in w.flags then w.flags[key] else None
  }

  /** The keys a guard can hold for flags of the store. */
  function ItemKeys<K, C>(w: World<K, C>): set<K> {
    set k | k in w.flags && w.flags[k].Some? :: w.flags[k].value.key
  }

  function Unseen<K, C>(w: World<K, C>, key: K, seen: set<K>): set<K> { ItemKeys(w) + {key} - seen }

  lemma Shrinks<K>(a: set<K>, b: set<K>, x: K)
    requires a <= b && x in b && x !in a
    ensures |a| < |b|
  {
    assert |b| == |b - {x}| + 1;
    SubsetSize(a, b - {x});
  }

  lemma {:induction false} SubsetSize<K>(a: set<K>, b: set<K>)
    requires a <= b
    ensures |a| <= |b|
  {
    if a != {} {
      var x :| x in a;
      SubsetSize(a - {x}, b - {x});
      assert |a| == |a - {x}| + 1 && |b| == |b - {x}| + 1;
    }
  }

  lemma SeenShrinks<K, C>(w: World<K, C>, key: K, seen: set<K>)
    requires key !in seen
    ensures |ItemKeys(w) - (seen + {key})| < |Unseen(w, key, seen)|
  {
    Shrinks(ItemKeys(w) - (seen + {key}), Unseen(w, key, seen), key);
  }

  lemma ItemUnseen<K, C>(w: World<K, C>, key: K, seen: set<K>)
    requires Item(w, key).Some?
    ensures Unseen(w, Item(w, key).value.key, seen) == ItemKeys(w) - seen
  {
  }

  /** Evaluates a flag while the flags in `seen` are being evaluated. */
  function Guarded<K, C>(w: World<K, C>, flag: Flag<K, C>, seen: set<K>): Outcome<K>
    decreases |Unseen(w, flag.key, seen)|, 0, 0
  {
    if flag.key in seen then Outcome(Malformed(), [], true)
    else if !flag.on then Outcome(OffValue(flag, Off), [], false)
    else
      SeenShrinks(w, flag.key, seen);
      GuardedFrom(w, flag, seen + {flag.key}, 0)
  }

  /** The rest of the evaluation of a flag from its i-th prerequisite on. */
  function GuardedFrom<K, C>(w: World<K, C>, flag: Flag<K, C>, seen: set<K>, i: nat): Outcome<K>
    requires i <= |flag.prerequisites|
    decreases |ItemKeys(w) - seen|, 1, |flag.prerequisites| - i
  {
    if i == |flag.prerequisites| then Outcome(Matched(w, flag), [], false)
    else
      var p := flag.prerequisites[i];
      match Item(w, p.key)
      case None => Outcome(OffValue(flag, PrerequisiteFailed(p.key)), [], false)
      case Some(item) =>
        ItemUnseen(w, p.key, seen);
        var o := Guarded(w, item, seen);
        if o.detail.IsError() then o
        else
          var sent := o.events + [Event(p.key, o.detail, flag.key)];
          if !item.on || o.detail.index != Some(p.variation) then
            Outcome(OffValue(flag, PrerequisiteFailed(p.key)), sent, o.cyclic)
          else
            var rest := GuardedFrom(w, flag, seen, i + 1);
            Outcome(rest.detail, sent + rest.events, rest.cyclic)
  }

  // ----- What prerequisites decide

  /** The prerequisite's flag is there, on, and evaluates to the variation asked for. */
  ghost predicate Satisfied<K, C>(w: World<K, C>, seen: set<K>, p: Prerequisite<K>) {
    && Item(w, p.key).Some? && Item(w, p.key).value.on
    && var detail := Guarded(w, Item(w, p.key).value, seen).detail;
    detail.reason != MalformedFlag && detail.index == Some(p.variation)
  }

  /** The events of one prerequisite: those of its own prerequisites, then its own unless it is an error. */
  ghost function EdgeEvents<K, C>(w: World<K, C>, flag: Flag<K, C>, seen: set<K>, p: Prerequisite<K>): seq<Event<K>> {
    if Item(w, p.key).None? then []
    else
      var o := Guarded(w, Item(w, p.key).value, seen);
      if o.detail.reason == MalformedFlag then o.events else o.events + [Event(p.key, o.detail, flag.key)]
  }

  ghost function EventsUpTo<K, C>(w: World<K, C>, flag: Flag<K, C>, seen: set<K>, n: nat): seq<Event<K>>
    requires n <= |flag.prerequisites|
  {
    if n == 0 then [] else EventsUpTo(w, flag, seen, n - 1) + EdgeEvents(w, flag, seen, flag.prerequisites[n - 1])
  }

  lemma SatisfiedStep<K, C>(w: World<K, C>, flag: Flag<K, C>, seen: set<K>, i: nat)
    requires i < |flag.prerequisites| && Satisfied(w, seen, flag.prerequisites[i])
    ensures
      var here, next := GuardedFrom(w, flag, seen, i), GuardedFrom(w, flag, seen, i + 1);
      && here.detail == next.detail
      && EventsUpTo(w, flag, seen, i) + here.events == EventsUpTo(w, flag, seen, i + 1) + next.events
  {
    hide OffValue, Matched, Guarded;
    var p := flag.prerequisites[i];
    var o := Guarded(w, Item(w, p.key).value, seen);
    var upTo, next := EventsUpTo(w, flag, seen, i), GuardedFrom(w, flag, seen, i + 1).events;
    var sent := o.events + [Event(p.key, o.detail, flag.key)];
    assert upTo + (sent + next) == upTo + sent + next;
  }

  lemma {:induction false} SatisfiedUpTo<K, C>(w: World<K, C>, flag: Flag<K, C>, seen: set<K>, i: nat)
    requires i <= |flag.prerequisites| && forall n :: 0 <= n < i ==> Satisfied(w, seen, flag.prerequisites[n])
    ensures
      var all, rest := GuardedFrom(w, flag, seen, 0), GuardedFrom(w, flag, seen, i);
      all.detail == rest.detail && all.events == EventsUpTo(w, flag, seen, i) + rest.events
  {
    hide GuardedFrom, Satisfied, EdgeEvents;
    if i == 0 {
      var events := GuardedFrom(w, flag, seen, 0).events;
      assert [] + events == events;
    } else {
      SatisfiedUpTo(w, flag, seen, i - 1);
      SatisfiedStep(w, flag, seen, i - 1);
    }
  }

  /** A flag that is on and whose prerequisites all hold serves what its targets and rules give. */
  lemma SatisfiedServes<K, C>(w: World<K, C>, flag: Flag<K, C>, seen: set<K>)
    requires flag.on && flag.key !in seen
    requires forall n :: 0 <= n < |flag.prerequisites| ==> Satisfied(w, seen + {flag.key}, flag.prerequisites[n])
    ensures Guarded(w, flag, seen).detail == Matched(w, flag)
    ensures Guarded(w, flag, seen).events == EventsUpTo(w, flag, seen + {flag.key}, |flag.prerequisites|)
  {
    var mine, n := seen + {flag.key}, |flag.prerequisites|;
    assert Guarded(w, flag, seen) == GuardedFrom(w, flag, mine, 0);
    assert GuardedFrom(w, flag, mine, n) == Outcome(Matched(w, flag), [], false);
    hide Guarded, GuardedFrom, Satisfied, EventsUpTo;
    SatisfiedUpTo(w, flag, mine, n);
    var events := EventsUpTo(w, flag, mine, n);
    assert events + [] == events;
  }

  /** The first prerequisite that does not hold makes the flag serve its off variation, naming the prerequisite,
      or makes it malformed when the prerequisite is; nothing later is evaluated. */
  lemma FirstUnsatisfied<K, C>(w: World<K, C>, flag: Flag<K, C>, seen: set<K>, i: nat)
    requires flag.on && flag.key !in seen && i < |flag.prerequisites|
    requires forall n :: 0 <= n < i ==> Satisfied(w, seen + {flag.key}, flag.prerequisites[n])
    requires !Satisfied(w, seen + {flag.key}, flag.prerequisites[i])
    ensures
      var p, mine := flag.prerequisites[i], seen + {flag.key};
      && Guarded(w, flag, seen).events == EventsUpTo(w, flag, mine, i + 1)
      && if Item(w, p.key).Some? && Guarded(w, Item(w, p.key).value, mine).detail.reason == MalformedFlag
         then Guarded(w, flag, seen).detail == Guarded(w, Item(w, p.key).value, mine).detail
         else Guarded(w, flag, seen).detail == OffValue(flag, PrerequisiteFailed(p.key))
  {
    var mine := seen + {flag.key};
    assert Guarded(w, flag, seen) == GuardedFrom(w, flag, mine, 0);
    UnsatisfiedHere(w, flag, mine, i);
    hide Guarded, GuardedFrom, Satisfied, OffValue;
    SatisfiedUpTo(w, flag, mine, i);
  }

  lemma UnsatisfiedHere<K, C>(w: World<K, C>, flag: Flag<K, C>, seen: set<K>, i: nat)
    requires i < |flag.prerequisites| && !Satisfied(w, seen, flag.prerequisites[i])
    ensures
      var p, here := flag.prerequisites[i], GuardedFrom(w, flag, seen, i);
      && here.events == EdgeEvents(w, flag, seen, p)
      && here.detail == if Item(w, p.key).Some? && Guarded(w, Item(w, p.key).value, seen).detail.reason == MalformedFlag
                        then Guarded(w, Item(w, p.key).value, seen).detail
                        else OffValue(flag, PrerequisiteFailed(p.key))
  {
    hide OffValue, Matched, Guarded;
  }

  /** An off flag serves its off variation and evaluates nothing else. */
  lemma OffFlag<K, C>(w: World<K, C>, flag: Flag<K, C>, seen: set<K>)
    requires !flag.on && flag.key !in seen
    ensures Guarded(w, flag, seen).detail == OffValue(flag, Off) && Guarded(w, flag, seen).events == []
  {
  }

  // ----- The stack and the evaluator

  datatype BigSegmentsStatus = NotQueried | Healthy | Stale | StoreError | NotConfigured

  function Precedence(status: BigSegmentsStatus): nat {
    match status
    case NotQueried => 0
    case Healthy => 1
    case Stale => 2
    case StoreError => 3
    case NotConfigured => 4
  }

  /** The trust in a status falls from healthy over stale and store error to not configured. */
  lemma TrustFalls()
    ensures Precedence(NotQueried) < Precedence(Healthy) < Precedence(Stale) < Precedence(StoreError) < Precedence(NotConfigured)
  {
  }

  /** The per-evaluation state. A guard is the pair of a successful notice and the later forget. */
  class EvaluationStack<K(==)> {
    var prerequisitesSeen: set<K>
    var bigSegmentsStatus: BigSegmentsStatus

    constructor ()
      ensures prerequisitesSeen == {} && bigSegmentsStatus == NotQueried
    {
      prerequisitesSeen, bigSegmentsStatus := {}, NotQueried;
    }

    method NoticePrerequisite(key: K) returns (guarded: bool)
      modifies this`prerequisitesSeen
      ensures guarded <==> key !in old(prerequisitesSeen)
      ensures prerequisitesSeen == old(prerequisitesSeen) + {key}
    {
      if key in prerequisitesSeen { return false; }
      prerequisitesSeen := prerequisitesSeen + {key};
      return true;
    }

    method ForgetPrerequisite(key: K)
      modifies this`prerequisitesSeen
      ensures prerequisitesSeen == old(prerequisitesSeen) - {key}
    {
      prerequisitesSeen := prerequisitesSeen - {key};
    }

    /** The least trustworthy status recorded wins. */
    method RecordBigSegmentsStatus(status: BigSegmentsStatus)
      modifies this`bigSegmentsStatus
      ensures bigSegmentsStatus in {status, old(bigSegmentsStatus)}
      ensures Precedence(bigSegmentsStatus) >= Precedence(status)
      ensures Precedence(bigSegmentsStatus) >= Precedence(old(bigSegmentsStatus))
    {
      if Precedence(status) > Precedence(bigSegmentsStatus) { bigSegmentsStatus := status; }
    }
  }

  class Evaluator<K(==), C> {
    const world: World<K, C>
    /** Events sent to the event processor, and whether a cyclic reference was logged. */
    var sent: seq<Event<K>>
    var cycleLogged: bool

    constructor (world: World<K, C>)
      ensures this.world == world && sent == [] && !cycleLogged
    {
      this.world := world;
      sent, cycleLogged := [], false;
    }

    /** Evaluates with the guard; whatever happens, the seen keys on return are those on entry. */
    method Evaluate(flag: Flag<K, C>, stack: EvaluationStack<K>) returns (detail: Detail<K>)
      modifies this, stack
      ensures stack.prerequisitesSeen == old(stack.prerequisitesSeen)
      ensures stack.bigSegmentsStatus == old(stack.bigSegmentsStatus)
      ensures
        var o := Guarded(world, flag, old(stack.prerequisitesSeen));
        && detail == o.detail
        && sent == old(sent) + o.events
        && cycleLogged == (old(cycleLogged) || o.cyclic)
      decreases |Unseen(world, flag.key, stack.prerequisitesSeen)|
    {
      hide OffValue, Matched, Guarded, GuardedFrom, Unseen, ItemKeys;
      ghost var seen := stack.prerequisitesSeen;
      ghost var mine := seen + {flag.key};
      GuardedAtStart(world, flag, seen);
      var guarded := stack.NoticePrerequisite(flag.key);
      if !guarded {
        cycleLogged := true;
        return Malformed();
      }
      SeenShrinks(world, flag.key, seen);
      if !flag.on {
        stack.ForgetPrerequisite(flag.key);
        return OffValue(flag, Off);
      }
      ghost var o := GuardedFrom(world, flag, mine, 0);
      var i := 0;
      while i < |flag.prerequisites|
        invariant 0 <= i <= |flag.prerequisites|
        invariant stack.prerequisitesSeen == mine && stack.bigSegmentsStatus == old(stack.bigSegmentsStatus)
        invariant o.detail == GuardedFrom(world, flag, mine, i).detail
        invariant sent + GuardedFrom(world, flag, mine, i).events == old(sent) + o.events
        invariant (cycleLogged || GuardedFrom(world, flag, mine, i).cyclic) == (old(cycleLogged) || o.cyclic)
      {
        GuardedFromStep(world, flag, mine, i, sent);
        var p := flag.prerequisites[i];
        var found := Item(world, p.key);
        if found == None {
          stack.ForgetPrerequisite(flag.key);
          return OffValue(flag, PrerequisiteFailed(p.key));
        }
        var item := found.value;
        ItemUnseen(world, p.key, mine);
        var result := Evaluate(item, stack);
        if result.IsError() {
          stack.ForgetPrerequisite(flag.key);
          return result;
        }
        sent := sent + [Event(p.key, result, flag.key)];
        if !item.on || result.index != Some(p.variation) {
          stack.ForgetPrerequisite(flag.key);
          return OffValue(flag, PrerequisiteFailed(p.key));
        }
        i := i + 1;
      }
      GuardedAtEnd(world, flag, mine, sent);
      stack.ForgetPrerequisite(flag.key);
      detail := MatchFlag(flag);
    }

    /** Targets first, then the first rule that matches, then the fallthrough. */
    method MatchFlag(flag: Flag<K, C>) returns (detail: Detail<K>)
      ensures detail == Matched(world, flag)
    {
      var target := AnyTargetMatchVariation(world, flag);
      if target.Some? { return FlagVariation(flag, target.value, TargetMatch); }
      hide FlagVariation, VariationFor;
      for i := 0 to |flag.rules|
        invariant Matched(world, flag) == RulesFrom(world, flag, i)
      {
        var rule := flag.rules[i];
        var ruleMatch := world.matches(rule.clauses);
        if ruleMatch == None { return Malformed(); }
        if !ruleMatch.value { continue; }
        var result := Variation(world.subject, rule.outcome, flag.key, flag.salt);
        if result.Failure? { return Malformed(); }
        return FlagVariation(flag, result.value.variationIndex, RuleMatch(i, rule.id, result.value.inExperiment));
      }
      var result := Variation(world.subject, flag.fallthrough, flag.key, flag.salt);
      if result.Failure? { return Malformed(); }
      return FlagVariation(flag, result.value.variationIndex, Fallthrough(result.value.inExperiment));
    }
  }

  lemma GuardedAtStart<K, C>(w: World<K, C>, flag: Flag<K, C>, seen: set<K>)
    ensures flag.key in seen ==> Guarded(w, flag, seen) == Outcome(Malformed(), [], true) && seen + {flag.key} == seen
    ensures flag.key !in seen && !flag.on ==> Guarded(w, flag, seen) == Outcome(OffValue(flag, Off), [], false)
    ensures flag.key !in seen && flag.on ==> Guarded(w, flag, seen) == GuardedFrom(w, flag, seen + {flag.key}, 0)
    ensures flag.key !in seen ==> seen + {flag.key} - {flag.key} == seen
  {
  }

  lemma GuardedAtEnd<K, C>(w: World<K, C>, flag: Flag<K, C>, seen: set<K>, sent: seq<Event<K>>)
    ensures
      var o := GuardedFrom(w, flag, seen, |flag.prerequisites|);
      o == Outcome(Matched(w, flag), [], false) && sent + o.events == sent
  {
  }

  /** The outcome from prerequisite i on, with `sent` standing for the events before it. */
  lemma GuardedFromStep<K, C>(w: World<K, C>, flag: Flag<K, C>, seen: set<K>, i: nat, sent: seq<Event<K>>)
    requires i < |flag.prerequisites|
    ensures
      var p, all := flag.prerequisites[i], GuardedFrom(w, flag, seen, i);
      match Item(w, p.key)
      case None =>
        all.detail == OffValue(flag, PrerequisiteFailed(p.key)) && sent + all.events == sent && !all.cyclic
      case Some(item) =>
        var o := Guarded(w, item, seen);
        if o.detail.IsError() then all == o
        else
          && !o.cyclic
          && var after := sent + o.events + [Event(p.key, o.detail, flag.key)];
          if !item.on || o.detail.index != Some(p.variation) then
            all.detail == OffValue(flag, PrerequisiteFailed(p.key)) && sent + all.events == after && !all.cyclic
          else
            var rest := GuardedFrom(w, flag, seen, i + 1);
            all.detail == rest.detail && sent + all.events == after + rest.events && all.cyclic == rest.cyclic
  {
    hide OffValue, Matched;
    var found := Item(w, flag.prerequisites[i].key);
    if found.Some? { CyclicIsMalformed(w, found.value, seen); }
  }

  /** A cycle makes every evaluation up to the root malformed, without a variation. */
  lemma {:induction false} CyclicIsMalformed<K, C>(w: World<K, C>, flag: Flag<K, C>, seen: set<K>)
    ensures Guarded(w, flag, seen).cyclic ==> Guarded(w, flag, seen).detail == Malformed()
    decreases |Unseen(w, flag.key, seen)|, 0, 0
  {
    if flag.key !in seen && flag.on {
      SeenShrinks(w, flag.key, seen);
      CyclicFromIsMalformed(w, flag, seen + {flag.key}, 0);
    }
  }

  lemma {:induction false} CyclicFromIsMalformed<K, C>(w: World<K, C>, flag: Flag<K, C>, seen: set<K>, i: nat)
    requires i <= |flag.prerequisites|
    ensures GuardedFrom(w, flag, seen, i).cyclic ==> GuardedFrom(w, flag, seen, i).detail == Malformed()
    decreases |ItemKeys(w) - seen|, 1, |flag.prerequisites| - i
  {
    if i < |flag.prerequisites| {
      hide OffValue, Matched;
      var found := Item(w, flag.prerequisites[i].key);
      if found.Some? {
        ItemUnseen(w, flag.prerequisites[i].key, seen);
        CyclicIsMalformed(w, found.value, seen);
        CyclicFromIsMalformed(w, flag, seen, i + 1);
      }
    }
  }

  // ----- Plain evaluation, without any seen set

  /** The recursion with no guard, cut off after `fuel` levels. */
  function Plain<K, C>(w: World<K, C>, flag: Flag<K, C>, fuel: nat): Option<Outcome<K>>
    decreases fuel, 0
  {
    if fuel == 0 then None
    else if !flag.on then Some(Outcome(OffValue(flag, Off), [], false))
    else PlainFrom(w, flag, fuel - 1, 0)
  }

  function PlainFrom<K, C>(w: World<K, C>, flag: Flag<K, C>, fuel: nat, i: nat): Option<Outcome<K>>
    requires i <= |flag.prerequisites|
    decreases fuel, 1, |flag.prerequisites| - i
  {
    if i == |flag.prerequisites| then Some(Outcome(Matched(w, flag), [], false))
    else
      var p := flag.prerequisites[i];
      match Item(w, p.key)
      case None => Some(Outcome(OffValue(flag, PrerequisiteFailed(p.key)), [], false))
      case Some(item) =>
        match Plain(w, item, fuel)
        case None => None
        case Some(o) =>
          if o.detail.IsError() then Some(o)
          else
            var sent := o.events + [Event(p.key, o.detail, flag.key)];
            if !item.on || o.detail.index != Some(p.variation) then
              Some(Outcome(OffValue(flag, PrerequisiteFailed(p.key)), sent, o.cyclic))
            else
              match PlainFrom(w, flag, fuel, i + 1)
              case None => None
              case Some(rest) => Some(Outcome(rest.detail, sent + rest.events, rest.cyclic))
  }

  /** Without a cycle on the way, guarded and plain evaluation agree. */
  lemma {:induction false} AgreesWithPlain<K, C>(w: World<K, C>, flag: Flag<K, C>, seen: set<K>, fuel: nat)
    requires !Guarded(w, flag, seen).cyclic && fuel >= |Unseen(w, flag.key, seen)|
    ensures Plain(w, flag, fuel) == Some(Guarded(w, flag, seen))
    decreases |Unseen(w, flag.key, seen)|, 0, 0
  {
    SeenShrinks(w, flag.key, seen);
    if flag.on { AgreesFrom(w, flag, seen + {flag.key}, fuel - 1, 0); }
  }

  lemma {:induction false} AgreesFrom<K, C>(w: World<K, C>, flag: Flag<K, C>, seen: set<K>, fuel: nat, i: nat)
    requires i <= |flag.prerequisites|
    requires !GuardedFrom(w, flag, seen, i).cyclic && fuel >= |ItemKeys(w) - seen|
    ensures PlainFrom(w, flag, fuel, i) == Some(GuardedFrom(w, flag, seen, i))
    decreases |ItemKeys(w) - seen|, 1, |flag.prerequisites| - i
  {
    if i < |flag.prerequisites| {
      hide OffValue, Matched;
      var p := flag.prerequisites[i];
      var found := Item(w, p.key);
      if found.Some? {
        ItemUnseen(w, p.key, seen);
        CyclicIsMalformed(w, found.value, seen);
        AgreesWithPlain(w, found.value, seen, fuel);
        var o := Guarded(w, found.value, seen);
        if !o.detail.IsError() && found.value.on && o.detail.index == Some(p.variation) {
          AgreesFrom(w, flag, seen, fuel, i + 1);
        }
      }
    }
  }

  /** More fuel does not change a result. */
  lemma {:induction false} MoreFuel<K, C>(w: World<K, C>, flag: Flag<K, C>, n: nat, m: nat)
    requires Plain(w, flag, n).Some? && n <= m
    ensures Plain(w, flag, m) == Plain(w, flag, n)
    decreases n, 0
  {
    if flag.on { MoreFuelFrom(w, flag, n - 1, m - 1, 0); }
  }

  lemma {:induction false} MoreFuelFrom<K, C>(w: World<K, C>, flag: Flag<K, C>, n: nat, m: nat, i: nat)
    requires i <= |flag.prerequisites|
    requires PlainFrom(w, flag, n, i).Some? && n <= m
    ensures PlainFrom(w, flag, m, i) == PlainFrom(w, flag, n, i)
    decreases n, 1, |flag.prerequisites| - i
  {
    if i < |flag.prerequisites| {
      hide OffValue, Matched;
      var p := flag.prerequisites[i];
      var found := Item(w, p.key);
      if found.Some? {
        MoreFuel(w, found.value, n, m);
        var o := Plain(w, found.value, n).value;
        if !o.detail.IsError() && found.value.on && o.detail.index == Some(p.variation) {
          MoreFuelFrom(w, flag, n, m, i + 1);
        }
      }
    }
  }

  // ----- A reported cycle is a divergence of the plain recursion

  /** Every flag of the store is stored under its own key. */
  ghost predicate WellKeyed<K(!new), C>(w: World<K, C>) {
    forall k :: Item(w, k).Some? ==> Item(w, k).value.key == k
  }

  /** Some flag of the chain has a plain result with at most n levels. */
  ghost predicate ChainEnds<K(!new), C>(w: World<K, C>, seen: set<K>, n: nat) {
    exists k, m: nat :: k in seen && m <= n && Item(w, k).Some? && Plain(w, Item(w, k).value, m).Some?
  }

  /** If a reported cycle had a plain result, so would a flag of the chain, with no more levels. */
  lemma {:induction false} Descent<K(!new), C>(w: World<K, C>, flag: Flag<K, C>, seen: set<K>, n: nat)
    requires WellKeyed(w) && Item(w, flag.key) == Some(flag)
    requires Guarded(w, flag, seen).cyclic && Plain(w, flag, n).Some?
    ensures ChainEnds(w, seen, n)
    decreases n, 0
  {
    if flag.key in seen {
      assert Plain(w, Item(w, flag.key).value, n).Some?;
    } else {
      DescentFrom(w, flag, seen + {flag.key}, n - 1, 0);
      var k, m: nat :| k in seen + {flag.key} && m <= n - 1 && Item(w, k).Some? && Plain(w, Item(w, k).value, m).Some?;
      if k !in seen { Descent(w, flag, seen, m); }
    }
  }

  lemma {:induction false} DescentFrom<K(!new), C>(w: World<K, C>, flag: Flag<K, C>, seen: set<K>, n: nat, i: nat)
    requires WellKeyed(w) && i <= |flag.prerequisites|
    requires GuardedFrom(w, flag, seen, i).cyclic && PlainFrom(w, flag, n, i).Some?
    ensures ChainEnds(w, seen, n)
    decreases n, 1, |flag.prerequisites| - i
  {
    hide OffValue, Matched, ChainEnds;
    var item := Item(w, flag.prerequisites[i].key).value;
    var o := Guarded(w, item, seen);
    if o.cyclic {
      Descent(w, item, seen, n);
    } else {
      var enough := n + |Unseen(w, item.key, seen)|;
      AgreesWithPlain(w, item, seen, enough);
      MoreFuel(w, item, n, enough);
      DescentFrom(w, flag, seen, n, i + 1);
    }
  }

  /** A reported cycle has no plain result, however many levels are allowed. */
  lemma CyclicDiverges<K(!new), C>(w: World<K, C>, flag: Flag<K, C>, n: nat)
    requires WellKeyed(w) && Item(w, flag.key) == Some(flag)
    requires Guarded(w, flag, {}).cyclic
    ensures Plain(w, flag, n) == None
  {
    if Plain(w, flag, n).Some? {
      Descent(w, flag, {}, n);
      assert false;
    }
  }

  lemma CyclicNeverEnds<K(!new), C>(w: World<K, C>, flag: Flag<K, C>)
    requires WellKeyed(w) && Item(w, flag.key) == Some(flag)
    requires Guarded(w, flag, {}).cyclic
    ensures forall n: nat :: Plain(w, flag, n) == None
  {
    forall n: nat ensures Plain(w, flag, n) == None { CyclicDiverges(w, flag, n); }
  }

  lemma OthersEnd<K(!new), C>(w: World<K, C>, flag: Flag<K, C>)
    requires !Guarded(w, flag, {}).cyclic
    ensures forall n: nat :: n > |ItemKeys(w)| ==> Plain(w, flag, n) == Some(Guarded(w, flag, {}))
  {
    Bound(w, flag.key);
    forall n: nat | n > |ItemKeys(w)| ensures Plain(w, flag, n) == Some(Guarded(w, flag, {})) {
      AgreesWithPlain(w, flag, {}, n);
    }
  }

  /** The guard reports a cycle exactly when the plain recursion would never end, and otherwise changes
      neither the result nor the events. */
  lemma {:induction false} GuardReportsExactlyDivergence<K(!new), C>(w: World<K, C>, flag: Flag<K, C>)
    requires WellKeyed(w) && Item(w, flag.key) == Some(flag)
    ensures Guarded(w, flag, {}).cyclic <==> forall n: nat :: Plain(w, flag, n) == None
    ensures !Guarded(w, flag, {}).cyclic ==>
              forall n: nat :: n > |ItemKeys(w)| ==> Plain(w, flag, n) == Some(Guarded(w, flag, {}))
  {
    hide Guarded, Plain, ItemKeys, WellKeyed, Item;
    if Guarded(w, flag, {}).cyclic {
      CyclicNeverEnds(w, flag);
    } else {
      OthersEnd(w, flag);
      assert Plain(w, flag, |ItemKeys(w)| + 1) != None;
    }
  }

  lemma Bound<K, C>(w: World<K, C>, key: K)
    ensures |Unseen(w, key, {})| <= |ItemKeys(w)| + 1
  {
    assert Unseen(w, key, {}) == ItemKeys(w) + {key};
  }

  // ----- Acyclic graphs

  /** Ranks fall along every prerequisite edge of the flag and of the store. */
  ghost predicate FallsAlong<K(!new), C>(w: World<K, C>, flag: Flag<K, C>, rank: map<K, nat>) {
    && flag.key in rank
    && forall p :: p in flag.prerequisites && Item(w, p.key).Some? ==>
         Item(w, p.key).value.key in rank && rank[Item(w, p.key).value.key] < rank[flag.key]
  }

  ghost predicate Acyclic<K(!new), C>(w: World<K, C>, rank: map<K, nat>) {
    forall k :: Item(w, k).Some? ==> FallsAlong(w, Item(w, k).value, rank)
  }

  lemma {:induction false} RankedNeverCyclic<K(!new), C>(w: World<K, C>, flag: Flag<K, C>, seen: set<K>, rank: map<K, nat>)
    requires Acyclic(w, rank) && FallsAlong(w, flag, rank)
    requires forall k :: k in seen ==> k in rank && rank[flag.key] < rank[k]
    ensures !Guarded(w, flag, seen).cyclic
    decreases |Unseen(w, flag.key, seen)|, 0, 0
  {
    SeenShrinks(w, flag.key, seen);
    if flag.on { RankedFromNeverCyclic(w, flag, seen + {flag.key}, rank, 0); }
  }

  lemma {:induction false} RankedFromNeverCyclic<K(!new), C>(w: World<K, C>, flag: Flag<K, C>, seen: set<K>, rank: map<K, nat>, i: nat)
    requires i <= |flag.prerequisites| && Acyclic(w, rank) && FallsAlong(w, flag, rank)
    requires forall k :: k in seen ==> k in rank && rank[flag.key] <= rank[k]
    ensures !GuardedFrom(w, flag, seen, i).cyclic
    decreases |ItemKeys(w) - seen|, 1, |flag.prerequisites| - i
  {
    if i < |flag.prerequisites| {
      hide OffValue, Matched;
      var p := flag.prerequisites[i];
      assert p in flag.prerequisites;
      if Item(w, p.key).Some? {
        ItemUnseen(w, p.key, seen);
        RankedNeverCyclic(w, Item(w, p.key).value, seen, rank);
        RankedFromNeverCyclic(w, flag, seen, rank, i + 1);
      }
    }
  }

  /** On every acyclic prerequisite graph, diamonds included, the guarded evaluation returns the detail
      and sends the events of the plain recursion. */
  lemma AcyclicAgreesWithPlain<K(!new), C>(w: World<K, C>, flag: Flag<K, C>, rank: map<K, nat>)
    requires Acyclic(w, rank) && FallsAlong(w, flag, rank)
    ensures Plain(w, flag, |ItemKeys(w)| + 1) == Some(Guarded(w, flag, {}))
  {
    RankedNeverCyclic(w, flag, {}, rank);
    Bound(w, flag.key);
    AgreesWithPlain(w, flag, {}, |ItemKeys(w)| + 1);
  }
}
