/**
 The three-level index of routing rules (cache/routing_config_bucket.go).

 A rule is filed under every source and destination it has: by service, by namespace, or
 under "everything", the last two once per direction. Saving never unfiles and deleting
 unfiles the sources only, so the index may know more than the rules do. The theorems say
 what a query returns all the same.
 */
module RoutingRules {
  import opened Keys

  const MATCH_ALL := "*"

  datatype Scope = Scope(namespace: string, service: string)

  datatype SubRule = SubRule(sources: seq<Scope>, destinations: seq<Scope>)

  /** `rulePolicy`: the routing policy is RulePolicy; other policies are stored but not filed. */
  datatype Rule = Rule(id: string, rulePolicy: bool, enable: bool, subRules: seq<SubRule>)

  datatype Bound = InBound | OutBound

  /** Where an entry is filed; a wildcard namespace with a concrete service has no place. */
  datatype Slot = Level1(key: string) | Level2(bound: Bound, namespace: string) | Level3(bound: Bound) | NoSlot

  function SlotOf(b: Bound, s: Scope): Slot {
    if s.service != MATCH_ALL && s.namespace != MATCH_ALL then Level1(ServiceKey(s.namespace, s.service))
    else if s.service == MATCH_ALL && s.namespace != MATCH_ALL then Level2(b, s.namespace)
    else if s.service == MATCH_ALL then Level3(b)
    else NoSlot
  }

  type Links = map<string, set<string>>

  datatype Levels = Levels(level1: Links, level2In: Links, level2Out: Links,
                           level3In: set<string>, level3Out: set<string>)

  const NoLevels := Levels(map[], map[], map[], {}, {})

  function At(l: Links, key: string): set<string> { if key in l then l[key] else {} }

  function Ids(l: Levels, slot: Slot): set<string> {
    match slot
    case Level1(key) => At(l.level1, key)
    case Level2(InBound, n) => At(l.level2In, n)
    case Level2(OutBound, n) => At(l.level2Out, n)
    case Level3(InBound) => l.level3In
    case Level3(OutBound) => l.level3Out
    case NoSlot => {}
  }

  function File(l: Levels, slot: Slot, id: string): Levels {
    match slot
    case Level1(key) => l.(level1 := l.level1[key := At(l.level1, key) + {id}])
    case Level2(InBound, n) => l.(level2In := l.level2In[n := At(l.level2In, n) + {id}])
    case Level2(OutBound, n) => l.(level2Out := l.level2Out[n := At(l.level2Out, n) + {id}])
    case Level3(InBound) => l.(level3In := l.level3In + {id})
    case Level3(OutBound) => l.(level3Out := l.level3Out + {id})
    case NoSlot => l
  }

  /** `delete` on a missing map is a no-op. */
  function Less(l: Links, key: string, id: string): Links {
    if key in l then l[key := l[key] - {id}] else l
  }

  function Unfile(l: Levels, slot: Slot, id: string): Levels {
    match slot
    case Level1(key) => l.(level1 := Less(l.level1, key, id))
    case Level2(InBound, n) => l.(level2In := Less(l.level2In, n, id))
    case Level2(OutBound, n) => l.(level2Out := Less(l.level2Out, n, id))
    case Level3(InBound) => l.(level3In := l.level3In - {id})
    case Level3(OutBound) => l.(level3Out := l.level3Out - {id})
    case NoSlot => l
  }

  lemma FileEffect(l: Levels, slot: Slot, id: string, q: Slot, x: string)
    ensures x in Ids(File(l, slot, id), q) <==> x in Ids(l, q) || (q == slot && x == id && slot != NoSlot)
  {
  }

  lemma UnfileEffect(l: Levels, slot: Slot, id: string, q: Slot, x: string)
    ensures x in Ids(Unfile(l, slot, id), q) <==> x in Ids(l, q) && !(q == slot && x == id)
  {
  }

  function FileAll(l: Levels, slots: seq<Slot>, id: string): Levels {
    if slots == [] then l else File(FileAll(l, slots[..|slots| - 1], id), slots[|slots| - 1], id)
  }

  function UnfileAll(l: Levels, slots: seq<Slot>, id: string): Levels {
    if slots == [] then l else Unfile(UnfileAll(l, slots[..|slots| - 1], id), slots[|slots| - 1], id)
  }

  lemma {:induction false} FileAllEffect(l: Levels, slots: seq<Slot>, id: string, q: Slot, x: string)
    ensures x in Ids(FileAll(l, slots, id), q) <==> x in Ids(l, q) || (q in slots && x == id && q != NoSlot)
  {
    hide File, Ids;
    if slots != [] {
      FileAllEffect(l, slots[..|slots| - 1], id, q, x);
      FileEffect(FileAll(l, slots[..|slots| - 1], id), slots[|slots| - 1], id, q, x);
      assert slots == slots[..|slots| - 1] + [slots[|slots| - 1]];
    }
  }

  lemma {:induction false} UnfileAllEffect(l: Levels, slots: seq<Slot>, id: string, q: Slot, x: string)
    ensures x in Ids(UnfileAll(l, slots, id), q) <==> x in Ids(l, q) && !(q in slots && x == id)
  {
    hide Unfile, Ids;
    if slots != [] {
      UnfileAllEffect(l, slots[..|slots| - 1], id, q, x);
      UnfileEffect(UnfileAll(l, slots[..|slots| - 1], id), slots[|slots| - 1], id, q, x);
      assert slots == slots[..|slots| - 1] + [slots[|slots| - 1]];
    }
  }

  // ---------------------------------------------------------------- the places of a rule

  function ScopeSlots(b: Bound, scopes: seq<Scope>): (r: seq<Slot>)
    ensures |r| == |scopes| && forall i :: 0 <= i < |scopes| ==> r[i] == SlotOf(b, scopes[i])
  {
    seq(|scopes|, i requires 0 <= i < |scopes| => SlotOf(b, scopes[i]))
  }

  function SubSlots(subs: seq<SubRule>): seq<Slot> {
    if subs == [] then []
    else
      var last := subs[|subs| - 1];
      SubSlots(subs[..|subs| - 1]) + ScopeSlots(OutBound, last.sources) + ScopeSlots(InBound, last.destinations)
  }

  /** Everywhere `saveV2` files a rule. */
  function Slots(r: Rule): seq<Slot> {
    if r.rulePolicy then SubSlots(r.subRules) else []
  }

  /** The places `deleteV2` clears for one source: the wildcard ones in both directions. */
  function SourceSlots(s: Scope): seq<Slot> {
    match SlotOf(OutBound, s)
    case Level2(_, n) => [Level2(OutBound, n), Level2(InBound, n)]
    case Level3(_) => [Level3(OutBound), Level3(InBound)]
    case Level1(key) => [Level1(key)]
    case NoSlot => []
  }

  function SourcesSlots(scopes: seq<Scope>): seq<Slot> {
    if scopes == [] then [] else SourcesSlots(scopes[..|scopes| - 1]) + SourceSlots(scopes[|scopes| - 1])
  }

  function SubCleared(subs: seq<SubRule>): seq<Slot> {
    if subs == [] then [] else SubCleared(subs[..|subs| - 1]) + SourcesSlots(subs[|subs| - 1].sources)
  }

  function Cleared(r: Rule): seq<Slot> {
    if r.rulePolicy then SubCleared(r.subRules) else []
  }

  datatype State = State(rules: map<string, Rule>, levels: Levels)

  const Empty := State(map[], NoLevels)

  function Save(s: State, r: Rule): State {
    State(s.rules[r.id := r], FileAll(s.levels, Slots(r), r.id))
  }

  function Delete(s: State, id: string): State {
    State(s.rules - {id}, if id in s.rules then UnfileAll(s.levels, Cleared(s.rules[id]), id) else s.levels)
  }

  // ---------------------------------------------------------------- what the index knows

  predicate Filed(s: State, q: Slot, id: string) { id in Ids(s.levels, q) }

  /** Every rule is filed everywhere it says. */
  ghost predicate Complete(s: State) {
    && (forall id :: id in s.rules ==> s.rules[id].id == id)
    && (forall id, q :: id in s.rules && q in Slots(s.rules[id]) && q != NoSlot ==> Filed(s, q, id))
  }

  /** A present rule is filed nowhere else. */
  ghost predicate Sound(s: State) {
    forall id, q :: id in s.rules && Filed(s, q, id) ==> q in Slots(s.rules[id])
  }

  lemma SaveEffect(s: State, r: Rule, q: Slot, id: string)
    ensures Filed(Save(s, r), q, id) <==> Filed(s, q, id) || (id == r.id && q in Slots(r) && q != NoSlot)
  {
    hide FileAll, Ids, Slots;
    FileAllEffect(s.levels, Slots(r), r.id, q, id);
  }

  lemma DeleteEffect(s: State, d: string, q: Slot, id: string)
    ensures Filed(Delete(s, d), q, id) <==>
            Filed(s, q, id) && !(id == d && d in s.rules && q in Cleared(s.rules[d]))
  {
    hide UnfileAll, Ids, Cleared;
    if d in s.rules { UnfileAllEffect(s.levels, Cleared(s.rules[d]), d, q, id); }
  }

  lemma SaveKeepsComplete(s: State, r: Rule)
    requires Complete(s)
    ensures Complete(Save(s, r))
  {
    hide Slots, Filed, FileAll;
    var s' := Save(s, r);
    forall id, q | id in s'.rules && q in Slots(s'.rules[id]) && q != NoSlot ensures Filed(s', q, id) {
      SaveEffect(s, r, q, id);
    }
  }

  lemma DeleteKeepsComplete(s: State, d: string)
    requires Complete(s)
    ensures Complete(Delete(s, d))
  {
    hide Slots, Filed, UnfileAll, Cleared;
    var s' := Delete(s, d);
    forall id, q | id in s'.rules && q in Slots(s'.rules[id]) && q != NoSlot ensures Filed(s', q, id) {
      DeleteEffect(s, d, q, id);
    }
  }

  lemma DeleteKeepsSound(s: State, d: string)
    requires Sound(s)
    ensures Sound(Delete(s, d))
  {
    hide Slots, Filed, UnfileAll, Cleared;
    var s' := Delete(s, d);
    forall id, q | id in s'.rules && Filed(s', q, id) ensures q in Slots(s'.rules[id]) {
      DeleteEffect(s, d, q, id);
    }
  }

  /** Nothing was left filed under this id that the rule does not file again. */
  ghost predicate CoversLeftovers(s: State, r: Rule) {
    forall q :: Filed(s, q, r.id) ==> q in Slots(r)
  }

  /** Saving keeps the index sound if and only if the new version of the rule claims every
      place left over from earlier versions, deleted or not. */
  lemma SaveSoundIff(s: State, r: Rule)
    requires Sound(s)
    ensures Sound(Save(s, r)) <==> CoversLeftovers(s, r)
  {
    hide Slots, Filed, FileAll;
    var s' := Save(s, r);
    forall id, q ensures Filed(s', q, id) <==> Filed(s, q, id) || (id == r.id && q in Slots(r) && q != NoSlot) {
      SaveEffect(s, r, q, id);
    }
    if !CoversLeftovers(s, r) {
      var q :| Filed(s, q, r.id) && q !in Slots(r);
      assert r.id in s'.rules && Filed(s', q, r.id);
    }
  }

  // ---------------------------------------------------------------- whole runs

  datatype Event = Saved(rule: Rule) | Deleted(id: string)

  function Step(s: State, e: Event): State {
    match e
    case Saved(r) => Save(s, r)
    case Deleted(id) => Delete(s, id)
  }

  function Run(es: seq<Event>): State {
    if es == [] then Empty else Step(Run(es[..|es| - 1]), es[|es| - 1])
  }

  lemma {:induction false} RunIsComplete(es: seq<Event>)
    ensures Complete(Run(es))
  {
    hide Complete, Save, Delete;
    if es == [] {
      EmptyIsExact();
    } else {
      RunIsComplete(es[..|es| - 1]);
      match es[|es| - 1]
      case Saved(r) => SaveKeepsComplete(Run(es[..|es| - 1]), r);
      case Deleted(id) => DeleteKeepsComplete(Run(es[..|es| - 1]), id);
    }
  }

  lemma EmptyIsExact()
    ensures Complete(Empty) && Sound(Empty)
  {
  }

  /** A rule id keeps its sources and destinations. */
  ghost predicate KeepsScopes(es: seq<Event>) {
    forall i, j :: 0 <= i < j < |es| && es[i].Saved? && es[j].Saved? && es[i].rule.id == es[j].rule.id ==>
      Slots(es[i].rule) == Slots(es[j].rule)
  }

  lemma {:induction false} FiledOrigin(es: seq<Event>, n: nat, q: Slot, id: string)
    requires n <= |es| && Filed(Run(es[..n]), q, id)
    ensures exists i :: 0 <= i < n && es[i].Saved? && es[i].rule.id == id && q in Slots(es[i].rule)
  {
    hide Slots, Save, Delete;
    if n > 0 {
      hide Filed;
      assert es[..n][..n - 1] == es[..n - 1];
      var s := Run(es[..n - 1]);
      match es[n - 1]
      case Saved(r) =>
        SaveEffect(s, r, q, id);
        if Filed(s, q, id) { FiledOrigin(es, n - 1, q, id); }
      case Deleted(d) =>
        DeleteEffect(s, d, q, id);
        FiledOrigin(es, n - 1, q, id);
    }
  }

  lemma {:induction false} FixedScopesSound(es: seq<Event>, n: nat)
    requires n <= |es| && KeepsScopes(es)
    ensures Sound(Run(es[..n]))
  {
    hide Sound, Slots, Save, Delete, Filed;
    if n == 0 {
      assert es[..0] == [];
      EmptyIsExact();
    } else {
      FixedScopesSound(es, n - 1);
      assert es[..n][..n - 1] == es[..n - 1];
      var s := Run(es[..n - 1]);
      match es[n - 1]
      case Saved(r) =>
        forall q | Filed(s, q, r.id) ensures q in Slots(r) {
          FiledOrigin(es, n - 1, q, r.id);
          var i :| 0 <= i < n - 1 && es[i].Saved? && es[i].rule.id == r.id && q in Slots(es[i].rule);
          assert es[n - 1].rule == r;
        }
        SaveSoundIff(s, r);
      case Deleted(d) =>
        DeleteKeepsSound(s, d);
    }
  }

  // ---------------------------------------------------------------- queries

  /** The places looked at for a service, by level. */
  function Looked(level: int, namespace: string, service: string): set<Slot> {
    if level == 1 then {Level1(ServiceKey(namespace, service))}
    else if level == 2 then {Level2(OutBound, namespace), Level2(InBound, namespace)}
    else if level == 3 then {Level3(OutBound), Level3(InBound)}
    else {}
  }

  predicate Hits(r: Rule, level: int, namespace: string, service: string) {
    exists q :: q in Looked(level, namespace, service) && q in Slots(r)
  }

  /** The most specific level at which a rule concerns the service; 0 for none. */
  function LevelOf(r: Rule, namespace: string, service: string): int {
    if Hits(r, 1, namespace, service) then 1
    else if Hits(r, 2, namespace, service) then 2
    else if Hits(r, 3, namespace, service) then 3
    else 0
  }

  /** The enabled rules filed at a level, before duplicates are dropped. */
  predicate Found(s: State, level: int, namespace: string, service: string, id: string) {
    && id in s.rules && s.rules[id].enable
    && exists q :: q in Looked(level, namespace, service) && Filed(s, q, id)
  }

  /** The level at which `listEnableRules` lists a rule: the first at which it is found. */
  function ListedAt(s: State, namespace: string, service: string, id: string): int {
    if Found(s, 1, namespace, service, id) then 1
    else if Found(s, 2, namespace, service, id) then 2
    else if Found(s, 3, namespace, service, id) then 3
    else 0
  }

  /** No enabled rule is ever missed, whatever was edited before; it is listed once, at its
      own level or at a more specific one. */
  lemma NoRuleMissed(s: State, namespace: string, service: string, id: string)
    requires Complete(s) && id in s.rules && s.rules[id].enable
    requires LevelOf(s.rules[id], namespace, service) != 0
    ensures 1 <= ListedAt(s, namespace, service, id) <= LevelOf(s.rules[id], namespace, service)
  {
  }

  /** With a sound index the listing is exactly the enabled rules that concern the service,
      each at its most specific level. */
  lemma ListingIsExact(s: State, namespace: string, service: string, id: string)
    requires Complete(s) && Sound(s)
    ensures ListedAt(s, namespace, service, id) ==
            if id in s.rules && s.rules[id].enable then LevelOf(s.rules[id], namespace, service) else 0
  {
  }

  // ---------------------------------------------------------------- in terms of scopes

  /** The rule has this scope among its sources or destinations. */
  ghost predicate Concerns(r: Rule, scope: Scope) {
    && r.rulePolicy
    && exists i :: 0 <= i < |r.subRules| && (scope in r.subRules[i].sources || scope in r.subRules[i].destinations)
  }

  lemma {:induction false} SubSlotsIff(subs: seq<SubRule>, q: Slot)
    ensures q in SubSlots(subs) <==> exists i :: 0 <= i < |subs| && InSub(subs[i], q)
  {
    if subs != [] {
      var n := |subs| - 1;
      SubSlotsIff(subs[..n], q);
      assert forall i :: 0 <= i < n ==> subs[..n][i] == subs[i];
      assert q in SubSlots(subs) <==> q in SubSlots(subs[..n]) || InSub(subs[n], q);
    }
  }

  predicate InSub(sub: SubRule, q: Slot) {
    q in ScopeSlots(OutBound, sub.sources) || q in ScopeSlots(InBound, sub.destinations)
  }

  lemma SlotIffScope(r: Rule, q: Slot)
    ensures q in Slots(r) <==> exists b, scope :: Concerns'(r, b, scope) && SlotOf(b, scope) == q
  {
    hide SlotOf;
    SubSlotsIff(r.subRules, q);
    if q in Slots(r) {
      var i :| 0 <= i < |r.subRules| && InSub(r.subRules[i], q);
      var sub := r.subRules[i];
      if q in ScopeSlots(OutBound, sub.sources) {
        var j :| 0 <= j < |sub.sources| && ScopeSlots(OutBound, sub.sources)[j] == q;
        assert Concerns'(r, OutBound, sub.sources[j]) && SlotOf(OutBound, sub.sources[j]) == q;
      } else {
        var j :| 0 <= j < |sub.destinations| && ScopeSlots(InBound, sub.destinations)[j] == q;
        assert Concerns'(r, InBound, sub.destinations[j]) && SlotOf(InBound, sub.destinations[j]) == q;
      }
    }
    if b, scope :| Concerns'(r, b, scope) && SlotOf(b, scope) == q {
      var i :| 0 <= i < |r.subRules| && scope in Side(r.subRules[i], b);
      var side := Side(r.subRules[i], b);
      var j :| 0 <= j < |side| && side[j] == scope;
      assert ScopeSlots(b, side)[j] == q;
      assert InSub(r.subRules[i], q);
    }
  }

  function Side(sub: SubRule, b: Bound): seq<Scope> {
    if b == OutBound then sub.sources else sub.destinations
  }

  ghost predicate Concerns'(r: Rule, b: Bound, scope: Scope) {
    r.rulePolicy && exists i :: 0 <= i < |r.subRules| && scope in Side(r.subRules[i], b)
  }

  lemma ConcernsSides(r: Rule, scope: Scope)
    ensures Concerns(r, scope) <==> Concerns'(r, OutBound, scope) || Concerns'(r, InBound, scope)
  {
  }

  ghost predicate SeparableRule(r: Rule) {
    forall scope :: Concerns(r, scope) ==> Separable(scope.namespace)
  }

  /** The scope that makes a rule concern a service at each level. */
  function ScopeAt(level: int, namespace: string, service: string): Scope {
    if level == 1 then Scope(namespace, service)
    else if level == 2 then Scope(namespace, MATCH_ALL)
    else Scope(MATCH_ALL, MATCH_ALL)
  }

  /** A query for "*" looks only at the levels that file such a scope. */
  predicate Asks(level: int, namespace: string, service: string) {
    match level
    case 1 => namespace != MATCH_ALL && service != MATCH_ALL
    case 2 => namespace != MATCH_ALL
    case _ => level == 3
  }

  lemma SlotIffWanted(b: Bound, scope: Scope, level: int, namespace: string, service: string)
    requires 1 <= level <= 3 && Separable(scope.namespace) && Separable(namespace)
    ensures SlotOf(b, scope) in Looked(level, namespace, service) <==>
            Asks(level, namespace, service) && scope == ScopeAt(level, namespace, service)
  {
    hide ServiceKey;
    ServiceKeyInjective(scope.namespace, scope.service, namespace, service);
    assert b == InBound || b == OutBound;
  }

  /** Being filed where a level looks is "names the service", "names the namespace with *",
      "names *, *", for every query in a separable namespace. */
  lemma HitsIffScope(r: Rule, level: int, namespace: string, service: string)
    requires 1 <= level <= 3 && SeparableRule(r) && Separable(namespace)
    ensures Hits(r, level, namespace, service) <==>
            Asks(level, namespace, service) && Concerns(r, ScopeAt(level, namespace, service))
  {
    hide Slots, SlotOf, Looked, Concerns, Concerns', Separable, Asks;
    var want := ScopeAt(level, namespace, service);
    ConcernsSides(r, want);
    if Asks(level, namespace, service) && Concerns(r, want) {
      var b := if Concerns'(r, OutBound, want) then OutBound else InBound;
      SlotIffWanted(b, want, level, namespace, service);
      SlotIffScope(r, SlotOf(b, want));
    }
    if Hits(r, level, namespace, service) {
      var q :| q in Looked(level, namespace, service) && q in Slots(r);
      SlotIffScope(r, q);
      var b, scope :| Concerns'(r, b, scope) && SlotOf(b, scope) == q;
      ConcernsSides(r, scope);
      assert b == InBound || b == OutBound;
      SlotIffWanted(b, scope, level, namespace, service);
    }
  }

  /** The level a rule's own sources and destinations give it for a query; 0 for none. */
  ghost function ScopeLevel(r: Rule, namespace: string, service: string): int {
    if Asks(1, namespace, service) && Concerns(r, Scope(namespace, service)) then 1
    else if Asks(2, namespace, service) && Concerns(r, Scope(namespace, MATCH_ALL)) then 2
    else if Concerns(r, Scope(MATCH_ALL, MATCH_ALL)) then 3
    else 0
  }

  lemma LevelIsScopeLevel(r: Rule, namespace: string, service: string)
    requires SeparableRule(r) && Separable(namespace)
    ensures LevelOf(r, namespace, service) == ScopeLevel(r, namespace, service)
  {
    hide Hits, Concerns, SeparableRule, Separable;
    HitsIffScope(r, 1, namespace, service);
    HitsIffScope(r, 2, namespace, service);
    HitsIffScope(r, 3, namespace, service);
  }

  /** Naming a scope is enough to be filed where the level looks, whatever the names. */
  lemma ScopeHits(r: Rule, level: int, namespace: string, service: string)
    requires 1 <= level <= 3 && Asks(level, namespace, service) && Concerns(r, ScopeAt(level, namespace, service))
    ensures Hits(r, level, namespace, service)
  {
    var want := ScopeAt(level, namespace, service);
    ConcernsSides(r, want);
    var b := if Concerns'(r, OutBound, want) then OutBound else InBound;
    SlotIffScope(r, SlotOf(b, want));
    hide Slots, ServiceKey, Concerns, Concerns';
    assert SlotOf(b, want) in Looked(level, namespace, service);
  }

  /** After any run at all, and for every name: an enabled rule that has the service, its
      namespace or everything among its sources and destinations is listed, at the level that
      gives it or at a more specific one. */
  lemma NoScopeMissed(es: seq<Event>, namespace: string, service: string, id: string)
    requires id in Run(es).rules && Run(es).rules[id].enable
    requires ScopeLevel(Run(es).rules[id], namespace, service) != 0
    ensures 1 <= ListedAt(Run(es), namespace, service, id) <= ScopeLevel(Run(es).rules[id], namespace, service)
  {
    hide Run, Complete, Hits, Found, Concerns;
    var r := Run(es).rules[id];
    ScopeHits(r, ScopeLevel(r, namespace, service), namespace, service);
    RunIsComplete(es);
    NoRuleMissed(Run(es), namespace, service, id);
  }

  /** After any run in which rule ids keep their scopes, although deleting leaves destination
      entries behind: exactly the enabled rules that concern the service, each at the most
      specific level that its own sources and destinations give it. */
  lemma RunListsExactly(es: seq<Event>, namespace: string, service: string, id: string)
    requires KeepsScopes(es) && Separable(namespace)
    requires id in Run(es).rules ==> SeparableRule(Run(es).rules[id])
    ensures ListedAt(Run(es), namespace, service, id) ==
            if id in Run(es).rules && Run(es).rules[id].enable then ScopeLevel(Run(es).rules[id], namespace, service)
            else 0
  {
    hide Run, Complete, Sound, LevelOf, ScopeLevel, SeparableRule, Found, Separable;
    RunIsComplete(es);
    FixedScopesSound(es, |es|);
    assert es[..|es|] == es;
    ListingIsExact(Run(es), namespace, service, id);
    if id in Run(es).rules {
      LevelIsScopeLevel(Run(es).rules[id], namespace, service);
    }
  }

  // ---------------------------------------------------------------- when edits show

  /** The same place, whichever direction it is filed under: a query looks at both. */
  function Undirected(q: Slot): Slot {
    match q
    case Level2(_, n) => Level2(OutBound, n)
    case Level3(_) => Level3(OutBound)
    case _ => q
  }

  predicate Claimed(r: Rule, q: Slot) {
    exists p :: p in Slots(r) && Undirected(p) == Undirected(q)
  }

  /** Wherever the id was left filed, the new version of the rule files it too, in one
      direction or the other. */
  ghost predicate ClaimsLeftovers(s: State, r: Rule) {
    forall q :: Filed(s, q, r.id) ==> Claimed(r, q)
  }

  /** What a listing should say about a rule, by its own sources and destinations. */
  ghost function Due(s: State, namespace: string, service: string, id: string): int {
    if id in s.rules && s.rules[id].enable then ScopeLevel(s.rules[id], namespace, service) else 0
  }

  ghost predicate ListedRight(s: State, id: string) {
    forall namespace, service :: Separable(namespace) ==>
      ListedAt(s, namespace, service, id) == Due(s, namespace, service, id)
  }

  ghost predicate AllSeparable(es: seq<Event>) {
    forall i :: 0 <= i < |es| && es[i].Saved? ==> SeparableRule(es[i].rule)
  }

  /** The slot belongs to a scope in a separable namespace. */
  ghost predicate Scoped(q: Slot) {
    exists b, scope :: SlotOf(b, scope) == q && Separable(scope.namespace)
  }

  ghost predicate AllScoped(s: State) {
    forall q, id :: Filed(s, q, id) ==> Scoped(q)
  }

  lemma RunIsScoped(es: seq<Event>)
    requires AllSeparable(es)
    ensures AllScoped(Run(es))
  {
    hide Run, Filed, Slots, SlotOf, Separable, Concerns, Concerns';
    forall q, id | Filed(Run(es), q, id) ensures Scoped(q) {
      assert es[..|es|] == es;
      FiledOrigin(es, |es|, q, id);
      var i :| 0 <= i < |es| && es[i].Saved? && es[i].rule.id == id && q in Slots(es[i].rule);
      SlotIffScope(es[i].rule, q);
      var b, scope :| Concerns'(es[i].rule, b, scope) && SlotOf(b, scope) == q;
      ConcernsSides(es[i].rule, scope);
      assert b == InBound || b == OutBound;
    }
  }

  /** A separable name longer than every key and namespace of some slots. */
  function Longer(slots: seq<Slot>): string {
    if slots == [] then "x"
    else Longer(slots[..|slots| - 1]) + seq(|Text(slots[|slots| - 1])|, _ => 'x')
  }

  lemma {:induction false} LongerIsSeparable(slots: seq<Slot>)
    ensures '@' !in Longer(slots) && Separable(Longer(slots))
  {
    if slots != [] { LongerIsSeparable(slots[..|slots| - 1]); }
  }

  function Text(q: Slot): string {
    match q
    case Level1(key) => key
    case Level2(_, n) => n
    case _ => ""
  }

  lemma {:induction false} LongerThanAll(slots: seq<Slot>, q: Slot)
    requires q in slots
    ensures |Longer(slots)| > |Text(q)|
  {
    var n := |slots| - 1;
    if q in slots[..n] {
      LongerThanAll(slots[..n], q);
    } else {
      LongerNotEmpty(slots[..n]);
      assert slots == slots[..n] + [slots[n]];
    }
  }

  lemma {:induction false} LongerNotEmpty(slots: seq<Slot>)
    ensures |Longer(slots)| > 0
  {
    if slots != [] { LongerNotEmpty(slots[..|slots| - 1]); }
  }

  /** No rule concerns a service with such a name at level 1. */
  lemma FreshMisses(r: Rule, namespace: string)
    ensures !Hits(r, 1, namespace, Longer(Slots(r)))
    ensures !Hits(r, 2, Longer(Slots(r)), namespace)
  {
    hide Slots;
    var service := Longer(Slots(r));
    if Hits(r, 1, namespace, service) {
      LongerThanAll(Slots(r), Level1(ServiceKey(namespace, service)));
    }
    if Hits(r, 2, service, namespace) {
      var q :| q in Looked(2, service, namespace) && q in Slots(r);
      LongerThanAll(Slots(r), q);
    }
  }

  lemma ClaimedHits(r: Rule, q: Slot, level: int, namespace: string, service: string)
    requires q in Looked(level, namespace, service)
    ensures Claimed(r, q) <==> Hits(r, level, namespace, service)
  {
    hide Slots, ServiceKey;
    forall p ensures p in Looked(level, namespace, service) <==> Undirected(p) == Undirected(q) {
      if p.Level2? || p.Level3? { assert p.bound == InBound || p.bound == OutBound; }
    }
  }

  lemma FoundAfterSave(s: State, r: Rule, level: int, namespace: string, service: string)
    ensures Found(Save(s, r), level, namespace, service, r.id) <==>
            r.enable && (Hits(r, level, namespace, service) ||
                         exists q :: q in Looked(level, namespace, service) && Filed(s, q, r.id))
  {
    hide Slots, Filed, ServiceKey, FileAll;
    forall q ensures Filed(Save(s, r), q, r.id) <==> Filed(s, q, r.id) || (q in Slots(r) && q != NoSlot) {
      SaveEffect(s, r, q, r.id);
    }
    assert NoSlot !in Looked(level, namespace, service);
  }

  /** A query that looks where the slot is, and at no more specific slot of the rule. */
  lemma WitnessQuery(r: Rule, q: Slot) returns (level: int, namespace: string, service: string)
    requires Scoped(q) && q != NoSlot
    ensures 1 <= level <= 3 && Separable(namespace) && q in Looked(level, namespace, service)
    ensures forall l :: 1 <= l < level ==> !Hits(r, l, namespace, service)
  {
    var unused := Longer(Slots(r));
    LongerIsSeparable(Slots(r));
    var b, scope :| SlotOf(b, scope) == q && Separable(scope.namespace);
    hide Slots, Longer, Hits, Separable, ServiceKey;
    match q {
      case Level1(key) =>
        level, namespace, service := 1, scope.namespace, scope.service;
      case Level2(bound, n) =>
        level, namespace, service := 2, n, unused;
        FreshMisses(r, n);
        assert bound == InBound || bound == OutBound;
      case Level3(bound) =>
        level, namespace, service := 3, unused, unused;
        FreshMisses(r, unused);
        assert bound == InBound || bound == OutBound;
    }
  }

  /** A leftover that is not claimed shows in some listing. */
  lemma LeftoverShows(s: State, r: Rule, q: Slot)
    requires AllScoped(s) && SeparableRule(r) && r.enable && Filed(s, q, r.id) && !Claimed(r, q)
    ensures !ListedRight(Save(s, r), r.id)
  {
    assert q != NoSlot;
    assert Scoped(q);
    hide Slots, Hits, Found, Filed, FileAll, ScopeLevel, SeparableRule, Separable, Scoped, Looked, Claimed;
    var level, namespace, service := WitnessQuery(r, q);
    ClaimedHits(r, q, level, namespace, service);
    FoundAfterSave(s, r, level, namespace, service);
    LevelIsScopeLevel(r, namespace, service);
    var after := Save(s, r);
    assert after.rules[r.id] == r && Found(after, level, namespace, service, r.id);
    assert 1 <= ListedAt(after, namespace, service, r.id) <= level;
    assert LevelOf(r, namespace, service) == 0 || LevelOf(r, namespace, service) > level;
  }

  /** A saved rule is listed for every service exactly where its sources and destinations put it
      if and only if it is disabled or its new version claims every place left over from earlier
      ones. */
  lemma SaveListsIff(s: State, r: Rule)
    requires AllScoped(s) && SeparableRule(r)
    ensures ListedRight(Save(s, r), r.id) <==> (r.enable ==> ClaimsLeftovers(s, r))
  {
    hide AllScoped, Filed, FileAll, Hits, Found, Looked, Claimed, Slots, SeparableRule, Separable, ScopeLevel;
    if r.enable && !ClaimsLeftovers(s, r) {
      var q :| Filed(s, q, r.id) && !Claimed(r, q);
      LeftoverShows(s, r, q);
    } else {
      forall namespace, service | Separable(namespace)
        ensures ListedAt(Save(s, r), namespace, service, r.id) == Due(Save(s, r), namespace, service, r.id)
      {
        LevelIsScopeLevel(r, namespace, service);
        forall level ensures Found(Save(s, r), level, namespace, service, r.id) <==>
                             r.enable && Hits(r, level, namespace, service)
        {
          FoundAfterSave(s, r, level, namespace, service);
          if r.enable && exists q :: q in Looked(level, namespace, service) && Filed(s, q, r.id) {
            var q :| q in Looked(level, namespace, service) && Filed(s, q, r.id);
            ClaimedHits(r, q, level, namespace, service);
          }
        }
      }
    }
  }

  /** Saving or deleting one rule moves no other in any listing. */
  lemma OthersListedAsBefore(s: State, e: Event, id: string)
    requires id != if e.Saved? then e.rule.id else e.id
    ensures ListedRight(Step(s, e), id) <==> ListedRight(s, id)
  {
    hide Slots, Filed, FileAll, UnfileAll, Looked, Cleared, ScopeLevel, Separable;
    var s' := Step(s, e);
    forall q ensures Filed(s', q, id) <==> Filed(s, q, id) {
      match e
      case Saved(r) => SaveEffect(s, r, q, id);
      case Deleted(d) => DeleteEffect(s, d, q, id);
    }
    forall namespace, service
      ensures ListedAt(s', namespace, service, id) == ListedAt(s, namespace, service, id)
      ensures Due(s', namespace, service, id) == Due(s, namespace, service, id)
    {
      assert forall level :: Found(s', level, namespace, service, id) <==> Found(s, level, namespace, service, id);
    }
  }

  ghost predicate AllListedRight(s: State) { forall id :: ListedRight(s, id) }

  ghost predicate ClaimingAt(es: seq<Event>, i: nat)
    requires i < |es|
  {
    es[i].Saved? && es[i].rule.enable ==> ClaimsLeftovers(Run(es[..i]), es[i].rule)
  }

  lemma StepListsIff(es: seq<Event>, i: nat)
    requires i < |es| && AllSeparable(es) && AllListedRight(Run(es[..i]))
    ensures AllListedRight(Run(es[..i + 1])) <==> ClaimingAt(es, i)
  {
    hide ListedRight, AllScoped, ClaimsLeftovers, Save, Delete, SeparableRule;
    var s, e := Run(es[..i]), es[i];
    assert es[..i + 1][..i] == es[..i];
    RunIsScoped(es[..i]);
    forall id | id != if e.Saved? then e.rule.id else e.id ensures ListedRight(Step(s, e), id) {
      OthersListedAsBefore(s, e, id);
    }
    match e
    case Saved(r) => SaveListsIff(s, r);
    case Deleted(d) => GoneNotListed(s, d);
  }

  lemma GoneNotListed(s: State, d: string)
    ensures ListedRight(Delete(s, d), d)
  {
  }

  /** Along any run of saves and deletes, every listing for a separable namespace is right at
      every moment, nothing missing, nothing else and each rule at the most specific level its
      sources and destinations give it, if and only if every save of an enabled rule claims the
      places left over from its earlier versions. */
  lemma AlwaysListsRightIff(es: seq<Event>)
    requires AllSeparable(es)
    ensures (forall i :: 0 <= i <= |es| ==> AllListedRight(Run(es[..i])))
            <==> forall i :: 0 <= i < |es| ==> ClaimingAt(es, i)
  {
    hide AllListedRight, Run, ClaimingAt, AllSeparable;
    if forall i :: 0 <= i <= |es| ==> AllListedRight(Run(es[..i])) {
      forall i | 0 <= i < |es| ensures ClaimingAt(es, i) { StepListsIff(es, i); }
    }
    if forall i :: 0 <= i < |es| ==> ClaimingAt(es, i) {
      forall i | 0 <= i <= |es| ensures AllListedRight(Run(es[..i])) { ClaimingListsRight(es, i); }
    }
  }

  lemma {:induction false} ClaimingListsRight(es: seq<Event>, i: nat)
    requires i <= |es| && AllSeparable(es) && forall j :: 0 <= j < i ==> ClaimingAt(es, j)
    ensures AllListedRight(Run(es[..i]))
  {
    if i == 0 {
      assert es[..0] == [];
      assert forall id :: ListedRight(Empty, id);
    } else {
      hide AllListedRight, Run, ClaimingAt, AllSeparable;
      ClaimingListsRight(es, i - 1);
      StepListsIff(es, i - 1);
    }
  }

  lemma OneScope(id: string, scope: Scope)
    requires scope.namespace != MATCH_ALL && scope.service != MATCH_ALL
    ensures Slots(Rule(id, true, true, [SubRule([scope], [])])) == [Level1(ServiceKey(scope.namespace, scope.service))]
  {
    hide ServiceKey;
    var sub := SubRule([scope], []);
    assert [sub][..0] == [] && [scope][0] == scope;
    assert SubSlots([sub]) == SubSlots([]) + ScopeSlots(OutBound, [scope]) + ScopeSlots(InBound, []);
  }

  lemma OneScopeElsewhere(id: string, scope: Scope, namespace: string, service: string)
    requires scope.namespace != MATCH_ALL && scope.service != MATCH_ALL && scope != Scope(namespace, service)
    ensures ScopeLevel(Rule(id, true, true, [SubRule([scope], [])]), namespace, service) == 0
  {
    var rule := Rule(id, true, true, [SubRule([scope], [])]);
    assert forall i :: 0 <= i < |rule.subRules| ==> rule.subRules[i] == SubRule([scope], []);
  }

  /** A rule for a service is listed for another one that shares its key. */
  lemma SharedKeyListed()
    ensures var rule := Rule("r", true, true, [SubRule([Scope("a@", "b")], [])]);
            var s := Run([Saved(rule)]);
            ListedAt(s, "a", "@b", "r") == 1 && Due(s, "a", "@b", "r") == 0
  {
    var rule := Rule("r", true, true, [SubRule([Scope("a@", "b")], [])]);
    var q := Level1(ServiceKey("a", "@b"));
    assert ServiceKey("a@", "b") == ServiceKey("a", "@b") == "a@@@b";
    OneScope("r", Scope("a@", "b"));
    OneScopeElsewhere("r", Scope("a@", "b"), "a", "@b");
    hide Slots, ServiceKey, FileAll, Filed, ScopeLevel;
    assert [Saved(rule)][..0] == [];
    assert Run([Saved(rule)]) == Save(Empty, rule);
    SaveEffect(Empty, rule, q, "r");
    assert q in Looked(1, "a", "@b");
  }

  /** A rule edited to another service goes on being listed for the old one. */
  lemma EditedRuleStaysListed()
    ensures var before := Rule("r", true, true, [SubRule([Scope("n", "old")], [])]);
            var after := Rule("r", true, true, [SubRule([Scope("n", "new")], [])]);
            var s := Run([Saved(before), Saved(after)]);
            ListedAt(s, "n", "old", "r") == 1 && Due(s, "n", "old", "r") == 0
  {
    var before := Rule("r", true, true, [SubRule([Scope("n", "old")], [])]);
    var after := Rule("r", true, true, [SubRule([Scope("n", "new")], [])]);
    var q := Level1(ServiceKey("n", "old"));
    OneScope("r", Scope("n", "old"));
    OneScopeElsewhere("r", Scope("n", "new"), "n", "old");
    hide Slots, ServiceKey, FileAll, Filed, ScopeLevel;
    assert [Saved(before), Saved(after)][..1] == [Saved(before)] && [Saved(before)][..0] == [];
    var first := Save(Empty, before);
    assert Run([Saved(before)]) == first;
    SaveEffect(Empty, before, q, "r");
    SaveEffect(first, after, q, "r");
    assert q in Looked(1, "n", "old");
  }
}
