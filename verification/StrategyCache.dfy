/**
 The strategy cache itself (cache/strategy.go): loops over the lists of each rule, each
 proved to be the corresponding function of `StrategySpec`.
 */
module StrategyCache {
  import opened StrategySpec
  import UserGroups

  /** `model.StrategyDetailCache`: the rule with its principals split by role. */
  datatype Cached = Cached(detail: Strategy, users: set<string>, groups: set<string>)

  function UserIds(items: seq<Item>): set<string> {
    set i | 0 <= i < |items| && items[i].tag == PRINCIPAL_USER :: items[i].id
  }

  function GroupIds(items: seq<Item>): set<string> {
    set i | 0 <= i < |items| && items[i].tag != PRINCIPAL_USER :: items[i].id
  }

  predicate WellBuilt(c: Cached) {
    c.users == UserIds(c.detail.principals) && c.groups == GroupIds(c.detail.principals)
  }

  lemma NamesByRole(s: Strategy, p: Item)
    ensures Names(s, p) <==>
            if p.tag == PRINCIPAL_USER then p.id in UserIds(s.principals) else p.id in GroupIds(s.principals)
  {
  }

  function Details(m: map<string, Cached>): Strategies {
    map id | id in m :: m[id].detail
  }

  // ---------------------------------------------------------------- one rule

  method BuildEnhanced(s: Strategy) returns (c: Cached)
    ensures c.detail == s && WellBuilt(c)
  {
    var users: set<string>, groups: set<string> := {}, {};
    for i := 0 to |s.principals|
      invariant users == UserIds(s.principals[..i]) && groups == GroupIds(s.principals[..i])
    {
      var p := s.principals[i];
      assert s.principals[..i + 1] == s.principals[..i] + [p];
      SplitSnoc(s.principals[..i], p);
      if p.tag == PRINCIPAL_USER {
        users := users + {p.id};
      } else {
        groups := groups + {p.id};
      }
    }
    assert s.principals[..|s.principals|] == s.principals;
    c := Cached(s, users, groups);
  }

  lemma SplitSnoc(items: seq<Item>, p: Item)
    ensures UserIds(items + [p]) == UserIds(items) + if p.tag == PRINCIPAL_USER then {p.id} else {}
    ensures GroupIds(items + [p]) == GroupIds(items) + if p.tag != PRINCIPAL_USER then {p.id} else {}
  {
    var more := items + [p];
    assert forall i :: 0 <= i < |items| ==> more[i] == items[i];
    assert more[|items|] == p;
  }

  lemma KeySetSnoc(items: seq<Item>, i: nat)
    requires i < |items|
    ensures KeySet(items[..i + 1]) == KeySet(items[..i]) + {ItemKey(items[i])}
  {
    hide ItemKey;
    var before, after := items[..i], items[..i + 1];
    assert forall j :: 0 <= j < i ==> after[j] == before[j];
    assert after[i] == items[i];
  }

  method NewKeys(items: seq<Item>) returns (keys: set<string>)
    ensures keys == KeySet(items)
  {
    hide ItemKey;
    keys := {};
    for i := 0 to |items|
      invariant keys == KeySet(items[..i])
    {
      KeySetSnoc(items, i);
      keys := keys + {ItemKey(items[i])};
    }
    assert items[..|items|] == items;
  }

  /** The items kicked out of the rule. */
  method KickedOut(was: seq<Item>, now: seq<Item>) returns (del: seq<Item>)
    ensures del == Dropped(was, now)
  {
    var newRes := NewKeys(now);
    del := [];
    for i := 0 to |was|
      invariant del == Dropped(was[..i], now)
    {
      assert was[..i + 1][..i] == was[..i];
      if ItemKey(was[i]) !in newRes {
        del := del + [was[i]];
      }
    }
    assert was[..|was|] == was;
  }

  method OperateLinks(b: Buckets, sid: string, items: seq<Item>, file: Filing, remove: bool) returns (r: Buckets)
    ensures var es := EndpointsOf(file, items); r == if remove then UnlinkAll(b, sid, es) else LinkAll(b, sid, es)
  {
    hide Link, Unlink;
    r := b;
    ghost var es := EndpointsOf(file, items);
    for i := 0 to |items|
      invariant r == if remove then UnlinkAll(b, sid, es[..i]) else LinkAll(b, sid, es[..i])
    {
      assert es[..i + 1][..i] == es[..i];
      if remove {
        r := Unlink(r, file(items[i]), sid);
      } else {
        r := Link(r, file(items[i]), sid);
      }
    }
    assert es[..|items|] == es;
  }

  /** The shape shared by `handlerResourceStrategy` and `handlerPrincipalStrategy`. */
  method HandleLinks(b: Buckets, strategys: map<string, Cached>, batch: seq<Strategy>, list: Listing, file: Filing)
    returns (r: Buckets)
    ensures r == RelinkBatch(b, Details(strategys), batch, list, file)
  {
    hide LinkAll, UnlinkAll, Dropped;
    r := b;
    for i := 0 to |batch|
      invariant r == RelinkBatch(b, Details(strategys), batch[..i], list, file)
    {
      var rule := batch[i];
      assert batch[..i + 1][..i] == batch[..i];
      var was := if rule.id in strategys then list(strategys[rule.id].detail) else [];
      var del := KickedOut(was, list(rule));
      r := OperateLinks(r, rule.id, del, file, true);
      r := OperateLinks(r, rule.id, list(rule), file, !rule.valid);
    }
    assert batch[..|batch|] == batch;
  }

  // ---------------------------------------------------------------- the cache

  class Cache {
    var strategys: map<string, Cached>
    var links: Buckets

    ghost predicate Valid()
      reads this
    {
      forall id :: id in strategys ==> WellBuilt(strategys[id])
    }

    ghost function View(): State
      reads this
    {
      State(Details(strategys), links)
    }

    constructor ()
      ensures Valid() && View() == Empty
    {
      strategys, links := map[], NoLinks;
    }

    method Clear()
      modifies this
      ensures Valid() && View() == Empty
    {
      strategys, links := map[], NoLinks;
    }

    method ReplaceStrategies(batch: seq<Strategy>)
      requires Valid()
      modifies this`strategys
      ensures Valid() && Details(strategys) == ReplaceBatch(old(Details(strategys)), batch)
    {
      hide WellBuilt;
      for i := 0 to |batch|
        invariant Valid() && Details(strategys) == ReplaceBatch(old(Details(strategys)), batch[..i])
      {
        var rule := batch[i];
        assert batch[..i + 1][..i] == batch[..i];
        if !rule.valid {
          strategys := strategys - {rule.id};
        } else {
          var built := BuildEnhanced(rule);
          strategys := strategys[rule.id := built];
        }
      }
      assert batch[..|batch|] == batch;
    }

    /** `setStrategys`: links first, against the cached rules, then the rules. */
    method SetStrategys(batch: seq<Strategy>)
      requires Valid()
      modifies this
      ensures Valid() && View() == SetBatch(old(View()), batch)
      ensures old(Inverse(View())) && DistinctIds(batch) ==> Inverse(View())
    {
      hide RelinkBatch, ReplaceBatch, WellBuilt, Inverse;
      ghost var before := View();
      links := HandleLinks(links, strategys, batch, ResourcesOf, ResourceEndpoint);
      links := HandleLinks(links, strategys, batch, PrincipalsOf, PrincipalEndpoint);
      ReplaceStrategies(batch);
      if Inverse(before) && DistinctIds(batch) {
        SetBatchKeepsInverse(before, batch);
      }
    }

    /** `checkResourceEditable`, over the ids of one bucket in any order. */
    method CheckResourceEditable(strategIds: set<string>, principal: Item, mustCheck: bool) returns (editable: bool)
      requires Valid()
      ensures editable <==> CheckEditable(View().strategies, strategIds, principal, mustCheck)
    {
      hide Names;
      editable := false;
      if strategIds == {} && !mustCheck {
        return true;
      }
      var rest := strategIds;
      while rest != {}
        invariant rest <= strategIds
        invariant editable <==> SomeNames(Details(strategys), strategIds - rest, principal)
        decreases rest
      {
        var sid :| sid in rest;
        assert strategIds - (rest - {sid}) == (strategIds - rest) + {sid};
        SomeNamesStep(Details(strategys), strategIds - rest, sid, principal);
        rest := rest - {sid};
        if sid in strategys {
          var rule := strategys[sid];
          NamesByRole(rule.detail, principal);
          var named := if principal.tag == PRINCIPAL_USER then rule.users else rule.groups;
          var exist := principal.id in named;
          editable := editable || exist;
        }
      }
      assert strategIds - {} == strategIds;
    }

    /** `IsResourceEditable`. */
    method IsResourceEditable(principal: Item, resType: int, resId: string, userCache: UserGroups.UserCache)
      returns (editable: bool)
      requires Valid()
      ensures editable <==> EditableIndexed(View(), LinkedGroups(userCache, principal), principal,
                                            ResourceEndpoint(Item(resType, resId)))
      ensures Inverse(View()) ==>
                (editable <==> EditableNaive(View().strategies, LinkedGroups(userCache, principal), principal,
                                             ResourceEndpoint(Item(resType, resId))))
      ensures Inverse(View()) && UserGroups.Exact(userCache.View()) ==>
                (editable <==> ByMembership(View().strategies, userCache.View(), principal,
                                            ResourceEndpoint(Item(resType, resId))))
    {
      hide CheckEditable, Inverse, EditableNaive, ByMembership;
      var e := ResourceEndpoint(Item(resType, resId));
      var bucket := links.Of(e.kind);
      ghost var groups := LinkedGroups(userCache, principal);
      if Inverse(View()) {
        IndexedIsNaive(View(), groups, principal, resType, resId);
        if UserGroups.Exact(userCache.View()) { DecisionByMembers(View().strategies, userCache.View(), principal, e); }
      }
      if e.id !in bucket {
        return true;
      }
      var val := bucket[e.id];
      var valAll: set<string> := if "*" in bucket then bucket["*"] else {};
      var principals := [principal];
      if principal.tag == PRINCIPAL_USER {
        var groupids := userCache.GetUserLinkGroupIds(principal.id);
        principals := principals + Groups(groupids);
        GroupsAct(principal, groupids, groups);
      }
      assert forall q :: q in principals <==> ActsAs(principal, groups, q);
      for i := 0 to |principals|
        invariant forall j :: 0 <= j < i ==>
                    !CheckEditable(View().strategies, valAll, principals[j], true) &&
                    !CheckEditable(View().strategies, val, principals[j], false)
      {
        var wide := CheckResourceEditable(valAll, principals[i], true);
        var own := CheckResourceEditable(val, principals[i], false);
        if wide || own {
          assert principals[i] in principals;
          return true;
        }
      }
      return false;
    }

    /** `getStrategyDetails`: the strategies that name the user, or else the group, no more of
        them than there are links. */
    method GetStrategyDetails(uid: string, gid: string) returns (r: seq<Strategy>)
      requires Valid()
      ensures Inverse(View()) ==> forall s :: s in r <==> NamedBy(View().strategies, uid, gid, s)
      ensures |r| <= |LinkedIds(links, PrincipalEndpoint(Asked(uid, gid)))|
    {
      hide Inverse, NamedBy, Among;
      AmongNothing(Details(strategys));
      r := [];
      if uid == "" && gid == "" {
        NobodyNamed(View().strategies);
        return;
      }
      var p := Asked(uid, gid);
      var e := PrincipalEndpoint(p);
      var bucket := links.Of(e.kind);
      if Inverse(View()) { NamedByLinks(View(), uid, gid, p); }
      var rest: set<string> := if e.id in bucket then bucket[e.id] else {};
      ghost var ids := rest;
      assert ids - rest == {};
      while rest != {}
        invariant rest <= ids
        invariant forall s :: s in r <==> Among(Details(strategys), ids - rest, s)
        invariant |r| + |rest| <= |ids|
        decreases rest
      {
        var sid :| sid in rest;
        assert ids - (rest - {sid}) == (ids - rest) + {sid};
        AmongStep(Details(strategys), ids - rest, sid);
        rest := rest - {sid};
        if sid in strategys {
          r := r + [strategys[sid].detail];
        }
      }
      assert ids - {} == ids;
    }
  }

  ghost predicate SomeNames(strategies: Strategies, ids: set<string>, p: Item) {
    exists sid :: sid in ids && sid in strategies && Names(strategies[sid], p)
  }

  lemma SomeNamesStep(strategies: Strategies, ids: set<string>, sid: string, p: Item)
    ensures SomeNames(strategies, ids + {sid}, p) <==>
            SomeNames(strategies, ids, p) || (sid in strategies && Names(strategies[sid], p))
  {
  }

  ghost function LinkedGroups(userCache: UserGroups.UserCache, p: Item): set<string>
    reads userCache
  {
    LinkedOf(userCache.View(), p)
  }

  function LinkedOf(u: UserGroups.State, p: Item): set<string> {
    if p.id == "" || p.id !in u.links then {} else u.links[p.id]
  }

  /** The live groups that list the user. */
  function MemberGroups(u: UserGroups.State, p: Item): set<string> {
    set g | g in u.groups && p.id != "" && p.id in u.groups[g]
  }

  /** Links left over from groups that are gone. */
  function DeadLinks(u: UserGroups.State, p: Item): set<string> {
    LinkedOf(u, p) - u.groups.Keys
  }

  /** Allowed to the groups the user is in, or to a group that is gone and was left linked. */
  ghost predicate ByMembership(strategies: Strategies, u: UserGroups.State, p: Item, e: Endpoint) {
    EditableNaive(strategies, MemberGroups(u, p), p, e) || GrantedBy(strategies, DeadLinks(u, p), p, e)
  }

  /** The decision with the linked groups is the one with the groups the user is in, except for
      what strategies grant to groups that are gone. */
  lemma DecisionByMembers(strategies: Strategies, u: UserGroups.State, p: Item, e: Endpoint)
    requires UserGroups.Exact(u)
    ensures EditableNaive(strategies, LinkedOf(u, p), p, e) <==> ByMembership(strategies, u, p, e)
  {
    hide EditableNaive, GrantedBy;
    assert forall g :: UserGroups.Has(u.links, p.id, g) <==> p.id in u.links && g in u.links[p.id];
    assert LinkedOf(u, p) == MemberGroups(u, p) + DeadLinks(u, p);
    DecisionSplits(strategies, MemberGroups(u, p), DeadLinks(u, p), p, e);
  }

  /** A user whose only group was deleted is still allowed what a strategy grants to the group. */
  lemma DeadGroupStillGrants()
    ensures var u := UserGroups.DeliverAll(UserGroups.Empty, [UserGroups.Group("g", {"u"}, true, 1),
                                                              UserGroups.Group("g", {"u"}, false, 2)]);
            var rule := Strategy("s", [Item(RES_SERVICES, "r")], [Item(PRINCIPAL_GROUP, "g")], true, 1);
            var strategies := SetBatch(Empty, [rule]).strategies;
            var user, e := Item(PRINCIPAL_USER, "u"), ResourceEndpoint(Item(RES_SERVICES, "r"));
            && MemberGroups(u, user) == {} && !EditableNaive(strategies, MemberGroups(u, user), user, e)
            && EditableNaive(strategies, LinkedOf(u, user), user, e)
  {
    var here, gone := UserGroups.Group("g", {"u"}, true, 1), UserGroups.Group("g", {"u"}, false, 2);
    assert [here, gone][..1] == [here] && [here][..0] == [];
    var u1 := UserGroups.Deliver(UserGroups.Empty, here);
    var u := UserGroups.Deliver(u1, gone);
    assert UserGroups.DeliverAll(UserGroups.Empty, [here]) == u1;
    assert UserGroups.DeliverAll(UserGroups.Empty, [here, gone]) == u;
    UserGroups.DeliverEffect(UserGroups.Empty, here, "u", "g");
    UserGroups.DeliverEffect(u1, gone, "u", "g");
    GrantedToGroup(u);
  }

  lemma GrantedToGroup(u: UserGroups.State)
    requires u.groups == map[] && UserGroups.Has(u.links, "u", "g")
    ensures var rule := Strategy("s", [Item(RES_SERVICES, "r")], [Item(PRINCIPAL_GROUP, "g")], true, 1);
            var strategies := SetBatch(Empty, [rule]).strategies;
            var user, e := Item(PRINCIPAL_USER, "u"), ResourceEndpoint(Item(RES_SERVICES, "r"));
            && MemberGroups(u, user) == {} && !EditableNaive(strategies, MemberGroups(u, user), user, e)
            && EditableNaive(strategies, LinkedOf(u, user), user, e)
  {
    var rule := Strategy("s", [Item(RES_SERVICES, "r")], [Item(PRINCIPAL_GROUP, "g")], true, 1);
    var strategies := SetBatch(Empty, [rule]).strategies;
    assert strategies == map["s" := rule] by {
      assert [rule][..0] == [];
      assert ReplaceBatch(map[], [rule]) == ReplaceBatch(map[], [])["s" := rule];
    }
    var user, group := Item(PRINCIPAL_USER, "u"), Item(PRINCIPAL_GROUP, "g");
    var e := ResourceEndpoint(Item(RES_SERVICES, "r"));
    OnlyItem(ResourceEndpoint, Item(RES_SERVICES, "r"));
    OnlyItem(PrincipalEndpoint, group);
    assert Covers(rule, e) && Names(rule, group) && !Names(rule, user);
    hide SetBatch, Lists, Names, Covers;
    assert ActsAs(user, LinkedOf(u, user), group) && Grants(strategies, "s", group, e);
    assert MemberGroups(u, user) == {};
    assert forall q :: ActsAs(user, {}, q) ==> q == user;
    assert forall sid :: !Grants(strategies, sid, user, e);
  }

  lemma OnlyItem(file: Filing, item: Item)
    ensures forall e :: Lists([item], file, e) <==> e == file(item)
  {
    assert EndpointsOf(file, [item]) == [file(item)];
  }

  function Groups(ids: seq<string>): (r: seq<Item>)
    ensures |r| == |ids| && forall i :: 0 <= i < |ids| ==> r[i] == Item(PRINCIPAL_GROUP, ids[i])
  {
    seq(|ids|, i requires 0 <= i < |ids| => Item(PRINCIPAL_GROUP, ids[i]))
  }

  lemma GroupsAct(p: Item, ids: seq<string>, groups: set<string>)
    requires p.tag == PRINCIPAL_USER && forall g :: g in ids <==> g in groups
    ensures forall q :: q in [p] + Groups(ids) <==> ActsAs(p, groups, q)
  {
  }

  /** The user when there is one, else the group. */
  function Asked(uid: string, gid: string): Item {
    if uid != "" then Item(PRINCIPAL_USER, uid) else Item(PRINCIPAL_GROUP, gid)
  }

  ghost predicate NamedBy(strategies: Strategies, uid: string, gid: string, s: Strategy) {
    && (uid != "" || gid != "")
    && Names(s, Asked(uid, gid))
    && exists sid :: sid in strategies && strategies[sid] == s
  }

  lemma NamedByLinks(s: State, uid: string, gid: string, p: Item)
    requires Inverse(s) && (uid != "" || gid != "")
    requires p == Asked(uid, gid)
    ensures forall v :: NamedBy(s.strategies, uid, gid, v) <==>
              Among(s.strategies, LinkedIds(s.links, PrincipalEndpoint(p)), v)
  {
  }

  lemma NobodyNamed(strategies: Strategies)
    ensures forall v :: !NamedBy(strategies, "", "", v)
  {
  }

  function LinkedIds(b: Buckets, e: Endpoint): set<string> {
    if e.id in b.Of(e.kind) then b.Of(e.kind)[e.id] else {}
  }

  ghost predicate Among(strategies: Strategies, ids: set<string>, s: Strategy) {
    exists sid :: sid in ids && sid in strategies && strategies[sid] == s
  }

  lemma AmongNothing(strategies: Strategies)
    ensures forall s :: !Among(strategies, {}, s)
  {
  }

  lemma AmongStep(strategies: Strategies, ids: set<string>, sid: string)
    ensures forall s :: Among(strategies, ids + {sid}, s) <==>
              Among(strategies, ids, s) || (sid in strategies && strategies[sid] == s)
  {
  }
}
