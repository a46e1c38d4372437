/**
 User groups and the reverse index from users to their groups (cache/user.go,
 cache/user_bucket.go).

 A delivery of a live group updates both; a delivery of a deleted group only forgets the
 group and leaves its members' links behind.
 */
module UserGroups {

  datatype Group = Group(id: string, users: set<string>, valid: bool, mtime: int)

  type GroupMap = map<string, set<string>>

  /** groups: group id -> users; links: user id -> group ids. */
  datatype State = State(groups: GroupMap, links: GroupMap)

  const Empty := State(map[], map[])

  predicate Has(links: GroupMap, user: string, group: string) {
    user in links && group in links[user]
  }

  /** Takes the group away from users that have an entry. */
  function DropFrom(links: GroupMap, users: set<string>, group: string): GroupMap {
    map u | u in links :: if u in users then links[u] - {group} else links[u]
  }

  /** Gives the group to the users, creating entries where missing. */
  function GiveTo(links: GroupMap, users: set<string>, group: string): GroupMap {
    map u | u in links.Keys + users ::
      (if u in links then links[u] else {}) + (if u in users then {group} else {})
  }

  function Deliver(s: State, g: Group): State {
    if !g.valid then s.(groups := s.groups - {g.id})
    else
      var was := if g.id in s.groups then s.groups[g.id] else {};
      State(s.groups[g.id := g.users], GiveTo(DropFrom(s.links, was - g.users, g.id), g.users, g.id))
  }

  function DeliverAll(s: State, batch: seq<Group>): State {
    if batch == [] then s else Deliver(DeliverAll(s, batch[..|batch| - 1]), batch[|batch| - 1])
  }

  lemma DeliverEffect(s: State, g: Group, user: string, group: string)
    ensures Has(Deliver(s, g).links, user, group) <==>
            if !g.valid || group != g.id then Has(s.links, user, group)
            else user in g.users ||
                 (Has(s.links, user, group) && !(g.id in s.groups && user in s.groups[g.id]))
  {
  }

  // ---------------------------------------------------------------- the two directions

  /** Every member of a live group has the group in the reverse index. */
  ghost predicate Complete(s: State) {
    forall g, u :: g in s.groups && u in s.groups[g] ==> Has(s.links, u, g)
  }

  /** For live groups the reverse index says exactly who is a member. */
  ghost predicate Exact(s: State) {
    forall g, u :: g in s.groups ==> (Has(s.links, u, g) <==> u in s.groups[g])
  }

  lemma DeliverKeepsComplete(s: State, g: Group)
    requires Complete(s)
    ensures Complete(Deliver(s, g))
  {
  }

  lemma {:induction false} AlwaysComplete(batch: seq<Group>)
    ensures Complete(DeliverAll(Empty, batch))
  {
    hide Complete, Deliver;
    if batch == [] {
      EmptyIsExact();
    } else {
      AlwaysComplete(batch[..|batch| - 1]);
      DeliverKeepsComplete(DeliverAll(Empty, batch[..|batch| - 1]), batch[|batch| - 1]);
    }
  }

  lemma EmptyIsExact()
    ensures Exact(Empty) && Complete(Empty)
  {
  }

  /** A group that comes back claims everyone who was left linked to it. */
  ghost predicate ClaimsLeftovers(s: State, g: Group) {
    g.valid && g.id !in s.groups ==> forall u :: Has(s.links, u, g.id) ==> u in g.users
  }

  /** A delivery keeps the index exact if and only if a returning group does not come back
      without a member it had when it was deleted. */
  lemma DeliverExactIff(s: State, g: Group)
    requires Exact(s)
    ensures Exact(Deliver(s, g)) <==> ClaimsLeftovers(s, g)
  {
    hide Has;
    var s' := Deliver(s, g);
    if ClaimsLeftovers(s, g) {
      forall h, u | h in s'.groups ensures Has(s'.links, u, h) <==> u in s'.groups[h] {
        DeliverEffect(s, g, u, h);
      }
    } else {
      var u :| Has(s.links, u, g.id) && u !in g.users;
      DeliverEffect(s, g, u, g.id);
      assert g.id in s'.groups && !(Has(s'.links, u, g.id) <==> u in s'.groups[g.id]);
    }
  }

  // ---------------------------------------------------------------- whole runs

  /** No group is delivered as live after having been deleted. */
  ghost predicate NeverReturns(batch: seq<Group>) {
    forall i, j, k :: 0 <= i < j < k < |batch| && batch[i].id == batch[j].id == batch[k].id ==>
      !(batch[i].valid && !batch[j].valid && batch[k].valid)
  }

  /** A link or a live group goes back to a live delivery; a link to a dead group, to a
      deletion after that. */
  lemma {:induction false} LinkOrigin(batch: seq<Group>, n: nat, user: string, group: string)
    requires n <= |batch| && Has(DeliverAll(Empty, batch[..n]).links, user, group)
    ensures exists i :: 0 <= i < n && batch[i].id == group && batch[i].valid
    ensures group !in DeliverAll(Empty, batch[..n]).groups ==>
              exists i, j :: 0 <= i < j < n && batch[i].id == batch[j].id == group && batch[i].valid && !batch[j].valid
  {
    hide Has;
    if n == 0 {
      assert batch[..0] == [];
      NothingLinked(user, group);
    } else {
      var g := batch[n - 1];
      assert batch[..n][..n - 1] == batch[..n - 1];
      var s := DeliverAll(Empty, batch[..n - 1]);
      DeliverEffect(s, g, user, group);
      if g.valid && g.id == group {
        assert batch[n - 1].id == group && batch[n - 1].valid;
      } else {
        LinkOrigin(batch, n - 1, user, group);
        if !g.valid && g.id == group {
          var i :| 0 <= i < n - 1 && batch[i].id == group && batch[i].valid;
          assert batch[i].id == batch[n - 1].id == group && !batch[n - 1].valid;
        }
      }
    }
  }

  lemma NothingLinked(user: string, group: string)
    ensures !Has(map[], user, group)
  {
  }

  lemma {:induction false} NeverReturningExact(batch: seq<Group>, n: nat)
    requires n <= |batch| && NeverReturns(batch)
    ensures Exact(DeliverAll(Empty, batch[..n]))
  {
    hide Exact, Deliver;
    if n == 0 {
      assert batch[..0] == [];
      EmptyIsExact();
    } else {
      NeverReturningExact(batch, n - 1);
      assert batch[..n][..n - 1] == batch[..n - 1];
      var s, g := DeliverAll(Empty, batch[..n - 1]), batch[n - 1];
      if g.valid && g.id !in s.groups {
        forall u ensures !Has(s.links, u, g.id) {
          if Has(s.links, u, g.id) {
            LinkOrigin(batch, n - 1, u, g.id);
            assert false;
          }
        }
      }
      DeliverExactIff(s, g);
    }
  }

  ghost predicate ClaimingAt(batch: seq<Group>, i: nat)
    requires i < |batch|
  {
    ClaimsLeftovers(DeliverAll(Empty, batch[..i]), batch[i])
  }

  /** Along any run of deliveries the two indexes agree on live groups at every moment if and
      only if every group that returns claims everyone who was left linked to it. */
  lemma AlwaysExactIff(batch: seq<Group>)
    ensures (forall i :: 0 <= i <= |batch| ==> Exact(DeliverAll(Empty, batch[..i])))
            <==> forall i :: 0 <= i < |batch| ==> ClaimingAt(batch, i)
  {
    hide Exact, Deliver, ClaimsLeftovers;
    if forall i :: 0 <= i <= |batch| ==> Exact(DeliverAll(Empty, batch[..i])) {
      forall i | 0 <= i < |batch| ensures ClaimingAt(batch, i) {
        assert batch[..i + 1][..i] == batch[..i];
        DeliverExactIff(DeliverAll(Empty, batch[..i]), batch[i]);
      }
    }
    if forall i :: 0 <= i < |batch| ==> ClaimingAt(batch, i) {
      forall i | 0 <= i <= |batch| ensures Exact(DeliverAll(Empty, batch[..i])) { ClaimingExact(batch, i); }
    }
  }

  lemma {:induction false} ClaimingExact(batch: seq<Group>, n: nat)
    requires n <= |batch| && forall i :: 0 <= i < n ==> ClaimingAt(batch, i)
    ensures Exact(DeliverAll(Empty, batch[..n]))
  {
    hide Exact, Deliver, ClaimsLeftovers;
    if n == 0 {
      assert batch[..0] == [];
      EmptyIsExact();
    } else {
      ClaimingExact(batch, n - 1);
      assert batch[..n][..n - 1] == batch[..n - 1];
      assert ClaimingAt(batch, n - 1);
      DeliverExactIff(DeliverAll(Empty, batch[..n - 1]), batch[n - 1]);
    }
  }

  /** A group is deleted and comes back without its former member, who stays linked to it. */
  lemma FormerMemberStaysLinked()
    ensures var here, gone, back := Group("g", {"u"}, true, 1), Group("g", {"u"}, false, 2), Group("g", {}, true, 3);
            var s := DeliverAll(Empty, [here, gone, back]);
            "g" in s.groups && "u" !in s.groups["g"] && Has(s.links, "u", "g")
  {
    var here, gone, back := Group("g", {"u"}, true, 1), Group("g", {"u"}, false, 2), Group("g", {}, true, 3);
    assert [here, gone, back][..2] == [here, gone] && [here, gone][..1] == [here] && [here][..0] == [];
    var s1 := Deliver(Empty, here);
    var s2 := Deliver(s1, gone);
    assert DeliverAll(Empty, [here]) == s1;
    assert DeliverAll(Empty, [here, gone]) == s2;
    DeliverEffect(Empty, here, "u", "g");
    DeliverEffect(s1, gone, "u", "g");
    DeliverEffect(s2, back, "u", "g");
  }

  // ---------------------------------------------------------------- the cache

  class UserCache {
    var groups: GroupMap
    var user2Groups: GroupMap

    ghost function View(): State
      reads this
    {
      State(groups, user2Groups)
    }

    constructor ()
      ensures View() == Empty
    {
      groups, user2Groups := map[], map[];
    }

    /** One group of `handlerGroupCacheUpdate`. */
    method UpdateGroup(group: Group)
      modifies this
      ensures View() == Deliver(old(View()), group)
    {
      if !group.valid {
        groups := groups - {group.id};
        return;
      }
      var oldUsers: set<string> := if group.id in groups then groups[group.id] else {};
      groups := groups[group.id := group.users];
      var dropped := DropLinks(user2Groups, oldUsers - group.users, group.id);
      user2Groups := GiveLinks(dropped, group.users, group.id);
    }

    method HandlerGroupCacheUpdate(batch: seq<Group>)
      modifies this
      ensures View() == DeliverAll(old(View()), batch)
    {
      hide Deliver;
      for i := 0 to |batch|
        invariant View() == DeliverAll(old(View()), batch[..i])
      {
        assert batch[..i + 1][..i] == batch[..i];
        UpdateGroup(batch[i]);
      }
      assert batch[..|batch|] == batch;
    }

    method IsUserInGroup(userId: string, groupId: string) returns (r: bool)
      ensures r <==> groupId != "" && groupId in groups && userId in groups[groupId]
      ensures Exact(View()) && groupId != "" && groupId in groups ==> (r <==> Has(user2Groups, userId, groupId))
    {
      r := groupId != "" && groupId in groups && userId in groups[groupId];
    }

    /** The linked groups, each once, in whatever order the map yields them. */
    method GetUserLinkGroupIds(userId: string) returns (r: seq<string>)
      ensures forall g :: g in r <==> userId != "" && Has(user2Groups, userId, g)
      ensures forall i, j :: 0 <= i < j < |r| ==> r[i] != r[j]
      ensures Exact(View()) && userId != "" ==> forall g :: g in groups ==> (g in r <==> userId in groups[g])
    {
      r := [];
      if userId == "" || userId !in user2Groups { return; }
      var rest := user2Groups[userId];
      while rest != {}
        invariant rest <= user2Groups[userId]
        invariant forall g :: g in r <==> g in user2Groups[userId] && g !in rest
        invariant forall i, j :: 0 <= i < j < |r| ==> r[i] != r[j]
        decreases rest
      {
        var g :| g in rest;
        r := r + [g];
        rest := rest - {g};
      }
    }
  }

  method DropLinks(links: GroupMap, users: set<string>, group: string) returns (r: GroupMap)
    ensures r == DropFrom(links, users, group)
  {
    r := links;
    var rest := users;
    while rest != {}
      invariant rest <= users && r == DropFrom(links, users - rest, group)
      decreases rest
    {
      var u :| u in rest;
      if u in r {
        r := r[u := r[u] - {group}];
      }
      rest := rest - {u};
    }
    assert users - {} == users;
  }

  method GiveLinks(links: GroupMap, users: set<string>, group: string) returns (r: GroupMap)
    ensures r == GiveTo(links, users, group)
  {
    r := links;
    var rest := users;
    assert GiveTo(links, users - users, group) == links by {
      assert forall u :: u in links ==> links[u] + {} == links[u];
    }
    while rest != {}
      invariant rest <= users && r == GiveTo(links, users - rest, group)
      decreases rest
    {
      var u :| u in rest;
      if u !in r {
        r := r[u := {}];
      }
      r := r[u := r[u] + {group}];
      rest := rest - {u};
    }
    assert users - {} == users;
  }
}
