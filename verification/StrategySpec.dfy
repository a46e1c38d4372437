/**
 Authorisation strategies and their inverted indexes (cache/strategy.go,
 cache/strategy_bucket.go), on values.

 A strategy lists resources and principals. Five link buckets answer the inverse question:
 which strategies mention this namespace, service, config group, user or user group. A batch
 of strategies is handled by first diffing every rule's lists against the old rule and
 relinking, and only then replacing the rules.
 */
module StrategySpec {
  import opened Keys

  const RES_NAMESPACES := 0
  const RES_SERVICES := 1
  const RES_CONFIG_GROUPS := 2
  const PRINCIPAL_USER := 1
  const PRINCIPAL_GROUP := 2

  /** A resource (type, id) or a principal (role, id). */
  datatype Item = Item(tag: int, id: string)

  datatype Strategy = Strategy(id: string, resources: seq<Item>, principals: seq<Item>, valid: bool, mtime: int)

  type Strategies = map<string, Strategy>

  // ---------------------------------------------------------------- link buckets

  /** link id -> strategy ids; an emptied entry is removed. */
  type Links = map<string, set<string>>

  function SaveLink(l: Links, link: string, sid: string): Links {
    l[link := (if link in l then l[link] else {}) + {sid}]
  }

  function DeleteLink(l: Links, link: string, sid: string): Links {
    if link !in l then l
    else if l[link] - {sid} == {} then l - {link}
    else l[link := l[link] - {sid}]
  }

  datatype Kind = OnNamespace | OnService | OnConfigGroup | ForUser | ForGroup | Nowhere

  /** What a link is filed under; `Nowhere` for a resource type without a bucket. */
  datatype Endpoint = Endpoint(kind: Kind, id: string)

  function ResourceEndpoint(r: Item): Endpoint {
    Endpoint(if r.tag == RES_NAMESPACES then OnNamespace
             else if r.tag == RES_SERVICES then OnService
             else if r.tag == RES_CONFIG_GROUPS then OnConfigGroup
             else Nowhere, r.id)
  }

  function PrincipalEndpoint(p: Item): Endpoint {
    Endpoint(if p.tag == PRINCIPAL_USER then ForUser else ForGroup, p.id)
  }

  datatype Buckets = Buckets(namespaces: Links, services: Links, configGroups: Links, users: Links, groups: Links) {
    function Of(k: Kind): Links {
      match k
      case OnNamespace => namespaces
      case OnService => services
      case OnConfigGroup => configGroups
      case ForUser => users
      case ForGroup => groups
      case Nowhere => map[]
    }

    function With(k: Kind, l: Links): Buckets {
      match k
      case OnNamespace => this.(namespaces := l)
      case OnService => this.(services := l)
      case OnConfigGroup => this.(configGroups := l)
      case ForUser => this.(users := l)
      case ForGroup => this.(groups := l)
      case Nowhere => this
    }
  }

  const NoLinks := Buckets(map[], map[], map[], map[], map[])

  predicate Linked(b: Buckets, e: Endpoint, sid: string) {
    e.id in b.Of(e.kind) && sid in b.Of(e.kind)[e.id]
  }

  ghost predicate NoEmptyEntry(b: Buckets) {
    forall k, id :: id in b.Of(k) ==> b.Of(k)[id] != {}
  }

  function Link(b: Buckets, e: Endpoint, sid: string): Buckets {
    b.With(e.kind, SaveLink(b.Of(e.kind), e.id, sid))
  }

  function Unlink(b: Buckets, e: Endpoint, sid: string): Buckets {
    b.With(e.kind, DeleteLink(b.Of(e.kind), e.id, sid))
  }

  function OfWith(b: Buckets, k: Kind, l: Links, q: Kind): (r: Links)
    ensures r == b.With(k, l).Of(q)
  {
    if q == k && k != Nowhere then l else b.Of(q)
  }

  lemma LinkEffect(b: Buckets, e: Endpoint, sid: string, f: Endpoint, s: string)
    ensures Linked(Link(b, e, sid), f, s) <==> Linked(b, f, s) || (f == e && s == sid && e.kind != Nowhere)
  {
    assert OfWith(b, e.kind, SaveLink(b.Of(e.kind), e.id, sid), f.kind) == Link(b, e, sid).Of(f.kind);
  }

  lemma UnlinkEffect(b: Buckets, e: Endpoint, sid: string, f: Endpoint, s: string)
    ensures Linked(Unlink(b, e, sid), f, s) <==> Linked(b, f, s) && !(f == e && s == sid)
  {
    assert OfWith(b, e.kind, DeleteLink(b.Of(e.kind), e.id, sid), f.kind) == Unlink(b, e, sid).Of(f.kind);
    if Linked(b, f, s) && f == e && s != sid { assert s in b.Of(e.kind)[e.id] - {sid}; }
  }

  lemma NoEmptyKept(b: Buckets, e: Endpoint, sid: string)
    requires NoEmptyEntry(b)
    ensures NoEmptyEntry(Link(b, e, sid)) && NoEmptyEntry(Unlink(b, e, sid))
  {
    forall k, id | id in Link(b, e, sid).Of(k) ensures Link(b, e, sid).Of(k)[id] != {} {
      assert OfWith(b, e.kind, SaveLink(b.Of(e.kind), e.id, sid), k) == Link(b, e, sid).Of(k);
      if k == e.kind && id == e.id { assert sid in Link(b, e, sid).Of(k)[id]; }
    }
    forall k, id | id in Unlink(b, e, sid).Of(k) ensures Unlink(b, e, sid).Of(k)[id] != {} {
      assert OfWith(b, e.kind, DeleteLink(b.Of(e.kind), e.id, sid), k) == Unlink(b, e, sid).Of(k);
    }
  }

  // ---------------------------------------------------------------- one rule

  function LinkAll(b: Buckets, sid: string, es: seq<Endpoint>): Buckets {
    if es == [] then b else Link(LinkAll(b, sid, es[..|es| - 1]), es[|es| - 1], sid)
  }

  function UnlinkAll(b: Buckets, sid: string, es: seq<Endpoint>): Buckets {
    if es == [] then b else Unlink(UnlinkAll(b, sid, es[..|es| - 1]), es[|es| - 1], sid)
  }

  lemma {:induction false} LinkAllEffect(b: Buckets, sid: string, es: seq<Endpoint>, f: Endpoint, s: string)
    ensures Linked(LinkAll(b, sid, es), f, s) <==> Linked(b, f, s) || (f in es && s == sid && f.kind != Nowhere)
  {
    hide Linked, Link;
    if es != [] {
      LinkAllEffect(b, sid, es[..|es| - 1], f, s);
      LinkEffect(LinkAll(b, sid, es[..|es| - 1]), es[|es| - 1], sid, f, s);
      assert es == es[..|es| - 1] + [es[|es| - 1]];
    }
  }

  lemma {:induction false} UnlinkAllEffect(b: Buckets, sid: string, es: seq<Endpoint>, f: Endpoint, s: string)
    ensures Linked(UnlinkAll(b, sid, es), f, s) <==> Linked(b, f, s) && !(f in es && s == sid)
  {
    hide Linked, Unlink;
    if es != [] {
      UnlinkAllEffect(b, sid, es[..|es| - 1], f, s);
      UnlinkEffect(UnlinkAll(b, sid, es[..|es| - 1]), es[|es| - 1], sid, f, s);
      assert es == es[..|es| - 1] + [es[|es| - 1]];
    }
  }

  lemma {:induction false} AllKeepNoEmpty(b: Buckets, sid: string, es: seq<Endpoint>)
    requires NoEmptyEntry(b)
    ensures NoEmptyEntry(LinkAll(b, sid, es)) && NoEmptyEntry(UnlinkAll(b, sid, es))
  {
    hide NoEmptyEntry, Link, Unlink;
    if es != [] {
      AllKeepNoEmpty(b, sid, es[..|es| - 1]);
      NoEmptyKept(LinkAll(b, sid, es[..|es| - 1]), es[|es| - 1], sid);
      NoEmptyKept(UnlinkAll(b, sid, es[..|es| - 1]), es[|es| - 1], sid);
    }
  }

  function ItemKey(i: Item): string { TaggedKey(i.tag, i.id) }

  function KeySet(items: seq<Item>): set<string> {
    set i | 0 <= i < |items| :: ItemKey(items[i])
  }

  /** The items of the old rule whose key the new rule does not have. */
  function Dropped(was: seq<Item>, now: seq<Item>): seq<Item> {
    if was == [] then []
    else
      var rest, last := Dropped(was[..|was| - 1], now), was[|was| - 1];
      if ItemKey(last) in KeySet(now) then rest else rest + [last]
  }

  lemma {:induction false} DroppedExactly(was: seq<Item>, now: seq<Item>, i: Item)
    ensures i in Dropped(was, now) <==> i in was && i !in now
  {
    if was != [] {
      var last := was[|was| - 1];
      DroppedExactly(was[..|was| - 1], now, i);
      assert was == was[..|was| - 1] + [last];
      forall j | 0 <= j < |now| ensures ItemKey(now[j]) == ItemKey(last) <==> now[j] == last {
        TaggedKeyInjective(now[j].tag, now[j].id, last.tag, last.id);
      }
    }
  }

  type Filing = Item -> Endpoint

  function EndpointsOf(file: Filing, items: seq<Item>): (es: seq<Endpoint>)
    ensures |es| == |items| && forall i :: 0 <= i < |items| ==> es[i] == file(items[i])
  {
    seq(|items|, i requires 0 <= i < |items| => file(items[i]))
  }

  /** One rule: drop what it no longer lists, then link what it lists, or unlink it all
      when the rule is deleted. */
  function Relink(b: Buckets, sid: string, was: seq<Item>, now: seq<Item>, valid: bool, file: Filing): Buckets {
    var cleaned := UnlinkAll(b, sid, EndpointsOf(file, Dropped(was, now)));
    if valid then LinkAll(cleaned, sid, EndpointsOf(file, now)) else UnlinkAll(cleaned, sid, EndpointsOf(file, now))
  }

  predicate Lists(items: seq<Item>, file: Filing, e: Endpoint) {
    e in EndpointsOf(file, items)
  }

  /** If the rule's links were right before, they are right after, whatever changed in it. */
  lemma RelinkCorrect(b: Buckets, sid: string, was: seq<Item>, now: seq<Item>, valid: bool, file: Filing, e: Endpoint)
    requires e.kind != Nowhere
    requires Linked(b, e, sid) ==> Lists(was, file, e)
    ensures Linked(Relink(b, sid, was, now, valid, file), e, sid) <==> valid && Lists(now, file, e)
  {
    hide Linked, LinkAll, UnlinkAll;
    var dropped := EndpointsOf(file, Dropped(was, now));
    var cleaned := UnlinkAll(b, sid, dropped);
    UnlinkAllEffect(b, sid, dropped, e, sid);
    LinkAllEffect(cleaned, sid, EndpointsOf(file, now), e, sid);
    UnlinkAllEffect(cleaned, sid, EndpointsOf(file, now), e, sid);
    if Linked(b, e, sid) && !Lists(now, file, e) {
      // listed by the old rule only, hence dropped
      var i :| 0 <= i < |was| && file(was[i]) == e;
      DroppedExactly(was, now, was[i]);
      var j :| 0 <= j < |Dropped(was, now)| && Dropped(was, now)[j] == was[i];
      assert dropped[j] == e;
    }
  }

  /** Nothing else is touched: not another strategy's links, not another kind of endpoint. */
  lemma RelinkFrame(b: Buckets, sid: string, was: seq<Item>, now: seq<Item>, valid: bool, file: Filing,
                    e: Endpoint, s: string)
    requires s != sid || (!Lists(was, file, e) && !Lists(now, file, e))
    ensures Linked(Relink(b, sid, was, now, valid, file), e, s) <==> Linked(b, e, s)
  {
    hide Linked, LinkAll, UnlinkAll;
    var dropped := EndpointsOf(file, Dropped(was, now));
    var cleaned := UnlinkAll(b, sid, dropped);
    UnlinkAllEffect(b, sid, dropped, e, s);
    LinkAllEffect(cleaned, sid, EndpointsOf(file, now), e, s);
    UnlinkAllEffect(cleaned, sid, EndpointsOf(file, now), e, s);
    if j :| 0 <= j < |dropped| && dropped[j] == e {
      DroppedExactly(was, now, Dropped(was, now)[j]);
      var i :| 0 <= i < |was| && was[i] == Dropped(was, now)[j];
      assert EndpointsOf(file, was)[i] == e;
    }
  }

  lemma RelinkNoEmpty(b: Buckets, sid: string, was: seq<Item>, now: seq<Item>, valid: bool, file: Filing)
    requires NoEmptyEntry(b)
    ensures NoEmptyEntry(Relink(b, sid, was, now, valid, file))
  {
    hide NoEmptyEntry, LinkAll, UnlinkAll;
    var dropped := EndpointsOf(file, Dropped(was, now));
    AllKeepNoEmpty(b, sid, dropped);
    AllKeepNoEmpty(UnlinkAll(b, sid, dropped), sid, EndpointsOf(file, now));
  }

  // ---------------------------------------------------------------- a batch

  type Listing = Strategy -> seq<Item>

  function ResourcesOf(s: Strategy): seq<Item> { s.resources }

  function PrincipalsOf(s: Strategy): seq<Item> { s.principals }

  function OldItems(strategies: Strategies, id: string, list: Listing): seq<Item> {
    if id in strategies then list(strategies[id]) else []
  }

  /** Every rule of the batch, each against the rules cached before the batch. */
  function RelinkBatch(b: Buckets, strategies: Strategies, batch: seq<Strategy>, list: Listing, file: Filing): Buckets {
    if batch == [] then b
    else
      var r := batch[|batch| - 1];
      Relink(RelinkBatch(b, strategies, batch[..|batch| - 1], list, file),
             r.id, OldItems(strategies, r.id, list), list(r), r.valid, file)
  }

  function ReplaceBatch(strategies: Strategies, batch: seq<Strategy>): Strategies {
    if batch == [] then strategies
    else
      var before, r := ReplaceBatch(strategies, batch[..|batch| - 1]), batch[|batch| - 1];
      if r.valid then before[r.id := r] else before - {r.id}
  }

  datatype State = State(strategies: Strategies, links: Buckets)

  const Empty := State(map[], NoLinks)

  /** `setStrategys`. */
  function SetBatch(s: State, batch: seq<Strategy>): State {
    var resources := RelinkBatch(s.links, s.strategies, batch, ResourcesOf, ResourceEndpoint);
    var both := RelinkBatch(resources, s.strategies, batch, PrincipalsOf, PrincipalEndpoint);
    State(ReplaceBatch(s.strategies, batch), both)
  }

  ghost predicate DistinctIds(batch: seq<Strategy>) {
    forall i, j :: 0 <= i < j < |batch| ==> batch[i].id != batch[j].id
  }

  predicate Mentioned(batch: seq<Strategy>, sid: string) {
    exists i :: 0 <= i < |batch| && batch[i].id == sid
  }

  lemma MentionedLast(batch: seq<Strategy>, sid: string)
    requires batch != []
    ensures Mentioned(batch, sid) <==> Mentioned(batch[..|batch| - 1], sid) || batch[|batch| - 1].id == sid
  {
  }

  /** The buckets of one filing are the exact inverse of the strategies' lists. */
  ghost predicate InverseFor(b: Buckets, strategies: Strategies, list: Listing, file: Filing) {
    forall e: Endpoint, sid :: e.kind != Nowhere && FiledBy(file, e) ==>
      (Linked(b, e, sid) <==> sid in strategies && Lists(list(strategies[sid]), file, e))
  }

  /** `file` files things under this kind of endpoint. */
  ghost predicate FiledBy(file: Filing, e: Endpoint) {
    exists i: Item :: file(i).kind == e.kind
  }

  lemma {:induction false} ReplaceElsewhere(strategies: Strategies, batch: seq<Strategy>, sid: string)
    requires !Mentioned(batch, sid)
    ensures sid in ReplaceBatch(strategies, batch) <==> sid in strategies
    ensures sid in strategies ==> ReplaceBatch(strategies, batch)[sid] == strategies[sid]
  {
    if batch != [] {
      var n := |batch| - 1;
      MentionedLast(batch, sid);
      assert batch[n].id != sid;
      ReplaceElsewhere(strategies, batch[..n], sid);
    }
  }

  lemma {:induction false} ReplaceAt(strategies: Strategies, batch: seq<Strategy>, i: nat)
    requires DistinctIds(batch) && i < |batch|
    ensures var after := ReplaceBatch(strategies, batch);
            if batch[i].valid then batch[i].id in after && after[batch[i].id] == batch[i] else batch[i].id !in after
  {
    var n := |batch| - 1;
    if i < n {
      assert batch[n].id != batch[i].id;
      ReplaceAt(strategies, batch[..n], i);
    }
  }

  lemma {:induction false} RelinkElsewhere(b: Buckets, strategies: Strategies, batch: seq<Strategy>, list: Listing,
                                           file: Filing, e: Endpoint, sid: string)
    requires !Mentioned(batch, sid)
    ensures Linked(RelinkBatch(b, strategies, batch, list, file), e, sid) <==> Linked(b, e, sid)
  {
    hide Linked, Relink;
    if batch != [] {
      var n := |batch| - 1;
      MentionedLast(batch, sid);
      var r := batch[n];
      assert r.id != sid;
      RelinkElsewhere(b, strategies, batch[..n], list, file, e, sid);
      RelinkFrame(RelinkBatch(b, strategies, batch[..n], list, file), r.id, OldItems(strategies, r.id, list),
                  list(r), r.valid, file, e, sid);
    }
  }

  /** A rule of the batch ends up linked exactly as it lists, although the others are handled
      before and after it and the cached rules have not been replaced yet. */
  lemma {:induction false} RelinkAt(b: Buckets, strategies: Strategies, batch: seq<Strategy>, list: Listing,
                                    file: Filing, e: Endpoint, i: nat)
    requires DistinctIds(batch) && i < |batch| && e.kind != Nowhere
    requires Linked(b, e, batch[i].id) ==> Lists(OldItems(strategies, batch[i].id, list), file, e)
    ensures Linked(RelinkBatch(b, strategies, batch, list, file), e, batch[i].id)
            <==> batch[i].valid && Lists(list(batch[i]), file, e)
  {
    hide Linked, Relink, Lists;
    var n := |batch| - 1;
    var before, r := RelinkBatch(b, strategies, batch[..n], list, file), batch[n];
    if i < n {
      assert r.id != batch[i].id;
      RelinkAt(b, strategies, batch[..n], list, file, e, i);
      RelinkFrame(before, r.id, OldItems(strategies, r.id, list), list(r), r.valid, file, e, batch[i].id);
    } else {
      assert forall j :: 0 <= j < n ==> batch[..n][j] == batch[j];
      RelinkElsewhere(b, strategies, batch[..n], list, file, e, r.id);
      RelinkCorrect(before, r.id, OldItems(strategies, r.id, list), list(r), r.valid, file, e);
    }
  }

  lemma InverseKept(b: Buckets, strategies: Strategies, batch: seq<Strategy>, list: Listing, file: Filing)
    requires InverseFor(b, strategies, list, file) && DistinctIds(batch)
    ensures InverseFor(RelinkBatch(b, strategies, batch, list, file), ReplaceBatch(strategies, batch), list, file)
  {
    hide Linked, Lists, RelinkBatch, ReplaceBatch;
    var b', after := RelinkBatch(b, strategies, batch, list, file), ReplaceBatch(strategies, batch);
    forall e: Endpoint, sid | e.kind != Nowhere && FiledBy(file, e)
      ensures Linked(b', e, sid) <==> sid in after && Lists(list(after[sid]), file, e)
    {
      if Mentioned(batch, sid) {
        var i :| 0 <= i < |batch| && batch[i].id == sid;
        RelinkAt(b, strategies, batch, list, file, e, i);
        ReplaceAt(strategies, batch, i);
      } else {
        RelinkElsewhere(b, strategies, batch, list, file, e, sid);
        ReplaceElsewhere(strategies, batch, sid);
      }
    }
  }

  /** Handling one kind of list does not disturb the buckets of the other kind. */
  lemma {:induction false} OtherKindsKept(b: Buckets, strategies: Strategies, batch: seq<Strategy>, list: Listing,
                                          file: Filing, e: Endpoint, sid: string)
    requires !FiledBy(file, e)
    ensures Linked(RelinkBatch(b, strategies, batch, list, file), e, sid) <==> Linked(b, e, sid)
  {
    hide Linked, Relink;
    if batch != [] {
      var n := |batch| - 1;
      var r := batch[n];
      OtherKindsKept(b, strategies, batch[..n], list, file, e, sid);
      NotListed(OldItems(strategies, r.id, list), file, e);
      NotListed(list(r), file, e);
      RelinkFrame(RelinkBatch(b, strategies, batch[..n], list, file), r.id, OldItems(strategies, r.id, list),
                  list(r), r.valid, file, e, sid);
    }
  }

  lemma NotListed(items: seq<Item>, file: Filing, e: Endpoint)
    requires !FiledBy(file, e)
    ensures !Lists(items, file, e)
  {
  }

  lemma {:induction false} BatchNoEmpty(b: Buckets, strategies: Strategies, batch: seq<Strategy>,
                                        list: Listing, file: Filing)
    requires NoEmptyEntry(b)
    ensures NoEmptyEntry(RelinkBatch(b, strategies, batch, list, file))
  {
    hide NoEmptyEntry, Relink;
    if batch != [] {
      var n := |batch| - 1;
      var r := batch[n];
      BatchNoEmpty(b, strategies, batch[..n], list, file);
      RelinkNoEmpty(RelinkBatch(b, strategies, batch[..n], list, file), r.id, OldItems(strategies, r.id, list),
                    list(r), r.valid, file);
    }
  }

  // ---------------------------------------------------------------- every run

  /** All five buckets are the exact inverse of the cached lists and hold no empty entry. */
  ghost predicate Inverse(s: State) {
    && InverseFor(s.links, s.strategies, ResourcesOf, ResourceEndpoint)
    && InverseFor(s.links, s.strategies, PrincipalsOf, PrincipalEndpoint)
    && NoEmptyEntry(s.links)
  }

  lemma FilingsAreDisjoint(e: Endpoint)
    ensures FiledBy(ResourceEndpoint, e) <==> !FiledBy(PrincipalEndpoint, e)
  {
    assert ResourceEndpoint(Item(RES_NAMESPACES, "")).kind == OnNamespace;
    assert ResourceEndpoint(Item(RES_SERVICES, "")).kind == OnService;
    assert ResourceEndpoint(Item(RES_CONFIG_GROUPS, "")).kind == OnConfigGroup;
    assert ResourceEndpoint(Item(-1, "")).kind == Nowhere;
    assert PrincipalEndpoint(Item(PRINCIPAL_USER, "")).kind == ForUser;
    assert PrincipalEndpoint(Item(PRINCIPAL_GROUP, "")).kind == ForGroup;
  }

  lemma InverseFrame(b: Buckets, b': Buckets, strategies: Strategies, list: Listing, file: Filing)
    requires InverseFor(b, strategies, list, file)
    requires forall e, sid :: FiledBy(file, e) ==> (Linked(b', e, sid) <==> Linked(b, e, sid))
    ensures InverseFor(b', strategies, list, file)
  {
  }

  lemma SetBatchKeepsInverse(s: State, batch: seq<Strategy>)
    requires Inverse(s) && DistinctIds(batch)
    ensures Inverse(SetBatch(s, batch))
  {
    hide InverseFor, NoEmptyEntry, Linked, FiledBy, RelinkBatch, ReplaceBatch;
    var resources := RelinkBatch(s.links, s.strategies, batch, ResourcesOf, ResourceEndpoint);
    var both := RelinkBatch(resources, s.strategies, batch, PrincipalsOf, PrincipalEndpoint);
    InverseKept(s.links, s.strategies, batch, ResourcesOf, ResourceEndpoint);
    forall e, sid | FiledBy(PrincipalEndpoint, e) ensures Linked(resources, e, sid) <==> Linked(s.links, e, sid) {
      FilingsAreDisjoint(e);
      OtherKindsKept(s.links, s.strategies, batch, ResourcesOf, ResourceEndpoint, e, sid);
    }
    InverseFrame(s.links, resources, s.strategies, PrincipalsOf, PrincipalEndpoint);
    InverseKept(resources, s.strategies, batch, PrincipalsOf, PrincipalEndpoint);
    forall e, sid | FiledBy(ResourceEndpoint, e) ensures Linked(both, e, sid) <==> Linked(resources, e, sid) {
      FilingsAreDisjoint(e);
      OtherKindsKept(resources, s.strategies, batch, PrincipalsOf, PrincipalEndpoint, e, sid);
    }
    InverseFrame(resources, both, ReplaceBatch(s.strategies, batch), ResourcesOf, ResourceEndpoint);
    BatchNoEmpty(s.links, s.strategies, batch, ResourcesOf, ResourceEndpoint);
    BatchNoEmpty(resources, s.strategies, batch, PrincipalsOf, PrincipalEndpoint);
  }

  function RunBatches(batches: seq<seq<Strategy>>): State {
    if batches == [] then Empty else SetBatch(RunBatches(batches[..|batches| - 1]), batches[|batches| - 1])
  }

  lemma {:induction false} RunIsInverse(batches: seq<seq<Strategy>>)
    requires forall b :: b in batches ==> DistinctIds(b)
    ensures Inverse(RunBatches(batches))
  {
    hide SetBatch, DistinctIds;
    if batches != [] {
      hide Inverse;
      var n := |batches| - 1;
      RunIsInverse(batches[..n]);
      assert batches[n] in batches;
      SetBatchKeepsInverse(RunBatches(batches[..n]), batches[n]);
    }
  }

  // ---------------------------------------------------------------- may it be edited?

  /** The strategy names this user, or this group. */
  predicate Names(s: Strategy, p: Item) {
    Lists(s.principals, PrincipalEndpoint, PrincipalEndpoint(p))
  }

  predicate Covers(s: Strategy, e: Endpoint) {
    Lists(s.resources, ResourceEndpoint, e)
  }

  function Wildcard(e: Endpoint): Endpoint { e.(id := "*") }

  /** The principals to try: the given one and, for a user, the groups linked to the user. */
  predicate ActsAs(p: Item, groups: set<string>, q: Item) {
    q == p || (p.tag == PRINCIPAL_USER && q.tag == PRINCIPAL_GROUP && q.id in groups)
  }

  /** The strategy is on the resource, or on "*" of its type, and names the principal. */
  predicate Grants(strategies: Strategies, sid: string, q: Item, e: Endpoint) {
    && sid in strategies && Names(strategies[sid], q)
    && (Covers(strategies[sid], e) || Covers(strategies[sid], Wildcard(e)))
  }

  /** The naive rule over all cached strategies: a resource no strategy mentions is open to
      everyone; else some strategy on the resource, or on "*" of its type, must name the
      principal or one of the user's groups. */
  ghost predicate EditableNaive(strategies: Strategies, groups: set<string>, p: Item, e: Endpoint) {
    || e.kind == Nowhere
    || (forall sid :: sid in strategies ==> !Covers(strategies[sid], e))
    || (exists sid, q :: ActsAs(p, groups, q) && Grants(strategies, sid, q, e))
  }

  /** `checkResourceEditable`. */
  predicate CheckEditable(strategies: Strategies, ids: set<string>, p: Item, mustCheck: bool) {
    if ids == {} && !mustCheck then true
    else exists sid :: sid in ids && sid in strategies && Names(strategies[sid], p)
  }

  /** The answer through the indexes, as `IsResourceEditable` composes it. */
  ghost predicate EditableIndexed(s: State, groups: set<string>, p: Item, e: Endpoint) {
    var bucket := s.links.Of(e.kind);
    if e.id !in bucket then true
    else exists q :: ActsAs(p, groups, q) &&
           (CheckEditable(s.strategies, if "*" in bucket then bucket["*"] else {}, q, true) ||
            CheckEditable(s.strategies, bucket[e.id], q, false))
  }

  lemma BucketIsCovering(s: State, r: Item, sid: string)
    requires Inverse(s) && ResourceEndpoint(r).kind != Nowhere
    ensures Linked(s.links, ResourceEndpoint(r), sid)
            <==> sid in s.strategies && Covers(s.strategies[sid], ResourceEndpoint(r))
  {
  }

  /** Access decisions through the indexes are the naive rule, in every state the cache can
      reach; an empty bucket left behind would open the resource to everyone. */
  lemma IndexedIsNaive(s: State, groups: set<string>, p: Item, resType: int, resId: string)
    requires Inverse(s)
    ensures EditableIndexed(s, groups, p, ResourceEndpoint(Item(resType, resId)))
            <==> EditableNaive(s.strategies, groups, p, ResourceEndpoint(Item(resType, resId)))
  {
    var e := ResourceEndpoint(Item(resType, resId));
    if e.kind != Nowhere {
      var all := ResourceEndpoint(Item(resType, "*"));
      assert all == Wildcard(e);
      forall sid ensures Linked(s.links, e, sid) <==> sid in s.strategies && Covers(s.strategies[sid], e) {
        BucketIsCovering(s, Item(resType, resId), sid);
      }
      forall sid ensures Linked(s.links, all, sid) <==> sid in s.strategies && Covers(s.strategies[sid], all) {
        BucketIsCovering(s, Item(resType, "*"), sid);
      }
      DecideByLinks(s, groups, p, e);
    }
  }

  lemma DecideByLinks(s: State, groups: set<string>, p: Item, e: Endpoint)
    requires NoEmptyEntry(s.links) && e.kind != Nowhere
    requires forall sid :: Linked(s.links, e, sid) <==> sid in s.strategies && Covers(s.strategies[sid], e)
    requires forall sid :: Linked(s.links, Wildcard(e), sid) <==>
               sid in s.strategies && Covers(s.strategies[sid], Wildcard(e))
    ensures EditableIndexed(s, groups, p, e) <==> EditableNaive(s.strategies, groups, p, e)
  {
    hide Covers, Names, ActsAs;
    var bucket := s.links.Of(e.kind);
    var wide := if "*" in bucket then bucket["*"] else {};
    if e.id !in bucket {
      forall sid | sid in s.strategies ensures !Covers(s.strategies[sid], e) {
        assert !Linked(s.links, e, sid);
      }
    } else {
      var some :| some in bucket[e.id];
      assert Linked(s.links, e, some);
      var own := bucket[e.id];
      forall q ensures (CheckEditable(s.strategies, wide, q, true) || CheckEditable(s.strategies, own, q, false))
                       <==> exists sid :: Grants(s.strategies, sid, q, e)
      {
        forall sid ensures sid in wide <==> Linked(s.links, Wildcard(e), sid) {}
        forall sid ensures sid in bucket[e.id] <==> Linked(s.links, e, sid) {}
        forall sid ensures Grants(s.strategies, sid, q, e) <==>
                           (sid in wide || sid in bucket[e.id]) && sid in s.strategies && Names(s.strategies[sid], q) {}
      }
    }
  }

  // ---------------------------------------------------------------- linked groups that are gone

  /** Some strategy grants the resource to the user through one of the groups. */
  ghost predicate GrantedBy(strategies: Strategies, groups: set<string>, p: Item, e: Endpoint) {
    p.tag == PRINCIPAL_USER && exists sid, g :: g in groups && Grants(strategies, sid, Item(PRINCIPAL_GROUP, g), e)
  }

  /** A decision with more groups grants what the fewer grant, and what the others grant. */
  lemma DecisionSplits(strategies: Strategies, some: set<string>, others: set<string>, p: Item, e: Endpoint)
    ensures EditableNaive(strategies, some + others, p, e) <==>
            EditableNaive(strategies, some, p, e) || GrantedBy(strategies, others, p, e)
  {
    hide Names, Covers, Grants;
    if sid, g :| g in others && Grants(strategies, sid, Item(PRINCIPAL_GROUP, g), e) {
      assert p.tag == PRINCIPAL_USER ==> ActsAs(p, some + others, Item(PRINCIPAL_GROUP, g));
    }
    if sid, q :| ActsAs(p, some + others, q) && Grants(strategies, sid, q, e) {
      assert ActsAs(p, some, q) || (q == Item(PRINCIPAL_GROUP, q.id) && q.id in others);
    }
    assert forall q :: ActsAs(p, some, q) ==> ActsAs(p, some + others, q);
  }
}
