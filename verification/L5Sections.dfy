/**
 CL5 sections (cache/l5.go:198-211, 336-377): one list of sections per module, edited in place
 as deliveries come in, and the highest flow number seen.
 */
module L5Sections {
  datatype Section = Section(modID: nat, from: nat, to: nat, xid: nat, valid: bool, flow: nat)

  type Lists = map<nat, seq<Section>>

  predicate SameRange(a: Section, b: Section) { a.from == b.from && a.to == b.to }

  predicate SameKey(a: Section, b: Section) { a.modID == b.modID && SameRange(a, b) }

  // ---------------------------------------------------------------- what a history stands for

  /** No later delivery has the key of delivery `i`. */
  ghost predicate Final(history: seq<Section>, i: nat)
    requires i < |history|
  {
    forall j :: i < j < |history| ==> !SameKey(history[j], history[i])
  }

  ghost predicate Serves(history: seq<Section>, modID: nat, i: nat)
    requires i < |history|
  {
    history[i].modID == modID && history[i].valid && Final(history, i)
  }

  /** Last write wins: of the first `n` deliveries of a history, those of one module that are
      valid and final in the whole history, in delivery order. */
  ghost function Served(history: seq<Section>, modID: nat, n: nat): seq<Section>
    requires n <= |history|
  {
    if n == 0 then []
    else Served(history, modID, n - 1) + if Serves(history, modID, n - 1) then [history[n - 1]] else []
  }

  ghost function Current(history: seq<Section>, modID: nat): seq<Section> {
    Served(history, modID, |history|)
  }

  ghost predicate IsMaxFlow(history: seq<Section>, flow: nat) {
    && (forall i :: 0 <= i < |history| ==> history[i].flow <= flow)
    && (flow == 0 || exists i :: 0 <= i < |history| && history[i].flow == flow)
  }

  function Listed(lists: Lists, modID: nat): seq<Section> {
    if modID in lists then lists[modID] else []
  }

  ghost predicate Reflects(lists: Lists, history: seq<Section>) {
    forall m :: Listed(lists, m) == Current(history, m)
  }

  /** `Current`, said by membership: a section is served exactly when some delivery of it is
      valid and the last of its key. */
  lemma {:induction false} ServedExactly(history: seq<Section>, modID: nat, n: nat)
    requires n <= |history|
    ensures forall s :: s in Served(history, modID, n) <==>
              exists i :: 0 <= i < n && history[i] == s && Serves(history, modID, i)
  {
    if n > 0 {
      ServedExactly(history, modID, n - 1);
      forall s
        ensures s in Served(history, modID, n) <==>
                  exists i :: 0 <= i < n && history[i] == s && Serves(history, modID, i)
      {
        if i :| 0 <= i < n && history[i] == s && Serves(history, modID, i) {
          assert i < n - 1 ==> s in Served(history, modID, n - 1);
        }
      }
    }
  }

  ghost predicate Unique(sections: seq<Section>) {
    forall i, j :: 0 <= i < j < |sections| ==> !SameKey(sections[i], sections[j])
  }

  /** No two sections with the same module and range. */
  lemma {:induction false} ServedUnique(history: seq<Section>, modID: nat, n: nat)
    requires n <= |history|
    ensures Unique(Served(history, modID, n))
    ensures forall s :: s in Served(history, modID, n) ==> s.modID == modID
  {
    if n > 0 {
      ServedUnique(history, modID, n - 1);
      if Serves(history, modID, n - 1) {
        ServedExactly(history, modID, n - 1);
        var before, last := Served(history, modID, n - 1), history[n - 1];
        forall i | 0 <= i < |before|
          ensures !SameKey(before[i], last)
        {
          assert before[i] in before;
        }
      }
    }
  }

  // ---------------------------------------------------------------- one delivery

  function Without(sections: seq<Section>, item: Section): seq<Section> {
    if sections == [] then []
    else
      var n := |sections| - 1;
      Without(sections[..n], item) + if SameRange(sections[n], item) then [] else [sections[n]]
  }

  lemma WithoutSnoc(sections: seq<Section>, last: Section, item: Section)
    ensures Without(sections + [last], item) == Without(sections, item) + if SameRange(last, item) then [] else [last]
  {
  }

  lemma {:induction false} WithoutNone(sections: seq<Section>, item: Section)
    requires forall i :: 0 <= i < |sections| ==> !SameRange(sections[i], item)
    ensures Without(sections, item) == sections
  {
    if sections != [] {
      WithoutNone(sections[..|sections| - 1], item);
    }
  }

  /** In a list without duplicates, dropping the first match drops every match. */
  lemma {:induction false} DropFirst(sections: seq<Section>, item: Section, k: nat)
    requires k < |sections| && SameRange(sections[k], item)
    requires forall i :: 0 <= i < |sections| && i != k ==> !SameRange(sections[i], item)
    ensures Without(sections, item) == sections[..k] + sections[k + 1..]
  {
    var n := |sections| - 1;
    if k == n {
      WithoutNone(sections[..n], item);
    } else {
      DropFirst(sections[..n], item, k);
      assert sections[k + 1..] == sections[..n][k + 1..] + [sections[n]];
    }
  }

  /** One more delivery takes out what it replaces and leaves the rest in order. */
  lemma {:induction false} ServedSnoc(history: seq<Section>, item: Section, modID: nat, n: nat)
    requires n <= |history|
    ensures var was := Served(history, modID, n);
            Served(history + [item], modID, n) == if item.modID == modID then Without(was, item) else was
  {
    if n > 0 {
      ServedSnoc(history, item, modID, n - 1);
      var more := history + [item];
      assert more[n - 1] == history[n - 1];
      assert Final(more, n - 1) <==> Final(history, n - 1) && !SameKey(item, history[n - 1]) by {
        assert more[|history|] == item;
        assert forall j :: 0 <= j < |history| ==> more[j] == history[j];
      }
      if Serves(history, modID, n - 1) {
        WithoutSnoc(Served(history, modID, n - 1), history[n - 1], item);
      } else {
        assert Served(history, modID, n) == Served(history, modID, n - 1);
        assert Served(more, modID, n) == Served(more, modID, n - 1);
      }
    }
  }

  lemma CurrentSnoc(history: seq<Section>, item: Section, modID: nat)
    ensures var was := Current(history, modID);
            Current(history + [item], modID) ==
              if item.modID != modID then was
              else Without(was, item) + if item.valid then [item] else []
  {
    ServedSnoc(history, item, modID, |history|);
    assert Final(history + [item], |history|);
  }

  // ---------------------------------------------------------------- the cache

  /** The search for the old section with the range of a new one, and its removal. */
  method RemoveOld(sections: seq<Section>, item: Section) returns (rest: seq<Section>)
    requires forall i, j :: 0 <= i < j < |sections| ==> !SameRange(sections[i], sections[j])
    ensures rest == Without(sections, item)
  {
    var k := 0;
    while k < |sections|
      invariant 0 <= k <= |sections|
      invariant forall i :: 0 <= i < k ==> !SameRange(sections[i], item)
    {
      if SameRange(sections[k], item) {
        DropFirst(sections, item, k);
        return sections[..k] + sections[k + 1..];
      }
      k := k + 1;
    }
    WithoutNone(sections, item);
    return sections;
  }

  /** `model.Section` lists by module, the highest flow, and the deliveries since the last clear. */
  class L5Cache {
    var sectionList: Lists
    var lastSectionFlow: nat
    ghost var history: seq<Section>

    ghost predicate Valid()
      reads this
    {
      Reflects(sectionList, history) && IsMaxFlow(history, lastSectionFlow)
    }

    constructor ()
      ensures Valid() && history == []
    {
      sectionList := map[];
      lastSectionFlow := 0;
      history := [];
    }

    method Clear()
      modifies this
      ensures Valid() && history == [] && lastSectionFlow == 0
    {
      sectionList := map[];
      lastSectionFlow := 0;
      history := [];
    }

    /** One round of the loop of `setCL5Section`. */
    method SetOne(item: Section)
      requires Reflects(sectionList, history)
      modifies this`sectionList, this`history
      ensures history == old(history) + [item]
      ensures Reflects(sectionList, history)
    {
      hide Current;
      ghost var was := history;
      var listObj := Listed(sectionList, item.modID);
      assert listObj == Current(was, item.modID);
      CurrentUnique(was, item.modID);
      var rest := RemoveOld(listObj, item);
      if item.modID in sectionList {
        sectionList := sectionList[item.modID := rest];
      }
      if item.valid {
        sectionList := sectionList[item.modID := rest + [item]];
      }
      history := history + [item];
      forall m
        ensures Listed(sectionList, m) == Current(history, m)
      {
        CurrentSnoc(was, item, m);
        assert Listed(old(sectionList), m) == Current(was, m);
      }
    }

    /** `setCL5Section`. */
    method SetCL5Section(sections: seq<Section>)
      requires Valid()
      modifies this
      ensures Valid() && history == old(history) + sections
    {
      if |sections| == 0 {
        return;
      }
      hide Reflects;
      var flow: nat := lastSectionFlow;
      for i := 0 to |sections|
        invariant history == old(history) + sections[..i]
        invariant Reflects(sectionList, history)
        invariant IsMaxFlow(history, flow) && flow >= lastSectionFlow
        invariant lastSectionFlow == old(lastSectionFlow)
      {
        ghost var was, before := history, flow;
        if sections[i].flow > flow {
          flow := sections[i].flow;
        }
        SetOne(sections[i]);
        MaxFlowSnoc(was, sections[i], before);
        assert sections[..i + 1] == sections[..i] + [sections[i]];
      }
      if lastSectionFlow < flow {
        lastSectionFlow := flow;
      }
    }

    /** `GetSection`: the last writes of the module, in the order they were delivered. */
    method GetSection(modID: nat) returns (out: seq<Section>)
      requires Valid()
      ensures out == Current(history, modID) && Unique(out)
    {
      CurrentUnique(history, modID);
      assert Listed(sectionList, modID) == Current(history, modID);
      if modID !in sectionList {
        return [];
      }
      var obj := sectionList[modID];
      out := [];
      for i := 0 to |obj|
        invariant out == obj[..i]
      {
        out := out + [obj[i]];
      }
    }
  }

  lemma CurrentUnique(history: seq<Section>, modID: nat)
    ensures var out := Current(history, modID);
            && Unique(out)
            && forall i, j :: 0 <= i < j < |out| ==> !SameRange(out[i], out[j])
  {
    ServedUnique(history, modID, |history|);
    var out := Current(history, modID);
    forall i, j | 0 <= i < j < |out|
      ensures !SameRange(out[i], out[j])
    {
      assert out[i] in out && out[j] in out;
    }
  }

  lemma MaxFlowSnoc(history: seq<Section>, item: Section, flow: nat)
    requires IsMaxFlow(history, flow)
    ensures IsMaxFlow(history + [item], if item.flow > flow then item.flow else flow)
  {
    var more := history + [item];
    assert more[|history|] == item;
    assert forall i :: 0 <= i < |history| ==> more[i] == history[i];
    if flow > 0 {
      var i :| 0 <= i < |history| && history[i].flow == flow;
      assert more[i].flow == flow;
    }
  }
}
