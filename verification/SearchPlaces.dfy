/** What paging returns, said of the places of the document alone. */
module SearchPlaces {
  import opened Common
  import opened Document
  import opened Walk
  import opened Places
  import opened Search

  /** The places whose nodes match, in document order. */
  ghost predicate AreMatchingPlaces(s: Search, paths: seq<seq<nat>>) {
    && Rising(paths)
    && forall p :: p in paths <==> IsPlace(s.view, s.root, p) && s.reasons(NodeAt(s.view, s.root, p)) != []
  }

  /** What is returned of each place: its node's id, name, kind and reasons. */
  ghost predicate ReportsPlaces(s: Search, keys: seq<MatchKey>, paths: seq<seq<nat>>) {
    && |keys| == |paths|
    && forall i :: 0 <= i < |paths| ==>
         && Leads(s.view, s.root, paths[i])
         && var r := NodeAt(s.view, s.root, paths[i]);
            keys[i] == MatchKey(s.view.host(r).id, s.view.host(r).name, s.view.host(r).kind, s.reasons(r))
  }

  predicate AllBefore(paths: seq<seq<nat>>, last: seq<nat>) {
    forall p :: p in paths ==> Before(p, last)
  }

  lemma {:induction false} RisingFront(paths: seq<seq<nat>>)
    requires Rising(paths) && paths != []
    ensures Rising(paths[..|paths| - 1]) && AllBefore(paths[..|paths| - 1], paths[|paths| - 1])
  {
    hide Before;
  }

  lemma {:induction false} RisingBack(paths: seq<seq<nat>>, last: seq<nat>)
    requires Rising(paths) && AllBefore(paths, last)
    ensures Rising(paths + [last])
  {
    hide Before;
    RisingJoins(paths, [last]);
  }

  /** `paths` are where the matching ones among `items` stand. */
  ghost predicate HitsStand(s: Search, items: seq<Item>, paths: seq<seq<nat>>) {
    && Rising(paths) && ReportsPlaces(s, FoundKeys(s, items), paths)
    && forall p :: p in paths <==> exists x :: x in items && s.reasons(x.node) != [] && x.path == p
  }

  ghost predicate NodesAreAtPlaces(s: Search, items: seq<Item>) {
    forall x :: x in items ==> Leads(s.view, s.root, x.path) && x.node == NodeAt(s.view, s.root, x.path)
  }

  lemma {:induction false} ReportOneMore(s: Search, items: seq<Item>, paths: seq<seq<nat>>, x: Item)
    requires ReportsPlaces(s, FoundKeys(s, items), paths)
    requires Leads(s.view, s.root, x.path) && x.node == NodeAt(s.view, s.root, x.path)
    ensures ReportsPlaces(s, FoundKeys(s, items + [x]), if s.reasons(x.node) != [] then paths + [x.path] else paths)
  {
    hide Leads, NodeAt;
    assert (items + [x])[..|items|] == items;
    assert FoundKeys(s, items) + [] == FoundKeys(s, items);
  }

  lemma {:induction false} HitsOneMore(s: Search, items: seq<Item>, paths: seq<seq<nat>>, x: Item)
    requires HitsStand(s, items, paths) && AllBefore(Paths(items), x.path)
    requires Leads(s.view, s.root, x.path) && x.node == NodeAt(s.view, s.root, x.path)
    ensures HitsStand(s, items + [x], if s.reasons(x.node) != [] then paths + [x.path] else paths)
  {
    hide Leads, NodeAt, Rising, ReportsPlaces, FoundKeys, AllBefore, Paths;
    ReportOneMore(s, items, paths, x);
    var all, more := items + [x], if s.reasons(x.node) != [] then paths + [x.path] else paths;
    forall p
      ensures p in more <==> exists y :: y in all && s.reasons(y.node) != [] && y.path == p
    {
      if p in more {
        if p in paths {
          var y :| y in items && s.reasons(y.node) != [] && y.path == p;
          assert y in all;
        } else {
          assert x in all;
        }
      }
    }
    if s.reasons(x.node) != [] {
      HitsComeBefore(s, items, paths, x.path);
      RisingBack(paths, x.path);
    }
  }

  lemma {:induction false} HitsComeBefore(s: Search, items: seq<Item>, paths: seq<seq<nat>>, last: seq<nat>)
    requires HitsStand(s, items, paths) && AllBefore(Paths(items), last)
    ensures AllBefore(paths, last)
  {
    hide Before, ReportsPlaces, Rising;
    forall p | p in paths
      ensures Before(p, last)
    {
      var y :| y in items && s.reasons(y.node) != [] && y.path == p;
      var i :| 0 <= i < |items| && items[i] == y;
      assert Paths(items)[i] == p;
    }
  }

  lemma {:induction false} NoHits(s: Search)
    ensures HitsStand(s, [], [])
  {
  }

  lemma {:induction false} HitsOfRising(s: Search, items: seq<Item>) returns (paths: seq<seq<nat>>)
    requires NodesAreAtPlaces(s, items) && Rising(Paths(items))
    ensures HitsStand(s, items, paths)
  {
    hide Before, Leads, NodeAt, HitsStand, Rising, FoundKeys, Paths, AllBefore;
    if items == [] {
      paths := [];
      NoHits(s);
    } else {
      var front, last := items[..|items| - 1], items[|items| - 1];
      assert items == front + [last] && last in items;
      PathsJoin(front, [last]);
      assert Paths(items)[..|items| - 1] == Paths(front);
      RisingFront(Paths(items));
      paths := HitsOfRising(s, front);
      HitsOneMore(s, front, paths, last);
      if s.reasons(last.node) != [] {
        paths := paths + [last.path];
      }
    }
  }

  /** The matches of the preorder are those of the places. */
  lemma {:induction false} PreorderHits(s: Search, depth: nat) returns (paths: seq<seq<nat>>)
    requires Unfolds(s.view, RootItem(s), depth)
    ensures AreMatchingPlaces(s, paths) && ReportsPlaces(s, FoundKeys(s, Preorder(s.view, RootItem(s), depth)), paths)
  {
    hide Before, Leads, NodeAt, Preorder, Unfolds, FoundKeys, NoneTwice;
    var items := Preorder(s.view, RootItem(s), depth);
    assert RootItem(s) == From(s.root);
    PreorderListsPlaces(s.view, s.root, depth);
    paths := HitsOfRising(s, items);
    forall p
      ensures p in paths <==> IsPlace(s.view, s.root, p) && s.reasons(NodeAt(s.view, s.root, p)) != []
    {
      if IsPlace(s.view, s.root, p) {
        assert p in Paths(items);
        var i :| 0 <= i < |items| && Paths(items)[i] == p;
        assert items[i] in items && items[i].path == p;
      }
    }
  }

  /** Paging is lossless, in terms of the document's child lists: a session of untruncated
      pages followed to its end returns one match for every place whose node matches, in
      document order, and nothing else. */
  lemma {:induction false} PagingReturnsEveryMatchingPlace(s: Search, visits: Visits) returns (paths: seq<seq<nat>>)
    requires Pageable(s)
    requires Session(s, visits) && Untruncated(visits) && LastPage(visits).nextCursor.None?
    ensures AreMatchingPlaces(s, paths) && ReportsPlaces(s, AllKeys(visits), paths)
  {
    hide AreMatchingPlaces, ReportsPlaces, FoundKeys, Session;
    var depth := PagingIsLossless(s, visits);
    paths := PreorderHits(s, depth);
  }

  /** And where the walk is finite, any session at all, truncated or broken off, has
      returned the first of those matches. */
  lemma {:induction false} SessionsReturnTheFirstPlaces(s: Search, depth: nat, visits: Visits)
    returns (paths: seq<seq<nat>>)
    requires Pageable(s) && Session(s, visits)
    requires forall p :: IsPlace(s.view, s.root, p) ==> |p| <= depth
    ensures AreMatchingPlaces(s, paths) && |AllKeys(visits)| <= |paths|
    ensures ReportsPlaces(s, AllKeys(visits), paths[..|AllKeys(visits)|])
  {
    hide AreMatchingPlaces, FoundKeys, Session, Leads, NodeAt, AllKeys;
    assert RootItem(s) == From(s.root);
    FiniteExactlyWithBoundedPlaces(s.view, s.root, depth);
    EverySessionIsAPrefix(s, depth, visits);
    paths := PreorderHits(s, depth);
  }

  // ---------- one match ----------

  predicate Occurs(needle: string, text: string) {
    exists i, j :: 0 <= i <= j <= |text| && text[i..j] == needle
  }

  /** Equal or contained, once the host has folded the case of both. */
  predicate Agrees(text: string, query: string, exact: bool, lower: string -> string) {
    if exact then lower(text) == lower(query) else Occurs(lower(query), lower(text))
  }

  lemma {:induction false} AgreesMeaning(text: string, query: string, exact: bool, lower: string -> string)
    ensures Matches(text, query, exact, lower) <==> Agrees(text, query, exact, lower)
  {
    if !exact {
      var a, b := lower(text), lower(query);
      if i: nat :| i <= |a| && StartsAt(a, b, i) {
        assert a[i..i + |b|] == b;
      }
      if i, j :| 0 <= i <= j <= |a| && a[i..j] == b {
        assert StartsAt(a, b, i);
      }
    }
  }

  /** Why a node matches a query: by its name, or by its text if it is a text node. */
  lemma {:induction false} QueryReasons(node: Host, p: SearchPredicate, lower: string -> string)
    requires p.query.Some?
    ensures var reasons := MatchReasons(node, p, lower);
      var (named, texted) := (Agrees(node.name, p.query.value, p.exact, lower),
                              node.kind == "TEXT" && node.characters.Some?
                              && Agrees(node.characters.value, p.query.value, p.exact, lower));
      && (reasons != [] <==> (p.types.Some? ==> node.kind in p.types.value) && (named || texted))
      && (reasons != [] ==> (ByName in reasons <==> named) && (ByText in reasons <==> texted))
  {
    AgreesMeaning(node.name, p.query.value, p.exact, lower);
    if node.characters.Some? {
      AgreesMeaning(node.characters.value, p.query.value, p.exact, lower);
    }
  }

  lemma {:induction false} IdsArePicked(v: View, refs: seq<Ref>) returns (at: seq<nat>, named: seq<Ref>)
    ensures Picks(refs, r => v.host(r).id != "", at, named)
    ensures |NonBlankIds(v, refs)| == |named|
    ensures forall i :: 0 <= i < |named| ==> NonBlankIds(v, refs)[i] == v.host(named[i]).id
  {
    if refs == [] {
      at, named := [], [];
    } else {
      var front, last := refs[..|refs| - 1], refs[|refs| - 1];
      at, named := IdsArePicked(v, front);
      PicksOneMore(front, r => v.host(r).id != "", at, named, last);
      assert refs == front + [last];
      IdsJoin(v, front, last);
      if v.host(last).id != "" {
        at, named := at + [|front|], named + [last];
      }
    }
  }

  lemma {:induction false} IdsJoin(v: View, front: seq<Ref>, last: Ref)
    ensures NonBlankIds(v, front + [last])
         == NonBlankIds(v, front) + if v.host(last).id == "" then [] else [v.host(last).id]
  {
    if front == [] {
      assert [] + [last] == [last] && [last][1..] == [];
    } else {
      assert (front + [last])[1..] == front[1..] + [last];
      IdsJoin(v, front[1..], last);
    }
  }

  lemma {:induction false} ReportAt(s: Search, hits: seq<Item>, k: nat)
    requires k < |hits|
    ensures Report(s, hits)[k] == Summarize(s, hits[k].node, k + 1 < ReturnedLimit(s))
  {
    if k < |hits| - 1 {
      ReportAt(s, hits[..|hits| - 1], k);
    }
  }

  lemma {:induction false} PageMatch(s: Search, start: Stack, visit: Visit, k: nat) returns (r: Ref)
    requires IsPage(s, start, visit) && k < |visit.page.matches|
    ensures s.reasons(r) != [] && visit.page.matches[k] == Summarize(s, r, k + 1 < ReturnedLimit(s))
  {
    hide Pops, TotalSize, Report, Hits, Summarize;
    var hits := Hits(s, visit.popped);
    HitsMatch(s, visit.popped);
    ReportAt(s, hits, k);
    assert visit.page.matches[k] == Report(s, hits)[k];
    r := hits[k].node;
  }

  /** The ids of its drawn children, in order and without the blank ones, come with every
      match of a page but the one that reaches its limit. */
  lemma {:induction false} MatchesListTheirChildren(s: Search, start: Stack, visit: Visit, k: nat)
    returns (r: Ref, at: seq<nat>, named: seq<Ref>)
    requires IsPage(s, start, visit) && k < |visit.page.matches|
    ensures var m := visit.page.matches[k];
      && m.id == s.view.host(r).id && m.name == s.view.host(r).name && m.kind == s.view.host(r).kind
      && m.reasons == s.reasons(r) != []
      && Picks(s.view.kids(r), c => s.view.host(c).id != "", at, named)
      && (k + 1 < s.limit && k + 1 < s.limits.returned ==>
            |m.childIds| == |named| && forall i :: 0 <= i < |named| ==> m.childIds[i] == s.view.host(named[i]).id)
      && (k + 1 >= s.limit || k + 1 >= s.limits.returned ==> m.childIds == [])
  {
    hide Pops, TotalSize, Picks, IsPage, StoppedRight, Hits, NonBlankIds;
    r := PageMatch(s, start, visit, k);
    at, named := IdsArePicked(s.view, s.view.kids(r));
  }

  lemma {:induction false} HitsMatch(s: Search, items: seq<Item>)
    ensures forall x :: x in Hits(s, items) ==> s.reasons(x.node) != []
  {
    if items != [] {
      HitsMatch(s, items[..|items| - 1]);
    }
  }

  // ---------- which cursors are accepted ----------

  lemma {:induction false} SpineLeads(v: View, item: Item, target: seq<nat>, under: Stack)
    ensures Spine(v, item, target, under).Some? <==> Leads(v, item.node, target)
    ensures Leads(v, item.node, target) ==>
      var top := Spine(v, item, target, under).value.top;
      top.node == NodeAt(v, item.node, target) && top.path == item.path + target
    decreases |target|
  {
    hide PushFrom, Below;
    if target == [] {
      assert item.path + [] == item.path;
    } else if target[0] < |v.kids(item.node)| {
      SpineLeads(v, ChildItem(v, item, target[0]), target[1..], PushFrom(v, item, target[0] + 1, under));
      assert item.path + [target[0]] + target[1..] == item.path + target;
    }
  }

  /** A call is refused exactly when its cursor does not read back, has another search's key,
      follows an index that is not there, or ends at a node of another id. One that is not
      resumes at that node, or past it. */
  lemma {:induction false} CursorsAreRefusedExactly(s: Search, text: seq<CodeUnit>)
    ensures StartOf(s, Some(text)).Success? <==>
      && s.read(text).Some? && s.read(text).value.key == s.key
      && var c := s.read(text).value;
         Leads(s.view, s.root, c.path) && s.view.host(NodeAt(s.view, s.root, c.path)).id == c.id
    ensures StartOf(s, Some(text)).Success? ==>
      var (c, start) := (s.read(text).value, StartOf(s, Some(text)).value);
      exists at: Stack ::
        && at.Push? && at.top.path == c.path && at.top.node == NodeAt(s.view, s.root, c.path)
        && start == if c.after then Step(s.view, at) else at
  {
    hide Spine, Step;
    if s.read(text).Some? {
      var c := s.read(text).value;
      SpineLeads(s.view, RootItem(s), c.path, Empty);
      assert [] + c.path == c.path;
    }
  }
}
