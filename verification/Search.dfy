/** Paged search: each page runs the stack machine of `Walk` until enough nodes
    match, and ends by encoding the path of the last match as a cursor. The next
    page rebuilds the whole stack from that path. */
module Search {
  import opened Common
  import opened Document
  import opened Walk
  import opened Visibility
  import Base64

  // ---------- what matches ----------

  datatype MatchReason = ByNodeType | ByName | ByText

  datatype SearchPredicate = SearchPredicate(query: Option<string>, types: Option<seq<string>>, exact: bool)

  datatype NodeMatch = NodeMatch(id: string, name: string, kind: string, childIds: seq<string>,
                                 reasons: seq<MatchReason>)

  /** A parsed cursor. `v` is fixed at 1 by the parser. */
  datatype Cursor = Cursor(key: string, path: seq<nat>, id: string, after: bool)

  datatype Limits = Limits(visited: nat, bytes: nat, returned: nat)

  /** One search over a fixed document: what the walk sees, why a node matches, the
      encoded length of a match, and how a cursor payload is written and read. */
  datatype Search = Search(
    view: View,
    root: Ref,
    key: string,
    reasons: Ref -> seq<MatchReason>,
    limit: nat,
    limits: Limits,
    size: NodeMatch -> nat,
    write: Cursor -> seq<CodeUnit>,
    read: seq<CodeUnit> -> Option<Cursor>)

  datatype SearchError = InvalidCursor

  datatype Truncation = NodeLimit(visitedNodes: nat) | ByteLimit(encodedBytes: nat)

  datatype Page = Page(
    matches: seq<NodeMatch>,
    truncation: Option<Truncation>,
    nextCursor: Option<seq<CodeUnit>>,
    visited: nat)

  predicate StartsAt(haystack: string, needle: string, i: nat) {
    i + |needle| <= |haystack| && haystack[i..i + |needle|] == needle
  }

  predicate Includes(haystack: string, needle: string) {
    exists i: nat :: i <= |haystack| && StartsAt(haystack, needle, i)
  }

  /** `lower` is the host's case folding. */
  predicate Matches(haystack: string, query: string, exact: bool, lower: string -> string) {
    if exact then lower(haystack) == lower(query) else Includes(lower(haystack), lower(query))
  }

  predicate MatchesText(node: Host, query: string, exact: bool, lower: string -> string) {
    node.kind == "TEXT" && node.characters.Some? && Matches(node.characters.value, query, exact, lower)
  }

  /** The order reasons are listed in. */
  function Rank(reason: MatchReason): nat {
    match reason
    case ByNodeType => 0
    case ByName => 1
    case ByText => 2
  }

  /** Why a node matches; nothing means it does not. Both filters must agree when both
      are given, and then every reason that holds is listed once. */
  function MatchReasons(node: Host, p: SearchPredicate, lower: string -> string): (reasons: seq<MatchReason>)
    ensures reasons != [] <==>
      && (p.types.Some? || p.query.Some?)
      && (p.types.Some? ==> node.kind in p.types.value)
      && (p.query.Some? ==>
            Matches(node.name, p.query.value, p.exact, lower) || MatchesText(node, p.query.value, p.exact, lower))
    ensures reasons != [] ==>
      && (ByNodeType in reasons <==> p.types.Some?)
      && (ByName in reasons <==> p.query.Some? && Matches(node.name, p.query.value, p.exact, lower))
      && (ByText in reasons <==> p.query.Some? && MatchesText(node, p.query.value, p.exact, lower))
    ensures forall i, j :: 0 <= i < j < |reasons| ==> Rank(reasons[i]) < Rank(reasons[j])
  {
    if p.types.Some? && node.kind !in p.types.value then []
    else
      var byType := if p.types.Some? then [ByNodeType] else [];
      if p.query.None? then byType
      else
        var byName := if Matches(node.name, p.query.value, p.exact, lower) then [ByName] else [];
        var byText := if MatchesText(node, p.query.value, p.exact, lower) then [ByText] else [];
        if byName + byText == [] then [] else byType + byName + byText
  }

  function NonBlankIds(v: View, refs: seq<Ref>): seq<string> {
    if refs == [] then []
    else (if v.host(refs[0]).id == "" then [] else [v.host(refs[0]).id]) + NonBlankIds(v, refs[1..])
  }

  function Summarize(s: Search, r: Ref, includeChildren: bool): NodeMatch {
    var node := s.view.host(r);
    NodeMatch(node.id, node.name, node.kind,
              if includeChildren then NonBlankIds(s.view, s.view.kids(r)) else [],
              s.reasons(r))
  }

  // ---------- cursors ----------

  const ROOT_ANCESTORS: set<string> := {}

  function RootItem(s: Search): Item {
    Item(s.root, [], ROOT_ANCESTORS)
  }

  function PayloadFor(s: Search, item: Item, after: bool): Cursor {
    Cursor(s.key, item.path, s.view.host(item.node).id, after)
  }

  function CursorFor(s: Search, item: Item, after: bool): seq<CodeUnit> {
    s.write(PayloadFor(s, item, after))
  }

  /** Any fault in the text is one error; so is a cursor made for another search. */
  function ParseCursor(s: Search, text: seq<CodeUnit>): Result<Cursor, SearchError> {
    var parsed := s.read(text);
    if parsed.None? || parsed.value.key != s.key then Failure(InvalidCursor) else Success(parsed.value)
  }

  const MAX_SAFE_INTEGER: nat := 0x1F_FFFF_FFFF_FFFF
  const MAX_ARRAY_LENGTH: nat := 0xFFFF_FFFF
  const MAX_SEARCH_CURSOR_BYTES: nat := 64 * 1024

  predicate SafePath(path: seq<nat>) {
    forall k :: 0 <= k < |path| ==> path[k] <= MAX_SAFE_INTEGER
  }

  /** Every payload the reader does not refuse for an index reads back as itself. */
  ghost predicate CursorsRoundTrip(s: Search) {
    forall c: Cursor :: SafePath(c.path) ==> s.read(s.write(c)) == Some(c)
  }

  /** Child lists are JavaScript arrays, so every index in one is a safe integer. */
  ghost predicate ListsAreArrays(v: View) {
    forall r: Ref :: |v.kids(r)| <= MAX_ARRAY_LENGTH
  }

  /** What paging rests on. */
  ghost predicate Pageable(s: Search) {
    CursorsRoundTrip(s) && ListsAreArrays(s.view)
  }

  /** Cursor text is the URL-safe base64 of the host's JSON. */
  ghost predicate UsesBase64Url(s: Search, stringify: Cursor -> seq<Byte>, parse: seq<Byte> -> Option<Cursor>) {
    && (forall c: Cursor :: s.write(c) == Base64.EncodeUrl(Base64.UrlSafe(), stringify(c)))
    && (forall t: seq<CodeUnit> :: s.read(t) ==
          var bytes := Base64.DecodeUrl(Base64.UrlSafe(), t);
          if bytes.None? then None else parse(bytes.value))
  }

  /** Where JSON reads back what it wrote and never writes nothing, cursors do. */
  lemma {:induction false} Base64CursorsRoundTrip(s: Search, stringify: Cursor -> seq<Byte>,
                                                  parse: seq<Byte> -> Option<Cursor>)
    requires UsesBase64Url(s, stringify, parse)
    requires forall c: Cursor :: SafePath(c.path) ==> stringify(c) != [] && parse(stringify(c)) == Some(c)
    ensures CursorsRoundTrip(s)
  {
    Base64.AlphabetsAreProper();
    forall c: Cursor | SafePath(c.path)
      ensures s.read(s.write(c)) == Some(c)
    {
      Base64.UrlRoundTrip(Base64.UrlSafe(), stringify(c));
    }
  }

  /** A cursor is accepted by the search it was made for and refused by every search
      with another key. */
  lemma {:induction false} CursorsBindTheirKey(s: Search, t: Search, item: Item, after: bool)
    requires CursorsRoundTrip(s) && t.read == s.read && SafePath(item.path)
    ensures ParseCursor(t, CursorFor(s, item, after)) ==
      if s.key == t.key then Success(PayloadFor(s, item, after)) else Failure(InvalidCursor)
  {
  }

  /** A cursor is within the length the request parsers allow exactly when its JSON takes at
      most 48 KiB. */
  lemma {:induction false} CursorLength(s: Search, stringify: Cursor -> seq<Byte>, parse: seq<Byte> -> Option<Cursor>,
                                        item: Item, after: bool)
    requires UsesBase64Url(s, stringify, parse)
    ensures |CursorFor(s, item, after)| <= MAX_SEARCH_CURSOR_BYTES
       <==> |stringify(PayloadFor(s, item, after))| <= 48 * 1024
  {
    Base64.UrlSize(stringify(PayloadFor(s, item, after)));
  }

  // ---------- the stack a cursor path stands for ----------

  /** Descend from `item` along `target`, leaving the later siblings of every step
      on the stack and the node arrived at on top. */
  function Spine(v: View, item: Item, target: seq<nat>, under: Stack): (stack: Option<Stack>)
    ensures stack.Some? ==> stack.value.Push?
    decreases |target|
  {
    if target == [] then Some(Push(item, under))
    else if target[0] >= |v.kids(item.node)| then None
    else Spine(v, ChildItem(v, item, target[0]), target[1..], PushFrom(v, item, target[0] + 1, under))
  }

  function StartingStack(s: Search, cursor: Option<Cursor>): Result<Stack, SearchError> {
    if cursor.None? then Success(Push(RootItem(s), Empty))
    else
      var spine := Spine(s.view, RootItem(s), cursor.value.path, Empty);
      if spine.None? || s.view.host(spine.value.top.node).id != cursor.value.id then Failure(InvalidCursor)
      else if cursor.value.after then Success(Step(s.view, spine.value))
      else Success(spine.value)
  }

  method InitialStack(s: Search, cursor: Option<Cursor>) returns (r: Result<Stack, SearchError>)
    ensures r == StartingStack(s, cursor)
  {
    if cursor.None? {
      return Success(Push(RootItem(s), Empty));
    }
    var target := cursor.value.path;
    var stack := Empty;
    var node := s.root;
    var path: seq<nat> := [];
    var ancestors := ROOT_ANCESTORS;
    var depth := 0;
    ghost var whole := Spine(s.view, RootItem(s), target, Empty);
    assert target[0..] == target;
    while depth < |target|
      invariant 0 <= depth <= |target|
      invariant whole == Spine(s.view, Item(node, path, ancestors), target[depth..], stack)
    {
      ghost var item := Item(node, path, ancestors);
      var targetIndex := target[depth];
      var id := s.view.host(node).id;
      if id != "" {
        ancestors := ancestors + {id};
      }
      var children := s.view.kids(node);
      if targetIndex >= |children| {
        return Failure(InvalidCursor);
      }
      stack := PushLater(s.view, item, children, path, ancestors, targetIndex, stack);
      node := children[targetIndex];
      path := path + [targetIndex];
      assert Item(node, path, ancestors) == ChildItem(s.view, item, targetIndex);
      assert target[depth..][1..] == target[depth + 1..];
      depth := depth + 1;
    }
    assert whole == Some(Push(Item(node, path, ancestors), stack));
    if s.view.host(node).id != cursor.value.id {
      return Failure(InvalidCursor);
    }
    if cursor.value.after {
      stack := PushChildren(s.view, stack, Item(node, path, ancestors));
    } else {
      stack := Push(Item(node, path, ancestors), stack);
    }
    return Success(stack);
  }

  /** The inner loop of `initialStack`: the siblings after the one descended into. */
  method PushLater(v: View, ghost item: Item, children: seq<Ref>, path: seq<nat>, ancestors: set<string>,
                   at: nat, before: Stack)
    returns (stack: Stack)
    requires children == v.kids(item.node) && path == item.path && ancestors == Below(v, item) && at < |children|
    ensures stack == PushFrom(v, item, at + 1, before)
  {
    stack := before;
    var index := |children| - 1;
    while index > at
      invariant at <= index < |children|
      invariant stack == PushFrom(v, item, index + 1, before)
    {
      assert ChildItem(v, item, index) == Item(children[index], path + [index], ancestors);
      stack := Push(Item(children[index], path + [index], ancestors), stack);
      index := index - 1;
    }
  }

  method PushChildren(v: View, stack: Stack, item: Item) returns (pushed: Stack)
    ensures pushed == Step(v, Push(item, stack))
  {
    var id := v.host(item.node).id;
    if id != "" && id in item.ancestors {
      return stack;
    }
    var ancestors := item.ancestors;
    if id != "" {
      ancestors := ancestors + {id};
    }
    var children := v.kids(item.node);
    pushed := stack;
    var index := |children| - 1;
    while index >= 0
      invariant -1 <= index < |children|
      invariant pushed == PushFrom(v, item, index + 1, stack)
    {
      assert ChildItem(v, item, index) == Item(children[index], item.path + [index], ancestors);
      pushed := Push(Item(children[index], item.path + [index], ancestors), pushed);
      index := index - 1;
    }
  }

  // ---------- resume exactness ----------

  lemma {:induction false} SpineIsSafe(v: View, item: Item, target: seq<nat>, under: Stack)
    requires ListsAreArrays(v) && Spine(v, item, target, under).Some?
    ensures SafePath(target)
    decreases |target|
  {
    if target != [] {
      assert target[0] < |v.kids(item.node)| <= MAX_ARRAY_LENGTH;
      SpineIsSafe(v, ChildItem(v, item, target[0]), target[1..], PushFrom(v, item, target[0] + 1, under));
      assert forall k :: 0 < k < |target| ==> target[k] == target[1..][k - 1];
    }
  }

  /** Descending further is descending from where one arrived. */
  lemma {:induction false} SpineExtends(v: View, item: Item, target: seq<nat>, last: seq<nat>, under: Stack)
    requires Spine(v, item, target, under).Some?
    ensures var spine := Spine(v, item, target, under).value;
      Spine(v, item, target + last, under) == Spine(v, spine.top, last, spine.under)
    decreases |target|
  {
    if target == [] {
      assert target + last == last;
    } else {
      SpineExtends(v, ChildItem(v, item, target[0]), target[1..], last, PushFrom(v, item, target[0] + 1, under));
      assert (target + last)[1..] == target[1..] + last;
    }
  }

  /** What is under the top of a spine is the spine of its own top, down to what the
      descent started from. */
  lemma {:induction false} LowerPartIsSpine(v: View, item: Item, target: seq<nat>, under: Stack)
    requires Spine(v, item, target, under).Some?
    ensures var lower := Spine(v, item, target, under).value.under;
      lower != under ==>
        && lower.Push? && item.path <= lower.top.path
        && Spine(v, item, lower.top.path[|item.path|..], under) == Some(lower)
    decreases |target|
  {
    if target != [] {
      var at := target[0];
      var child, later := ChildItem(v, item, at), PushFrom(v, item, at + 1, under);
      var lower := Spine(v, item, target, under).value.under;
      LowerPartIsSpine(v, child, target[1..], later);
      if lower == later {
        if at + 1 < |v.kids(item.node)| {
          var next := ChildItem(v, item, at + 1);
          assert lower == Push(next, PushFrom(v, item, at + 2, under));
          assert next.path[|item.path|..] == [at + 1] && [at + 1][1..] == [];
        }
      } else {
        var p := lower.top.path[|item.path|..];
        assert child.path == item.path + [at] && child.path <= lower.top.path;
        assert p[0] == lower.top.path[|item.path|] == child.path[|item.path|] == at;
        assert p[1..] == lower.top.path[|child.path|..];
      }
    }
  }

  /** A stack of an uninterrupted run is determined by its top item's path. */
  ghost predicate IsSpine(s: Search, stack: Stack) {
    stack.Push? ==> Spine(s.view, RootItem(s), stack.top.path, Empty) == Some(stack)
  }

  lemma {:induction false} StepKeepsSpine(s: Search, stack: Stack)
    requires stack.Push? && IsSpine(s, stack)
    ensures IsSpine(s, Step(s.view, stack))
  {
    var top := stack.top;
    if !Cut(s.view, top) && s.view.kids(top.node) != [] {
      assert [0][1..] == [];
      assert Spine(s.view, top, [0], stack.under) == Some(Step(s.view, stack));
      SpineExtends(s.view, RootItem(s), top.path, [0], Empty);
    } else if stack.under != Empty {
      LowerPartIsSpine(s.view, RootItem(s), top.path, Empty);
      assert stack.under.top.path[0..] == stack.under.top.path;
    }
  }

  lemma {:induction false} RunKeepsSpine(s: Search, start: Stack, popped: seq<Item>, stack: Stack)
    requires IsSpine(s, start) && Pops(s.view, start, popped, stack)
    ensures IsSpine(s, stack)
    decreases |popped|
  {
    if popped != [] {
      StepKeepsSpine(s, start);
      RunKeepsSpine(s, Step(s.view, start), popped[1..], stack);
    }
  }

  /** Resume exactness: for every item popped in an uninterrupted run, the cursor
      made from it rebuilds, node for node, path for path and ancestor set for
      ancestor set, the stack that run had before or after the item was popped. */
  lemma {:induction false} ResumeIsExact(s: Search, popped: seq<Item>, stack: Stack)
    requires Pops(s.view, Push(RootItem(s), Empty), popped, stack) && stack.Push?
    ensures StartingStack(s, Some(PayloadFor(s, stack.top, true))) == Success(Step(s.view, stack))
    ensures StartingStack(s, Some(PayloadFor(s, stack.top, false))) == Success(stack)
  {
    assert Spine(s.view, RootItem(s), [], Empty) == Some(Push(RootItem(s), Empty));
    RunKeepsSpine(s, Push(RootItem(s), Empty), popped, stack);
  }

  // ---------- one page ----------

  predicate Hit(s: Search, item: Item) {
    s.reasons(item.node) != []
  }

  /** The items that match, in order. */
  function Hits(s: Search, items: seq<Item>): seq<Item> {
    if items == [] then []
    else
      var last := items[|items| - 1];
      Hits(s, items[..|items| - 1]) + if Hit(s, last) then [last] else []
  }

  function ReturnedLimit(s: Search): nat {
    Min(s.limit, s.limits.returned)
  }

  /** How the matches are reported: the one that fills the page omits its children. */
  function Report(s: Search, hits: seq<Item>): (matches: seq<NodeMatch>)
    ensures |matches| == |hits|
  {
    if hits == [] then []
    else
      var n := |hits|;
      Report(s, hits[..n - 1]) + [Summarize(s, hits[n - 1].node, n < ReturnedLimit(s))]
  }

  function TotalSize(s: Search, matches: seq<NodeMatch>): nat {
    if matches == [] then 0
    else TotalSize(s, matches[..|matches| - 1]) + s.size(matches[|matches| - 1])
  }

  /** The number of matches that fills a page. A limit of zero still lets one
      through: the test comes after the push. */
  function Capacity(s: Search): nat {
    Max(1, ReturnedLimit(s))
  }

  datatype Stop = Exhausted | OutOfVisits | OutOfBytes | Filled

  /** One answered call: the page, and the run behind it. */
  datatype Visit = Visit(page: Page, stop: Stop, popped: seq<Item>, rest: Stack)

  /** What a page is, for the stack it starts from: which nodes it looked at, which
      matches it reports, and why it stopped. */
  ghost predicate IsPage(s: Search, start: Stack, visit: Visit) {
    && Pops(s.view, start, visit.popped, visit.rest)
    && visit.page.visited == |visit.popped| <= s.limits.visited
    && TotalSize(s, visit.page.matches) <= s.limits.bytes
    && StoppedRight(s, visit, Hits(s, visit.popped))
  }

  predicate StoppedRight(s: Search, visit: Visit, hits: seq<Item>) {
    var page := visit.page;
    match visit.stop
    case Exhausted =>
      && visit.rest == Empty && |hits| < Capacity(s)
      && page == Page(Report(s, hits), None, None, page.visited)
    case OutOfVisits =>
      && visit.rest != Empty && |hits| < Capacity(s) && page.visited == s.limits.visited
      && page == Page(Report(s, hits), Some(NodeLimit(page.visited)), None, page.visited)
    case OutOfBytes =>
      && LastIsHit(s, visit.popped) && 0 < |hits| <= Capacity(s)
      && var total := TotalSize(s, Report(s, hits));
         && page == Page(Report(s, hits)[..|hits| - 1], Some(ByteLimit(total)), None, page.visited)
         && s.limits.bytes < total
    case Filled =>
      && LastIsHit(s, visit.popped) && |hits| == Capacity(s)
      && page == if |hits| >= s.limits.returned
                 then Page(Report(s, hits), Some(NodeLimit(page.visited)), None, page.visited)
                 else Page(Report(s, hits), None, Some(CursorFor(s, Last(visit.popped), true)), page.visited)
  }

  function Last(items: seq<Item>): Item
    requires items != []
  {
    items[|items| - 1]
  }

  predicate LastIsHit(s: Search, popped: seq<Item>) {
    popped != [] && Hit(s, Last(popped))
  }

  /** A call: parse the cursor if there is one, and rebuild the stack. */
  function StartOf(s: Search, cursor: Option<seq<CodeUnit>>): Result<Stack, SearchError> {
    if cursor.None? then StartingStack(s, None)
    else
      var parsed := ParseCursor(s, cursor.value);
      if parsed.Failure? then Failure(parsed.error) else StartingStack(s, Some(parsed.value))
  }

  /** How far a page has come: what it popped, what is left, and what it holds. */
  ghost predicate Progress(s: Search, start: Stack, popped: seq<Item>, stack: Stack, matches: seq<NodeMatch>) {
    && Pops(s.view, start, popped, stack)
    && |popped| <= s.limits.visited
    && matches == Report(s, Hits(s, popped))
    && TotalSize(s, matches) <= s.limits.bytes
  }

  /** What popping one more item adds. */
  lemma {:induction false} ProgressStep(s: Search, start: Stack, popped: seq<Item>, stack: Stack,
                                        matches: seq<NodeMatch>)
    requires Progress(s, start, popped, stack, matches)
    requires stack.Push? && |popped| < s.limits.visited
    ensures var item := stack.top;
      var found := Summarize(s, item.node, |matches| + 1 < ReturnedLimit(s));
      var hits := Hits(s, popped + [item]);
      && Pops(s.view, start, popped + [item], Step(s.view, stack))
      && (!Hit(s, item) ==> Progress(s, start, popped + [item], Step(s.view, stack), matches))
      && (Hit(s, item) ==>
            && Report(s, hits) == matches + [found]
            && TotalSize(s, matches + [found]) == TotalSize(s, matches) + s.size(found)
            && |hits| == |matches| + 1)
  {
    var item := stack.top;
    var found := Summarize(s, item.node, |matches| + 1 < ReturnedLimit(s));
    PopsOne(s.view, stack);
    PopsThen(s.view, start, popped, stack, [item], Step(s.view, stack));
    assert (popped + [item])[..|popped|] == popped;
    if Hit(s, item) {
      var hits := Hits(s, popped);
      assert (hits + [item])[..|hits|] == hits;
      assert (matches + [found])[..|matches|] == matches;
    } else {
      assert Hits(s, popped) + [] == Hits(s, popped);
    }
  }

  /** Stopping before the next item is popped. */
  lemma {:induction false} StoppedBetweenItems(s: Search, start: Stack, popped: seq<Item>, stack: Stack,
                                               matches: seq<NodeMatch>)
    requires Progress(s, start, popped, stack, matches) && |matches| < Capacity(s)
    requires stack == Empty || |popped| == s.limits.visited
    ensures var n := |popped|;
      IsPage(s, start,
             if stack == Empty then Visit(Page(matches, None, None, n), Exhausted, popped, stack)
             else Visit(Page(matches, Some(NodeLimit(n)), None, n), OutOfVisits, popped, stack))
  {
  }

  /** What the call answers when `found`, for the item just popped, does not fit in
      the byte limit or fills the page. */
  function StopAtHit(s: Search, popped: seq<Item>, rest: Stack, matches: seq<NodeMatch>, found: NodeMatch): Visit
    requires popped != []
  {
    var n, total := |popped|, TotalSize(s, matches + [found]);
    if total > s.limits.bytes then Visit(Page(matches, Some(ByteLimit(total)), None, n), OutOfBytes, popped, rest)
    else if |matches| + 1 >= s.limits.returned then
      Visit(Page(matches + [found], Some(NodeLimit(n)), None, n), Filled, popped, rest)
    else Visit(Page(matches + [found], None, Some(CursorFor(s, Last(popped), true)), n), Filled, popped, rest)
  }

  lemma {:induction false} StoppedAtHit(s: Search, start: Stack, popped: seq<Item>, rest: Stack,
                                        matches: seq<NodeMatch>, found: NodeMatch)
    requires popped != [] && Pops(s.view, start, popped, rest) && |popped| <= s.limits.visited
    requires Hit(s, Last(popped)) && Report(s, Hits(s, popped)) == matches + [found]
    requires TotalSize(s, matches) <= s.limits.bytes
    requires |matches| < Capacity(s)
    requires TotalSize(s, matches + [found]) <= s.limits.bytes ==> |matches| + 1 >= ReturnedLimit(s)
    ensures IsPage(s, start, StopAtHit(s, popped, rest, matches, found))
  {
  }

  /** The part of the loop that handles a match: refuse it for its bytes, or add it
      and see whether the page is full. */
  method AddMatch(s: Search, ghost start: Stack, item: Item, ghost popped: seq<Item>, ghost rest: Stack,
                  matches: seq<NodeMatch>, encoded: nat, visited: nat)
    returns (page: Option<Page>, grown: seq<NodeMatch>, nextBytes: nat)
    requires popped != [] && Last(popped) == item && Hit(s, item)
    requires Pops(s.view, start, popped, rest) && visited == |popped| <= s.limits.visited
    requires encoded == TotalSize(s, matches) <= s.limits.bytes && |matches| < Capacity(s)
    requires var found := Summarize(s, item.node, |matches| + 1 < ReturnedLimit(s));
      && Report(s, Hits(s, popped)) == matches + [found]
      && TotalSize(s, matches + [found]) == TotalSize(s, matches) + s.size(found)
    ensures page.Some? ==>
      var visit := StopAtHit(s, popped, rest, matches, Summarize(s, item.node, |matches| + 1 < ReturnedLimit(s)));
      page.value == visit.page && IsPage(s, start, visit)
    ensures page.None? ==>
      Progress(s, start, popped, rest, grown) && nextBytes == TotalSize(s, grown) && |grown| < Capacity(s)
  {
    hide IsPage, StoppedRight, Pops, Hits, Report, TotalSize;
    var found := Summarize(s, item.node, |matches| + 1 < Min(s.limit, s.limits.returned));
    nextBytes := encoded + s.size(found);
    grown := matches + [found];
    if nextBytes > s.limits.bytes {
      StoppedAtHit(s, start, popped, rest, matches, found);
      page := Some(Page(matches, Some(ByteLimit(nextBytes)), None, visited));
    } else if |grown| < Min(s.limit, s.limits.returned) {
      page := None;
    } else {
      StoppedAtHit(s, start, popped, rest, matches, found);
      if |grown| >= s.limits.returned {
        page := Some(Page(grown, Some(NodeLimit(visited)), None, visited));
      } else {
        page := Some(Page(grown, None, Some(CursorFor(s, item, true)), visited));
      }
    }
  }

  /** The loop of one call, from the stack it starts with. */
  method RunPage(s: Search, start: Stack) returns (page: Page)
    ensures exists visit :: IsPage(s, start, visit) && visit.page == page
  {
    var stack := start;
    var matches: seq<NodeMatch> := [];
    var visited, encoded := 0, 0;
    ghost var popped: seq<Item> := [];
    while stack.Push? && visited < s.limits.visited
      invariant Progress(s, start, popped, stack, matches)
      invariant visited == |popped| && encoded == TotalSize(s, matches)
      invariant |matches| < Capacity(s)
      decreases s.limits.visited - visited
    {
      var item := stack.top;
      ProgressStep(s, start, popped, stack, matches);
      visited := visited + 1;
      popped := popped + [item];
      ghost var next := Step(s.view, stack);
      if s.reasons(item.node) != [] {
        var full, grown, nextBytes := AddMatch(s, start, item, popped, next, matches, encoded, visited);
        if full.Some? {
          ghost var found := Summarize(s, item.node, |matches| + 1 < ReturnedLimit(s));
          ghost var visit := StopAtHit(s, popped, next, matches, found);
          assert IsPage(s, start, visit) && visit.page == full.value;
          return full.value;
        }
        encoded, matches := nextBytes, grown;
      }
      stack := PushChildren(s.view, stack.under, item);
    }
    StoppedBetweenItems(s, start, popped, stack, matches);
    if stack.Push? {
      page := Page(matches, Some(NodeLimit(visited)), None, visited);
      assert IsPage(s, start, Visit(page, OutOfVisits, popped, stack));
    } else {
      page := Page(matches, None, None, visited);
      assert IsPage(s, start, Visit(page, Exhausted, popped, Empty));
    }
  }

  method SearchNodes(s: Search, cursor: Option<seq<CodeUnit>>) returns (r: Result<Page, SearchError>)
    ensures StartOf(s, cursor).Failure? ==> r == Failure(InvalidCursor)
    ensures StartOf(s, cursor).Success? ==>
      r.Success? && exists visit :: IsPage(s, StartOf(s, cursor).value, visit) && visit.page == r.value
  {
    var payload: Option<Cursor> := None;
    if cursor.Some? {
      var parsed := ParseCursor(s, cursor.value);
      if parsed.Failure? {
        return Failure(InvalidCursor);
      }
      payload := Some(parsed.value);
    }
    var initial := InitialStack(s, payload);
    if initial.Failure? {
      return Failure(InvalidCursor);
    }
    var page := RunPage(s, initial.value);
    return Success(page);
  }

  // ---------- pages are determined ----------

  lemma {:induction false} HitsOfConcat(s: Search, a: seq<Item>, b: seq<Item>)
    ensures Hits(s, a + b) == Hits(s, a) + Hits(s, b)
    decreases |b|
  {
    if b == [] {
      assert a + b == a;
    } else {
      assert (a + b)[..|a + b| - 1] == a + b[..|b| - 1];
      HitsOfConcat(s, a, b[..|b| - 1]);
    }
  }

  lemma {:induction false} ReportPrefix(s: Search, hits: seq<Item>, n: nat)
    requires n <= |hits|
    ensures Report(s, hits)[..n] == Report(s, hits[..n])
    ensures TotalSize(s, Report(s, hits[..n])) <= TotalSize(s, Report(s, hits))
    decreases |hits|
  {
    if n < |hits| {
      var k := |hits| - 1;
      ReportPrefix(s, hits[..k], n);
      assert hits[..k][..n] == hits[..n];
      assert Report(s, hits)[..k] == Report(s, hits[..k]);
    } else {
      assert hits[..n] == hits;
    }
  }

  /** These matches leave no room for another. */
  predicate Full(s: Search, hits: seq<Item>) {
    |hits| >= Capacity(s) || TotalSize(s, Report(s, hits)) > s.limits.bytes
  }

  lemma {:induction false} FullGrows(s: Search, early: seq<Item>, late: seq<Item>)
    requires early <= late && Full(s, early)
    ensures Full(s, late)
  {
    ReportPrefix(s, late, |early|);
    assert late[..|early|] == early;
  }

  /** Before its last item no page was full. */
  lemma {:induction false} NotFullBefore(s: Search, start: Stack, w: Visit)
    requires IsPage(s, start, w) && w.popped != []
    ensures !Full(s, Hits(s, w.popped[..|w.popped| - 1]))
  {
    var hits, before := Hits(s, w.popped), Hits(s, w.popped[..|w.popped| - 1]);
    if LastIsHit(s, w.popped) {
      assert hits == before + [Last(w.popped)];
      assert hits[..|hits| - 1] == before;
      ReportPrefix(s, hits, |hits| - 1);
    } else {
      assert hits == before + [] == before;
    }
  }

  lemma {:induction false} StoppedForAReason(s: Search, start: Stack, v: Visit)
    requires IsPage(s, start, v)
    ensures v.rest == Empty || |v.popped| == s.limits.visited || Full(s, Hits(s, v.popped))
  {
  }

  lemma {:induction false} HitsOfPrefix(s: Search, a: seq<Item>, b: seq<Item>)
    requires a <= b
    ensures Hits(s, a) <= Hits(s, b)
  {
    HitsOfConcat(s, a, b[|a|..]);
    assert b == a + b[|a|..];
  }

  /** No call goes past a place where another from the same stack had to stop. */
  lemma {:induction false} NobodyStopsLater(s: Search, start: Stack, v: Visit, w: Visit)
    requires IsPage(s, start, v) && IsPage(s, start, w)
    ensures |v.popped| >= |w.popped|
  {
    hide Full, Hits, StoppedRight, Pops, TotalSize;
    if |v.popped| < |w.popped| {
      ShorterRun(s.view, start, v.popped, v.rest, w.popped, w.rest);
      StoppedForAReason(s, start, v);
      NotFullBefore(s, start, w);
      var front := w.popped[..|w.popped| - 1];
      HitsOfPrefix(s, v.popped, front);
      if Full(s, Hits(s, v.popped)) {
        FullGrows(s, Hits(s, v.popped), Hits(s, front));
      }
    }
  }

  /** Why a page stops, from what it popped and what is left. */
  function StopOf(s: Search, popped: seq<Item>, rest: Stack): Stop {
    var hits := Hits(s, popped);
    if LastIsHit(s, popped) && TotalSize(s, Report(s, hits)) > s.limits.bytes then OutOfBytes
    else if LastIsHit(s, popped) && |hits| == Capacity(s) then Filled
    else if rest == Empty then Exhausted
    else OutOfVisits
  }

  lemma {:induction false} StopIsDetermined(s: Search, start: Stack, v: Visit)
    requires IsPage(s, start, v)
    ensures v.stop == StopOf(s, v.popped, v.rest)
  {
  }

  lemma {:induction false} SameStopSamePage(s: Search, start: Stack, v: Visit, w: Visit)
    requires IsPage(s, start, v) && IsPage(s, start, w)
    requires v.stop == w.stop && v.popped == w.popped && v.rest == w.rest
    ensures v == w
  {
  }

  /** The description of a page leaves no choice: from one stack there is one page. */
  lemma {:induction false} PageIsDetermined(s: Search, start: Stack, v: Visit, w: Visit)
    requires IsPage(s, start, v) && IsPage(s, start, w)
    ensures v == w
  {
    NobodyStopsLater(s, start, v, w);
    NobodyStopsLater(s, start, w, v);
    SameRun(s.view, start, v.popped, v.rest, w.popped, w.rest);
    StopIsDetermined(s, start, v);
    StopIsDetermined(s, start, w);
    SameStopSamePage(s, start, v, w);
  }

  // ---------- a whole session of pages ----------

  /** The pages of a session, in order. */
  datatype Visits = NoMore | Then(visit: Visit, later: Visits)

  /** Whether a call with this cursor, or without one, is answered so. */
  type Answers = (Option<seq<CodeUnit>>, Visit) -> bool

  /** Answers to a call with `cursor` and then to every `nextCursor` in turn. */
  ghost predicate Follow(answers: Answers, cursor: Option<seq<CodeUnit>>, visits: Visits)
    decreases visits
  {
    && visits.Then?
    && answers(cursor, visits.visit)
    && (visits.later.Then? ==>
          visits.visit.page.nextCursor.Some? && Follow(answers, visits.visit.page.nextCursor, visits.later))
  }

  /** A session: a first call without a cursor, and then every `nextCursor`. */
  ghost predicate Session(s: Search, visits: Visits) {
    Follow((c, v) => IsAnswer(s, c, v), None, visits)
  }

  function PageCount(visits: Visits): nat {
    if visits.NoMore? then 0 else 1 + PageCount(visits.later)
  }

  function LastPage(visits: Visits): Page
    requires visits.Then?
  {
    if visits.later.NoMore? then visits.visit.page else LastPage(visits.later)
  }

  /** The call with `cursor` succeeds with this page. */
  ghost predicate IsAnswer(s: Search, cursor: Option<seq<CodeUnit>>, visit: Visit) {
    StartOf(s, cursor).Success? && IsPage(s, StartOf(s, cursor).value, visit)
  }

  /** What the property compares of each match. */
  datatype MatchKey = MatchKey(id: string, name: string, kind: string, reasons: seq<MatchReason>)

  function KeyOf(s: Search, r: Ref): MatchKey {
    MatchKey(s.view.host(r).id, s.view.host(r).name, s.view.host(r).kind, s.reasons(r))
  }

  function Keys(matches: seq<NodeMatch>): (keys: seq<MatchKey>)
    ensures |keys| == |matches|
  {
    if matches == [] then []
    else
      var last := matches[|matches| - 1];
      Keys(matches[..|matches| - 1]) + [MatchKey(last.id, last.name, last.kind, last.reasons)]
  }

  function AllKeys(visits: Visits): seq<MatchKey> {
    if visits.NoMore? then [] else Keys(visits.visit.page.matches) + AllKeys(visits.later)
  }

  /** The keys of the nodes that match, among those listed, in order. */
  function FoundKeys(s: Search, items: seq<Item>): seq<MatchKey> {
    if items == [] then []
    else
      var last := items[|items| - 1].node;
      FoundKeys(s, items[..|items| - 1])
        + if s.reasons(last) == [] then [] else [KeyOf(s, last)]
  }

  lemma {:induction false} FoundKeysOfConcat(s: Search, a: seq<Item>, b: seq<Item>)
    ensures FoundKeys(s, a + b) == FoundKeys(s, a) + FoundKeys(s, b)
    decreases |b|
  {
    if b == [] {
      assert a + b == a;
    } else {
      assert (a + b)[..|a + b| - 1] == a + b[..|b| - 1];
      FoundKeysOfConcat(s, a, b[..|b| - 1]);
    }
  }

  lemma {:induction false} KeysOfReport(s: Search, items: seq<Item>)
    ensures Keys(Report(s, Hits(s, items))) == FoundKeys(s, items)
  {
    hide Keys, Report;
    if items == [] {
      KeysOfNone(s);
    } else {
      var before, last := items[..|items| - 1], items[|items| - 1];
      KeysOfReport(s, before);
      if Hit(s, last) {
        KeysOneMore(s, Hits(s, before), last);
      } else {
        assert Hits(s, before) + [] == Hits(s, before);
        assert FoundKeys(s, before) + [] == FoundKeys(s, before);
      }
    }
  }

  lemma {:induction false} KeysOfNone(s: Search)
    ensures Keys(Report(s, [])) == []
  {
  }

  lemma {:induction false} KeysOneMore(s: Search, hits: seq<Item>, hit: Item)
    ensures Keys(Report(s, hits + [hit]))
         == Keys(Report(s, hits)) + [KeyOf(s, hit.node)]
  {
    assert (hits + [hit])[..|hits|] == hits;
    var report := Report(s, hits + [hit]);
    assert report[..|report| - 1] == Report(s, hits);
  }

  ghost predicate Untruncated(visits: Visits) {
    visits.Then? ==> visits.visit.page.truncation.None? && Untruncated(visits.later)
  }

  /** What an untruncated page says: it stopped for lack of nodes, or at a match it
      made a cursor from. */
  lemma {:induction false} UntruncatedPage(s: Search, start: Stack, visit: Visit)
    requires IsPage(s, start, visit) && visit.page.truncation.None?
    ensures Keys(visit.page.matches) == FoundKeys(s, visit.popped)
    ensures visit.page.nextCursor.None? ==> visit.rest == Empty
    ensures visit.page.nextCursor.Some? ==>
      && visit.popped != [] && visit.page.matches != []
      && visit.page.nextCursor == Some(CursorFor(s, Last(visit.popped), true))
  {
    KeysOfReport(s, visit.popped);
  }

  /** The cursor of the last node popped so far in the uninterrupted run brings back
      exactly the stack that run has now. */
  lemma {:induction false} CursorResumes(s: Search, popped: seq<Item>, stack: Stack)
    requires Pageable(s)
    requires popped != [] && Pops(s.view, Push(RootItem(s), Empty), popped, stack)
    ensures StartOf(s, Some(CursorFor(s, Last(popped), true))) == Success(stack)
  {
    var k := |popped| - 1;
    var before := PopsSplit(s.view, Push(RootItem(s), Empty), popped, stack, k);
    assert popped[k..] == [Last(popped)];
    assert Pops(s.view, Step(s.view, before), [Last(popped)][1..], stack);
    ResumeIsExact(s, popped[..k], before);
    SpineIsSafe(s.view, RootItem(s), Last(popped).path, Empty);
    CursorsBindTheirKey(s, s, Last(popped), true);
  }

  /** A cursor that stands at the end of `done`: none at the very start, else the one
      made from the last node popped. */
  predicate StandsAfter(s: Search, cursor: Option<seq<CodeUnit>>, done: seq<Item>) {
    if done == [] then cursor.None? else cursor == Some(CursorFor(s, Last(done), true))
  }

  /** A call with that cursor starts from the stack the run has then. */
  lemma {:induction false} StartsWhereItStands(s: Search, cursor: Option<seq<CodeUnit>>, done: seq<Item>, stack: Stack)
    requires Pageable(s)
    requires Pops(s.view, Push(RootItem(s), Empty), done, stack) && StandsAfter(s, cursor, done)
    ensures StartOf(s, cursor) == Success(stack)
  {
    if done != [] {
      CursorResumes(s, done, stack);
    }
  }

  /** One untruncated answer moves the uninterrupted run on by what it popped. */
  lemma {:induction false} AnswerFollowsRun(s: Search, cursor: Option<seq<CodeUnit>>, done: seq<Item>,
                                            stack: Stack, visit: Visit)
    requires Pageable(s)
    requires Pops(s.view, Push(RootItem(s), Empty), done, stack) && StandsAfter(s, cursor, done)
    requires IsAnswer(s, cursor, visit) && visit.page.truncation.None?
    ensures Pops(s.view, Push(RootItem(s), Empty), done + visit.popped, visit.rest)
    ensures FoundKeys(s, done + visit.popped) == FoundKeys(s, done) + Keys(visit.page.matches)
    ensures visit.page.nextCursor.None? ==> visit.rest == Empty
    ensures visit.page.nextCursor.Some? ==>
      visit.page.matches != [] && StandsAfter(s, visit.page.nextCursor, done + visit.popped)
  {
    StartsWhereItStands(s, cursor, done, stack);
    UntruncatedPage(s, stack, visit);
    PopsThen(s.view, Push(RootItem(s), Empty), done, stack, visit.popped, visit.rest);
    FoundKeysOfConcat(s, done, visit.popped);
  }

  lemma {:induction false} Associate<T>(a: seq<T>, b: seq<T>, c: seq<T>)
    ensures a + b + c == a + (b + c)
    ensures c == [] ==> b + c == b
  {
  }

  lemma {:induction false} FirstFollowsRun(s: Search, answers: Answers, cursor: Option<seq<CodeUnit>>,
                                           done: seq<Item>, stack: Stack, visits: Visits)
    requires Pageable(s)
    requires forall c, v :: answers(c, v) ==> IsAnswer(s, c, v)
    requires Pops(s.view, Push(RootItem(s), Empty), done, stack) && StandsAfter(s, cursor, done)
    requires Follow(answers, cursor, visits) && Untruncated(visits)
    ensures var visit := visits.visit;
      var popped := done + visit.popped;
      && Pops(s.view, Push(RootItem(s), Empty), popped, visit.rest)
      && FoundKeys(s, popped) == FoundKeys(s, done) + Keys(visit.page.matches)
      && (if visit.page.nextCursor.None? then visit.rest == Empty && visits.later.NoMore?
          else visit.page.matches != [] && StandsAfter(s, visit.page.nextCursor, popped))
  {
    assert answers(cursor, visits.visit);
    AnswerFollowsRun(s, cursor, done, stack, visits.visit);
  }

  /** Every session follows the one uninterrupted run: after its pages, exactly the
      matches among the nodes that run has popped so far have been returned. */
  lemma {:induction false} SessionFollowsRun(s: Search, answers: Answers, cursor: Option<seq<CodeUnit>>,
                                             done: seq<Item>, stack: Stack, visits: Visits)
    returns (popped: seq<Item>, rest: Stack)
    requires Pageable(s)
    requires forall c, v :: answers(c, v) ==> IsAnswer(s, c, v)
    requires Pops(s.view, Push(RootItem(s), Empty), done, stack) && StandsAfter(s, cursor, done)
    requires Follow(answers, cursor, visits) && Untruncated(visits)
    ensures Pops(s.view, Push(RootItem(s), Empty), popped, rest)
    ensures FoundKeys(s, popped) == FoundKeys(s, done) + AllKeys(visits)
    ensures |AllKeys(visits)| + 1 >= PageCount(visits)
    ensures var next := LastPage(visits).nextCursor;
      if next.None? then rest == Empty else StandsAfter(s, next, popped)
    decreases visits
  {
    var visit, later := visits.visit, visits.later;
    FirstFollowsRun(s, answers, cursor, done, stack, visits);
    popped, rest := done + visit.popped, visit.rest;
    var before, keys := FoundKeys(s, done), Keys(visit.page.matches);
    if later.Then? {
      popped, rest := SessionFollowsRun(s, answers, visit.page.nextCursor, popped, rest, later);
    }
    Associate(before, keys, AllKeys(later));
  }

  /** Paging is lossless. A session of untruncated pages followed to its end shows
      that the visible, cycle-cut preorder of the root is finite, and returns
      exactly its matching nodes, in order, each once. */
  lemma {:induction false} PagingIsLossless(s: Search, visits: Visits) returns (depth: nat)
    requires Pageable(s)
    requires Session(s, visits) && Untruncated(visits)
    requires LastPage(visits).nextCursor.None?
    ensures Unfolds(s.view, RootItem(s), depth)
    ensures AllKeys(visits) == FoundKeys(s, Preorder(s.view, RootItem(s), depth))
  {
    var root := Push(RootItem(s), Empty);
    var popped, rest := SessionFollowsRun(s, (c, v) => IsAnswer(s, c, v), None, [], root, visits);
    EndedRunUnfolds(s.view, root, popped);
    depth := |popped|;
    PreorderIsPopped(s.view, RootItem(s), depth, Empty);
    RunIsPrefixOfEnded(s.view, root, popped, rest, Preorder(s.view, RootItem(s), depth));
  }

  predicate OutOfRoom(page: Page) {
    page.truncation.Some? && page.truncation.value.ByteLimit?
  }

  /** What any page returns: the matches it popped, but for the last one when that one did
      not fit in the byte limit. A page that names a next cursor is not truncated. */
  lemma {:induction false} KeysOfPage(s: Search, start: Stack, visit: Visit)
    returns (missed: seq<MatchKey>)
    requires IsPage(s, start, visit)
    ensures FoundKeys(s, visit.popped) == Keys(visit.page.matches) + missed
    ensures |missed| == if OutOfRoom(visit.page) then 1 else 0
    ensures visit.page.nextCursor.Some? ==> visit.page.truncation.None?
  {
    hide Pops, Hits, Report, Keys, FoundKeys, TotalSize;
    var hits := Hits(s, visit.popped);
    KeysOfReport(s, visit.popped);
    if OutOfRoom(visit.page) {
      KeysOfShorter(s, hits);
      missed := Keys(Report(s, hits))[|hits| - 1..];
    } else {
      missed := [];
    }
  }

  lemma {:induction false} KeysOfShorter(s: Search, hits: seq<Item>)
    requires hits != []
    ensures Keys(Report(s, hits)[..|hits| - 1]) == Keys(Report(s, hits))[..|hits| - 1]
  {
    hide Report;
  }

  lemma {:induction false} AnyAnswerFollowsRun(s: Search, cursor: Option<seq<CodeUnit>>, done: seq<Item>,
                                               stack: Stack, visit: Visit)
    returns (missed: seq<MatchKey>)
    requires Pageable(s)
    requires Pops(s.view, Push(RootItem(s), Empty), done, stack) && StandsAfter(s, cursor, done)
    requires IsAnswer(s, cursor, visit)
    ensures Pops(s.view, Push(RootItem(s), Empty), done + visit.popped, visit.rest)
    ensures FoundKeys(s, done + visit.popped) == FoundKeys(s, done) + (Keys(visit.page.matches) + missed)
    ensures |missed| == if OutOfRoom(visit.page) then 1 else 0
    ensures visit.page.nextCursor.Some? ==> visit.page.truncation.None?
  {
    hide OutOfRoom, FoundKeys, Keys, Pops;
    StartsWhereItStands(s, cursor, done, stack);
    missed := KeysOfPage(s, stack, visit);
    PopsThen(s.view, Push(RootItem(s), Empty), done, stack, visit.popped, visit.rest);
    FoundKeysOfConcat(s, done, visit.popped);
  }

  /** A session with a truncated page follows the uninterrupted run as well, for no page
      comes after that one: what it returned are the matches that run has popped, but for
      the one that did not fit in the byte limit. */
  lemma {:induction false} AnySessionFollowsRun(s: Search, answers: Answers, cursor: Option<seq<CodeUnit>>,
                                                done: seq<Item>, stack: Stack, visits: Visits)
    returns (popped: seq<Item>, rest: Stack, missed: seq<MatchKey>)
    requires Pageable(s)
    requires forall c, v :: answers(c, v) ==> IsAnswer(s, c, v)
    requires Pops(s.view, Push(RootItem(s), Empty), done, stack) && StandsAfter(s, cursor, done)
    requires Follow(answers, cursor, visits)
    ensures Pops(s.view, Push(RootItem(s), Empty), popped, rest)
    ensures FoundKeys(s, popped) == FoundKeys(s, done) + (AllKeys(visits) + missed)
    ensures |missed| == if OutOfRoom(LastPage(visits)) then 1 else 0
    decreases visits
  {
    hide OutOfRoom, FoundKeys, Keys, Pops, IsAnswer;
    var visit, later := visits.visit, visits.later;
    assert answers(cursor, visit);
    var keys := Keys(visit.page.matches);
    missed := AnyAnswerFollowsRun(s, cursor, done, stack, visit);
    popped, rest := done + visit.popped, visit.rest;
    if later.Then? {
      AnswerFollowsRun(s, cursor, done, stack, visit);
      popped, rest, missed := AnySessionFollowsRun(s, answers, visit.page.nextCursor, popped, rest, later);
      Associate(FoundKeys(s, done), keys, AllKeys(later) + missed);
      Associate(keys, AllKeys(later), missed);
    } else {
      assert keys + [] == keys;
    }
  }

  /** So every session, truncated or not and wherever it is broken off, has returned the
      first of the preorder's matches, in order. */
  lemma {:induction false} EverySessionIsAPrefix(s: Search, depth: nat, visits: Visits)
    requires Pageable(s) && Unfolds(s.view, RootItem(s), depth)
    requires Session(s, visits)
    ensures AllKeys(visits) <= FoundKeys(s, Preorder(s.view, RootItem(s), depth))
  {
    hide FoundKeys, Pops, Preorder, Unfolds, AllKeys;
    var root, preorder := Push(RootItem(s), Empty), Preorder(s.view, RootItem(s), depth);
    NothingPopped(s, root);
    var popped, rest, missed := AnySessionFollowsRun(s, (c, v) => IsAnswer(s, c, v), None, [], root, visits);
    PreorderIsPopped(s.view, RootItem(s), depth, Empty);
    RunIsPrefixOfEnded(s.view, root, popped, rest, preorder);
    FoundKeysOfConcat(s, popped, preorder[|popped|..]);
    assert preorder == popped + preorder[|popped|..];
  }

  lemma {:induction false} NothingPopped(s: Search, stack: Stack)
    ensures Pops(s.view, stack, [], stack) && FoundKeys(s, []) == []
  {
  }

  /** The sequence of pages ends. When the preorder is finite, no session of
      untruncated pages is longer than its number of matches plus one, and a page
      that names a next cursor names one the next call accepts. */
  lemma {:induction false} PagingEnds(s: Search, depth: nat, visits: Visits)
    requires Pageable(s)
    requires Unfolds(s.view, RootItem(s), depth)
    requires Session(s, visits) && Untruncated(visits)
    ensures PageCount(visits) <= |FoundKeys(s, Preorder(s.view, RootItem(s), depth))| + 1
    ensures var last := LastPage(visits);
      last.nextCursor.Some? ==> StartOf(s, last.nextCursor).Success?
  {
    var root := Push(RootItem(s), Empty);
    var popped, rest := SessionFollowsRun(s, (c, v) => IsAnswer(s, c, v), None, [], Push(RootItem(s), Empty), visits);
    var preorder := Preorder(s.view, RootItem(s), depth);
    PreorderIsPopped(s.view, RootItem(s), depth, Empty);
    RunIsPrefixOfEnded(s.view, root, popped, rest, preorder);
    FoundKeysOfConcat(s, popped, preorder[|popped|..]);
    assert preorder == popped + preorder[|popped|..];
    if LastPage(visits).nextCursor.Some? {
      assert popped != [];
      CursorResumes(s, popped, rest);
    }
  }

  /** Over a real document whose enterable nodes have ids, every search ends. */
  lemma {:induction false} PagingOfNamedDocumentEnds(s: Search, doc: Doc, visits: Visits)
    requires Pageable(s) && s.view == ViewOf(doc)
    requires forall r :: r in doc && doc[r].id == "" ==> s.view.kids(r) == []
    requires Session(s, visits) && Untruncated(visits)
    ensures Unfolds(s.view, RootItem(s), |Ids(doc)|)
    ensures PageCount(visits) <= |FoundKeys(s, Preorder(s.view, RootItem(s), |Ids(doc)|))| + 1
  {
    NamedDocumentsUnfold(doc, RootItem(s));
    PagingEnds(s, |Ids(doc)|, visits);
  }

  /** Over a document whose parent links agree with its child lists every search ends too,
      whatever the ids. */
  lemma {:induction false} PagingOfAgreeingDocumentEnds(s: Search, doc: Doc, visits: Visits)
    requires Pageable(s) && s.view == ViewOf(doc) && ParentsAgree(doc)
    requires Session(s, visits) && Untruncated(visits)
    ensures Unfolds(s.view, RootItem(s), MAX_ANCESTOR_WALK)
    ensures PageCount(visits) <= |FoundKeys(s, Preorder(s.view, RootItem(s), MAX_ANCESTOR_WALK))| + 1
  {
    if s.root in doc {
      assert Up(doc, s.root, 0) == s.root;
    }
    AgreeingDocumentsUnfold(doc, RootItem(s), 0, MAX_ANCESTOR_WALK);
    PagingEnds(s, MAX_ANCESTOR_WALK, visits);
  }

  /** And over any document exactly the infinite walks page for ever: a session of
      untruncated pages ends within the matches plus one unless the walk comes to a node
      without an id below itself through such nodes, and then every page names a next. */
  lemma {:induction false} PagingEndsUnlessBlankLoop(s: Search, doc: Doc, visits: Visits)
    requires Pageable(s) && s.view == ViewOf(doc)
    requires Session(s, visits) && Untruncated(visits)
    ensures HasBlankLoop(s.view, RootItem(s)) ==> LastPage(visits).nextCursor.Some?
    ensures !HasBlankLoop(s.view, RootItem(s)) ==>
      && Unfolds(s.view, RootItem(s), DepthBound(doc))
      && PageCount(visits) <= |FoundKeys(s, Preorder(s.view, RootItem(s), DepthBound(doc)))| + 1
  {
    InfiniteExactlyWithBlankLoop(doc, RootItem(s));
    if HasBlankLoop(s.view, RootItem(s)) {
      if LastPage(visits).nextCursor.None? {
        var depth := PagingIsLossless(s, visits);
      }
    } else {
      PagingEnds(s, DepthBound(doc), visits);
    }
  }

  /** When nothing matches, an infinite walk ends the first call with its visits spent and
      no cursor. */
  lemma {:induction false} EndlessSearchWithoutMatches(s: Search, visit: Visit)
    requires forall depth: nat :: !Unfolds(s.view, RootItem(s), depth)
    requires forall r :: s.reasons(r) == []
    requires IsPage(s, Push(RootItem(s), Empty), visit)
    ensures visit.page == Page([], Some(NodeLimit(s.limits.visited)), None, s.limits.visited)
  {
    NothingHits(s, visit.popped);
    if visit.rest == Empty {
      EndedRunUnfolds(s.view, Push(RootItem(s), Empty), visit.popped);
    }
  }

  lemma {:induction false} NothingHits(s: Search, items: seq<Item>)
    requires forall r :: s.reasons(r) == []
    ensures Hits(s, items) == []
  {
    if items != [] {
      NothingHits(s, items[..|items| - 1]);
    }
  }

  // ---------- a session without end ----------

  /** The place of the self-listed node below itself, `k` levels down. */
  function Deep(k: nat): Item {
    Item(0, Zeros(k), ROOT_ANCESTORS)
  }

  function Zeros(k: nat): seq<nat> {
    if k == 0 then [] else Zeros(k - 1) + [0]
  }

  /** The places from `k` on, `n` of them. */
  function Places(k: nat, n: nat): (items: seq<Item>)
    ensures |items| == n
  {
    if n == 0 then [] else Places(k, n - 1) + [Deep(k + n - 1)]
  }

  /** A search of the self-listed node, which matches, with a page limit that the other
      limits leave room for. */
  ghost predicate SearchesSelfListed(s: Search) {
    && Pageable(s) && s.view == ViewOf(SELF_LISTED) && s.root == 0 && s.reasons(0) != []
    && 1 <= s.limit < s.limits.returned && s.limit <= s.limits.visited
    && s.limit * Max(s.size(Summarize(s, 0, true)), s.size(Summarize(s, 0, false))) <= s.limits.bytes
  }

  lemma {:induction false} SelfListedPops(s: Search, k: nat, n: nat)
    requires SearchesSelfListed(s)
    ensures Pops(s.view, Push(Deep(k), Empty), Places(k, n), Push(Deep(k + n), Empty))
  {
    if n > 0 {
      SelfListedPops(s, k, n - 1);
      SelfListedLoops();
      var last := Deep(k + n - 1);
      assert ChildItem(s.view, last, 0) == Deep(k + n);
      assert PushFrom(s.view, last, 1, Empty) == Empty;
      assert Step(s.view, Push(last, Empty)) == Push(Deep(k + n), Empty);
      PopsOne(s.view, Push(last, Empty));
      PopsThen(s.view, Push(Deep(k), Empty), Places(k, n - 1), Push(last, Empty), [last], Push(Deep(k + n), Empty));
    }
  }

  lemma {:induction false} SelfListedHits(s: Search, k: nat, n: nat)
    requires SearchesSelfListed(s)
    ensures Hits(s, Places(k, n)) == Places(k, n)
  {
    if n > 0 {
      SelfListedHits(s, k, n - 1);
      assert Places(k, n)[..n - 1] == Places(k, n - 1);
    }
  }

  lemma {:induction false} SelfListedReport(s: Search, k: nat, n: nat)
    requires n > 0
    ensures var found := Summarize(s, 0, n < ReturnedLimit(s));
      TotalSize(s, Report(s, Places(k, n))) == TotalSize(s, Report(s, Places(k, n - 1))) + s.size(found)
  {
    assert Places(k, n)[..n - 1] == Places(k, n - 1);
    var report := Report(s, Places(k, n));
    assert report[..n - 1] == Report(s, Places(k, n - 1));
  }

  lemma {:induction false} SelfListedSize(s: Search, k: nat, n: nat, most: nat)
    requires s.size(Summarize(s, 0, true)) <= most && s.size(Summarize(s, 0, false)) <= most
    ensures TotalSize(s, Report(s, Places(k, n))) <= n * most
  {
    if n == 0 {
      assert n * most == 0;
    } else {
      SelfListedSize(s, k, n - 1, most);
      SelfListedReport(s, k, n);
      assert n * most == (n - 1) * most + most;
    }
  }

  /** The page that starts `k` levels down. */
  function SelfListedPage(s: Search, k: nat): Visit
    requires s.limit > 0
  {
    Visit(Page(Report(s, Places(k, s.limit)), None, Some(CursorFor(s, Deep(k + s.limit - 1), true)), s.limit),
          Filled, Places(k, s.limit), Push(Deep(k + s.limit), Empty))
  }

  lemma {:induction false} SelfListedPageIsOne(s: Search, k: nat)
    requires SearchesSelfListed(s)
    ensures IsPage(s, Push(Deep(k), Empty), SelfListedPage(s, k))
  {
    hide Pops, TotalSize, Report, Hits, Summarize, CursorFor;
    SelfListedPops(s, k, s.limit);
    SelfListedHits(s, k, s.limit);
    SelfListedSize(s, k, s.limit, Max(s.size(Summarize(s, 0, true)), s.size(Summarize(s, 0, false))));
    assert Last(Places(k, s.limit)) == Deep(k + s.limit - 1);
  }

  /** The cursor before the page that starts `k` levels down. */
  function CursorAt(s: Search, k: nat): Option<seq<CodeUnit>> {
    if k == 0 then None else Some(CursorFor(s, Deep(k - 1), true))
  }

  lemma {:induction false} SelfListedAnswer(s: Search, k: nat)
    requires SearchesSelfListed(s)
    ensures IsAnswer(s, CursorAt(s, k), SelfListedPage(s, k))
  {
    hide Pops, IsPage, Spine;
    SelfListedPageIsOne(s, k);
    if k > 0 {
      SelfListedPops(s, 0, k);
      assert Last(Places(0, k)) == Deep(k - 1);
      CursorResumes(s, Places(0, k), Push(Deep(k), Empty));
    }
  }

  /** `n` pages from level `k` on. */
  function SelfListedPages(s: Search, k: nat, n: nat): Visits
    requires s.limit > 0
    decreases n
  {
    if n == 0 then NoMore else Then(SelfListedPage(s, k), SelfListedPages(s, k + s.limit, n - 1))
  }

  /** From the self-listed node there are sessions of every length, no page truncated and
      each naming the next. */
  lemma {:induction false} SessionsOfEveryLength(s: Search, n: nat)
    requires SearchesSelfListed(s) && n > 0
    ensures Session(s, SelfListedPages(s, 0, n)) && Untruncated(SelfListedPages(s, 0, n))
    ensures PageCount(SelfListedPages(s, 0, n)) == n
  {
    forall k: nat
      ensures IsAnswer(s, CursorAt(s, k), SelfListedPage(s, k))
    {
      SelfListedAnswer(s, k);
    }
    SelfListedFollows(s, (c, v) => IsAnswer(s, c, v), 0, n);
  }

  lemma {:induction false} SelfListedFollows(s: Search, answers: Answers, k: nat, n: nat)
    requires s.limit > 0 && n > 0
    requires forall j: nat :: answers(CursorAt(s, j), SelfListedPage(s, j))
    ensures var visits := SelfListedPages(s, k, n);
      Follow(answers, CursorAt(s, k), visits) && Untruncated(visits) && PageCount(visits) == n
    decreases n
  {
    hide Hits, Report, Summarize, TotalSize, CursorFor, Places;
    var page, rest := SelfListedPage(s, k), SelfListedPages(s, k + s.limit, n - 1);
    assert SelfListedPages(s, k, n) == Then(page, rest);
    assert answers(CursorAt(s, k), page) && page.page.nextCursor == CursorAt(s, k + s.limit);
    if n > 1 {
      SelfListedFollows(s, answers, k + s.limit, n - 1);
    } else {
      assert rest == NoMore;
    }
  }
}
