/** What a cursor is made of: the key that binds it to one search, its JSON, and how long
    it gets. Text is a sequence of code points, as JSON writes it. */
module Cursors {
  import opened Common
  import opened Document
  import opened Walk
  import Base64
  import S = Search

  datatype Scope = PageScope(id: string) | NodeScope(id: string)

  /** A search as the request parser hands it on: its query and types are trimmed. */
  datatype Request = Request(scope: Scope, query: Option<string>, types: seq<string>, exact: bool)

  // ---------- JSON strings ----------

  function HexLetter(n: nat): char
    requires n < 16
  {
    "0123456789abcdef"[n]
  }

  /** One character inside a JSON string. */
  function Escape(c: char): (text: string)
    ensures text != []
  {
    var n := c as int;
    if c == '"' then "\\\""
    else if c == '\\' then "\\\\"
    else if n == 0x08 then "\\b"
    else if n == 0x09 then "\\t"
    else if n == 0x0A then "\\n"
    else if n == 0x0C then "\\f"
    else if n == 0x0D then "\\r"
    else if n < 0x20 then ['\\', 'u', '0', '0', HexLetter(n / 16), HexLetter(n % 16)]
    else [c]
  }

  /** The rest of a JSON string, its closing quote, and what follows. */
  function EscapedThen(t: string, rest: string): string {
    if t == [] then ['"'] + rest else Escape(t[0]) + EscapedThen(t[1..], rest)
  }

  function QuotedThen(t: string, rest: string): string {
    ['"'] + EscapedThen(t, rest)
  }

  lemma {:induction false} HexLettersDiffer(m: nat, n: nat)
    requires m < 16 && n < 16 && HexLetter(m) == HexLetter(n)
    ensures m == n
  {
  }

  /** Nothing is read off the end of an escape but the character it stands for. */
  lemma {:induction false} EscapeReads(c: char, d: char, x: string, y: string)
    requires Escape(c) + x == Escape(d) + y
    ensures c == d && x == y
  {
    var both := Escape(c) + x;
    assert both[0] == Escape(c)[0] == Escape(d)[0];
    if |Escape(c)| > 1 || |Escape(d)| > 1 {
      assert both[1] == Escape(c)[1] == Escape(d)[1];
      if both[1] == 'u' {
        assert both[4] == Escape(c)[4] == Escape(d)[4] && both[5] == Escape(c)[5] == Escape(d)[5];
        HexLettersDiffer(c as int / 16, d as int / 16);
        HexLettersDiffer(c as int % 16, d as int % 16);
      }
    }
    assert x == both[|Escape(c)|..] && y == both[|Escape(d)|..];
  }

  lemma {:induction false} EscapedReads(a: string, b: string, x: string, y: string)
    requires EscapedThen(a, x) == EscapedThen(b, y)
    ensures a == b && x == y
    decreases |a|
  {
    if a == [] || b == [] {
      assert EscapedThen(a, x)[0] == EscapedThen(b, y)[0];
      assert x == EscapedThen([], x)[1..] && y == EscapedThen([], y)[1..];
    } else {
      EscapeReads(a[0], b[0], EscapedThen(a[1..], x), EscapedThen(b[1..], y));
      EscapedReads(a[1..], b[1..], x, y);
      assert a == [a[0]] + a[1..] && b == [b[0]] + b[1..];
    }
  }

  lemma {:induction false} SamePrefixSameRest(p: string, x: string, y: string)
    requires p + x == p + y
    ensures x == y
  {
    assert x == (p + x)[|p|..] && y == (p + y)[|p|..];
  }

  /** A JSON string reads back, whatever follows it. */
  lemma {:induction false} QuotedReads(a: string, b: string, x: string, y: string)
    requires QuotedThen(a, x) == QuotedThen(b, y)
    ensures a == b && x == y
  {
    SamePrefixSameRest(['"'], EscapedThen(a, x), EscapedThen(b, y));
    EscapedReads(a, b, x, y);
  }

  // ---------- lists of types ----------

  /** Where a character stands among UTF-16 code units: those past U+FFFF begin with a
      surrogate, which comes before U+E000. */
  function UnitRank(c: char): int {
    var n := c as int;
    if 0xE000 <= n < 0x10000 then n + 0x110000 else n
  }

  predicate Before(a: string, b: string) {
    if a == [] || b == [] then b != []
    else if a[0] == b[0] then Before(a[1..], b[1..])
    else UnitRank(a[0]) < UnitRank(b[0])
  }

  function Insert(t: string, ts: seq<string>): seq<string> {
    if ts == [] || Before(t, ts[0]) then [t] + ts else [ts[0]] + Insert(t, ts[1..])
  }

  function Sorted(ts: seq<string>): seq<string> {
    if ts == [] then [] else Insert(ts[0], Sorted(ts[1..]))
  }

  /** The first of every type. */
  function Deduped(ts: seq<string>): seq<string> {
    if ts == [] then []
    else
      var before, last := Deduped(ts[..|ts| - 1]), ts[|ts| - 1];
      if last in before then before else before + [last]
  }

  /** The types of a key: each once, in the order of their code units. */
  function KeyTypes(r: Request): seq<string> {
    Sorted(Deduped(r.types))
  }

  predicate Distinct(ts: seq<string>) {
    forall i, j :: 0 <= i < j < |ts| ==> ts[i] != ts[j]
  }

  predicate Rising(ts: seq<string>) {
    forall i, j :: 0 <= i < j < |ts| ==> Before(ts[i], ts[j])
  }

  lemma {:induction false} BeforeIsStrict(a: string)
    ensures !Before(a, a)
  {
    if a != [] {
      BeforeIsStrict(a[1..]);
    }
  }

  lemma {:induction false} BeforeIsTotal(a: string, b: string)
    requires !Before(a, b) && a != b
    ensures Before(b, a)
  {
    if a != [] && b != [] && a[0] == b[0] {
      assert a == [a[0]] + a[1..] && b == [b[0]] + b[1..];
      BeforeIsTotal(a[1..], b[1..]);
    }
  }

  lemma {:induction false} BeforeIsTransitive(a: string, b: string, c: string)
    requires Before(a, b) && Before(b, c)
    ensures Before(a, c)
  {
    if a != [] && a[0] == b[0] && b[0] == c[0] {
      BeforeIsTransitive(a[1..], b[1..], c[1..]);
    }
  }

  lemma {:induction false} DedupedMeaning(ts: seq<string>)
    ensures Distinct(Deduped(ts)) && forall t :: t in Deduped(ts) <==> t in ts
  {
    if ts != [] {
      DedupedMeaning(ts[..|ts| - 1]);
      assert ts == ts[..|ts| - 1] + [ts[|ts| - 1]];
    }
  }

  lemma {:induction false} InsertMeaning(t: string, ts: seq<string>)
    requires Rising(ts) && t !in ts
    ensures Rising(Insert(t, ts)) && forall u :: u in Insert(t, ts) <==> u == t || u in ts
  {
    if ts != [] {
      var first, rest := ts[0], ts[1..];
      assert ts == [first] + rest;
      if Before(t, first) {
        forall u | u in rest
          ensures Before(t, u)
        {
          var j :| 0 <= j < |rest| && rest[j] == u;
          assert Before(ts[0], ts[j + 1]);
          BeforeIsTransitive(t, first, u);
        }
        HeadRises(t, ts);
      } else {
        BeforeIsTotal(t, first);
        InsertMeaning(t, rest);
        forall u | u in Insert(t, rest)
          ensures Before(first, u)
        {
          if u != t {
            var j :| 0 <= j < |rest| && rest[j] == u;
            assert Before(ts[0], ts[j + 1]);
          }
        }
        HeadRises(first, Insert(t, rest));
      }
    }
  }

  lemma {:induction false} HeadRises(t: string, ts: seq<string>)
    requires Rising(ts) && forall u :: u in ts ==> Before(t, u)
    ensures Rising([t] + ts)
  {
    var all := [t] + ts;
    forall i, j | 0 <= i < j < |all|
      ensures Before(all[i], all[j])
    {
      assert all[j] == ts[j - 1] && all[j] in ts;
    }
  }

  lemma {:induction false} SortedMeaning(ts: seq<string>)
    requires Distinct(ts)
    ensures Rising(Sorted(ts)) && forall t :: t in Sorted(ts) <==> t in ts
  {
    if ts != [] {
      SortedMeaning(ts[1..]);
      assert ts == [ts[0]] + ts[1..];
      InsertMeaning(ts[0], Sorted(ts[1..]));
    }
  }

  lemma {:induction false} FirstIsLeast(a: seq<string>, b: seq<string>)
    requires Rising(a) && Rising(b) && a != [] && b != [] && a[0] in b && b[0] in a
    ensures a[0] == b[0]
  {
    if a[0] != b[0] {
      var i :| 0 <= i < |a| && a[i] == b[0];
      var j :| 0 <= j < |b| && b[j] == a[0];
      BeforeIsTransitive(a[0], b[0], a[0]);
      BeforeIsStrict(a[0]);
    }
  }

  /** A rising list is determined by what it holds. */
  lemma {:induction false} RisingIsDetermined(a: seq<string>, b: seq<string>)
    requires Rising(a) && Rising(b) && forall t :: t in a <==> t in b
    ensures a == b
  {
    assert b != [] ==> b[0] in b;
    if a != [] {
      assert a[0] in a;
      FirstIsLeast(a, b);
      forall t
        ensures t in a[1..] <==> t in b[1..]
      {
        RestHolds(a, t);
        RestHolds(b, t);
      }
      RisingIsDetermined(a[1..], b[1..]);
      assert a == [a[0]] + a[1..] && b == [b[0]] + b[1..];
    }
  }

  lemma {:induction false} RestHolds(ts: seq<string>, t: string)
    requires Rising(ts) && ts != []
    ensures t in ts[1..] <==> t in ts && t != ts[0]
  {
    assert ts == [ts[0]] + ts[1..];
    if t in ts[1..] {
      var j :| 0 <= j < |ts| - 1 && ts[1..][j] == t;
      assert Before(ts[0], ts[j + 1]);
      BeforeIsStrict(t);
    }
  }

  // ---------- the key ----------

  function ScopeName(s: Scope): string {
    if s.PageScope? then "page" else "node"
  }

  function ModeName(exact: bool): string {
    if exact then "exact" else "contains"
  }

  function QueryThen(query: Option<string>, rest: string): string {
    if query.None? then "null" + rest else QuotedThen(query.value, rest)
  }

  /** The rest of a list after its first element, its closing bracket, and what follows. */
  function MoreThen(ts: seq<string>, rest: string): string {
    if ts == [] then "]" + rest else "," + QuotedThen(ts[0], MoreThen(ts[1..], rest))
  }

  function ListThen(ts: seq<string>, rest: string): string {
    if ts == [] then "]" + rest else QuotedThen(ts[0], MoreThen(ts[1..], rest))
  }

  /** A field's name between what stands before and after it. */
  function Field(before: string, name: string, after: string): string {
    before + ['"'] + name + ['"'] + after
  }

  function MatchPart(r: Request): string {
    Field(",", "match", ":") + QuotedThen(ModeName(r.exact), "}")
  }

  function TypesPart(r: Request): string {
    Field(",", "types", ":[") + ListThen(KeyTypes(r), MatchPart(r))
  }

  function QueryPart(r: Request): string {
    Field("],", "query", ":") + QueryThen(r.query, TypesPart(r))
  }

  function IdPart(r: Request): string {
    "," + QuotedThen(r.scope.id, QueryPart(r))
  }

  /** The key of a search, as its JSON text. */
  function KeyText(r: Request): string {
    Field("{", "scope", ":[") + QuotedThen(ScopeName(r.scope), IdPart(r))
  }

  lemma {:induction false} MoreReads(a: seq<string>, b: seq<string>, x: string, y: string)
    requires MoreThen(a, x) == MoreThen(b, y)
    ensures a == b && x == y
    decreases |a|
  {
    assert MoreThen(a, x)[0] == MoreThen(b, y)[0];
    if a == [] {
      SamePrefixSameRest("]", x, y);
    } else {
      SamePrefixSameRest(",", QuotedThen(a[0], MoreThen(a[1..], x)), QuotedThen(b[0], MoreThen(b[1..], y)));
      QuotedReads(a[0], b[0], MoreThen(a[1..], x), MoreThen(b[1..], y));
      MoreReads(a[1..], b[1..], x, y);
      assert a == [a[0]] + a[1..] && b == [b[0]] + b[1..];
    }
  }

  lemma {:induction false} ListReads(a: seq<string>, b: seq<string>, x: string, y: string)
    requires ListThen(a, x) == ListThen(b, y)
    ensures a == b && x == y
  {
    assert ListThen(a, x)[0] == ListThen(b, y)[0];
    if a == [] {
      SamePrefixSameRest("]", x, y);
    } else {
      QuotedReads(a[0], b[0], MoreThen(a[1..], x), MoreThen(b[1..], y));
      MoreReads(a[1..], b[1..], x, y);
      assert a == [a[0]] + a[1..] && b == [b[0]] + b[1..];
    }
  }

  lemma {:induction false} QueryReads(a: Option<string>, b: Option<string>, x: string, y: string)
    requires QueryThen(a, x) == QueryThen(b, y)
    ensures a == b && x == y
  {
    assert QueryThen(a, x)[0] == QueryThen(b, y)[0];
    if a.None? {
      SamePrefixSameRest("null", x, y);
    } else {
      QuotedReads(a.value, b.value, x, y);
    }
  }

  ghost predicate SameSearch(r: Request, q: Request) {
    r.scope == q.scope && r.query == q.query && r.exact == q.exact && forall t :: t in r.types <==> t in q.types
  }

  lemma {:induction false} SameTypesSameList(r: Request, q: Request)
    ensures KeyTypes(r) == KeyTypes(q) <==> forall t :: t in r.types <==> t in q.types
  {
    DedupedMeaning(r.types);
    DedupedMeaning(q.types);
    SortedMeaning(Deduped(r.types));
    SortedMeaning(Deduped(q.types));
    if forall t :: t in r.types <==> t in q.types {
      RisingIsDetermined(KeyTypes(r), KeyTypes(q));
    } else {
      var t :| !(t in r.types <==> t in q.types);
      assert !(t in KeyTypes(r) <==> t in KeyTypes(q));
    }
  }

  lemma {:induction false} NamesDiffer(r: Request, q: Request)
    requires ScopeName(r.scope) == ScopeName(q.scope) && r.scope.id == q.scope.id
    requires ModeName(r.exact) == ModeName(q.exact)
    ensures r.scope == q.scope && r.exact == q.exact
  {
    assert ScopeName(r.scope)[0] == ScopeName(q.scope)[0] && ModeName(r.exact)[0] == ModeName(q.exact)[0];
  }

  lemma {:induction false} KeyReads(r: Request, q: Request)
    requires KeyText(r) == KeyText(q)
    ensures r.scope == q.scope && r.query == q.query && KeyTypes(r) == KeyTypes(q) && r.exact == q.exact
  {
    hide QuotedThen, QueryThen, ListThen, KeyTypes, ScopeName, ModeName;
    SamePrefixSameRest(Field("{", "scope", ":["),
                       QuotedThen(ScopeName(r.scope), IdPart(r)), QuotedThen(ScopeName(q.scope), IdPart(q)));
    QuotedReads(ScopeName(r.scope), ScopeName(q.scope), IdPart(r), IdPart(q));
    SamePrefixSameRest(",", QuotedThen(r.scope.id, QueryPart(r)), QuotedThen(q.scope.id, QueryPart(q)));
    QuotedReads(r.scope.id, q.scope.id, QueryPart(r), QueryPart(q));
    SamePrefixSameRest(Field("],", "query", ":"), QueryThen(r.query, TypesPart(r)), QueryThen(q.query, TypesPart(q)));
    QueryReads(r.query, q.query, TypesPart(r), TypesPart(q));
    SamePrefixSameRest(Field(",", "types", ":["),
                       ListThen(KeyTypes(r), MatchPart(r)), ListThen(KeyTypes(q), MatchPart(q)));
    ListReads(KeyTypes(r), KeyTypes(q), MatchPart(r), MatchPart(q));
    SamePrefixSameRest(Field(",", "match", ":"),
                       QuotedThen(ModeName(r.exact), "}"), QuotedThen(ModeName(q.exact), "}"));
    QuotedReads(ModeName(r.exact), ModeName(q.exact), "}", "}");
    NamesDiffer(r, q);
  }

  /** Two searches have one key exactly when they ask for the same: the order of the types,
      and how often each is listed, do not matter, and nothing else can be confused. */
  lemma {:induction false} KeysTellSearchesApart(r: Request, q: Request)
    ensures KeyText(r) == KeyText(q) <==> SameSearch(r, q)
  {
    hide QuotedThen, QueryThen, ListThen, KeyTypes;
    SameTypesSameList(r, q);
    if KeyText(r) == KeyText(q) {
      KeyReads(r, q);
    }
  }

  // ---------- how long the JSON is ----------

  /** The UTF-8 length of a text. */
  function Bytes(t: string): nat {
    if t == [] then 0 else Width(t[0]) + Bytes(t[1..])
  }

  function Width(c: char): (n: nat)
    ensures 1 <= n <= 4
  {
    var n := c as int;
    if n < 0x80 then 1 else if n < 0x800 then 2 else if n < 0x10000 then 3 else 4
  }

  /** The length of a text inside a JSON string, and inside one that is itself inside one. */
  function JsonBytes(t: string): nat {
    if t == [] then 0 else Bytes(Escape(t[0])) + JsonBytes(t[1..])
  }

  function NestedBytes(t: string): nat {
    if t == [] then 0 else JsonBytes(Escape(t[0])) + NestedBytes(t[1..])
  }

  lemma {:induction false} BytesOfConcat(a: string, b: string)
    ensures Bytes(a + b) == Bytes(a) + Bytes(b)
    ensures JsonBytes(a + b) == JsonBytes(a) + JsonBytes(b)
    decreases |a|
  {
    if a == [] {
      assert a + b == b;
    } else {
      assert (a + b)[0] == a[0] && (a + b)[1..] == a[1..] + b;
      BytesOfConcat(a[1..], b);
    }
  }

  lemma {:induction false} EscapedBytes(t: string, rest: string)
    ensures Bytes(EscapedThen(t, rest)) == JsonBytes(t) + 1 + Bytes(rest)
    ensures JsonBytes(EscapedThen(t, rest)) == NestedBytes(t) + 2 + JsonBytes(rest)
    decreases |t|
  {
    if t == [] {
      BytesOfConcat(['"'], rest);
      QuoteBytes();
    } else {
      BytesOfConcat(Escape(t[0]), EscapedThen(t[1..], rest));
      EscapedBytes(t[1..], rest);
    }
  }

  lemma {:induction false} QuoteBytes()
    ensures Bytes(['"']) == 1 && JsonBytes(['"']) == 2
  {
    assert ['"'][1..] == [] && Escape('"')[1..] == ['"'] && Escape('"')[1..][1..] == [];
  }

  lemma {:induction false} QuotedBytes(t: string, rest: string)
    ensures Bytes(QuotedThen(t, rest)) == JsonBytes(t) + 2 + Bytes(rest)
    ensures JsonBytes(QuotedThen(t, rest)) == NestedBytes(t) + 4 + JsonBytes(rest)
  {
    EscapedBytes(t, rest);
    QuoteBytes();
    BytesOfConcat(['"'], EscapedThen(t, rest));
  }

  predicate IsPlain(t: string) {
    forall c :: c in t ==> 0x20 <= c as int < 0x80 && c != '"' && c != '\\'
  }

  lemma {:induction false} PlainLetter(c: char)
    requires IsPlain([c])
    ensures Escape(c) == [c] && Bytes([c]) == JsonBytes([c]) == 1
  {
    assert c in [c] && [c][1..] == [];
  }

  lemma {:induction false} PlainBytes(t: string)
    requires IsPlain(t)
    ensures Bytes(t) == JsonBytes(t) == NestedBytes(t) == |t|
  {
    if t != [] {
      assert t[0] in t && forall c :: c in t[1..] ==> c in t;
      PlainBytes(t[1..]);
      PlainLetter(t[0]);
    }
  }

  lemma {:induction false} FieldBytes(before: string, name: string, after: string)
    requires IsPlain(before) && IsPlain(name) && IsPlain(after)
    ensures Bytes(Field(before, name, after)) == |before| + |name| + |after| + 2
    ensures JsonBytes(Field(before, name, after)) == |before| + |name| + |after| + 4
  {
    PlainBytes(before);
    PlainBytes(name);
    PlainBytes(after);
    QuoteBytes();
    BytesOfConcat(before, ['"']);
    BytesOfConcat(before + ['"'], name);
    BytesOfConcat(before + ['"'] + name, ['"']);
    BytesOfConcat(before + ['"'] + name + ['"'], after);
  }

  /** The length of the key's list of types inside the cursor: each with its two escaped
      quotes, and a comma before all but the first. */
  function TypesBytes(ts: seq<string>): nat {
    if ts == [] then 0 else TypesBytes(ts[1..]) + NestedBytes(ts[0]) + 4
  }

  function CommaBytes(ts: seq<string>): nat {
    if ts == [] then 0 else |ts| - 1
  }

  function QueryBytes(query: Option<string>): nat {
    if query.None? then 4 else NestedBytes(query.value) + 4
  }

  /** The length of a search's key inside its cursors. */
  function KeyBytes(r: Request): nat {
    var types := Deduped(r.types);
    62 + NestedBytes(r.scope.id) + QueryBytes(r.query) + TypesBytes(types) + CommaBytes(types)
    + if r.exact then 9 else 12
  }

  lemma {:induction false} PlainThen(t: string, rest: string)
    requires IsPlain(t)
    ensures Bytes(t + rest) == |t| + Bytes(rest) && JsonBytes(t + rest) == |t| + JsonBytes(rest)
  {
    PlainBytes(t);
    BytesOfConcat(t, rest);
  }

  lemma {:induction false} MoreBytes(ts: seq<string>, rest: string)
    ensures JsonBytes(MoreThen(ts, rest)) == TypesBytes(ts) + |ts| + 1 + JsonBytes(rest)
    decreases |ts|
  {
    if ts == [] {
      PlainThen("]", rest);
    } else {
      PlainThen(",", QuotedThen(ts[0], MoreThen(ts[1..], rest)));
      QuotedBytes(ts[0], MoreThen(ts[1..], rest));
      MoreBytes(ts[1..], rest);
    }
  }

  lemma {:induction false} ListBytes(ts: seq<string>, rest: string)
    ensures JsonBytes(ListThen(ts, rest)) == TypesBytes(ts) + CommaBytes(ts) + 1 + JsonBytes(rest)
  {
    if ts == [] {
      PlainThen("]", rest);
    } else {
      QuotedBytes(ts[0], MoreThen(ts[1..], rest));
      MoreBytes(ts[1..], rest);
    }
  }

  lemma {:induction false} QueryThenBytes(query: Option<string>, rest: string)
    ensures JsonBytes(QueryThen(query, rest)) == QueryBytes(query) + JsonBytes(rest)
  {
    if query.None? {
      PlainThen("null", rest);
    } else {
      QuotedBytes(query.value, rest);
    }
  }

  lemma {:induction false} InsertBytes(t: string, ts: seq<string>)
    ensures |Insert(t, ts)| == |ts| + 1 && TypesBytes(Insert(t, ts)) == TypesBytes(ts) + NestedBytes(t) + 4
  {
    if ts != [] && !Before(t, ts[0]) {
      InsertBytes(t, ts[1..]);
    } else {
      assert ([t] + ts)[1..] == ts;
    }
  }

  lemma {:induction false} SortedBytes(ts: seq<string>)
    ensures |Sorted(ts)| == |ts| && TypesBytes(Sorted(ts)) == TypesBytes(ts)
  {
    if ts != [] {
      SortedBytes(ts[1..]);
      InsertBytes(ts[0], Sorted(ts[1..]));
    }
  }

  lemma {:induction false} ScopeNameBytes(s: Scope)
    ensures NestedBytes(ScopeName(s)) == 4
  {
    PlainBytes(ScopeName(s));
  }

  lemma {:induction false} ModeNameBytes(exact: bool)
    ensures NestedBytes(ModeName(exact)) == if exact then 5 else 8
  {
    PlainBytes(ModeName(exact));
  }

  lemma {:induction false} TypesPartBytes(r: Request)
    ensures var types := Deduped(r.types);
      JsonBytes(TypesPart(r)) == 25 + TypesBytes(types) + CommaBytes(types) + if r.exact then 9 else 12
  {
    hide QuotedThen, ListThen, Sorted, Deduped, NestedBytes, TypesBytes, JsonBytes, Bytes, Field, ModeName;
    SortedBytes(Deduped(r.types));
    ModeNameBytes(r.exact);
    FieldBytes(",", "types", ":[");
    BytesOfConcat(Field(",", "types", ":["), ListThen(KeyTypes(r), MatchPart(r)));
    ListBytes(KeyTypes(r), MatchPart(r));
    FieldBytes(",", "match", ":");
    BytesOfConcat(Field(",", "match", ":"), QuotedThen(ModeName(r.exact), "}"));
    QuotedBytes(ModeName(r.exact), "}");
    PlainBytes("}");
  }

  /** The formula is exact. */
  lemma {:induction false} KeyLength(r: Request)
    ensures JsonBytes(KeyText(r)) == KeyBytes(r)
  {
    hide QuotedThen, QueryThen, ListThen, Deduped, NestedBytes, TypesBytes, JsonBytes, Bytes, Field, ScopeName;
    ScopeNameBytes(r.scope);
    FieldBytes("{", "scope", ":[");
    BytesOfConcat(Field("{", "scope", ":["), QuotedThen(ScopeName(r.scope), IdPart(r)));
    QuotedBytes(ScopeName(r.scope), IdPart(r));
    PlainThen(",", QuotedThen(r.scope.id, QueryPart(r)));
    QuotedBytes(r.scope.id, QueryPart(r));
    FieldBytes("],", "query", ":");
    BytesOfConcat(Field("],", "query", ":"), QueryThen(r.query, TypesPart(r)));
    QueryThenBytes(r.query, TypesPart(r));
    TypesPartBytes(r);
  }

  // ---------- the cursor ----------

  function Decimal(n: nat): (t: string)
    ensures t != [] && IsPlain(t)
  {
    var digit := "0123456789"[n % 10];
    if n < 10 then [digit] else Decimal(n / 10) + [digit]
  }

  function MoreIndices(path: seq<nat>, rest: string): string {
    if path == [] then "]" + rest else "," + (Decimal(path[0]) + MoreIndices(path[1..], rest))
  }

  function PathThen(path: seq<nat>, rest: string): string {
    if path == [] then "]" + rest else Decimal(path[0]) + MoreIndices(path[1..], rest)
  }

  function AfterPart(after: bool): string {
    Field(",", "after", ":") + if after then "true}" else "false}"
  }

  function PathPart(c: S.Cursor): string {
    Field(",", "path", ":[") + PathThen(c.path, Field(",", "id", ":") + QuotedThen(c.id, AfterPart(c.after)))
  }

  /** A cursor's payload, as its JSON text. */
  function CursorText(c: S.Cursor): string {
    Field("{", "v", ":1,") + (Field("", "key", ":") + QuotedThen(c.key, PathPart(c)))
  }

  function DigitBytes(path: seq<nat>): nat {
    if path == [] then 0 else |Decimal(path[0])| + DigitBytes(path[1..])
  }

  /** The length of a path: the digits of its indices, and the commas between them. */
  function PathBytes(path: seq<nat>): nat {
    DigitBytes(path) + if path == [] then 0 else |path| - 1
  }

  lemma {:induction false} MoreIndicesBytes(path: seq<nat>, rest: string)
    ensures Bytes(MoreIndices(path, rest)) == DigitBytes(path) + |path| + 1 + Bytes(rest)
    decreases |path|
  {
    if path == [] {
      PlainThen("]", rest);
    } else {
      PlainThen(",", Decimal(path[0]) + MoreIndices(path[1..], rest));
      PlainThen(Decimal(path[0]), MoreIndices(path[1..], rest));
      MoreIndicesBytes(path[1..], rest);
    }
  }

  lemma {:induction false} PathThenBytes(path: seq<nat>, rest: string)
    ensures Bytes(PathThen(path, rest)) == PathBytes(path) + 1 + Bytes(rest)
  {
    if path == [] {
      PlainThen("]", rest);
    } else {
      PlainThen(Decimal(path[0]), MoreIndices(path[1..], rest));
      MoreIndicesBytes(path[1..], rest);
    }
  }

  lemma {:induction false} PathPartBytes(c: S.Cursor)
    ensures Bytes(PathPart(c)) == 27 + PathBytes(c.path) + JsonBytes(c.id) + if c.after then 5 else 6
  {
    hide QuotedThen, PathThen, PathBytes, JsonBytes, Bytes, Field;
    var idPart := Field(",", "id", ":") + QuotedThen(c.id, AfterPart(c.after));
    FieldBytes(",", "path", ":[");
    BytesOfConcat(Field(",", "path", ":["), PathThen(c.path, idPart));
    PathThenBytes(c.path, idPart);
    FieldBytes(",", "id", ":");
    BytesOfConcat(Field(",", "id", ":"), QuotedThen(c.id, AfterPart(c.after)));
    QuotedBytes(c.id, AfterPart(c.after));
    FieldBytes(",", "after", ":");
    var last := if c.after then "true}" else "false}";
    BytesOfConcat(Field(",", "after", ":"), last);
    PlainBytes(last);
  }

  /** The length of a cursor's JSON, in the lengths of its key, path and id. */
  lemma {:induction false} CursorTextLength(c: S.Cursor)
    ensures Bytes(CursorText(c)) ==
      42 + JsonBytes(c.key) + PathBytes(c.path) + JsonBytes(c.id) + if c.after then 5 else 6
  {
    hide QuotedThen, PathPart, PathBytes, JsonBytes, Bytes, Field;
    var keyPart := Field("", "key", ":") + QuotedThen(c.key, PathPart(c));
    FieldBytes("{", "v", ":1,");
    BytesOfConcat(Field("{", "v", ":1,"), keyPart);
    FieldBytes("", "key", ":");
    BytesOfConcat(Field("", "key", ":"), QuotedThen(c.key, PathPart(c)));
    QuotedBytes(c.key, PathPart(c));
    PathPartBytes(c);
  }

  /** Cursors are written as the URL-safe base64 of this JSON, in UTF-8. */
  ghost predicate WritesJson(s: S.Search, stringify: S.Cursor -> seq<Byte>, parse: seq<Byte> -> Option<S.Cursor>) {
    S.UsesBase64Url(s, stringify, parse) && forall c: S.Cursor :: |stringify(c)| == Bytes(CursorText(c))
  }

  /** What the request parsers let through. */
  predicate FitsParsers(text: seq<CodeUnit>) {
    text != [] && |text| <= S.MAX_SEARCH_CURSOR_BYTES
  }

  /** Exactly which of its own cursors the product accepts back: those whose key, path and
      id take no more than 48 KiB, less the 47 bytes of the JSON around them. */
  lemma {:induction false} OwnCursorFits(s: S.Search, stringify: S.Cursor -> seq<Byte>,
                                         parse: seq<Byte> -> Option<S.Cursor>, r: Request, item: Item)
    requires WritesJson(s, stringify, parse) && s.key == KeyText(r)
    ensures FitsParsers(S.CursorFor(s, item, true)) <==>
      KeyBytes(r) + PathBytes(item.path) + JsonBytes(s.view.host(item.node).id) <= 48 * 1024 - 47
  {
    hide KeyBytes, PathBytes, JsonBytes, Bytes, CursorText;
    var payload := S.PayloadFor(s, item, true);
    CursorTextLength(payload);
    KeyLength(r);
    S.CursorLength(s, stringify, parse, item, true);
    Base64.UrlSize(stringify(payload));
  }

  /** A cursor serves exactly the searches that ask for the same. */
  lemma {:induction false} CursorsServeTheSameSearch(s: S.Search, t: S.Search, r: Request, q: Request,
                                                     item: Item, after: bool)
    requires S.CursorsRoundTrip(s) && t.read == s.read && S.SafePath(item.path)
    requires s.key == KeyText(r) && t.key == KeyText(q)
    ensures S.ParseCursor(t, S.CursorFor(s, item, after)).Success? <==> SameSearch(r, q)
  {
    S.CursorsBindTheirKey(s, t, item, after);
    KeysTellSearchesApart(r, q);
  }

  // ---------- a search whose cursors are refused ----------

  const MAX_IDENTIFIER_BYTES: nat := 256
  const MAX_INPUT_IDS: nat := 2_000
  const MAX_QUERY_BYTES: nat := 1_024

  predicate IsIdentifier(t: string) {
    t != [] && Bytes(t) <= MAX_IDENTIFIER_BYTES
  }

  /** The bounds the request parsers put on a search. */
  predicate Accepted(r: Request, limit: nat) {
    && IsIdentifier(r.scope.id)
    && (r.query.Some? ==> r.query.value != [] && Bytes(r.query.value) <= MAX_QUERY_BYTES)
    && |r.types| <= MAX_INPUT_IDS && (forall t :: t in r.types ==> IsIdentifier(t))
    && (r.query.Some? || r.types != [])
    && 1 <= limit <= MAX_RETURNED_NODES
  }

  function Letters(n: nat): string {
    if n == 0 then [] else ['A'] + Letters(n - 1)
  }

  /** A name of 256 bytes; no two are the same. */
  function LongName(i: nat): string
    requires i < 200
  {
    Letters(254) + [(0x100 + i) as char]
  }

  function LongNames(n: nat): seq<string>
    requires n <= 200
  {
    if n == 0 then [] else LongNames(n - 1) + [LongName(n - 1)]
  }

  /** Frames on page 0:1, and two hundred types that no node has. */
  function LongRequest(): Request {
    Request(PageScope("0:1"), None, ["FRAME"] + LongNames(200), true)
  }

  lemma {:induction false} JsonAtLeast(t: string)
    ensures JsonBytes(t) >= Bytes(t)
  {
    if t != [] {
      JsonAtLeast(t[1..]);
      EscapeAtLeast(t[0]);
    }
  }

  lemma {:induction false} EscapeAtLeast(c: char)
    ensures Bytes(Escape(c)) >= Width(c)
  {
    assert Escape(c) == [c] ==> Escape(c)[1..] == [];
  }

  /** What stands in a key takes at least its own length in the cursor. */
  lemma {:induction false} NestedAtLeast(t: string)
    ensures NestedBytes(t) >= Bytes(t)
  {
    if t != [] {
      NestedAtLeast(t[1..]);
      JsonAtLeast(Escape(t[0]));
      EscapeAtLeast(t[0]);
    }
  }

  /** So a key takes at least what its types add up to. */
  function SumOfBytes(ts: seq<string>): nat {
    if ts == [] then 0 else SumOfBytes(ts[1..]) + Bytes(ts[0])
  }

  lemma {:induction false} KeyAtLeastItsTypes(r: Request)
    ensures KeyBytes(r) >= SumOfBytes(Deduped(r.types))
  {
    TypesAtLeast(Deduped(r.types));
  }

  lemma {:induction false} TypesAtLeast(ts: seq<string>)
    ensures TypesBytes(ts) >= SumOfBytes(ts)
  {
    if ts != [] {
      TypesAtLeast(ts[1..]);
      NestedAtLeast(ts[0]);
    }
  }

  lemma {:induction false} DedupedOfDistinct(ts: seq<string>)
    requires Distinct(ts)
    ensures Deduped(ts) == ts
  {
    if ts != [] {
      DedupedOfDistinct(ts[..|ts| - 1]);
      assert ts == ts[..|ts| - 1] + [ts[|ts| - 1]];
    }
  }

  lemma {:induction false} LettersBytes(n: nat)
    ensures |Letters(n)| == Bytes(Letters(n)) == n
  {
    if n > 0 {
      LettersBytes(n - 1);
      assert Letters(n)[1..] == Letters(n - 1);
    }
  }

  lemma {:induction false} LongNameBytes(i: nat)
    requires i < 200
    ensures |LongName(i)| == 255 && LongName(i)[254] == (0x100 + i) as char && Bytes(LongName(i)) == 256
  {
    var n := 254;
    LettersBytes(n);
    var c := (0x100 + i) as char;
    BytesOfConcat(Letters(n), [c]);
    assert [c][1..] == [];
  }

  lemma {:induction false} LongNamesAre(n: nat)
    requires n <= 200
    ensures |LongNames(n)| == n && forall i: nat :: i < n ==> LongNames(n)[i] == LongName(i)
  {
    if n > 0 {
      LongNamesAre(n - 1);
    }
  }

  lemma {:induction false} SumAtLeast(ts: seq<string>)
    requires forall t :: t in ts ==> Bytes(t) == 256
    ensures SumOfBytes(ts) == 256 * |ts|
  {
    if ts != [] {
      assert ts[0] in ts && forall t :: t in ts[1..] ==> t in ts;
      SumAtLeast(ts[1..]);
    }
  }

  lemma {:induction false} LongNamesDiffer(n: nat)
    requires n <= 200
    ensures Distinct(["FRAME"] + LongNames(n))
  {
    hide LongName;
    var names := LongNames(n);
    var ts := ["FRAME"] + names;
    LongNamesAre(n);
    forall i, j | 0 <= i < j < |ts|
      ensures ts[i] != ts[j]
    {
      LongNameBytes(j - 1);
      assert ts[j] == names[j - 1] == LongName(j - 1);
      if i > 0 {
        LongNameBytes(i - 1);
        assert ts[i] == names[i - 1] == LongName(i - 1);
      }
    }
  }

  lemma {:induction false} LongTypes(n: nat)
    requires n <= 200
    ensures var ts := ["FRAME"] + LongNames(n);
      && |ts| == n + 1 && (forall t :: t in ts ==> IsIdentifier(t)) && SumOfBytes(ts) == 5 + 256 * n
  {
    hide LongName;
    var frame: string := "FRAME";
    var names := LongNames(n);
    LongNamesAre(n);
    forall t | t in names
      ensures t != [] && Bytes(t) == 256
    {
      var i: nat :| i < n && names[i] == t;
      LongNameBytes(i);
    }
    SumAtLeast(names);
    PlainBytes(frame);
    assert ([frame] + names)[1..] == names;
  }

  lemma {:induction false} LongRequestIsAccepted(n: nat)
    requires n == 200
    ensures Accepted(LongRequest(), 1)
    ensures KeyBytes(LongRequest()) >= 5 + 256 * n
  {
    hide Deduped, KeyBytes, LongNames, Distinct, SumOfBytes;
    LongTypes(n);
    LongNamesDiffer(n);
    PlainBytes("0:1");
    DedupedOfDistinct(LongRequest().types);
    KeyAtLeastItsTypes(LongRequest());
  }

  /** The search asks what the request says. */
  ghost predicate Asks(s: S.Search, r: Request, lower: string -> string) {
    var p := S.SearchPredicate(r.query, if r.types == [] then None else Some(r.types), r.exact);
    s.key == KeyText(r) && forall x: Ref :: s.reasons(x) == S.MatchReasons(s.view.host(x), p, lower)
  }

  /** The parsers accept the request, and refuse every cursor its pages name. */
  lemma {:induction false} EveryCursorIsRefused(s: S.Search, stringify: S.Cursor -> seq<Byte>,
                                                parse: seq<Byte> -> Option<S.Cursor>, item: Item)
    requires WritesJson(s, stringify, parse) && s.key == KeyText(LongRequest())
    ensures Accepted(LongRequest(), 1) && !FitsParsers(S.CursorFor(s, item, true))
  {
    hide KeyBytes, KeyText, LongNames;
    var n := 200;
    LongRequestIsAccepted(n);
    OwnCursorFits(s, stringify, parse, LongRequest(), item);
  }

  /** A page that does: where the root is a frame, a search for one match names a cursor the
      next request may not carry. */
  lemma {:induction false} FirstPageNamesARefusedCursor(s: S.Search, stringify: S.Cursor -> seq<Byte>,
                                                        parse: seq<Byte> -> Option<S.Cursor>,
                                                        lower: string -> string, visit: S.Visit)
    requires WritesJson(s, stringify, parse) && Asks(s, LongRequest(), lower)
    requires s.view.host(s.root).kind == "FRAME" && s.limit == 1 < s.limits.returned && s.limits.visited > 0
    requires s.size(S.Summarize(s, s.root, false)) <= s.limits.bytes
    requires S.IsPage(s, Push(S.RootItem(s), Empty), visit)
    ensures visit.page.truncation.None? && visit.page.nextCursor.Some? && !FitsParsers(visit.page.nextCursor.value)
  {
    hide S.IsPage, WritesJson, KeyText, LongNames, S.MatchReasons;
    RootMatches(s, LongRequest(), lower);
    FirstPageIsTheRoot(s, visit);
    EveryCursorIsRefused(s, stringify, parse, S.RootItem(s));
  }

  lemma {:induction false} RootMatches(s: S.Search, r: Request, lower: string -> string)
    requires Asks(s, r, lower) && r.query.None? && s.view.host(s.root).kind in r.types
    ensures s.reasons(s.root) != []
  {
    assert r.types != [];
  }

  lemma {:induction false} FirstPageIsTheRoot(s: S.Search, visit: S.Visit)
    requires s.reasons(s.root) != [] && s.limit == 1 < s.limits.returned && s.limits.visited > 0
    requires s.size(S.Summarize(s, s.root, false)) <= s.limits.bytes
    requires S.IsPage(s, Push(S.RootItem(s), Empty), visit)
    ensures visit.page.truncation.None? && visit.page.nextCursor == Some(S.CursorFor(s, S.RootItem(s), true))
  {
    hide Pops, S.Hits, S.Report, S.IsPage, S.TotalSize;
    var start, root := Push(S.RootItem(s), Empty), S.RootItem(s);
    var found := S.Summarize(s, s.root, false);
    NothingYet(s, start);
    S.ProgressStep(s, start, [], start, []);
    assert [] + [root] == [root] && [] + [found] == [found];
    S.StoppedAtHit(s, start, [root], Step(s.view, start), [], found);
    S.PageIsDetermined(s, start, S.StopAtHit(s, [root], Step(s.view, start), [], found), visit);
  }

  lemma {:induction false} NothingYet(s: S.Search, start: Stack)
    ensures S.Progress(s, start, [], start, []) && S.TotalSize(s, []) == 0
  {
  }
}
