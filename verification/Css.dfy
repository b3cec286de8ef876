/** The CSS scanner: one index shared by nested consumers, over UTF-16 code units. Each
    consumer is specified by a function from a position to where it stops and what it
    has read. */
module Css {
  import opened Common

  type Text = seq<CodeUnit>

  datatype Kind = Comment | Whitespace | Quoted | Url | Function | AtKeyword | Ident | Hash | Number | Delim

  datatype Token = Token(kind: Kind, value: Text)

  /** A token and the stretch of input it was read from. */
  datatype Lexeme = Lexeme(token: Token, start: nat, end: nat)

  const LF: CodeUnit := 0x0A
  const CR: CodeUnit := 0x0D
  const QUOTE: CodeUnit := 0x22
  const HASH: CodeUnit := 0x23
  const APOSTROPHE: CodeUnit := 0x27
  const LPAREN: CodeUnit := 0x28
  const RPAREN: CodeUnit := 0x29
  const STAR: CodeUnit := 0x2A
  const PLUS: CodeUnit := 0x2B
  const MINUS: CodeUnit := 0x2D
  const DOT: CodeUnit := 0x2E
  const SLASH: CodeUnit := 0x2F
  const AT: CodeUnit := 0x40
  const BACKSLASH: CodeUnit := 0x5C
  const REPLACEMENT: CodeUnit := 0xFFFD

  predicate IsWhitespace(c: int) {
    c == 0x09 || c == 0x0A || c == 0x0C || c == 0x0D || c == 0x20
  }

  predicate IsNewline(c: int) {
    c == 0x0A || c == 0x0C || c == 0x0D
  }

  predicate IsDigit(c: int) {
    0x30 <= c <= 0x39
  }

  predicate IsHex(c: int) {
    IsDigit(c) || 0x41 <= c <= 0x46 || 0x61 <= c <= 0x66
  }

  predicate IsNameStart(c: int) {
    0x41 <= c <= 0x5A || 0x61 <= c <= 0x7A || c == 0x5F || c >= 0x80
  }

  predicate IsName(c: int) {
    IsNameStart(c) || IsDigit(c) || c == 0x2D
  }

  // ---------- looking ahead ----------

  function CodeAt(s: Text, i: nat): int {
    if i < |s| then s[i] else -1
  }

  predicate IsValidEscape(s: Text, i: nat) {
    CodeAt(s, i) == BACKSLASH && !IsNewline(CodeAt(s, i + 1))
  }

  predicate StartsIdent(s: Text, i: nat) {
    if CodeAt(s, i) == MINUS then
      IsNameStart(CodeAt(s, i + 1)) || CodeAt(s, i + 1) == MINUS || IsValidEscape(s, i + 1)
    else IsNameStart(CodeAt(s, i)) || IsValidEscape(s, i)
  }

  predicate StartsNumber(s: Text, i: nat) {
    var first := CodeAt(s, i);
    || IsDigit(first)
    || (first == DOT && IsDigit(CodeAt(s, i + 1)))
    || ((first == PLUS || first == MINUS)
        && (IsDigit(CodeAt(s, i + 1)) || (CodeAt(s, i + 1) == DOT && IsDigit(CodeAt(s, i + 2)))))
  }

  // ---------- escapes ----------

  function HexDigit(c: CodeUnit): nat
    requires IsHex(c)
  {
    if c <= 0x39 then c - 0x30 else if c <= 0x46 then c - 0x41 + 10 else c - 0x61 + 10
  }

  /** Where a run of at most `count` hexadecimal digits ends. */
  function HexEnd(s: Text, i: nat, count: nat): (end: nat)
    requires i <= |s|
    ensures i <= end <= |s|
    ensures forall k :: i <= k < end ==> IsHex(s[k])
    decreases count
  {
    if count == 0 || !IsHex(CodeAt(s, i)) then i else HexEnd(s, i + 1, count - 1)
  }

  function HexValue(digits: Text): nat
    requires forall k :: 0 <= k < |digits| ==> IsHex(digits[k])
  {
    if digits == [] then 0 else 16 * HexValue(digits[..|digits| - 1]) + HexDigit(digits[|digits| - 1])
  }

  predicate IsScalar(v: nat) {
    v != 0 && v <= 0x10FFFF && !(0xD800 <= v <= 0xDFFF)
  }

  function FromCodePoint(v: nat): Text
    requires IsScalar(v)
  {
    if v < 0x10000 then [v] else [0xD800 + (v - 0x10000) / 0x400, 0xDC00 + (v - 0x10000) % 0x400]
  }

  /** The escape whose backslash is at `i`: where it ends and what it stands for. */
  function Escape(s: Text, i: nat): (r: (nat, Text))
    requires i < |s|
    ensures i < r.0 <= |s|
  {
    var first := CodeAt(s, i + 1);
    if first < 0 then (i + 1, [REPLACEMENT])
    else if IsHex(first) then
      var end := HexEnd(s, i + 1, 6);
      var value := HexValue(s[i + 1..end]);
      (if IsWhitespace(CodeAt(s, end)) then end + 1 else end,
       if IsScalar(value) then FromCodePoint(value) else [REPLACEMENT])
    else if IsNewline(first) then (if first == CR && CodeAt(s, i + 2) == LF then i + 3 else i + 2, [])
    else (i + 2, [s[i + 1]])
  }

  // ---------- the consumers ----------

  function IdentFrom(s: Text, i: nat): (r: (nat, Text))
    requires i <= |s|
    ensures i <= r.0 <= |s|
    decreases |s| - i
  {
    if i == |s| then (i, [])
    else if IsName(s[i]) then
      var rest := IdentFrom(s, i + 1);
      (rest.0, [s[i]] + rest.1)
    else if IsValidEscape(s, i) then
      var escape := Escape(s, i);
      var rest := IdentFrom(s, escape.0);
      (rest.0, escape.1 + rest.1)
    else (i, [])
  }

  /** A backslash inside a string: the input's last, a line continued, or an escape. */
  function StringEscape(s: Text, i: nat): (r: (nat, Text))
    requires i < |s|
    ensures i < r.0 <= |s|
  {
    if i + 1 >= |s| then (i + 1, [])
    else if IsNewline(s[i + 1]) then (if s[i + 1] == CR && CodeAt(s, i + 2) == LF then i + 3 else i + 2, [])
    else Escape(s, i)
  }

  /** The rest of a string after its opening quote. */
  function StringFrom(s: Text, i: nat, ending: CodeUnit): (r: (nat, Text))
    requires i <= |s|
    ensures i <= r.0 <= |s|
    decreases |s| - i
  {
    if i == |s| then (i, [])
    else if s[i] == ending then (i + 1, [])
    else if IsNewline(s[i]) then (i, [])
    else if s[i] == BACKSLASH then
      var escape := StringEscape(s, i);
      var rest := StringFrom(s, escape.0, ending);
      (rest.0, escape.1 + rest.1)
    else
      var rest := StringFrom(s, i + 1, ending);
      (rest.0, [s[i]] + rest.1)
  }

  function SpaceEnd(s: Text, i: nat): (end: nat)
    requires i <= |s|
    ensures i <= end <= |s|
    ensures forall k :: i <= k < end ==> IsWhitespace(s[k])
    ensures !IsWhitespace(CodeAt(s, end))
    decreases |s| - i
  {
    if IsWhitespace(CodeAt(s, i)) then SpaceEnd(s, i + 1) else i
  }

  function DigitEnd(s: Text, i: nat): (end: nat)
    requires i <= |s|
    ensures i <= end <= |s|
    ensures !IsDigit(CodeAt(s, end))
    decreases |s| - i
  {
    if IsDigit(CodeAt(s, i)) then DigitEnd(s, i + 1) else i
  }

  function PastParen(s: Text, i: nat): (end: nat)
    requires i <= |s|
    ensures i <= end <= |s|
  {
    if CodeAt(s, i) == RPAREN then i + 1 else i
  }

  /** An unquoted address up to and with its closing parenthesis. */
  function AddressFrom(s: Text, i: nat): (r: (nat, Text))
    requires i <= |s|
    ensures i <= r.0 <= |s|
    decreases |s| - i
  {
    if i == |s| then (i, [])
    else if s[i] == RPAREN then (i + 1, [])
    else if IsWhitespace(s[i]) then (PastParen(s, SpaceEnd(s, i)), [])
    else if IsValidEscape(s, i) then
      var escape := Escape(s, i);
      var rest := AddressFrom(s, escape.0);
      (rest.0, escape.1 + rest.1)
    else
      var rest := AddressFrom(s, i + 1);
      (rest.0, [s[i]] + rest.1)
  }

  /** What follows `url(`. */
  function UrlFrom(s: Text, i: nat): (r: (nat, Text))
    requires i <= |s|
    ensures i <= r.0 <= |s|
  {
    var start := SpaceEnd(s, i);
    if CodeAt(s, start) == QUOTE || CodeAt(s, start) == APOSTROPHE then
      var quoted := StringFrom(s, start + 1, s[start]);
      (PastParen(s, SpaceEnd(s, quoted.0)), quoted.1)
    else AddressFrom(s, start)
  }

  predicate StartsExponent(s: Text, i: nat) {
    && (CodeAt(s, i) == 0x45 || CodeAt(s, i) == 0x65)
    && (IsDigit(CodeAt(s, i + 1))
        || ((CodeAt(s, i + 1) == PLUS || CodeAt(s, i + 1) == MINUS) && IsDigit(CodeAt(s, i + 2))))
  }

  function PastSign(s: Text, i: nat): (end: nat)
    requires i <= |s|
    ensures i <= end <= |s|
  {
    if CodeAt(s, i) == PLUS || CodeAt(s, i) == MINUS then i + 1 else i
  }

  /** Where a number's parts end. */
  function WholeEnd(s: Text, i: nat): (end: nat)
    requires i <= |s|
    ensures i <= end <= |s|
  {
    DigitEnd(s, PastSign(s, i))
  }

  function FractionEnd(s: Text, whole: nat): (end: nat)
    requires whole <= |s|
    ensures whole <= end <= |s|
  {
    if CodeAt(s, whole) == DOT && IsDigit(CodeAt(s, whole + 1)) then DigitEnd(s, whole + 1) else whole
  }

  function NumberEnd(s: Text, i: nat): (end: nat)
    requires i <= |s|
    ensures i <= end <= |s|
  {
    var fraction := FractionEnd(s, WholeEnd(s, i));
    if StartsExponent(s, fraction) then DigitEnd(s, PastSign(s, fraction + 1)) else fraction
  }

  predicate ClosesAt(s: Text, i: nat) {
    i + 1 < |s| && s[i] == STAR && s[i + 1] == SLASH
  }

  /** Where a comment's closing star is, or where the scan for it gives up: one code unit
      before the end. */
  function CommentEnd(s: Text, i: nat): (end: nat)
    requires i <= |s|
    ensures i <= end <= |s|
    decreases |s| - i
  {
    if i + 1 < |s| && !ClosesAt(s, i) then CommentEnd(s, i + 1) else i
  }

  /** `(c | 32) == lower` for a lower-case ASCII letter. */
  predicate IsLetter(c: CodeUnit, lower: CodeUnit)
    requires 0x61 <= lower <= 0x7A
  {
    c == lower || c == lower - 0x20
  }

  predicate SpellsUrl(name: Text) {
    |name| == 3 && IsLetter(name[0], 0x75) && IsLetter(name[1], 0x72) && IsLetter(name[2], 0x6C)
  }

  // ---------- the scanner ----------

  /** The token that starts at `i`. */
  function TokenAt(s: Text, i: nat): (r: Lexeme)
    requires i < |s|
    ensures r.start == i && r.end <= |s|
  {
    var c := s[i];
    if c == SLASH && CodeAt(s, i + 1) == STAR then
      var stop := CommentEnd(s, i + 2);
      Lexeme(Token(Comment, s[i + 2..stop]), i, if stop + 1 < |s| then stop + 2 else stop)
    else if IsWhitespace(c) then Lexeme(Token(Whitespace, []), i, SpaceEnd(s, i))
    else if c == QUOTE || c == APOSTROPHE then
      var quoted := StringFrom(s, i + 1, c);
      Lexeme(Token(Quoted, quoted.1), i, quoted.0)
    else if c == HASH then
      if IsName(CodeAt(s, i + 1)) || IsValidEscape(s, i + 1) then
        var name := IdentFrom(s, i + 1);
        Lexeme(Token(Hash, name.1), i, name.0)
      else Lexeme(Token(Delim, [c]), i, i + 1)
    else if c == AT then
      if StartsIdent(s, i + 1) then
        var name := IdentFrom(s, i + 1);
        Lexeme(Token(AtKeyword, name.1), i, name.0)
      else Lexeme(Token(Delim, [c]), i, i + 1)
    else if StartsIdent(s, i) then Named(s, i)
    else if StartsNumber(s, i) then Lexeme(Token(Number, s[i..NumberEnd(s, i)]), i, NumberEnd(s, i))
    else Lexeme(Token(Delim, [c]), i, i + 1)
  }

  /** An identifier, a function, or an address. */
  function Named(s: Text, i: nat): (r: Lexeme)
    requires i <= |s|
    ensures r.start == i && r.end <= |s|
  {
    var name := IdentFrom(s, i);
    if CodeAt(s, name.0) != LPAREN then Lexeme(Token(Ident, name.1), i, name.0)
    else if SpellsUrl(name.1) then
      var url := UrlFrom(s, name.0 + 1);
      Lexeme(Token(Url, url.1), i, url.0)
    else Lexeme(Token(Function, name.1), i, name.0 + 1)
  }

  lemma {:induction false} IdentAdvances(s: Text, i: nat)
    requires i < |s| && (IsName(s[i]) || IsValidEscape(s, i))
    ensures IdentFrom(s, i).0 > i
  {
  }

  /** The scanner always advances: every token is read from at least one code unit. */
  lemma {:induction false} TokenAdvances(s: Text, i: nat)
    requires i < |s|
    ensures i < TokenAt(s, i).end <= |s|
  {
  }

  function TokensFrom(s: Text, i: nat): seq<Lexeme>
    requires i <= |s|
    decreases |s| - i
  {
    if i == |s| then []
    else
      TokenAdvances(s, i);
      [TokenAt(s, i)] + TokensFrom(s, TokenAt(s, i).end)
  }

  lemma {:induction false} OneMoreToken(s: Text, i: nat, before: seq<Lexeme>)
    requires i < |s|
    ensures i < TokenAt(s, i).end
    ensures before + TokensFrom(s, i) == before + [TokenAt(s, i)] + TokensFrom(s, TokenAt(s, i).end)
  {
  }

  // ---------- the tokens cover the input ----------

  /** The stretches are not empty, each starts where the one before it ends, and together
      they run from `i` to the end. */
  predicate Tiles(tokens: seq<Lexeme>, i: nat, n: nat)
    decreases |tokens|
  {
    if tokens == [] then i == n
    else tokens[0].start == i < tokens[0].end && Tiles(tokens[1..], tokens[0].end, n)
  }

  /** The input read back from the stretches. */
  function Source(s: Text, tokens: seq<Lexeme>): Text {
    if tokens == [] then []
    else
      (if tokens[0].start <= tokens[0].end <= |s| then s[tokens[0].start..tokens[0].end] else [])
      + Source(s, tokens[1..])
  }

  lemma {:induction false} TokensTile(s: Text, i: nat)
    requires i <= |s|
    ensures Tiles(TokensFrom(s, i), i, |s|)
    ensures Source(s, TokensFrom(s, i)) == s[i..]
    ensures forall t :: t in TokensFrom(s, i) ==> t.start < |s| && t == TokenAt(s, t.start)
    decreases |s| - i
  {
    if i < |s| {
      TokenAdvances(s, i);
      var t, rest := TokenAt(s, i), TokensFrom(s, TokenAt(s, i).end);
      TokensTile(s, t.end);
      assert ([t] + rest)[1..] == rest;
      assert s[i..] == s[i..t.end] + s[t.end..];
    }
  }

  // ---------- what a token says of its stretch ----------

  lemma {:induction false} StretchFirst(s: Text, i: nat, j: nat)
    requires i < j <= |s|
    ensures s[i..j] == [s[i]] + s[i + 1..j]
  {
  }

  lemma {:induction false} StretchLast(s: Text, i: nat, j: nat)
    requires i <= j < |s|
    ensures s[i..j + 1] == s[i..j] + [s[j]]
  {
  }

  predicate NoEscape(s: Text, i: nat, end: nat)
    requires end <= |s|
  {
    forall k :: i <= k < end ==> s[k] != BACKSLASH
  }

  /** Where a run of text is read: in a name, in a string, or in an unquoted address. */
  datatype Mode = InName | InString(ending: CodeUnit) | InAddress

  /** A code unit that stands for itself. */
  predicate Plain(mode: Mode, c: CodeUnit) {
    match mode
    case InName => IsName(c)
    case InString(ending) => c != ending && c != BACKSLASH && !IsNewline(c)
    case InAddress => c != RPAREN && !IsWhitespace(c)
  }

  predicate Escapes(s: Text, i: nat, mode: Mode) {
    if mode.InString? then CodeAt(s, i) == BACKSLASH else IsValidEscape(s, i)
  }

  function EscapeIn(s: Text, i: nat, mode: Mode): (r: (nat, Text))
    requires i < |s|
    ensures i < r.0 <= |s|
  {
    if mode.InString? then StringEscape(s, i) else Escape(s, i)
  }

  /** What the stretch from `i` to `j` stands for, its escapes decoded, if it is made of
      escapes and plain units alone. */
  function Decoded(s: Text, i: nat, j: nat, mode: Mode): Option<Text>
    requires i <= |s|
    decreases |s| - i
  {
    if i >= j || i == |s| then if i == j then Some([]) else None
    else if Escapes(s, i, mode) then
      var escape := EscapeIn(s, i, mode);
      Prefixed(escape.1, Decoded(s, escape.0, j, mode))
    else if Plain(mode, s[i]) then Prefixed([s[i]], Decoded(s, i + 1, j, mode))
    else None
  }

  function Prefixed(text: Text, rest: Option<Text>): Option<Text> {
    if rest.None? then None else Some(text + rest.value)
  }

  /** `value` is what the text from `i` stands for up to `stop`, where it can go no further. */
  predicate IsContent(s: Text, i: nat, stop: nat, mode: Mode, value: Text) {
    && i <= stop <= |s| && Decoded(s, i, stop, mode) == Some(value)
    && (stop < |s| ==> !Escapes(s, stop, mode) && !Plain(mode, s[stop]))
  }

  /** There is one such place, and so one such value. */
  lemma {:induction false} ContentIsDetermined(s: Text, i: nat, mode: Mode, stop: nat, value: Text,
                                               other: nat, text: Text)
    requires IsContent(s, i, stop, mode, value) && IsContent(s, i, other, mode, text)
    ensures stop == other && value == text
    decreases |s| - i
  {
    if i < stop && i < other {
      if Escapes(s, i, mode) {
        var next := EscapeIn(s, i, mode).0;
        ContentIsDetermined(s, next, mode, stop, Decoded(s, next, stop, mode).value,
                            other, Decoded(s, next, other, mode).value);
      } else {
        ContentIsDetermined(s, i + 1, mode, stop, Decoded(s, i + 1, stop, mode).value,
                            other, Decoded(s, i + 1, other, mode).value);
      }
    }
  }

  /** Without escapes the content is the stretch as written. */
  lemma {:induction false} PlainContent(s: Text, i: nat, j: nat, mode: Mode)
    requires i <= j <= |s| && Decoded(s, i, j, mode).Some? && NoEscape(s, i, j)
    ensures Decoded(s, i, j, mode) == Some(s[i..j])
    ensures forall k :: i <= k < j ==> Plain(mode, s[k])
    decreases j - i
  {
    if i < j {
      assert s[i] != BACKSLASH;
      PlainContent(s, i + 1, j, mode);
      StretchFirst(s, i, j);
    } else {
      assert s[i..j] == [];
    }
  }

  lemma {:induction false} ContentGrows(s: Text, i: nat, next: nat, read: Text, stop: nat, mode: Mode, value: Text)
    requires i < |s| && IsContent(s, next, stop, mode, value)
    requires if Escapes(s, i, mode) then (next, read) == EscapeIn(s, i, mode)
             else Plain(mode, s[i]) && next == i + 1 && read == [s[i]]
    ensures IsContent(s, i, stop, mode, read + value)
  {
  }

  /** A name runs as far as it can, escapes decoded. */
  lemma {:induction false} IdentMeaning(s: Text, i: nat)
    requires i <= |s|
    ensures IsContent(s, i, IdentFrom(s, i).0, InName, IdentFrom(s, i).1)
    decreases |s| - i
  {
    if i < |s| && (IsName(s[i]) || IsValidEscape(s, i)) {
      var (next, read) := if IsName(s[i]) then (i + 1, [s[i]]) else Escape(s, i);
      IdentMeaning(s, next);
      ContentGrows(s, i, next, read, IdentFrom(s, next).0, InName, IdentFrom(s, next).1);
    }
  }

  /** Past the quote that closes a string, if one does. */
  function PastEnding(s: Text, stop: nat, ending: CodeUnit): (end: nat)
    requires stop <= |s|
    ensures stop <= end <= |s|
  {
    if CodeAt(s, stop) == ending then stop + 1 else stop
  }

  /** A string is what stands, escapes decoded, up to its closing quote, or up to the line
      end or input end that cuts it off. */
  lemma {:induction false} StringMeaning(s: Text, i: nat, ending: CodeUnit) returns (stop: nat)
    requires i <= |s| && ending != BACKSLASH
    ensures IsContent(s, i, stop, InString(ending), StringFrom(s, i, ending).1)
    ensures StringFrom(s, i, ending).0 == PastEnding(s, stop, ending)
    decreases |s| - i
  {
    if i < |s| && s[i] != ending && !IsNewline(s[i]) {
      var (next, read) := if s[i] == BACKSLASH then StringEscape(s, i) else (i + 1, [s[i]]);
      stop := StringMeaning(s, next, ending);
      ContentGrows(s, i, next, read, stop, InString(ending), StringFrom(s, next, ending).1);
    } else {
      stop := i;
    }
  }

  /** An unquoted address is what stands, escapes decoded, up to the first parenthesis or
      white space, and takes both in. */
  lemma {:induction false} AddressMeaning(s: Text, i: nat) returns (stop: nat)
    requires i <= |s|
    ensures IsContent(s, i, stop, InAddress, AddressFrom(s, i).1)
    ensures AddressFrom(s, i).0 == PastParen(s, SpaceEnd(s, stop))
    decreases |s| - i
  {
    if i < |s| && s[i] != RPAREN && !IsWhitespace(s[i]) {
      var (next, read) := if IsValidEscape(s, i) then Escape(s, i) else (i + 1, [s[i]]);
      stop := AddressMeaning(s, next);
      ContentGrows(s, i, next, read, stop, InAddress, AddressFrom(s, next).1);
    } else {
      stop := i;
    }
  }

  /** `value` is the address that follows an opening parenthesis, quoted or not, and `end`
      is past its closing parenthesis, if it has one. */
  ghost predicate IsAddress(s: Text, i: nat, end: nat, value: Text)
    requires i <= |s|
  {
    var start := SpaceEnd(s, i);
    if CodeAt(s, start) == QUOTE || CodeAt(s, start) == APOSTROPHE then
      exists stop ::
        && IsContent(s, start + 1, stop, InString(s[start]), value)
        && end == PastParen(s, SpaceEnd(s, PastEnding(s, stop, s[start])))
    else
      exists stop :: IsContent(s, start, stop, InAddress, value) && end == PastParen(s, SpaceEnd(s, stop))
  }

  lemma {:induction false} UrlMeaning(s: Text, i: nat)
    requires i <= |s|
    ensures IsAddress(s, i, UrlFrom(s, i).0, UrlFrom(s, i).1)
  {
    var start := SpaceEnd(s, i);
    if CodeAt(s, start) == QUOTE || CodeAt(s, start) == APOSTROPHE {
      var stop := StringMeaning(s, start + 1, s[start]);
    } else {
      var stop := AddressMeaning(s, start);
    }
  }

  /** A comment runs to the first closing mark; without one it stops a code unit short of
      the end of the input. */
  lemma {:induction false} CommentMeaning(s: Text, i: nat)
    requires i <= |s|
    ensures var end := CommentEnd(s, i);
      && (forall k :: i <= k < end ==> !ClosesAt(s, k))
      && (if end + 1 < |s| then ClosesAt(s, end) else end == if i < |s| then |s| - 1 else i)
    decreases |s| - i
  {
    if i + 1 < |s| && !ClosesAt(s, i) {
      CommentMeaning(s, i + 1);
    }
  }

  /** How a token's kind and value follow from the text it was read from. */
  ghost predicate Tells(s: Text, t: Lexeme)
    requires t.start < t.end <= |s|
  {
    var text, value := s[t.start..t.end], t.token.value;
    match t.token.kind
    case Comment =>
      && |text| >= 2 + |value| && text[..2] == [SLASH, STAR] && text[2..2 + |value|] == value
      && (forall k: nat :: k < |value| ==> !ClosesAt(value, k))
      && (text == [SLASH, STAR] + value + [STAR, SLASH]
          || (text == [SLASH, STAR] + value && |s| <= t.end + 1))
    case Whitespace => value == [] && (forall c :: c in text ==> IsWhitespace(c)) && !IsWhitespace(CodeAt(s, t.end))
    case Quoted =>
      && (text[0] == QUOTE || text[0] == APOSTROPHE)
      && exists stop ::
           IsContent(s, t.start + 1, stop, InString(text[0]), value) && t.end == PastEnding(s, stop, text[0])
    case Url => exists open, name :: IsUrl(s, t.start, open, name, t.end, value)
    case Function =>
      text[|text| - 1] == LPAREN && IsContent(s, t.start, t.end - 1, InName, value) && !SpellsUrl(value)
    case AtKeyword => text[0] == AT && IsContent(s, t.start + 1, t.end, InName, value)
    case Ident => IsContent(s, t.start, t.end, InName, value) && CodeAt(s, t.end) != LPAREN
    case Hash => text[0] == HASH && IsContent(s, t.start + 1, t.end, InName, value)
    case Number => text == value && StartsNumber(s, t.start) && !IsDigit(CodeAt(s, t.end))
    case Delim => text == value && |text| == 1
  }

  /** From `i` to `open` stands the name of the address function, its parenthesis there,
      and the address from there to `end`. */
  ghost predicate IsUrl(s: Text, i: nat, open: nat, name: Text, end: nat, value: Text) {
    && IsContent(s, i, open, InName, name) && SpellsUrl(name)
    && open < |s| && s[open] == LPAREN && IsAddress(s, open + 1, end, value)
  }

  lemma {:induction false} CommentTells(s: Text, i: nat)
    requires i + 1 < |s| && s[i] == SLASH && s[i + 1] == STAR
    ensures i < TokenAt(s, i).end && Tells(s, TokenAt(s, i))
  {
    CommentMeaning(s, i + 2);
    var t, stop := TokenAt(s, i), CommentEnd(s, i + 2);
    var value := s[i + 2..stop];
    forall k: nat | k < |value|
      ensures !ClosesAt(value, k)
    {
      assert !ClosesAt(s, i + 2 + k);
    }
    assert s[i..stop] == [SLASH, STAR] + s[i + 2..stop];
    if stop + 1 < |s| {
      assert s[i..t.end] == s[i..stop] + [STAR, SLASH];
    }
  }

  lemma {:induction false} QuotedTells(s: Text, i: nat)
    requires i < |s| && (s[i] == QUOTE || s[i] == APOSTROPHE)
    ensures i < TokenAt(s, i).end && Tells(s, TokenAt(s, i))
  {
    var stop := StringMeaning(s, i + 1, s[i]);
  }

  lemma {:induction false} UrlTells(s: Text, i: nat)
    requires i < |s| && CodeAt(s, IdentFrom(s, i).0) == LPAREN && SpellsUrl(IdentFrom(s, i).1)
    ensures Named(s, i).token.kind.Url? && i < Named(s, i).end && Tells(s, Named(s, i))
  {
    hide IdentFrom, UrlFrom, IsContent, IsAddress, SpellsUrl;
    var (open, name) := IdentFrom(s, i);
    IdentMeaning(s, i);
    UrlMeaning(s, open + 1);
    assert IsUrl(s, i, open, name, Named(s, i).end, Named(s, i).token.value);
  }

  lemma {:induction false} NamedTells(s: Text, i: nat)
    requires i < |s| && StartsIdent(s, i) && s[i] != QUOTE
    ensures i < Named(s, i).end && Tells(s, Named(s, i))
  {
    IdentMeaning(s, i);
    IdentAdvances(s, i);
    var (open, name) := IdentFrom(s, i);
    if CodeAt(s, open) == LPAREN {
      if SpellsUrl(name) {
        UrlTells(s, i);
      } else {
        assert s[i..open + 1][open - i] == LPAREN;
      }
    }
  }

  lemma {:induction false} MarkedTells(s: Text, i: nat)
    requires i < |s| && (s[i] == HASH || s[i] == AT)
    ensures i < TokenAt(s, i).end && Tells(s, TokenAt(s, i))
  {
    IdentMeaning(s, i + 1);
    TokenAdvances(s, i);
  }

  /** Every token of every input tells the truth about the text it stands for. */
  lemma {:induction false} TokenTells(s: Text, i: nat)
    requires i < |s|
    ensures i < TokenAt(s, i).end && Tells(s, TokenAt(s, i))
  {
    TokenAdvances(s, i);
    if s[i] == SLASH && CodeAt(s, i + 1) == STAR {
      CommentTells(s, i);
    } else if s[i] == QUOTE || s[i] == APOSTROPHE {
      QuotedTells(s, i);
    } else if s[i] == HASH || s[i] == AT {
      MarkedTells(s, i);
    } else if StartsIdent(s, i) {
      NamedTells(s, i);
    }
  }

  /** A token written without escapes is its own text, but for the marks around it. */
  lemma {:induction false} PlainTokenIsItsText(s: Text, i: nat)
    requires i < |s| && NoEscape(s, i, TokenAt(s, i).end)
    ensures var (kind, text, value) := (TokenAt(s, i).token.kind, s[i..TokenAt(s, i).end], TokenAt(s, i).token.value);
      && (kind.Ident? ==> text == value)
      && (kind.Function? ==> text == value + [LPAREN])
      && (kind.AtKeyword? ==> text == [AT] + value)
      && (kind.Hash? ==> text == [HASH] + value)
      && (kind.Quoted? ==> text == [text[0]] + value || text == [text[0]] + value + [text[0]])
  {
    TokenTells(s, i);
    var t := TokenAt(s, i);
    match t.token.kind
    case Ident => PlainContent(s, i, t.end, InName);
    case Function =>
      PlainContent(s, i, t.end - 1, InName);
      StretchLast(s, i, t.end - 1);
    case AtKeyword =>
      PlainContent(s, i + 1, t.end, InName);
      StretchFirst(s, i, t.end);
    case Hash =>
      PlainContent(s, i + 1, t.end, InName);
      StretchFirst(s, i, t.end);
    case Quoted =>
      var stop :| IsContent(s, i + 1, stop, InString(s[i]), t.token.value) && t.end == PastEnding(s, stop, s[i]);
      PlainContent(s, i + 1, stop, InString(s[i]));
      StretchFirst(s, i, stop);
      if t.end > stop {
        StretchLast(s, i, stop);
      }
    case _ =>
  }

  lemma {:induction false} NotANameIsNotNamed(s: Text, i: nat)
    requires i < |s| && !IsName(CodeAt(s, i)) && !IsValidEscape(s, i)
    ensures var kind := TokenAt(s, i).token.kind; !kind.Ident? && !kind.Function? && !kind.Url?
  {
  }

  lemma {:induction false} NamesStop(s: Text, i: nat)
    requires i < |s|
    ensures var t := TokenAt(s, i);
      t.token.kind.Ident? || t.token.kind.Hash? || t.token.kind.AtKeyword? ==>
        && !IsName(CodeAt(s, t.end)) && !IsValidEscape(s, t.end)
        && (t.token.kind.Ident? ==> CodeAt(s, t.end) != LPAREN)
  {
    IdentMeaning(s, i);
    IdentMeaning(s, i + 1);
  }

  /** Tokens are as long as they can be: white space is never followed by white space, nor
      a name by anything that starts like one. */
  lemma {:induction false} TokensAreMaximal(s: Text, i: nat)
    requires i < |s| && TokenAt(s, i).end < |s|
    ensures var (t, next) := (TokenAt(s, i).token.kind, TokenAt(s, TokenAt(s, i).end).token.kind);
      && (t.Whitespace? ==> !next.Whitespace?)
      && (t.Ident? || t.Hash? || t.AtKeyword? ==> !next.Ident? && !next.Function? && !next.Url?)
  {
    var t := TokenAt(s, i);
    NamesStop(s, i);
    if t.token.kind.Ident? || t.token.kind.Hash? || t.token.kind.AtKeyword? {
      NotANameIsNotNamed(s, t.end);
    } else if t.token.kind.Whitespace? {
      WhitespaceStops(s, i);
    }
  }

  lemma {:induction false} WhitespaceStops(s: Text, i: nat)
    requires i < |s| && TokenAt(s, i).token.kind.Whitespace? && TokenAt(s, i).end < |s|
    ensures !TokenAt(s, TokenAt(s, i).end).token.kind.Whitespace?
  {
  }

  // ---------- numbers ----------

  predicate AllDigits(s: Text, i: nat, j: nat)
    requires i <= j <= |s|
  {
    forall k :: i <= k < j ==> IsDigit(s[k])
  }

  predicate IsSign(c: CodeUnit) {
    c == PLUS || c == MINUS
  }

  /** The stretch from `i` to `j` is a number: a sign up to `a`, digits up to `b`, a point
      and more digits up to `c`, and an exponent whose digits start at `d`. All but one
      of the first two runs of digits may be missing. */
  predicate IsNumber(s: Text, i: nat, a: nat, b: nat, c: nat, d: nat, j: nat) {
    && i <= a <= b <= c <= j <= |s|
    && (a == i || (a == i + 1 && IsSign(s[i])))
    && AllDigits(s, a, b)
    && (c == b || (b + 1 < c && s[b] == DOT && AllDigits(s, b + 1, c)))
    && a < c
    && (j == c || (&& c < d < j && (s[c] == 0x45 || s[c] == 0x65)
                   && (d == c + 1 || (d == c + 2 && IsSign(s[c + 1])))
                   && AllDigits(s, d, j)))
  }

  lemma {:induction false} DigitEndMeaning(s: Text, i: nat)
    requires i <= |s|
    ensures AllDigits(s, i, DigitEnd(s, i))
    decreases |s| - i
  {
    if IsDigit(CodeAt(s, i)) {
      DigitEndMeaning(s, i + 1);
    }
  }

  lemma {:induction false} DigitsReach(s: Text, i: nat, j: nat)
    requires i <= j <= |s| && AllDigits(s, i, j)
    ensures j <= DigitEnd(s, i)
    decreases j - i
  {
  }

  lemma {:induction false} FractionMeaning(s: Text, whole: nat)
    requires whole <= |s|
    ensures var c := FractionEnd(s, whole);
      c == whole || (whole + 1 < c && s[whole] == DOT && AllDigits(s, whole + 1, c))
  {
    if FractionEnd(s, whole) > whole {
      DigitEndMeaning(s, whole + 1);
      DigitsReach(s, whole + 1, whole + 2);
    }
  }

  lemma {:induction false} ExponentMeaning(s: Text, c: nat)
    requires c < |s| && StartsExponent(s, c)
    ensures var (d, j) := (PastSign(s, c + 1), DigitEnd(s, PastSign(s, c + 1)));
      d < j && (d == c + 1 || (d == c + 2 && IsSign(s[c + 1]))) && AllDigits(s, d, j)
  {
    var d := PastSign(s, c + 1);
    DigitEndMeaning(s, d);
    DigitsReach(s, d, d + 1);
  }

  /** What the scanner reads as a number is one. */
  lemma {:induction false} NumbersAreNumbers(s: Text, i: nat)
    requires i < |s| && StartsNumber(s, i)
    ensures var (whole, fraction) := (WholeEnd(s, i), FractionEnd(s, WholeEnd(s, i)));
      IsNumber(s, i, PastSign(s, i), whole, fraction,
               if fraction < |s| then PastSign(s, fraction + 1) else fraction, NumberEnd(s, i))
  {
    var fraction := FractionEnd(s, WholeEnd(s, i));
    DigitEndMeaning(s, PastSign(s, i));
    FractionMeaning(s, WholeEnd(s, i));
    if StartsExponent(s, fraction) {
      ExponentMeaning(s, fraction);
    }
  }

  lemma {:induction false} ExponentReaches(s: Text, c: nat, d: nat, j: nat)
    requires c < d < j <= |s| && (s[c] == 0x45 || s[c] == 0x65)
    requires (d == c + 1 || (d == c + 2 && IsSign(s[c + 1]))) && AllDigits(s, d, j)
    ensures StartsExponent(s, c) && j <= DigitEnd(s, PastSign(s, c + 1))
  {
  }

  /** And it is the longest one that starts there. */
  lemma {:induction false} NumbersAreLongest(s: Text, i: nat, a: nat, b: nat, c: nat, d: nat, j: nat)
    requires IsNumber(s, i, a, b, c, d, j)
    ensures j <= NumberEnd(s, i)
  {
    assert a < b ==> IsDigit(s[a]);
    assert a == PastSign(s, i);
    var whole := WholeEnd(s, i);
    var fraction := FractionEnd(s, whole);
    DigitsReach(s, a, b);
    DigitEndMeaning(s, a);
    if b == whole {
      if b < c {
        assert IsDigit(s[b + 1]);
        DigitsReach(s, b + 1, c);
        DigitEndMeaning(s, b + 1);
      }
      if c < j {
        ExponentReaches(s, c, d, j);
      }
    }
  }

  // ---------- escapes read back ----------

  function DigitOf(v: nat): CodeUnit
    requires v < 16
  {
    if v < 10 then 0x30 + v else 0x61 + (v - 10)
  }

  function HexOf(v: nat, count: nat): (digits: Text)
    ensures |digits| == count
    ensures forall k :: 0 <= k < |digits| ==> IsHex(digits[k])
  {
    if count == 0 then [] else HexOf(v / 16, count - 1) + [DigitOf(v % 16)]
  }

  function Power16(n: nat): nat {
    if n == 0 then 1 else 16 * Power16(n - 1)
  }

  lemma {:induction false} HexReadsBack(v: nat, count: nat)
    requires v < Power16(count)
    ensures HexValue(HexOf(v, count)) == v
  {
    if count > 0 {
      HexReadsBack(v / 16, count - 1);
      var digits := HexOf(v, count);
      assert digits[..count - 1] == HexOf(v / 16, count - 1);
    }
  }

  lemma {:induction false} HexEndIs(s: Text, i: nat, count: nat)
    requires i + count <= |s| && forall k :: i <= k < i + count ==> IsHex(s[k])
    ensures HexEnd(s, i, count) == i + count
    decreases count
  {
    if count > 0 {
      HexEndIs(s, i + 1, count - 1);
    }
  }

  /** `v` written as a backslash and six digits. */
  function Escaped(v: nat): (text: Text)
    ensures |text| == 7
  {
    [BACKSLASH] + HexOf(v, 6)
  }

  /** Past the escape at `i` and the one blank it may end with. */
  function PastEscape(s: Text, i: nat): nat {
    if IsWhitespace(CodeAt(s, i + 7)) then i + 8 else i + 7
  }

  /** Every code point reads back from its escape, wherever that stands; a blank after it
      is taken in. */
  lemma {:induction false} EscapeReadsBack(s: Text, i: nat, v: nat)
    requires IsScalar(v) && i + 7 <= |s| && s[i..i + 7] == Escaped(v)
    ensures Escape(s, i) == (PastEscape(s, i), FromCodePoint(v))
  {
    var digits := HexOf(v, 6);
    forall k | i + 1 <= k < i + 7
      ensures IsHex(s[k])
    {
      assert s[k] == s[i..i + 7][k - i] == digits[k - i - 1];
    }
    var count := 6;
    HexEndIs(s, i + 1, count);
    assert s[i + 1..i + 7] == s[i..i + 7][1..] == digits;
    assert Power16(3) == 4096 && Power16(6) == 16_777_216;
    HexReadsBack(v, 6);
  }

  predicate AllScalar(points: seq<nat>) {
    forall v :: v in points ==> IsScalar(v)
  }

  /** A text of code points, as UTF-16 code units. */
  function Units(points: seq<nat>): Text
    requires AllScalar(points)
  {
    if points == [] then []
    else
      assert points[0] in points && forall v :: v in points[1..] ==> v in points;
      FromCodePoint(points[0]) + Units(points[1..])
  }

  /** `points` spelled out in escapes from `i` to `end`. */
  predicate SpellsOut(s: Text, i: nat, points: seq<nat>, end: nat)
    decreases |points|
  {
    if points == [] then i == end
    else i + 7 <= |s| && s[i..i + 7] == Escaped(points[0]) && SpellsOut(s, PastEscape(s, i), points[1..], end)
  }

  lemma {:induction false} EscapeInString(s: Text, i: nat, v: nat, ending: CodeUnit)
    requires IsScalar(v) && i + 7 <= |s| && s[i..i + 7] == Escaped(v) && ending != BACKSLASH
    ensures PastEscape(s, i) <= |s|
    ensures var rest := StringFrom(s, PastEscape(s, i), ending);
      StringFrom(s, i, ending) == (rest.0, FromCodePoint(v) + rest.1)
  {
    EscapeReadsBack(s, i, v);
    assert s[i] == s[i..i + 7][0] == BACKSLASH;
    assert s[i + 1] == s[i..i + 7][1] == HexOf(v, 6)[0];
  }

  /** Any text, quotes, line ends and code points past the first plane included, can be put
      in a string in escapes and is read back exactly. */
  lemma {:induction false} StringReadsBack(s: Text, i: nat, points: seq<nat>, end: nat, ending: CodeUnit)
    requires AllScalar(points) && i <= |s| && SpellsOut(s, i, points, end)
    requires (ending == QUOTE || ending == APOSTROPHE) && CodeAt(s, end) == ending
    ensures end < |s| && StringFrom(s, i, ending) == (end + 1, Units(points))
    decreases |points|
  {
    if points != [] {
      assert points[0] in points && forall v :: v in points[1..] ==> v in points;
      EscapeInString(s, i, points[0], ending);
      StringReadsBack(s, PastEscape(s, i), points[1..], end, ending);
    }
  }

  // ---------- the scanner object ----------

  class Scanner {
    const input: Text
    var index: nat

    constructor (text: Text)
      ensures input == text && index == 0
    {
      input, index := text, 0;
    }

    ghost predicate Valid()
      reads this
    {
      index <= |input|
    }

    /** At most six hexadecimal digits. */
    method ConsumeHex()
      requires Valid()
      modifies this`index
      ensures Valid() && index == HexEnd(input, old(index), 6)
    {
      var count := 0;
      while count < 6 && IsHex(CodeAt(input, index))
        invariant count <= 6 && Valid()
        invariant HexEnd(input, old(index), 6) == HexEnd(input, index, 6 - count)
      {
        index := index + 1;
        count := count + 1;
      }
    }

    method ConsumeEscape() returns (value: Text)
      requires index < |input|
      modifies this`index
      ensures Valid() && (index, value) == Escape(input, old(index))
    {
      index := index + 1;
      var first := CodeAt(input, index);
      if first < 0 {
        return [REPLACEMENT];
      }
      if IsHex(first) {
        var start := index;
        ConsumeHex();
        var code := HexValue(input[start..index]);
        if IsWhitespace(CodeAt(input, index)) {
          index := index + 1;
        }
        return if IsScalar(code) then FromCodePoint(code) else [REPLACEMENT];
      }
      if IsNewline(first) {
        if first == CR && CodeAt(input, index + 1) == LF {
          index := index + 1;
        }
        index := index + 1;
        return [];
      }
      index := index + 1;
      return [input[index - 1]];
    }

    method ConsumeIdent() returns (value: Text)
      requires Valid()
      modifies this`index
      ensures Valid() && (index, value) == IdentFrom(input, old(index))
    {
      value := [];
      assert value + IdentFrom(input, index).1 == IdentFrom(input, index).1;
      while index < |input|
        invariant Valid()
        invariant IdentFrom(input, old(index)) == (IdentFrom(input, index).0, value + IdentFrom(input, index).1)
        decreases |input| - index
      {
        ghost var before, read := index, value;
        assert read + [] == read;
        if IsName(CodeAt(input, index)) {
          value := value + [input[index]];
          index := index + 1;
          assert read + IdentFrom(input, before).1 == value + IdentFrom(input, index).1;
        } else if IsValidEscape(input, index) {
          var escape := ConsumeEscape();
          value := value + escape;
          assert read + IdentFrom(input, before).1 == value + IdentFrom(input, index).1;
        } else {
          break;
        }
      }
      assert value + [] == value;
    }

    method ConsumeStringEscape() returns (value: Text)
      requires index < |input|
      modifies this`index
      ensures Valid() && (index, value) == StringEscape(input, old(index))
    {
      if index + 1 >= |input| {
        index := index + 1;
        return [];
      }
      if IsNewline(CodeAt(input, index + 1)) {
        if CodeAt(input, index + 1) == CR && CodeAt(input, index + 2) == LF {
          index := index + 1;
        }
        index := index + 2;
        return [];
      }
      value := ConsumeEscape();
    }

    method ConsumeString(ending: CodeUnit) returns (value: Text)
      requires index < |input|
      modifies this`index
      ensures Valid() && (index, value) == StringFrom(input, old(index) + 1, ending)
    {
      index := index + 1;
      ghost var start := index;
      value := [];
      assert value + StringFrom(input, index, ending).1 == StringFrom(input, index, ending).1;
      while index < |input|
        invariant Valid()
        invariant StringFrom(input, start, ending)
               == (StringFrom(input, index, ending).0, value + StringFrom(input, index, ending).1)
        decreases |input| - index
      {
        ghost var before, read := index, value;
        assert read + [] == read;
        var c := input[index];
        if c == ending {
          index := index + 1;
          return;
        }
        if IsNewline(c) {
          return;
        }
        if c == BACKSLASH {
          var escape := ConsumeStringEscape();
          value := value + escape;
        } else {
          value := value + [c];
          index := index + 1;
        }
        assert read + StringFrom(input, before, ending).1 == value + StringFrom(input, index, ending).1;
      }
      assert value + [] == value;
    }

    method ConsumeWhitespace()
      requires Valid()
      modifies this`index
      ensures Valid() && index == SpaceEnd(input, old(index))
    {
      while IsWhitespace(CodeAt(input, index))
        invariant Valid() && SpaceEnd(input, index) == SpaceEnd(input, old(index))
        decreases |input| - index
      {
        index := index + 1;
      }
    }

    method ConsumeDigits()
      requires Valid()
      modifies this`index
      ensures Valid() && index == DigitEnd(input, old(index))
    {
      while IsDigit(CodeAt(input, index))
        invariant Valid() && DigitEnd(input, index) == DigitEnd(input, old(index))
        decreases |input| - index
      {
        index := index + 1;
      }
    }

    method ConsumeAddress() returns (value: Text)
      requires Valid()
      modifies this`index
      ensures Valid() && (index, value) == AddressFrom(input, old(index))
    {
      value := [];
      assert value + AddressFrom(input, index).1 == AddressFrom(input, index).1;
      while index < |input|
        invariant Valid()
        invariant AddressFrom(input, old(index)) == (AddressFrom(input, index).0, value + AddressFrom(input, index).1)
        decreases |input| - index
      {
        ghost var before, read := index, value;
        assert read + [] == read;
        var c := input[index];
        if c == RPAREN {
          index := index + 1;
          return;
        }
        if IsWhitespace(c) {
          ConsumeWhitespace();
          if CodeAt(input, index) == RPAREN {
            index := index + 1;
          }
          return;
        }
        if IsValidEscape(input, index) {
          var escape := ConsumeEscape();
          value := value + escape;
        } else {
          value := value + [c];
          index := index + 1;
        }
        assert read + AddressFrom(input, before).1 == value + AddressFrom(input, index).1;
      }
      assert value + [] == value;
    }

    method ConsumeUrl() returns (value: Text)
      requires Valid()
      modifies this`index
      ensures Valid() && (index, value) == UrlFrom(input, old(index))
    {
      ConsumeWhitespace();
      var next := CodeAt(input, index);
      if next == QUOTE || next == APOSTROPHE {
        value := ConsumeString(input[index]);
        ConsumeWhitespace();
        if CodeAt(input, index) == RPAREN {
          index := index + 1;
        }
        return;
      }
      value := ConsumeAddress();
    }

    method ConsumeNumber() returns (value: Text)
      requires Valid()
      modifies this`index
      ensures Valid() && index == NumberEnd(input, old(index)) && value == input[old(index)..index]
    {
      var start := index;
      ConsumeSign();
      ConsumeDigits();
      if CodeAt(input, index) == DOT && IsDigit(CodeAt(input, index + 1)) {
        index := index + 1;
        ConsumeDigits();
      }
      if StartsExponent(input, index) {
        index := index + 1;
        ConsumeSign();
        ConsumeDigits();
      }
      return input[start..index];
    }

    method ConsumeSign()
      requires Valid()
      modifies this`index
      ensures Valid() && index == PastSign(input, old(index))
    {
      if CodeAt(input, index) == PLUS || CodeAt(input, index) == MINUS {
        index := index + 1;
      }
    }

    method ConsumeComment() returns (value: Text)
      requires index + 1 < |input| && input[index] == SLASH && input[index + 1] == STAR
      modifies this`index
      ensures Valid() && TokenAt(input, old(index)) == Lexeme(Token(Comment, value), old(index), index)
    {
      index := index + 2;
      var start := index;
      while index + 1 < |input| && !(CodeAt(input, index) == STAR && CodeAt(input, index + 1) == SLASH)
        invariant start <= index <= |input| && CommentEnd(input, index) == CommentEnd(input, start)
      {
        index := index + 1;
      }
      value := input[start..index];
      if index + 1 < |input| {
        index := index + 2;
      }
    }

    /** A hash or an at-keyword. */
    method ScanMarked() returns (token: Token)
      requires index < |input| && (input[index] == HASH || input[index] == AT)
      modifies this`index
      ensures Valid() && Lexeme(token, old(index), index) == TokenAt(input, old(index))
    {
      var c := input[index];
      index := index + 1;
      if c == HASH && (IsName(CodeAt(input, index)) || IsValidEscape(input, index)) {
        var value := ConsumeIdent();
        return Token(Hash, value);
      }
      if c == AT && StartsIdent(input, index) {
        var value := ConsumeIdent();
        return Token(AtKeyword, value);
      }
      return Token(Delim, [c]);
    }

    method ScanNamed() returns (token: Token)
      requires Valid()
      modifies this`index
      ensures Valid() && Lexeme(token, old(index), index) == Named(input, old(index))
    {
      var name := ConsumeIdent();
      if CodeAt(input, index) != LPAREN {
        return Token(Ident, name);
      }
      index := index + 1;
      if SpellsUrl(name) {
        var value := ConsumeUrl();
        return Token(Url, value);
      }
      return Token(Function, name);
    }

    /** One turn of the scanning loop. */
    method ScanToken() returns (token: Token)
      requires index < |input|
      modifies this`index
      ensures Valid() && Lexeme(token, old(index), index) == TokenAt(input, old(index))
    {
      var c := input[index];
      if c == SLASH && CodeAt(input, index + 1) == STAR {
        var value := ConsumeComment();
        return Token(Comment, value);
      }
      if IsWhitespace(c) {
        ConsumeWhitespace();
        return Token(Whitespace, []);
      }
      if c == QUOTE || c == APOSTROPHE {
        var value := ConsumeString(c);
        return Token(Quoted, value);
      }
      if c == HASH || c == AT {
        token := ScanMarked();
        return;
      }
      if StartsIdent(input, index) {
        token := ScanNamed();
        return;
      }
      if StartsNumber(input, index) {
        var value := ConsumeNumber();
        return Token(Number, value);
      }
      index := index + 1;
      return Token(Delim, [input[index - 1]]);
    }

    /** The whole scan ends, at the end of the input, with tokens whose stretches tile it. */
    method Tokenize() returns (tokens: seq<Lexeme>)
      requires index == 0
      modifies this`index
      ensures index == |input| && tokens == TokensFrom(input, 0)
      ensures Tiles(tokens, 0, |input|) && Source(input, tokens) == input
    {
      tokens := [];
      while index < |input|
        invariant Valid()
        invariant TokensFrom(input, 0) == tokens + TokensFrom(input, index)
        decreases |input| - index
      {
        TokenAdvances(input, index);
        OneMoreToken(input, index, tokens);
        var start := index;
        var token := ScanToken();
        tokens := tokens + [Lexeme(token, start, index)];
      }
      TokensTile(input, 0);
    }
  }
}
