/** Which token starts where, in the letters of the input: every kind by its opening units
    alone, and what names and escapes are made of. */
module CssKinds {
  import opened Common
  import opened Css

  /** The unit at `i` is this ASCII character. */
  predicate Is(s: Text, i: nat, c: char) {
    i < |s| && s[i] == c as int
  }

  predicate IsOneOf(s: Text, i: nat, cs: string) {
    exists k :: 0 <= k < |cs| && Is(s, i, cs[k])
  }

  predicate IsBetween(s: Text, i: nat, low: char, high: char) {
    i < |s| && low as int <= s[i] <= high as int
  }

  predicate DigitAt(s: Text, i: nat) {
    IsBetween(s, i, '0', '9')
  }

  /** A letter, an underscore, or anything beyond ASCII. */
  predicate NameStartAt(s: Text, i: nat) {
    IsBetween(s, i, 'a', 'z') || IsBetween(s, i, 'A', 'Z') || Is(s, i, '_') || (i < |s| && s[i] > 0x7F)
  }

  predicate NameUnitAt(s: Text, i: nat) {
    NameStartAt(s, i) || DigitAt(s, i) || Is(s, i, '-')
  }

  /** A line feed, form feed or carriage return. */
  predicate LineEndAt(s: Text, i: nat) {
    i < |s| && (s[i] == 10 || s[i] == 12 || s[i] == 13)
  }

  predicate BlankAt(s: Text, i: nat) {
    LineEndAt(s, i) || Is(s, i, ' ') || (i < |s| && s[i] == 9)
  }

  predicate HexAt(s: Text, i: nat) {
    DigitAt(s, i) || IsBetween(s, i, 'a', 'f') || IsBetween(s, i, 'A', 'F')
  }

  /** A backslash before anything but a line end; the input's last unit counts. */
  predicate EscapeAt(s: Text, i: nat) {
    Is(s, i, '\\') && !LineEndAt(s, i + 1)
  }

  predicate NameOpens(s: Text, i: nat) {
    || NameStartAt(s, i) || EscapeAt(s, i)
    || (Is(s, i, '-') && (NameStartAt(s, i + 1) || Is(s, i + 1, '-') || EscapeAt(s, i + 1)))
  }

  predicate NumberOpens(s: Text, i: nat) {
    var digits := if Is(s, i, '+') || Is(s, i, '-') then i + 1 else i;
    DigitAt(s, digits) || (Is(s, digits, '.') && DigitAt(s, digits + 1))
  }

  /** The three letters, in any mix of cases. */
  predicate IsUrlWord(name: Text) {
    |name| == 3 && IsOneOf(name, 0, "uU") && IsOneOf(name, 1, "rR") && IsOneOf(name, 2, "lL")
  }

  /** A name from `i` on, ended by an opening parenthesis or not. */
  ghost predicate NameThenParen(s: Text, i: nat, word: Text -> bool, paren: bool) {
    exists stop, name :: IsContent(s, i, stop, InName, name) && word(name) && Is(s, stop, '(') == paren
  }

  /** What must stand at `i` for a token of this kind. */
  ghost predicate Opens(s: Text, i: nat, kind: Kind) {
    match kind
    case Comment => Is(s, i, '/') && Is(s, i + 1, '*')
    case Whitespace => BlankAt(s, i)
    case Quoted => Is(s, i, '"') || Is(s, i, '\'')
    case Hash => Is(s, i, '#') && (NameUnitAt(s, i + 1) || EscapeAt(s, i + 1))
    case AtKeyword => Is(s, i, '@') && NameOpens(s, i + 1)
    case Number => NumberOpens(s, i)
    case Ident => NameOpens(s, i) && NameThenParen(s, i, _ => true, false)
    case Url => NameOpens(s, i) && NameThenParen(s, i, name => IsUrlWord(name), true)
    case Function => NameOpens(s, i) && NameThenParen(s, i, name => !IsUrlWord(name), true)
    case Delim =>
      && !(Is(s, i, '/') && Is(s, i + 1, '*')) && !BlankAt(s, i) && !Is(s, i, '"') && !Is(s, i, '\'')
      && !(Is(s, i, '#') && (NameUnitAt(s, i + 1) || EscapeAt(s, i + 1)))
      && !(Is(s, i, '@') && NameOpens(s, i + 1))
      && !NumberOpens(s, i) && !NameOpens(s, i)
  }

  // ---------- the classes of the scanner ----------

  /** The scanner's classes of code units are these. */
  lemma {:induction false} Classes(s: Text, i: nat)
    ensures IsWhitespace(CodeAt(s, i)) <==> BlankAt(s, i)
    ensures IsNewline(CodeAt(s, i)) <==> LineEndAt(s, i)
    ensures IsDigit(CodeAt(s, i)) <==> DigitAt(s, i)
    ensures IsHex(CodeAt(s, i)) <==> HexAt(s, i)
    ensures IsNameStart(CodeAt(s, i)) <==> NameStartAt(s, i)
    ensures IsName(CodeAt(s, i)) <==> NameUnitAt(s, i)
  {
  }

  /** And so are the places where an escape, a name or a number starts. */
  lemma {:induction false} Starts(s: Text, i: nat)
    ensures IsValidEscape(s, i) <==> EscapeAt(s, i)
    ensures StartsIdent(s, i) <==> NameOpens(s, i)
    ensures StartsNumber(s, i) <==> NumberOpens(s, i)
  {
    Classes(s, i);
    Classes(s, i + 1);
    Classes(s, i + 2);
  }

  lemma {:induction false} WordMeaning(name: Text)
    ensures SpellsUrl(name) <==> IsUrlWord(name)
  {
    if SpellsUrl(name) {
      assert Is(name, 0, "uU"[0]) || Is(name, 0, "uU"[1]);
      assert Is(name, 1, "rR"[0]) || Is(name, 1, "rR"[1]);
      assert Is(name, 2, "lL"[0]) || Is(name, 2, "lL"[1]);
    }
  }

  // ---------- the kind of a token ----------

  lemma {:induction false} OpeningsExclude(s: Text, i: nat)
    ensures NameOpens(s, i) ==> !NumberOpens(s, i)
  {
  }

  lemma {:induction false} NamedKind(s: Text, i: nat, kind: Kind)
    requires i < |s| && NameOpens(s, i)
    ensures Named(s, i).token.kind == kind <==>
      (kind.Ident? || kind.Url? || kind.Function?) && Opens(s, i, kind)
  {
    hide IdentFrom, IsContent, UrlFrom, IsUrlWord, SpellsUrl, NameOpens;
    var (stop, name) := IdentFrom(s, i);
    IdentMeaning(s, i);
    WordMeaning(name);
    assert CodeAt(s, stop) == LPAREN <==> Is(s, stop, '(');
    forall other, text | IsContent(s, i, other, InName, text)
      ensures other == stop && text == name
    {
      ContentIsDetermined(s, i, InName, stop, name, other, text);
    }
  }

  /** The kind of a token follows from its opening: each kind is read exactly where its own
      units stand, and a lone delimiter exactly where none of the others do. */
  lemma {:induction false} KindIsItsOpening(s: Text, i: nat, kind: Kind)
    requires i < |s|
    ensures TokenAt(s, i).token.kind == kind <==> Opens(s, i, kind)
  {
    hide IdentFrom, IsContent, UrlFrom, StringFrom, SpaceEnd, NumberEnd, CommentEnd, NameThenParen, Named;
    Classes(s, i);
    Classes(s, i + 1);
    Starts(s, i);
    Starts(s, i + 1);
    OpeningsExclude(s, i);
    if NameOpens(s, i) {
      NamedKind(s, i, kind);
    }
  }

  // ---------- what content is made of ----------

  /** What a name, a string or an address takes as it stands, and where an escape begins. */
  lemma {:induction false} ContentUnits(s: Text, i: nat, quote: CodeUnit)
    requires i < |s|
    ensures Plain(InName, s[i]) <==> NameUnitAt(s, i)
    ensures Plain(InString(quote), s[i]) <==> s[i] != quote && !Is(s, i, '\\') && !LineEndAt(s, i)
    ensures Plain(InAddress, s[i]) <==> !Is(s, i, ')') && !BlankAt(s, i)
    ensures Escapes(s, i, InName) <==> EscapeAt(s, i)
    ensures Escapes(s, i, InAddress) <==> EscapeAt(s, i)
    ensures Escapes(s, i, InString(quote)) <==> Is(s, i, '\\')
  {
    Classes(s, i);
    Starts(s, i);
  }

  predicate IsHexDigit(unit: CodeUnit, digit: nat) {
    digit < 16 && (unit == "0123456789abcdef"[digit] as int || unit == "0123456789ABCDEF"[digit] as int)
  }

  /** The digits, most significant first, of a hexadecimal number. */
  ghost predicate IsHexNumber(digits: Text, value: nat)
    decreases |digits|
  {
    if digits == [] then value == 0
    else IsHexDigit(digits[|digits| - 1], value % 16) && IsHexNumber(digits[..|digits| - 1], value / 16)
  }

  lemma {:induction false} HexDigitMeaning(unit: CodeUnit)
    requires IsHex(unit)
    ensures IsHexDigit(unit, HexDigit(unit))
  {
  }

  lemma {:induction false} DigitIsSmall(unit: CodeUnit)
    requires IsHex(unit)
    ensures HexDigit(unit) < 16
  {
  }

  lemma {:induction false} LastDigit(high: nat, digit: nat)
    requires digit < 16
    ensures (16 * high + digit) % 16 == digit && (16 * high + digit) / 16 == high
  {
  }

  lemma {:induction false} HexValueMeaning(digits: Text)
    requires forall k :: 0 <= k < |digits| ==> IsHex(digits[k])
    ensures IsHexNumber(digits, HexValue(digits))
  {
    hide HexDigit, IsHexDigit;
    if digits != [] {
      var front, last := digits[..|digits| - 1], digits[|digits| - 1];
      HexValueMeaning(front);
      HexDigitMeaning(last);
      assert HexDigit(last) < 16 by {
        DigitIsSmall(last);
      }
      LastDigit(HexValue(front), HexDigit(last));
      assert HexValue(digits) == 16 * HexValue(front) + HexDigit(last);
    }
  }

  /** One code point as code units: itself, or a pair of surrogates. */
  predicate IsCodePoint(units: Text, value: nat) {
    if value < 0x10000 then units == [value]
    else
      && |units| == 2 && 0xD800 <= units[0] <= 0xDBFF && 0xDC00 <= units[1] <= 0xDFFF
      && value == 0x10000 + (units[0] as int - 0xD800) * 0x400 + (units[1] as int - 0xDC00)
  }

  lemma {:induction false} CodePointMeaning(value: nat)
    requires IsScalar(value)
    ensures IsCodePoint(FromCodePoint(value), value)
  {
    if value >= 0x10000 {
      var over := value - 0x10000;
      assert over == over / 0x400 * 0x400 + over % 0x400;
    }
  }

  /** Digits from `i` to `end`: six, or fewer with none after them. */
  ghost predicate HexRun(s: Text, i: nat, end: nat) {
    && i < end <= |s| && end <= i + 6
    && (forall k: nat :: i <= k < end ==> HexAt(s, k))
    && (end < i + 6 ==> !HexAt(s, end))
  }

  lemma {:induction false} HexEndStops(s: Text, i: nat, count: nat)
    requires i <= |s|
    ensures HexEnd(s, i, count) <= i + count
    ensures HexEnd(s, i, count) < i + count ==> !HexAt(s, HexEnd(s, i, count))
    decreases count
  {
    Classes(s, i);
    if count > 0 && HexAt(s, i) {
      HexEndStops(s, i + 1, count - 1);
    }
  }

  lemma {:induction false} HexRunMeaning(s: Text, i: nat, count: nat)
    requires HexAt(s, i) && count == 6
    ensures HexRun(s, i, HexEnd(s, i, count))
  {
    Classes(s, i);
    HexEndStops(s, i, count);
    forall k: nat | i <= k < HexEnd(s, i, count)
      ensures HexAt(s, k)
    {
      Classes(s, k);
    }
  }

  /** What an escape of hexadecimal digits stands for: its code point, or the replacement
      character where there is none, with the one blank after it taken in. */
  ghost predicate IsHexEscape(s: Text, i: nat, end: nat, read: Text) {
    exists stop, value :: HexEscapeStops(s, i, stop, value, end, read)
  }

  ghost predicate HexEscapeStops(s: Text, i: nat, stop: nat, value: nat, end: nat, read: Text) {
    && HexRun(s, i + 1, stop) && IsHexNumber(s[i + 1..stop], value)
    && end == (if BlankAt(s, stop) then stop + 1 else stop)
    && if value == 0 || value > 0x10FFFF || 0xD800 <= value <= 0xDFFF then read == [0xFFFD]
       else IsCodePoint(read, value)
  }

  lemma {:induction false} HexEscapeMeaning(s: Text, i: nat)
    requires i < |s| && HexAt(s, i + 1)
    ensures IsHexEscape(s, i, Escape(s, i).0, Escape(s, i).1)
  {
    hide IsHexNumber, HexRun, HexValue, HexEnd, FromCodePoint, IsCodePoint;
    var count := 6;
    var end := HexEnd(s, i + 1, count);
    Classes(s, i + 1);
    Classes(s, end);
    HexRunMeaning(s, i + 1, count);
    HexRunIsInside(s, i + 1, end);
    HexValueMeaning(s[i + 1..end]);
    var value := HexValue(s[i + 1..end]);
    if IsScalar(value) {
      CodePointMeaning(value);
    }
    assert HexEscapeStops(s, i, end, value, Escape(s, i).0, Escape(s, i).1);
  }

  lemma {:induction false} HexRunIsInside(s: Text, i: nat, end: nat)
    requires HexRun(s, i, end)
    ensures i < end <= |s| && forall k :: 0 <= k < end - i ==> IsHex(s[i..end][k])
  {
    forall k | 0 <= k < end - i
      ensures IsHex(s[i..end][k])
    {
      Classes(s, i + k);
      assert HexAt(s, i + k);
    }
  }

  predicate CarriageAndFeed(s: Text, i: nat) {
    i + 1 < |s| && s[i] == 13 && s[i + 1] == 10
  }

  /** What every escape stands for: nothing at the end of the input but the replacement
      character, hexadecimal digits, a line end skipped, or else the unit itself. In a string
      the last backslash of the input stands for nothing. */
  lemma {:induction false} EscapeMeaning(s: Text, i: nat)
    requires i < |s|
    ensures i + 1 == |s| ==> Escape(s, i) == (i + 1, [0xFFFD]) && StringEscape(s, i) == (i + 1, [])
    ensures HexAt(s, i + 1) ==> IsHexEscape(s, i, Escape(s, i).0, Escape(s, i).1)
    ensures LineEndAt(s, i + 1) ==>
      Escape(s, i) == StringEscape(s, i) == (if CarriageAndFeed(s, i + 1) then i + 3 else i + 2, [])
    ensures i + 1 < |s| && !HexAt(s, i + 1) && !LineEndAt(s, i + 1) ==> Escape(s, i) == (i + 2, [s[i + 1]])
    ensures i + 1 < |s| && !LineEndAt(s, i + 1) ==> StringEscape(s, i) == Escape(s, i)
  {
    hide IsHexEscape, HexEnd, HexValue;
    Classes(s, i + 1);
    if HexAt(s, i + 1) {
      HexEscapeMeaning(s, i);
    }
  }

  // ---------- where strings and addresses end ----------

  /** A string ends at its quote, which it takes in, or before a line end, or with the input. */
  ghost predicate StringStops(s: Text, i: nat, stop: nat, end: nat, value: Text)
    requires i < |s|
  {
    && IsContent(s, i + 1, stop, InString(s[i]), value)
    && (stop == |s| || s[stop] == s[i] || LineEndAt(s, stop))
    && end == if stop < |s| && s[stop] == s[i] then stop + 1 else stop
  }

  lemma {:induction false} StringStopsMeaning(s: Text, i: nat) returns (stop: nat)
    requires i < |s| && (Is(s, i, '"') || Is(s, i, '\''))
    ensures StringStops(s, i, stop, StringFrom(s, i + 1, s[i]).0, StringFrom(s, i + 1, s[i]).1)
  {
    hide StringFrom, Decoded;
    stop := StringMeaning(s, i + 1, s[i]);
    if stop < |s| {
      Classes(s, stop);
    }
  }

  ghost predicate SkipsBlanks(s: Text, from: nat, to: nat) {
    from <= to <= |s| && (forall k: nat :: from <= k < to ==> BlankAt(s, k)) && !BlankAt(s, to)
  }

  lemma {:induction false} SpaceMeaning(s: Text, i: nat)
    requires i <= |s|
    ensures SkipsBlanks(s, i, SpaceEnd(s, i))
  {
    Classes(s, SpaceEnd(s, i));
    forall k: nat | i <= k < SpaceEnd(s, i)
      ensures BlankAt(s, k)
    {
      Classes(s, k);
    }
  }

  /** After `url(` and blanks: a string, or what stands up to a blank or a parenthesis; then
      blanks, and the closing parenthesis if it is there. */
  ghost predicate AddressStops(s: Text, open: nat, start: nat, past: nat, last: nat, end: nat, value: Text) {
    && SkipsBlanks(s, open + 1, start) && SkipsBlanks(s, past, last)
    && (if Is(s, start, '"') || Is(s, start, '\'') then exists stop :: StringStops(s, start, stop, past, value)
        else IsContent(s, start, past, InAddress, value) && (past == |s| || Is(s, past, ')') || BlankAt(s, past)))
    && end == if Is(s, last, ')') then last + 1 else last
  }

  lemma {:induction false} AddressStopsMeaning(s: Text, open: nat) returns (start: nat, past: nat, last: nat)
    requires open < |s|
    ensures AddressStops(s, open, start, past, last, UrlFrom(s, open + 1).0, UrlFrom(s, open + 1).1)
  {
    hide SkipsBlanks, IsContent, StringFrom, AddressFrom, StringStops;
    start := SpaceEnd(s, open + 1);
    SpaceMeaning(s, open + 1);
    if Is(s, start, '"') || Is(s, start, '\'') {
      var stop := StringStopsMeaning(s, start);
      past := StringFrom(s, start + 1, s[start]).0;
    } else {
      past := AddressMeaning(s, start);
      AddressPast(s, start, past, AddressFrom(s, start).1);
    }
    last := SpaceEnd(s, past);
    SpaceMeaning(s, past);
  }

  lemma {:induction false} AddressPast(s: Text, start: nat, past: nat, value: Text)
    requires IsContent(s, start, past, InAddress, value)
    ensures past <= |s| && (past == |s| || Is(s, past, ')') || BlankAt(s, past))
  {
    hide Decoded;
    if past < |s| {
      Classes(s, past);
    }
  }

  /** So a string or address token ends where its text does. */
  lemma {:induction false} QuotedAndUrlEnd(s: Text, i: nat)
    requires i < |s|
    ensures var t := TokenAt(s, i);
      && (t.token.kind.Quoted? ==> exists stop :: StringStops(s, i, stop, t.end, t.token.value))
      && (t.token.kind.Url? ==>
            exists open, name, start, past, last ::
              && IsContent(s, i, open, InName, name) && IsUrlWord(name) && Is(s, open, '(')
              && AddressStops(s, open, start, past, last, t.end, t.token.value))
  {
    hide IsContent, StringFrom, UrlFrom, IdentFrom, AddressStops, StringStops, SpellsUrl, IsUrlWord;
    var t := TokenAt(s, i);
    KindIsItsOpening(s, i, t.token.kind);
    if t.token.kind.Quoted? {
      var stop := StringStopsMeaning(s, i);
    }
    if t.token.kind.Url? {
      var (open, name) := IdentFrom(s, i);
      IdentMeaning(s, i);
      WordMeaning(name);
      var start, past, last := AddressStopsMeaning(s, open);
      assert IsContent(s, i, open, InName, name) && IsUrlWord(name) && Is(s, open, '(')
        && AddressStops(s, open, start, past, last, t.end, t.token.value);
    }
  }

  // ---------- where comments end ----------

  predicate MarkAt(s: Text, i: nat) {
    Is(s, i, '*') && Is(s, i + 1, '/')
  }

  ghost predicate NoMarkBefore(s: Text, from: nat, to: nat) {
    forall k: nat :: from <= k < to ==> !MarkAt(s, k)
  }

  /** A comment is what stands up to the first closing mark, which it takes in. Where there is
      none it ends one unit before the input does, or with it when nothing follows the opening
      mark. */
  lemma {:induction false} CommentsEnd(s: Text, i: nat) returns (stop: nat)
    requires i < |s| && TokenAt(s, i).token.kind.Comment?
    ensures var t := TokenAt(s, i);
      && i + 2 <= stop <= |s| && t.token.value == s[i + 2..stop] && NoMarkBefore(s, i + 2, stop)
      && if MarkAt(s, stop) then t.end == stop + 2
         else NoMarkBefore(s, i + 2, |s|) && t.end == stop == if i + 2 < |s| then |s| - 1 else |s|
  {
    hide CommentEnd;
    KindIsItsOpening(s, i, Comment);
    stop := CommentEnd(s, i + 2);
    CommentMeaning(s, i + 2);
    forall k: nat
      ensures MarkAt(s, k) <==> ClosesAt(s, k)
    {
    }
  }
}
