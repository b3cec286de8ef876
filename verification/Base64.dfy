module Base64 {
  import opened Common

  const PAD: CodeUnit := 0x3d

  /** Sixty-four letters and the lookup that reads them back. */
  datatype Alphabet = Alphabet(letter: bv8 -> CodeUnit, sextet: int -> Option<bv8>)

  /** `A-Z`, `a-z`, `0-9`, then the two letters the alphabets differ in. */
  function LetterAt(s: int, at62: CodeUnit, at63: CodeUnit): CodeUnit {
    if 0 <= s < 26 then 0x41 + s
    else if 26 <= s < 52 then 0x61 + s - 26
    else if 52 <= s < 62 then 0x30 + s - 52
    else if s == 62 then at62
    else at63
  }

  function SextetAt(code: int, at62: CodeUnit, at63: CodeUnit): Option<bv8> {
    if 0x41 <= code <= 0x5a then Some((code - 0x41) as bv8)
    else if 0x61 <= code <= 0x7a then Some((code - 0x61 + 26) as bv8)
    else if 0x30 <= code <= 0x39 then Some((code - 0x30 + 52) as bv8)
    else if code == at62 then Some(62)
    else if code == at63 then Some(63)
    else None
  }

  function Standard(): Alphabet {
    Alphabet((s: bv8) => LetterAt(s as int, 0x2b, 0x2f), (code: int) => SextetAt(code, 0x2b, 0x2f))
  }

  function UrlSafe(): Alphabet {
    Alphabet((s: bv8) => LetterAt(s as int, 0x2d, 0x5f), (code: int) => SextetAt(code, 0x2d, 0x5f))
  }

  /** Letters are printable, are never a pad, and read back as what they stand for. */
  ghost predicate Proper(a: Alphabet) {
    forall s: bv8 :: ProperAt(a, s)
  }

  ghost predicate ProperAt(a: Alphabet, s: bv8) {
    s < 64 ==>
      && a.letter(s) < 128 && a.letter(s) != PAD && !IsWhitespace(a.letter(s))
      && a.sextet(a.letter(s)) == Some(s)
  }

  lemma {:induction false} SextetRoundTrip(s: bv8, at62: CodeUnit, at63: CodeUnit)
    requires s < 64
    requires (at62, at63) == (0x2b, 0x2f) || (at62, at63) == (0x2d, 0x5f)
    ensures var code := LetterAt(s as int, at62, at63);
      code < 128 && code != PAD && !IsWhitespace(code) && SextetAt(code, at62, at63) == Some(s)
  {
  }

  lemma {:induction false} AlphabetsAreProper()
    ensures Proper(Standard()) && Proper(UrlSafe())
  {
    forall s: bv8
      ensures ProperAt(Standard(), s) && ProperAt(UrlSafe(), s)
    {
      if s < 64 {
        SextetRoundTrip(s, 0x2b, 0x2f);
        SextetRoundTrip(s, 0x2d, 0x5f);
      }
    }
  }

  /** Three bytes as four sextets. */
  function Split(b0: Byte, b1: Byte, b2: Byte): (bv8, bv8, bv8, bv8) {
    ((b0 >> 2) & 0x3f, ((b0 & 0x03) << 4) | (b1 >> 4), ((b1 & 0x0f) << 2) | (b2 >> 6), b2 & 0x3f)
  }

  /** Four sextets as three bytes. */
  function Join(a: bv8, b: bv8, c: bv8, d: bv8): (Byte, Byte, Byte) {
    ((a << 2) | (b >> 4), ((b & 0x0f) << 4) | (c >> 2), ((c & 0x03) << 6) | d)
  }

  lemma {:induction false} JoinUndoesSplit(b0: Byte, b1: Byte, b2: Byte)
    ensures var s := Split(b0, b1, b2);
      && s.0 < 64 && s.1 < 64 && s.2 < 64 && s.3 < 64
      && Join(s.0, s.1, s.2, s.3) == (b0, b1, b2)
      && Join(s.0, s.1, 0, 0).0 == b0
      && Join(s.0, s.1, s.2, 0).1 == b1
  {
  }

  // ---------- standard base64 ----------

  function At(bytes: seq<Byte>, index: nat): Byte {
    if index < |bytes| then bytes[index] else 0
  }

  /** The four letters for the bytes from `i` on; pads stand for missing bytes. */
  function Quad(a: Alphabet, bytes: seq<Byte>, i: nat): (quad: seq<CodeUnit>)
    ensures |quad| == 4
  {
    var s := Split(At(bytes, i), At(bytes, i + 1), At(bytes, i + 2));
    [ a.letter(s.0),
      a.letter(s.1),
      if i + 1 < |bytes| then a.letter(s.2) else PAD,
      if i + 2 < |bytes| then a.letter(s.3) else PAD ]
  }

  /** The encoding of the first `groups` groups of three bytes. */
  function EncodeGroups(a: Alphabet, bytes: seq<Byte>, groups: nat): (text: seq<CodeUnit>)
    ensures |text| == 4 * groups
  {
    if groups == 0 then [] else EncodeGroups(a, bytes, groups - 1) + Quad(a, bytes, 3 * (groups - 1))
  }

  function GroupCount(bytes: seq<Byte>): nat {
    (|bytes| + 2) / 3
  }

  function Encode(a: Alphabet, bytes: seq<Byte>): (text: seq<CodeUnit>) {
    EncodeGroups(a, bytes, GroupCount(bytes))
  }

  method EncodeBase64(a: Alphabet, bytes: seq<Byte>) returns (text: seq<CodeUnit>)
    ensures text == Encode(a, bytes)
  {
    hide Split;
    text := [];
    var index := 0;
    ghost var n := 0;
    while index < |bytes|
      invariant index == 3 * n && n <= GroupCount(bytes)
      invariant text == EncodeGroups(a, bytes, n)
    {
      var remaining := |bytes| - index;
      var b0 := bytes[index];
      var b1 := if remaining > 1 then bytes[index + 1] else 0;
      var b2 := if remaining > 2 then bytes[index + 2] else 0;
      var s := Split(b0, b1, b2);
      ghost var before := text;
      text := text + [a.letter(s.0)];
      text := text + [a.letter(s.1)];
      text := text + [if remaining > 1 then a.letter(s.2) else PAD];
      text := text + [if remaining > 2 then a.letter(s.3) else PAD];
      assert text == before + Quad(a, bytes, index);
      index := index + 3;
      n := n + 1;
    }
    assert n == GroupCount(bytes);
  }

  predicate IsWhitespace(code: int) {
    code == 0x09 || code == 0x0a || code == 0x0d || code == 0x20
  }

  /** The code units the decoder keeps, each cut to the byte its typed array holds. */
  function Cleaned(text: seq<CodeUnit>): seq<int> {
    if text == [] then []
    else (if IsWhitespace(text[0]) then [] else [text[0] % 256]) + Cleaned(text[1..])
  }

  /** What a letter stands for; a pad reads as zero. */
  function Value(a: Alphabet, code: int): Option<bv8> {
    if code == PAD then Some(0) else a.sextet(code)
  }

  predicate ValidGroup(a: Alphabet, c: seq<int>, i: nat)
    requires i + 4 <= |c|
  {
    Value(a, c[i]).Some? && Value(a, c[i + 1]).Some? && Value(a, c[i + 2]).Some? && Value(a, c[i + 3]).Some?
  }

  /** The bytes the decoder writes for the four letters from `i` on. */
  function Group(a: Alphabet, c: seq<int>, i: nat): (bytes: seq<Byte>)
    requires i + 4 <= |c| && ValidGroup(a, c, i)
    ensures |bytes| == 3 - (if c[i + 2] == PAD then 1 else 0) - (if c[i + 3] == PAD then 1 else 0)
  {
    var j := Join(Value(a, c[i]).value, Value(a, c[i + 1]).value, Value(a, c[i + 2]).value, Value(a, c[i + 3]).value);
    [j.0] + (if c[i + 2] != PAD then [j.1] else []) + (if c[i + 3] != PAD then [j.2] else [])
  }

  /** The bytes of the first `n` groups, or nothing when one holds a foreign letter. */
  function Groups(a: Alphabet, c: seq<int>, n: nat): Option<seq<Byte>>
    requires 4 * n <= |c|
  {
    if n == 0 then Some([])
    else
      var before := Groups(a, c, n - 1);
      if before.None? || !ValidGroup(a, c, 4 * (n - 1)) then None
      else Some(before.value + Group(a, c, 4 * (n - 1)))
  }

  /** The buffer size, taken from the length and the last two letters alone. */
  function OutputSize(c: seq<int>): nat
    requires |c| % 4 == 0
  {
    var n := |c|;
    if n == 0 then 0
    else n / 4 * 3 - (if c[n - 1] == PAD then 1 else 0) - (if c[n - 2] == PAD then 1 else 0)
  }

  /** The decoder never writes past its buffer, whatever pads the text holds. */
  lemma {:induction false} WritesFit(a: Alphabet, c: seq<int>, n: nat)
    requires |c| % 4 == 0 && 4 * n <= |c| && Groups(a, c, n).Some?
    ensures |Groups(a, c, n).value| <= 3 * n
    ensures |Groups(a, c, n).value| <= OutputSize(c)
  {
    if n > 0 {
      WritesFit(a, c, n - 1);
    }
  }

  lemma {:induction false} GroupsStopAtForeign(a: Alphabet, c: seq<int>, n: nat, m: nat)
    requires n <= m && 4 * m <= |c| && Groups(a, c, n).None?
    ensures Groups(a, c, m).None?
  {
    if n < m {
      GroupsStopAtForeign(a, c, n, m - 1);
    }
  }

  function Zeros(n: nat): seq<Byte> {
    seq(n, _ => 0)
  }

  /** The buffer after all groups: their bytes, then zeros where an interior pad
      left it unwritten. */
  function Buffer(a: Alphabet, c: seq<int>): Option<seq<Byte>>
    requires |c| % 4 == 0
  {
    if Groups(a, c, |c| / 4).None? then None
    else
      WritesFit(a, c, |c| / 4);
      var bytes := Groups(a, c, |c| / 4).value;
      Some(bytes + Zeros(OutputSize(c) - |bytes|))
  }

  /** What `decodeBase64` answers. */
  function Decode(a: Alphabet, text: seq<CodeUnit>): Option<seq<Byte>> {
    if |Cleaned(text)| % 4 != 0 then None else Buffer(a, Cleaned(text))
  }

  method DecodeBase64(a: Alphabet, value: seq<CodeUnit>) returns (bytes: Option<seq<Byte>>)
    ensures bytes == Decode(a, value)
  {
    var length := CountKept(value);
    if length % 4 != 0 {
      return None;
    }
    var cleaned := Clean(value, length);
    bytes := DecodeCleaned(a, cleaned[..]);
  }

  method Clean(value: seq<CodeUnit>, length: nat) returns (cleaned: array<int>)
    requires length == |Cleaned(value)|
    ensures cleaned[..] == Cleaned(value)
  {
    cleaned := new int[length](_ => 0);
    var write := 0;
    for index := 0 to |value|
      invariant write <= length
      invariant cleaned[..write] + Cleaned(value[index..]) == Cleaned(value)
    {
      if !IsWhitespace(value[index]) {
        assert |Cleaned(value[index..])| > 0;
        ghost var before := cleaned[..write];
        cleaned[write] := value[index] % 256;
        write := write + 1;
        assert cleaned[..write] == before + [value[index] % 256];
      }
    }
    assert cleaned[..] == cleaned[..write];
  }

  method CountKept(value: seq<CodeUnit>) returns (length: nat)
    ensures length == |Cleaned(value)|
  {
    length := 0;
    for index := 0 to |value|
      invariant length + |Cleaned(value[index..])| == |Cleaned(value)|
    {
      if !IsWhitespace(value[index]) {
        length := length + 1;
      }
    }
  }

  method WriteGroup(output: array<Byte>, start: nat, j: (Byte, Byte, Byte), second: bool, third: bool,
                    ghost group: seq<Byte>)
    returns (next: nat)
    requires group == [j.0] + (if second then [j.1] else []) + (if third then [j.2] else [])
    requires start + |group| <= output.Length
    modifies output
    ensures next == start + |group|
    ensures output[..] == old(output[..start]) + group + old(output[start + |group|..])
  {
    next := start;
    output[next] := j.0;
    next := next + 1;
    if second {
      output[next] := j.1;
      next := next + 1;
    }
    if third {
      output[next] := j.2;
      next := next + 1;
    }
  }

  lemma {:induction false} GroupStep(a: Alphabet, c: seq<int>, n: nat)
    requires |c| % 4 == 0 && 4 * n + 4 <= |c| && Groups(a, c, n).Some?
    ensures !ValidGroup(a, c, 4 * n) ==> Buffer(a, c).None?
    ensures ValidGroup(a, c, 4 * n) ==>
      && Groups(a, c, n + 1) == Some(Groups(a, c, n).value + Group(a, c, 4 * n))
      && |Groups(a, c, n).value| + |Group(a, c, 4 * n)| <= OutputSize(c)
  {
    if ValidGroup(a, c, 4 * n) {
      WritesFit(a, c, n + 1);
    } else {
      GroupsStopAtForeign(a, c, n + 1, |c| / 4);
    }
  }

  /** The first `n` groups are written at the front and the rest is still zero. */
  ghost predicate Filled(a: Alphabet, c: seq<int>, n: nat, buffer: seq<Byte>, next: nat)
    requires |c| % 4 == 0
  {
    && 4 * n <= |c| && Groups(a, c, n).Some?
    && |buffer| == OutputSize(c) && next <= |buffer|
    && buffer == Groups(a, c, n).value + Zeros(|buffer| - next)
    && next == |Groups(a, c, n).value|
  }

  lemma {:induction false} FilledStep(a: Alphabet, c: seq<int>, n: nat, before: seq<Byte>, next: nat, after: seq<Byte>)
    requires |c| % 4 == 0 && 4 * n + 4 <= |c| && Filled(a, c, n, before, next) && ValidGroup(a, c, 4 * n)
    requires next + |Group(a, c, 4 * n)| <= |before| == |after|
    requires after == before[..next] + Group(a, c, 4 * n) + before[next + |Group(a, c, 4 * n)|..]
    ensures Filled(a, c, n + 1, after, next + |Group(a, c, 4 * n)|)
  {
  }

  method DecodeGroup(a: Alphabet, cleaned: seq<int>, index: nat, output: array<Byte>, start: nat)
    returns (ok: bool, next: nat)
    requires index + 4 <= |cleaned|
    requires ValidGroup(a, cleaned, index) ==> start + |Group(a, cleaned, index)| <= output.Length
    modifies output
    ensures ok <==> ValidGroup(a, cleaned, index)
    ensures ok ==>
      && next == start + |Group(a, cleaned, index)|
      && output[..] ==
           old(output[..start]) + Group(a, cleaned, index) + old(output[start + |Group(a, cleaned, index)|..])
  {
    var p, q := Value(a, cleaned[index]), Value(a, cleaned[index + 1]);
    var r, s := Value(a, cleaned[index + 2]), Value(a, cleaned[index + 3]);
    if p.None? || q.None? || r.None? || s.None? {
      return false, start;
    }
    next := WriteGroup(output, start, Join(p.value, q.value, r.value, s.value),
                       cleaned[index + 2] != PAD, cleaned[index + 3] != PAD, Group(a, cleaned, index));
    ok := true;
  }

  /** The second half of `decodeBase64`: size the buffer, then fill it group by
      group. Every write is inside the buffer. */
  method DecodeCleaned(a: Alphabet, cleaned: seq<int>) returns (bytes: Option<seq<Byte>>)
    requires |cleaned| % 4 == 0
    ensures bytes == Buffer(a, cleaned)
  {
    var length := |cleaned|;
    var padding := 0;
    if length > 0 {
      padding := (if cleaned[length - 1] == PAD then 1 else 0) + (if cleaned[length - 2] == PAD then 1 else 0);
    }
    var output := new Byte[length / 4 * 3 - padding](_ => 0);
    var outputIndex := 0;
    var index := 0;
    ghost var n := 0;
    assert output[..] == Zeros(output.Length);
    assert [] + Zeros(output.Length) == Zeros(output.Length);
    while index < length
      invariant index == 4 * n <= length
      invariant Filled(a, cleaned, n, output[..], outputIndex)
    {
      hide Groups, Group, Zeros, OutputSize;
      GroupStep(a, cleaned, n);
      ghost var before := output[..];
      var ok, next := DecodeGroup(a, cleaned, index, output, outputIndex);
      if !ok {
        return None;
      }
      FilledStep(a, cleaned, n, before, outputIndex, output[..]);
      outputIndex := next;
      index := index + 4;
      n := n + 1;
    }
    assert n == length / 4;
    return Some(output[..]);
  }

  lemma {:induction false} EncodedAt(a: Alphabet, bytes: seq<Byte>, n: nat, m: nat)
    requires n < m
    ensures EncodeGroups(a, bytes, m)[4 * n..4 * n + 4] == Quad(a, bytes, 3 * n)
    decreases m
  {
    if n < m - 1 {
      EncodedAt(a, bytes, n, m - 1);
      assert EncodeGroups(a, bytes, m)[4 * n..4 * n + 4] == EncodeGroups(a, bytes, m - 1)[4 * n..4 * n + 4];
    }
  }

  lemma {:induction false} ValuesOfQuad(a: Alphabet, bytes: seq<Byte>, i: nat)
    requires Proper(a)
    ensures var (q, s) := (Quad(a, bytes, i), Split(At(bytes, i), At(bytes, i + 1), At(bytes, i + 2)));
      && Value(a, q[0]) == Some(s.0) && Value(a, q[1]) == Some(s.1)
      && Value(a, q[2]) == Some(if i + 1 < |bytes| then s.2 else 0)
      && Value(a, q[3]) == Some(if i + 2 < |bytes| then s.3 else 0)
  {
    var s := Split(At(bytes, i), At(bytes, i + 1), At(bytes, i + 2));
    JoinUndoesSplit(At(bytes, i), At(bytes, i + 1), At(bytes, i + 2));
    assert ProperAt(a, s.0) && ProperAt(a, s.1) && ProperAt(a, s.2) && ProperAt(a, s.3);
  }

  lemma {:induction false} JoinOfQuad(bytes: seq<Byte>, i: nat)
    requires i < |bytes|
    ensures var s := Split(At(bytes, i), At(bytes, i + 1), At(bytes, i + 2));
      var j := Join(s.0, s.1, if i + 1 < |bytes| then s.2 else 0, if i + 2 < |bytes| then s.3 else 0);
      && j.0 == bytes[i]
      && (i + 1 < |bytes| ==> j.1 == bytes[i + 1])
      && (i + 2 < |bytes| ==> j.2 == bytes[i + 2])
  {
  }

  lemma {:induction false} ChunkAt(bytes: seq<Byte>, i: nat)
    requires i < |bytes|
    ensures bytes[i..Min(i + 3, |bytes|)]
         == [bytes[i]] + (if i + 1 < |bytes| then [bytes[i + 1]] else [])
                       + (if i + 2 < |bytes| then [bytes[i + 2]] else [])
  {
  }

  lemma {:induction false} GroupOfQuad(a: Alphabet, bytes: seq<Byte>, c: seq<int>, i: nat, k: nat)
    requires Proper(a)
    requires i < |bytes| && k + 4 <= |c| && c[k..k + 4] == Quad(a, bytes, i)
    ensures ValidGroup(a, c, k)
    ensures Group(a, c, k) == bytes[i..Min(i + 3, |bytes|)]
  {
    var q := Quad(a, bytes, i);
    ValuesOfQuad(a, bytes, i);
    JoinOfQuad(bytes, i);
    ChunkAt(bytes, i);
    LettersOfQuad(a, bytes, i);
    assert c[k] == q[0] && c[k + 1] == q[1] && c[k + 2] == q[2] && c[k + 3] == q[3];
  }

  lemma {:induction false} PrefixGrows(bytes: seq<Byte>, n: nat)
    requires 0 < n <= GroupCount(bytes)
    ensures var start := 3 * (n - 1);
      start < |bytes| && Min(start, |bytes|) == start
      && bytes[..Min(3 * n, |bytes|)] == bytes[..start] + bytes[start..Min(start + 3, |bytes|)]
  {
  }

  lemma {:induction false} EncodedGroup(a: Alphabet, bytes: seq<Byte>, n: nat)
    requires Proper(a) && 0 < n <= GroupCount(bytes)
    ensures var (c, start) := (Encode(a, bytes), 3 * (n - 1));
      && ValidGroup(a, c, 4 * (n - 1))
      && Group(a, c, 4 * (n - 1)) == bytes[start..Min(start + 3, |bytes|)]
  {
    EncodedAt(a, bytes, n - 1, GroupCount(bytes));
    GroupOfQuad(a, bytes, Encode(a, bytes), 3 * (n - 1), 4 * (n - 1));
  }

  lemma {:induction false} GroupsOfEncode(a: Alphabet, bytes: seq<Byte>, n: nat)
    requires Proper(a) && n <= GroupCount(bytes)
    ensures Groups(a, Encode(a, bytes), n) == Some(bytes[..Min(3 * n, |bytes|)])
  {
    if n > 0 {
      GroupsOfEncode(a, bytes, n - 1);
      EncodedGroup(a, bytes, n);
      PrefixGrows(bytes, n);
    }
  }

  /** The last two letters of an encoding are pads exactly for missing bytes. */
  lemma {:induction false} EncodedSize(a: Alphabet, bytes: seq<Byte>)
    requires Proper(a)
    ensures |Encode(a, bytes)| == GroupCount(bytes) * 4
    ensures OutputSize(Encode(a, bytes)) == |bytes|
    ensures TrailingPads(Encode(a, bytes)) == GroupCount(bytes) * 3 - |bytes|
  {
    var n := GroupCount(bytes);
    if n > 0 {
      var e, i := Encode(a, bytes), 3 * (n - 1);
      EncodedAt(a, bytes, n - 1, n);
      var q := Quad(a, bytes, i);
      assert e[4 * n - 4..4 * n] == q;
      assert e[4 * n - 1] == q[3] && e[4 * n - 2] == q[2] && e[4 * n - 3] == q[1];
      LettersOfQuad(a, bytes, i);
      PadsOfThree(e);
    }
  }

  lemma {:induction false} LettersOfQuad(a: Alphabet, bytes: seq<Byte>, i: nat)
    requires Proper(a)
    ensures var q := Quad(a, bytes, i);
      && (forall k :: 0 <= k < 4 ==> q[k] < 128 && !IsWhitespace(q[k]))
      && q[0] != PAD && q[1] != PAD
      && (q[2] == PAD <==> i + 1 >= |bytes|)
      && (q[3] == PAD <==> i + 2 >= |bytes|)
  {
    var s := Split(At(bytes, i), At(bytes, i + 1), At(bytes, i + 2));
    JoinUndoesSplit(At(bytes, i), At(bytes, i + 1), At(bytes, i + 2));
    assert ProperAt(a, s.0) && ProperAt(a, s.1) && ProperAt(a, s.2) && ProperAt(a, s.3);
  }

  /** Decoding undoes encoding for every byte string, wherever whitespace has been
      inserted into the text. */
  lemma {:induction false} RoundTrip(a: Alphabet, bytes: seq<Byte>, text: seq<CodeUnit>)
    requires Proper(a) && Cleaned(text) == Encode(a, bytes)
    ensures Decode(a, text) == Some(bytes)
  {
    EncodedSize(a, bytes);
    GroupsOfEncode(a, bytes, GroupCount(bytes));
    assert bytes[..|bytes|] == bytes && bytes + Zeros(0) == bytes;
  }

  /** An encoding contains nothing the decoder drops or narrows. */
  lemma {:induction false} EncodingIsClean(a: Alphabet, bytes: seq<Byte>)
    requires Proper(a)
    ensures Cleaned(Encode(a, bytes)) == Encode(a, bytes)
  {
    EncodedUnits(a, bytes, GroupCount(bytes));
    CleanText(Encode(a, bytes));
  }

  lemma {:induction false} EncodedUnits(a: Alphabet, bytes: seq<Byte>, n: nat)
    requires Proper(a)
    ensures forall k :: 0 <= k < 4 * n ==>
      EncodeGroups(a, bytes, n)[k] < 128 && !IsWhitespace(EncodeGroups(a, bytes, n)[k])
  {
    if n > 0 {
      EncodedUnits(a, bytes, n - 1);
      LettersOfQuad(a, bytes, 3 * (n - 1));
    }
  }

  lemma {:induction false} CleanText(text: seq<CodeUnit>)
    requires forall k :: 0 <= k < |text| ==> text[k] < 128 && !IsWhitespace(text[k])
    ensures Cleaned(text) == text
  {
    if text != [] {
      CleanText(text[1..]);
    }
  }

  /** Whitespace inserted anywhere leaves the kept code units alone. */
  lemma {:induction false} WhitespaceIsDropped(left: seq<CodeUnit>, space: CodeUnit, right: seq<CodeUnit>)
    requires IsWhitespace(space)
    ensures Cleaned(left + [space] + right) == Cleaned(left + right)
  {
    var spaced, plain := left + [space] + right, left + right;
    if left == [] {
      assert spaced[1..] == right && plain == right;
    } else {
      assert spaced[1..] == left[1..] + [space] + right;
      assert plain[1..] == left[1..] + right;
      WhitespaceIsDropped(left[1..], space, right);
    }
  }

  function TrailingPads(text: seq<CodeUnit>): nat {
    if text == [] || text[|text| - 1] != PAD then 0 else 1 + TrailingPads(text[..|text| - 1])
  }

  lemma {:induction false} PadsOfThree(text: seq<CodeUnit>)
    requires |text| >= 3 && text[|text| - 3] != PAD
    requires text[|text| - 2] == PAD ==> text[|text| - 1] == PAD
    ensures TrailingPads(text) ==
      (if text[|text| - 1] == PAD then 1 else 0) + (if text[|text| - 2] == PAD then 1 else 0)
  {
    var n := |text|;
    assert text[..n - 1][..n - 2] == text[..n - 2];
    assert TrailingPads(text[..n - 2]) == 0;
  }

  /** `decoded_len`: the byte count the asset listing reports, as a 32-bit value. */
  function DecodedLen(text: seq<CodeUnit>): nat {
    var whole, pads := |text| * 3 / 4, TrailingPads(text);
    Min(if pads < whole then whole - pads else 0, U32_MAX)
  }

  /** The length reported for an encoded raster is its byte count, up to the
      32-bit ceiling. */
  lemma {:induction false} DecodedLenIsByteCount(a: Alphabet, bytes: seq<Byte>)
    requires Proper(a)
    ensures DecodedLen(Encode(a, bytes)) == Min(|bytes|, U32_MAX)
  {
    EncodedSize(a, bytes);
  }

  // ---------- size checks of a validated raster ----------

  const MAX_RASTER_SIDE: nat := 4_096
  const MAX_RASTER_PIXELS: nat := 16_000_000

  datatype RasterCode = LimitExceeded | InternalError

  datatype Raster = Raster(width: nat, height: nat, decodedBytes: nat, base64Bytes: nat, dataBase64: seq<CodeUnit>)

  lemma {:induction false} EncodedRaster(bytes: seq<Byte>)
    ensures var text := Encode(Standard(), bytes);
      && Decode(Standard(), text) == Some(bytes)
      && DecodedLen(text) == Min(|bytes|, U32_MAX)
      && |text| == GroupCount(bytes) * 4
      && (|bytes| <= MAX_RASTER_DECODED_BYTES ==> |text| <= MAX_RASTER_BASE64_BYTES)
  {
    hide Proper, Encode, Decode, DecodedLen, Cleaned, LetterAt, SextetAt;
    var a := Standard();
    AlphabetsAreProper();
    EncodingIsClean(a, bytes);
    RoundTrip(a, bytes, Encode(a, bytes));
    DecodedLenIsByteCount(a, bytes);
    EncodedSize(a, bytes);
  }

  /** The checks in order. `dimensions` is what the header reader found, or nothing
      when the bytes are not of the format asked for. The last check is dead: no
      input the first one lets through reaches it. */
  method EncodeValidatedRaster(bytes: seq<Byte>, dimensions: Option<(nat, nat)>) returns (r: Result<Raster, RasterCode>)
    ensures r.Success? <==>
      && |bytes| <= 12 * 1024 * 1024 && dimensions.Some?
      && dimensions.value.0 <= 4_096 && dimensions.value.1 <= 4_096
      && dimensions.value.0 * dimensions.value.1 <= 16_000_000
    ensures r.Success? ==>
      && Decode(Standard(), r.value.dataBase64) == Some(bytes)
      && r.value.decodedBytes == |bytes| == DecodedLen(r.value.dataBase64)
      && r.value.base64Bytes == |r.value.dataBase64| <= MAX_RASTER_BASE64_BYTES
      && (r.value.width, r.value.height) == dimensions.value
    ensures r.Failure? ==> (r.error == InternalError <==> |bytes| <= 12 * 1024 * 1024 && dimensions.None?)
  {
    if |bytes| > MAX_RASTER_DECODED_BYTES {
      return Failure(LimitExceeded);
    }
    if dimensions.None? {
      return Failure(InternalError);
    }
    var (width, height) := dimensions.value;
    if width > MAX_RASTER_SIDE || height > MAX_RASTER_SIDE {
      return Failure(LimitExceeded);
    }
    if width * height > MAX_RASTER_PIXELS {
      return Failure(LimitExceeded);
    }
    var dataBase64 := EncodeBase64(Standard(), bytes);
    EncodedRaster(bytes);
    if |dataBase64| > MAX_RASTER_BASE64_BYTES {
      return Failure(LimitExceeded);
    }
    return Success(Raster(width, height, |bytes|, |dataBase64|, dataBase64));
  }

  // ---------- base64url ----------

  /** The letters for the next one to three bytes; no padding is written. */
  function UrlQuad(a: Alphabet, bytes: seq<Byte>, i: nat): (quad: seq<CodeUnit>)
    ensures |quad| == if i + 2 < |bytes| then 4 else if i + 1 < |bytes| then 3 else 2
  {
    var s := Split(At(bytes, i), At(bytes, i + 1), At(bytes, i + 2));
    [a.letter(s.0), a.letter(s.1)]
    + (if i + 1 < |bytes| then [a.letter(s.2)] else [])
    + (if i + 2 < |bytes| then [a.letter(s.3)] else [])
  }

  function UrlGroups(a: Alphabet, bytes: seq<Byte>, groups: nat): seq<CodeUnit> {
    if groups == 0 then [] else UrlGroups(a, bytes, groups - 1) + UrlQuad(a, bytes, 3 * (groups - 1))
  }

  function EncodeUrl(a: Alphabet, bytes: seq<Byte>): seq<CodeUnit> {
    UrlGroups(a, bytes, GroupCount(bytes))
  }

  method EncodeBase64Url(a: Alphabet, bytes: seq<Byte>) returns (encoded: seq<CodeUnit>)
    ensures encoded == EncodeUrl(a, bytes)
  {
    hide Split;
    encoded := [];
    var index := 0;
    ghost var n := 0;
    while index < |bytes|
      invariant index == 3 * n && n <= GroupCount(bytes)
      invariant encoded == UrlGroups(a, bytes, n)
    {
      var second := if index + 1 < |bytes| then Some(bytes[index + 1]) else None;
      var third := if index + 2 < |bytes| then Some(bytes[index + 2]) else None;
      var s := Split(bytes[index], if second.Some? then second.value else 0, if third.Some? then third.value else 0);
      ghost var before := encoded;
      encoded := encoded + [a.letter(s.0)];
      encoded := encoded + [a.letter(s.1)];
      if second.Some? {
        encoded := encoded + [a.letter(s.2)];
      }
      if third.Some? {
        encoded := encoded + [a.letter(s.3)];
      }
      assert encoded == before + UrlQuad(a, bytes, index);
      index := index + 3;
      n := n + 1;
    }
    assert n == GroupCount(bytes);
  }

  predicate AllLetters(a: Alphabet, text: seq<CodeUnit>) {
    forall k :: 0 <= k < |text| ==> a.sextet(text[k]).Some?
  }

  function UrlValue(a: Alphabet, text: seq<CodeUnit>, index: nat): bv8
    requires AllLetters(a, text)
  {
    if index < |text| then a.sextet(text[index]).value else 0
  }

  function UrlJoin(a: Alphabet, text: seq<CodeUnit>, i: nat): (Byte, Byte, Byte)
    requires AllLetters(a, text)
  {
    Join(UrlValue(a, text, i), UrlValue(a, text, i + 1), UrlValue(a, text, i + 2), UrlValue(a, text, i + 3))
  }

  /** The bytes for the two to four letters from `i` on. */
  function UrlGroup(a: Alphabet, text: seq<CodeUnit>, i: nat): seq<Byte>
    requires AllLetters(a, text)
  {
    var j := UrlJoin(a, text, i);
    [j.0] + (if i + 2 < |text| then [j.1] else []) + (if i + 3 < |text| then [j.2] else [])
  }

  function UrlBytes(a: Alphabet, text: seq<CodeUnit>, n: nat): seq<Byte>
    requires AllLetters(a, text)
  {
    if n == 0 then [] else UrlBytes(a, text, n - 1) + UrlGroup(a, text, 4 * (n - 1))
  }

  function DecodeUrl(a: Alphabet, text: seq<CodeUnit>): Option<seq<Byte>> {
    if text == [] || !AllLetters(a, text) || |text| % 4 == 1 then None else Some(UrlBytes(a, text, (|text| + 3) / 4))
  }

  method DecodeBase64Url(a: Alphabet, value: seq<CodeUnit>) returns (bytes: Option<seq<Byte>>)
    ensures bytes == DecodeUrl(a, value)
  {
    hide Join;
    if value == [] || !AllLetters(a, value) || |value| % 4 == 1 {
      return None;
    }
    var out: seq<Byte> := [];
    var index := 0;
    ghost var n := 0;
    while index < |value|
      invariant index == 4 * n && n <= (|value| + 3) / 4
      invariant out == UrlBytes(a, value, n)
    {
      var p := a.sextet(value[index]);
      var q := a.sextet(value[index + 1]);
      var r := if index + 2 < |value| then a.sextet(value[index + 2]) else None;
      var s := if index + 3 < |value| then a.sextet(value[index + 3]) else None;
      var j := Join(p.value, q.value, if r.Some? then r.value else 0, if s.Some? then s.value else 0);
      ghost var before := out;
      out := out + [j.0];
      if r.Some? {
        out := out + [j.1];
      }
      if s.Some? {
        out := out + [j.2];
      }
      assert j == UrlJoin(a, value, index);
      assert out == before + UrlGroup(a, value, index);
      index := index + 4;
      n := n + 1;
    }
    return Some(out);
  }

  lemma {:induction false} LettersOfUrlQuad(a: Alphabet, bytes: seq<Byte>, i: nat)
    requires Proper(a)
    ensures AllLetters(a, UrlQuad(a, bytes, i))
  {
    var s := Split(At(bytes, i), At(bytes, i + 1), At(bytes, i + 2));
    JoinUndoesSplit(At(bytes, i), At(bytes, i + 1), At(bytes, i + 2));
    assert ProperAt(a, s.0) && ProperAt(a, s.1) && ProperAt(a, s.2) && ProperAt(a, s.3);
  }

  lemma {:induction false} UrlLength(a: Alphabet, bytes: seq<Byte>, n: nat)
    requires Proper(a) && n <= GroupCount(bytes)
    ensures |UrlGroups(a, bytes, n)| == if 3 * n <= |bytes| then 4 * n else |bytes| + n
    ensures AllLetters(a, UrlGroups(a, bytes, n))
  {
    if n > 0 {
      UrlLength(a, bytes, n - 1);
      LettersOfUrlQuad(a, bytes, 3 * (n - 1));
    }
  }

  /** Four letters for three bytes, two for one left over and three for two. */
  lemma {:induction false} UrlSize(bytes: seq<Byte>)
    ensures |EncodeUrl(UrlSafe(), bytes)| == |bytes| + GroupCount(bytes)
  {
    AlphabetsAreProper();
    UrlLength(UrlSafe(), bytes, GroupCount(bytes));
  }

  lemma {:induction false} Slices<T>(x: seq<T>, y: seq<T>, i: nat, j: nat)
    requires i <= j <= |x|
    ensures (x + y)[i..j] == x[i..j]
    ensures (x + y)[|x|..|x| + |y|] == y
  {
  }

  lemma {:induction false} UrlEncodedAt(a: Alphabet, bytes: seq<Byte>, n: nat, m: nat)
    requires Proper(a) && n < m <= GroupCount(bytes)
    ensures |UrlGroups(a, bytes, m)| >= 4 * n + |UrlQuad(a, bytes, 3 * n)|
    ensures UrlGroups(a, bytes, m)[4 * n..4 * n + |UrlQuad(a, bytes, 3 * n)|] == UrlQuad(a, bytes, 3 * n)
    decreases m
  {
    hide Split, LetterAt, SextetAt, AllLetters, UrlQuad, Proper;
    UrlLength(a, bytes, m - 1);
    var before, quad := UrlGroups(a, bytes, m - 1), UrlQuad(a, bytes, 3 * (m - 1));
    if n < m - 1 {
      UrlEncodedAt(a, bytes, n, m - 1);
      Slices(before, quad, 4 * n, 4 * n + |UrlQuad(a, bytes, 3 * n)|);
    } else {
      Slices(before, quad, 0, 0);
    }
  }

  lemma {:induction false} UrlGroupOfQuad(a: Alphabet, bytes: seq<Byte>, text: seq<CodeUnit>, i: nat, k: nat)
    requires Proper(a) && AllLetters(a, text) && i < |bytes|
    requires var q := UrlQuad(a, bytes, i); k + |q| <= |text| && text[k..k + |q|] == q
    requires i + 2 >= |bytes| ==> |text| == k + |UrlQuad(a, bytes, i)|
    ensures UrlGroup(a, text, k) == bytes[i..Min(i + 3, |bytes|)]
  {
    UrlValuesOfQuad(a, bytes, text, i, k);
    JoinOfQuad(bytes, i);
    ChunkAt(bytes, i);
  }

  lemma {:induction false} UrlValuesOfQuad(a: Alphabet, bytes: seq<Byte>, text: seq<CodeUnit>, i: nat, k: nat)
    requires Proper(a) && AllLetters(a, text) && i < |bytes|
    requires var q := UrlQuad(a, bytes, i); k + |q| <= |text| && text[k..k + |q|] == q
    requires i + 2 >= |bytes| ==> |text| == k + |UrlQuad(a, bytes, i)|
    ensures var s := Split(At(bytes, i), At(bytes, i + 1), At(bytes, i + 2));
      && UrlValue(a, text, k) == s.0 && UrlValue(a, text, k + 1) == s.1
      && UrlValue(a, text, k + 2) == (if i + 1 < |bytes| then s.2 else 0)
      && UrlValue(a, text, k + 3) == (if i + 2 < |bytes| then s.3 else 0)
  {
    var s := Split(At(bytes, i), At(bytes, i + 1), At(bytes, i + 2));
    var q := UrlQuad(a, bytes, i);
    JoinUndoesSplit(At(bytes, i), At(bytes, i + 1), At(bytes, i + 2));
    assert ProperAt(a, s.0) && ProperAt(a, s.1) && ProperAt(a, s.2) && ProperAt(a, s.3);
    assert text[k] == q[0] && text[k + 1] == q[1];
    assert i + 1 < |bytes| ==> text[k + 2] == q[2] == a.letter(s.2);
    assert i + 2 < |bytes| ==> text[k + 3] == q[3] == a.letter(s.3);
  }

  lemma {:induction false} UrlGroupAt(a: Alphabet, bytes: seq<Byte>, n: nat)
    requires Proper(a) && n < GroupCount(bytes)
    ensures AllLetters(a, EncodeUrl(a, bytes))
    ensures UrlGroup(a, EncodeUrl(a, bytes), 4 * n) == bytes[3 * n..Min(3 * n + 3, |bytes|)]
  {
    var groups := GroupCount(bytes);
    UrlLength(a, bytes, groups);
    UrlEncodedAt(a, bytes, n, groups);
    UrlGroupOfQuad(a, bytes, EncodeUrl(a, bytes), 3 * n, 4 * n);
  }

  lemma {:induction false} UrlBytesOfEncode(a: Alphabet, bytes: seq<Byte>, n: nat)
    requires Proper(a) && n <= GroupCount(bytes)
    ensures AllLetters(a, EncodeUrl(a, bytes))
    ensures UrlBytes(a, EncodeUrl(a, bytes), n) == bytes[..Min(3 * n, |bytes|)]
  {
    hide UrlGroup;
    UrlLength(a, bytes, GroupCount(bytes));
    if n > 0 {
      UrlBytesOfEncode(a, bytes, n - 1);
      UrlGroupAt(a, bytes, n - 1);
      assert bytes[..Min(3 * n, |bytes|)] == bytes[..3 * (n - 1)] + bytes[3 * (n - 1)..Min(3 * n, |bytes|)];
    }
  }

  /** Every non-empty payload survives a cursor; the empty one is refused. */
  lemma {:induction false} UrlRoundTrip(a: Alphabet, bytes: seq<Byte>)
    requires Proper(a)
    ensures DecodeUrl(a, EncodeUrl(a, bytes)) == if bytes == [] then None else Some(bytes)
  {
    UrlLength(a, bytes, GroupCount(bytes));
    UrlBytesOfEncode(a, bytes, GroupCount(bytes));
    assert bytes[..|bytes|] == bytes;
  }
}
