/** Base64 in the letters and bits of RFC 4648: which letter stands for which value, which
    bits of the bytes it is, and what of a text the decoder reads. */
module Base64Bits {
  import opened Common
  import opened Base64

  const UPPER: string := "ABCDEFGHIJKLMNOPQRSTUVWXYZ"
  const LOWER: string := "abcdefghijklmnopqrstuvwxyz"
  const DIGITS: string := "0123456789"

  /** The two alphabets: the letters in the order of their values. */
  function StandardLetters(): string {
    UPPER + LOWER + DIGITS + "+/"
  }

  function UrlLetters(): string {
    UPPER + LOWER + DIGITS + "-_"
  }

  // ---------- letters ----------

  /** Every value has its letter, and nothing else is one. */
  ghost predicate IsTable(a: Alphabet, letters: string) {
    && |letters| == 64
    && (forall s: bv8 :: s < 64 ==>
          a.letter(s) == letters[s as int] as int && a.sextet(letters[s as int] as int) == Some(s))
    && (forall code: int :: a.sextet(code).Some? ==> exists i :: 0 <= i < 64 && letters[i] as int == code)
  }

  lemma {:induction false} UpperAt(i: nat)
    requires i < 26
    ensures UPPER[i] as int == 0x41 + i && LOWER[i] as int == 0x61 + i
  {
    var k := 0;
    assert UPPER[0] == 'A' && LOWER[0] == 'a';
    while k < i
      invariant k <= i && UPPER[k] as int == 0x41 + k && LOWER[k] as int == 0x61 + k
    {
      NextLetter(k);
      k := k + 1;
    }
  }

  lemma {:induction false} NextLetter(k: nat)
    requires k < 25
    ensures UPPER[k + 1] as int == UPPER[k] as int + 1 && LOWER[k + 1] as int == LOWER[k] as int + 1
  {
  }

  lemma {:induction false} DigitAt(i: nat)
    requires i < 10
    ensures DIGITS[i] as int == 0x30 + i
  {
  }

  lemma {:induction false} LetterInTable(i: nat, last: string)
    requires i < 64 && (last == "+/" || last == "-_")
    ensures |UPPER + LOWER + DIGITS + last| == 64
    ensures (UPPER + LOWER + DIGITS + last)[i] as int == LetterAt(i, last[0] as int, last[1] as int)
  {
    WordLengths();
    hide UPPER, LOWER, DIGITS;
    if i < 26 {
      UpperAt(i);
    } else if i < 52 {
      UpperAt(i - 26);
    } else if i < 62 {
      DigitAt(i - 52);
    }
  }

  lemma {:induction false} WordLengths()
    ensures |UPPER| == |LOWER| == 26 && |DIGITS| == 10
  {
  }

  lemma {:induction false} SextetsAreLetters(code: int, last: string) returns (i: nat)
    requires last == "+/" || last == "-_"
    requires SextetAt(code, last[0] as int, last[1] as int).Some?
    ensures i < 64 && code == LetterAt(i, last[0] as int, last[1] as int)
  {
    i := if 0x41 <= code <= 0x5a then code - 0x41
         else if 0x61 <= code <= 0x7a then code - 0x61 + 26
         else if 0x30 <= code <= 0x39 then code - 0x30 + 52
         else if code == last[0] as int then 62 else 63;
  }

  lemma {:induction false} TableOf(a: Alphabet, last: string)
    requires last == "+/" || last == "-_"
    requires forall s: bv8 :: a.letter(s) == LetterAt(s as int, last[0] as int, last[1] as int)
    requires forall code: int :: a.sextet(code) == SextetAt(code, last[0] as int, last[1] as int)
    ensures IsTable(a, UPPER + LOWER + DIGITS + last)
  {
    hide LetterAt, SextetAt, UPPER, LOWER, DIGITS;
    var letters := UPPER + LOWER + DIGITS + last;
    LetterInTable(0, last);
    forall s: bv8 | s < 64
      ensures a.letter(s) == letters[s as int] as int && a.sextet(letters[s as int] as int) == Some(s)
    {
      LetterInTable(s as int, last);
      SextetRoundTrip(s, last[0] as int, last[1] as int);
    }
    forall code: int | a.sextet(code).Some?
      ensures exists i :: 0 <= i < 64 && letters[i] as int == code
    {
      var i := SextetsAreLetters(code, last);
      LetterInTable(i, last);
    }
  }

  /** Both alphabets are those of sections 4 and 5 of RFC 4648. */
  lemma {:induction false} AlphabetsAreTheStandards()
    ensures IsTable(Standard(), StandardLetters()) && IsTable(UrlSafe(), UrlLetters())
  {
    hide LetterAt, SextetAt, UPPER, LOWER, DIGITS;
    TableOf(Standard(), "+/");
    TableOf(UrlSafe(), "-_");
  }

  // ---------- bits ----------

  /** Three bytes and four values of six bits are the same twenty-four bits, in order. */
  predicate SameBits(b: (Byte, Byte, Byte), s: (bv8, bv8, bv8, bv8)) {
    && s.0 < 64 && s.1 < 64 && s.2 < 64 && s.3 < 64
    && ((b.0 as bv32) << 16) | ((b.1 as bv32) << 8) | (b.2 as bv32)
       == ((s.0 as bv32) << 18) | ((s.1 as bv32) << 12) | ((s.2 as bv32) << 6) | (s.3 as bv32)
  }

  lemma {:induction false} SplitMeaning(b0: Byte, b1: Byte, b2: Byte)
    ensures SameBits((b0, b1, b2), Split(b0, b1, b2))
  {
  }

  lemma {:induction false} JoinMeaning(s: (bv8, bv8, bv8, bv8))
    requires s.0 < 64 && s.1 < 64 && s.2 < 64 && s.3 < 64
    ensures SameBits(Join(s.0, s.1, s.2, s.3), s)
  {
  }

  // ---------- what an encoding says ----------

  function ByteOrZero(bytes: seq<Byte>, i: nat): Byte {
    if i < |bytes| then bytes[i] else 0
  }

  /** The bytes from `i` on, in threes, missing ones as zero. */
  function Three(bytes: seq<Byte>, i: nat): (Byte, Byte, Byte) {
    (ByteOrZero(bytes, i), ByteOrZero(bytes, i + 1), ByteOrZero(bytes, i + 2))
  }

  /** Group by group, an encoding is the letters of the values whose bits the bytes are; a
      pad stands for each missing byte. */
  lemma {:induction false} EncodingMeaning(a: Alphabet, bytes: seq<Byte>, g: nat) returns (s: (bv8, bv8, bv8, bv8))
    requires 3 * g < |bytes|
    ensures |Encode(a, bytes)| == 4 * ((|bytes| + 2) / 3) && 4 * g + 4 <= |Encode(a, bytes)|
    ensures SameBits(Three(bytes, 3 * g), s)
    ensures Encode(a, bytes)[4 * g..4 * g + 4] ==
      [a.letter(s.0), a.letter(s.1),
       if 3 * g + 1 < |bytes| then a.letter(s.2) else '=' as int,
       if 3 * g + 2 < |bytes| then a.letter(s.3) else '=' as int]
  {
    hide Split, SameBits;
    var b := Three(bytes, 3 * g);
    s := Split(b.0, b.1, b.2);
    SplitMeaning(b.0, b.1, b.2);
    EncodedAt(a, bytes, g, GroupCount(bytes));
  }

  /** The URL-safe form of a whole text is the same letters without pads. */
  lemma {:induction false} UrlEncodingMeaning(a: Alphabet, bytes: seq<Byte>)
    ensures EncodeUrl(a, bytes) == Encode(a, bytes)[..|Encode(a, bytes)| - (3 * ((|bytes| + 2) / 3) - |bytes|)]
  {
    hide Split;
    var n := GroupCount(bytes);
    if n > 0 {
      WholeGroupsAgree(a, bytes, n - 1);
      assert EncodeGroups(a, bytes, n) == EncodeGroups(a, bytes, n - 1) + Quad(a, bytes, 3 * (n - 1));
      assert UrlQuad(a, bytes, 3 * (n - 1)) == Quad(a, bytes, 3 * (n - 1))[..4 - (3 * n - |bytes|)];
    }
  }

  lemma {:induction false} WholeGroupsAgree(a: Alphabet, bytes: seq<Byte>, n: nat)
    requires 3 * n <= |bytes|
    ensures UrlGroups(a, bytes, n) == EncodeGroups(a, bytes, n)
  {
    hide Split;
    if n > 0 {
      WholeGroupsAgree(a, bytes, n - 1);
      assert UrlQuad(a, bytes, 3 * (n - 1)) == Quad(a, bytes, 3 * (n - 1));
    }
  }

  // ---------- what the decoder reads ----------

  /** A tab, a line feed, a carriage return or a space. */
  predicate IsBlank(unit: CodeUnit) {
    unit == 9 || unit == 10 || unit == 13 || unit == 32
  }

  /** The decoder keeps every unit but the blank ones, in order, cut to a byte. */
  lemma {:induction false} KeptMeaning(text: seq<CodeUnit>) returns (at: seq<nat>, kept: seq<CodeUnit>)
    ensures Picks(text, u => !IsBlank(u), at, kept)
    ensures |Cleaned(text)| == |kept| && forall i :: 0 <= i < |kept| ==> Cleaned(text)[i] == kept[i] % 256
  {
    if text == [] {
      at, kept := [], [];
    } else {
      var front, last := text[..|text| - 1], text[|text| - 1];
      at, kept := KeptMeaning(front);
      PicksOneMore(front, u => !IsBlank(u), at, kept, last);
      assert text == front + [last];
      CleanedJoins(front, last);
      if !IsBlank(last) {
        at, kept := at + [|front|], kept + [last];
      }
    }
  }

  lemma {:induction false} CleanedJoins(front: seq<CodeUnit>, last: CodeUnit)
    ensures Cleaned(front + [last]) == Cleaned(front) + if IsBlank(last) then [] else [last % 256]
  {
    if front == [] {
      assert [] + [last] == [last] && [last][1..] == [];
    } else {
      assert (front + [last])[1..] == front[1..] + [last];
      CleanedJoins(front[1..], last);
    }
  }

  /** A kept unit that is a letter of the table, or a pad. */
  ghost predicate IsRead(a: Alphabet, unit: int) {
    unit == '=' as int || a.sextet(unit).Some?
  }

  lemma {:induction false} GroupsAccept(a: Alphabet, c: seq<int>, n: nat)
    requires 4 * n <= |c|
    ensures Groups(a, c, n).Some? <==> forall i :: 0 <= i < 4 * n ==> IsRead(a, c[i])
  {
    if n > 0 {
      GroupsAccept(a, c, n - 1);
      var k := 4 * (n - 1);
      assert ValidGroup(a, c, k) <==>
        IsRead(a, c[k]) && IsRead(a, c[k + 1]) && IsRead(a, c[k + 2]) && IsRead(a, c[k + 3]);
    }
  }

  /** A text decodes exactly when its kept units come in fours and each is a letter or a pad,
      wherever the pads stand. */
  lemma {:induction false} DecodesExactly(a: Alphabet, text: seq<CodeUnit>)
    ensures Decode(a, text).Some? <==>
      |Cleaned(text)| % 4 == 0 && forall i :: 0 <= i < |Cleaned(text)| ==> IsRead(a, Cleaned(text)[i])
  {
    var c := Cleaned(text);
    if |c| % 4 == 0 {
      GroupsAccept(a, c, |c| / 4);
      assert 4 * (|c| / 4) == |c|;
    }
  }

  function SextetOrZero(a: Alphabet, unit: int): bv8 {
    if unit == '=' as int || a.sextet(unit).None? then 0 else a.sextet(unit).value
  }

  /** The values of the four units from `i` on. */
  function FourValues(a: Alphabet, c: seq<int>, i: nat): (bv8, bv8, bv8, bv8)
    requires i + 4 <= |c|
  {
    (SextetOrZero(a, c[i]), SextetOrZero(a, c[i + 1]), SextetOrZero(a, c[i + 2]), SextetOrZero(a, c[i + 3]))
  }

  lemma {:induction false} ValuesAreSmall(a: Alphabet, c: seq<int>, i: nat)
    requires i + 4 <= |c| && forall code: int :: a.sextet(code).Some? ==> a.sextet(code).value < 64
    ensures var s := FourValues(a, c, i); s.0 < 64 && s.1 < 64 && s.2 < 64 && s.3 < 64
  {
  }

  lemma {:induction false} BytesOfGroup(a: Alphabet, c: seq<int>, i: nat)
    requires i + 4 <= |c| && ValidGroup(a, c, i)
    ensures var s := FourValues(a, c, i);
      var b := Join(s.0, s.1, s.2, s.3);
      Group(a, c, i) == [b.0] + (if c[i + 2] == '=' as int then [] else [b.1])
                              + (if c[i + 3] == '=' as int then [] else [b.2])
  {
    hide Join;
  }

  /** What a group of four adds: the first byte of its bits, the second unless its third unit
      is a pad, and the third unless its fourth is. */
  lemma {:induction false} GroupMeaning(a: Alphabet, c: seq<int>, n: nat) returns (b: (Byte, Byte, Byte))
    requires 4 * n + 4 <= |c| && Groups(a, c, n + 1).Some?
    requires forall code: int :: a.sextet(code).Some? ==> a.sextet(code).value < 64
    ensures SameBits(b, FourValues(a, c, 4 * n)) && Groups(a, c, n).Some?
    ensures Groups(a, c, n + 1).value == Groups(a, c, n).value
      + ([b.0] + (if c[4 * n + 2] == '=' as int then [] else [b.1])
               + (if c[4 * n + 3] == '=' as int then [] else [b.2]))
  {
    hide Join, SameBits, FourValues, Group, ValidGroup;
    var s := FourValues(a, c, 4 * n);
    b := Join(s.0, s.1, s.2, s.3);
    ValuesAreSmall(a, c, 4 * n);
    JoinMeaning(s);
    BytesOfGroup(a, c, 4 * n);
  }

  /** What is decoded: the groups' bytes, then zeros up to three bytes a group, less one for
      each pad among the last two units. */
  lemma {:induction false} BufferMeaning(a: Alphabet, c: seq<int>)
    requires |c| % 4 == 0 && Buffer(a, c).Some?
    ensures var (n, bytes, all) := (|c|, Groups(a, c, |c| / 4).value, Buffer(a, c).value);
      && (n == 0 ==> all == [])
      && (n > 0 ==>
            |all| == n / 4 * 3 - (if c[n - 1] == '=' as int then 1 else 0) - (if c[n - 2] == '=' as int then 1 else 0))
      && bytes <= all && forall i :: |bytes| <= i < |all| ==> all[i] == 0
  {
    WritesFit(a, c, |c| / 4);
  }
}
