/** Fitting screenshots into one tool result: a greedy loop that keeps an entry for every
    input and an image block for every entry that succeeded. */
module Screenshots {
  import opened Common
  import Base64

  datatype Mime = PngImage | JpegImage | SvgImage

  datatype Asset =
    | Png(node: nat, data: seq<CodeUnit>)
    | Jpeg(node: nat, data: seq<CodeUnit>)
    | Svg(node: nat, source: seq<Byte>)

  /** An image waiting to be placed; `source` is the size of an SVG's text. */
  datatype Picture = Picture(id: Option<nat>, source: Option<nat>, data: seq<CodeUnit>, mime: Mime)

  datatype Pending = Image(picture: Picture) | Failed(error: nat)

  /** One entry of the result's `assets`. */
  datatype Entry = Success(picture: Picture) | TooLarge(id: Option<nat>) | Given(error: nat)

  datatype Block = Block(data: seq<CodeUnit>, mime: Mime)

  datatype Accounted = Accounted(entries: seq<Entry>, images: seq<Block>, textBytes: nat, envelopeBytes: nat)

  datatype Code = LimitExceeded | InternalError

  /** What serialization makes of a result: the bytes of its text, and those of the whole
      envelope unless it cannot be serialized. */
  datatype Measure = Measure(text: seq<Entry> -> nat, envelope: (seq<Entry>, seq<Block>) -> Option<nat>)

  function PictureOf(asset: Asset): Picture {
    match asset
    case Png(node, data) => Picture(Some(node), None, data, PngImage)
    case Jpeg(node, data) => Picture(Some(node), None, data, JpegImage)
    case Svg(node, source) =>
      Picture(Some(node), Some(|source|), Base64.Encode(Base64.Standard(), source), SvgImage)
  }

  /** The image block of an SVG decodes to the very source it was made from, and the size
      the batch charges for it is the size of that source. */
  lemma {:induction false} SvgBlockIsItsSource(node: nat, source: seq<Byte>)
    ensures var picture := PictureOf(Svg(node, source));
      Base64.Decode(Base64.Standard(), picture.data) == Some(source) && SizeOf(picture) == |source|
  {
    Base64.AlphabetsAreProper();
    var text := Base64.Encode(Base64.Standard(), source);
    Base64.EncodingIsClean(Base64.Standard(), source);
    Base64.RoundTrip(Base64.Standard(), source, text);
  }

  // ---------- the limits ----------

  function SizeOf(p: Picture): nat {
    if p.mime.SvgImage? && p.source.Some? then p.source.value else |p.data|
  }

  predicate Allowed(p: Picture) {
    SizeOf(p) <= if p.mime.SvgImage? then MAX_SVG_BYTES else MAX_RASTER_BASE64_BYTES
  }

  /** SVG sources that the text would otherwise pay for a second time. */
  function DuplicatedSource(entries: seq<Entry>): nat {
    if entries == [] then 0 else DuplicatedSource(entries[..|entries| - 1]) + SourceOf(entries[|entries| - 1])
  }

  function SourceOf(e: Entry): nat {
    if e.Success? && e.picture.source.Some? then e.picture.source.value else 0
  }

  function TextBytes(m: Measure, entries: seq<Entry>): nat {
    var all, again := m.text(entries), DuplicatedSource(entries);
    if all < again then 0 else all - again
  }

  /** The image blocks of the entries that succeeded, in order. */
  function ImagesOf(entries: seq<Entry>): seq<Block> {
    if entries == [] then []
    else
      ImagesOf(entries[..|entries| - 1])
      + (match entries[|entries| - 1]
         case Success(p) => [Block(p.data, p.mime)]
         case _ => [])
  }

  function Account(m: Measure, entries: seq<Entry>, images: seq<Block>): Result<Accounted, Code> {
    if TextBytes(m, entries) > MAX_TEXT_BYTES then Result.Failure(LimitExceeded)
    else
      match m.envelope(entries, images)
      case None => Result.Failure(InternalError)
      case Some(bytes) =>
        if bytes > MAX_ENVELOPE_BYTES then Result.Failure(LimitExceeded)
        else Result.Success(Accounted(entries, images, TextBytes(m, entries), bytes))
  }

  /** The limits in numbers: 4 MiB for an SVG's source, 16 MiB for a raster's base64 text; and
      what of an asset its image block carries. */
  lemma {:induction false} LimitOfAsset(asset: Asset)
    ensures var p := PictureOf(asset);
      match asset
      case Svg(node, source) =>
        p.id == Some(node) && p.mime == SvgImage && (Allowed(p) <==> |source| <= 4_194_304)
      case Png(node, data) =>
        p.id == Some(node) && p.mime == PngImage && p.data == data && (Allowed(p) <==> |data| <= 16_777_216)
      case Jpeg(node, data) =>
        p.id == Some(node) && p.mime == JpegImage && p.data == data && (Allowed(p) <==> |data| <= 16_777_216)
  {
  }

  /** Of the assets in a result, the text is spared the sources of the SVGs, and nothing else. */
  lemma {:induction false} OnlySourcesAreSpared(before: seq<Entry>, asset: Asset, other: Entry)
    requires !other.Success?
    ensures DuplicatedSource([]) == 0
    ensures DuplicatedSource(before + [Entry.Success(PictureOf(asset))])
         == DuplicatedSource(before) + if asset.Svg? then |asset.source| else 0
    ensures DuplicatedSource(before + [other]) == DuplicatedSource(before)
  {
    var e := Entry.Success(PictureOf(asset));
    assert (before + [e])[..|before|] == before && (before + [other])[..|before|] == before;
  }

  /** A result is given exactly within 8 MiB of text, spared sources aside, and 24 MiB of
      envelope; one whose text is within bounds and that cannot be serialized is an internal
      error, and any other is over the limit. */
  lemma {:induction false} ResultsInNumbers(m: Measure, entries: seq<Entry>, images: seq<Block>)
    ensures var (text, spared) := (m.text(entries), DuplicatedSource(entries));
      var (fits, r) := (text <= 8_388_608 + spared, Account(m, entries, images));
      match m.envelope(entries, images)
      case None => r == Result.Failure(if fits then InternalError else LimitExceeded)
      case Some(bytes) =>
        if fits && bytes <= 25_165_824 then
          && r.Success? && r.value.entries == entries && r.value.images == images && r.value.envelopeBytes == bytes
          && r.value.textBytes == if text >= spared then text - spared else 0
        else r == Result.Failure(LimitExceeded)
  {
  }

  // ---------- what the batch must be ----------

  /** The batch so far has room for one more success. */
  predicate HasRoom(m: Measure, before: seq<Entry>, p: Picture) {
    Account(m, before + [Entry.Success(p)], ImagesOf(before + [Entry.Success(p)])).Success?
  }

  predicate EntryFits(m: Measure, item: Pending, before: seq<Entry>, entry: Entry) {
    match item
    case Failed(error) => entry == Given(error)
    case Image(p) =>
      if Allowed(p) then entry == Entry.Success(p) && HasRoom(m, before, p) else entry == TooLarge(p.id)
  }

  predicate EntryAfter(item: Pending, entry: Entry) {
    match item
    case Failed(error) => entry == Given(error)
    case Image(p) => entry == TooLarge(p.id)
  }

  /** Before the first overflow, at `o`, each allowed picture succeeds with room; the
      picture at `o` is allowed and has none; from there on every picture is turned away. */
  ghost predicate IsBatch(m: Measure, items: seq<Pending>, entries: seq<Entry>, o: nat) {
    && |entries| == |items| && o <= |items|
    && (forall i :: 0 <= i < o ==> EntryFits(m, items[i], entries[..i], entries[i]))
    && (o < |items| ==> items[o].Image? && Allowed(items[o].picture) && !HasRoom(m, entries[..o], items[o].picture))
    && (forall i :: o <= i < |items| ==> EntryAfter(items[i], entries[i]))
  }

  /** The description leaves no choice: it fixes the overflow and every entry. */
  lemma {:induction false} BatchIsDetermined(m: Measure, items: seq<Pending>,
                                             e: seq<Entry>, o: nat, f: seq<Entry>, q: nat)
    requires IsBatch(m, items, e, o) && IsBatch(m, items, f, q)
    ensures e == f && o == q
  {
    var n := Min(o, q);
    SamePrefix(m, items, e, o, f, q, n);
    assert e[..n] == f[..n];
    forall i | 0 <= i < |e|
      ensures e[i] == f[i]
    {
      if i < n {
        assert e[i] == e[..n][i];
      } else {
        assert EntryAfter(items[i], e[i]) && EntryAfter(items[i], f[i]);
      }
    }
  }

  lemma {:induction false} SamePrefix(m: Measure, items: seq<Pending>,
                                      e: seq<Entry>, o: nat, f: seq<Entry>, q: nat, n: nat)
    requires IsBatch(m, items, e, o) && IsBatch(m, items, f, q) && n <= o && n <= q
    ensures e[..n] == f[..n]
  {
  }

  lemma {:induction false} ImagesOneMore(entries: seq<Entry>, e: Entry)
    ensures ImagesOf(entries + [e])
         == ImagesOf(entries) + (if e.Success? then [Block(e.picture.data, e.picture.mime)] else [])
  {
  }

  // ---------- the loop ----------

  /** What one turn makes of one item, given what it has kept and whether it is full. */
  predicate IsTurn(m: Measure, kept: seq<Entry>, overflow: bool, item: Pending, entry: Entry, full: bool) {
    if overflow then full && EntryAfter(item, entry)
    else if item.Image? && Allowed(item.picture) && !HasRoom(m, kept, item.picture) then full && EntryAfter(item, entry)
    else !full && EntryFits(m, item, kept, entry)
  }

  lemma {:induction false} BatchGrows(m: Measure, items: seq<Pending>, kept: seq<Entry>, o: nat, overflow: bool,
                                      item: Pending, entry: Entry, full: bool)
    requires IsBatch(m, items, kept, o) && (overflow <==> o < |items|)
    requires IsTurn(m, kept, overflow, item, entry, full)
    ensures IsBatch(m, items + [item], kept + [entry], if full then o else |items| + 1)
  {
    var all, out := items + [item], kept + [entry];
    var q := if full then o else |items| + 1;
    forall i | 0 <= i < q
      ensures EntryFits(m, all[i], out[..i], out[i])
    {
      assert out[..i] == kept[..i];
      if i < o {
        assert EntryFits(m, items[i], kept[..i], kept[i]);
      }
    }
    assert out[..o] == kept[..o];
    forall i | q <= i < |all|
      ensures EntryAfter(all[i], out[i])
    {
      if i < |items| {
        assert EntryAfter(items[i], kept[i]);
      }
    }
  }

  method AccountOne(m: Measure, kept: seq<Entry>, images: seq<Block>, overflow: bool, item: Pending)
    returns (entry: Entry, full: bool)
    requires images == ImagesOf(kept)
    ensures IsTurn(m, kept, overflow, item, entry, full)
  {
    match item
    case Failed(error) => return Given(error), overflow;
    case Image(p) =>
      if overflow {
        return TooLarge(p.id), true;
      }
      if !Allowed(p) {
        return TooLarge(p.id), false;
      }
      ImagesOneMore(kept, Entry.Success(p));
      var accounted := Account(m, kept + [Entry.Success(p)], images + [Block(p.data, p.mime)]);
      if accounted.Success? {
        return Entry.Success(p), false;
      }
      return TooLarge(p.id), true;
  }

  /** One entry for every input in order, an image for every success in order, no success
      after the first overflow, and a result only within both limits. */
  method AccountMixedImages(m: Measure, items: seq<Pending>) returns (r: Result<Accounted, Code>)
    ensures forall kept, o :: IsBatch(m, items, kept, o) ==> r == Account(m, kept, ImagesOf(kept))
    ensures r.Success? ==>
      && (exists o :: IsBatch(m, items, r.value.entries, o))
      && r.value.images == ImagesOf(r.value.entries)
      && r.value.textBytes == TextBytes(m, r.value.entries) <= MAX_TEXT_BYTES
      && r.value.envelopeBytes <= MAX_ENVELOPE_BYTES
    ensures exists kept, o :: IsBatch(m, items, kept, o)
  {
    var entries: seq<Entry>, images: seq<Block>, overflow := [], [], false;
    ghost var o := 0;
    for i := 0 to |items|
      invariant |entries| == i && (overflow <==> o < i)
      invariant images == ImagesOf(entries)
      invariant IsBatch(m, items[..i], entries, o)
    {
      var entry, full := AccountOne(m, entries, images, overflow, items[i]);
      BatchGrows(m, items[..i], entries, o, overflow, items[i], entry, full);
      assert items[..i + 1] == items[..i] + [items[i]];
      ImagesOneMore(entries, entry);
      entries := entries + [entry];
      if entry.Success? {
        images := images + [Block(entry.picture.data, entry.picture.mime)];
      }
      o := if full then o else i + 1;
      overflow := full;
    }
    assert items[..|items|] == items;
    r := Account(m, entries, images);
    forall kept, q | IsBatch(m, items, kept, q)
      ensures kept == entries
    {
      BatchIsDetermined(m, items, kept, q, entries, o);
    }
  }

  // ---------- when a finished batch is refused ----------

  /** What serialization adds for each entry and each image block, with its separator, to
      the text and to the envelope of an empty result. */
  datatype Costs = Costs(
    textBase: nat, textOf: Entry -> nat,
    envelopeBase: nat, envelopeOf: Entry -> nat, blockOf: Mime -> nat)

  function Sum(of: Entry -> nat, entries: seq<Entry>): nat {
    if entries == [] then 0 else Sum(of, entries[..|entries| - 1]) + of(entries[|entries| - 1])
  }

  function BlockSum(c: Costs, images: seq<Block>): nat {
    if images == [] then 0
    else
      var last := images[|images| - 1];
      BlockSum(c, images[..|images| - 1]) + c.blockOf(last.mime) + |last.data|
  }

  function EnvelopeBytes(c: Costs, entries: seq<Entry>, images: seq<Block>): nat {
    c.envelopeBase + Sum(c.envelopeOf, entries) + BlockSum(c, images)
  }

  function MeasureOf(c: Costs): Measure {
    Measure((entries: seq<Entry>) => c.textBase + Sum(c.textOf, entries),
            (entries: seq<Entry>, images: seq<Block>) => Some(EnvelopeBytes(c, entries, images)))
  }

  /** An entry that carries an SVG's source is at least as long as it. */
  ghost predicate CarriesSources(c: Costs) {
    forall e: Entry :: c.textOf(e) >= SourceOf(e)
  }

  /** What an entry adds to the text once its source is discounted. */
  function NetOf(c: Costs): Entry -> nat {
    (e: Entry) => if c.textOf(e) < SourceOf(e) then 0 else c.textOf(e) - SourceOf(e)
  }

  lemma {:induction false} TextIsNet(c: Costs, entries: seq<Entry>)
    requires CarriesSources(c)
    ensures DuplicatedSource(entries) + Sum(NetOf(c), entries) == Sum(c.textOf, entries)
    ensures TextBytes(MeasureOf(c), entries) == c.textBase + Sum(NetOf(c), entries)
  {
    if entries != [] {
      TextIsNet(c, entries[..|entries| - 1]);
      assert c.textOf(entries[|entries| - 1]) >= SourceOf(entries[|entries| - 1]);
    }
  }

  lemma {:induction false} SumOfConcat(of: Entry -> nat, a: seq<Entry>, b: seq<Entry>)
    ensures Sum(of, a + b) == Sum(of, a) + Sum(of, b)
    decreases |b|
  {
    if b == [] {
      assert a + b == a;
    } else {
      assert (a + b)[..|a + b| - 1] == a + b[..|b| - 1];
      SumOfConcat(of, a, b[..|b| - 1]);
    }
  }

  /** The entries up to and with the last success. */
  function LastSuccess(entries: seq<Entry>): (n: nat)
    ensures n <= |entries|
    ensures n > 0 ==> entries[n - 1].Success?
    ensures forall i :: n <= i < |entries| ==> !entries[i].Success?
  {
    if entries == [] then 0
    else if entries[|entries| - 1].Success? then |entries|
    else LastSuccess(entries[..|entries| - 1])
  }

  lemma {:induction false} ImagesStopThere(entries: seq<Entry>, n: nat)
    requires n <= |entries| && forall i :: n <= i < |entries| ==> !entries[i].Success?
    ensures ImagesOf(entries) == ImagesOf(entries[..n])
  {
    if n < |entries| {
      var front := entries[..|entries| - 1];
      ImagesStopThere(front, n);
      assert front[..n] == entries[..n];
      assert ImagesOf(entries) == ImagesOf(front) + [];
    } else {
      assert entries[..n] == entries;
    }
  }

  function AllErrors(items: seq<Pending>): seq<Entry> {
    if items == [] then []
    else
      AllErrors(items[..|items| - 1])
      + [match items[|items| - 1] case Failed(error) => Given(error) case Image(p) => TooLarge(p.id)]
  }

  lemma {:induction false} NoSuccessIsAllErrors(items: seq<Pending>, kept: seq<Entry>)
    requires |kept| == |items|
    requires forall i :: 0 <= i < |items| ==> EntryAfter(items[i], kept[i])
    ensures kept == AllErrors(items)
  {
    if items != [] {
      NoSuccessIsAllErrors(items[..|items| - 1], kept[..|kept| - 1]);
      assert EntryAfter(items[|items| - 1], kept[|items| - 1]);
    }
  }

  lemma {:induction false} OnlyErrorsKept(m: Measure, items: seq<Pending>, kept: seq<Entry>, o: nat)
    requires IsBatch(m, items, kept, o) && LastSuccess(kept) == 0
    ensures kept == AllErrors(items)
  {
    forall i | 0 <= i < |items|
      ensures EntryAfter(items[i], kept[i])
    {
      assert !kept[i].Success?;
      if i < o {
        assert EntryFits(m, items[i], kept[..i], kept[i]);
      }
    }
    NoSuccessIsAllErrors(items, kept);
  }

  lemma {:induction false} SuccessPrecedesOverflow(m: Measure, items: seq<Pending>, kept: seq<Entry>, o: nat, i: nat)
    requires IsBatch(m, items, kept, o) && i < |kept|
    ensures kept[i].Success? ==> i < o
  {
    if o <= i {
      assert EntryAfter(items[i], kept[i]);
    }
  }

  lemma {:induction false} LastSuccessHadRoom(m: Measure, items: seq<Pending>, kept: seq<Entry>, o: nat)
    requires IsBatch(m, items, kept, o) && LastSuccess(kept) > 0
    ensures var head := kept[..LastSuccess(kept)]; Account(m, head, ImagesOf(head)).Success?
  {
    var i := LastSuccess(kept) - 1;
    SuccessPrecedesOverflow(m, items, kept, o, i);
    assert EntryFits(m, items[i], kept[..i], kept[i]);
    assert kept[..i] + [kept[i]] == kept[..i + 1];
  }

  /** When a finished batch is refused. The entries up to the last success are known to
      fit; the batch is refused exactly when what comes after them, errors all, takes
      more than the room they leave in the text or in the envelope. With no success at
      all it is refused exactly when the list of errors is over by itself. */
  lemma {:induction false} RefusedExactlyByItsTail(c: Costs, items: seq<Pending>, kept: seq<Entry>, o: nat)
    requires CarriesSources(c) && IsBatch(MeasureOf(c), items, kept, o)
    ensures var n := LastSuccess(kept);
      var (head, tail) := (kept[..n], kept[n..]);
      var (text, envelope) := (c.textBase + Sum(NetOf(c), head), EnvelopeBytes(c, head, ImagesOf(head)));
      && (n > 0 ==> text <= MAX_TEXT_BYTES && envelope <= MAX_ENVELOPE_BYTES)
      && (n == 0 ==> tail == AllErrors(items))
      && (Account(MeasureOf(c), kept, ImagesOf(kept)).Failure? <==>
            text + Sum(NetOf(c), tail) > MAX_TEXT_BYTES || envelope + Sum(c.envelopeOf, tail) > MAX_ENVELOPE_BYTES)
  {
    hide IsBatch, ImagesOf, AllErrors, Sum, BlockSum, DuplicatedSource;
    var m, n := MeasureOf(c), LastSuccess(kept);
    var head, tail := kept[..n], kept[n..];
    assert kept == head + tail;
    TextIsNet(c, kept);
    TextIsNet(c, head);
    SumOfConcat(NetOf(c), head, tail);
    SumOfConcat(c.envelopeOf, head, tail);
    ImagesStopThere(kept, n);
    if n > 0 {
      LastSuccessHadRoom(m, items, kept, o);
    } else {
      OnlyErrorsKept(m, items, kept, o);
    }
  }

  // ---------- a batch that is refused though every image had room ----------

  /** The two pictures are a result; with an error after them there is none. */
  ghost predicate SunkByAnError(c: Costs, p: Picture, q: Picture, error: nat) {
    var (m, both) := (MeasureOf(c), [Entry.Success(p), Entry.Success(q)]);
    && IsBatch(m, [Image(p), Image(q), Failed(error)], both + [Given(error)], 3)
    && Account(m, both, ImagesOf(both)).Success?
    && Account(m, both + [Given(error)], ImagesOf(both + [Given(error)])) == Result.Failure(LimitExceeded)
  }

  /** Whatever entries and blocks cost: two pictures, each within its own limit, fill the
      envelope to the last byte. The error of a third item, kept after them, is then more
      than the result may hold, and the pictures that had room are lost with it. */
  lemma {:induction false} LaterErrorsCanSinkTheBatch(c: Costs, p: Picture, q: Picture, error: nat)
    requires CarriesSources(c) && Allowed(p) && Allowed(q) && c.envelopeOf(Given(error)) > 0
    requires var both := [Entry.Success(p), Entry.Success(q)];
      && EnvelopeBytes(c, both, ImagesOf(both)) == MAX_ENVELOPE_BYTES
      && TextBytes(MeasureOf(c), both) <= MAX_TEXT_BYTES
    ensures SunkByAnError(c, p, q, error)
  {
    hide Sum, BlockSum, ImagesOf, DuplicatedSource, TextBytes;
    var m, one, both := MeasureOf(c), [Entry.Success(p)], [Entry.Success(p), Entry.Success(q)];
    var items, kept := [Image(p), Image(q), Failed(error)], both + [Given(error)];
    assert [] + [Entry.Success(p)] == one && one + [Entry.Success(q)] == both;
    OneMoreEntry(c, one, Entry.Success(q));
    OneMoreEntry(c, both, Given(error));
    assert HasRoom(m, [], p) && HasRoom(m, one, q);
    assert kept[..0] == [] && kept[..1] == one && kept[..2] == both;
    assert EntryFits(m, items[0], kept[..0], kept[0]);
    assert EntryFits(m, items[1], kept[..1], kept[1]);
    assert EntryFits(m, items[2], kept[..2], kept[2]);
  }

  /** What one more entry, with its block if it is a success, adds to a result. */
  lemma {:induction false} OneMoreEntry(c: Costs, entries: seq<Entry>, e: Entry)
    requires CarriesSources(c)
    ensures TextBytes(MeasureOf(c), entries + [e]) == TextBytes(MeasureOf(c), entries) + NetOf(c)(e)
    ensures EnvelopeBytes(c, entries + [e], ImagesOf(entries + [e]))
         == EnvelopeBytes(c, entries, ImagesOf(entries)) + c.envelopeOf(e)
            + if e.Success? then c.blockOf(e.picture.mime) + |e.picture.data| else 0
  {
    TextIsNet(c, entries + [e]);
    TextIsNet(c, entries);
    OneMoreSum(NetOf(c), entries, e);
    OneMoreSum(c.envelopeOf, entries, e);
    OneMoreBlock(c, entries, e);
  }

  function Filler(n: nat): (data: seq<CodeUnit>)
    ensures |data| == n
  {
    seq(n, _ => 0x41)
  }

  function FullPicture(id: nat, size: nat): Picture {
    Picture(Some(id), None, Filler(size), PngImage)
  }

  /** The entry of a raster does not hold its data, so it costs the same whatever the data. */
  ghost predicate RasterCosts(c: Costs, id: nat, text: nat, envelope: nat) {
    forall data: seq<CodeUnit> ::
      var e := Entry.Success(Picture(Some(id), None, data, PngImage));
      c.textOf(e) == text && c.envelopeOf(e) == envelope
  }

  /** There are such pictures whenever all else in the result takes at most a third of the
      envelope: one of 16 MiB, and one of what is then left. */
  lemma {:induction false} TwoPicturesFillTheEnvelope(c: Costs, text: nat, envelope: nat, error: nat)
    requires CarriesSources(c) && RasterCosts(c, 1, text, envelope) && RasterCosts(c, 2, text, envelope)
    requires c.textBase + 2 * text <= MAX_TEXT_BYTES && c.envelopeOf(Given(error)) > 0
    requires c.envelopeBase + 2 * envelope + 2 * c.blockOf(PngImage) <= MAX_ENVELOPE_BYTES - MAX_RASTER_BASE64_BYTES
    ensures var left := MAX_ENVELOPE_BYTES - MAX_RASTER_BASE64_BYTES
                        - c.envelopeBase - 2 * envelope - 2 * c.blockOf(PngImage);
      SunkByAnError(c, FullPicture(1, MAX_RASTER_BASE64_BYTES), FullPicture(2, left), error)
  {
    var left := MAX_ENVELOPE_BYTES - MAX_RASTER_BASE64_BYTES
                - c.envelopeBase - 2 * envelope - 2 * c.blockOf(PngImage);
    var p, q := FullPicture(1, MAX_RASTER_BASE64_BYTES), FullPicture(2, left);
    TwoFullPictures(c, p, q, text, envelope);
    LaterErrorsCanSinkTheBatch(c, p, q, error);
  }

  lemma {:induction false} TwoFullPictures(c: Costs, p: Picture, q: Picture, text: nat, envelope: nat)
    requires CarriesSources(c) && p.mime == q.mime == PngImage && p.source.None? && q.source.None?
    requires c.textOf(Entry.Success(p)) == c.textOf(Entry.Success(q)) == text
    requires c.envelopeOf(Entry.Success(p)) == c.envelopeOf(Entry.Success(q)) == envelope
    ensures var both := [Entry.Success(p), Entry.Success(q)];
      && TextBytes(MeasureOf(c), both) == c.textBase + 2 * text
      && EnvelopeBytes(c, both, ImagesOf(both))
         == c.envelopeBase + 2 * envelope + 2 * c.blockOf(PngImage) + |p.data| + |q.data|
  {
    hide Sum, BlockSum, ImagesOf, DuplicatedSource, TextBytes;
    assert [] + [Entry.Success(p)] == [Entry.Success(p)];
    assert [Entry.Success(p)] + [Entry.Success(q)] == [Entry.Success(p), Entry.Success(q)];
    NoEntries(c);
    OneMoreEntry(c, [], Entry.Success(p));
    OneMoreEntry(c, [Entry.Success(p)], Entry.Success(q));
  }

  lemma {:induction false} NoEntries(c: Costs)
    ensures TextBytes(MeasureOf(c), []) == c.textBase && EnvelopeBytes(c, [], ImagesOf([])) == c.envelopeBase
  {
  }

  lemma {:induction false} OneMoreSum(of: Entry -> nat, entries: seq<Entry>, e: Entry)
    ensures Sum(of, entries + [e]) == Sum(of, entries) + of(e)
  {
    assert (entries + [e])[..|entries|] == entries;
  }

  lemma {:induction false} OneMoreBlock(c: Costs, entries: seq<Entry>, e: Entry)
    ensures BlockSum(c, ImagesOf(entries + [e]))
         == BlockSum(c, ImagesOf(entries)) + if e.Success? then c.blockOf(e.picture.mime) + |e.picture.data| else 0
  {
    var images := ImagesOf(entries);
    ImagesOneMore(entries, e);
    if e.Success? {
      var block := Block(e.picture.data, e.picture.mime);
      assert (images + [block])[..|images|] == images;
    } else {
      assert images + [] == images;
    }
  }
}
