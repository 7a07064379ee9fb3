/**
 * What parsing a header means: it accepts exactly the encodings of documents within
 * the limits, reads nothing past them, and reports every cut-short one as such.
 */
module GgufProofs {
  import opened Sequences
  import opened Bytes
  import opened Gguf

  // --------------------------------------------------- splitting sequences

  lemma Halves(a: seq<Byte>, b: seq<Byte>)
    ensures (a + b)[..|a|] == a && (a + b)[|a|..] == b
  {
  }

  /** A cut falls inside the first part or inside the second. */
  lemma CutIn(a: seq<Byte>, b: seq<Byte>, cut: nat)
    requires cut <= |a + b|
    ensures cut <= |a| ==> (a + b)[..cut] == a[..cut]
    ensures |a| <= cut ==> (a + b)[..cut] == a + b[..cut - |a|]
  {
  }

  // ---------------------------------------------- encodings are read back

  lemma NumberBack(value: nat, width: nat, rest: seq<Byte>, budget: nat, what: string, end: SourceEnd)
    requires value < Span(width) && width <= budget
    ensures ReadNumber(Cursor(ToLe(value, width) + rest, budget), width, what, end)
         == Ok(value, Cursor(rest, budget - width))
  {
    LeRoundTrip(value, width);
    Halves(ToLe(value, width), rest);
  }

  lemma TextBack(bytes: seq<Byte>, rest: seq<Byte>, budget: nat, what: string, end: SourceEnd)
    requires |bytes| <= MAX_STRING_BYTES && ValidUtf8(bytes) && |EncodeText(bytes)| <= budget
    ensures ReadText(Cursor(EncodeText(bytes) + rest, budget), what, end)
         == Ok(bytes, Cursor(rest, budget - |EncodeText(bytes)|))
  {
    SpanValues();
    Assoc(ToLe(|bytes|, 8), bytes, rest);
    NumberBack(|bytes|, 8, bytes + rest, budget, what, end);
    Halves(bytes, rest);
  }

  lemma {:induction false} WireBack(w: Wire, depth: nat, rest: seq<Byte>, budget: nat, end: SourceEnd)
    requires Fits(w, depth) && |Encode(w)| <= budget
    ensures ReadWire(Cursor(Encode(w) + rest, budget), TypeOf(w), depth, end)
         == Ok(w, Cursor(rest, budget - |Encode(w)|))
    decreases w
  {
    hide ReadText, EncodeText, ReadItems, EncodeAll;
    match w
    case Scalar(typeId, raw) => NumberBack(raw, Width(typeId), rest, budget, TypeName(typeId), end);
    case Text(bytes) => TextBack(bytes, rest, budget, "string", end);
    case List(elementType, items) =>
      SpanValues();
      var body := EncodeAll(items) + rest;
      Assoc(ToLe(elementType, 4) + ToLe(|items|, 8), EncodeAll(items), rest);
      Assoc(ToLe(elementType, 4), ToLe(|items|, 8), body);
      NumberBack(elementType, 4, ToLe(|items|, 8) + body, budget, "array element type", end);
      NumberBack(|items|, 8, body, budget - 4, "array length", end);
      ItemsBack(items, elementType, depth + 1, rest, budget - 12, end);
  }

  lemma {:induction false} ItemsBack(items: seq<Wire>, elementType: nat, depth: nat, rest: seq<Byte>,
                                     budget: nat, end: SourceEnd)
    requires AllFit(items, elementType, depth) && |EncodeAll(items)| <= budget
    ensures ReadItems(Cursor(EncodeAll(items) + rest, budget), elementType, depth, |items|, end)
         == Ok(items, Cursor(rest, budget - |EncodeAll(items)|))
    decreases items
  {
    if items == [] {
      assert EncodeAll(items) + rest == rest;
    } else {
      var others := EncodeAll(items[1..]) + rest;
      Assoc(Encode(items[0]), EncodeAll(items[1..]), rest);
      WireBack(items[0], depth, others, budget, end);
      ItemsBack(items[1..], elementType, depth, rest, budget - |Encode(items[0])|, end);
      assert [items[0]] + items[1..] == items;
    }
  }

  lemma EntryBack(e: Entry, rest: seq<Byte>, budget: nat, end: SourceEnd)
    requires FitEntry(e) && |EncodeEntry(e)| <= budget
    ensures ReadEntry(Cursor(EncodeEntry(e) + rest, budget), end)
         == Ok(e, Cursor(rest, budget - |EncodeEntry(e)|))
  {
    hide ReadText, ReadWire, Encode, EncodeText;
    SpanValues();
    var key, kind, body := EncodeText(e.key), ToLe(TypeOf(e.value), 4), Encode(e.value);
    Assoc(key + kind, body, rest);
    Assoc(key, kind, body + rest);
    TextBack(e.key, kind + (body + rest), budget, "metadata key", end);
    NumberBack(TypeOf(e.value), 4, body + rest, budget - |key|, "metadata value type", end);
    WireBack(e.value, 0, rest, budget - |key| - 4, end);
  }

  lemma {:induction false} EntriesBack(entries: seq<Entry>, rest: seq<Byte>, budget: nat, end: SourceEnd)
    requires FitEntries(entries) && |EncodeEntries(entries)| <= budget
    ensures ReadEntries(Cursor(EncodeEntries(entries) + rest, budget), |entries|, end)
         == Ok(entries, Cursor(rest, budget - |EncodeEntries(entries)|))
  {
    hide EncodeEntry, ReadEntry, FitEntry;
    if entries == [] {
      assert EncodeEntries(entries) + rest == rest;
    } else {
      var others := EncodeEntries(entries[1..]) + rest;
      Assoc(EncodeEntry(entries[0]), EncodeEntries(entries[1..]), rest);
      EntryBack(entries[0], others, budget, end);
      EntriesBack(entries[1..], rest, budget - |EncodeEntry(entries[0])|, end);
      assert [entries[0]] + entries[1..] == entries;
    }
  }

  lemma MagicBack(rest: seq<Byte>, budget: nat, end: SourceEnd)
    requires 4 <= budget
    ensures ReadBytes(Cursor(MAGIC + rest, budget), 4, "magic", "magic", end) == Ok(MAGIC, Cursor(rest, budget - 4))
  {
    Halves(MAGIC, rest);
  }

  lemma VersionBack(version: nat, rest: seq<Byte>, budget: nat, end: SourceEnd)
    requires version in {2, 3} && 8 <= budget
    ensures ReadBytes(Cursor((MAGIC + ToLe(version, 4)) + rest, budget), 4, "magic", "magic", end)
         == Ok(MAGIC, Cursor(ToLe(version, 4) + rest, budget - 4))
    ensures ReadNumber(Cursor(ToLe(version, 4) + rest, budget - 4), 4, "version", end)
         == Ok(version, Cursor(rest, budget - 8))
  {
    SpanValues();
    Assoc(MAGIC, ToLe(version, 4), rest);
    MagicBack(ToLe(version, 4) + rest, budget, end);
    NumberBack(version, 4, rest, budget - 4, "version", end);
  }

  lemma PreambleBack(p: Preamble, rest: seq<Byte>, budget: nat, end: SourceEnd)
    requires FitsPreamble(p) && 24 <= budget
    ensures ReadPreamble(Cursor(EncodePreamble(p) + rest, budget), end) == Ok(p, Cursor(rest, budget - 24))
  {
    SpanValues();
    var lead, tensors, count := MAGIC + ToLe(p.version, 4), ToLe(p.tensorCount, 8), ToLe(p.metadataCount, 8);
    Assoc(lead + tensors, count, rest);
    Assoc(lead, tensors, count + rest);
    VersionBack(p.version, tensors + (count + rest), budget, end);
    NumberBack(p.tensorCount, 8, count + rest, budget - 8, "tensor count", end);
    NumberBack(p.metadataCount, 8, rest, budget - 16, "metadata count", end);
  }

  /** Any document within the limits is read back from its encoding, whatever follows it. */
  lemma DocumentBack(doc: Document, trailing: seq<Byte>, end: SourceEnd)
    requires FitsDocument(doc)
    ensures ReadDocument(EncodeDocument(doc) + trailing, end)
         == Ok(doc, Cursor(trailing, MAX_HEADER_BYTES - |EncodeDocument(doc)|))
  {
    hide ReadPreamble, ReadEntries, EncodeEntries;
    var body := EncodeEntries(doc.entries) + trailing;
    Assoc(EncodePreamble(PreambleOf(doc)), EncodeEntries(doc.entries), trailing);
    PreambleBack(PreambleOf(doc), body, MAX_HEADER_BYTES, end);
    EntriesBack(doc.entries, trailing, MAX_HEADER_BYTES - 24, end);
  }

  // -------------------------------------------- only encodings are accepted

  /** What reading `encoded` off the front of `c` leaves behind, byte for byte and in the budget. */
  predicate Consumed(c: Cursor, encoded: seq<Byte>, next: Cursor) {
    c.rest == encoded + next.rest && c.remaining == next.remaining + |encoded|
  }

  lemma ConsumedThen(c: Cursor, a: seq<Byte>, c1: Cursor, b: seq<Byte>, c2: Cursor)
    requires Consumed(c, a, c1) && Consumed(c1, b, c2)
    ensures Consumed(c, a + b, c2)
  {
    Assoc(a, b, c2.rest);
  }

  lemma NumberSound(c: Cursor, width: nat, what: string, end: SourceEnd)
    requires ReadNumber(c, width, what, end).Ok?
    ensures var r := ReadNumber(c, width, what, end);
            r.value < Span(width) && Consumed(c, ToLe(r.value, width), r.next)
  {
    LeCanonical(c.rest[..width]);
    assert c.rest == c.rest[..width] + c.rest[width..];
  }

  lemma TextSound(c: Cursor, what: string, end: SourceEnd)
    requires ReadText(c, what, end).Ok?
    ensures var r := ReadText(c, what, end);
            && |r.value| <= MAX_STRING_BYTES && ValidUtf8(r.value)
            && Consumed(c, EncodeText(r.value), r.next)
  {
    hide ValidUtf8;
    NumberSound(c, 8, what, end);
    var r := ReadText(c, what, end);
    var c1 := ReadNumber(c, 8, what, end).next;
    assert c1.rest == c1.rest[..|r.value|] + c1.rest[|r.value|..];
    ConsumedThen(c, ToLe(|r.value|, 8), c1, r.value, r.next);
  }

  lemma {:induction false} WireSound(c: Cursor, typeId: nat, depth: nat, end: SourceEnd)
    requires ReadWire(c, typeId, depth, end).Ok?
    ensures var r := ReadWire(c, typeId, depth, end);
            Fits(r.value, depth) && TypeOf(r.value) == typeId && Consumed(c, Encode(r.value), r.next)
    decreases MAX_ARRAY_DEPTH + 1 - depth, 0
  {
    hide ReadText, EncodeText, ReadItems, EncodeAll;
    if typeId == LIST_TYPE {
      NumberSound(c, 4, "array element type", end);
      var c1 := ReadNumber(c, 4, "array element type", end);
      NumberSound(c1.next, 8, "array length", end);
      var c2 := ReadNumber(c1.next, 8, "array length", end);
      ItemsSound(c2.next, c1.value, depth + 1, c2.value, end);
      var r := ReadItems(c2.next, c1.value, depth + 1, c2.value, end);
      ConsumedThen(c, ToLe(c1.value, 4), c1.next, ToLe(c2.value, 8), c2.next);
      ConsumedThen(c, ToLe(c1.value, 4) + ToLe(c2.value, 8), c2.next, EncodeAll(r.value), r.next);
    } else if typeId == TEXT_TYPE {
      TextSound(c, "string", end);
    } else {
      NumberSound(c, Width(typeId), TypeName(typeId), end);
    }
  }

  lemma {:induction false} ItemsSound(c: Cursor, elementType: nat, depth: nat, count: nat, end: SourceEnd)
    requires ReadItems(c, elementType, depth, count, end).Ok?
    ensures var r := ReadItems(c, elementType, depth, count, end);
            && |r.value| == count
            && AllFit(r.value, elementType, depth)
            && Consumed(c, EncodeAll(r.value), r.next)
    decreases MAX_ARRAY_DEPTH + 1 - depth, 1, count
  {
    if count == 0 {
      assert c.rest == [] + c.rest;
    } else {
      WireSound(c, elementType, depth, end);
      var first := ReadWire(c, elementType, depth, end);
      ItemsSound(first.next, elementType, depth, count - 1, end);
      var others := ReadItems(first.next, elementType, depth, count - 1, end);
      assert ([first.value] + others.value)[1..] == others.value;
      ConsumedThen(c, Encode(first.value), first.next, EncodeAll(others.value), others.next);
    }
  }

  lemma EntrySound(c: Cursor, end: SourceEnd)
    requires ReadEntry(c, end).Ok?
    ensures var r := ReadEntry(c, end);
            FitEntry(r.value) && Consumed(c, EncodeEntry(r.value), r.next)
  {
    hide ReadText, ReadWire, Encode, EncodeText;
    TextSound(c, "metadata key", end);
    var c1 := ReadText(c, "metadata key", end).next;
    NumberSound(c1, 4, "metadata value type", end);
    var c2 := ReadNumber(c1, 4, "metadata value type", end);
    WireSound(c2.next, c2.value, 0, end);
    var key, value := ReadText(c, "metadata key", end).value, ReadWire(c2.next, c2.value, 0, end);
    ConsumedThen(c, EncodeText(key), c1, ToLe(c2.value, 4), c2.next);
    ConsumedThen(c, EncodeText(key) + ToLe(c2.value, 4), c2.next, Encode(value.value), value.next);
  }

  lemma {:induction false} EntriesSound(c: Cursor, count: nat, end: SourceEnd)
    requires ReadEntries(c, count, end).Ok?
    ensures var r := ReadEntries(c, count, end);
            && |r.value| == count && FitEntries(r.value)
            && Consumed(c, EncodeEntries(r.value), r.next)
    decreases count
  {
    hide EncodeEntry, ReadEntry, FitEntry;
    if count == 0 {
      assert c.rest == [] + c.rest;
    } else {
      EntrySound(c, end);
      var first := ReadEntry(c, end);
      EntriesSound(first.next, count - 1, end);
      var others := ReadEntries(first.next, count - 1, end);
      assert ([first.value] + others.value)[1..] == others.value;
      ConsumedThen(c, EncodeEntry(first.value), first.next, EncodeEntries(others.value), others.next);
    }
  }

  lemma PreambleSound(c: Cursor, end: SourceEnd)
    requires ReadPreamble(c, end).Ok?
    ensures var r := ReadPreamble(c, end);
            FitsPreamble(r.value) && Consumed(c, EncodePreamble(r.value), r.next)
  {
    var r := ReadPreamble(c, end);
    var version, tensors, count := r.value.version, r.value.tensorCount, r.value.metadataCount;
    var c1 := ReadBytes(c, 4, "magic", "magic", end).next;
    assert c.rest == MAGIC + c1.rest;
    NumberSound(c1, 4, "version", end);
    var c2 := ReadNumber(c1, 4, "version", end).next;
    ConsumedThen(c, MAGIC, c1, ToLe(version, 4), c2);
    NumberSound(c2, 8, "tensor count", end);
    var c3 := ReadNumber(c2, 8, "tensor count", end).next;
    ConsumedThen(c, MAGIC + ToLe(version, 4), c2, ToLe(tensors, 8), c3);
    NumberSound(c3, 8, "metadata count", end);
    ConsumedThen(c, MAGIC + ToLe(version, 4) + ToLe(tensors, 8), c3, ToLe(count, 8), r.next);
  }

  /**
   * Whatever is accepted is the encoding of the document reported, and the budget
   * left over plus the bytes read is the whole budget.
   */
  lemma DocumentSound(input: seq<Byte>, end: SourceEnd)
    requires ReadDocument(input, end).Ok?
    ensures var r := ReadDocument(input, end);
            && FitsDocument(r.value)
            && input == EncodeDocument(r.value) + r.next.rest
            && |EncodeDocument(r.value)| + r.next.remaining == MAX_HEADER_BYTES
  {
    var c := Cursor(input, MAX_HEADER_BYTES);
    PreambleSound(c, end);
    var p := ReadPreamble(c, end);
    EntriesSound(p.next, p.value.metadataCount, end);
    var r := ReadDocument(input, end);
    ConsumedThen(c, EncodePreamble(p.value), p.next, EncodeEntries(r.value.entries), r.next);
  }

  // ------------------------------------------------- cut-short encodings

  /** The one thing that may be reported of an encoding that was cut short. */
  predicate CutShort<T>(p: Parsed<T>, end: SourceEnd) {
    p.Err? && (if end == EndOfFile then p.error.Truncated? else p.error == Io)
  }

  lemma TextCut(bytes: seq<Byte>, cut: nat, budget: nat, what: string, end: SourceEnd)
    requires |bytes| <= MAX_STRING_BYTES && cut < |EncodeText(bytes)| <= budget
    ensures CutShort(ReadText(Cursor(EncodeText(bytes)[..cut], budget), what, end), end)
  {
    var whole := EncodeText(bytes);
    if cut < 8 {
      assert whole[..cut] == ToLe(|bytes|, 8)[..cut];
    } else {
      SpanValues();
      assert whole[..cut] == ToLe(|bytes|, 8) + bytes[..cut - 8];
      NumberBack(|bytes|, 8, bytes[..cut - 8], budget, what, end);
    }
  }

  lemma {:induction false} WireCut(w: Wire, depth: nat, cut: nat, budget: nat, end: SourceEnd)
    requires Fits(w, depth) && cut < |Encode(w)| <= budget
    ensures CutShort(ReadWire(Cursor(Encode(w)[..cut], budget), TypeOf(w), depth, end), end)
    decreases w
  {
    hide ReadText, EncodeText, ReadItems, EncodeAll;
    match w
    case Scalar(typeId, raw) =>
    case Text(bytes) => TextCut(bytes, cut, budget, "string", end);
    case List(elementType, items) =>
      SpanValues();
      var kind, len, body := ToLe(elementType, 4), ToLe(|items|, 8), EncodeAll(items);
      CutIn(kind + len, body, cut);
      if cut < 12 {
        ListLeadCut(elementType, |items|, depth, cut, budget, end);
      } else {
        ItemsCut(items, elementType, depth + 1, cut - 12, budget - 12, end);
        ListBodyCut(elementType, |items|, depth, body[..cut - 12], budget, end);
      }
  }

  lemma ListBodyCut(elementType: nat, count: nat, depth: nat, body: seq<Byte>, budget: nat, end: SourceEnd)
    requires depth < MAX_ARRAY_DEPTH && elementType < Span(4) && count <= MAX_ARRAY_LEN && 12 <= budget
    requires CutShort(ReadItems(Cursor(body, budget - 12), elementType, depth + 1, count, end), end)
    ensures var lead := ToLe(elementType, 4) + ToLe(count, 8);
            CutShort(ReadList(Cursor(lead + body, budget), depth, end), end)
  {
    hide ReadItems;
    SpanValues();
    var kind, len := ToLe(elementType, 4), ToLe(count, 8);
    Assoc(kind, len, body);
    NumberBack(elementType, 4, len + body, budget, "array element type", end);
    NumberBack(count, 8, body, budget - 4, "array length", end);
  }

  lemma ListLeadCut(elementType: nat, count: nat, depth: nat, cut: nat, budget: nat, end: SourceEnd)
    requires depth < MAX_ARRAY_DEPTH && elementType < Span(4) && cut < 12 <= budget
    ensures CutShort(ReadList(Cursor((ToLe(elementType, 4) + ToLe(count, 8))[..cut], budget), depth, end), end)
  {
    hide ReadItems;
    var kind, len := ToLe(elementType, 4), ToLe(count, 8);
    CutIn(kind, len, cut);
    if cut >= 4 {
      NumberBack(elementType, 4, len[..cut - 4], budget, "array element type", end);
    }
  }

  lemma {:induction false} ItemsCut(items: seq<Wire>, elementType: nat, depth: nat, cut: nat, budget: nat,
                                    end: SourceEnd)
    requires AllFit(items, elementType, depth) && cut < |EncodeAll(items)| <= budget
    ensures CutShort(ReadItems(Cursor(EncodeAll(items)[..cut], budget), elementType, depth, |items|, end), end)
    decreases items
  {
    var head := Encode(items[0]);
    CutIn(head, EncodeAll(items[1..]), cut);
    if cut < |head| {
      WireCut(items[0], depth, cut, budget, end);
    } else {
      var others := EncodeAll(items[1..])[..cut - |head|];
      WireBack(items[0], depth, others, budget, end);
      ItemsCut(items[1..], elementType, depth, cut - |head|, budget - |head|, end);
    }
  }

  lemma EntryCut(e: Entry, cut: nat, budget: nat, end: SourceEnd)
    requires FitEntry(e) && cut < |EncodeEntry(e)| <= budget
    ensures CutShort(ReadEntry(Cursor(EncodeEntry(e)[..cut], budget), end), end)
  {
    hide ReadText, ReadWire, Encode, EncodeText;
    SpanValues();
    var key, kind, body := EncodeText(e.key), ToLe(TypeOf(e.value), 4), Encode(e.value);
    CutIn(key + kind, body, cut);
    CutIn(key, kind, if cut < |key + kind| then cut else 0);
    if cut < |key| {
      TextCut(e.key, cut, budget, "metadata key", end);
    } else if cut < |key| + 4 {
      TextBack(e.key, kind[..cut - |key|], budget, "metadata key", end);
    } else {
      body := body[..cut - |key + kind|];
      Assoc(key, kind, body);
      TextBack(e.key, kind + body, budget, "metadata key", end);
      NumberBack(TypeOf(e.value), 4, body, budget - |key|, "metadata value type", end);
      WireCut(e.value, 0, |body|, budget - |key| - 4, end);
    }
  }

  lemma {:induction false} EntriesCut(entries: seq<Entry>, cut: nat, budget: nat, end: SourceEnd)
    requires FitEntries(entries) && cut < |EncodeEntries(entries)| <= budget
    ensures CutShort(ReadEntries(Cursor(EncodeEntries(entries)[..cut], budget), |entries|, end), end)
  {
    hide EncodeEntry, ReadEntry, FitEntry;
    var head := EncodeEntry(entries[0]);
    CutIn(head, EncodeEntries(entries[1..]), cut);
    if cut < |head| {
      EntryCut(entries[0], cut, budget, end);
    } else {
      var others := EncodeEntries(entries[1..])[..cut - |head|];
      EntryBack(entries[0], others, budget, end);
      EntriesCut(entries[1..], cut - |head|, budget - |head|, end);
    }
  }

  lemma PreambleCut(p: Preamble, cut: nat, budget: nat, end: SourceEnd)
    requires FitsPreamble(p) && cut < 24 <= budget
    ensures CutShort(ReadPreamble(Cursor(EncodePreamble(p)[..cut], budget), end), end)
  {
    SpanValues();
    var version, tensors, count := ToLe(p.version, 4), ToLe(p.tensorCount, 8), ToLe(p.metadataCount, 8);
    CutIn(MAGIC + version + tensors, count, cut);
    if cut < 16 {
      LeadCut(p, cut, budget, end);
    } else {
      Assoc(MAGIC + version, tensors, count[..cut - 16]);
      VersionBack(p.version, tensors + count[..cut - 16], budget, end);
      NumberBack(p.tensorCount, 8, count[..cut - 16], budget - 8, "tensor count", end);
    }
  }

  lemma LeadCut(p: Preamble, cut: nat, budget: nat, end: SourceEnd)
    requires FitsPreamble(p) && cut < 16 && 24 <= budget
    ensures var lead := MAGIC + ToLe(p.version, 4) + ToLe(p.tensorCount, 8);
            CutShort(ReadPreamble(Cursor(lead[..cut], budget), end), end)
  {
    var version, tensors := ToLe(p.version, 4), ToLe(p.tensorCount, 8);
    CutIn(MAGIC + version, tensors, cut);
    if cut < 8 {
      CutIn(MAGIC, version, cut);
      if cut >= 4 {
        MagicBack(version[..cut - 4], budget, end);
      }
    } else {
      VersionBack(p.version, tensors[..cut - 8], budget, end);
    }
  }

  /** Every strict prefix of an encoding runs out, and says nothing else about it. */
  lemma DocumentCut(doc: Document, cut: nat, end: SourceEnd)
    requires FitsDocument(doc) && cut < |EncodeDocument(doc)|
    ensures CutShort(ReadDocument(EncodeDocument(doc)[..cut], end), end)
  {
    hide ReadPreamble, ReadEntries, EncodeEntries;
    var p := PreambleOf(doc);
    CutIn(EncodePreamble(p), EncodeEntries(doc.entries), cut);
    if cut < 24 {
      PreambleCut(p, cut, MAX_HEADER_BYTES, end);
    } else {
      PreambleBack(p, EncodeEntries(doc.entries)[..cut - 24], MAX_HEADER_BYTES, end);
      EntriesCut(doc.entries, cut - 24, MAX_HEADER_BYTES - 24, end);
    }
  }

  // ------------------------------------------------------------ main results

  /** Acceptance is exactly "begins with the encoding of a document within the limits". */
  lemma AcceptsExactlyEncodings(input: seq<Byte>, end: SourceEnd)
    ensures ReadDocument(input, end).Ok? <==> exists doc :: FitsDocument(doc) && EncodeDocument(doc) <= input
  {
    if ReadDocument(input, end).Ok? {
      DocumentSound(input, end);
      assert EncodeDocument(ReadDocument(input, end).value) <= input;
    }
    if doc :| FitsDocument(doc) && EncodeDocument(doc) <= input {
      assert input == EncodeDocument(doc) + input[|EncodeDocument(doc)|..];
      DocumentBack(doc, input[|EncodeDocument(doc)|..], end);
    }
  }

  /**
   * The bytes read decide everything: an input that shares them is read as the same
   * document however the source ends, and an input that is a strict prefix of them
   * runs out.
   */
  lemma BytesReadDecide(input: seq<Byte>, end: SourceEnd, other: seq<Byte>, otherEnd: SourceEnd)
    requires ReadDocument(input, end).Ok?
    ensures var r := ReadDocument(input, end);
            var k := MAX_HEADER_BYTES - r.next.remaining;
            && 0 <= k <= |input|
            && (input[..k] <= other ==>
                  ReadDocument(other, otherEnd) == Ok(r.value, Cursor(other[k..], r.next.remaining)))
            && (other < input[..k] ==> CutShort(ReadDocument(other, otherEnd), otherEnd))
  {
    hide ReadDocument, EncodeDocument;
    DocumentSound(input, end);
    var r := ReadDocument(input, end);
    var k := |EncodeDocument(r.value)|;
    assert input[..k] == EncodeDocument(r.value);
    if input[..k] <= other {
      assert other == EncodeDocument(r.value) + other[k..];
      DocumentBack(r.value, other[k..], otherEnd);
    }
    if other < input[..k] {
      assert other == EncodeDocument(r.value)[..|other|];
      DocumentCut(r.value, |other|, otherEnd);
    }
  }

  /** No two documents share an encoding, even when different bytes follow. */
  lemma EncodingsAreDistinct(a: Document, b: Document, afterA: seq<Byte>, afterB: seq<Byte>)
    requires FitsDocument(a) && FitsDocument(b)
    requires EncodeDocument(a) + afterA == EncodeDocument(b) + afterB
    ensures a == b && afterA == afterB
  {
    DocumentBack(a, afterA, EndOfFile);
    DocumentBack(b, afterB, EndOfFile);
  }

  /** The elements of an array fit exactly when each has the declared type and fits where it stands. */
  lemma {:induction false} ElementsFit(items: seq<Wire>, elementType: nat, depth: nat)
    ensures AllFit(items, elementType, depth)
            <==> forall i :: 0 <= i < |items| ==> TypeOf(items[i]) == elementType && Fits(items[i], depth)
  {
    if items != [] {
      ElementsFit(items[1..], elementType, depth);
      assert forall i :: 0 < i < |items| ==> items[i] == items[1..][i - 1];
    }
  }

  lemma {:induction false} EachFits(entries: seq<Entry>, i: nat)
    requires FitEntries(entries) && i < |entries|
    ensures FitEntry(entries[i]) && WellTyped(entries[i].value)
  {
    if i == 0 {
      FitIsWellTyped(entries[0].value, 0);
    } else {
      EachFits(entries[1..], i - 1);
    }
  }

  lemma {:induction false} MetadataKeys(entries: seq<Entry>, key: seq<Byte>)
    requires FitEntries(entries)
    ensures key in Metadata(entries) <==> exists i :: 0 <= i < |entries| && entries[i].key == key
  {
    if entries != [] {
      MetadataKeys(entries[1..], key);
      assert forall i :: 0 < i < |entries| ==> entries[i] == entries[1..][i - 1];
      assert forall i :: 0 <= i < |entries| - 1 ==> entries[1..][i] == entries[i + 1];
    }
  }

  /** The last entry with a key is the one the header reports. */
  lemma {:induction false} LastEntryWins(entries: seq<Entry>, i: nat)
    requires FitEntries(entries) && i < |entries|
    requires forall j :: i < j < |entries| ==> entries[j].key != entries[i].key
    ensures WellTyped(entries[i].value)
    ensures entries[i].key in Metadata(entries)
    ensures Metadata(entries)[entries[i].key] == ToValue(entries[i].value)
  {
    EachFits(entries, i);
    if i == 0 {
      MetadataKeys(entries[1..], entries[0].key);
    } else {
      LastEntryWins(entries[1..], i - 1);
    }
  }

  // ------------------------------------------------------------ value counts

  /** How many values, at every nesting level, a wire value holds. */
  function Values(w: Wire): nat {
    match w
    case Scalar(_, _) => 1
    case Text(_) => 1
    case List(_, items) => 1 + ValuesIn(items)
  }

  function ValuesIn(items: seq<Wire>): nat {
    if items == [] then 0 else Values(items[0]) + ValuesIn(items[1..])
  }

  /** Every value costs at least one byte, so the budget bounds them whatever the counts claim. */
  lemma {:induction false} ValuesCostBytes(w: Wire)
    ensures Values(w) <= |Encode(w)|
  {
    match w
    case Scalar(_, _) =>
    case Text(_) =>
    case List(_, items) => AllValuesCostBytes(items);
  }

  lemma {:induction false} AllValuesCostBytes(items: seq<Wire>)
    ensures ValuesIn(items) <= |EncodeAll(items)|
  {
    if items != [] {
      ValuesCostBytes(items[0]);
      AllValuesCostBytes(items[1..]);
    }
  }
}
