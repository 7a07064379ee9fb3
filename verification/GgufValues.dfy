/**
 * Headers written from values: what the bytes of each value are, told without the
 * format's own tables, and that they are read back as that value.
 */
module GgufValues {
  import opened Sequences
  import opened Bytes
  import opened Gguf
  import opened GgufProofs
  import GgufReader

  // ------------------------------------------------------------ little end first

  function Le2(n: nat): seq<Byte>
    requires n < 0x1_0000
  {
    [n % 0x100, n / 0x100]
  }

  function Le4(n: nat): seq<Byte>
    requires n < 0x1_0000_0000
  {
    Le2(n % 0x1_0000) + Le2(n / 0x1_0000)
  }

  function Le8(n: nat): seq<Byte>
    requires n < 0x1_0000_0000_0000_0000
  {
    Le4(n % 0x1_0000_0000) + Le4(n / 0x1_0000_0000)
  }

  lemma TwoThen(n: nat, width: nat)
    ensures ToLe(n, width + 2) == Le2(n % 0x1_0000) + ToLe(n / 0x1_0000, width)
  {
    assert n / 0x100 / 0x100 == n / 0x1_0000;
    assert ToLe(n, width + 2) == [n % 0x100] + ToLe(n / 0x100, width + 1);
    assert ToLe(n / 0x100, width + 1) == [n / 0x100 % 0x100] + ToLe(n / 0x1_0000, width);
    assert n % 0x1_0000 % 0x100 == n % 0x100 && n % 0x1_0000 / 0x100 == n / 0x100 % 0x100;
  }

  lemma FourThen(n: nat, width: nat)
    ensures ToLe(n, width + 4) == Le4(n % 0x1_0000_0000) + ToLe(n / 0x1_0000_0000, width)
  {
    TwoThen(n, width + 2);
    TwoThen(n / 0x1_0000, width);
    assert n / 0x1_0000 / 0x1_0000 == n / 0x1_0000_0000;
    var low := n % 0x1_0000_0000;
    assert low % 0x1_0000 == n % 0x1_0000 && low / 0x1_0000 == n / 0x1_0000 % 0x1_0000;
    Assoc(Le2(n % 0x1_0000), Le2(n / 0x1_0000 % 0x1_0000), ToLe(n / 0x1_0000_0000, width));
  }

  lemma OneLittle(n: nat)
    requires n < 0x100
    ensures ToLe(n, 1) == [n]
  {
    assert ToLe(n / 0x100, 0) == [];
  }

  lemma TwoLittle(n: nat)
    requires n < 0x1_0000
    ensures ToLe(n, 2) == Le2(n)
  {
    TwoThen(n, 0);
    assert ToLe(n / 0x1_0000, 0) == [];
  }

  lemma FourLittle(n: nat)
    requires n < 0x1_0000_0000
    ensures ToLe(n, 4) == Le4(n)
  {
    FourThen(n, 0);
    hide Le4;
    assert n % 0x1_0000_0000 == n;
    assert ToLe(n / 0x1_0000_0000, 0) == [];
  }

  lemma EightLittle(n: nat)
    requires n < 0x1_0000_0000_0000_0000
    ensures ToLe(n, 8) == Le8(n)
  {
    hide Le4, ToLe;
    FourThen(n, 4);
    FourLittle(n / 0x1_0000_0000);
  }

  /** Numbers are written little end first. */
  lemma LittleEnd(n: nat)
    ensures n < 0x100 ==> ToLe(n, 1) == [n]
    ensures n < 0x1_0000 ==> ToLe(n, 2) == Le2(n)
    ensures n < 0x1_0000_0000 ==> ToLe(n, 4) == Le4(n)
    ensures n < 0x1_0000_0000_0000_0000 ==> ToLe(n, 8) == Le8(n)
  {
    hide Le2, Le4, Le8, ToLe;
    if n < 0x100 { OneLittle(n); }
    if n < 0x1_0000 { TwoLittle(n); }
    if n < 0x1_0000_0000 { FourLittle(n); }
    if n < 0x1_0000_0000_0000_0000 { EightLittle(n); }
  }

  // ------------------------------------------------------------------- values

  /** `v` can be written where it stands inside `depth` arrays. */
  predicate Ranged(v: MetadataValue, depth: nat) {
    match v
    case U8(n) => n < 0x100
    case I8(i) => -0x80 <= i < 0x80
    case U16(n) => n < 0x1_0000
    case I16(i) => -0x8000 <= i < 0x8000
    case U32(n) => n < 0x1_0000_0000
    case I32(i) => -0x8000_0000 <= i < 0x8000_0000
    case U64(n) => n < 0x1_0000_0000_0000_0000
    case I64(i) => -0x8000_0000_0000_0000 <= i < 0x8000_0000_0000_0000
    case F32(bits) => bits < 0x1_0000_0000
    case F64(bits) => bits < 0x1_0000_0000_0000_0000
    case Bool(_) => true
    case String(text) => |text| <= 0x100_0000 && ValidUtf8(text)
    case Array(items) => depth < 4 && |items| <= 0x100_0000 && AllRanged(items, KindOfAll(items), depth + 1)
    case LargeArray(_, _) => false
  }

  predicate AllRanged(items: seq<MetadataValue>, kind: nat, depth: nat) {
    items == [] || (KindOf(items[0]) == kind && Ranged(items[0], depth) && AllRanged(items[1..], kind, depth))
  }

  function KindOf(v: MetadataValue): nat {
    match v
    case U8(_) => 0
    case I8(_) => 1
    case U16(_) => 2
    case I16(_) => 3
    case U32(_) => 4
    case I32(_) => 5
    case F32(_) => 6
    case Bool(_) => 7
    case String(_) => 8
    case Array(_) => 9
    case LargeArray(_, _) => 9
    case U64(_) => 10
    case I64(_) => 11
    case F64(_) => 12
  }

  /** What the elements of an array are; an empty one may call them anything. */
  function KindOfAll(items: seq<MetadataValue>): nat {
    if items == [] then 0 else KindOf(items[0])
  }

  /** A signed number, by adding the modulus when it is negative. */
  function Wrapped(i: int, modulus: nat): nat
    requires -(modulus as int) <= i < modulus
  {
    if i < 0 then i + modulus else i
  }

  function BytesOf(v: MetadataValue, depth: nat): seq<Byte>
    requires Ranged(v, depth)
    decreases v
  {
    match v
    case U8(n) => [n]
    case I8(i) => [Wrapped(i, 0x100)]
    case U16(n) => Le2(n)
    case I16(i) => Le2(Wrapped(i, 0x1_0000))
    case U32(n) => Le4(n)
    case I32(i) => Le4(Wrapped(i, 0x1_0000_0000))
    case U64(n) => Le8(n)
    case I64(i) => Le8(Wrapped(i, 0x1_0000_0000_0000_0000))
    case F32(bits) => Le4(bits)
    case F64(bits) => Le8(bits)
    case Bool(flag) => [if flag then 1 else 0]
    case String(text) => Le8(|text|) + text
    case Array(items) => Le4(KindOfAll(items)) + Le8(|items|) + BytesOfAll(items, KindOfAll(items), depth + 1)
  }

  function BytesOfAll(items: seq<MetadataValue>, kind: nat, depth: nat): seq<Byte>
    requires AllRanged(items, kind, depth)
    decreases items
  {
    if items == [] then [] else BytesOf(items[0], depth) + BytesOfAll(items[1..], kind, depth)
  }

  /** What is kept of a value: an array of more than 64 elements, by its shape alone. */
  function Kept(v: MetadataValue): MetadataValue {
    match v
    case Array(items) => if |items| > 64 then LargeArray(KindOf(items[0]), |items|) else Array(AllKept(items))
    case _ => v
  }

  function AllKept(items: seq<MetadataValue>): (kept: seq<MetadataValue>)
    ensures |kept| == |items|
  {
    if items == [] then [] else [Kept(items[0])] + AllKept(items[1..])
  }

  // ------------------------------------------------- as the format has them

  function WireOf(v: MetadataValue, depth: nat): Wire
    requires Ranged(v, depth)
    decreases v
  {
    match v
    case U8(n) => Scalar(0, n)
    case I8(i) => Scalar(1, Wrapped(i, 0x100))
    case U16(n) => Scalar(2, n)
    case I16(i) => Scalar(3, Wrapped(i, 0x1_0000))
    case U32(n) => Scalar(4, n)
    case I32(i) => Scalar(5, Wrapped(i, 0x1_0000_0000))
    case U64(n) => Scalar(10, n)
    case I64(i) => Scalar(11, Wrapped(i, 0x1_0000_0000_0000_0000))
    case F32(bits) => Scalar(6, bits)
    case F64(bits) => Scalar(12, bits)
    case Bool(flag) => Scalar(7, if flag then 1 else 0)
    case String(text) => Text(text)
    case Array(items) => List(KindOfAll(items), WiresOf(items, KindOfAll(items), depth + 1))
  }

  function WiresOf(items: seq<MetadataValue>, kind: nat, depth: nat): (wires: seq<Wire>)
    requires AllRanged(items, kind, depth)
    ensures |wires| == |items|
    decreases items
  {
    if items == [] then [] else [WireOf(items[0], depth)] + WiresOf(items[1..], kind, depth)
  }

  lemma {:induction false} WireFits(v: MetadataValue, depth: nat)
    requires Ranged(v, depth)
    ensures Fits(WireOf(v, depth), depth) && TypeOf(WireOf(v, depth)) == KindOf(v)
    ensures Encode(WireOf(v, depth)) == BytesOf(v, depth)
    ensures WellTyped(WireOf(v, depth)) && ToValue(WireOf(v, depth)) == Kept(v)
    decreases v
  {
    match v
    case Array(items) =>
      WiresFit(items, KindOfAll(items), depth + 1);
      ArrayFits(items, depth);
    case String(text) => LittleEnd(|text|);
    case _ => NumberFits(v, depth);
  }

  lemma ArrayFits(items: seq<MetadataValue>, depth: nat)
    requires Ranged(Array(items), depth)
    requires var kind := KindOfAll(items);
             var wires := WiresOf(items, kind, depth + 1);
             && AllFit(wires, kind, depth + 1) && EncodeAll(wires) == BytesOfAll(items, kind, depth + 1)
             && AllWellTyped(wires) && ToValues(wires) == AllKept(items)
    ensures var v := Array(items);
            && Fits(WireOf(v, depth), depth) && TypeOf(WireOf(v, depth)) == KindOf(v)
            && Encode(WireOf(v, depth)) == BytesOf(v, depth)
            && WellTyped(WireOf(v, depth)) && ToValue(WireOf(v, depth)) == Kept(v)
  {
    LittleEnd(KindOfAll(items));
    LittleEnd(|items|);
    SpanValues();
  }

  lemma NumberFits(v: MetadataValue, depth: nat)
    requires Ranged(v, depth) && !v.Array? && !v.String?
    ensures Fits(WireOf(v, depth), depth) && TypeOf(WireOf(v, depth)) == KindOf(v)
    ensures Encode(WireOf(v, depth)) == BytesOf(v, depth)
    ensures WellTyped(WireOf(v, depth)) && ToValue(WireOf(v, depth)) == Kept(v)
  {
    SpanValues();
    LittleEnd(WireOf(v, depth).raw);
  }

  lemma {:induction false} WiresFit(items: seq<MetadataValue>, kind: nat, depth: nat)
    requires AllRanged(items, kind, depth)
    ensures AllFit(WiresOf(items, kind, depth), kind, depth)
    ensures EncodeAll(WiresOf(items, kind, depth)) == BytesOfAll(items, kind, depth)
    ensures AllWellTyped(WiresOf(items, kind, depth)) && ToValues(WiresOf(items, kind, depth)) == AllKept(items)
    decreases items
  {
    if items != [] {
      WireFits(items[0], depth);
      WiresFit(items[1..], kind, depth);
      var wires := WiresOf(items, kind, depth);
      assert wires[0] == WireOf(items[0], depth) && wires[1..] == WiresOf(items[1..], kind, depth);
    }
  }

  /** A value written out, with anything after it, is read back as what is kept of it. */
  lemma ValueBack(v: MetadataValue, depth: nat, rest: seq<Byte>, budget: nat, end: SourceEnd)
    requires Ranged(v, depth) && |BytesOf(v, depth)| <= budget
    ensures var r := ReadWire(Cursor(BytesOf(v, depth) + rest, budget), KindOf(v), depth, end);
            && r.Ok? && r.next == Cursor(rest, budget - |BytesOf(v, depth)|)
            && WellTyped(r.value) && ToValue(r.value) == Kept(v)
  {
    WireFits(v, depth);
    WireBack(WireOf(v, depth), depth, rest, budget, end);
  }

  /** A byte that stands for a truth value is false when it is zero, and true otherwise. */
  lemma AnyOtherByteIsTrue(byte: Byte, depth: nat, rest: seq<Byte>, budget: nat, end: SourceEnd)
    requires budget > 0
    ensures var r := ReadWire(Cursor([byte] + rest, budget), 7, depth, end);
            && r.Ok? && r.next == Cursor(rest, budget - 1)
            && WellTyped(r.value) && ToValue(r.value) == Bool(byte != 0)
  {
    LittleEnd(byte);
    SpanValues();
    WireBack(Scalar(7, byte), depth, rest, budget, end);
  }

  // ------------------------------------------------------------------ headers

  datatype Pair = Pair(key: seq<Byte>, value: MetadataValue)

  predicate Writable(pairs: seq<Pair>) {
    pairs == []
    || (|pairs[0].key| <= 0x100_0000 && ValidUtf8(pairs[0].key) && Ranged(pairs[0].value, 0) && Writable(pairs[1..]))
  }

  function PairBytes(p: Pair): seq<Byte>
    requires |p.key| <= 0x100_0000 && Ranged(p.value, 0)
  {
    (Le8(|p.key|) + p.key) + Le4(KindOf(p.value)) + BytesOf(p.value, 0)
  }

  function PairsBytes(pairs: seq<Pair>): seq<Byte>
    requires Writable(pairs)
  {
    if pairs == [] then [] else PairBytes(pairs[0]) + PairsBytes(pairs[1..])
  }

  /** "GGUF", then the version, the tensor count and the number of pairs, then the pairs. */
  function HeaderBytes(version: nat, tensors: nat, pairs: seq<Pair>): seq<Byte>
    requires version < 0x1_0000_0000 && tensors <= 0x100_0000 && |pairs| <= 0x10_0000 && Writable(pairs)
  {
    [0x47, 0x47, 0x55, 0x46] + Le4(version) + Le8(tensors) + Le8(|pairs|) + PairsBytes(pairs)
  }

  function EntriesOf(pairs: seq<Pair>): (entries: seq<Entry>)
    requires Writable(pairs)
    ensures |entries| == |pairs|
  {
    if pairs == [] then []
    else [Entry(pairs[0].key, WireOf(pairs[0].value, 0))] + EntriesOf(pairs[1..])
  }

  lemma {:induction false} PairsFit(pairs: seq<Pair>)
    requires Writable(pairs)
    ensures FitEntries(EntriesOf(pairs)) && EncodeEntries(EntriesOf(pairs)) == PairsBytes(pairs)
    decreases |pairs|
  {
    hide Fits, Encode, BytesOf, WireOf, Ranged, KindOf, TypeOf, Le4, Le8, ToLe, ValidUtf8;
    if pairs != [] {
      var p, entries := pairs[0], EntriesOf(pairs);
      WireFits(p.value, 0);
      LittleEnd(|p.key|);
      KindsAreSmall(p.value);
      LittleEnd(KindOf(p.value));
      PairsFit(pairs[1..]);
      assert entries[0] == Entry(p.key, WireOf(p.value, 0)) && entries[1..] == EntriesOf(pairs[1..]);
    }
  }

  lemma KindsAreSmall(v: MetadataValue)
    ensures KindOf(v) <= 12
  {
  }

  lemma {:induction false} EntryAt(pairs: seq<Pair>, i: nat)
    requires Writable(pairs) && i < |pairs|
    ensures Ranged(pairs[i].value, 0)
    ensures EntriesOf(pairs)[i] == Entry(pairs[i].key, WireOf(pairs[i].value, 0))
    decreases |pairs|
  {
    hide WireOf, Ranged, ValidUtf8;
    if i > 0 {
      EntryAt(pairs[1..], i - 1);
    }
  }

  /** The last of the pairs that bear their key. */
  predicate LastOfKey(pairs: seq<Pair>, i: nat) {
    i < |pairs| && forall j :: i < j < |pairs| ==> pairs[j].key != pairs[i].key
  }

  /** `h` holds exactly the keys of `pairs`, and under each what is kept of the last value written for it. */
  ghost predicate Holds(h: Header, pairs: seq<Pair>) {
    && (forall key :: key in h.metadata <==> exists i :: 0 <= i < |pairs| && pairs[i].key == key)
    && (forall i: nat :: LastOfKey(pairs, i) ==>
          pairs[i].key in h.metadata && h.metadata[pairs[i].key] == Kept(pairs[i].value))
  }

  /**
   * A header written from values, within the limits, and followed by anything, is read
   * back: its version, its tensor count, how many pairs it has, exactly their keys, and
   * under each key what is kept of the last value written for it; and exactly its bytes
   * are consumed and charged.
   */
  lemma WrittenHeaderReadBack(version: nat, tensors: nat, pairs: seq<Pair>, trailing: seq<Byte>, end: SourceEnd)
    returns (doc: Document)
    requires version == 2 || version == 3
    requires tensors <= 0x100_0000 && |pairs| <= 0x10_0000 && Writable(pairs)
    requires |HeaderBytes(version, tensors, pairs)| <= 0x400_0000
    ensures FitEntries(doc.entries)
    ensures var bytes := HeaderBytes(version, tensors, pairs);
            ReadDocument(bytes + trailing, end) == Ok(doc, Cursor(trailing, 0x400_0000 - |bytes|))
    ensures var h := HeaderOf(doc);
            h.version == version && h.tensorCount == tensors && h.metadataCount == |pairs| && Holds(h, pairs)
  {
    hide Fits, Encode, BytesOf, WireOf, Ranged, Kept, ToLe, Le4, Le8, ValidUtf8, Metadata, ToValue, WellTyped;
    hide ReadDocument, FitEntries, EncodeEntries, PairsBytes, Writable;
    doc := Document(version, tensors, EntriesOf(pairs));
    PairsFit(pairs);
    LittleEnd(version);
    LittleEnd(tensors);
    LittleEnd(|pairs|);
    assert EncodeDocument(doc) == HeaderBytes(version, tensors, pairs);
    DocumentBack(doc, trailing, end);
    AllWritten(doc, pairs);
  }

  lemma AllWritten(doc: Document, pairs: seq<Pair>)
    requires Writable(pairs) && doc.entries == EntriesOf(pairs)
    ensures FitEntries(doc.entries) && Holds(HeaderOf(doc), pairs)
  {
    hide Writable, EntriesOf, FitEntries, Metadata, Kept;
    PairsFit(pairs);
    forall key ensures key in Metadata(doc.entries) <==> exists i :: 0 <= i < |pairs| && pairs[i].key == key {
      KeysWritten(pairs, key);
    }
    forall i: nat | LastOfKey(pairs, i)
      ensures pairs[i].key in Metadata(doc.entries) && Metadata(doc.entries)[pairs[i].key] == Kept(pairs[i].value)
    {
      LastWritten(pairs, i);
    }
  }

  lemma KeysWritten(pairs: seq<Pair>, key: seq<Byte>)
    requires Writable(pairs)
    ensures FitEntries(EntriesOf(pairs))
    ensures key in Metadata(EntriesOf(pairs)) <==> exists i :: 0 <= i < |pairs| && pairs[i].key == key
  {
    hide Metadata, FitEntries, Writable, EntriesOf;
    PairsFit(pairs);
    var entries := EntriesOf(pairs);
    MetadataKeys(entries, key);
    forall i | 0 <= i < |pairs| ensures entries[i].key == pairs[i].key {
      EntryAt(pairs, i);
    }
  }

  lemma LastWritten(pairs: seq<Pair>, i: nat)
    requires Writable(pairs) && LastOfKey(pairs, i)
    ensures FitEntries(EntriesOf(pairs))
    ensures pairs[i].key in Metadata(EntriesOf(pairs))
    ensures Metadata(EntriesOf(pairs))[pairs[i].key] == Kept(pairs[i].value)
  {
    hide Metadata, FitEntries, Writable, EntriesOf, Kept, ToValue, WireOf, Ranged;
    PairsFit(pairs);
    var entries := EntriesOf(pairs);
    forall j | 0 <= j < |pairs| ensures entries[j].key == pairs[j].key {
      EntryAt(pairs, j);
    }
    EntryAt(pairs, i);
    WireFits(pairs[i].value, 0);
    LastEntryWins(entries, i);
  }

  /** The parser as it runs gives a written header back. */
  method ParseWritten(version: nat, tensors: nat, pairs: seq<Pair>, trailing: seq<Byte>, end: SourceEnd)
    returns (h: Header)
    requires version == 2 || version == 3
    requires tensors <= 0x100_0000 && |pairs| <= 0x10_0000 && Writable(pairs)
    requires |HeaderBytes(version, tensors, pairs)| <= 0x400_0000
    ensures h.version == version && h.tensorCount == tensors && h.metadataCount == |pairs| && Holds(h, pairs)
  {
    hide Holds, ReadDocument, HeaderOf, HeaderBytes, Writable, FitEntries;
    var bytes := HeaderBytes(version, tensors, pairs) + trailing;
    ghost var doc := WrittenHeaderReadBack(version, tensors, pairs, trailing, end);
    var r, _ := GgufReader.Parse(bytes, end);
    h := r.value;
  }

  // ----------------------------------------------------------------- refusals

  /** A number at the front, with room for it in the budget, is that number. */
  lemma NumberAhead(n: nat, width: nat, rest: seq<Byte>, budget: nat, what: string, end: SourceEnd)
    requires (width == 4 && n < 0x1_0000_0000) || (width == 8 && n < 0x1_0000_0000_0000_0000)
    requires width <= budget
    ensures ReadNumber(Cursor((if width == 4 then Le4(n) else Le8(n)) + rest, budget), width, what, end)
         == Ok(n, Cursor(rest, budget - width))
  {
    SpanValues();
    LittleEnd(n);
    NumberBack(n, width, rest, budget, what, end);
  }

  /** Anything that does not begin with the magic is not a header, whatever it is called. */
  lemma NotAHeader(first: seq<Byte>, rest: seq<Byte>, end: SourceEnd)
    requires |first| == 4 && first != [0x47, 0x47, 0x55, 0x46]
    ensures ReadDocument(first + rest, end) == Err(NotGguf(first))
  {
    assert (first + rest)[..4] == first;
  }

  /** A header of another version, or of implausible counts, is refused for that, in those numbers. */
  lemma HeaderRefused(version: nat, tensors: nat, count: nat, rest: seq<Byte>, end: SourceEnd)
    requires version < 0x1_0000_0000
    requires tensors < 0x1_0000_0000_0000_0000 && count < 0x1_0000_0000_0000_0000
    ensures var input := [0x47, 0x47, 0x55, 0x46] + (Le4(version) + (Le8(tensors) + (Le8(count) + rest)));
            var r := ReadDocument(input, end);
            && (version != 2 && version != 3 ==> r == Err(UnsupportedVersion(version)))
            && (version == 2 || version == 3 ==>
                  && (tensors > 0x100_0000 ==> r == Err(Implausible("tensor count", tensors, 0x100_0000)))
                  && (tensors <= 0x100_0000 && count > 0x10_0000 ==>
                        r == Err(Implausible("metadata count", count, 0x10_0000))))
  {
    hide ReadEntries, ReadNumber, Le4, Le8;
    var third := Le8(count) + rest;
    var second := Le8(tensors) + third;
    var first := Le4(version) + second;
    MagicBack(first, 0x400_0000, end);
    NumberAhead(version, 4, second, 0x3FF_FFFC, "version", end);
    NumberAhead(tensors, 8, third, 0x3FF_FFF8, "tensor count", end);
    NumberAhead(count, 8, rest, 0x3FF_FFF0, "metadata count", end);
  }

  /** A string is refused for its length, for what is left of the budget, or for not being text, in that order. */
  lemma TextRefused(n: nat, rest: seq<Byte>, budget: nat, what: string, end: SourceEnd)
    requires n < 0x1_0000_0000_0000_0000 && 8 <= budget
    ensures var r := ReadText(Cursor(Le8(n) + rest, budget), what, end);
            && (n > 0x100_0000 ==> r == Err(Implausible("string length", n, 0x100_0000)))
            && (n <= 0x100_0000 && n > budget - 8 ==> r == Err(Implausible("string contents", n, budget - 8)))
            && (n <= 0x100_0000 && n <= budget - 8 && n <= |rest| && !ValidUtf8(rest[..n]) ==>
                  r == Err(InvalidText(what)))
  {
    hide Le8, ReadNumber, ValidUtf8;
    NumberAhead(n, 8, rest, budget, what, end);
  }

  /** An array is refused for its depth, or for its length, and a value for its type. */
  lemma ValueRefused(kind: nat, n: nat, depth: nat, rest: seq<Byte>, budget: nat, end: SourceEnd)
    requires kind < 0x1_0000_0000 && n < 0x1_0000_0000_0000_0000 && 12 <= budget
    ensures kind > 12 ==> ReadWire(Cursor(rest, budget), kind, depth, end) == Err(UnknownValueType(kind))
    ensures var r := ReadWire(Cursor(Le4(kind) + (Le8(n) + rest), budget), 9, depth, end);
            && (depth >= 4 ==> r == Err(Implausible("array nesting depth", depth + 1, 4)))
            && (depth < 4 && n > 0x100_0000 ==> r == Err(Implausible("array length", n, 0x100_0000)))
  {
    hide Le4, Le8, ReadNumber, ReadItems, ReadText;
    NumberAhead(kind, 4, Le8(n) + rest, budget, "array element type", end);
    NumberAhead(n, 8, rest, budget - 4, "array length", end);
  }

  /** A source that ends before a number says which number was being read. */
  lemma NumbersCutShort(budget: nat, depth: nat)
    requires budget >= 8
    ensures var cut := (kind: nat) => ReadWire(Cursor([], budget), kind, depth, EndOfFile);
            && cut(0) == Err(Truncated("uint8")) && cut(1) == Err(Truncated("int8"))
            && cut(2) == Err(Truncated("uint16")) && cut(3) == Err(Truncated("int16"))
            && cut(4) == Err(Truncated("uint32")) && cut(5) == Err(Truncated("int32"))
            && cut(6) == Err(Truncated("float32")) && cut(7) == Err(Truncated("bool"))
            && cut(8) == Err(Truncated("string")) && cut(10) == Err(Truncated("uint64"))
            && cut(11) == Err(Truncated("int64")) && cut(12) == Err(Truncated("float64"))
  {
  }
}
