/**
 * The GGUF header format: what a header is on the wire, how it is encoded, and the
 * budgeted parser written as functions over the bytes not yet read.
 *
 * A `Wire` value keeps everything the bytes say. `ToValue` is what the parser hands
 * back of it: numbers interpreted, and arrays longer than `MAX_RETAINED_ARRAY_LEN`
 * replaced by their shape.
 */
module Gguf {
  import opened Bytes

  const MAGIC: seq<Byte> := [0x47, 0x47, 0x55, 0x46]
  const MAX_METADATA_ENTRIES: nat := 0x10_0000
  const MAX_TENSOR_COUNT: nat := 0x100_0000
  const MAX_STRING_BYTES: nat := 0x100_0000
  const MAX_ARRAY_LEN: nat := 0x100_0000
  const MAX_HEADER_BYTES: nat := 0x400_0000
  const MAX_RETAINED_ARRAY_LEN: nat := 64
  const MAX_ARRAY_DEPTH: nat := 4

  datatype MetadataValue =
    | U8(u8: nat) | I8(i8: int) | U16(u16: nat) | I16(i16: int) | U32(u32: nat) | I32(i32: int)
    | U64(u64: nat) | I64(i64: int) | F32(bits32: nat) | F64(bits64: nat)
    | Bool(flag: bool)
    | String(text: seq<Byte>)
    | Array(items: seq<MetadataValue>)
    | LargeArray(elementType: nat, len: nat)

  datatype GgufError =
    | NotGguf(found: seq<Byte>)
    | UnsupportedVersion(version: nat)
    | Implausible(what: string, value: nat, limit: nat)
    | Truncated(place: string)
    | UnknownValueType(typeId: nat)
    | InvalidText(key: string)
    | Io

  datatype Header = Header(version: nat, tensorCount: nat, metadataCount: nat,
                           metadata: map<seq<Byte>, MetadataValue>)

  /** How the underlying reader behaves once its bytes are used up. */
  datatype SourceEnd = EndOfFile | Broken

  /** Bytes not yet read, and how many of them may still be read. */
  datatype Cursor = Cursor(rest: seq<Byte>, remaining: nat)

  datatype Parsed<+T> = Ok(value: T, next: Cursor) | Err(error: GgufError)

  // ------------------------------------------------------------ wire values

  datatype Wire =
    | Scalar(typeId: nat, raw: nat)
    | Text(bytes: seq<Byte>)
    | List(elementType: nat, items: seq<Wire>)

  datatype Entry = Entry(key: seq<Byte>, value: Wire)

  datatype Document = Document(version: nat, tensorCount: nat, entries: seq<Entry>)

  /** What comes before the entries. */
  datatype Preamble = Preamble(version: nat, tensorCount: nat, metadataCount: nat)

  function PreambleOf(doc: Document): Preamble {
    Preamble(doc.version, doc.tensorCount, |doc.entries|)
  }

  const TEXT_TYPE := 8
  const LIST_TYPE := 9

  predicate ScalarType(typeId: nat) {
    typeId <= 12 && typeId != TEXT_TYPE && typeId != LIST_TYPE
  }

  function Width(typeId: nat): nat {
    if typeId in {0, 1, 7} then 1
    else if typeId in {2, 3} then 2
    else if typeId in {4, 5, 6} then 4
    else 8
  }

  function TypeName(typeId: nat): string
    requires ScalarType(typeId)
  {
    ["uint8", "int8", "uint16", "int16", "uint32", "int32", "float32", "bool",
     "", "", "uint64", "int64", "float64"][typeId]
  }

  function TypeOf(w: Wire): nat {
    match w
    case Scalar(typeId, _) => typeId
    case Text(_) => TEXT_TYPE
    case List(_, _) => LIST_TYPE
  }

  /** Two's complement reading of a number of `width` bytes. */
  function Signed(raw: nat, width: nat): int {
    if 2 * raw < Span(width) then raw else raw - Span(width)
  }

  function Interpret(typeId: nat, raw: nat): MetadataValue
    requires ScalarType(typeId)
  {
    match typeId
    case 0 => U8(raw)
    case 1 => I8(Signed(raw, 1))
    case 2 => U16(raw)
    case 3 => I16(Signed(raw, 2))
    case 4 => U32(raw)
    case 5 => I32(Signed(raw, 4))
    case 6 => F32(raw)
    case 7 => Bool(raw != 0)
    case 10 => U64(raw)
    case 11 => I64(Signed(raw, 8))
    case 12 => F64(raw)
  }

  function ToValue(w: Wire): MetadataValue
    requires WellTyped(w)
  {
    match w
    case Scalar(typeId, raw) => Interpret(typeId, raw)
    case Text(bytes) => String(bytes)
    case List(elementType, items) =>
      if |items| <= MAX_RETAINED_ARRAY_LEN then Array(ToValues(items)) else LargeArray(elementType, |items|)
  }

  function ToValues(items: seq<Wire>): (values: seq<MetadataValue>)
    requires AllWellTyped(items)
    ensures |values| == |items|
  {
    if items == [] then [] else [ToValue(items[0])] + ToValues(items[1..])
  }

  predicate WellTyped(w: Wire) {
    match w
    case Scalar(typeId, _) => ScalarType(typeId)
    case Text(_) => true
    case List(_, items) => AllWellTyped(items)
  }

  predicate AllWellTyped(items: seq<Wire>) {
    items == [] || (WellTyped(items[0]) && AllWellTyped(items[1..]))
  }

  /** `w` is within every limit when it stands inside `depth` arrays. */
  predicate Fits(w: Wire, depth: nat) {
    match w
    case Scalar(typeId, raw) => ScalarType(typeId) && raw < Span(Width(typeId))
    case Text(bytes) => |bytes| <= MAX_STRING_BYTES && ValidUtf8(bytes)
    case List(elementType, items) =>
      && depth < MAX_ARRAY_DEPTH
      && elementType < Span(4)
      && |items| <= MAX_ARRAY_LEN
      && AllFit(items, elementType, depth + 1)
  }

  predicate AllFit(items: seq<Wire>, elementType: nat, depth: nat) {
    items == [] || (TypeOf(items[0]) == elementType && Fits(items[0], depth) && AllFit(items[1..], elementType, depth))
  }

  lemma {:induction false} FitIsWellTyped(w: Wire, depth: nat)
    requires Fits(w, depth)
    ensures WellTyped(w)
  {
    match w
    case Scalar(_, _) =>
    case Text(_) =>
    case List(elementType, items) => AllFitIsWellTyped(items, elementType, depth + 1);
  }

  lemma {:induction false} AllFitIsWellTyped(items: seq<Wire>, elementType: nat, depth: nat)
    requires AllFit(items, elementType, depth)
    ensures AllWellTyped(items)
  {
    if items != [] {
      FitIsWellTyped(items[0], depth);
      AllFitIsWellTyped(items[1..], elementType, depth);
    }
  }

  predicate FitEntry(e: Entry) {
    |e.key| <= MAX_STRING_BYTES && ValidUtf8(e.key) && Fits(e.value, 0)
  }

  predicate FitEntries(entries: seq<Entry>) {
    entries == [] || (FitEntry(entries[0]) && FitEntries(entries[1..]))
  }

  predicate FitsPreamble(p: Preamble) {
    p.version in {2, 3} && p.tensorCount <= MAX_TENSOR_COUNT && p.metadataCount <= MAX_METADATA_ENTRIES
  }

  predicate FitsDocument(doc: Document) {
    && FitsPreamble(PreambleOf(doc))
    && FitEntries(doc.entries)
    && |EncodeDocument(doc)| <= MAX_HEADER_BYTES
  }

  // --------------------------------------------------------------- encoding

  function EncodeText(bytes: seq<Byte>): seq<Byte> {
    ToLe(|bytes|, 8) + bytes
  }

  function Encode(w: Wire): seq<Byte> {
    match w
    case Scalar(typeId, raw) => ToLe(raw, Width(typeId))
    case Text(bytes) => EncodeText(bytes)
    case List(elementType, items) => ToLe(elementType, 4) + ToLe(|items|, 8) + EncodeAll(items)
  }

  function EncodeAll(items: seq<Wire>): seq<Byte> {
    if items == [] then [] else Encode(items[0]) + EncodeAll(items[1..])
  }

  function EncodeEntry(e: Entry): seq<Byte> {
    EncodeText(e.key) + ToLe(TypeOf(e.value), 4) + Encode(e.value)
  }

  function EncodeEntries(entries: seq<Entry>): seq<Byte> {
    if entries == [] then [] else EncodeEntry(entries[0]) + EncodeEntries(entries[1..])
  }

  function EncodePreamble(p: Preamble): seq<Byte> {
    MAGIC + ToLe(p.version, 4) + ToLe(p.tensorCount, 8) + ToLe(p.metadataCount, 8)
  }

  function EncodeDocument(doc: Document): seq<Byte> {
    EncodePreamble(PreambleOf(doc)) + EncodeEntries(doc.entries)
  }

  /** Inserting entries one after another: a repeated key keeps the later value. */
  function Metadata(entries: seq<Entry>): map<seq<Byte>, MetadataValue>
    requires FitEntries(entries)
  {
    if entries == [] then map[]
    else
      FitIsWellTyped(entries[0].value, 0);
      map[entries[0].key := ToValue(entries[0].value)] + Metadata(entries[1..])
  }

  function HeaderOf(doc: Document): Header
    requires FitEntries(doc.entries)
  {
    Header(doc.version, doc.tensorCount, |doc.entries|, Metadata(doc.entries))
  }

  // ---------------------------------------------------------------- parsing

  function RanOut(end: SourceEnd, what: string): GgufError {
    if end == EndOfFile then Truncated(what) else Io
  }

  /** The budget is charged first, so a refusal never depends on what the source holds. */
  function ReadBytes(c: Cursor, amount: nat, charged: string, what: string, end: SourceEnd): Parsed<seq<Byte>> {
    if c.remaining < amount then Err(Implausible(charged, amount, c.remaining))
    else if |c.rest| < amount then Err(RanOut(end, what))
    else Ok(c.rest[..amount], Cursor(c.rest[amount..], c.remaining - amount))
  }

  function ReadNumber(c: Cursor, width: nat, what: string, end: SourceEnd): Parsed<nat> {
    match ReadBytes(c, width, what, what, end)
    case Err(e) => Err(e)
    case Ok(bytes, next) => Ok(FromLe(bytes), next)
  }

  function ReadText(c: Cursor, what: string, end: SourceEnd): Parsed<seq<Byte>> {
    match ReadNumber(c, 8, what, end)
    case Err(e) => Err(e)
    case Ok(len, c1) =>
      if len > MAX_STRING_BYTES then Err(Implausible("string length", len, MAX_STRING_BYTES))
      else match ReadBytes(c1, len, "string contents", what, end)
           case Err(e) => Err(e)
           case Ok(bytes, c2) => if ValidUtf8(bytes) then Ok(bytes, c2) else Err(InvalidText(what))
  }

  function ReadWire(c: Cursor, typeId: nat, depth: nat, end: SourceEnd): Parsed<Wire>
    decreases MAX_ARRAY_DEPTH + 1 - depth, 2, 0
  {
    if typeId == LIST_TYPE then ReadList(c, depth, end)
    else if typeId == TEXT_TYPE then
      match ReadText(c, "string", end)
      case Err(e) => Err(e)
      case Ok(bytes, next) => Ok(Text(bytes), next)
    else if ScalarType(typeId) then
      match ReadNumber(c, Width(typeId), TypeName(typeId), end)
      case Err(e) => Err(e)
      case Ok(raw, next) => Ok(Scalar(typeId, raw), next)
    else Err(UnknownValueType(typeId))
  }

  function ReadList(c: Cursor, depth: nat, end: SourceEnd): Parsed<Wire>
    decreases MAX_ARRAY_DEPTH + 1 - depth, 1, 0
  {
    if depth >= MAX_ARRAY_DEPTH then Err(Implausible("array nesting depth", depth + 1, MAX_ARRAY_DEPTH))
    else match ReadNumber(c, 4, "array element type", end)
         case Err(e) => Err(e)
         case Ok(elementType, c1) =>
           match ReadNumber(c1, 8, "array length", end)
           case Err(e) => Err(e)
           case Ok(len, c2) =>
             if len > MAX_ARRAY_LEN then Err(Implausible("array length", len, MAX_ARRAY_LEN))
             else match ReadItems(c2, elementType, depth + 1, len, end)
                  case Err(e) => Err(e)
                  case Ok(items, c3) => Ok(List(elementType, items), c3)
  }

  function ReadItems(c: Cursor, elementType: nat, depth: nat, count: nat, end: SourceEnd): Parsed<seq<Wire>>
    decreases MAX_ARRAY_DEPTH + 1 - depth, 3, count
  {
    if count == 0 then Ok([], c)
    else match ReadWire(c, elementType, depth, end)
         case Err(e) => Err(e)
         case Ok(first, c1) =>
           match ReadItems(c1, elementType, depth, count - 1, end)
           case Err(e) => Err(e)
           case Ok(others, c2) => Ok([first] + others, c2)
  }

  function ReadEntry(c: Cursor, end: SourceEnd): Parsed<Entry> {
    match ReadText(c, "metadata key", end)
    case Err(e) => Err(e)
    case Ok(key, c1) =>
      match ReadNumber(c1, 4, "metadata value type", end)
      case Err(e) => Err(e)
      case Ok(typeId, c2) =>
        match ReadWire(c2, typeId, 0, end)
        case Err(e) => Err(e)
        case Ok(value, c3) => Ok(Entry(key, value), c3)
  }

  function ReadEntries(c: Cursor, count: nat, end: SourceEnd): Parsed<seq<Entry>>
    decreases count
  {
    if count == 0 then Ok([], c)
    else match ReadEntry(c, end)
         case Err(e) => Err(e)
         case Ok(first, c1) =>
           match ReadEntries(c1, count - 1, end)
           case Err(e) => Err(e)
           case Ok(others, c2) => Ok([first] + others, c2)
  }

  function ReadPreamble(c: Cursor, end: SourceEnd): Parsed<Preamble> {
    match ReadBytes(c, 4, "magic", "magic", end)
    case Err(e) => Err(e)
    case Ok(magic, c1) =>
      if magic != MAGIC then Err(NotGguf(magic))
      else match ReadNumber(c1, 4, "version", end)
           case Err(e) => Err(e)
           case Ok(version, c2) =>
             if version !in {2, 3} then Err(UnsupportedVersion(version))
             else match ReadNumber(c2, 8, "tensor count", end)
                  case Err(e) => Err(e)
                  case Ok(tensors, c3) =>
                    if tensors > MAX_TENSOR_COUNT then Err(Implausible("tensor count", tensors, MAX_TENSOR_COUNT))
                    else match ReadNumber(c3, 8, "metadata count", end)
                         case Err(e) => Err(e)
                         case Ok(count, c4) =>
                           if count > MAX_METADATA_ENTRIES
                           then Err(Implausible("metadata count", count, MAX_METADATA_ENTRIES))
                           else Ok(Preamble(version, tensors, count), c4)
  }

  /** Everything the header says, with no array summarised. */
  function ReadDocument(input: seq<Byte>, end: SourceEnd): Parsed<Document> {
    match ReadPreamble(Cursor(input, MAX_HEADER_BYTES), end)
    case Err(e) => Err(e)
    case Ok(p, c1) =>
      match ReadEntries(c1, p.metadataCount, end)
      case Err(e) => Err(e)
      case Ok(entries, c2) => Ok(Document(p.version, p.tensorCount, entries), c2)
  }
}
