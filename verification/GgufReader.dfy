/**
 * The parser as it runs: a reader that charges a budget before every read, and loops
 * that keep only what is retained. Each method is proved against the function over
 * wire values, which retains everything.
 */
module GgufReader {
  import opened Wrappers
  import opened Bytes
  import opened Gguf
  import opened GgufProofs

  class Budgeted {
    /** What the source still holds; never more is known of it than how it ends. */
    var inner: seq<Byte>
    const end: SourceEnd
    var remaining: nat
    /** How many times `ReadValue` has been entered. */
    ghost var valueReads: nat

    constructor (inner: seq<Byte>, end: SourceEnd, budget: nat)
      ensures Position() == Cursor(inner, budget) && this.end == end && valueReads == 0
    {
      this.inner, this.end, this.remaining := inner, end, budget;
      valueReads := 0;
    }

    ghost function Position(): Cursor
      reads this
    {
      Cursor(inner, remaining)
    }

    method Take(amount: nat, what: string) returns (r: Result<(), GgufError>)
      modifies this`remaining
      ensures amount <= old(remaining) ==> r == Success(()) && remaining == old(remaining) - amount
      ensures amount > old(remaining) ==>
                r == Failure(Implausible(what, amount, old(remaining))) && remaining == old(remaining)
    {
      if amount > remaining {
        return Failure(Implausible(what, amount, remaining));
      }
      remaining := remaining - amount;
      r := Success(());
    }

    method ReadExactOrTruncated(amount: nat, what: string) returns (r: Result<seq<Byte>, GgufError>)
      modifies this`inner
      ensures amount <= |old(inner)| ==> r == Success(old(inner)[..amount]) && inner == old(inner)[amount..]
      ensures amount > |old(inner)| && end == EndOfFile ==> r == Failure(Truncated(what))
      ensures amount > |old(inner)| && end == Broken ==> r == Failure(Io)
    {
      if amount > |inner| {
        inner := [];
        return Failure(RanOut(end, what));
      }
      r := Success(inner[..amount]);
      inner := inner[amount..];
    }

    /** The fixed-width reads: `u8`, `u16`, `u32` and `u64` differ only in `width`. */
    method Number(width: nat, what: string) returns (r: Result<nat, GgufError>)
      modifies this`inner, this`remaining
      ensures Agrees(r, ReadNumber(old(Position()), width, what, end))
      ensures remaining <= old(remaining)
    {
      var taken := Take(width, what);
      if taken.Failure? {
        return Failure(taken.error);
      }
      var bytes := ReadExactOrTruncated(width, what);
      if bytes.Failure? {
        return Failure(bytes.error);
      }
      r := Success(FromLe(bytes.value));
    }

    method Text(what: string) returns (r: Result<seq<Byte>, GgufError>)
      modifies this`inner, this`remaining
      ensures Agrees(r, ReadText(old(Position()), what, end))
      ensures remaining <= old(remaining)
    {
      var len := Number(8, what);
      if len.Failure? {
        return Failure(len.error);
      }
      if len.value > MAX_STRING_BYTES {
        return Failure(Implausible("string length", len.value, MAX_STRING_BYTES));
      }
      var taken := Take(len.value, "string contents");
      if taken.Failure? {
        return Failure(taken.error);
      }
      var bytes := ReadExactOrTruncated(len.value, what);
      if bytes.Failure? {
        return Failure(bytes.error);
      }
      if !ValidUtf8(bytes.value) {
        return Failure(InvalidText(what));
      }
      r := bytes;
    }

    /** The result is the one specified, and a success leaves the reader where the specification does. */
    ghost predicate Agrees<T>(r: Result<T, GgufError>, spec: Parsed<T>)
      reads this
    {
      match spec
      case Ok(value, next) => r == Success(value) && Position() == next
      case Err(e) => r == Failure(e)
    }

    /** The same, where what is returned is only what is retained of the wire value. */
    ghost predicate Retains(r: Result<MetadataValue, GgufError>, spec: Parsed<Wire>)
      reads this
    {
      match spec
      case Ok(w, next) => WellTyped(w) && r == Success(ToValue(w)) && Position() == next
      case Err(e) => r == Failure(e)
    }

    /**
     * Entries to `ReadValue` since `entered` and `budget` were recorded: one per byte
     * charged, and the one that failed.
     */
    ghost predicate ReadsBounded(failed: bool, entered: int, budget: nat)
      reads this
    {
      remaining <= budget && valueReads + remaining <= entered + budget + if failed then 1 else 0
    }

    method ReadValue(typeId: nat, depth: nat) returns (r: Result<MetadataValue, GgufError>)
      requires depth <= MAX_ARRAY_DEPTH
      modifies this
      ensures Retains(r, ReadWire(old(Position()), typeId, depth, end))
      ensures ReadsBounded(r.Failure?, old(valueReads), old(remaining))
      decreases MAX_ARRAY_DEPTH - depth, 1
    {
      valueReads := valueReads + 1;
      if typeId == LIST_TYPE {
        r := ReadArray(depth);
      } else if typeId == TEXT_TYPE {
        var text := Text("string");
        r := if text.Success? then Success(String(text.value)) else Failure(text.error);
      } else if ScalarType(typeId) {
        var raw := Number(Width(typeId), TypeName(typeId));
        r := if raw.Success? then Success(Interpret(typeId, raw.value)) else Failure(raw.error);
      } else {
        r := Failure(UnknownValueType(typeId));
      }
    }

    method ReadArray(depth: nat) returns (r: Result<MetadataValue, GgufError>)
      requires depth <= MAX_ARRAY_DEPTH
      modifies this
      ensures Retains(r, ReadList(old(Position()), depth, end))
      ensures ReadsBounded(r.Failure?, old(valueReads) - 1, old(remaining))
      decreases MAX_ARRAY_DEPTH - depth, 0
    {
      hide ReadItems, AllWellTyped, ToValues;
      if depth >= MAX_ARRAY_DEPTH {
        return Failure(Implausible("array nesting depth", depth + 1, MAX_ARRAY_DEPTH));
      }
      var elementType := Number(4, "array element type");
      if elementType.Failure? {
        return Failure(elementType.error);
      }
      var len := Number(8, "array length");
      if len.Failure? {
        return Failure(len.error);
      }
      if len.value > MAX_ARRAY_LEN {
        return Failure(Implausible("array length", len.value, MAX_ARRAY_LEN));
      }

      r := Elements(elementType.value, depth + 1, len.value);
    }

    /** Reads every element, keeping them only when there are few enough to retain. */
    method Elements(elementType: nat, depth: nat, len: nat) returns (r: Result<MetadataValue, GgufError>)
      requires depth <= MAX_ARRAY_DEPTH
      modifies this
      ensures match ReadItems(old(Position()), elementType, depth, len, end)
              case Ok(items, next) =>
                && AllWellTyped(items) && |items| == len
                && r == Success(if len <= MAX_RETAINED_ARRAY_LEN then Array(ToValues(items))
                                else LargeArray(elementType, len))
                && Position() == next
              case Err(e) => r == Failure(e)
      ensures ReadsBounded(r.Failure?, old(valueReads), old(remaining))
      decreases MAX_ARRAY_DEPTH - depth, 2
    {
      hide ReadWire, ReadItems, ToValues, AllWellTyped, Prepended;
      var retain := len <= MAX_RETAINED_ARRAY_LEN;
      var retained: seq<MetadataValue> := [];
      ghost var start := Position();
      ghost var read: seq<Wire> := [];
      PrependedNone(ReadItems(start, elementType, depth, len, end));
      NoValues();
      var i := 0;
      while i < len
        invariant i <= len && |read| == i
        invariant ReadItems(start, elementType, depth, len, end)
               == Prepended(read, ReadItems(Position(), elementType, depth, len - i, end))
        invariant AllWellTyped(read)
        invariant retained == if retain then ToValues(read) else []
        invariant ReadsBounded(false, old(valueReads), start.remaining)
      {
        ghost var here := Position();
        ItemsStep(here, elementType, depth, len - i, end);
        var value := ReadValue(elementType, depth);
        if value.Failure? {
          PrependedFailure(read, ReadItems(here, elementType, depth, len - i, end));
          return value;
        }
        ghost var w := ReadWire(here, elementType, depth, end).value;
        PrependedStep(read, w, ReadItems(Position(), elementType, depth, len - i - 1, end));
        ValuesAppend(read, w);
        read := read + [w];
        if retain {
          retained := retained + [value.value];
        }
        i := i + 1;
      }
      ItemsDone(Position(), elementType, depth, end, read);
      r := Success(if retain then Array(retained) else LargeArray(elementType, len));
    }

    /** Everything before the entries, each field refused where it stands. */
    method Lead() returns (r: Result<Preamble, GgufError>)
      modifies this`inner, this`remaining
      ensures Agrees(r, ReadPreamble(old(Position()), end))
      ensures remaining <= old(remaining)
    {
      var taken := Take(4, "magic");
      if taken.Failure? {
        return Failure(taken.error);
      }
      var magic := ReadExactOrTruncated(4, "magic");
      if magic.Failure? {
        return Failure(magic.error);
      }
      if magic.value != MAGIC {
        return Failure(NotGguf(magic.value));
      }

      var version := Number(4, "version");
      if version.Failure? {
        return Failure(version.error);
      }
      if version.value !in {2, 3} {
        return Failure(UnsupportedVersion(version.value));
      }

      var tensorCount := Number(8, "tensor count");
      if tensorCount.Failure? {
        return Failure(tensorCount.error);
      }
      if tensorCount.value > MAX_TENSOR_COUNT {
        return Failure(Implausible("tensor count", tensorCount.value, MAX_TENSOR_COUNT));
      }

      var metadataCount := Number(8, "metadata count");
      if metadataCount.Failure? {
        return Failure(metadataCount.error);
      }
      if metadataCount.value > MAX_METADATA_ENTRIES {
        return Failure(Implausible("metadata count", metadataCount.value, MAX_METADATA_ENTRIES));
      }
      r := Success(Preamble(version.value, tensorCount.value, metadataCount.value));
    }

    method Entry() returns (r: Result<(seq<Byte>, MetadataValue), GgufError>)
      modifies this
      ensures match ReadEntry(old(Position()), end)
              case Ok(e, next) =>
                && FitEntry(e) && WellTyped(e.value)
                && r == Success((e.key, ToValue(e.value))) && Position() == next
              case Err(e) => r == Failure(e)
      ensures ReadsBounded(r.Failure?, old(valueReads), old(remaining))
    {
      hide ReadText, ReadNumber, ReadWire, Fits, ToValue, WellTyped, EncodeEntry;
      ghost var start := Position();
      var key := Text("metadata key");
      if key.Failure? {
        return Failure(key.error);
      }
      var typeId := Number(4, "metadata value type");
      if typeId.Failure? {
        return Failure(typeId.error);
      }
      var value := ReadValue(typeId.value, 0);
      if value.Failure? {
        return Failure(value.error);
      }
      EntrySound(start, end);
      r := Success((key.value, value.value));
    }

    /** The entries of a header, as a map in which a repeated key keeps its last value. */
    method Entries(count: nat) returns (r: Result<map<seq<Byte>, MetadataValue>, GgufError>)
      modifies this
      ensures match ReadEntries(old(Position()), count, end)
              case Ok(entries, next) =>
                && |entries| == count && FitEntries(entries)
                && r == Success(Metadata(entries)) && Position() == next
              case Err(e) => r == Failure(e)
      ensures ReadsBounded(r.Failure?, old(valueReads), old(remaining))
    {
      hide ReadEntry, FitEntry;
      var metadata: map<seq<Byte>, MetadataValue> := map[];
      ghost var start := Position();
      ghost var read: seq<Entry> := [];
      PrependedNone(ReadEntries(start, count, end));
      var i := 0;
      while i < count
        invariant i <= count && |read| == i
        invariant ReadEntries(start, count, end) == Prepended(read, ReadEntries(Position(), count - i, end))
        invariant FitEntries(read) && metadata == Metadata(read)
        invariant ReadsBounded(false, old(valueReads), start.remaining)
      {
        ghost var here := Position();
        var entry := Entry();
        if entry.Failure? {
          return Failure(entry.error);
        }
        ghost var e := ReadEntry(here, end).value;
        PrependedStep(read, e, ReadEntries(Position(), count - i - 1, end));
        MetadataAppend(read, e);
        read := read + [e];
        metadata := metadata[entry.value.0 := entry.value.1];
        i := i + 1;
      }
      assert read + [] == read;
      r := Success(metadata);
    }
  }

  lemma {:induction false} MetadataAppend(read: seq<Entry>, e: Entry)
    requires FitEntries(read) && FitEntry(e)
    ensures FitEntries(read + [e]) && WellTyped(e.value)
    ensures Metadata(read + [e]) == Metadata(read)[e.key := ToValue(e.value)]
  {
    FitIsWellTypedEntry(e);
    hide FitEntry, ToValue, WellTyped;
    if read == [] {
      assert [] + [e] == [e];
      assert Metadata([e]) == map[e.key := ToValue(e.value)] + Metadata([]);
    } else {
      MetadataAppend(read[1..], e);
      assert (read + [e])[1..] == read[1..] + [e];
      FitIsWellTypedEntry(read[0]);
      LaterWins(map[read[0].key := ToValue(read[0].value)], Metadata(read[1..]), e.key, ToValue(e.value));
    }
  }

  lemma FitIsWellTypedEntry(e: Entry)
    requires FitEntry(e)
    ensures WellTyped(e.value)
  {
    FitIsWellTyped(e.value, 0);
  }

  lemma LaterWins<K, V>(a: map<K, V>, b: map<K, V>, k: K, v: V)
    ensures a + b[k := v] == (a + b)[k := v]
  {
  }

  /** Puts values already read in front of what was read after them. */
  ghost function Prepended<T>(read: seq<T>, p: Parsed<seq<T>>): Parsed<seq<T>> {
    match p
    case Err(e) => Err(e)
    case Ok(others, next) => Ok(read + others, next)
  }

  lemma NoValues()
    ensures AllWellTyped([]) && ToValues([]) == []
  {
  }

  /** One turn of the loop over elements. */
  lemma ItemsStep(c: Cursor, elementType: nat, depth: nat, count: nat, end: SourceEnd)
    requires count > 0
    ensures match ReadWire(c, elementType, depth, end)
            case Err(e) => ReadItems(c, elementType, depth, count, end) == Err(e)
            case Ok(w, next) =>
              ReadItems(c, elementType, depth, count, end)
              == Prepended([w], ReadItems(next, elementType, depth, count - 1, end))
  {
    hide ReadWire;
  }

  lemma ItemsDone(c: Cursor, elementType: nat, depth: nat, end: SourceEnd, read: seq<Wire>)
    ensures Prepended(read, ReadItems(c, elementType, depth, 0, end)) == Ok(read, c)
  {
    assert read + [] == read;
  }

  lemma PrependedFailure<T>(read: seq<T>, p: Parsed<seq<T>>)
    ensures p.Err? ==> Prepended(read, p) == p
  {
  }

  lemma PrependedNone<T>(p: Parsed<seq<T>>)
    ensures Prepended([], p) == p
  {
    if p.Ok? {
      assert [] + p.value == p.value;
    }
  }

  lemma PrependedStep<T>(read: seq<T>, one: T, p: Parsed<seq<T>>)
    ensures Prepended(read, Prepended([one], p)) == Prepended(read + [one], p)
  {
    if p.Ok? {
      assert read + ([one] + p.value) == (read + [one]) + p.value;
    }
  }

  lemma {:induction false} ValuesAppend(read: seq<Wire>, w: Wire)
    requires AllWellTyped(read) && WellTyped(w)
    ensures AllWellTyped(read + [w])
    ensures ToValues(read + [w]) == ToValues(read) + [ToValue(w)]
  {
    if read == [] {
      assert [] + [w] == [w];
      assert ToValues([w]) == [ToValue(w)] + ToValues([]);
    } else {
      ValuesAppend(read[1..], w);
      assert (read + [w])[1..] == read[1..] + [w];
    }
  }

  /** Reads a header from a source; nothing past it is read. */
  method Parse(input: seq<Byte>, end: SourceEnd) returns (r: Result<Header, GgufError>, reader: Budgeted)
    ensures fresh(reader)
    ensures match ReadDocument(input, end)
            case Ok(doc, next) =>
              FitEntries(doc.entries) && r == Success(HeaderOf(doc)) && reader.Position() == next
            case Err(e) => r == Failure(e)
    ensures reader.valueReads + reader.remaining <= MAX_HEADER_BYTES + if r.Failure? then 1 else 0
  {
    hide ReadPreamble, ReadEntries, FitEntries, Metadata;
    reader := new Budgeted(input, end, MAX_HEADER_BYTES);

    var preamble := reader.Lead();
    if preamble.Failure? {
      return Failure(preamble.error), reader;
    }
    var p := preamble.value;
    var metadata := reader.Entries(p.metadataCount);
    if metadata.Failure? {
      return Failure(metadata.error), reader;
    }
    r := Success(Header(p.version, p.tensorCount, p.metadataCount, metadata.value));
  }
}
