/** The reader that walks a buffer, and the loop that grows the buffer until a header parses. */
module GgufReader {
  import opened Wrappers
  import opened GgufValues
  import opened GgufHeader

  const CHUNK_BYTES: nat := 1024 * 1024
  const INITIAL_BYTES: nat := 2 * 1024 * 1024
  const MAX_HEADER_BYTES: nat := 256 * 1024 * 1024

  /** What a parse reports. */
  datatype Report = Report(version: nat, tensorCount: nat, metadataCount: nat, metadata: map<string, Value>,
                           kv: seq<Pair>, tensors: seq<TensorInfo>, parameterCount: nat)

  function ReportOf(names: Names, h: Header, widened: bool): Report {
    Report(h.version, h.tensorCount, h.metadataCount, Metadata(names, h.pairs, widened), h.pairs, h.tensors,
           ParameterCount(h.tensors))
  }

  ghost predicate Forward<T>(read: nat -> Outcome<T>, limit: nat) {
    forall p: nat :: read(p).Ok? ==> p < read(p).pos <= limit
  }

  /** `read` is `ReadPair`; the loops know it only by this name. */
  ghost predicate ReadsPairs(read: nat -> Outcome<Pair>, names: Names, w: Window, widened: bool) {
    forall p: nat {:trigger ReadPair(names, w, p, widened)} :: read(p) == ReadPair(names, w, p, widened)
  }

  ghost predicate ReadsTensors(read: nat -> Outcome<TensorInfo>, names: Names, w: Window, widened: bool) {
    forall p: nat {:trigger ReadTensor(names, w, p, widened)} :: read(p) == ReadTensor(names, w, p, widened)
  }

  /** Each method is the function of the same name at the current offset; a failed read leaves the reader behind. */
  class BufferReader {
    const buffer: seq<Byte>
    const partial: bool
    const fileBytes: Option<nat>
    var offset: nat
    var littleEndian: bool

    function View(): Window
      reads this`littleEndian
    {
      Window(buffer, partial, fileBytes, littleEndian)
    }

    constructor (buffer: seq<Byte>, partial: bool, fileBytes: Option<nat>)
      ensures View() == Window(buffer, partial, fileBytes, true) && offset == 0
    {
      this.buffer, this.partial, this.fileBytes := buffer, partial, fileBytes;
      offset, littleEndian := 0, true;
    }

    method ReadBuffer(n: nat) returns (r: Outcome<seq<Byte>>)
      modifies this`offset
      ensures r == Take(View(), old(offset), n) && (r.Ok? ==> offset == r.pos)
    {
      var end := offset + n;
      if n <= MAX_SAFE_INTEGER && end <= |buffer| {
        r := Ok(buffer[offset..end], end);
        offset := end;
      } else if partial && end <= MAX_SAFE_INTEGER && (fileBytes.None? || end <= fileBytes.value) {
        r := NeedMore(end);
      } else {
        r := Fail;
      }
    }

    method Uint(n: nat) returns (r: Outcome<nat>)
      modifies this`offset
      ensures r == ReadUint(View(), old(offset), n) && (r.Ok? ==> offset == r.pos)
    {
      var bytes :- ReadBuffer(n);
      r := Ok(Number(bytes.0, littleEndian), offset);
    }

    method Count() returns (r: Outcome<nat>)
      modifies this`offset
      ensures r == ReadCount(View(), old(offset)) && (r.Ok? ==> offset == r.pos)
    {
      var count :- Uint(8);
      r := if count.0 <= MAX_SAFE_INTEGER then Ok(count.0, offset) else Fail;
    }

    method Str(limit: nat, placeholders: bool) returns (r: Outcome<Value>)
      modifies this`offset
      ensures r == ReadString(View(), old(offset), limit, placeholders) && (r.Ok? ==> offset == r.pos)
    {
      var length :- Count();
      var text :- ReadBuffer(length.0);
      r := Ok(if length.0 <= limit then Text(text.0) else if placeholders then LongText(length.0) else Null, offset);
    }

    method SkipStr() returns (r: Outcome<()>)
      modifies this`offset
      ensures r == SkipString(View(), old(offset)) && (r.Ok? ==> offset == r.pos)
    {
      var length :- Count();
      var _ :- ReadBuffer(length.0);
      r := Ok((), offset);
    }

    method Scan(kind: nat) returns (r: Outcome<()>)
      modifies this`offset
      ensures r == SkipScalar(View(), old(offset), kind) && (r.Ok? ==> offset == r.pos)
    {
      if FixedBytes(kind) > 0 {
        var _ :- ReadBuffer(FixedBytes(kind));
        r := Ok((), offset);
      } else if kind == STRING {
        r := SkipStr();
      } else {
        r := Fail;
      }
    }

    method Scalar(kind: nat, placeholders: bool) returns (r: Outcome<Value>)
      modifies this`offset
      ensures r == ReadScalar(View(), old(offset), kind, placeholders) && (r.Ok? ==> offset == r.pos)
    {
      if FixedBytes(kind) > 0 {
        var bytes :- ReadBuffer(FixedBytes(kind));
        r := Ok(Value.Scalar(kind, bytes.0, littleEndian), offset);
      } else if kind == STRING {
        r := Str(CAPTURE_STRING_BYTES, placeholders);
      } else {
        r := Fail;
      }
    }

    method Head() returns (r: Outcome<ArrayHead>)
      modifies this`offset
      ensures r == ReadArrayHead(View(), old(offset)) && (r.Ok? ==> offset == r.pos)
    {
      var elementType :- Uint(4);
      var count :- Count();
      r := Ok(ArrayHead(elementType.0, count.0), offset);
    }

    method Skip(kind: nat) returns (r: Outcome<()>)
      requires offset <= |buffer|
      modifies this`offset
      ensures r == SkipValue(View(), old(offset), kind) && (r.Ok? ==> offset == r.pos)
      decreases |buffer| - offset, 0
    {
      if kind != ARRAY {
        r := Scan(kind);
        return;
      }
      var head :- Head();
      r := SkipArr(head.0.elementType, head.0.count);
    }

    method SkipArr(elementType: nat, count: nat) returns (r: Outcome<()>)
      requires offset <= |buffer|
      modifies this`offset
      ensures r == SkipArray(View(), old(offset), elementType, count) && (r.Ok? ==> offset == r.pos)
      decreases |buffer| - offset, 2
    {
      if FixedBytes(elementType) > 0 {
        var _ :- ReadBuffer(count * FixedBytes(elementType));
        return Ok((), offset);
      }
      if elementType != STRING && elementType != ARRAY {
        return Fail;
      }
      r := SkipMany(elementType, count);
    }

    method SkipMany(elementType: nat, count: nat) returns (r: Outcome<()>)
      requires offset <= |buffer|
      modifies this`offset
      ensures r == SkipItems(View(), old(offset), elementType, count) && (r.Ok? ==> offset == r.pos)
      decreases |buffer| - offset, 1
    {
      var index := 0;
      while index < count
        invariant index <= count && old(offset) <= offset <= |buffer|
        invariant SkipItems(View(), old(offset), elementType, count)
          == SkipItems(View(), offset, elementType, count - index)
      {
        var _ :- Skip(elementType);
        index := index + 1;
      }
      r := Ok((), offset);
    }

    method Read(kind: nat, placeholders: bool) returns (r: Outcome<Value>)
      requires offset <= |buffer|
      modifies this`offset
      ensures r == ReadValue(View(), old(offset), kind, placeholders) && (r.Ok? ==> offset == r.pos)
      decreases |buffer| - offset, 0
    {
      if kind != ARRAY {
        r := Scalar(kind, placeholders);
        return;
      }
      var head :- Head();
      r := ReadArr(head.0.elementType, head.0.count, placeholders);
    }

    method ReadArr(elementType: nat, count: nat, placeholders: bool) returns (r: Outcome<Value>)
      requires offset <= |buffer|
      modifies this`offset
      ensures r == ReadArray(View(), old(offset), elementType, count, placeholders) && (r.Ok? ==> offset == r.pos)
      decreases |buffer| - offset, 3
    {
      if count > CAPTURE_ARRAY_LIMIT {
        var _ :- SkipArr(elementType, count);
        return Ok(if placeholders then LongArray(elementType, count) else Null, offset);
      }
      var values: seq<Value>, index := [], 0;
      while index < count
        invariant index <= count && old(offset) <= offset <= |buffer|
        invariant ReadItems(View(), old(offset), elementType, count, placeholders, [])
               == ReadItems(View(), offset, elementType, count - index, placeholders, values)
      {
        var value :- Read(elementType, placeholders);
        values, index := values + [value.0], index + 1;
      }
      r := Ok(Items(elementType, values), offset);
    }

    method OnePair(names: Names, widened: bool, ghost read: nat -> Outcome<Pair>) returns (r: Outcome<Pair>)
      requires ReadsPairs(read, names, View(), widened)
      modifies this`offset
      ensures r == read(old(offset)) && (r.Ok? ==> offset == r.pos)
    {
      assert read(offset) == ReadPair(names, View(), offset, widened);
      var text :- Str(MAX_KEY_BYTES, false);
      if !text.0.Text? || names.decode(text.0.text) == "" {
        return Fail;
      }
      var key := names.decode(text.0.text);
      var kind :- Uint(4);
      if widened || names.whitelisted(key) {
        var value :- Read(kind.0, widened);
        r := Ok(Pair(key, Some(value.0)), offset);
      } else {
        var _ :- Skip(kind.0);
        r := Ok(Pair(key, None), offset);
      }
    }

    /** All pairs, with the metadata object that grows beside them. */
    method Pairs(names: Names, count: nat, widened: bool, ghost read: nat -> Outcome<Pair>)
      returns (r: Outcome<seq<Pair>>, metadata: map<string, Value>)
      requires offset <= |buffer| && Forward(read, |buffer|) && ReadsPairs(read, names, View(), widened)
      modifies this`offset
      ensures r == ReadMany(read, |buffer|, old(offset), count, []) && (r.Ok? ==> offset == r.pos)
      ensures r.Ok? ==> metadata == Metadata(names, r.value, widened)
    {
      var pairs: seq<Pair>, index := [], 0;
      metadata := map[];
      while index < count
        invariant index <= count && offset <= |buffer|
        invariant ReadMany(read, |buffer|, old(offset), count, [])
          == ReadMany(read, |buffer|, offset, count - index, pairs)
        invariant metadata == Metadata(names, pairs, widened)
      {
        var step := OnePair(names, widened, read);
        if !step.Ok? {
          r := step.PropagateFailure();
          return;
        }
        metadata := Keep(names, metadata, step.value, widened, pairs);
        pairs, index := pairs + [step.value], index + 1;
      }
      r := Ok(pairs, offset);
    }

    /** The metadata after one more pair. */
    method Keep(names: Names, metadata: map<string, Value>, pair: Pair, widened: bool, ghost before: seq<Pair>)
      returns (after: map<string, Value>)
      requires metadata == Metadata(names, before, widened)
      ensures after == Metadata(names, before + [pair], widened)
    {
      after := metadata;
      if names.whitelisted(pair.key) && pair.value.Some? {
        var value := if widened then LegacyValue(pair.value.value) else pair.value.value;
        if value != Null {
          after := metadata[pair.key := value];
        }
      }
      assert (before + [pair])[..|before|] == before;
    }

    method Dims(count: nat) returns (r: Outcome<seq<nat>>, elements: nat)
      requires offset <= |buffer|
      modifies this`offset
      ensures r == ReadDims(View(), old(offset), count) && (r.Ok? ==> offset == r.pos && elements == Product(r.value))
    {
      var dims: seq<nat>, index := [], 0;
      elements := 1;
      while index < count
        invariant index <= count && offset <= |buffer|
        invariant ReadDims(View(), old(offset), count)
          == ReadMany(CountReader(View()), |buffer|, offset, count - index, dims)
        invariant elements == Product(dims)
      {
        var step := Count();
        if !step.Ok? {
          r := step.PropagateFailure();
          return;
        }
        assert (dims + [step.value])[..|dims|] == dims;
        dims, index := dims + [step.value], index + 1;
        elements := elements * step.value;
      }
      r := Ok(dims, offset);
    }

    method TensorName(names: Names, widened: bool) returns (r: Outcome<Option<string>>)
      modifies this`offset
      ensures r == ReadTensorName(names, View(), old(offset), widened) && (r.Ok? ==> offset == r.pos)
    {
      if widened {
        var text :- Str(MAX_TENSOR_NAME_BYTES, false);
        r := if text.0.Text? then Ok(Some(names.decode(text.0.text)), offset) else Fail;
      } else {
        var _ :- SkipStr();
        r := Ok(None, offset);
      }
    }

    method TensorLayout(widened: bool, name: Option<string>) returns (r: Outcome<TensorInfo>, elements: nat)
      modifies this`offset
      ensures r == ReadTensorLayout(View(), old(offset), widened, name)
      ensures r.Ok? ==> offset == r.pos && elements == Product(r.value.dims)
    {
      elements := 0;
      var dimensions := Uint(4);
      if !dimensions.Ok? {
        return dimensions.PropagateFailure(), 0;
      }
      if dimensions.value > MAX_DIMENSIONS {
        return Fail, 0;
      }
      var dims;
      dims, elements := Dims(dimensions.value);
      if !dims.Ok? {
        return dims.PropagateFailure(), 0;
      }
      var place := Place(widened);
      if !place.Ok? {
        return place.PropagateFailure(), 0;
      }
      r := Ok(TensorInfo(name, place.value.0, dims.value, place.value.1), offset);
    }

    method Place(widened: bool) returns (r: Outcome<(nat, Option<nat>)>)
      modifies this`offset
      ensures r == ReadPlace(View(), old(offset), widened) && (r.Ok? ==> offset == r.pos)
    {
      var typeId :- Uint(4);
      var start :- Uint(8);
      if start.0 <= MAX_SAFE_INTEGER {
        r := Ok((typeId.0, Some(start.0)), offset);
      } else if widened {
        r := Fail;
      } else {
        r := Ok((typeId.0, None), offset);
      }
    }

    method OneTensor(names: Names, widened: bool, ghost read: nat -> Outcome<TensorInfo>)
      returns (r: Outcome<TensorInfo>, elements: nat)
      requires ReadsTensors(read, names, View(), widened)
      modifies this`offset
      ensures r == read(old(offset))
      ensures r.Ok? ==> offset == r.pos && elements == Product(r.value.dims)
    {
      assert read(offset) == ReadTensor(names, View(), offset, widened);
      var name := TensorName(names, widened);
      if !name.Ok? {
        return name.PropagateFailure(), 0;
      }
      r, elements := TensorLayout(widened, name.value);
    }

    /** All tensor infos, with the parameter count that grows beside them. */
    method Tensors(names: Names, count: nat, widened: bool, ghost read: nat -> Outcome<TensorInfo>)
      returns (r: Outcome<seq<TensorInfo>>, parameterCount: nat)
      requires offset <= |buffer| && Forward(read, |buffer|) && ReadsTensors(read, names, View(), widened)
      modifies this`offset
      ensures r == ReadMany(read, |buffer|, old(offset), count, []) && (r.Ok? ==> offset == r.pos)
      ensures r.Ok? ==> parameterCount == ParameterCount(r.value)
    {
      var tensors: seq<TensorInfo>, index := [], 0;
      parameterCount := 0;
      while index < count
        invariant index <= count && offset <= |buffer|
        invariant ReadMany(read, |buffer|, old(offset), count, [])
          == ReadMany(read, |buffer|, offset, count - index, tensors)
        invariant parameterCount == ParameterCount(tensors)
      {
        var step, elements := OneTensor(names, widened, read);
        if !step.Ok? {
          r := step.PropagateFailure();
          return;
        }
        AddTensor(tensors, step.value);
        tensors, index := tensors + [step.value], index + 1;
        parameterCount := parameterCount + elements;
      }
      r := Ok(tensors, offset);
    }

    method Counters() returns (r: Outcome<Counts>)
      modifies this`offset
      ensures r == ReadCounts(View(), old(offset)) && (r.Ok? ==> offset == r.pos)
    {
      var version :- Uint(4);
      if version.0 < 1 || version.0 > 3 {
        return Fail;
      }
      var tensors :- Uint(8);
      var metadata :- Uint(8);
      r := if tensors.0 > MAX_SAFE_INTEGER || metadata.0 > MAX_SAFE_INTEGER then Fail
        else Ok(Counts(version.0, tensors.0, metadata.0), offset);
    }

    method Lists(names: Names, counts: Counts, widened: bool) returns (r: Outcome<Report>)
      requires offset <= |buffer|
      modifies this`offset
      ensures r == Reported(names, ReadLists(names, View(), old(offset), counts, widened), widened)
      ensures r.Ok? ==> offset == r.pos
    {
      var pairs, metadata := Pairs(names, counts.metadata, widened, PairReader(names, View(), widened));
      if !pairs.Ok? {
        return pairs.PropagateFailure();
      }
      var tensors, parameterCount := Tensors(names, counts.tensors, widened, TensorReader(names, View(), widened));
      if !tensors.Ok? {
        return tensors.PropagateFailure();
      }
      r := Ok(Report(counts.version, counts.tensors, counts.metadata, metadata, pairs.value, tensors.value,
        parameterCount), offset);
    }

    method Parse(names: Names, widened: bool) returns (r: Outcome<Report>)
      requires offset == 0
      modifies this
      ensures r == Reported(names, ParseHeader(names, old(View()), widened), widened)
      ensures r.Ok? ==> offset == r.pos
    {
      var magic :- ReadBuffer(4);
      var order := ByteOrder(magic.0);
      if order.None? {
        return Fail;
      }
      littleEndian := order.value;
      assert View() == old(View()).(littleEndian := order.value);
      var counts :- Counters();
      r := Lists(names, counts.0, widened);
    }
  }

  lemma AddTensor(tensors: seq<TensorInfo>, tensor: TensorInfo)
    ensures ParameterCount(tensors + [tensor]) == ParameterCount(tensors) + Product(tensor.dims)
  {
    assert (tensors + [tensor])[..|tensors|] == tensors;
  }

  function Reported(names: Names, parsed: Outcome<Header>, widened: bool): Outcome<Report> {
    if parsed.Ok? then Ok(ReportOf(names, parsed.value, widened), parsed.pos) else parsed.PropagateFailure()
  }

  /** The widened report on a whole file held in memory. */
  function WholeReport(names: Names, file: seq<Byte>): Outcome<Report> {
    Reported(names, ParseHeader(names, Window(file, false, Some(|file|), true), true), true)
  }

  /** The widened report from the first `size` bytes of a file. */
  function HeadReport(names: Names, file: seq<Byte>, size: nat): Outcome<Report>
    requires size <= |file|
  {
    Reported(names, ParseHeader(names, Window(file[..size], true, Some(|file|), true), true), true)
  }

  /** The report from the first bytes is final unless it asks for more; what it asks for is needed. */
  lemma {:induction false} HeadForetellsWhole(names: Names, file: seq<Byte>, size: nat)
    requires size <= |file| <= MAX_SAFE_INTEGER
    ensures var head, whole := HeadReport(names, file, size), WholeReport(names, file);
      if head.NeedMore? then size < head.required <= |file| && (whole.Ok? ==> head.required <= whole.pos)
      else head == whole
  {
    PrefixForetells(names, Window(file[..size], true, Some(|file|), true), Window(file, false, Some(|file|), true),
      true);
  }

  /** A longer head that still falls short of what a shorter one asked for asks for the same. */
  lemma {:induction false} RequestRepeats(names: Names, file: seq<Byte>, size: nat, longer: nat)
    requires size <= longer <= |file| <= MAX_SAFE_INTEGER
    ensures var head, next := HeadReport(names, file, size), HeadReport(names, file, longer);
      head.NeedMore? ==>
        (if longer < head.required then next == head else next.NeedMore? ==> longer < next.required)
  {
    PrefixForetells(names, Window(file[..size], true, Some(|file|), true),
      Window(file[..longer], true, Some(|file|), true), true);
    HeadForetellsWhole(names, file, longer);
  }

  /** `head` gives the report from each head of the file, and `whole` the report on the file. */
  ghost predicate Heads(head: nat -> Outcome<Report>, whole: Outcome<Report>, names: Names, file: seq<Byte>) {
    && (forall n: nat {:trigger HeadReport(names, file, n)} | n <= |file| :: head(n) == HeadReport(names, file, n))
    && (forall n: nat | n <= |file| ::
      if head(n).NeedMore? then n < head(n).required <= |file| && (whole.Ok? ==> head(n).required <= whole.pos)
      else head(n) == whole)
    && (forall m: nat, n: nat | m <= n <= |file| && !head(m).NeedMore? :: head(n) == head(m))
  }

  /** A final answer of a head is the answer of every longer one. */
  lemma {:induction false} FinalStays(names: Names, file: seq<Byte>, size: nat, longer: nat)
    requires size <= longer <= |file| <= MAX_SAFE_INTEGER
    ensures !HeadReport(names, file, size).NeedMore? ==>
      HeadReport(names, file, longer) == HeadReport(names, file, size)
  {
    PrefixForetells(names, Window(file[..size], true, Some(|file|), true),
      Window(file[..longer], true, Some(|file|), true), true);
  }

  lemma {:induction false} HeadsOf(names: Names, file: seq<Byte>) returns (head: nat -> Outcome<Report>)
    requires |file| <= MAX_SAFE_INTEGER
    ensures Heads(head, WholeReport(names, file), names, file)
  {
    head := (n: nat) => if n <= |file| then HeadReport(names, file, n) else Fail;
    forall n: nat | n <= |file|
      ensures if head(n).NeedMore?
              then n < head(n).required <= |file| &&
                (WholeReport(names, file).Ok? ==> head(n).required <= WholeReport(names, file).pos)
              else head(n) == WholeReport(names, file)
    {
      HeadForetellsWhole(names, file, n);
    }
    forall m: nat, n: nat | m <= n <= |file| && !head(m).NeedMore? ensures head(n) == head(m) {
      FinalStays(names, file, m, n);
    }
  }

  method TryHead(names: Names, file: seq<Byte>, buffer: seq<Byte>, ghost head: nat -> Outcome<Report>,
                 ghost whole: Outcome<Report>)
    returns (r: Outcome<Report>)
    requires buffer <= file && |file| <= MAX_SAFE_INTEGER && Heads(head, whole, names, file)
    ensures r == head(|buffer|)
  {
    var reader := new BufferReader(buffer, true, Some(|file|));
    assert buffer == file[..|buffer|];
    assert head(|buffer|) == HeadReport(names, file, |buffer|);
    r := reader.Parse(names, true);
  }

  /** Grows the head of a file until its header parses. */
  method GrowHead(names: Names, file: seq<Byte>, ghost head: nat -> Outcome<Report>, ghost whole: Outcome<Report>)
    returns (r: Outcome<Report>)
    requires |file| <= MAX_SAFE_INTEGER && Heads(head, whole, names, file)
    ensures !r.NeedMore? ==> r == whole
    ensures r.NeedMore? <==> |file| > MAX_HEADER_BYTES && head(MAX_HEADER_BYTES).NeedMore?
    ensures whole.Ok? && whole.pos <= MAX_HEADER_BYTES ==> r.Ok?
  {
    var buffer: seq<Byte>, want := [], Min(|file|, INITIAL_BYTES);
    while true
      invariant |buffer| <= want <= |file| && want <= MAX_HEADER_BYTES
      invariant buffer == file[..|buffer|]
      decreases |file| - want
    {
      buffer := buffer + file[|buffer|..want];
      r := TryHead(names, file, buffer, head, whole);
      if !r.NeedMore? || |buffer| >= |file| || |buffer| >= MAX_HEADER_BYTES { return; }
      var required := (r.required + CHUNK_BYTES - 1) / CHUNK_BYTES * CHUNK_BYTES;
      want := Min(Min(|file|, MAX_HEADER_BYTES), Max(required, |buffer| * 2));
    }
  }

  /**
   The report on a file from a head of it. The answer is that of the whole
   file, unless the header runs past the largest head that is read.
   */
  method ReadHead(names: Names, file: seq<Byte>) returns (r: Outcome<Report>)
    requires |file| <= MAX_SAFE_INTEGER
    ensures !r.NeedMore? ==> r == WholeReport(names, file)
    ensures r.NeedMore? <==> |file| > MAX_HEADER_BYTES && HeadReport(names, file, MAX_HEADER_BYTES).NeedMore?
    ensures WholeReport(names, file).Ok? && WholeReport(names, file).pos <= MAX_HEADER_BYTES ==> r.Ok?
  {
    ghost var head := HeadsOf(names, file);
    r := GrowHead(names, file, head, WholeReport(names, file));
  }

  function Min(a: nat, b: nat): nat { if a < b then a else b }

  function Max(a: nat, b: nat): nat { if a < b then b else a }
}
