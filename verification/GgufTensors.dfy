/** The sizes of the tensors that a GGUF header lays out. */
module GgufTensors {
  import opened Wrappers
  import opened GgufValues
  import opened GgufHeader

  const TYPE_IDS: nat := 0x1_0000_0000

  type TypeId = id: nat | id < TYPE_IDS

  // ----- one tensor

  /** The elements and the bytes of one block of a ggml type. */
  function BlockShape(typeId: nat): Option<(nat, nat)>
    ensures BlockShape(typeId).Some? ==> BlockShape(typeId).value.0 > 0
  {
    if typeId in {0, 26} then Some((1, 4))
    else if typeId in {1, 25, 30} then Some((1, 2))
    else if typeId == 24 then Some((1, 1))
    else if typeId in {27, 28} then Some((1, 8))
    else if typeId in {2, 20, 31, 32, 33, 36, 37, 38} then Some((32, 18))
    else if typeId == 3 then Some((32, 20))
    else if typeId == 6 then Some((32, 22))
    else if typeId == 7 then Some((32, 24))
    else if typeId == 8 then Some((32, 34))
    else if typeId == 9 then Some((32, 36))
    else if typeId == 39 then Some((32, 17))
    else if typeId == 10 then Some((256, 84))
    else if typeId == 11 then Some((256, 110))
    else if typeId == 12 then Some((256, 144))
    else if typeId == 13 then Some((256, 176))
    else if typeId == 14 then Some((256, 210))
    else if typeId == 15 then Some((256, 292))
    else if typeId in {16, 35} then Some((256, 66))
    else if typeId == 17 then Some((256, 74))
    else if typeId == 18 then Some((256, 98))
    else if typeId == 19 then Some((256, 50))
    else if typeId == 21 then Some((256, 110))
    else if typeId == 22 then Some((256, 82))
    else if typeId == 23 then Some((256, 136))
    else if typeId == 29 then Some((256, 56))
    else if typeId == 34 then Some((256, 54))
    else None
  }

  /** The bytes of a tensor whose type packs `elems` elements in `bytes`; none for a row that is not whole blocks. */
  function TensorBytes(elems: nat, bytes: nat, dims: seq<nat>): (r: Option<nat>)
    requires elems > 0
  {
    var count := Product(dims);
    var row := if dims == [] then 1 else dims[0];
    if count > MAX_SAFE_INTEGER || row % elems != 0 then None
    else
      var size := count / elems * bytes;
      if size > MAX_SAFE_INTEGER then None else Some(size)
  }

  lemma {:induction false} ProductFromRow(dims: seq<nat>)
    requires dims != []
    ensures Product(dims) == dims[0] * Product(dims[1..])
  {
    var last := dims[|dims| - 1];
    if |dims| == 1 {
      assert dims[..0] == [] && dims[1..] == [];
      assert Product(dims[..0]) == 1 && Product(dims[1..]) == 1;
    } else {
      var init := dims[..|dims| - 1];
      ProductFromRow(init);
      assert dims[1..][..|dims| - 2] == init[1..] && init[0] == dims[0];
      Regroup(dims[0], Product(init[1..]), last);
    }
  }

  lemma Regroup(a: nat, b: nat, c: nat)
    ensures (a * b) * c == a * (b * c)
  {
  }

  /** A tensor's size is its row length in blocks, times the block bytes, times the remaining dimensions. */
  lemma {:induction false} SizeIsRowsOfBlocks(elems: nat, bytes: nat, dims: seq<nat>)
    requires elems > 0 && dims != [] && TensorBytes(elems, bytes, dims).Some?
    ensures TensorBytes(elems, bytes, dims).value == dims[0] / elems * bytes * Product(dims[1..])
  {
    ProductFromRow(dims);
    SizeOfRows(elems, bytes, dims[0], Product(dims[1..]));
  }

  lemma {:induction false} SizeOfRows(elems: nat, bytes: nat, row: nat, rest: nat)
    requires elems > 0 && row % elems == 0
    ensures row * rest / elems * bytes == row / elems * bytes * rest
  {
    var blocks := row / elems;
    assert row == elems * blocks;
    Quotient(elems, row * rest, blocks * rest) by {
      Regroup(elems, blocks, rest);
    }
    Exchange(blocks, rest, bytes);
  }

  lemma Exchange(a: nat, b: nat, c: nat)
    ensures a * b * c == a * c * b
  {
  }

  lemma {:induction false} Quotient(d: nat, x: nat, q: nat)
    requires d > 0 && x == d * q
    ensures x / d == q && x % d == 0
  {
    var r := x / d;
    assert x == d * r + x % d;
    Apart(d, q, r);
    Apart(d, r, q);
  }

  lemma {:induction false} Apart(d: nat, a: nat, b: nat)
    ensures a > b ==> d * a >= d * b + d
  {
    if a > b {
      AtLeastOnce(d, a - b);
      assert d * a == d * b + d * (a - b);
    }
  }

  lemma {:induction false} AtLeastOnce(d: nat, k: nat)
    requires k > 0
    ensures d * k >= d
  {
    if k > 1 {
      AtLeastOnce(d, k - 1);
      assert d * k == d * (k - 1) + d;
    }
  }

  // ----- a layout

  /** `bytes` is none for an unknown type, a broken row or an unsafe size. */
  datatype Tensor = Tensor(typeId: TypeId, offset: nat, bytes: Option<nat>)

  /** A tensor info as the account sees it. */
  function TensorOf(info: TensorInfo): (t: Tensor)
    requires info.offset.Some? && info.typeId < TYPE_IDS
  {
    var shape := BlockShape(info.typeId);
    var bytes := if shape.None? then None else TensorBytes(shape.value.0, shape.value.1, info.dims);
    Tensor(info.typeId, info.offset.value, bytes)
  }

  predicate Sorted(ts: seq<Tensor>) {
    forall i, j | 0 <= i < j < |ts| :: ts[i].offset <= ts[j].offset
  }

  function Insert(t: Tensor, ts: seq<Tensor>): (r: seq<Tensor>)
    requires Sorted(ts)
    ensures multiset(r) == multiset(ts) + multiset{t}
    ensures Sorted(r)
  {
    if ts == [] || ts[|ts| - 1].offset <= t.offset then ts + [t]
    else
      var init, last := ts[..|ts| - 1], ts[|ts| - 1];
      assert ts == init + [last];
      InsertLast(t, init, last, Insert(t, init));
      Insert(t, init) + [last]
  }

  lemma InsertLast(t: Tensor, init: seq<Tensor>, last: Tensor, r: seq<Tensor>)
    requires Sorted(init + [last]) && t.offset < last.offset
    requires multiset(r) == multiset(init) + multiset{t} && Sorted(r)
    ensures Sorted(r + [last])
  {
    forall i | 0 <= i < |r| ensures r[i].offset <= last.offset {
      assert r[i] in multiset(r);
      if r[i] != t {
        assert r[i] in multiset(init);
        var k :| 0 <= k < |init| && init[k] == r[i];
        assert (init + [last])[k] == r[i] && (init + [last])[|init|] == last;
      }
    }
  }

  /** The tensors by offset; equal offsets keep their order. */
  function ByOffset(ts: seq<Tensor>): (r: seq<Tensor>)
    ensures Sorted(r) && multiset(r) == multiset(ts)
  {
    if ts == [] then []
    else
      assert ts == ts[..|ts| - 1] + [ts[|ts| - 1]];
      Insert(ts[|ts| - 1], ByOffset(ts[..|ts| - 1]))
  }

  /** The tensors at one offset, in order. */
  function AtOffset(ts: seq<Tensor>, offset: nat): seq<Tensor> {
    if ts == [] then []
    else AtOffset(ts[..|ts| - 1], offset) + Only(ts[|ts| - 1], offset)
  }

  function Only(t: Tensor, offset: nat): seq<Tensor> { if t.offset == offset then [t] else [] }

  lemma AtOffsetAppend(ts: seq<Tensor>, t: Tensor, offset: nat)
    ensures AtOffset(ts + [t], offset) == AtOffset(ts, offset) + Only(t, offset)
  {
    assert (ts + [t])[..|ts|] == ts;
  }

  lemma {:induction false} InsertIsStable(t: Tensor, ts: seq<Tensor>, offset: nat)
    requires Sorted(ts)
    ensures AtOffset(Insert(t, ts), offset) == AtOffset(ts, offset) + Only(t, offset)
  {
    AtOffsetAppend(ts, t, offset);
    if ts != [] && t.offset < ts[|ts| - 1].offset {
      var init, last := ts[..|ts| - 1], ts[|ts| - 1];
      InsertIsStable(t, init, offset);
      AtOffsetAppend(Insert(t, init), last, offset);
      Commute(AtOffset(init, offset), t, last, offset);
    }
  }

  lemma Commute(before: seq<Tensor>, t: Tensor, last: Tensor, offset: nat)
    requires t.offset != last.offset
    ensures before + Only(t, offset) + Only(last, offset) == before + Only(last, offset) + Only(t, offset)
  {
  }

  /** Sorting by offset keeps the order of tensors with the same offset. */
  lemma {:induction false} ByOffsetIsStable(ts: seq<Tensor>, offset: nat)
    ensures AtOffset(ByOffset(ts), offset) == AtOffset(ts, offset)
  {
    if ts != [] {
      ByOffsetIsStable(ts[..|ts| - 1], offset);
      InsertIsStable(ts[|ts| - 1], ByOffset(ts[..|ts| - 1]), offset);
    }
  }

  /** The space up to the next tensor, or for the last one up to the end of the data when that is known. */
  function Gap(ts: seq<Tensor>, i: nat, dataBytes: Option<int>): Option<int>
    requires i < |ts|
  {
    if i + 1 < |ts| then Some(ts[i + 1].offset - ts[i].offset)
    else if dataBytes.Some? then Some(dataBytes.value - ts[i].offset)
    else None
  }

  /** The size that is counted for a tensor: its own, or the gap for a tensor of unknown size. */
  function Counted(ts: seq<Tensor>, i: nat, dataBytes: Option<int>): nat
    requires i < |ts|
  {
    var gap := Gap(ts, i, dataBytes);
    if ts[i].bytes.Some? then ts[i].bytes.value else if gap.Some? && gap.value >= 0 then gap.value else 0
  }

  /** A known size that runs into the next tensor. */
  predicate Overruns(ts: seq<Tensor>, i: nat)
    requires i < |ts|
  {
    i + 1 < |ts| && ts[i].bytes.Some? && ts[i].bytes.value > ts[i + 1].offset - ts[i].offset
  }

  /** Each tensor ends before every later one begins. */
  ghost predicate InOrder(ts: seq<Tensor>, dataBytes: Option<int>) {
    forall i, j | 0 <= i < j < |ts| :: ts[i].offset + Counted(ts, i, dataBytes) <= ts[j].offset
  }

  datatype Summary = Summary(tensorBytes: nat, byType: map<TypeId, nat>, dataEnd: nat, unknownTypes: set<TypeId>,
                             unknown: nat, unbounded: nat, mismatched: nat)

  const NOTHING := Summary(0, map[], 0, {}, 0, 0, 0)

  /** The account after one more tensor. */
  function Tally(s: Summary, ts: seq<Tensor>, i: nat, dataBytes: Option<int>): Summary
    requires i < |ts|
  {
    var t, size, gap := ts[i], Counted(ts, i, dataBytes), Gap(ts, i, dataBytes);
    var sofar := if t.typeId in s.byType then s.byType[t.typeId] else 0;
    s.(tensorBytes := s.tensorBytes + size,
       byType := s.byType[t.typeId := sofar + size],
       dataEnd := if t.offset + size > s.dataEnd then t.offset + size else s.dataEnd,
       unknownTypes := if t.bytes.None? then s.unknownTypes + {t.typeId} else s.unknownTypes,
       unknown := if t.bytes.None? then s.unknown + 1 else s.unknown,
       unbounded := if t.bytes.None? && (gap.None? || gap.value < 0) then s.unbounded + 1 else s.unbounded,
       mismatched := if Overruns(ts, i) then s.mismatched + 1 else s.mismatched)
  }

  function Account(ts: seq<Tensor>, n: nat, dataBytes: Option<int>): Summary
    requires n <= |ts|
  {
    if n == 0 then NOTHING else Tally(Account(ts, n - 1, dataBytes), ts, n - 1, dataBytes)
  }

  // ----- what the account says

  /** The sum of a map's values at the keys below `n`. */
  function TotalBelow(m: map<TypeId, nat>, n: nat): nat {
    if n == 0 then 0 else TotalBelow(m, n - 1) + (if n - 1 < TYPE_IDS && n - 1 in m then m[n - 1] else 0)
  }

  /** The sum of a map's values. */
  function Total(m: map<TypeId, nat>): nat { TotalBelow(m, TYPE_IDS) }

  lemma {:induction false} TotalAfter(m: map<TypeId, nat>, k: TypeId, size: nat, n: nat)
    ensures TotalBelow(m[k := (if k in m then m[k] else 0) + size], n) == TotalBelow(m, n) + if k < n then size else 0
  {
    if n > 0 {
      TotalAfter(m, k, size, n - 1);
    }
  }

  lemma {:induction false} EmptyTotal(n: nat)
    ensures TotalBelow(map[], n) == 0
  {
    if n > 0 {
      EmptyTotal(n - 1);
    }
  }

  lemma TallyAdds(s: Summary, ts: seq<Tensor>, i: nat, dataBytes: Option<int>)
    requires i < |ts|
    ensures Total(Tally(s, ts, i, dataBytes).byType) == Total(s.byType) + Counted(ts, i, dataBytes)
  {
    TotalAfter(s.byType, ts[i].typeId, Counted(ts, i, dataBytes), TYPE_IDS);
  }

  /** The sizes by type add up to the tensor bytes. */
  lemma {:induction false} TypesAddUp(ts: seq<Tensor>, n: nat, dataBytes: Option<int>)
    requires n <= |ts|
    ensures Total(Account(ts, n, dataBytes).byType) == Account(ts, n, dataBytes).tensorBytes
  {
    if n == 0 {
      EmptyTotal(TYPE_IDS);
    } else {
      TypesAddUp(ts, n - 1, dataBytes);
      TallyAdds(Account(ts, n - 1, dataBytes), ts, n - 1, dataBytes);
    }
  }

  lemma {:induction false} NoMismatchIff(ts: seq<Tensor>, n: nat, dataBytes: Option<int>)
    requires n <= |ts|
    ensures Account(ts, n, dataBytes).mismatched == 0 <==> forall i | 0 <= i < n :: !Overruns(ts, i)
  {
    if n > 0 {
      NoMismatchIff(ts, n - 1, dataBytes);
    }
  }

  /** No size mismatch is counted exactly when every tensor ends before every later one begins. */
  lemma MismatchesIffOverlap(ts: seq<Tensor>, dataBytes: Option<int>)
    requires Sorted(ts)
    ensures Account(ts, |ts|, dataBytes).mismatched == 0 <==> InOrder(ts, dataBytes)
  {
    NoMismatchIff(ts, |ts|, dataBytes);
    if forall i | 0 <= i < |ts| :: !Overruns(ts, i) {
      forall i, j | 0 <= i < j < |ts| ensures ts[i].offset + Counted(ts, i, dataBytes) <= ts[j].offset {
        assert !Overruns(ts, i) && ts[i + 1].offset <= ts[j].offset;
      }
    } else {
      var i :| 0 <= i < |ts| && Overruns(ts, i);
      assert ts[i].offset + Counted(ts, i, dataBytes) > ts[i + 1].offset;
    }
  }

  /** Without a mismatch the tensors fit side by side below the end of the data. */
  lemma {:induction false} BytesFit(ts: seq<Tensor>, n: nat, dataBytes: Option<int>)
    requires n <= |ts| && InOrder(ts, dataBytes)
    ensures var s := Account(ts, n, dataBytes);
      && s.tensorBytes <= s.dataEnd
      && (n > 0 ==> s.dataEnd == ts[n - 1].offset + Counted(ts, n - 1, dataBytes))
  {
    if n > 0 {
      BytesFit(ts, n - 1, dataBytes);
      if n > 1 {
        assert ts[n - 2].offset + Counted(ts, n - 2, dataBytes) <= ts[n - 1].offset;
      }
    }
  }

  /** The end of the data is where the last counted byte lies, whatever the order. */
  lemma {:induction false} DataEndIsLast(ts: seq<Tensor>, n: nat, dataBytes: Option<int>)
    requires n <= |ts|
    ensures var s := Account(ts, n, dataBytes);
      && (forall i | 0 <= i < n :: ts[i].offset + Counted(ts, i, dataBytes) <= s.dataEnd)
      && (if n == 0 then s.dataEnd == 0 else exists i | 0 <= i < n ::
        ts[i].offset + Counted(ts, i, dataBytes) == s.dataEnd)
  {
    if n > 0 {
      DataEndIsLast(ts, n - 1, dataBytes);
      var s, before := Account(ts, n, dataBytes), Account(ts, n - 1, dataBytes);
      if s.dataEnd != ts[n - 1].offset + Counted(ts, n - 1, dataBytes) {
        if n == 1 { assert false; }
        var i :| 0 <= i < n - 1 && ts[i].offset + Counted(ts, i, dataBytes) == before.dataEnd;
        assert ts[i].offset + Counted(ts, i, dataBytes) == s.dataEnd;
      }
    }
  }

  function AlignUp(value: nat, alignment: nat): (r: nat)
    requires alignment > 0
    ensures r % alignment == 0 && value <= r < value + alignment
  {
    var blocks := (value + alignment - 1) / alignment;
    Quotient(alignment, alignment * blocks, blocks);
    alignment * blocks
  }

  datatype Weights = Weights(exact: bool, totalBytes: nat, summary: Summary, payloadShort: bool)

  /** What the file holds after the header, when its size is known. */
  function DataBytes(headerBytes: nat, fileBytes: Option<nat>): Option<int> {
    if fileBytes.None? then None else Some(fileBytes.value - headerBytes)
  }

  function WeightsOf(tensors: seq<Tensor>, headerBytes: nat, fileBytes: Option<nat>, alignment: nat): Weights
    requires alignment > 0
  {
    var ts, dataBytes := ByOffset(tensors), DataBytes(headerBytes, fileBytes);
    var summary := Account(ts, |ts|, dataBytes);
    Weights(summary.unknown == 0 && summary.mismatched == 0, headerBytes + AlignUp(summary.dataEnd, alignment), summary,
            dataBytes.Some? && summary.dataEnd > dataBytes.value)
  }

  /** The weights mean what they say: sums, exactness, alignment and whether the file is short. */
  ghost predicate Accounts(w: Weights, tensors: seq<Tensor>, headerBytes: nat, fileBytes: Option<nat>, alignment: nat)
    requires alignment > 0
  {
    var ts, dataBytes := ByOffset(tensors), DataBytes(headerBytes, fileBytes);
    && Total(w.summary.byType) == w.summary.tensorBytes
    && (w.summary.mismatched == 0 <==> InOrder(ts, dataBytes))
    && (w.summary.mismatched == 0 ==> w.summary.tensorBytes <= w.summary.dataEnd)
    && w.totalBytes == headerBytes + AlignUp(w.summary.dataEnd, alignment)
    && (w.exact <==> InOrder(ts, dataBytes) && w.summary.unknown == 0)
    && (w.payloadShort <==> dataBytes.Some? && w.summary.dataEnd > dataBytes.value)
  }

  lemma WeightsAccount(tensors: seq<Tensor>, headerBytes: nat, fileBytes: Option<nat>, alignment: nat)
    requires alignment > 0
    ensures Accounts(WeightsOf(tensors, headerBytes, fileBytes, alignment), tensors, headerBytes, fileBytes, alignment)
  {
    var ts, dataBytes := ByOffset(tensors), DataBytes(headerBytes, fileBytes);
    TypesAddUp(ts, |ts|, dataBytes);
    MismatchesIffOverlap(ts, dataBytes);
    if InOrder(ts, dataBytes) {
      BytesFit(ts, |ts|, dataBytes);
    }
  }

  /**
   The account of a file's tensors, with what it means: by type it adds up; no
   mismatch means that the tensors lie side by side, in at most the bytes up to
   the end of the data; the file is short exactly when a counted byte lies past its end.
   */
  method SummarizeTensorBytes(tensors: seq<Tensor>, headerBytes: nat, fileBytes: Option<nat>, alignment: nat)
    returns (w: Weights)
    requires alignment > 0
    ensures w == WeightsOf(tensors, headerBytes, fileBytes, alignment)
    ensures Accounts(w, tensors, headerBytes, fileBytes, alignment)
  {
    var ordered, dataBytes := ByOffset(tensors), DataBytes(headerBytes, fileBytes);
    var summary := AccountFor(ordered, dataBytes);
    w := Weights(summary.unknown == 0 && summary.mismatched == 0,
                 headerBytes + AlignUp(summary.dataEnd, alignment),
                 summary,
                 dataBytes.Some? && summary.dataEnd > dataBytes.value);
    WeightsAccount(tensors, headerBytes, fileBytes, alignment);
  }

  method AccountFor(ordered: seq<Tensor>, dataBytes: Option<int>) returns (summary: Summary)
    ensures summary == Account(ordered, |ordered|, dataBytes)
  {
    summary := NOTHING;
    for position := 0 to |ordered|
      invariant summary == Account(ordered, position, dataBytes)
    {
      summary := AddTensor(summary, ordered, position, dataBytes);
    }
  }

  method AddTensor(before: Summary, ordered: seq<Tensor>, position: nat, dataBytes: Option<int>)
    returns (summary: Summary)
    requires position < |ordered|
    ensures summary == Tally(before, ordered, position, dataBytes)
  {
    summary := before;
    var tensor, gap := ordered[position], Gap(ordered, position, dataBytes);
    var bytes: nat := 0;
    if tensor.bytes.None? {
      summary := summary.(unknown := summary.unknown + 1, unknownTypes := summary.unknownTypes + {tensor.typeId});
      if gap.Some? && gap.value >= 0 {
        bytes := gap.value;
      } else {
        summary := summary.(unbounded := summary.unbounded + 1);
      }
    } else {
      bytes := tensor.bytes.value;
      if position + 1 < |ordered| && bytes > gap.value {
        summary := summary.(mismatched := summary.mismatched + 1);
      }
    }
    var sofar := if tensor.typeId in summary.byType then summary.byType[tensor.typeId] else 0;
    summary := summary.(byType := summary.byType[tensor.typeId := sofar + bytes],
                        tensorBytes := summary.tensorBytes + bytes,
                        dataEnd := if tensor.offset + bytes > summary.dataEnd then tensor.offset + bytes
                          else summary.dataEnd);
  }

  // ----- the account of a parsed header

  const DEFAULT_ALIGNMENT: nat := 32

  /** One more than the largest number that `n` bytes spell. */
  function Span(n: nat): nat { if n == 0 then 1 else 256 * Span(n - 1) }

  lemma {:induction false} NumberBelowSpan(bytes: seq<Byte>, littleEndian: bool)
    ensures Number(bytes, littleEndian) < Span(|bytes|)
  {
    if bytes != [] {
      NumberBelowSpan(bytes[1..], littleEndian);
      NumberBelowSpan(bytes[..|bytes| - 1], littleEndian);
    }
  }

  /** The tensor info says where the tensor lies, with a type id of 32 bits. */
  predicate Placed(info: TensorInfo) { info.offset.Some? && info.typeId < TYPE_IDS }

  lemma PlaceIsPlaced(w: Window, pos: nat)
    ensures var place := ReadPlace(w, pos, true); place.Ok? ==> place.value.0 < TYPE_IDS && place.value.1.Some?
  {
    var bytes := Take(w, pos, 4);
    if bytes.Ok? {
      NumberBelowSpan(bytes.value, w.littleEndian);
      assert Span(4) == TYPE_IDS;
    }
  }

  lemma TensorIsPlaced(names: Names, w: Window, pos: nat)
    ensures var tensor := ReadTensor(names, w, pos, true); tensor.Ok? ==> Placed(tensor.value)
  {
    var name := ReadTensorName(names, w, pos, true);
    if name.Ok? {
      var dims := ReadShape(w, name.pos);
      if dims.Ok? {
        PlaceIsPlaced(w, dims.pos);
      }
    }
  }

  lemma {:induction false} ManyHold<T>(read: nat -> Outcome<T>, good: T -> bool, limit: nat, pos: nat, count: nat,
                                       before: seq<T>)
    requires forall p: nat :: read(p).Ok? ==> p < read(p).pos <= limit
    requires forall p: nat :: read(p).Ok? ==> good(read(p).value)
    requires pos <= limit && All(good, before)
    ensures var all := ReadMany(read, limit, pos, count, before); all.Ok? ==> All(good, all.value)
    decreases count
  {
    if count > 0 && read(pos).Ok? {
      ManyHold(read, good, limit, read(pos).pos, count - 1, before + [read(pos).value]);
    }
  }

  predicate AllPlaced(infos: seq<TensorInfo>) {
    forall i | 0 <= i < |infos| :: Placed(infos[i])
  }

  lemma TensorsArePlaced(names: Names, w: Window, pos: nat, count: nat)
    requires pos <= |w.bytes|
    ensures var tensors := ReadTensors(names, w, pos, count, true); tensors.Ok? ==>
      AllPlaced(tensors.value) && |tensors.value| == count
  {
    var read := TensorReader(names, w, true);
    forall p: nat | read(p).Ok? ensures Placed(read(p).value) {
      TensorIsPlaced(names, w, p);
    }
    ManyHold(read, info => Placed(info), |w.bytes|, pos, count, []);
  }

  /** The widened read places every tensor that the header counts. */
  lemma HeaderIsPlaced(names: Names, w: Window)
    requires ParseHeader(names, w, true).Ok?
    ensures var header := ParseHeader(names, w, true).value;
      AllPlaced(header.tensors) && |header.tensors| == header.tensorCount
  {
    var magic := Take(w, 0, 4);
    var ordered := w.(littleEndian := ByteOrder(magic.value).value);
    var counts := ReadCounts(ordered, magic.pos);
    var pairs := ReadPairs(names, ordered, counts.pos, counts.value.metadata, true);
    TensorsArePlaced(names, ordered, pairs.pos, counts.value.tensors);
  }

  function TensorsOf(infos: seq<TensorInfo>): (r: seq<Tensor>)
    requires AllPlaced(infos)
    ensures |r| == |infos| && forall i | 0 <= i < |infos| :: r[i] == TensorOf(infos[i])
  {
    seq(|infos|, i requires 0 <= i < |infos| => TensorOf(infos[i]))
  }

  /** The value of a key: its last one. */
  function ValueOf(pairs: seq<Pair>, key: string): Option<Value> {
    if pairs == [] then None
    else if pairs[|pairs| - 1].key == key then pairs[|pairs| - 1].value
    else ValueOf(pairs[..|pairs| - 1], key)
  }

  /** `numberOf` tells which values convert to a safe integer that is not negative. */
  function Alignment(pairs: seq<Pair>, numberOf: Value -> Option<nat>): (alignment: nat)
    ensures alignment > 0
  {
    var value := ValueOf(pairs, "general.alignment");
    var number := if value.None? then None else numberOf(value.value);
    if number.Some? && number.value > 0 then number.value else DEFAULT_ALIGNMENT
  }

  /** Where the tensor data begins, after a header that ends at `end`. */
  function HeaderBytes(header: Header, end: nat, numberOf: Value -> Option<nat>): nat {
    AlignUp(end, Alignment(header.pairs, numberOf))
  }

  /** The weights that a widened read reports. */
  function HeaderWeights(header: Header, end: nat, fileBytes: Option<nat>, numberOf: Value -> Option<nat>): Weights
    requires AllPlaced(header.tensors)
  {
    WeightsOf(TensorsOf(header.tensors), HeaderBytes(header, end, numberOf), fileBytes,
      Alignment(header.pairs, numberOf))
  }

  /** A header that was parsed is accounted for, each tensor that it counts, on an aligned total. */
  method WeighHeader(names: Names, w: Window, fileBytes: Option<nat>, numberOf: Value -> Option<nat>)
    returns (weights: Outcome<Weights>)
    ensures weights.Ok? <==> ParseHeader(names, w, true).Ok?
    ensures weights.Ok? ==>
      var parsed := ParseHeader(names, w, true);
      && AllPlaced(parsed.value.tensors) && |parsed.value.tensors| == parsed.value.tensorCount
      && weights.value == HeaderWeights(parsed.value, parsed.pos, fileBytes, numberOf)
      && Accounts(weights.value, TensorsOf(parsed.value.tensors), HeaderBytes(parsed.value, parsed.pos, numberOf),
        fileBytes,
                  Alignment(parsed.value.pairs, numberOf))
  {
    var parsed := ParseHeader(names, w, true);
    match parsed
    case NeedMore(required) => weights := NeedMore(required);
    case Fail => weights := Fail;
    case Ok(header, end) =>
      HeaderIsPlaced(names, w);
      var summed := SummarizeTensorBytes(TensorsOf(header.tensors), HeaderBytes(header, end, numberOf), fileBytes,
                                         Alignment(header.pairs, numberOf));
      weights := Ok(summed, end);
  }

  /** The total is aligned and lies past the header. */
  lemma TotalIsAligned(header: Header, end: nat, fileBytes: Option<nat>, numberOf: Value -> Option<nat>)
    requires AllPlaced(header.tensors)
    ensures var total := HeaderWeights(header, end, fileBytes, numberOf).totalBytes;
      total % Alignment(header.pairs, numberOf) == 0 && end <= total
  {
    var w, alignment := HeaderWeights(header, end, fileBytes, numberOf), Alignment(header.pairs, numberOf);
    SumOfMultiples(HeaderBytes(header, end, numberOf), AlignUp(w.summary.dataEnd, alignment), alignment);
  }

  lemma SumOfMultiples(a: nat, b: nat, d: nat)
    requires d > 0 && a % d == 0 && b % d == 0
    ensures (a + b) % d == 0
  {
    var x, y := a / d, b / d;
    assert a + b == d * (x + y);
    Quotient(d, a + b, x + y);
  }

  /** The weights of a header parsed from the first bytes of a file are those of the file. */
  lemma PrefixWeighsAsFile(names: Names, v: Window, w: Window, fileBytes: Option<nat>, numberOf: Value -> Option<nat>)
    requires Extension(v, w) && ParseHeader(names, v, true).Ok?
    ensures var a, b := ParseHeader(names, v, true), ParseHeader(names, w, true);
      && b.Ok? && AllPlaced(a.value.tensors) && AllPlaced(b.value.tensors)
      && HeaderWeights(a.value, a.pos, fileBytes, numberOf) == HeaderWeights(b.value, b.pos, fileBytes, numberOf)
  {
    PrefixForetells(names, v, w, true);
    HeaderIsPlaced(names, v);
  }
}
