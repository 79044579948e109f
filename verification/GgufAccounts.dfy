/** What the account of a file's tensors says, tensor by tensor and type by type. */
module GgufAccounts {
  import opened Wrappers
  import opened GgufValues
  import opened GgufHeader
  import opened GgufReports
  import opened GgufTensors

  // ----- sizes

  /** A tensor of unknown size reaches to the next one, and the last one to the end of the data, if that is known. */
  predicate Takes(ts: seq<Tensor>, i: nat, dataBytes: Option<int>, size: nat)
    requires i < |ts|
  {
    match ts[i].bytes
    case Some(bytes) => size == bytes
    case None =>
      if i + 1 < |ts| then ts[i].offset + size == ts[i + 1].offset
      else if dataBytes.Some? && ts[i].offset <= dataBytes.value then ts[i].offset + size == dataBytes.value
      else size == 0
  }

  lemma CountsWhatItTakes(ts: seq<Tensor>, i: nat, dataBytes: Option<int>)
    requires Sorted(ts) && i < |ts|
    ensures Takes(ts, i, dataBytes, Counted(ts, i, dataBytes))
  {
  }

  /** What the first `n` tensors take, of all types or of one. */
  function Taken(ts: seq<Tensor>, n: nat, dataBytes: Option<int>, of: TypeId -> bool): nat
    requires n <= |ts|
  {
    if n == 0 then 0
    else Taken(ts, n - 1, dataBytes, of) + if of(ts[n - 1].typeId) then Counted(ts, n - 1, dataBytes) else 0
  }

  function Any(): TypeId -> bool { (t: TypeId) => true }

  function OfType(typeId: TypeId): TypeId -> bool { (t: TypeId) => t == typeId }

  /** The total is what all tensors take, and the entry of a type what its own take; types without tensors have none. */
  lemma {:induction false} BytesOfTypes(ts: seq<Tensor>, n: nat, dataBytes: Option<int>, typeId: TypeId)
    requires n <= |ts|
    ensures var s := Account(ts, n, dataBytes);
      && s.tensorBytes == Taken(ts, n, dataBytes, Any())
      && (typeId in s.byType <==> exists i :: 0 <= i < n && ts[i].typeId == typeId)
      && (typeId in s.byType ==> s.byType[typeId] == Taken(ts, n, dataBytes, OfType(typeId)))
      && (typeId !in s.byType ==> Taken(ts, n, dataBytes, OfType(typeId)) == 0)
  {
    if n > 0 {
      BytesOfTypes(ts, n - 1, dataBytes, typeId);
      assert ts[n - 1].typeId == typeId <==> OfType(typeId)(ts[n - 1].typeId);
    }
  }

  // ----- counts

  function Positions(ts: seq<Tensor>, n: nat, p: Tensor -> bool): set<nat>
    requires n <= |ts|
  {
    set i: nat | i < n && p(ts[i])
  }

  lemma {:induction false} PositionsNext(ts: seq<Tensor>, n: nat, p: Tensor -> bool)
    requires n < |ts|
    ensures |Positions(ts, n + 1, p)| == |Positions(ts, n, p)| + if p(ts[n]) then 1 else 0
  {
    if p(ts[n]) {
      assert Positions(ts, n + 1, p) == Positions(ts, n, p) + {n};
    } else {
      assert Positions(ts, n + 1, p) == Positions(ts, n, p);
    }
  }

  function Unsized(): Tensor -> bool { (t: Tensor) => t.bytes.None? }

  /** As many tensors are unknown as have no size, and their types are listed. */
  lemma {:induction false} UnknownAreUnsized(ts: seq<Tensor>, n: nat, dataBytes: Option<int>, typeId: TypeId)
    requires n <= |ts|
    ensures var s := Account(ts, n, dataBytes);
      && s.unknown == |Positions(ts, n, Unsized())|
      && (typeId in s.unknownTypes <==> exists i :: 0 <= i < n && ts[i].typeId == typeId && ts[i].bytes.None?)
  {
    if n > 0 {
      UnknownAreUnsized(ts, n - 1, dataBytes, typeId);
      PositionsNext(ts, n - 1, Unsized());
    }
  }

  /** Only the last tensor can be unbounded: when it has no size and the end of the data is unknown or before it. */
  lemma {:induction false} OnlyLastIsUnbounded(ts: seq<Tensor>, n: nat, dataBytes: Option<int>)
    requires Sorted(ts) && n <= |ts|
    ensures Account(ts, n, dataBytes).unbounded ==
            if 0 < n == |ts| && ts[n - 1].bytes.None?
               && (dataBytes.None? || dataBytes.value < ts[n - 1].offset) then 1 else 0
  {
    if n > 0 {
      OnlyLastIsUnbounded(ts, n - 1, dataBytes);
    }
  }

  function RunningInto(ts: seq<Tensor>, n: nat): set<nat>
    requires n <= |ts|
  {
    set i: nat | i < n && RunsInto(ts, i)
  }

  predicate RunsInto(ts: seq<Tensor>, i: nat)
    requires i < |ts|
  {
    i + 1 < |ts| && ts[i].bytes.Some? && ts[i].offset + ts[i].bytes.value > ts[i + 1].offset
  }

  lemma RunningNext(ts: seq<Tensor>, n: nat)
    requires n < |ts|
    ensures |RunningInto(ts, n + 1)| == |RunningInto(ts, n)| + if RunsInto(ts, n) then 1 else 0
  {
    if RunsInto(ts, n) {
      assert RunningInto(ts, n + 1) == RunningInto(ts, n) + {n};
    } else {
      assert RunningInto(ts, n + 1) == RunningInto(ts, n);
    }
  }

  /** As many sizes are mismatched as run into the next tensor. */
  lemma {:induction false} MismatchedRunInto(ts: seq<Tensor>, n: nat, dataBytes: Option<int>)
    requires n <= |ts|
    ensures Account(ts, n, dataBytes).mismatched == |RunningInto(ts, n)|
  {
    if n > 0 {
      MismatchedRunInto(ts, n - 1, dataBytes);
      RunningNext(ts, n - 1);
    }
  }

  // ----- the account of a header

  predicate InsideDouble(n: nat) { n < 0x20_0000_0000_0000 }

  /** The rows are whole blocks, and elements and bytes can be counted in a double. */
  predicate Blocked(dims: seq<nat>, elems: nat, bytes: nat)
    requires elems > 0
  {
    && (if dims == [] then 1 else dims[0]) % elems == 0
    && InsideDouble(Elements(dims)) && InsideDouble(Elements(dims) / elems * bytes)
  }

  /** A tensor has its offset and type, and a size exactly when its type has blocks, of which its rows are made. */
  lemma TensorSays(info: TensorInfo)
    requires Placed(info)
    ensures var t, shape := TensorOf(info), BlockShape(info.typeId);
      && Some(t.offset) == info.offset && t.typeId == info.typeId
      && if shape.Some? && Blocked(info.dims, shape.value.0, shape.value.1)
         then t.bytes == Some(Elements(info.dims) / shape.value.0 * shape.value.1)
         else t.bytes == None
  {
    ProductIsElements(info.dims);
  }

  /** The pair at `i` is the last one of the key. */
  predicate LastOf(pairs: seq<Pair>, key: string, i: nat) {
    i < |pairs| && pairs[i].key == key && forall j | i < j < |pairs| :: pairs[j].key != key
  }

  predicate NoneOf(pairs: seq<Pair>, key: string) {
    forall i | 0 <= i < |pairs| :: pairs[i].key != key
  }

  lemma {:induction false} ValueIsLast(pairs: seq<Pair>, key: string)
    ensures forall i: nat | LastOf(pairs, key, i) :: ValueOf(pairs, key) == pairs[i].value
    ensures NoneOf(pairs, key) ==> ValueOf(pairs, key) == None
  {
    if pairs != [] {
      var n := |pairs| - 1;
      ValueIsLast(pairs[..n], key);
      forall i: nat | LastOf(pairs, key, i) ensures ValueOf(pairs, key) == pairs[i].value {
        if i < n {
          assert LastOf(pairs[..n], key, i);
        }
      }
    }
  }

  /** The alignment is the last `general.alignment`, if that is a positive whole number, and 32 otherwise. */
  lemma {:induction false} AlignmentIsLast(pairs: seq<Pair>, numberOf: Value -> Option<nat>, i: nat)
    requires LastOf(pairs, "general.alignment", i) || (i == |pairs| && NoneOf(pairs, "general.alignment"))
    ensures var number :=
      if i < |pairs| && pairs[i].value.Some? then numberOf(pairs[i].value.value) else None;
      Alignment(pairs, numberOf) == if number.Some? && number.value > 0 then number.value else 32
  {
    ValueIsLast(pairs, "general.alignment");
  }

  /**
   The data begin at the first multiple of the alignment behind the header, the
   total is what the file has up to the aligned end of the last tensor, and the
   file is short exactly when a tensor ends past it.
   */
  lemma HeaderIsLaidOut(header: Header, end: nat, fileBytes: Option<nat>, numberOf: Value -> Option<nat>)
    requires AllPlaced(header.tensors)
    ensures var w, alignment := HeaderWeights(header, end, fileBytes, numberOf), Alignment(header.pairs, numberOf);
      var start := HeaderBytes(header, end, numberOf);
      && start % alignment == 0 && end <= start < end + alignment
      && w.totalBytes % alignment == 0
      && start + w.summary.dataEnd <= w.totalBytes < start + w.summary.dataEnd + alignment
      && (w.payloadShort <==> fileBytes.Some? && start + w.summary.dataEnd > fileBytes.value)
  {
    TotalIsAligned(header, end, fileBytes, numberOf);
  }
}
