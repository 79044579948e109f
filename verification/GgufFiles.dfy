/**
 GGUF headers as they are written, and what a read reports of them: a window is
 accepted exactly when it begins with a well-formed header, in either byte order,
 and the report is what was written.
 */
module GgufFiles {
  import opened Wrappers
  import opened GgufValues
  import opened GgufHeader
  import opened GgufSpelling
  import opened GgufLists
  import opened GgufContents

  datatype StoredPair = StoredPair(key: seq<Byte>, value: Stored)

  datatype StoredTensor = StoredTensor(name: seq<Byte>, dims: seq<nat>, typeId: nat, offset: nat)

  datatype File = File(version: nat, pairs: seq<StoredPair>, tensors: seq<StoredTensor>)

  // ----- well-formed headers

  /** A read captures the value of a pair, or skips it because only a narrow read of whitelisted keys was asked for. */
  predicate Captures(names: Names, widened: bool, pair: StoredPair) {
    widened || names.whitelisted(names.decode(pair.key))
  }

  predicate GoodPair(names: Names, widened: bool, pair: StoredPair) {
    && |pair.key| <= 16384 && names.decode(pair.key) != ""
    && WellTyped(pair.value)
    && if Captures(names, widened, pair) then Capturable(pair.value) else Skippable(pair.value)
  }

  /** A narrow read takes any name, and an offset that a double cannot hold. */
  predicate GoodTensor(widened: bool, tensor: StoredTensor) {
    && |tensor.dims| <= 8 && (forall i | 0 <= i < |tensor.dims| :: tensor.dims[i] <= MAX_SAFE_INTEGER)
    && tensor.typeId < 0x1_0000_0000 && tensor.offset < 0x1_0000_0000_0000_0000
    && (widened ==> |tensor.name| <= 4096 && tensor.offset <= MAX_SAFE_INTEGER)
  }

  predicate GoodFile(names: Names, widened: bool, file: File) {
    && 1 <= file.version <= 3
    && All(GoodPairs(names, widened), file.pairs)
    && All(GoodTensors(widened), file.tensors)
  }

  function GoodPairs(names: Names, widened: bool): StoredPair -> bool {
    pair => GoodPair(names, widened, pair)
  }

  function GoodTensors(widened: bool): StoredTensor -> bool {
    tensor => GoodTensor(widened, tensor)
  }

  /** `GGUF` announces little-endian numbers and `FUGG` big-endian ones; the high bit of each byte does not matter. */
  predicate Announces(magic: seq<Byte>, littleEndian: bool) {
    && |magic| == 4
    && magic[0] % 128 == (if littleEndian then 'G' else 'F') as nat
    && magic[1] % 128 == (if littleEndian then 'G' else 'U') as nat
    && magic[2] % 128 == (if littleEndian then 'U' else 'G') as nat
    && magic[3] % 128 == (if littleEndian then 'F' else 'G') as nat
  }

  // ----- bytes

  function WrittenPair(pair: StoredPair, littleEndian: bool): seq<Byte> {
    Written(Chars(pair.key), littleEndian)
    + (Spelled(KindOf(pair.value), 4, littleEndian) + Written(pair.value, littleEndian))
  }

  function CountWriter(littleEndian: bool): nat -> seq<Byte> {
    (n: nat) => Spelled(n, 8, littleEndian)
  }

  function WrittenShape(dims: seq<nat>, littleEndian: bool): seq<Byte> {
    Spelled(|dims|, 4, littleEndian) + Joined(CountWriter(littleEndian), dims)
  }

  function WrittenPlace(typeId: nat, offset: nat, littleEndian: bool): seq<Byte> {
    Spelled(typeId, 4, littleEndian) + Spelled(offset, 8, littleEndian)
  }

  function WrittenTensor(tensor: StoredTensor, littleEndian: bool): seq<Byte> {
    Written(Chars(tensor.name), littleEndian)
    + (WrittenShape(tensor.dims, littleEndian) + WrittenPlace(tensor.typeId, tensor.offset, littleEndian))
  }

  function PairWriter(littleEndian: bool): StoredPair -> seq<Byte> {
    pair => WrittenPair(pair, littleEndian)
  }

  function TensorWriter(littleEndian: bool): StoredTensor -> seq<Byte> {
    tensor => WrittenTensor(tensor, littleEndian)
  }

  function WrittenCounts(file: File, littleEndian: bool): seq<Byte> {
    Spelled(file.version, 4, littleEndian)
    + (Spelled(|file.tensors|, 8, littleEndian) + Spelled(|file.pairs|, 8, littleEndian))
  }

  function WrittenLists(file: File, littleEndian: bool): seq<Byte> {
    Joined(PairWriter(littleEndian), file.pairs) + Joined(TensorWriter(littleEndian), file.tensors)
  }

  /** Everything behind the magic. */
  function WrittenFile(file: File, littleEndian: bool): seq<Byte> {
    WrittenCounts(file, littleEndian) + WrittenLists(file, littleEndian)
  }

  // ----- reports

  function KeptPair(names: Names, widened: bool, littleEndian: bool, pair: StoredPair): Pair {
    Pair(names.decode(pair.key),
         if Captures(names, widened, pair) then Some(Kept(pair.value, littleEndian, widened)) else None)
  }

  function KeptTensor(names: Names, widened: bool, tensor: StoredTensor): TensorInfo {
    TensorInfo(if widened then Some(names.decode(tensor.name)) else None, tensor.typeId, tensor.dims,
               if tensor.offset <= MAX_SAFE_INTEGER then Some(tensor.offset) else None)
  }

  function PairKeeper(names: Names, widened: bool, littleEndian: bool): StoredPair -> Pair {
    pair => KeptPair(names, widened, littleEndian, pair)
  }

  function TensorKeeper(names: Names, widened: bool): StoredTensor -> TensorInfo {
    tensor => KeptTensor(names, widened, tensor)
  }

  /** The header that is reported of a file. */
  function KeptFile(names: Names, widened: bool, littleEndian: bool, file: File): Header {
    Header(file.version, |file.tensors|, |file.pairs|, Mapped(PairKeeper(names, widened, littleEndian), file.pairs),
           Mapped(TensorKeeper(names, widened), file.tensors))
  }

  // ----- pairs

  lemma StringAt(w: Window, pos: nat, text: seq<Byte>, limit: nat)
    requires |w.bytes| <= MAX_SAFE_INTEGER && At(w, pos, Written(Chars(text), w.littleEndian))
    ensures ReadString(w, pos, limit, false) == Ok(if |text| <= limit then Text(text) else Null, pos + 8 + |text|)
    ensures SkipString(w, pos) == Ok((), pos + 8 + |text|)
  {
    CharsAt(w, pos, text);
  }

  lemma KindIsSmall(s: Stored)
    requires WellTyped(s)
    ensures KindOf(s) < Place(4)
  {
    Places();
  }

  lemma PairPartsAt(w: Window, pos: nat, pair: StoredPair) returns (p1: nat, p2: nat)
    requires At(w, pos, WrittenPair(pair, w.littleEndian))
    ensures p1 == pos + 8 + |pair.key| && p2 == p1 + 4
    ensures At(w, pos, Written(Chars(pair.key), w.littleEndian))
    ensures At(w, p1, Spelled(KindOf(pair.value), 4, w.littleEndian)) && At(w, p2, Written(pair.value, w.littleEndian))
    ensures p2 + |Written(pair.value, w.littleEndian)| == pos + |WrittenPair(pair, w.littleEndian)|
  {
    p1, p2 := pos + 8 + |pair.key|, pos + 12 + |pair.key|;
    var kind, value := Spelled(KindOf(pair.value), 4, w.littleEndian), Written(pair.value, w.littleEndian);
    AtParts(w, pos, Written(Chars(pair.key), w.littleEndian), kind + value);
    AtParts(w, p1, kind, value);
  }

  lemma {:induction false} PairReadsBack(names: Names, w: Window, pos: nat, widened: bool, pair: StoredPair)
    requires |w.bytes| <= MAX_SAFE_INTEGER && GoodPair(names, widened, pair)
    requires At(w, pos, WrittenPair(pair, w.littleEndian))
    ensures ReadPair(names, w, pos, widened)
         == Ok(KeptPair(names, widened, w.littleEndian, pair), pos + |WrittenPair(pair, w.littleEndian)|)
  {
    var p1, p2 := PairPartsAt(w, pos, pair);
    KeyReadsBack(names, w, pos, pair.key);
    KindReadsBack(w, p1, pair.value);
    ValueReadsBack(names, w, p2, widened, pair);
    PairOfParts(names, w, pos, widened, names.decode(pair.key), p1, KindOf(pair.value), p2,
                KeptPair(names, widened, w.littleEndian, pair), pos + |WrittenPair(pair, w.littleEndian)|);
  }

  lemma PairOfParts(names: Names, w: Window, pos: nat, widened: bool, key: string, p1: nat, kind: nat, p2: nat,
                    pair: Pair, p3: nat)
    requires ReadKey(names, w, pos) == Ok(key, p1) && ReadUint(w, p1, 4) == Ok(kind, p2)
    requires ReadPairValue(names, w, p2, key, kind, widened) == Ok(pair, p3)
    ensures ReadPair(names, w, pos, widened) == Ok(pair, p3)
  {
  }

  lemma KindReadsBack(w: Window, pos: nat, value: Stored)
    requires |w.bytes| <= MAX_SAFE_INTEGER && WellTyped(value)
    requires At(w, pos, Spelled(KindOf(value), 4, w.littleEndian))
    ensures ReadUint(w, pos, 4) == Ok(KindOf(value), pos + 4)
  {
    KindIsSmall(value);
    ReadUintIff(w, pos, 4, KindOf(value));
  }

  lemma KeyReadsBack(names: Names, w: Window, pos: nat, key: seq<Byte>)
    requires |w.bytes| <= MAX_SAFE_INTEGER && |key| <= 16384 && names.decode(key) != ""
    requires At(w, pos, Written(Chars(key), w.littleEndian))
    ensures ReadKey(names, w, pos) == Ok(names.decode(key), pos + 8 + |key|)
  {
    StringAt(w, pos, key, MAX_KEY_BYTES);
  }

  lemma {:induction false} ValueReadsBack(names: Names, w: Window, pos: nat, widened: bool, pair: StoredPair)
    requires |w.bytes| <= MAX_SAFE_INTEGER && GoodPair(names, widened, pair)
    requires At(w, pos, Written(pair.value, w.littleEndian))
    ensures ReadPairValue(names, w, pos, names.decode(pair.key), KindOf(pair.value), widened)
         == Ok(KeptPair(names, widened, w.littleEndian, pair), pos + |Written(pair.value, w.littleEndian)|)
  {
    if Captures(names, widened, pair) {
      ReadsWritten(w, pos, pair.value, widened);
    } else {
      SkipsWritten(w, pos, pair.value);
    }
  }

  lemma StringIsAt(w: Window, pos: nat, limit: nat) returns (text: seq<Byte>)
    requires |w.bytes| <= MAX_SAFE_INTEGER && ReadString(w, pos, limit, false).Ok?
    ensures At(w, pos, Written(Chars(text), w.littleEndian))
    ensures ReadString(w, pos, limit, false) == Ok(if |text| <= limit then Text(text) else Null, pos + 8 + |text|)
  {
    assert SkipString(w, pos).Ok?;
    text := CharsIsAt(w, pos);
  }

  lemma {:induction false} PairIsWritten(names: Names, w: Window, pos: nat, widened: bool) returns (pair: StoredPair)
    requires |w.bytes| <= MAX_SAFE_INTEGER && ReadPair(names, w, pos, widened).Ok?
    ensures GoodPair(names, widened, pair) && At(w, pos, WrittenPair(pair, w.littleEndian))
    ensures ReadPair(names, w, pos, widened)
         == Ok(KeptPair(names, widened, w.littleEndian, pair), pos + |WrittenPair(pair, w.littleEndian)|)
  {
    var text := StringIsAt(w, pos, MAX_KEY_BYTES);
    var key := ReadKey(names, w, pos);
    var kind := ReadUint(w, key.pos, 4);
    pair := ValueIsWritten(names, w, kind.pos, widened, text, kind.value);
    ReadUintIff(w, key.pos, 4, kind.value);
    var spelled, value := Spelled(kind.value, 4, w.littleEndian), Written(pair.value, w.littleEndian);
    AtParts(w, key.pos, spelled, value);
    AtParts(w, pos, Written(Chars(text), w.littleEndian), spelled + value);
    PairReadsBack(names, w, pos, widened, pair);
  }

  lemma {:induction false} ValueIsWritten(names: Names, w: Window, pos: nat, widened: bool, key: seq<Byte>, kind: nat)
    returns (pair: StoredPair)
    requires |w.bytes| <= MAX_SAFE_INTEGER && pos <= |w.bytes| && |key| <= 16384 && names.decode(key) != ""
    requires ReadPairValue(names, w, pos, names.decode(key), kind, widened).Ok?
    ensures pair.key == key && KindOf(pair.value) == kind && GoodPair(names, widened, pair)
    ensures At(w, pos, Written(pair.value, w.littleEndian))
  {
    if widened || names.whitelisted(names.decode(key)) {
      var value := ReadIsWritten(w, pos, kind, widened);
      pair := StoredPair(key, value);
    } else {
      var value := SkippedIsWritten(w, pos, kind);
      pair := StoredPair(key, value);
    }
  }

  // ----- tensors

  function Same(): nat -> nat { (n: nat) => n }

  function IsCount(): nat -> bool { (n: nat) => n <= MAX_SAFE_INTEGER }

  lemma {:induction false} DimsReadBack(w: Window, pos: nat, dims: seq<nat>)
    requires |w.bytes| <= MAX_SAFE_INTEGER && All(IsCount(), dims)
    requires At(w, pos, Joined(CountWriter(w.littleEndian), dims))
    ensures ReadDims(w, pos, |dims|) == Ok(dims, pos + |Joined(CountWriter(w.littleEndian), dims)|)
  {
    var read, spelled := CountReader(w), CountWriter(w.littleEndian);
    forall count: nat | IsCount()(count) ensures ReadsItem(read, Standing(w), spelled, Same(), pos, count) {
      CountReadsBack(w, pos, count);
    }
    StandingSplits(w);
    ReadsAll(read, |w.bytes|, Standing(w), spelled, Same(), IsCount(), pos, dims);
    assert Mapped(Same(), dims) == dims;
  }

  lemma {:induction false} CountReadsBack(w: Window, lo: nat, count: nat)
    requires |w.bytes| <= MAX_SAFE_INTEGER && count <= MAX_SAFE_INTEGER
    ensures ReadsItem(CountReader(w), Standing(w), CountWriter(w.littleEndian), Same(), lo, count)
  {
    forall p: nat | lo <= p && Standing(w)(p, CountWriter(w.littleEndian)(count))
      ensures CountReader(w)(p) == Ok(count, p + 8)
    {
      ReadCountIff(w, p, count);
    }
  }

  lemma {:induction false} DimsAreWritten(w: Window, pos: nat, count: nat) returns (dims: seq<nat>)
    requires pos <= |w.bytes| <= MAX_SAFE_INTEGER && ReadDims(w, pos, count).Ok?
    ensures |dims| == count && All(IsCount(), dims) && At(w, pos, Joined(CountWriter(w.littleEndian), dims))
  {
    forall p: nat | pos <= p
      ensures ReadIsSpelled(CountReader(w), Standing(w), CountWriter(w.littleEndian), Same(), IsCount(), p)
    {
      CountIsSpelled(w, p);
    }
    StandingSplits(w);
    dims := ManyAreJoined(CountReader(w), |w.bytes|, Standing(w), CountWriter(w.littleEndian), Same(), IsCount(), pos,
                          pos, count, []);
  }

  lemma {:induction false} CountIsSpelled(w: Window, p: nat)
    requires |w.bytes| <= MAX_SAFE_INTEGER
    ensures ReadIsSpelled(CountReader(w), Standing(w), CountWriter(w.littleEndian), Same(), IsCount(), p)
  {
    var read := ReadCount(w, p);
    if read.Ok? {
      ReadCountIff(w, p, read.value);
      assert IsCount()(read.value) && Standing(w)(p, CountWriter(w.littleEndian)(read.value));
    }
  }

  lemma {:induction false} ShapeReadsBack(w: Window, pos: nat, dims: seq<nat>)
    requires |w.bytes| <= MAX_SAFE_INTEGER && |dims| <= 8 && All(IsCount(), dims)
    requires At(w, pos, WrittenShape(dims, w.littleEndian))
    ensures ReadShape(w, pos) == Ok(dims, pos + |WrittenShape(dims, w.littleEndian)|)
  {
    AtParts(w, pos, Spelled(|dims|, 4, w.littleEndian), Joined(CountWriter(w.littleEndian), dims));
    Places();
    ReadUintIff(w, pos, 4, |dims|);
    DimsReadBack(w, pos + 4, dims);
  }

  lemma {:induction false} ShapeIsWritten(w: Window, pos: nat) returns (dims: seq<nat>)
    requires |w.bytes| <= MAX_SAFE_INTEGER && ReadShape(w, pos).Ok?
    ensures |dims| <= 8 && All(IsCount(), dims) && At(w, pos, WrittenShape(dims, w.littleEndian))
    ensures ReadShape(w, pos) == Ok(dims, pos + |WrittenShape(dims, w.littleEndian)|)
  {
    var count := ReadUint(w, pos, 4);
    dims := DimsAreWritten(w, count.pos, count.value);
    ReadUintIff(w, pos, 4, count.value);
    AtParts(w, pos, Spelled(|dims|, 4, w.littleEndian), Joined(CountWriter(w.littleEndian), dims));
    ShapeReadsBack(w, pos, dims);
  }

  predicate PlaceFits(widened: bool, typeId: nat, offset: nat) {
    typeId < 0x1_0000_0000 && offset < 0x1_0000_0000_0000_0000 && (widened ==> offset <= MAX_SAFE_INTEGER)
  }

  lemma {:induction false} PlaceReadsBack(w: Window, pos: nat, widened: bool, typeId: nat, offset: nat)
    requires |w.bytes| <= MAX_SAFE_INTEGER && PlaceFits(widened, typeId, offset)
    requires At(w, pos, WrittenPlace(typeId, offset, w.littleEndian))
    ensures ReadPlace(w, pos, widened)
         == Ok((typeId, if offset <= MAX_SAFE_INTEGER then Some(offset) else None), pos + 12)
  {
    AtParts(w, pos, Spelled(typeId, 4, w.littleEndian), Spelled(offset, 8, w.littleEndian));
    Places();
    ReadUintIff(w, pos, 4, typeId);
    ReadUintIff(w, pos + 4, 8, offset);
  }

  lemma {:induction false} PlaceIsWritten(w: Window, pos: nat, widened: bool) returns (typeId: nat, offset: nat)
    requires |w.bytes| <= MAX_SAFE_INTEGER && ReadPlace(w, pos, widened).Ok?
    ensures PlaceFits(widened, typeId, offset) && At(w, pos, WrittenPlace(typeId, offset, w.littleEndian))
    ensures ReadPlace(w, pos, widened)
         == Ok((typeId, if offset <= MAX_SAFE_INTEGER then Some(offset) else None), pos + 12)
  {
    typeId, offset := ReadUint(w, pos, 4).value, ReadUint(w, pos + 4, 8).value;
    Places();
    ReadUintIff(w, pos, 4, typeId);
    ReadUintIff(w, pos + 4, 8, offset);
    AtParts(w, pos, Spelled(typeId, 4, w.littleEndian), Spelled(offset, 8, w.littleEndian));
  }

  lemma GoodParts(widened: bool, tensor: StoredTensor)
    ensures GoodTensor(widened, tensor) <==>
      && |tensor.dims| <= 8 && All(IsCount(), tensor.dims) && PlaceFits(widened, tensor.typeId, tensor.offset)
      && (widened ==> |tensor.name| <= 4096)
  {
    if All(IsCount(), tensor.dims) {
      forall i | 0 <= i < |tensor.dims| ensures IsCount()(tensor.dims[i]) {
      }
    }
  }

  lemma TensorPartsAt(w: Window, pos: nat, tensor: StoredTensor) returns (p1: nat, p2: nat)
    requires At(w, pos, WrittenTensor(tensor, w.littleEndian))
    ensures p1 == pos + 8 + |tensor.name| && p2 == p1 + |WrittenShape(tensor.dims, w.littleEndian)|
    ensures At(w, pos, Written(Chars(tensor.name), w.littleEndian))
    ensures At(w, p1, WrittenShape(tensor.dims, w.littleEndian))
    ensures At(w, p2, WrittenPlace(tensor.typeId, tensor.offset, w.littleEndian))
    ensures p2 + 12 == pos + |WrittenTensor(tensor, w.littleEndian)|
  {
    var shape := WrittenShape(tensor.dims, w.littleEndian);
    var place := WrittenPlace(tensor.typeId, tensor.offset, w.littleEndian);
    p1 := pos + 8 + |tensor.name|;
    p2 := p1 + |shape|;
    AtParts(w, pos, Written(Chars(tensor.name), w.littleEndian), shape + place);
    AtParts(w, p1, shape, place);
  }

  lemma TensorAt(w: Window, pos: nat, tensor: StoredTensor, p1: nat, p2: nat)
    requires p1 == pos + 8 + |tensor.name| && p2 == p1 + |WrittenShape(tensor.dims, w.littleEndian)|
    requires At(w, pos, Written(Chars(tensor.name), w.littleEndian))
    requires At(w, p1, WrittenShape(tensor.dims, w.littleEndian))
    requires At(w, p2, WrittenPlace(tensor.typeId, tensor.offset, w.littleEndian))
    ensures At(w, pos, WrittenTensor(tensor, w.littleEndian))
  {
    AtThree(w, pos, Written(Chars(tensor.name), w.littleEndian), WrittenShape(tensor.dims, w.littleEndian),
            WrittenPlace(tensor.typeId, tensor.offset, w.littleEndian));
  }

  lemma AtThree(w: Window, pos: nat, first: seq<Byte>, second: seq<Byte>, third: seq<Byte>)
    ensures At(w, pos, first + (second + third)) <==>
      At(w, pos, first) && At(w, pos + |first|, second) && At(w, pos + |first| + |second|, third)
  {
    AtParts(w, pos + |first|, second, third);
    AtParts(w, pos, first, second + third);
  }

  lemma NameReadsBack(names: Names, w: Window, pos: nat, widened: bool, name: seq<Byte>)
    requires |w.bytes| <= MAX_SAFE_INTEGER && (widened ==> |name| <= 4096)
    requires At(w, pos, Written(Chars(name), w.littleEndian))
    ensures ReadTensorName(names, w, pos, widened)
         == Ok(if widened then Some(names.decode(name)) else None, pos + 8 + |name|)
  {
    StringAt(w, pos, name, MAX_TENSOR_NAME_BYTES);
  }

  lemma {:induction false} TensorReadsBack(names: Names, w: Window, pos: nat, widened: bool, tensor: StoredTensor)
    requires |w.bytes| <= MAX_SAFE_INTEGER && GoodTensor(widened, tensor)
    requires At(w, pos, WrittenTensor(tensor, w.littleEndian))
    ensures ReadTensor(names, w, pos, widened)
         == Ok(KeptTensor(names, widened, tensor), pos + |WrittenTensor(tensor, w.littleEndian)|)
  {
    var p1, p2 := TensorPartsAt(w, pos, tensor);
    GoodParts(widened, tensor);
    NameReadsBack(names, w, pos, widened, tensor.name);
    ShapeReadsBack(w, p1, tensor.dims);
    PlaceReadsBack(w, p2, widened, tensor.typeId, tensor.offset);
    var info := KeptTensor(names, widened, tensor);
    TensorOfParts(names, w, pos, widened, p1, p2, info, p2 + 12);
  }

  lemma TensorOfParts(names: Names, w: Window, pos: nat, widened: bool, p1: nat, p2: nat, info: TensorInfo, p3: nat)
    requires ReadTensorName(names, w, pos, widened) == Ok(info.name, p1) && ReadShape(w, p1) == Ok(info.dims, p2)
    requires ReadPlace(w, p2, widened) == Ok((info.typeId, info.offset), p3)
    ensures ReadTensor(names, w, pos, widened) == Ok(info, p3)
  {
  }

  lemma NameIsWritten(names: Names, w: Window, pos: nat, widened: bool) returns (name: seq<Byte>)
    requires |w.bytes| <= MAX_SAFE_INTEGER && ReadTensorName(names, w, pos, widened).Ok?
    ensures (widened ==> |name| <= 4096) && At(w, pos, Written(Chars(name), w.littleEndian))
    ensures ReadTensorName(names, w, pos, widened).pos == pos + 8 + |name|
  {
    if widened {
      name := StringIsAt(w, pos, MAX_TENSOR_NAME_BYTES);
    } else {
      name := CharsIsAt(w, pos);
    }
  }

  lemma {:induction false} TensorIsWritten(names: Names, w: Window, pos: nat, widened: bool)
    returns (tensor: StoredTensor)
    requires |w.bytes| <= MAX_SAFE_INTEGER && ReadTensor(names, w, pos, widened).Ok?
    ensures GoodTensor(widened, tensor) && At(w, pos, WrittenTensor(tensor, w.littleEndian))
    ensures ReadTensor(names, w, pos, widened)
         == Ok(KeptTensor(names, widened, tensor), pos + |WrittenTensor(tensor, w.littleEndian)|)
  {
    tensor := TensorIsAt(names, w, pos, widened);
    TensorReadsBack(names, w, pos, widened, tensor);
  }

  lemma {:induction false} TensorIsAt(names: Names, w: Window, pos: nat, widened: bool) returns (tensor: StoredTensor)
    requires |w.bytes| <= MAX_SAFE_INTEGER && ReadTensor(names, w, pos, widened).Ok?
    ensures GoodTensor(widened, tensor) && At(w, pos, WrittenTensor(tensor, w.littleEndian))
  {
    var p1, p2 := TensorSucceeds(names, w, pos, widened);
    var name := NameIsWritten(names, w, pos, widened);
    var dims := ShapeIsWritten(w, p1);
    var typeId, offset := PlaceIsWritten(w, p2, widened);
    tensor := StoredTensor(name, dims, typeId, offset);
    GoodParts(widened, tensor);
    TensorAt(w, pos, tensor, p1, p2);
  }

  lemma TensorSucceeds(names: Names, w: Window, pos: nat, widened: bool) returns (p1: nat, p2: nat)
    requires ReadTensor(names, w, pos, widened).Ok?
    ensures ReadTensorName(names, w, pos, widened).Ok? && p1 == ReadTensorName(names, w, pos, widened).pos
    ensures ReadShape(w, p1).Ok? && p2 == ReadShape(w, p1).pos && ReadPlace(w, p2, widened).Ok?
  {
    p1 := ReadTensorName(names, w, pos, widened).pos;
    p2 := ReadShape(w, p1).pos;
  }

  // ----- lists of pairs and tensors

  lemma {:induction false} PairsReadBack(names: Names, w: Window, pos: nat, widened: bool, pairs: seq<StoredPair>)
    requires pos <= |w.bytes| <= MAX_SAFE_INTEGER && All(GoodPairs(names, widened), pairs)
    requires At(w, pos, Joined(PairWriter(w.littleEndian), pairs))
    ensures ReadPairs(names, w, pos, |pairs|, widened)
         == Ok(Mapped(PairKeeper(names, widened, w.littleEndian), pairs),
               pos + |Joined(PairWriter(w.littleEndian), pairs)|)
  {
    var read, spelled := PairReader(names, w, widened), PairWriter(w.littleEndian);
    var kept, good := PairKeeper(names, widened, w.littleEndian), GoodPairs(names, widened);
    PairReadsAdvance(names, w, widened);
    EachPairReads(names, w, pos, widened);
    StandingSplits(w);
    ReadsAll(read, |w.bytes|, Standing(w), spelled, kept, good, pos, pairs);
  }

  lemma {:induction false} PairReadsAdvance(names: Names, w: Window, widened: bool)
    ensures ReadsFrom(PairReader(names, w, widened), |w.bytes|)
  {
    var read := PairReader(names, w, widened);
    forall p: nat | read(p).Ok? ensures p < read(p).pos <= |w.bytes| {
      assert read(p) == ReadPair(names, w, p, widened);
    }
  }

  lemma {:induction false} PairReadsThere(names: Names, w: Window, lo: nat, widened: bool, pair: StoredPair)
    requires |w.bytes| <= MAX_SAFE_INTEGER && GoodPair(names, widened, pair)
    ensures ReadsItem(PairReader(names, w, widened), Standing(w), PairWriter(w.littleEndian),
                      PairKeeper(names, widened, w.littleEndian), lo, pair)
  {
    forall p: nat | lo <= p && Standing(w)(p, PairWriter(w.littleEndian)(pair))
      ensures PairReader(names, w, widened)(p)
           == Ok(KeptPair(names, widened, w.littleEndian, pair), p + |WrittenPair(pair, w.littleEndian)|)
    {
      PairReadsBack(names, w, p, widened, pair);
    }
  }

  lemma {:induction false} EachPairReads(names: Names, w: Window, lo: nat, widened: bool)
    requires |w.bytes| <= MAX_SAFE_INTEGER
    ensures forall pair | GoodPairs(names, widened)(pair) ::
      ReadsItem(PairReader(names, w, widened), Standing(w), PairWriter(w.littleEndian),
                PairKeeper(names, widened, w.littleEndian), lo, pair)
  {
    forall pair | GoodPairs(names, widened)(pair)
      ensures ReadsItem(PairReader(names, w, widened), Standing(w), PairWriter(w.littleEndian),
                        PairKeeper(names, widened, w.littleEndian), lo, pair)
    {
      PairReadsThere(names, w, lo, widened, pair);
    }
  }

  lemma {:induction false} PairsAreWritten(names: Names, w: Window, pos: nat, count: nat, widened: bool)
    returns (pairs: seq<StoredPair>)
    requires pos <= |w.bytes| <= MAX_SAFE_INTEGER && ReadPairs(names, w, pos, count, widened).Ok?
    ensures |pairs| == count && All(GoodPairs(names, widened), pairs)
    ensures At(w, pos, Joined(PairWriter(w.littleEndian), pairs))
  {
    var read, spelled := PairReader(names, w, widened), PairWriter(w.littleEndian);
    var kept, good := PairKeeper(names, widened, w.littleEndian), GoodPairs(names, widened);
    forall p: nat | pos <= p ensures ReadIsSpelled(read, Standing(w), spelled, kept, good, p) {
      PairIsSpelled(names, w, p, widened);
    }
    StandingSplits(w);
    pairs := ManyAreJoined(read, |w.bytes|, Standing(w), spelled, kept, good, pos, pos, count, []);
  }

  lemma {:induction false} PairIsSpelled(names: Names, w: Window, p: nat, widened: bool)
    requires |w.bytes| <= MAX_SAFE_INTEGER
    ensures ReadIsSpelled(PairReader(names, w, widened), Standing(w), PairWriter(w.littleEndian),
                          PairKeeper(names, widened, w.littleEndian), GoodPairs(names, widened), p)
  {
    if ReadPair(names, w, p, widened).Ok? {
      var pair := PairIsWritten(names, w, p, widened);
      assert GoodPairs(names, widened)(pair) && Standing(w)(p, PairWriter(w.littleEndian)(pair));
    }
  }

  lemma {:induction false} TensorsReadBack(names: Names, w: Window, pos: nat, widened: bool,
                                           tensors: seq<StoredTensor>)
    requires pos <= |w.bytes| <= MAX_SAFE_INTEGER && All(GoodTensors(widened), tensors)
    requires At(w, pos, Joined(TensorWriter(w.littleEndian), tensors))
    ensures ReadTensors(names, w, pos, |tensors|, widened)
         == Ok(Mapped(TensorKeeper(names, widened), tensors), pos + |Joined(TensorWriter(w.littleEndian), tensors)|)
  {
    var read, spelled := TensorReader(names, w, widened), TensorWriter(w.littleEndian);
    var kept, good := TensorKeeper(names, widened), GoodTensors(widened);
    TensorReadsAdvance(names, w, widened);
    EachTensorReads(names, w, pos, widened);
    StandingSplits(w);
    ReadsAll(read, |w.bytes|, Standing(w), spelled, kept, good, pos, tensors);
  }

  lemma {:induction false} TensorReadsAdvance(names: Names, w: Window, widened: bool)
    ensures ReadsFrom(TensorReader(names, w, widened), |w.bytes|)
  {
    var read := TensorReader(names, w, widened);
    forall p: nat | read(p).Ok? ensures p < read(p).pos <= |w.bytes| {
      assert read(p) == ReadTensor(names, w, p, widened);
    }
  }

  lemma {:induction false} TensorReadsThere(names: Names, w: Window, lo: nat, widened: bool, tensor: StoredTensor)
    requires |w.bytes| <= MAX_SAFE_INTEGER && GoodTensor(widened, tensor)
    ensures ReadsItem(TensorReader(names, w, widened), Standing(w), TensorWriter(w.littleEndian),
                      TensorKeeper(names, widened), lo, tensor)
  {
    forall p: nat | lo <= p && Standing(w)(p, TensorWriter(w.littleEndian)(tensor))
      ensures TensorReader(names, w, widened)(p)
           == Ok(KeptTensor(names, widened, tensor), p + |WrittenTensor(tensor, w.littleEndian)|)
    {
      TensorReadsBack(names, w, p, widened, tensor);
    }
  }

  lemma {:induction false} EachTensorReads(names: Names, w: Window, lo: nat, widened: bool)
    requires |w.bytes| <= MAX_SAFE_INTEGER
    ensures forall tensor | GoodTensors(widened)(tensor) ::
      ReadsItem(TensorReader(names, w, widened), Standing(w), TensorWriter(w.littleEndian),
                TensorKeeper(names, widened), lo, tensor)
  {
    forall tensor | GoodTensors(widened)(tensor)
      ensures ReadsItem(TensorReader(names, w, widened), Standing(w), TensorWriter(w.littleEndian),
                        TensorKeeper(names, widened), lo, tensor)
    {
      TensorReadsThere(names, w, lo, widened, tensor);
    }
  }

  lemma {:induction false} TensorsAreWritten(names: Names, w: Window, pos: nat, count: nat, widened: bool)
    returns (tensors: seq<StoredTensor>)
    requires pos <= |w.bytes| <= MAX_SAFE_INTEGER && ReadTensors(names, w, pos, count, widened).Ok?
    ensures |tensors| == count && All(GoodTensors(widened), tensors)
    ensures At(w, pos, Joined(TensorWriter(w.littleEndian), tensors))
  {
    var read, spelled := TensorReader(names, w, widened), TensorWriter(w.littleEndian);
    var kept, good := TensorKeeper(names, widened), GoodTensors(widened);
    forall p: nat | pos <= p ensures ReadIsSpelled(read, Standing(w), spelled, kept, good, p) {
      TensorIsSpelled(names, w, p, widened);
    }
    StandingSplits(w);
    tensors := ManyAreJoined(read, |w.bytes|, Standing(w), spelled, kept, good, pos, pos, count, []);
  }

  lemma {:induction false} TensorIsSpelled(names: Names, w: Window, p: nat, widened: bool)
    requires |w.bytes| <= MAX_SAFE_INTEGER
    ensures ReadIsSpelled(TensorReader(names, w, widened), Standing(w), TensorWriter(w.littleEndian),
                          TensorKeeper(names, widened), GoodTensors(widened), p)
  {
    if ReadTensor(names, w, p, widened).Ok? {
      var tensor := TensorIsWritten(names, w, p, widened);
      assert GoodTensors(widened)(tensor) && Standing(w)(p, TensorWriter(w.littleEndian)(tensor));
    }
  }

  // ----- the whole header

  lemma MagicAnnounces(magic: seq<Byte>)
    requires |magic| == 4
    ensures forall littleEndian :: Announces(magic, littleEndian) <==> ByteOrder(magic) == Some(littleEndian)
  {
    var text := seq(|magic|, i requires 0 <= i < |magic| => magic[i] % 128);
    assert text == [magic[0] % 128, magic[1] % 128, magic[2] % 128, magic[3] % 128];
  }

  /** The version and the counts are accepted exactly when they are 1 to 3 and numbers that a double can hold. */
  lemma {:induction false} CountsReadIff(w: Window, pos: nat, version: nat, tensors: nat, metadata: nat)
    requires |w.bytes| <= MAX_SAFE_INTEGER && version < Place(4) && tensors < Place(8) && metadata < Place(8)
    requires At(w, pos, Spelled(version, 4, w.littleEndian)
                        + (Spelled(tensors, 8, w.littleEndian) + Spelled(metadata, 8, w.littleEndian)))
    ensures ReadCounts(w, pos) ==
            if 1 <= version <= 3 && tensors <= MAX_SAFE_INTEGER && metadata <= MAX_SAFE_INTEGER
            then Ok(Counts(version, tensors, metadata), pos + 20) else Fail
  {
    AtThree(w, pos, Spelled(version, 4, w.littleEndian), Spelled(tensors, 8, w.littleEndian),
            Spelled(metadata, 8, w.littleEndian));
    ReadUintIff(w, pos, 4, version);
    ReadUintIff(w, pos + 4, 8, tensors);
    ReadUintIff(w, pos + 12, 8, metadata);
  }

  lemma {:induction false} CountsReadBack(w: Window, pos: nat, file: File)
    requires |w.bytes| <= MAX_SAFE_INTEGER && 1 <= file.version <= 3
    requires |file.tensors| <= MAX_SAFE_INTEGER && |file.pairs| <= MAX_SAFE_INTEGER
    requires At(w, pos, WrittenCounts(file, w.littleEndian))
    ensures ReadCounts(w, pos) == Ok(Counts(file.version, |file.tensors|, |file.pairs|), pos + 20)
  {
    Places();
    CountsReadIff(w, pos, file.version, |file.tensors|, |file.pairs|);
  }

  lemma {:induction false} CountsAreWritten(w: Window, pos: nat, file: File)
    requires |w.bytes| <= MAX_SAFE_INTEGER
    requires ReadCounts(w, pos) == Ok(Counts(file.version, |file.tensors|, |file.pairs|), pos + 20)
    ensures 1 <= file.version <= 3 && At(w, pos, WrittenCounts(file, w.littleEndian))
  {
    ReadUintIff(w, pos, 4, file.version);
    ReadUintIff(w, pos + 4, 8, |file.tensors|);
    ReadUintIff(w, pos + 12, 8, |file.pairs|);
    var tensors, pairs := Spelled(|file.tensors|, 8, w.littleEndian), Spelled(|file.pairs|, 8, w.littleEndian);
    AtParts(w, pos + 4, tensors, pairs);
    AtParts(w, pos, Spelled(file.version, 4, w.littleEndian), tensors + pairs);
  }

  /** Each item takes at least one byte, so a list is no longer than its bytes. */
  lemma {:induction false} JoinedSize<S>(spelled: S -> seq<Byte>, items: seq<S>)
    requires forall item :: spelled(item) != []
    ensures |items| <= |Joined(spelled, items)|
  {
    if items != [] {
      JoinedSize(spelled, items[1..]);
    }
  }

  lemma {:induction false} CountsAreShort(w: Window, pos: nat, file: File)
    requires |w.bytes| <= MAX_SAFE_INTEGER && At(w, pos, WrittenFile(file, w.littleEndian))
    ensures |file.tensors| <= MAX_SAFE_INTEGER && |file.pairs| <= MAX_SAFE_INTEGER
  {
    forall pair ensures PairWriter(w.littleEndian)(pair) != [] {
      assert |WrittenPair(pair, w.littleEndian)| >= 8;
    }
    forall tensor ensures TensorWriter(w.littleEndian)(tensor) != [] {
      assert |WrittenTensor(tensor, w.littleEndian)| >= 8;
    }
    JoinedSize(PairWriter(w.littleEndian), file.pairs);
    JoinedSize(TensorWriter(w.littleEndian), file.tensors);
  }

  lemma {:induction false} ListsOfParts(names: Names, w: Window, pos: nat, widened: bool, header: Header, p1: nat,
                                        p2: nat)
    requires pos <= p1 <= |w.bytes|
    requires ReadPairs(names, w, pos, header.metadataCount, widened) == Ok(header.pairs, p1)
    requires ReadTensors(names, w, p1, header.tensorCount, widened) == Ok(header.tensors, p2)
    ensures ReadLists(names, w, pos, Counts(header.version, header.tensorCount, header.metadataCount), widened)
         == Ok(header, p2)
  {
  }

  /** Behind pairs that were read, the tensors complete the header. */
  lemma {:induction false} ListsReadBack(names: Names, w: Window, pos: nat, widened: bool, file: File, p1: nat)
    requires pos <= p1 <= |w.bytes| <= MAX_SAFE_INTEGER && All(GoodTensors(widened), file.tensors)
    requires ReadPairs(names, w, pos, |file.pairs|, widened)
          == Ok(Mapped(PairKeeper(names, widened, w.littleEndian), file.pairs), p1)
    requires At(w, p1, Joined(TensorWriter(w.littleEndian), file.tensors))
    ensures ReadLists(names, w, pos, Counts(file.version, |file.tensors|, |file.pairs|), widened)
         == Ok(KeptFile(names, widened, w.littleEndian, file),
               p1 + |Joined(TensorWriter(w.littleEndian), file.tensors)|)
  {
    TensorsReadBack(names, w, p1, widened, file.tensors);
    ListsOfParts(names, w, pos, widened, KeptFile(names, widened, w.littleEndian, file), p1,
                 p1 + |Joined(TensorWriter(w.littleEndian), file.tensors)|);
  }

  lemma ListsAt(w: Window, pos: nat, file: File) returns (p1: nat, p2: nat)
    requires At(w, pos, WrittenLists(file, w.littleEndian))
    ensures At(w, pos, Joined(PairWriter(w.littleEndian), file.pairs))
    ensures At(w, p1, Joined(TensorWriter(w.littleEndian), file.tensors))
    ensures p1 == pos + |Joined(PairWriter(w.littleEndian), file.pairs)| && pos <= p1 <= |w.bytes|
    ensures p2 == p1 + |Joined(TensorWriter(w.littleEndian), file.tensors)|
    ensures p2 == pos + |WrittenLists(file, w.littleEndian)|
  {
    var pairs, tensors := Joined(PairWriter(w.littleEndian), file.pairs),
      Joined(TensorWriter(w.littleEndian), file.tensors);
    AtParts(w, pos, pairs, tensors);
    p1 := pos + |pairs|;
    p2 := p1 + |tensors|;
  }

  lemma BodyAt(w: Window, pos: nat, file: File) returns (p1: nat, p2: nat)
    requires At(w, pos, WrittenFile(file, w.littleEndian))
    ensures At(w, pos, WrittenCounts(file, w.littleEndian))
    ensures At(w, pos + 20, Joined(PairWriter(w.littleEndian), file.pairs))
    ensures At(w, p1, Joined(TensorWriter(w.littleEndian), file.tensors))
    ensures p1 == pos + 20 + |Joined(PairWriter(w.littleEndian), file.pairs)| && pos + 20 <= p1 <= |w.bytes|
    ensures p2 == p1 + |Joined(TensorWriter(w.littleEndian), file.tensors)|
    ensures p2 == pos + |WrittenFile(file, w.littleEndian)|
  {
    AtParts(w, pos, WrittenCounts(file, w.littleEndian), WrittenLists(file, w.littleEndian));
    p1, p2 := ListsAt(w, pos + 20, file);
  }

  lemma {:induction false} CountsThenLists(names: Names, w: Window, pos: nat, widened: bool, file: File)
    returns (counts: Counts, end: nat)
    requires |w.bytes| <= MAX_SAFE_INTEGER && GoodFile(names, widened, file)
    requires At(w, pos, WrittenFile(file, w.littleEndian))
    ensures pos + 20 <= |w.bytes| && end == pos + |WrittenFile(file, w.littleEndian)|
    ensures ReadCounts(w, pos) == Ok(counts, pos + 20)
    ensures ReadLists(names, w, pos + 20, counts, widened) == Ok(KeptFile(names, widened, w.littleEndian, file), end)
  {
    CountsAreShort(w, pos, file);
    var p1, p2 := BodyAt(w, pos, file);
    CountsReadBack(w, pos, file);
    PairsReadBack(names, w, pos + 20, widened, file.pairs);
    ListsReadBack(names, w, pos + 20, widened, file, p1);
    counts, end := Counts(file.version, |file.tensors|, |file.pairs|), p2;
  }

  lemma {:induction false} BodyReadsBack(names: Names, w: Window, pos: nat, widened: bool, file: File)
    requires |w.bytes| <= MAX_SAFE_INTEGER && GoodFile(names, widened, file)
    requires At(w, pos, WrittenFile(file, w.littleEndian))
    ensures ReadBody(names, w, pos, widened)
         == Ok(KeptFile(names, widened, w.littleEndian, file), pos + |WrittenFile(file, w.littleEndian)|)
  {
    var counts, end := CountsThenLists(names, w, pos, widened, file);
  }

  /**
   A window that begins with a well-formed header, in the byte order that its
   magic announces, is read as what was written, and the read ends behind it.
   */
  lemma {:induction false} HeaderReadsBack(names: Names, w: Window, widened: bool, magic: seq<Byte>,
                                           littleEndian: bool, file: File)
    requires |w.bytes| <= MAX_SAFE_INTEGER && GoodFile(names, widened, file) && Announces(magic, littleEndian)
    requires At(w, 0, magic + WrittenFile(file, littleEndian))
    ensures ParseHeader(names, w, widened)
         == Ok(KeptFile(names, widened, littleEndian, file), |magic + WrittenFile(file, littleEndian)|)
  {
    var ordered := w.(littleEndian := littleEndian);
    AtParts(w, 0, magic, WrittenFile(file, littleEndian));
    TakeIff(w, 0, magic);
    MagicAnnounces(magic);
    BodyReadsBack(names, ordered, 4, widened, file);
    HeaderOfParts(names, w, widened, magic, littleEndian, KeptFile(names, widened, littleEndian, file),
                  4 + |WrittenFile(file, littleEndian)|);
  }

  lemma HeaderOfParts(names: Names, w: Window, widened: bool, magic: seq<Byte>, littleEndian: bool, header: Header,
                      end: nat)
    requires Take(w, 0, 4) == Ok(magic, 4) && ByteOrder(magic) == Some(littleEndian)
    requires ReadBody(names, w.(littleEndian := littleEndian), 4, widened) == Ok(header, end)
    ensures ParseHeader(names, w, widened) == Ok(header, end)
  {
  }

  lemma {:induction false} BodySucceeds(names: Names, w: Window, pos: nat, widened: bool) returns (counts: Counts)
    requires ReadBody(names, w, pos, widened).Ok?
    ensures ReadCounts(w, pos) == Ok(counts, pos + 20) && pos + 20 <= |w.bytes|
    ensures ReadLists(names, w, pos + 20, counts, widened).Ok?
  {
    CountsEnd(w, pos);
    counts := ReadCounts(w, pos).value;
  }

  lemma CountsEnd(w: Window, pos: nat)
    requires ReadCounts(w, pos).Ok?
    ensures ReadCounts(w, pos).pos == pos + 20 <= |w.bytes|
  {
  }

  lemma {:induction false} ListsSucceed(names: Names, w: Window, pos: nat, counts: Counts, widened: bool)
    returns (p1: nat)
    requires pos <= |w.bytes| && ReadLists(names, w, pos, counts, widened).Ok?
    ensures ReadPairs(names, w, pos, counts.metadata, widened).Ok?
    ensures p1 == ReadPairs(names, w, pos, counts.metadata, widened).pos <= |w.bytes|
    ensures ReadTensors(names, w, p1, counts.tensors, widened).Ok?
  {
    p1 := ReadPairs(names, w, pos, counts.metadata, widened).pos;
  }

  lemma {:induction false} BodyIsWritten(names: Names, w: Window, pos: nat, widened: bool) returns (file: File)
    requires |w.bytes| <= MAX_SAFE_INTEGER && ReadBody(names, w, pos, widened).Ok?
    ensures GoodFile(names, widened, file) && At(w, pos, WrittenFile(file, w.littleEndian))
  {
    var counts := BodySucceeds(names, w, pos, widened);
    var p1 := ListsSucceed(names, w, pos + 20, counts, widened);
    var pairs := PairsAreWritten(names, w, pos + 20, counts.metadata, widened);
    PairsReadBack(names, w, pos + 20, widened, pairs);
    var tensors := TensorsAreWritten(names, w, p1, counts.tensors, widened);
    file := File(counts.version, pairs, tensors);
    CountsAreWritten(w, pos, file);
    FileAt(w, pos, file, p1);
  }

  lemma FileAt(w: Window, pos: nat, file: File, p1: nat)
    requires At(w, pos, WrittenCounts(file, w.littleEndian))
    requires At(w, pos + 20, Joined(PairWriter(w.littleEndian), file.pairs))
    requires p1 == pos + 20 + |Joined(PairWriter(w.littleEndian), file.pairs)|
    requires At(w, p1, Joined(TensorWriter(w.littleEndian), file.tensors))
    ensures At(w, pos, WrittenFile(file, w.littleEndian))
  {
    var counts := WrittenCounts(file, w.littleEndian);
    assert |counts| == 20 by { CountsSize(file, w.littleEndian); }
    AllAt(w, pos, counts, Joined(PairWriter(w.littleEndian), file.pairs),
          Joined(TensorWriter(w.littleEndian), file.tensors), p1);
    assert WrittenFile(file, w.littleEndian) == counts + WrittenLists(file, w.littleEndian);
  }

  lemma CountsSize(file: File, littleEndian: bool)
    ensures |WrittenCounts(file, littleEndian)| == 20
  {
  }

  lemma AllAt(w: Window, pos: nat, first: seq<Byte>, second: seq<Byte>, third: seq<Byte>, p1: nat)
    requires At(w, pos, first) && At(w, pos + |first|, second) && At(w, p1, third)
    requires p1 == pos + |first| + |second|
    ensures At(w, pos, first + (second + third))
  {
    AtThree(w, pos, first, second, third);
  }

  /** Every window that is accepted begins with a well-formed header, and the report is what is written there. */
  lemma {:induction false} HeaderIsWritten(names: Names, w: Window, widened: bool)
    returns (magic: seq<Byte>, littleEndian: bool, file: File)
    requires |w.bytes| <= MAX_SAFE_INTEGER && ParseHeader(names, w, widened).Ok?
    ensures GoodFile(names, widened, file) && Announces(magic, littleEndian)
    ensures At(w, 0, magic + WrittenFile(file, littleEndian))
    ensures ParseHeader(names, w, widened)
         == Ok(KeptFile(names, widened, littleEndian, file), |magic + WrittenFile(file, littleEndian)|)
  {
    magic, littleEndian := HeaderSucceeds(names, w, widened);
    file := BodyIsWritten(names, w.(littleEndian := littleEndian), 4, widened);
    AtParts(w, 0, magic, WrittenFile(file, littleEndian));
    HeaderReadsBack(names, w, widened, magic, littleEndian, file);
  }

  lemma {:induction false} HeaderSucceeds(names: Names, w: Window, widened: bool)
    returns (magic: seq<Byte>, littleEndian: bool)
    requires |w.bytes| <= MAX_SAFE_INTEGER && ParseHeader(names, w, widened).Ok?
    ensures At(w, 0, magic) && Announces(magic, littleEndian)
    ensures ReadBody(names, w.(littleEndian := littleEndian), 4, widened).Ok?
  {
    magic := Take(w, 0, 4).value;
    littleEndian := ByteOrder(magic).value;
    MagicAnnounces(magic);
    TakeIff(w, 0, magic);
  }
}
