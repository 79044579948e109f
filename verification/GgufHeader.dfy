/** The header of a GGUF file: magic, counts, key-value pairs and tensor infos. */
module GgufHeader {
  import opened Wrappers
  import opened GgufValues

  const MAX_KEY_BYTES: nat := 16 * 1024
  const MAX_TENSOR_NAME_BYTES: nat := 4096
  const MAX_DIMENSIONS: nat := 8

  /** UTF-8 decoding, and the keys that the narrow metadata keeps. */
  datatype Names = Names(decode: seq<Byte> -> string, whitelisted: string -> bool)

  /** A pair as read; `None` is the value of a key that was skipped. */
  datatype Pair = Pair(key: string, value: Option<Value>)

  datatype TensorInfo = TensorInfo(name: Option<string>, typeId: nat, dims: seq<nat>, offset: Option<nat>)

  datatype Header = Header(version: nat, tensorCount: nat, metadataCount: nat, pairs: seq<Pair>,
                           tensors: seq<TensorInfo>)

  // ----- reading many

  /** What `read` finds from `pos` on, `count` times, after what was found `before`. */
  function ReadMany<T>(read: nat -> Outcome<T>, limit: nat, pos: nat, count: nat, before: seq<T>): (r: Outcome<seq<T>>)
    requires forall p: nat :: read(p).Ok? ==> p < read(p).pos <= limit
    requires pos <= limit
    ensures r.Ok? ==> pos <= r.pos <= limit && before <= r.value && |r.value| == |before| + count
    decreases count
  {
    if count == 0 then Ok(before, pos)
    else
      var (item, p) :- read(pos);
      ReadMany(read, limit, p, count - 1, before + [item])
  }

  lemma {:induction false} ManyForetell<T>(readV: nat -> Outcome<T>, readW: nat -> Outcome<T>, v: Window, w: Window,
                                          pos: nat, count: nat, before: seq<T>)
    requires forall p: nat :: readV(p).Ok? ==> p < readV(p).pos <= |v.bytes|
    requires forall p: nat :: readW(p).Ok? ==> p < readW(p).pos <= |w.bytes|
    requires forall p: nat :: Foretells(readV(p), readW(p), v, w)
    requires pos <= |v.bytes| <= |w.bytes|
    ensures Foretells(ReadMany(readV, |v.bytes|, pos, count, before), ReadMany(readW, |w.bytes|, pos, count, before),
      v, w)
    decreases count
  {
    if count > 0 {
      var item := readV(pos);
      assert Foretells(item, readW(pos), v, w);
      if item.Ok? {
        ManyForetell(readV, readW, v, w, item.pos, count - 1, before + [item.value]);
      }
    }
  }

  function Mapped<S, T>(f: S -> T, items: seq<S>): (r: seq<T>)
    ensures |r| == |items| && forall i | 0 <= i < |items| :: r[i] == f(items[i])
  {
    seq(|items|, i requires 0 <= i < |items| => f(items[i]))
  }

  predicate All<T>(good: T -> bool, items: seq<T>) {
    forall i | 0 <= i < |items| :: good(items[i])
  }

  /** When each narrow item is `f` of the wide one, or missing where that is not `good`, so is the narrow list. */
  lemma {:induction false} NarrowMany<T>(wide: nat -> Outcome<T>, narrow: nat -> Outcome<T>, good: T -> bool,
                                         f: T -> T, limit: nat,
                                        pos: nat, count: nat, before: seq<T>)
    requires forall p: nat :: wide(p).Ok? ==> p < wide(p).pos <= limit
    requires forall p: nat :: narrow(p).Ok? ==> p < narrow(p).pos <= limit
    requires forall p: nat :: wide(p).Ok? ==>
      if good(wide(p).value) then narrow(p) == Ok(f(wide(p).value), wide(p).pos) else !narrow(p).Ok?
    requires pos <= limit && All(good, before)
    ensures var all, some := ReadMany(wide, limit, pos, count, before),
      ReadMany(narrow, limit, pos, count, Mapped(f, before));
      all.Ok? ==> if All(good, all.value) then some == Ok(Mapped(f, all.value), all.pos) else !some.Ok?
    decreases count
  {
    if count > 0 && wide(pos).Ok? {
      var item := wide(pos);
      var next := before + [item.value];
      if good(item.value) {
        assert Mapped(f, next) == Mapped(f, before) + [f(item.value)];
        NarrowMany(wide, narrow, good, f, limit, item.pos, count - 1, next);
      } else {
        var all := ReadMany(wide, limit, item.pos, count - 1, next);
        if all.Ok? {
          assert all.value[|before|] == next[|before|] == item.value;
        }
      }
    }
  }

  // ----- the parts of a header

  function ReadKey(names: Names, w: Window, pos: nat): (r: Outcome<string>)
    ensures Advances(r, w, pos)
  {
    var (text, p) :- ReadString(w, pos, MAX_KEY_BYTES, false);
    if text.Text? && names.decode(text.text) != "" then Ok(names.decode(text.text), p) else Fail
  }

  function ReadPair(names: Names, w: Window, pos: nat, widened: bool): (r: Outcome<Pair>)
    ensures Advances(r, w, pos)
  {
    var (key, p1) :- ReadKey(names, w, pos);
    var (kind, p2) :- ReadUint(w, p1, 4);
    ReadPairValue(names, w, p2, key, kind, widened)
  }

  function ReadPairValue(names: Names, w: Window, pos: nat, key: string, kind: nat, widened: bool): (r: Outcome<Pair>)
    requires pos <= |w.bytes|
    ensures Advances(r, w, pos)
  {
    if widened || names.whitelisted(key) then
      var (value, p) :- ReadValue(w, pos, kind, widened);
      Ok(Pair(key, Some(value)), p)
    else
      var (_, p) :- SkipValue(w, pos, kind);
      Ok(Pair(key, None), p)
  }

  function PairReader(names: Names, w: Window, widened: bool): nat -> Outcome<Pair> {
    (p: nat) => ReadPair(names, w, p, widened)
  }

  function ReadPairs(names: Names, w: Window, pos: nat, count: nat, widened: bool): (r: Outcome<seq<Pair>>)
    requires pos <= |w.bytes|
    ensures r.Ok? ==> pos <= r.pos <= |w.bytes|
  {
    ReadMany(PairReader(names, w, widened), |w.bytes|, pos, count, [])
  }

  function CountReader(w: Window): nat -> Outcome<nat> {
    (p: nat) => ReadCount(w, p)
  }

  function ReadDims(w: Window, pos: nat, count: nat): (r: Outcome<seq<nat>>)
    requires pos <= |w.bytes|
    ensures r.Ok? ==> pos <= r.pos <= |w.bytes|
  {
    ReadMany(CountReader(w), |w.bytes|, pos, count, [])
  }

  /** The name is decoded only when widened; a name too long for that is refused. */
  function ReadTensorName(names: Names, w: Window, pos: nat, widened: bool): (r: Outcome<Option<string>>)
    ensures Advances(r, w, pos)
  {
    if widened then
      var (text, p) :- ReadString(w, pos, MAX_TENSOR_NAME_BYTES, false);
      if text.Text? then Ok(Some(names.decode(text.text)), p) else Fail
    else
      var (_, p) :- SkipString(w, pos);
      Ok(None, p)
  }

  function ReadShape(w: Window, pos: nat): (r: Outcome<seq<nat>>)
    ensures Advances(r, w, pos)
  {
    var (dimensions, p) :- ReadUint(w, pos, 4);
    if dimensions > MAX_DIMENSIONS then Fail else ReadDims(w, p, dimensions)
  }

  /** The offset is refused when it is out of range, but only when widened. */
  function ReadPlace(w: Window, pos: nat, widened: bool): (r: Outcome<(nat, Option<nat>)>)
    ensures Advances(r, w, pos)
  {
    var (typeId, p1) :- ReadUint(w, pos, 4);
    var (offset, p2) :- ReadUint(w, p1, 8);
    if offset <= MAX_SAFE_INTEGER then Ok((typeId, Some(offset)), p2)
    else if widened then Fail
    else Ok((typeId, None), p2)
  }

  function ReadTensor(names: Names, w: Window, pos: nat, widened: bool): (r: Outcome<TensorInfo>)
    ensures Advances(r, w, pos)
  {
    var (name, p) :- ReadTensorName(names, w, pos, widened);
    ReadTensorLayout(w, p, widened, name)
  }

  function ReadTensorLayout(w: Window, pos: nat, widened: bool, name: Option<string>): (r: Outcome<TensorInfo>)
    ensures Advances(r, w, pos)
  {
    var (dims, p1) :- ReadShape(w, pos);
    var (place, p2) :- ReadPlace(w, p1, widened);
    Ok(TensorInfo(name, place.0, dims, place.1), p2)
  }

  function TensorReader(names: Names, w: Window, widened: bool): nat -> Outcome<TensorInfo> {
    (p: nat) => ReadTensor(names, w, p, widened)
  }

  function ReadTensors(names: Names, w: Window, pos: nat, count: nat, widened: bool): (r: Outcome<seq<TensorInfo>>)
    requires pos <= |w.bytes|
    ensures r.Ok? ==> pos <= r.pos <= |w.bytes|
  {
    ReadMany(TensorReader(names, w, widened), |w.bytes|, pos, count, [])
  }

  /** The byte order that the magic announces; ASCII decoding ignores the high bit of each byte. */
  function ByteOrder(magic: seq<Byte>): (littleEndian: Option<bool>) {
    var text := seq(|magic|, i requires 0 <= i < |magic| => magic[i] % 128);
    if text == [0x47, 0x47, 0x55, 0x46] then Some(true)
    else if text == [0x46, 0x55, 0x47, 0x47] then Some(false)
    else None
  }

  datatype Counts = Counts(version: nat, tensors: nat, metadata: nat)

  function ReadCounts(w: Window, pos: nat): (r: Outcome<Counts>)
    ensures Advances(r, w, pos)
  {
    var (version, p1) :- ReadUint(w, pos, 4);
    if version < 1 || version > 3 then Fail
    else
      var (sizes, p2) :- ReadSizes(w, p1);
      Ok(Counts(version, sizes.0, sizes.1), p2)
  }

  /** The two counts are both read before either is judged. */
  function ReadSizes(w: Window, pos: nat): (r: Outcome<(nat, nat)>)
    ensures Advances(r, w, pos)
  {
    var (tensors, p1) :- ReadUint(w, pos, 8);
    var (metadata, p2) :- ReadUint(w, p1, 8);
    if tensors > MAX_SAFE_INTEGER || metadata > MAX_SAFE_INTEGER then Fail else Ok((tensors, metadata), p2)
  }

  function ReadBody(names: Names, w: Window, pos: nat, widened: bool): (r: Outcome<Header>)
    ensures Advances(r, w, pos)
  {
    var (counts, p) :- ReadCounts(w, pos);
    ReadLists(names, w, p, counts, widened)
  }

  function ReadLists(names: Names, w: Window, pos: nat, counts: Counts, widened: bool): (r: Outcome<Header>)
    requires pos <= |w.bytes|
    ensures r.Ok? ==> pos <= r.pos <= |w.bytes|
  {
    var (pairs, p1) :- ReadPairs(names, w, pos, counts.metadata, widened);
    var (tensors, p2) :- ReadTensors(names, w, p1, counts.tensors, widened);
    Ok(Header(counts.version, counts.tensors, counts.metadata, pairs, tensors), p2)
  }

  function ParseHeader(names: Names, w: Window, widened: bool): (r: Outcome<Header>)
    ensures Advances(r, w, 0)
  {
    var (magic, p) :- Take(w, 0, 4);
    var order := ByteOrder(magic);
    if order.None? then Fail else ReadBody(names, w.(littleEndian := order.value), p, widened)
  }

  // ----- what a header holds

  /** The metadata object: whitelisted keys whose value is not null; a later value replaces an earlier one. */
  function Metadata(names: Names, pairs: seq<Pair>, widened: bool): map<string, Value> {
    if pairs == [] then map[]
    else
      var last := pairs[|pairs| - 1];
      var earlier := Metadata(names, pairs[..|pairs| - 1], widened);
      var value := if last.value.None? || !names.whitelisted(last.key) then Null
                   else if widened then LegacyValue(last.value.value)
                   else last.value.value;
      if value == Null then earlier else earlier[last.key := value]
  }

  function Product(dims: seq<nat>): nat {
    if dims == [] then 1 else Product(dims[..|dims| - 1]) * dims[|dims| - 1]
  }

  function ParameterCount(tensors: seq<TensorInfo>): nat {
    if tensors == [] then 0 else ParameterCount(tensors[..|tensors| - 1]) + Product(tensors[|tensors| - 1].dims)
  }

  // ----- prefixes of a file

  lemma {:induction false} PairForetells(names: Names, v: Window, w: Window, pos: nat, widened: bool)
    requires Extension(v, w)
    ensures Foretells(ReadPair(names, v, pos, widened), ReadPair(names, w, pos, widened), v, w)
  {
    StringForetells(v, w, pos, MAX_KEY_BYTES, false);
    var key := ReadKey(names, v, pos);
    if key.Ok? {
      TakeForetells(v, w, key.pos, 4);
      var kind := ReadUint(v, key.pos, 4);
      if kind.Ok? {
        PairValueForetells(names, v, w, kind.pos, key.value, kind.value, widened);
      }
    }
  }

  lemma PairValueForetells(names: Names, v: Window, w: Window, pos: nat, key: string, kind: nat, widened: bool)
    requires Extension(v, w) && pos <= |v.bytes|
    ensures Foretells(ReadPairValue(names, v, pos, key, kind, widened),
      ReadPairValue(names, w, pos, key, kind, widened), v, w)
  {
    ReadForetells(v, w, pos, kind, widened);
    SkipForetells(v, w, pos, kind);
  }

  lemma PairsForetell(names: Names, v: Window, w: Window, pos: nat, count: nat, widened: bool)
    requires Extension(v, w) && pos <= |v.bytes|
    ensures Foretells(ReadPairs(names, v, pos, count, widened), ReadPairs(names, w, pos, count, widened), v, w)
  {
    var readV, readW := PairReader(names, v, widened), PairReader(names, w, widened);
    forall p: nat ensures Foretells(readV(p), readW(p), v, w) {
      PairForetells(names, v, w, p, widened);
    }
    ManyForetell(readV, readW, v, w, pos, count, []);
  }

  lemma DimsForetell(v: Window, w: Window, pos: nat, count: nat)
    requires Extension(v, w) && pos <= |v.bytes|
    ensures Foretells(ReadDims(v, pos, count), ReadDims(w, pos, count), v, w)
  {
    var readV, readW := CountReader(v), CountReader(w);
    forall p: nat ensures Foretells(readV(p), readW(p), v, w) {
      ReadCountForetells(v, w, p);
    }
    ManyForetell(readV, readW, v, w, pos, count, []);
  }

  lemma ShapeForetells(v: Window, w: Window, pos: nat)
    requires Extension(v, w)
    ensures Foretells(ReadShape(v, pos), ReadShape(w, pos), v, w)
  {
    TakeForetells(v, w, pos, 4);
    var dimensions := ReadUint(v, pos, 4);
    if dimensions.Ok? {
      DimsForetell(v, w, dimensions.pos, dimensions.value);
    }
  }

  lemma PlaceForetells(v: Window, w: Window, pos: nat, widened: bool)
    requires Extension(v, w)
    ensures Foretells(ReadPlace(v, pos, widened), ReadPlace(w, pos, widened), v, w)
  {
    TakeForetells(v, w, pos, 4);
    TakeForetells(v, w, pos + 4, 8);
  }

  lemma TensorForetells(names: Names, v: Window, w: Window, pos: nat, widened: bool)
    requires Extension(v, w)
    ensures Foretells(ReadTensor(names, v, pos, widened), ReadTensor(names, w, pos, widened), v, w)
  {
    StringForetells(v, w, pos, MAX_TENSOR_NAME_BYTES, false);
    var name := ReadTensorName(names, v, pos, widened);
    if name.Ok? {
      TensorLayoutForetells(v, w, name.pos, widened, name.value);
    }
  }

  lemma TensorLayoutForetells(v: Window, w: Window, pos: nat, widened: bool, name: Option<string>)
    requires Extension(v, w)
    ensures Foretells(ReadTensorLayout(v, pos, widened, name), ReadTensorLayout(w, pos, widened, name), v, w)
  {
    ShapeForetells(v, w, pos);
    var dims := ReadShape(v, pos);
    if dims.Ok? {
      PlaceForetells(v, w, dims.pos, widened);
    }
  }

  lemma TensorsForetell(names: Names, v: Window, w: Window, pos: nat, count: nat, widened: bool)
    requires Extension(v, w) && pos <= |v.bytes|
    ensures Foretells(ReadTensors(names, v, pos, count, widened), ReadTensors(names, w, pos, count, widened), v, w)
  {
    var readV, readW := TensorReader(names, v, widened), TensorReader(names, w, widened);
    forall p: nat ensures Foretells(readV(p), readW(p), v, w) {
      TensorForetells(names, v, w, p, widened);
    }
    ManyForetell(readV, readW, v, w, pos, count, []);
  }

  lemma SizesForetell(v: Window, w: Window, pos: nat)
    requires Extension(v, w)
    ensures Foretells(ReadSizes(v, pos), ReadSizes(w, pos), v, w)
  {
    TakeForetells(v, w, pos, 8);
    TakeForetells(v, w, pos + 8, 8);
  }

  lemma CountsForetell(v: Window, w: Window, pos: nat)
    requires Extension(v, w)
    ensures Foretells(ReadCounts(v, pos), ReadCounts(w, pos), v, w)
  {
    TakeForetells(v, w, pos, 4);
    SizesForetell(v, w, pos + 4);
  }

  lemma {:induction false} ListsForetell(names: Names, v: Window, w: Window, pos: nat, counts: Counts, widened: bool)
    requires Extension(v, w) && pos <= |v.bytes|
    ensures Foretells(ReadLists(names, v, pos, counts, widened), ReadLists(names, w, pos, counts, widened), v, w)
  {
    PairsForetell(names, v, w, pos, counts.metadata, widened);
    var pairs := ReadPairs(names, v, pos, counts.metadata, widened);
    if pairs.Ok? {
      TensorsForetell(names, v, w, pairs.pos, counts.tensors, widened);
    }
  }

  lemma {:induction false} BodyForetells(names: Names, v: Window, w: Window, pos: nat, widened: bool)
    requires Extension(v, w)
    ensures Foretells(ReadBody(names, v, pos, widened), ReadBody(names, w, pos, widened), v, w)
  {
    CountsForetell(v, w, pos);
    var counts := ReadCounts(v, pos);
    if counts.Ok? {
      ListsForetell(names, v, w, counts.pos, counts.value, widened);
    }
  }

  /**
   A header parsed from the first bytes of a file is the header of the file, a
   refused prefix belongs to a refused file, and a request for more bytes is
   repeated by every longer prefix that still falls short of it.
   */
  lemma {:induction false} PrefixForetells(names: Names, v: Window, w: Window, widened: bool)
    requires Extension(v, w)
    ensures Foretells(ParseHeader(names, v, widened), ParseHeader(names, w, widened), v, w)
  {
    TakeForetells(v, w, 0, 4);
    var magic := Take(v, 0, 4);
    if magic.Ok? && ByteOrder(magic.value).Some? {
      var order := ByteOrder(magic.value).value;
      BodyForetells(names, v.(littleEndian := order), w.(littleEndian := order), magic.pos, widened);
    }
  }

  // ----- narrow against widened

  /** What the narrow read makes of a pair that the widened read kept. */
  function NarrowPair(names: Names, pair: Pair): Pair {
    if names.whitelisted(pair.key) && pair.value.Some? then Pair(pair.key, Some(LegacyValue(pair.value.value)))
    else Pair(pair.key, None)
  }

  /** The narrow read captures the pair, or can skip it because every array in it is of a defined type. */
  predicate Readable(names: Names, pair: Pair) {
    names.whitelisted(pair.key) || (pair.value.Some? && Defined(pair.value.value))
  }

  predicate AllReadable(names: Names, pairs: seq<Pair>) {
    All(pair => Readable(names, pair), pairs)
  }

  lemma NarrowPairRead(names: Names, w: Window, pos: nat)
    requires |w.bytes| <= MAX_SAFE_INTEGER
    ensures var wide, narrow := ReadPair(names, w, pos, true), ReadPair(names, w, pos, false);
      wide.Ok? ==> if Readable(names, wide.value) then narrow == Ok(NarrowPair(names, wide.value), wide.pos)
        else !narrow.Ok?
  {
    var key := ReadKey(names, w, pos);
    if key.Ok? {
      var kind := ReadUint(w, key.pos, 4);
      if kind.Ok? {
        NarrowPairValueRead(names, w, kind.pos, key.value, kind.value);
      }
    }
  }

  lemma NarrowPairValueRead(names: Names, w: Window, pos: nat, key: string, kind: nat)
    requires pos <= |w.bytes| <= MAX_SAFE_INTEGER
    ensures var wide, narrow := ReadPairValue(names, w, pos, key, kind, true),
      ReadPairValue(names, w, pos, key, kind, false);
      wide.Ok? ==> if Readable(names, wide.value) then narrow == Ok(NarrowPair(names, wide.value), wide.pos)
        else !narrow.Ok?
  {
    NullsForPlaceholders(w, pos, kind);
    SkipIsRead(w, pos, kind, true);
  }

  lemma NarrowPairsRead(names: Names, w: Window, pos: nat, count: nat)
    requires pos <= |w.bytes| <= MAX_SAFE_INTEGER
    ensures var wide, narrow := ReadPairs(names, w, pos, count, true), ReadPairs(names, w, pos, count, false);
      wide.Ok? ==>
        if AllReadable(names, wide.value)
          then narrow == Ok(Mapped(pair => NarrowPair(names, pair), wide.value), wide.pos)
        else !narrow.Ok?
  {
    var wide, narrow := PairReader(names, w, true), PairReader(names, w, false);
    var good, f := pair => Readable(names, pair), pair => NarrowPair(names, pair);
    forall p: nat | wide(p).Ok?
      ensures if good(wide(p).value) then narrow(p) == Ok(f(wide(p).value), wide(p).pos) else !narrow(p).Ok?
    {
      NarrowPairRead(names, w, p);
    }
    NarrowMany(wide, narrow, good, f, |w.bytes|, pos, count, []);
    assert Mapped(f, []) == [];
  }

  /** The metadata of the narrow pairs is that of the widened ones. */
  lemma {:induction false} SameMetadata(names: Names, wide: seq<Pair>, narrow: seq<Pair>)
    requires |wide| == |narrow| && forall i | 0 <= i < |wide| :: narrow[i] == NarrowPair(names, wide[i])
    ensures Metadata(names, narrow, false) == Metadata(names, wide, true)
  {
    if wide != [] {
      SameMetadata(names, wide[..|wide| - 1], narrow[..|wide| - 1]);
    }
  }

  lemma NarrowTensorRead(names: Names, w: Window, pos: nat)
    ensures var wide, narrow := ReadTensor(names, w, pos, true), ReadTensor(names, w, pos, false);
      wide.Ok? ==> narrow == Ok(wide.value.(name := None), wide.pos)
  {
    var name := ReadTensorName(names, w, pos, true);
    if name.Ok? {
      assert ReadTensorName(names, w, pos, false) == Ok(None, name.pos);
      var wide, narrow := ReadTensorLayout(w, name.pos, true, name.value), ReadTensorLayout(w, name.pos, false, None);
      assert wide.Ok? ==> narrow == Ok(wide.value.(name := None), wide.pos);
    }
  }

  lemma NarrowTensorsRead(names: Names, w: Window, pos: nat, count: nat)
    requires pos <= |w.bytes|
    ensures var wide, narrow := ReadTensors(names, w, pos, count, true), ReadTensors(names, w, pos, count, false);
      wide.Ok? ==> narrow == Ok(Mapped((t: TensorInfo) => t.(name := None), wide.value), wide.pos)
  {
    var wide, narrow := TensorReader(names, w, true), TensorReader(names, w, false);
    var good, f := (t: TensorInfo) => true, (t: TensorInfo) => t.(name := None);
    forall p: nat | wide(p).Ok? ensures narrow(p) == Ok(f(wide(p).value), wide(p).pos) {
      NarrowTensorRead(names, w, p);
    }
    NarrowMany(wide, narrow, good, f, |w.bytes|, pos, count, []);
    assert Mapped(f, []) == [];
  }

  lemma {:induction false} SameParameterCount(wide: seq<TensorInfo>, narrow: seq<TensorInfo>)
    requires |wide| == |narrow| && forall i | 0 <= i < |wide| :: wide[i].dims == narrow[i].dims
    ensures ParameterCount(wide) == ParameterCount(narrow)
  {
    if wide != [] {
      SameParameterCount(wide[..|wide| - 1], narrow[..|wide| - 1]);
    }
  }

  /** What both reads report about a file. */
  predicate SameReport(names: Names, wide: Header, narrow: Header) {
    && wide.version == narrow.version
    && wide.tensorCount == narrow.tensorCount
    && wide.metadataCount == narrow.metadataCount
    && Metadata(names, wide.pairs, true) == Metadata(names, narrow.pairs, false)
    && ParameterCount(wide.tensors) == ParameterCount(narrow.tensors)
  }

  /**
   A file whose widened read succeeds can be read narrowly exactly when no key
   outside the whitelist holds an array of an undefined type, and then both
   reads end at the same offset and report the same.
   */
  lemma {:induction false} NarrowReadIff(names: Names, w: Window)
    requires |w.bytes| <= MAX_SAFE_INTEGER && ParseHeader(names, w, true).Ok?
    ensures var wide, narrow := ParseHeader(names, w, true), ParseHeader(names, w, false);
      && (narrow.Ok? <==> AllReadable(names, wide.value.pairs))
      && (narrow.Ok? ==> narrow.pos == wide.pos && SameReport(names, wide.value, narrow.value))
  {
    var magic := Take(w, 0, 4);
    var ordered := w.(littleEndian := ByteOrder(magic.value).value);
    var counts := ReadCounts(ordered, magic.pos);
    NarrowLists(names, ordered, counts.pos, counts.value);
  }

  lemma {:induction false} NarrowLists(names: Names, w: Window, pos: nat, counts: Counts)
    requires pos <= |w.bytes| <= MAX_SAFE_INTEGER && ReadLists(names, w, pos, counts, true).Ok?
    ensures var wide, narrow := ReadLists(names, w, pos, counts, true), ReadLists(names, w, pos, counts, false);
      && (narrow.Ok? <==> AllReadable(names, wide.value.pairs))
      && (narrow.Ok? ==> narrow.pos == wide.pos && SameReport(names, wide.value, narrow.value))
  {
    NarrowPairsRead(names, w, pos, counts.metadata);
    var pairs := ReadPairs(names, w, pos, counts.metadata, true);
    if AllReadable(names, pairs.value) {
      var narrowPairs := ReadPairs(names, w, pos, counts.metadata, false);
      SameMetadata(names, pairs.value, narrowPairs.value);
      NarrowTensorsRead(names, w, pairs.pos, counts.tensors);
      var wide := ReadTensors(names, w, pairs.pos, counts.tensors, true);
      var narrow := ReadTensors(names, w, pairs.pos, counts.tensors, false);
      SameParameterCount(wide.value, narrow.value);
    }
  }

  // ----- a file that only the widened read accepts

  lemma {:induction false} Zeros(bytes: seq<Byte>)
    requires forall i | 0 <= i < |bytes| :: bytes[i] == 0
    ensures Number(bytes, true) == 0
  {
    if bytes != [] {
      Zeros(bytes[1..]);
    }
  }

  lemma UintAt(w: Window, pos: nat, n: nat, value: Byte)
    requires w.littleEndian && 0 < n <= 8 && pos + n <= |w.bytes|
    requires w.bytes[pos] == value && forall i | pos < i < pos + n :: w.bytes[i] == 0
    ensures ReadUint(w, pos, n) == Ok(value, pos + n)
  {
    var bytes := w.bytes[pos..pos + n];
    Zeros(bytes[1..]);
  }

  /** Version 3, no tensors, and one pair: the key "x" with an empty array of type 13. */
  predicate UndefinedArrayFile(bytes: seq<Byte>) {
    && |bytes| == 49 && bytes[0] == bytes[1] == 0x47 && bytes[2] == 0x55 && bytes[3] == 0x46
    && bytes[4] == 3 && bytes[16] == bytes[24] == 1 && bytes[32] == 0x78 && bytes[33] == 9 && bytes[37] == 13
    && forall i | 4 < i < 49 && i !in {16, 24, 32, 33, 37} :: bytes[i] == 0
  }

  lemma UndefinedArrayKey(names: Names, w: Window)
    requires UndefinedArrayFile(w.bytes) && w.littleEndian && names.decode([0x78]) == "x"
    ensures ReadKey(names, w, 24) == Ok("x", 33)
  {
    UintAt(w, 24, 8, 1);
    assert w.bytes[32..33] == [0x78];
  }

  lemma UndefinedArrayPair(names: Names, w: Window)
    requires UndefinedArrayFile(w.bytes) && w.littleEndian && names.decode([0x78]) == "x"
    ensures ReadPair(names, w, 24, true) == Ok(Pair("x", Some(Items(13, []))), 49)
  {
    UndefinedArrayKey(names, w);
    UintAt(w, 33, 4, 9);
    UintAt(w, 37, 4, 13);
    UintAt(w, 41, 8, 0);
    assert ReadItems(w, 49, 13, 0, true, []) == Ok([], 49);
    assert ReadArray(w, 49, 13, 0, true) == Ok(Items(13, []), 49);
  }

  lemma UndefinedArrayCounts(w: Window)
    requires UndefinedArrayFile(w.bytes) && w.littleEndian
    ensures ReadCounts(w, 4) == Ok(Counts(3, 0, 1), 24)
  {
    UintAt(w, 4, 4, 3);
    UintAt(w, 8, 8, 0);
    UintAt(w, 16, 8, 1);
  }

  lemma OnePair(names: Names, w: Window, pos: nat)
    requires pos <= |w.bytes| && ReadPair(names, w, pos, true).Ok?
    ensures ReadPairs(names, w, pos, 1, true)
      == Ok([ReadPair(names, w, pos, true).value], ReadPair(names, w, pos, true).pos)
  {
    var read, item := PairReader(names, w, true), ReadPair(names, w, pos, true);
    assert ReadMany(read, |w.bytes|, item.pos, 0, [item.value]) == Ok([item.value], item.pos);
    assert [] + [item.value] == [item.value];
  }

  lemma UndefinedArrayBody(names: Names, w: Window)
    requires UndefinedArrayFile(w.bytes) && w.littleEndian && names.decode([0x78]) == "x"
    ensures ReadBody(names, w, 4, true) == Ok(Header(3, 0, 1, [Pair("x", Some(Items(13, [])))], []), 49)
  {
    UndefinedArrayCounts(w);
    UndefinedArrayPair(names, w);
    OnePair(names, w, 24);
    assert ReadTensors(names, w, 49, 0, true) == Ok([], 49);
  }

  lemma LittleMagic(w: Window)
    requires |w.bytes| >= 4 && w.bytes[0] == w.bytes[1] == 0x47 && w.bytes[2] == 0x55 && w.bytes[3] == 0x46
    ensures var magic := Take(w, 0, 4); magic.Ok? && magic.pos == 4 && ByteOrder(magic.value) == Some(true)
  {
    assert w.bytes[0..4] == [0x47, 0x47, 0x55, 0x46];
  }

  lemma UndefinedArrayHeader(names: Names, w: Window)
    requires UndefinedArrayFile(w.bytes) && names.decode([0x78]) == "x"
    ensures ParseHeader(names, w, true) == Ok(Header(3, 0, 1, [Pair("x", Some(Items(13, [])))], []), 49)
  {
    LittleMagic(w);
    UndefinedArrayBody(names, w.(littleEndian := true));
  }

  /** The widened read accepts this file, and the narrow read, which has to skip the array, refuses it. */
  lemma {:induction false} UndefinedArraySplits(names: Names, w: Window)
    requires UndefinedArrayFile(w.bytes) && names.decode([0x78]) == "x" && !names.whitelisted("x")
    ensures ParseHeader(names, w, true).Ok? && !ParseHeader(names, w, false).Ok?
  {
    UndefinedArrayHeader(names, w);
    var pairs := ParseHeader(names, w, true).value.pairs;
    assert !Readable(names, pairs[0]);
    NarrowReadIff(names, w);
  }
}
