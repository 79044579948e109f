/**
 The metadata values of a GGUF file as they are stored, their bytes, and what a
 read keeps of them: the reader accepts exactly the bytes of stored values, and
 captures or skips what they store.
 */
module GgufContents {
  import opened Wrappers
  import opened GgufValues
  import opened GgufHeader
  import opened GgufSpelling
  import opened GgufLists

  const UINT8 := 0
  const INT8 := 1
  const UINT16 := 2
  const INT16 := 3
  const UINT32 := 4
  const INT32 := 5
  const FLOAT32 := 6
  const BOOL := 7
  const UINT64 := 10
  const INT64 := 11
  const FLOAT64 := 12

  /** A value as stored. */
  datatype Stored =
    | Fixed(kind: nat, bytes: seq<Byte>)
    | Chars(text: seq<Byte>)
    | List(elementType: nat, items: seq<Stored>)

  function KindOf(s: Stored): nat {
    match s
    case Fixed(kind, _) => kind
    case Chars(_) => 8
    case List(_, _) => 9
  }

  /** The fixed sizes of section "File Structure" of ggml's gguf.md. */
  predicate FixedSize(kind: nat, n: nat) {
    || (kind in {UINT8, INT8, BOOL} && n == 1)
    || (kind in {UINT16, INT16} && n == 2)
    || (kind in {UINT32, INT32, FLOAT32} && n == 4)
    || (kind in {UINT64, INT64, FLOAT64} && n == 8)
  }

  lemma FixedSizes(kind: nat, n: nat)
    ensures FixedSize(kind, n) <==> n > 0 && FixedBytes(kind) == n
  {
  }

  /** Fixed values have their size, and the items of a list are of the type that it declares. */
  predicate WellTyped(s: Stored) {
    match s
    case Fixed(kind, bytes) => FixedSize(kind, |bytes|)
    case Chars(_) => true
    case List(elementType, items) =>
      && elementType < 0x1_0000_0000
      && forall i | 0 <= i < |items| :: KindOf(items[i]) == elementType && WellTyped(items[i])
  }

  /** Every list in the value declares one of the thirteen types. */
  predicate Skippable(s: Stored) {
    s.List? ==> s.elementType <= 12 && forall i | 0 <= i < |s.items| :: Skippable(s.items[i])
  }

  /** So does every list that is too long to be captured; a captured one only has to hold what can be read. */
  predicate Capturable(s: Stored) {
    s.List? ==>
      forall i | 0 <= i < |s.items| :: if |s.items| > 4096 then Skippable(s.items[i]) else Capturable(s.items[i])
  }

  // ----- bytes

  function Written(s: Stored, littleEndian: bool): (bytes: seq<Byte>)
    decreases s
  {
    match s
    case Fixed(_, bytes) => bytes
    case Chars(text) => Spelled(|text|, 8, littleEndian) + text
    case List(elementType, items) =>
      Spelled(elementType, 4, littleEndian) + Spelled(|items|, 8, littleEndian)
      + Concat(seq(|items|, i requires 0 <= i < |items| => Written(items[i], littleEndian)))
  }

  function Concat(parts: seq<seq<Byte>>): seq<Byte> {
    if parts == [] then [] else parts[0] + Concat(parts[1..])
  }

  /** How values are written in a byte order. */
  function Writer(littleEndian: bool): Stored -> seq<Byte> {
    s => Written(s, littleEndian)
  }

  lemma {:induction false} ItemsAreConcat(items: seq<Stored>, littleEndian: bool)
    ensures Concat(seq(|items|, i requires 0 <= i < |items| => Written(items[i], littleEndian)))
         == Joined(Writer(littleEndian), items)
  {
    var parts := seq(|items|, i requires 0 <= i < |items| => Written(items[i], littleEndian));
    if items != [] {
      ItemsAreConcat(items[1..], littleEndian);
      var rest := items[1..];
      assert parts[1..] == seq(|rest|, i requires 0 <= i < |rest| => Written(rest[i], littleEndian));
    }
  }

  lemma WrittenList(elementType: nat, items: seq<Stored>, littleEndian: bool)
    ensures Written(List(elementType, items), littleEndian)
         == Spelled(elementType, 4, littleEndian) + Spelled(|items|, 8, littleEndian)
            + Joined(Writer(littleEndian), items)
  {
    ItemsAreConcat(items, littleEndian);
  }

  // ----- what a read keeps

  /** A string over 1 MiB and a list of more than 4096 items become placeholders, or null without placeholders. */
  function Kept(s: Stored, littleEndian: bool, placeholders: bool): Value
    decreases s
  {
    match s
    case Fixed(kind, bytes) => Scalar(kind, bytes, littleEndian)
    case Chars(text) => if |text| <= 1048576 then Text(text) else if placeholders then LongText(|text|) else Null
    case List(elementType, items) =>
      if |items| <= 4096
      then Items(elementType, seq(|items|, i requires 0 <= i < |items| => Kept(items[i], littleEndian, placeholders)))
      else if placeholders then LongArray(elementType, |items|) else Null
  }

  function Keeper(littleEndian: bool, placeholders: bool): Stored -> Value {
    s => Kept(s, littleEndian, placeholders)
  }

  /** What is kept of a list, said of what is kept of its items. */
  function KeptList(elementType: nat, items: seq<Stored>, littleEndian: bool, placeholders: bool): Value {
    if |items| <= 4096 then Items(elementType, Mapped(Keeper(littleEndian, placeholders), items))
    else if placeholders then LongArray(elementType, |items|) else Null
  }

  lemma KeptIsKeptList(elementType: nat, items: seq<Stored>, littleEndian: bool, placeholders: bool)
    ensures Kept(List(elementType, items), littleEndian, placeholders)
         == KeptList(elementType, items, littleEndian, placeholders)
  {
    if |items| <= 4096 {
      assert Kept(List(elementType, items), littleEndian, placeholders).items
          == Mapped(Keeper(littleEndian, placeholders), items);
    }
  }

  /** Without placeholders a value is kept with null for each of them. */
  lemma {:induction false} KeptWithoutPlaceholders(s: Stored, littleEndian: bool)
    ensures LegacyValue(Kept(s, littleEndian, true)) == Kept(s, littleEndian, false)
    decreases s
  {
    if s.List? && |s.items| <= 4096 {
      forall i | 0 <= i < |s.items|
        ensures LegacyValue(Kept(s.items[i], littleEndian, true)) == Kept(s.items[i], littleEndian, false)
      {
        KeptWithoutPlaceholders(s.items[i], littleEndian);
      }
    }
  }

  // ----- items as a list

  predicate AllOf(items: seq<Stored>, elementType: nat) {
    forall i | 0 <= i < |items| :: KindOf(items[i]) == elementType && WellTyped(items[i])
  }

  predicate AllSkippable(items: seq<Stored>) {
    forall i | 0 <= i < |items| :: Skippable(items[i])
  }

  predicate AllCapturable(items: seq<Stored>) {
    forall i | 0 <= i < |items| :: Capturable(items[i])
  }

  function Standing(w: Window): (nat, seq<Byte>) -> bool {
    (p: nat, bytes: seq<Byte>) => At(w, p, bytes)
  }

  lemma StandingSplits(w: Window)
    ensures Splits(Standing(w)) && forall p: nat | p <= |w.bytes| :: Standing(w)(p, [])
  {
    forall p: nat, first, second
      ensures Standing(w)(p, first + second) <==> Standing(w)(p, first) && Standing(w)(p + |first|, second)
    {
      AtParts(w, p, first, second);
    }
  }

  function SkipReader(w: Window, elementType: nat): (read: nat -> Outcome<()>)
    ensures ReadsFrom(read, |w.bytes|)
  {
    (p: nat) => if p <= |w.bytes| then SkipValue(w, p, elementType) else Fail
  }

  function ValueReader(w: Window, elementType: nat, placeholders: bool): (read: nat -> Outcome<Value>)
    ensures ReadsFrom(read, |w.bytes|)
  {
    (p: nat) => if p <= |w.bytes| then ReadValue(w, p, elementType, placeholders) else Fail
  }

  /** What a skip keeps of a value. */
  function Nothing(): Stored -> () {
    s => ()
  }

  function Done(skipped: Outcome<seq<()>>): Outcome<()> {
    match skipped
    case Ok(_, pos) => Ok((), pos)
    case NeedMore(required) => NeedMore(required)
    case Fail => Fail
  }

  lemma {:induction false} SkipsMany(w: Window, pos: nat, elementType: nat, count: nat, before: seq<()>)
    requires pos <= |w.bytes|
    ensures SkipItems(w, pos, elementType, count)
         == Done(ReadMany(SkipReader(w, elementType), |w.bytes|, pos, count, before))
    decreases count
  {
    if count > 0 && SkipValue(w, pos, elementType).Ok? {
      var item := SkipValue(w, pos, elementType);
      SkipsMany(w, item.pos, elementType, count - 1, before + [item.value]);
    }
  }

  lemma {:induction false} ReadsMany(w: Window, pos: nat, elementType: nat, count: nat, placeholders: bool,
                                     before: seq<Value>)
    requires pos <= |w.bytes|
    ensures ReadItems(w, pos, elementType, count, placeholders, before)
         == ReadMany(ValueReader(w, elementType, placeholders), |w.bytes|, pos, count, before)
    decreases count
  {
    if count > 0 && ReadValue(w, pos, elementType, placeholders).Ok? {
      var item := ReadValue(w, pos, elementType, placeholders);
      ReadsMany(w, item.pos, elementType, count - 1, placeholders, before + [item.value]);
    }
  }

  // ----- skipping what was written

  lemma {:induction false} FixedItemsSize(items: seq<Stored>, elementType: nat, littleEndian: bool)
    requires AllOf(items, elementType) && FixedBytes(elementType) > 0
    ensures |Joined(Writer(littleEndian), items)| == |items| * FixedBytes(elementType)
  {
    if items != [] {
      FixedItemsSize(items[1..], elementType, littleEndian);
      FixedSizes(elementType, |items[0].bytes|);
    }
  }

  lemma CountThenText(w: Window, pos: nat, text: seq<Byte>)
    requires At(w, pos, Spelled(|text|, 8, w.littleEndian) + text)
    ensures At(w, pos, Spelled(|text|, 8, w.littleEndian)) && At(w, pos + 8, text)
  {
    AtParts(w, pos, Spelled(|text|, 8, w.littleEndian), text);
  }

  lemma CharsAt(w: Window, pos: nat, text: seq<Byte>)
    requires |w.bytes| <= MAX_SAFE_INTEGER && At(w, pos, Spelled(|text|, 8, w.littleEndian) + text)
    ensures ReadCount(w, pos) == Ok(|text|, pos + 8) && Take(w, pos + 8, |text|) == Ok(text, pos + 8 + |text|)
  {
    CountThenText(w, pos, text);
    TakeIff(w, pos + 8, text);
    ReadCountIff(w, pos, |text|);
  }

  lemma ListAt(w: Window, pos: nat, elementType: nat, items: seq<Stored>)
    requires |w.bytes| <= MAX_SAFE_INTEGER && At(w, pos, Written(List(elementType, items), w.littleEndian))
    requires elementType < 0x1_0000_0000 && |items| <= MAX_SAFE_INTEGER
    ensures ReadArrayHead(w, pos) == Ok(ArrayHead(elementType, |items|), pos + 12)
    ensures At(w, pos + 12, Joined(Writer(w.littleEndian), items))
  {
    var kind, count := Spelled(elementType, 4, w.littleEndian), Spelled(|items|, 8, w.littleEndian);
    WrittenList(elementType, items, w.littleEndian);
    AtParts(w, pos, kind + count, Joined(Writer(w.littleEndian), items));
    AtParts(w, pos, kind, count);
    Places();
    ReadUintIff(w, pos, 4, elementType);
    ReadCountIff(w, pos + 4, |items|);
  }

  /** A written value is not empty. */
  lemma WrittenSize(s: Stored, littleEndian: bool)
    requires WellTyped(s)
    ensures |Written(s, littleEndian)| > 0
  {
  }

  lemma {:induction false} ItemsSize(items: seq<Stored>, elementType: nat, littleEndian: bool)
    requires AllOf(items, elementType)
    ensures |items| <= |Joined(Writer(littleEndian), items)|
  {
    if items != [] {
      WrittenSize(items[0], littleEndian);
      ItemsSize(items[1..], elementType, littleEndian);
    }
  }

  lemma ListIsShort(w: Window, pos: nat, elementType: nat, items: seq<Stored>)
    requires |w.bytes| <= MAX_SAFE_INTEGER && At(w, pos, Written(List(elementType, items), w.littleEndian))
    requires AllOf(items, elementType)
    ensures |items| <= MAX_SAFE_INTEGER
  {
    ItemsSize(items, elementType, w.littleEndian);
    WrittenList(elementType, items, w.littleEndian);
  }

  lemma SkipsFixed(w: Window, pos: nat, kind: nat, bytes: seq<Byte>)
    requires |w.bytes| <= MAX_SAFE_INTEGER && FixedSize(kind, |bytes|) && At(w, pos, bytes)
    ensures SkipValue(w, pos, kind) == Ok((), pos + |bytes|)
  {
    FixedSizes(kind, |bytes|);
    TakeIff(w, pos, bytes);
  }

  lemma {:induction false} SkipsWritten(w: Window, pos: nat, s: Stored)
    requires |w.bytes| <= MAX_SAFE_INTEGER && WellTyped(s) && Skippable(s) && At(w, pos, Written(s, w.littleEndian))
    ensures SkipValue(w, pos, KindOf(s)) == Ok((), pos + |Written(s, w.littleEndian)|)
    decreases |w.bytes| - pos, 1
  {
    match s
    case Fixed(kind, bytes) => SkipsFixed(w, pos, kind, bytes);
    case Chars(text) => CharsAt(w, pos, text);
    case List(elementType, items) => SkipsWrittenList(w, pos, elementType, items);
  }

  lemma {:induction false} SkipsWrittenList(w: Window, pos: nat, elementType: nat, items: seq<Stored>)
    requires |w.bytes| <= MAX_SAFE_INTEGER && At(w, pos, Written(List(elementType, items), w.littleEndian))
    requires WellTyped(List(elementType, items)) && Skippable(List(elementType, items))
    ensures SkipValue(w, pos, ARRAY) == Ok((), pos + |Written(List(elementType, items), w.littleEndian)|)
    decreases |w.bytes| - pos, 0
  {
    ListIsShort(w, pos, elementType, items);
    ListAt(w, pos, elementType, items);
    WrittenList(elementType, items, w.littleEndian);
    SkipsWrittenItems(w, pos + 12, elementType, items);
  }

  lemma {:induction false} SkipsWrittenItems(w: Window, pos: nat, elementType: nat, items: seq<Stored>)
    requires |w.bytes| <= MAX_SAFE_INTEGER && AllOf(items, elementType) && AllSkippable(items)
    requires elementType <= 12 && At(w, pos, Joined(Writer(w.littleEndian), items))
    ensures SkipArray(w, pos, elementType, |items|) == Ok((), pos + |Joined(Writer(w.littleEndian), items)|)
    decreases |w.bytes| - pos, 4
  {
    if FixedBytes(elementType) > 0 {
      FixedItemsSize(items, elementType, w.littleEndian);
    } else {
      SkipsEachItem(w, pos, elementType, items);
    }
  }

  lemma {:induction false} SkipsEachItem(w: Window, pos: nat, elementType: nat, items: seq<Stored>)
    requires |w.bytes| <= MAX_SAFE_INTEGER && AllOf(items, elementType) && AllSkippable(items)
    requires At(w, pos, Joined(Writer(w.littleEndian), items))
    ensures SkipItems(w, pos, elementType, |items|) == Ok((), pos + |Joined(Writer(w.littleEndian), items)|)
    decreases |w.bytes| - pos, 3
  {
    var read, spelled, kept := SkipReader(w, elementType), Writer(w.littleEndian), Nothing();
    forall i | 0 <= i < |items| ensures ReadsItem(read, Standing(w), spelled, kept, pos, items[i]) {
      SkipsItemThere(w, pos, items[i]);
    }
    StandingSplits(w);
    SkipsMany(w, pos, elementType, |items|, []);
    ReadsJoined(read, |w.bytes|, Standing(w), spelled, kept, pos, pos, items, []);
  }

  lemma {:induction false} SkipsItemThere(w: Window, pos: nat, item: Stored)
    requires |w.bytes| <= MAX_SAFE_INTEGER && WellTyped(item) && Skippable(item)
    ensures ReadsItem(SkipReader(w, KindOf(item)), Standing(w), Writer(w.littleEndian), Nothing(), pos, item)
    decreases |w.bytes| - pos, 2
  {
    forall p: nat | pos <= p && Standing(w)(p, Writer(w.littleEndian)(item))
      ensures SkipReader(w, KindOf(item))(p) == Ok(Nothing()(item), p + |Writer(w.littleEndian)(item)|)
    {
      SkipsWritten(w, p, item);
    }
  }

  // ----- reading what was written

  /** A value is read back as what is kept of it, and the read ends behind it. */
  lemma {:induction false} ReadsWritten(w: Window, pos: nat, s: Stored, placeholders: bool)
    requires |w.bytes| <= MAX_SAFE_INTEGER && WellTyped(s) && Capturable(s) && At(w, pos, Written(s, w.littleEndian))
    ensures ReadValue(w, pos, KindOf(s), placeholders)
         == Ok(Kept(s, w.littleEndian, placeholders), pos + |Written(s, w.littleEndian)|)
    decreases |w.bytes| - pos, 1
  {
    match s
    case Fixed(kind, bytes) => ReadsFixed(w, pos, kind, bytes, placeholders);
    case Chars(text) => ReadsChars(w, pos, text, placeholders);
    case List(elementType, items) =>
      ListIsShort(w, pos, elementType, items);
      ListAt(w, pos, elementType, items);
      WrittenList(elementType, items, w.littleEndian);
      ReadsWrittenArray(w, pos + 12, elementType, items, placeholders);
  }

  lemma ReadsFixed(w: Window, pos: nat, kind: nat, bytes: seq<Byte>, placeholders: bool)
    requires |w.bytes| <= MAX_SAFE_INTEGER && FixedSize(kind, |bytes|) && At(w, pos, bytes)
    ensures ReadValue(w, pos, kind, placeholders) == Ok(Scalar(kind, bytes, w.littleEndian), pos + |bytes|)
  {
    FixedSizes(kind, |bytes|);
    TakeIff(w, pos, bytes);
  }

  lemma ReadsChars(w: Window, pos: nat, text: seq<Byte>, placeholders: bool)
    requires |w.bytes| <= MAX_SAFE_INTEGER && At(w, pos, Written(Chars(text), w.littleEndian))
    ensures ReadValue(w, pos, 8, placeholders)
         == Ok(Kept(Chars(text), w.littleEndian, placeholders), pos + |Written(Chars(text), w.littleEndian)|)
  {
    CharsAt(w, pos, text);
  }

  lemma LongListIsTyped(elementType: nat, items: seq<Stored>)
    requires AllOf(items, elementType) && items != []
    ensures elementType <= 12
  {
    assert KindOf(items[0]) == elementType;
  }

  lemma {:induction false} ReadsWrittenArray(w: Window, pos: nat, elementType: nat, items: seq<Stored>,
                                             placeholders: bool)
    requires |w.bytes| <= MAX_SAFE_INTEGER && AllOf(items, elementType) && Capturable(List(elementType, items))
    requires At(w, pos, Joined(Writer(w.littleEndian), items))
    ensures ReadArray(w, pos, elementType, |items|, placeholders)
         == Ok(Kept(List(elementType, items), w.littleEndian, placeholders),
               pos + |Joined(Writer(w.littleEndian), items)|)
    decreases |w.bytes| - pos, 4
  {
    KeptIsKeptList(elementType, items, w.littleEndian, placeholders);
    if |items| > 4096 {
      LongListIsTyped(elementType, items);
      SkipsWrittenItems(w, pos, elementType, items);
    } else {
      ReadsWrittenItems(w, pos, elementType, items, placeholders);
    }
  }

  lemma {:induction false} ReadsWrittenItems(w: Window, pos: nat, elementType: nat, items: seq<Stored>,
                                             placeholders: bool)
    requires |w.bytes| <= MAX_SAFE_INTEGER && AllOf(items, elementType) && AllCapturable(items)
    requires At(w, pos, Joined(Writer(w.littleEndian), items))
    ensures ReadItems(w, pos, elementType, |items|, placeholders, [])
         == Ok(Mapped(Keeper(w.littleEndian, placeholders), items), pos + |Joined(Writer(w.littleEndian), items)|)
    decreases |w.bytes| - pos, 3
  {
    var read, spelled := ValueReader(w, elementType, placeholders), Writer(w.littleEndian);
    var kept := Keeper(w.littleEndian, placeholders);
    forall i | 0 <= i < |items| ensures ReadsItem(read, Standing(w), spelled, kept, pos, items[i]) {
      ReadsItemThere(w, pos, items[i], placeholders);
    }
    StandingSplits(w);
    ReadsMany(w, pos, elementType, |items|, placeholders, []);
    ReadsJoined(read, |w.bytes|, Standing(w), spelled, kept, pos, pos, items, []);
    assert [] + Mapped(kept, items) == Mapped(kept, items);
  }

  lemma {:induction false} ReadsItemThere(w: Window, pos: nat, item: Stored, placeholders: bool)
    requires |w.bytes| <= MAX_SAFE_INTEGER && WellTyped(item) && Capturable(item)
    ensures ReadsItem(ValueReader(w, KindOf(item), placeholders), Standing(w), Writer(w.littleEndian),
                      Keeper(w.littleEndian, placeholders), pos, item)
    decreases |w.bytes| - pos, 2
  {
    forall p: nat | pos <= p && Standing(w)(p, Writer(w.littleEndian)(item))
      ensures ValueReader(w, KindOf(item), placeholders)(p)
           == Ok(Keeper(w.littleEndian, placeholders)(item), p + |Writer(w.littleEndian)(item)|)
    {
      ReadsWritten(w, p, item, placeholders);
    }
  }

  // ----- what is accepted was written

  function SkippableOf(elementType: nat): Stored -> bool {
    s => KindOf(s) == elementType && WellTyped(s) && Skippable(s)
  }

  function CapturableOf(elementType: nat): Stored -> bool {
    s => KindOf(s) == elementType && WellTyped(s) && Capturable(s)
  }

  lemma AllSkippableOf(elementType: nat, items: seq<Stored>)
    requires All(SkippableOf(elementType), items)
    ensures AllOf(items, elementType) && AllSkippable(items)
  {
    forall i | 0 <= i < |items| ensures SkippableOf(elementType)(items[i]) {
    }
  }

  lemma AllCapturableOf(elementType: nat, items: seq<Stored>)
    requires All(CapturableOf(elementType), items)
    ensures AllOf(items, elementType) && AllCapturable(items)
  {
    forall i | 0 <= i < |items| ensures CapturableOf(elementType)(items[i]) {
    }
  }

  lemma CharsIsAt(w: Window, pos: nat) returns (text: seq<Byte>)
    requires |w.bytes| <= MAX_SAFE_INTEGER && SkipString(w, pos).Ok?
    ensures SkipString(w, pos).pos == pos + 8 + |text| && ReadCount(w, pos) == Ok(|text|, pos + 8)
    ensures Take(w, pos + 8, |text|) == Ok(text, pos + 8 + |text|)
    ensures At(w, pos, Spelled(|text|, 8, w.littleEndian) + text)
  {
    text := Take(w, pos + 8, ReadCount(w, pos).value).value;
    ReadCountIff(w, pos, |text|);
    TakeIff(w, pos + 8, text);
    AtParts(w, pos, Spelled(|text|, 8, w.littleEndian), text);
  }

  lemma ListIsAt(w: Window, pos: nat, elementType: nat, items: seq<Stored>)
    requires |w.bytes| <= MAX_SAFE_INTEGER && ReadArrayHead(w, pos) == Ok(ArrayHead(elementType, |items|), pos + 12)
    requires At(w, pos + 12, Joined(Writer(w.littleEndian), items))
    ensures elementType < 0x1_0000_0000 && At(w, pos, Written(List(elementType, items), w.littleEndian))
    ensures |Written(List(elementType, items), w.littleEndian)| == 12 + |Joined(Writer(w.littleEndian), items)|
  {
    var kind, count := Spelled(elementType, 4, w.littleEndian), Spelled(|items|, 8, w.littleEndian);
    Places();
    ReadUintIff(w, pos, 4, elementType);
    ReadCountIff(w, pos + 4, |items|);
    AtParts(w, pos, kind, count);
    AtParts(w, pos, kind + count, Joined(Writer(w.littleEndian), items));
    WrittenList(elementType, items, w.littleEndian);
  }

  /** A block of bytes is the items of a fixed-size type that fill it. */
  lemma {:induction false} BlockOfItems(bytes: seq<Byte>, kind: nat, count: nat, littleEndian: bool)
    returns (items: seq<Stored>)
    requires FixedBytes(kind) > 0 && |bytes| == count * FixedBytes(kind)
    ensures |items| == count && AllOf(items, kind) && AllSkippable(items)
    ensures Joined(Writer(littleEndian), items) == bytes
  {
    if count == 0 {
      items := [];
    } else {
      var n := FixedBytes(kind);
      FixedSizes(kind, n);
      assert count * n == n + (count - 1) * n;
      var rest := BlockOfItems(bytes[n..], kind, count - 1, littleEndian);
      var first := Fixed(kind, bytes[..n]);
      items := [first] + rest;
      assert items[1..] == rest;
      assert Written(first, littleEndian) + bytes[n..] == bytes;
    }
  }

  /** What can be skipped is a stored value all of whose lists are of a defined type. */
  lemma {:induction false} SkippedIsWritten(w: Window, pos: nat, kind: nat) returns (s: Stored)
    requires pos <= |w.bytes| <= MAX_SAFE_INTEGER && SkipValue(w, pos, kind).Ok?
    ensures KindOf(s) == kind && WellTyped(s) && Skippable(s) && At(w, pos, Written(s, w.littleEndian))
    ensures SkipValue(w, pos, kind) == Ok((), pos + |Written(s, w.littleEndian)|)
    decreases |w.bytes| - pos, 0
  {
    if kind == ARRAY {
      var head := ReadArrayHead(w, pos);
      var items := SkippedItemsAreWritten(w, head.pos, head.value.elementType, head.value.count);
      ListIsAt(w, pos, head.value.elementType, items);
      s := List(head.value.elementType, items);
    } else if FixedBytes(kind) > 0 {
      s := FixedAt(w, pos, kind);
    } else {
      var text := CharsIsAt(w, pos);
      s := Chars(text);
    }
  }

  lemma FixedAt(w: Window, pos: nat, kind: nat) returns (s: Stored)
    requires FixedBytes(kind) > 0 && Take(w, pos, FixedBytes(kind)).Ok?
    ensures s == Fixed(kind, Take(w, pos, FixedBytes(kind)).value) && FixedSize(kind, |s.bytes|)
    ensures KindOf(s) == kind && WellTyped(s) && At(w, pos, Written(s, w.littleEndian))
  {
    s := Fixed(kind, Take(w, pos, FixedBytes(kind)).value);
    FixedSizes(kind, |s.bytes|);
  }

  lemma {:induction false} SkippedItemsAreWritten(w: Window, pos: nat, elementType: nat, count: nat)
    returns (items: seq<Stored>)
    requires pos <= |w.bytes| <= MAX_SAFE_INTEGER && SkipArray(w, pos, elementType, count).Ok?
    ensures |items| == count && AllOf(items, elementType) && AllSkippable(items) && elementType <= 12
    ensures At(w, pos, Joined(Writer(w.littleEndian), items))
    ensures SkipArray(w, pos, elementType, count) == Ok((), pos + |Joined(Writer(w.littleEndian), items)|)
    decreases |w.bytes| - pos, 3
  {
    if FixedBytes(elementType) > 0 {
      var n := count * FixedBytes(elementType);
      items := BlockOfItems(w.bytes[pos..pos + n], elementType, count, w.littleEndian);
    } else {
      items := EachSkippedIsWritten(w, pos, elementType, count);
    }
  }

  lemma {:induction false} EachSkippedIsWritten(w: Window, pos: nat, elementType: nat, count: nat)
    returns (items: seq<Stored>)
    requires pos <= |w.bytes| <= MAX_SAFE_INTEGER && SkipItems(w, pos, elementType, count).Ok?
    ensures |items| == count && AllOf(items, elementType) && AllSkippable(items)
    ensures At(w, pos, Joined(Writer(w.littleEndian), items))
    ensures SkipItems(w, pos, elementType, count) == Ok((), pos + |Joined(Writer(w.littleEndian), items)|)
    decreases |w.bytes| - pos, 2
  {
    var read, spelled, kept := SkipReader(w, elementType), Writer(w.littleEndian), Nothing();
    forall p: nat | pos <= p ensures ReadIsSpelled(read, Standing(w), spelled, kept, SkippableOf(elementType), p) {
      SkippedIsSpelled(w, p, elementType);
    }
    StandingSplits(w);
    SkipsMany(w, pos, elementType, count, []);
    items := ManyAreJoined(read, |w.bytes|, Standing(w), spelled, kept, SkippableOf(elementType), pos, pos, count, []);
    AllSkippableOf(elementType, items);
  }

  lemma {:induction false} SkippedIsSpelled(w: Window, p: nat, elementType: nat)
    requires |w.bytes| <= MAX_SAFE_INTEGER
    ensures ReadIsSpelled(SkipReader(w, elementType), Standing(w), Writer(w.littleEndian), Nothing(),
                          SkippableOf(elementType), p)
    decreases |w.bytes| - p, 1
  {
    if p <= |w.bytes| && SkipValue(w, p, elementType).Ok? {
      var item := SkippedIsWritten(w, p, elementType);
      assert SkippableOf(elementType)(item) && Standing(w)(p, Writer(w.littleEndian)(item));
    }
  }

  /** What can be captured is a stored value, and what is read is what is kept of it. */
  lemma {:induction false} ReadIsWritten(w: Window, pos: nat, kind: nat, placeholders: bool) returns (s: Stored)
    requires pos <= |w.bytes| <= MAX_SAFE_INTEGER && ReadValue(w, pos, kind, placeholders).Ok?
    ensures KindOf(s) == kind && WellTyped(s) && Capturable(s) && At(w, pos, Written(s, w.littleEndian))
    ensures ReadValue(w, pos, kind, placeholders)
         == Ok(Kept(s, w.littleEndian, placeholders), pos + |Written(s, w.littleEndian)|)
    decreases |w.bytes| - pos, 1
  {
    if kind == ARRAY {
      s := ReadListIsWritten(w, pos, placeholders);
    } else if FixedBytes(kind) > 0 {
      s := FixedAt(w, pos, kind);
      ReadsFixed(w, pos, kind, s.bytes, placeholders);
    } else {
      assert SkipString(w, pos).Ok?;
      var text := CharsIsAt(w, pos);
      s := Chars(text);
      ReadsChars(w, pos, text, placeholders);
    }
  }

  lemma {:induction false} ReadListIsWritten(w: Window, pos: nat, placeholders: bool) returns (s: Stored)
    requires pos <= |w.bytes| <= MAX_SAFE_INTEGER && ReadValue(w, pos, ARRAY, placeholders).Ok?
    ensures s.List? && WellTyped(s) && Capturable(s) && At(w, pos, Written(s, w.littleEndian))
    ensures ReadValue(w, pos, ARRAY, placeholders)
         == Ok(Kept(s, w.littleEndian, placeholders), pos + |Written(s, w.littleEndian)|)
    decreases |w.bytes| - pos, 0
  {
    var head := ReadArrayHead(w, pos);
    var items := ReadArrayIsWritten(w, head.pos, head.value.elementType, head.value.count, placeholders);
    ListIsAt(w, pos, head.value.elementType, items);
    s := List(head.value.elementType, items);
  }

  lemma {:induction false} ReadArrayIsWritten(w: Window, pos: nat, elementType: nat, count: nat, placeholders: bool)
    returns (items: seq<Stored>)
    requires pos <= |w.bytes| <= MAX_SAFE_INTEGER && ReadArray(w, pos, elementType, count, placeholders).Ok?
    ensures |items| == count && AllOf(items, elementType) && Capturable(List(elementType, items))
    ensures At(w, pos, Joined(Writer(w.littleEndian), items))
    ensures ReadArray(w, pos, elementType, count, placeholders)
         == Ok(Kept(List(elementType, items), w.littleEndian, placeholders),
               pos + |Joined(Writer(w.littleEndian), items)|)
    decreases |w.bytes| - pos, 4
  {
    if count > 4096 {
      items := SkippedItemsAreWritten(w, pos, elementType, count);
    } else {
      items := EachReadIsWritten(w, pos, elementType, count, placeholders);
    }
    KeptIsKeptList(elementType, items, w.littleEndian, placeholders);
  }

  lemma {:induction false} EachReadIsWritten(w: Window, pos: nat, elementType: nat, count: nat, placeholders: bool)
    returns (items: seq<Stored>)
    requires pos <= |w.bytes| <= MAX_SAFE_INTEGER && ReadItems(w, pos, elementType, count, placeholders, []).Ok?
    ensures |items| == count && AllOf(items, elementType) && AllCapturable(items)
    ensures At(w, pos, Joined(Writer(w.littleEndian), items))
    ensures ReadItems(w, pos, elementType, count, placeholders, [])
         == Ok(Mapped(Keeper(w.littleEndian, placeholders), items), pos + |Joined(Writer(w.littleEndian), items)|)
    decreases |w.bytes| - pos, 3
  {
    var read, spelled := ValueReader(w, elementType, placeholders), Writer(w.littleEndian);
    var kept := Keeper(w.littleEndian, placeholders);
    forall p: nat | pos <= p ensures ReadIsSpelled(read, Standing(w), spelled, kept, CapturableOf(elementType), p) {
      ReadIsSpelledThere(w, p, elementType, placeholders);
    }
    StandingSplits(w);
    ReadsMany(w, pos, elementType, count, placeholders, []);
    items := ManyAreJoined(read, |w.bytes|, Standing(w), spelled, kept, CapturableOf(elementType), pos, pos, count, []);
    AllCapturableOf(elementType, items);
    assert [] + Mapped(kept, items) == Mapped(kept, items);
  }

  lemma {:induction false} ReadIsSpelledThere(w: Window, p: nat, elementType: nat, placeholders: bool)
    requires |w.bytes| <= MAX_SAFE_INTEGER
    ensures ReadIsSpelled(ValueReader(w, elementType, placeholders), Standing(w), Writer(w.littleEndian),
                          Keeper(w.littleEndian, placeholders), CapturableOf(elementType), p)
    decreases |w.bytes| - p, 2
  {
    if p <= |w.bytes| && ReadValue(w, p, elementType, placeholders).Ok? {
      var item := ReadIsWritten(w, p, elementType, placeholders);
      assert CapturableOf(elementType)(item) && Standing(w)(p, Writer(w.littleEndian)(item));
    }
  }
}
