/**
 Reading GGUF metadata values from the first bytes of a file. Every reader is a
 function of the bytes held, the offset and the byte order; it answers with a
 value and the next offset, with the number of bytes it needs, or with failure.
 */
module GgufValues {
  import opened Wrappers

  type Byte = b: nat | b < 256

  const MAX_SAFE_INTEGER: nat := 0x1F_FFFF_FFFF_FFFF
  const CAPTURE_ARRAY_LIMIT: nat := 4096
  const CAPTURE_STRING_BYTES: nat := 1024 * 1024
  const STRING: nat := 8
  const ARRAY: nat := 9
  const LAST_TYPE: nat := 12

  /** The bytes held. `partial`: they may stop inside the header; `fileBytes`: the size of the file, when known. */
  datatype Window = Window(bytes: seq<Byte>, partial: bool, fileBytes: Option<nat>, littleEndian: bool)

  datatype Outcome<+T> = Ok(value: T, pos: nat) | NeedMore(required: nat) | Fail {
    predicate IsFailure() { !Ok? }
    function PropagateFailure<U>(): Outcome<U>
      requires !Ok?
    {
      if NeedMore? then NeedMore(required) else Fail
    }
    function Extract(): (T, nat)
      requires Ok?
    {
      (value, pos)
    }
  }

  /** The outcome lies past `pos` and within the window. */
  predicate Advances<T>(r: Outcome<T>, w: Window, pos: nat) {
    r.Ok? ==> pos < r.pos <= |w.bytes|
  }

  function Take(w: Window, pos: nat, n: nat): (r: Outcome<seq<Byte>>)
    ensures r.Ok? ==> r.pos == pos + n <= |w.bytes| && |r.value| == n
  {
    var end := pos + n;
    if n <= MAX_SAFE_INTEGER && end <= |w.bytes| then Ok(w.bytes[pos..end], end)
    else if w.partial && end <= MAX_SAFE_INTEGER && (w.fileBytes.None? || end <= w.fileBytes.value) then NeedMore(end)
    else Fail
  }

  /** The unsigned integer that `bytes` spell. */
  function Number(bytes: seq<Byte>, littleEndian: bool): nat {
    if bytes == [] then 0
    else if littleEndian then bytes[0] + 256 * Number(bytes[1..], littleEndian)
    else bytes[|bytes| - 1] + 256 * Number(bytes[..|bytes| - 1], littleEndian)
  }

  function ReadUint(w: Window, pos: nat, n: nat): (r: Outcome<nat>)
    ensures r.Ok? ==> r.pos == pos + n <= |w.bytes|
  {
    var (bytes, p) :- Take(w, pos, n);
    Ok(Number(bytes, w.littleEndian), p)
  }

  /** An unsigned 64-bit count; one that a double cannot hold exactly is refused. */
  function ReadCount(w: Window, pos: nat): (r: Outcome<nat>)
    ensures r.Ok? ==> r.pos == pos + 8 <= |w.bytes| && r.value <= MAX_SAFE_INTEGER
  {
    var (count, p) :- ReadUint(w, pos, 8);
    if count <= MAX_SAFE_INTEGER then Ok(count, p) else Fail
  }

  // ----- values

  /**
   `Items` keeps the element type its array declared; `Null` is what an
   oversized value reads as without placeholders.
   */
  datatype Value =
    | Scalar(kind: nat, bytes: seq<Byte>, littleEndian: bool)
    | Text(text: seq<Byte>)
    | Items(elementType: nat, items: seq<Value>)
    | LongArray(itemType: nat, count: nat)
    | LongText(length: nat)
    | Null

  /** The bytes of a fixed-size type, 0 for every other type. */
  function FixedBytes(kind: nat): nat {
    if kind in {0, 1, 7} then 1
    else if kind in {2, 3} then 2
    else if kind in {4, 5, 6} then 4
    else if kind in {10, 11, 12} then 8
    else 0
  }

  function ReadString(w: Window, pos: nat, limit: nat, placeholders: bool): (r: Outcome<Value>)
    ensures Advances(r, w, pos)
  {
    var (length, p1) :- ReadCount(w, pos);
    var (text, p2) :- Take(w, p1, length);
    Ok(if length <= limit then Text(text) else if placeholders then LongText(length) else Null, p2)
  }

  function SkipString(w: Window, pos: nat): (r: Outcome<()>)
    ensures Advances(r, w, pos)
  {
    var (length, p1) :- ReadCount(w, pos);
    var (_, p2) :- Take(w, p1, length);
    Ok((), p2)
  }

  function ReadScalar(w: Window, pos: nat, kind: nat, placeholders: bool): (r: Outcome<Value>)
    ensures Advances(r, w, pos)
  {
    if FixedBytes(kind) > 0 then
      var (bytes, p) :- Take(w, pos, FixedBytes(kind));
      Ok(Scalar(kind, bytes, w.littleEndian), p)
    else if kind == STRING then ReadString(w, pos, CAPTURE_STRING_BYTES, placeholders)
    else Fail
  }

  function SkipScalar(w: Window, pos: nat, kind: nat): (r: Outcome<()>)
    ensures Advances(r, w, pos)
  {
    if FixedBytes(kind) > 0 then
      var (_, p) :- Take(w, pos, FixedBytes(kind));
      Ok((), p)
    else if kind == STRING then SkipString(w, pos)
    else Fail
  }

  datatype ArrayHead = ArrayHead(elementType: nat, count: nat)

  function ReadArrayHead(w: Window, pos: nat): (r: Outcome<ArrayHead>)
    ensures Advances(r, w, pos)
  {
    var (elementType, p1) :- ReadUint(w, pos, 4);
    var (count, p2) :- ReadCount(w, p1);
    Ok(ArrayHead(elementType, count), p2)
  }

  function SkipValue(w: Window, pos: nat, kind: nat): (r: Outcome<()>)
    requires pos <= |w.bytes|
    ensures Advances(r, w, pos)
    decreases |w.bytes| - pos, 0
  {
    if kind != ARRAY then SkipScalar(w, pos, kind)
    else
      var (head, p) :- ReadArrayHead(w, pos);
      SkipArray(w, p, head.elementType, head.count)
  }

  function SkipArray(w: Window, pos: nat, elementType: nat, count: nat): (r: Outcome<()>)
    requires pos <= |w.bytes|
    ensures r.Ok? ==> pos <= r.pos <= |w.bytes|
    decreases |w.bytes| - pos, 2
  {
    if FixedBytes(elementType) > 0 then
      var (_, p) :- Take(w, pos, count * FixedBytes(elementType));
      Ok((), p)
    else if elementType == STRING || elementType == ARRAY then SkipItems(w, pos, elementType, count)
    else Fail
  }

  function SkipItems(w: Window, pos: nat, elementType: nat, count: nat): (r: Outcome<()>)
    requires pos <= |w.bytes|
    ensures r.Ok? ==> pos <= r.pos <= |w.bytes|
    decreases |w.bytes| - pos, 1
  {
    if count == 0 then Ok((), pos)
    else
      var (_, p) :- SkipValue(w, pos, elementType);
      SkipItems(w, p, elementType, count - 1)
  }

  function ReadValue(w: Window, pos: nat, kind: nat, placeholders: bool): (r: Outcome<Value>)
    requires pos <= |w.bytes|
    ensures Advances(r, w, pos)
    decreases |w.bytes| - pos, 0
  {
    if kind != ARRAY then ReadScalar(w, pos, kind, placeholders)
    else
      var (head, p) :- ReadArrayHead(w, pos);
      ReadArray(w, p, head.elementType, head.count, placeholders)
  }

  function ReadArray(w: Window, pos: nat, elementType: nat, count: nat, placeholders: bool): (r: Outcome<Value>)
    requires pos <= |w.bytes|
    ensures r.Ok? ==> pos <= r.pos <= |w.bytes|
    decreases |w.bytes| - pos, 2
  {
    if count > CAPTURE_ARRAY_LIMIT then
      var (_, p) :- SkipArray(w, pos, elementType, count);
      Ok(if placeholders then LongArray(elementType, count) else Null, p)
    else
      var (items, p) :- ReadItems(w, pos, elementType, count, placeholders, []);
      Ok(Items(elementType, items), p)
  }

  /** Reads `count` more items after those in `before`. */
  function ReadItems(w: Window, pos: nat, elementType: nat, count: nat, placeholders: bool,
                     before: seq<Value>): (r: Outcome<seq<Value>>)
    requires pos <= |w.bytes|
    ensures r.Ok? ==> pos <= r.pos <= |w.bytes|
    decreases |w.bytes| - pos, 1
  {
    if count == 0 then Ok(before, pos)
    else
      var (item, p) :- ReadValue(w, pos, elementType, placeholders);
      ReadItems(w, p, elementType, count - 1, placeholders, before + [item])
  }

  // ----- longer windows

  /** `w` holds the bytes of `v` and perhaps more of the same file, or is the whole file, read without `partial`. */
  ghost predicate Extension(v: Window, w: Window) {
    && v.partial
    && v.littleEndian == w.littleEndian
    && v.bytes <= w.bytes
    && |w.bytes| <= MAX_SAFE_INTEGER
    && (v.fileBytes.Some? ==> |w.bytes| <= v.fileBytes.value)
    && (if w.partial then w.fileBytes == v.fileBytes else (v.fileBytes.Some? ==> |w.bytes| == v.fileBytes.value))
  }

  /**
   What the answer `a` on the window `v` says about the answer `b` on `w`: a
   value or a failure is final; a request exceeds the bytes held, every longer
   window still below it repeats it, and no window succeeds with less.
   */
  ghost predicate Foretells<T>(a: Outcome<T>, b: Outcome<T>, v: Window, w: Window) {
    match a
    case NeedMore(required) =>
      && |v.bytes| < required
      && (v.fileBytes.Some? ==> required <= v.fileBytes.value)
      && (|w.bytes| < required ==> b == if w.partial then a else Fail)
      && (b.Ok? ==> required <= b.pos)
    case _ => b == a
  }

  lemma TakeForetells(v: Window, w: Window, pos: nat, n: nat)
    requires Extension(v, w)
    ensures Foretells(Take(v, pos, n), Take(w, pos, n), v, w)
  {
    if pos + n <= |v.bytes| {
      assert v.bytes[pos..pos + n] == w.bytes[pos..pos + n];
    }
  }

  lemma ReadCountForetells(v: Window, w: Window, pos: nat)
    requires Extension(v, w)
    ensures Foretells(ReadCount(v, pos), ReadCount(w, pos), v, w)
  {
    TakeForetells(v, w, pos, 8);
  }

  lemma StringForetells(v: Window, w: Window, pos: nat, limit: nat, placeholders: bool)
    requires Extension(v, w)
    ensures Foretells(ReadString(v, pos, limit, placeholders), ReadString(w, pos, limit, placeholders), v, w)
    ensures Foretells(SkipString(v, pos), SkipString(w, pos), v, w)
  {
    ReadCountForetells(v, w, pos);
    var a := ReadCount(v, pos);
    if a.Ok? {
      TakeForetells(v, w, a.pos, a.value);
    }
  }

  lemma ScalarForetells(v: Window, w: Window, pos: nat, kind: nat, placeholders: bool)
    requires Extension(v, w)
    ensures Foretells(ReadScalar(v, pos, kind, placeholders), ReadScalar(w, pos, kind, placeholders), v, w)
    ensures Foretells(SkipScalar(v, pos, kind), SkipScalar(w, pos, kind), v, w)
  {
    TakeForetells(v, w, pos, FixedBytes(kind));
    StringForetells(v, w, pos, CAPTURE_STRING_BYTES, placeholders);
  }

  lemma ArrayHeadForetells(v: Window, w: Window, pos: nat)
    requires Extension(v, w)
    ensures Foretells(ReadArrayHead(v, pos), ReadArrayHead(w, pos), v, w)
  {
    TakeForetells(v, w, pos, 4);
    ReadCountForetells(v, w, pos + 4);
  }

  lemma {:induction false} SkipForetells(v: Window, w: Window, pos: nat, kind: nat)
    requires Extension(v, w) && pos <= |v.bytes|
    ensures Foretells(SkipValue(v, pos, kind), SkipValue(w, pos, kind), v, w)
    decreases |v.bytes| - pos, 0
  {
    if kind != ARRAY {
      ScalarForetells(v, w, pos, kind, false);
    } else {
      ArrayHeadForetells(v, w, pos);
      var head := ReadArrayHead(v, pos);
      if head.Ok? {
        SkipArrayForetells(v, w, head.pos, head.value.elementType, head.value.count);
      }
    }
  }

  lemma {:induction false} SkipArrayForetells(v: Window, w: Window, pos: nat, elementType: nat, count: nat)
    requires Extension(v, w) && pos <= |v.bytes|
    ensures Foretells(SkipArray(v, pos, elementType, count), SkipArray(w, pos, elementType, count), v, w)
    decreases |v.bytes| - pos, 2
  {
    if FixedBytes(elementType) > 0 {
      TakeForetells(v, w, pos, count * FixedBytes(elementType));
    } else {
      SkipItemsForetells(v, w, pos, elementType, count);
    }
  }

  lemma {:induction false} SkipItemsForetells(v: Window, w: Window, pos: nat, elementType: nat, count: nat)
    requires Extension(v, w) && pos <= |v.bytes|
    ensures Foretells(SkipItems(v, pos, elementType, count), SkipItems(w, pos, elementType, count), v, w)
    decreases |v.bytes| - pos, 1
  {
    if count > 0 {
      SkipForetells(v, w, pos, elementType);
      var item := SkipValue(v, pos, elementType);
      if item.Ok? {
        SkipItemsForetells(v, w, item.pos, elementType, count - 1);
      }
    }
  }

  lemma {:induction false} ReadForetells(v: Window, w: Window, pos: nat, kind: nat, placeholders: bool)
    requires Extension(v, w) && pos <= |v.bytes|
    ensures Foretells(ReadValue(v, pos, kind, placeholders), ReadValue(w, pos, kind, placeholders), v, w)
    decreases |v.bytes| - pos, 0
  {
    if kind != ARRAY {
      ScalarForetells(v, w, pos, kind, placeholders);
    } else {
      ArrayHeadForetells(v, w, pos);
      var head := ReadArrayHead(v, pos);
      if head.Ok? {
        ReadArrayForetells(v, w, head.pos, head.value.elementType, head.value.count, placeholders);
      }
    }
  }

  lemma {:induction false} ReadArrayForetells(v: Window, w: Window, pos: nat, elementType: nat, count: nat,
                                              placeholders: bool)
    requires Extension(v, w) && pos <= |v.bytes|
    ensures Foretells(ReadArray(v, pos, elementType, count, placeholders),
      ReadArray(w, pos, elementType, count, placeholders), v, w)
    decreases |v.bytes| - pos, 2
  {
    if count > CAPTURE_ARRAY_LIMIT {
      SkipArrayForetells(v, w, pos, elementType, count);
    } else {
      ReadItemsForetells(v, w, pos, elementType, count, placeholders, []);
    }
  }

  lemma {:induction false} ReadItemsForetells(v: Window, w: Window, pos: nat, elementType: nat, count: nat,
                                              placeholders: bool,
                                             before: seq<Value>)
    requires Extension(v, w) && pos <= |v.bytes|
    ensures Foretells(ReadItems(v, pos, elementType, count, placeholders, before),
                      ReadItems(w, pos, elementType, count, placeholders, before), v, w)
    decreases |v.bytes| - pos, 1
  {
    if count > 0 {
      ReadForetells(v, w, pos, elementType, placeholders);
      var item := ReadValue(v, pos, elementType, placeholders);
      if item.Ok? {
        ReadItemsForetells(v, w, item.pos, elementType, count - 1, placeholders, before + [item.value]);
      }
    }
  }

  // ----- skipping against capturing

  /** Every array in the value declares one of the defined element types. */
  predicate Defined(v: Value) {
    v.Items? ==> v.elementType <= LAST_TYPE && forall i | 0 <= i < |v.items| :: Defined(v.items[i])
  }

  predicate AllDefined(vs: seq<Value>) {
    forall i | 0 <= i < |vs| :: Defined(vs[i])
  }

  /**
   Skipping a value moves exactly as far as capturing it, and fails on a value
   that can be captured only if some array in it is of an undefined type.
   */
  lemma {:induction false} SkipIsRead(w: Window, pos: nat, kind: nat, placeholders: bool)
    requires pos <= |w.bytes| <= MAX_SAFE_INTEGER
    ensures var skipped, read := SkipValue(w, pos, kind), ReadValue(w, pos, kind, placeholders);
      && (skipped.Ok? <==> read.Ok? && Defined(read.value))
      && (skipped.Ok? ==> skipped.pos == read.pos)
    decreases |w.bytes| - pos, 0
  {
    if kind == ARRAY {
      var head := ReadArrayHead(w, pos);
      if head.Ok? && head.value.count <= CAPTURE_ARRAY_LIMIT {
        SkipArrayIsRead(w, head.pos, head.value.elementType, head.value.count, placeholders);
      }
    }
  }

  lemma {:induction false} SkipArrayIsRead(w: Window, pos: nat, elementType: nat, count: nat, placeholders: bool)
    requires pos <= |w.bytes| <= MAX_SAFE_INTEGER
    ensures var skipped, read := SkipArray(w, pos, elementType, count),
      ReadItems(w, pos, elementType, count, placeholders, []);
      && (skipped.Ok? <==> read.Ok? && elementType <= LAST_TYPE && AllDefined(read.value))
      && (skipped.Ok? ==> skipped.pos == read.pos)
    decreases |w.bytes| - pos, 2
  {
    if FixedBytes(elementType) > 0 {
      FixedItems(w, pos, elementType, count, placeholders, []);
    } else if elementType == STRING || elementType == ARRAY {
      SkipItemsIsRead(w, pos, elementType, count, placeholders, []);
    }
  }

  lemma {:induction false} SkipItemsIsRead(w: Window, pos: nat, elementType: nat, count: nat, placeholders: bool,
                                           before: seq<Value>)
    requires pos <= |w.bytes| <= MAX_SAFE_INTEGER
    requires AllDefined(before)
    ensures var skipped, read := SkipItems(w, pos, elementType, count),
      ReadItems(w, pos, elementType, count, placeholders, before);
      && (skipped.Ok? <==> read.Ok? && AllDefined(read.value))
      && (skipped.Ok? ==> skipped.pos == read.pos)
    decreases |w.bytes| - pos, 1
  {
    if count > 0 {
      SkipIsRead(w, pos, elementType, placeholders);
      FirstItem(w, pos, elementType, count, placeholders, before);
      var item := ReadValue(w, pos, elementType, placeholders);
      if item.Ok? {
        if Defined(item.value) {
          AppendDefined(before, item.value);
          SkipItemsIsRead(w, item.pos, elementType, count - 1, placeholders, before + [item.value]);
        } else {
          UndefinedItemStays(w, item.pos, elementType, count - 1, placeholders, before, item.value);
        }
      }
    }
  }

  /** Both modes take the first item and go on behind it. */
  lemma {:induction false} FirstItem(w: Window, pos: nat, elementType: nat, count: nat, placeholders: bool,
                                     before: seq<Value>)
    requires pos <= |w.bytes| && count > 0
    ensures var skipped, read := SkipValue(w, pos, elementType), ReadValue(w, pos, elementType, placeholders);
      && (skipped.Ok? ==> SkipItems(w, pos, elementType, count) == SkipItems(w, skipped.pos, elementType, count - 1))
      && (!skipped.Ok? ==> !SkipItems(w, pos, elementType, count).Ok?)
      && (read.Ok? ==>
            ReadItems(w, pos, elementType, count, placeholders, before)
            == ReadItems(w, read.pos, elementType, count - 1, placeholders, before + [read.value]))
      && (!read.Ok? ==> !ReadItems(w, pos, elementType, count, placeholders, before).Ok?)
  {
  }

  lemma {:induction false} ItemsKeepBefore(w: Window, pos: nat, elementType: nat, count: nat, placeholders: bool,
                                           before: seq<Value>)
    requires pos <= |w.bytes|
    ensures var read := ReadItems(w, pos, elementType, count, placeholders, before);
      read.Ok? ==> before <= read.value && |read.value| == |before| + count
    decreases count
  {
    if count > 0 {
      var item := ReadValue(w, pos, elementType, placeholders);
      if item.Ok? {
        ItemsKeepBefore(w, item.pos, elementType, count - 1, placeholders, before + [item.value]);
      }
    }
  }

  lemma AppendDefined(before: seq<Value>, item: Value)
    requires AllDefined(before) && Defined(item)
    ensures AllDefined(before + [item])
  {
  }

  lemma UndefinedItemStays(w: Window, pos: nat, elementType: nat, count: nat, placeholders: bool, before: seq<Value>,
                           item: Value)
    requires pos <= |w.bytes| && !Defined(item)
    ensures var read := ReadItems(w, pos, elementType, count, placeholders, before + [item]);
      read.Ok? ==> !AllDefined(read.value)
  {
    ItemsKeepBefore(w, pos, elementType, count, placeholders, before + [item]);
    var read := ReadItems(w, pos, elementType, count, placeholders, before + [item]);
    if read.Ok? {
      assert read.value[|before|] == item;
    }
  }

  /** Items of a fixed-size type take exactly their total size. */
  lemma {:induction false} FixedItems(w: Window, pos: nat, elementType: nat, count: nat, placeholders: bool,
                                      before: seq<Value>)
    requires pos <= |w.bytes| <= MAX_SAFE_INTEGER
    requires FixedBytes(elementType) > 0 && AllDefined(before)
    ensures var read, size := ReadItems(w, pos, elementType, count, placeholders, before),
      count * FixedBytes(elementType);
      && (read.Ok? <==> pos + size <= |w.bytes|)
      && (read.Ok? ==> read.pos == pos + size && AllDefined(read.value))
    decreases count
  {
    if count > 0 {
      var size := FixedBytes(elementType);
      assert count * size == size + (count - 1) * size;
      if pos + size <= |w.bytes| {
        var item := ReadValue(w, pos, elementType, placeholders);
        FixedItems(w, pos + size, elementType, count - 1, placeholders, before + [item.value]);
      }
    }
  }

  // ----- placeholders

  /** What the narrow metadata keeps of a value: placeholders, at any depth, become null. */
  function LegacyValue(v: Value): Value
    decreases v
  {
    match v
    case LongArray(_, _) => Null
    case LongText(_) => Null
    case Items(elementType, items) => Items(elementType,
      seq(|items|, i requires 0 <= i < |items| => LegacyValue(items[i])))
    case _ => v
  }

  function LegacyItems(vs: seq<Value>): (r: seq<Value>)
    ensures |r| == |vs| && forall i | 0 <= i < |vs| :: r[i] == LegacyValue(vs[i])
  {
    seq(|vs|, i requires 0 <= i < |vs| => LegacyValue(vs[i]))
  }

  /** Without placeholders the same bytes are read, and the value is the one with placeholders made null. */
  lemma {:induction false} NullsForPlaceholders(w: Window, pos: nat, kind: nat)
    requires pos <= |w.bytes|
    ensures var read := ReadValue(w, pos, kind, true);
      ReadValue(w, pos, kind, false) == if read.Ok? then Ok(LegacyValue(read.value), read.pos) else read
    decreases |w.bytes| - pos, 0
  {
    if kind == ARRAY {
      var head := ReadArrayHead(w, pos);
      if head.Ok? && head.value.count <= CAPTURE_ARRAY_LIMIT {
        NullsForPlaceholderItems(w, head.pos, head.value.elementType, head.value.count, []);
        assert LegacyItems([]) == [];
        var items := ReadItems(w, head.pos, head.value.elementType, head.value.count, true, []);
        if items.Ok? {
          assert LegacyValue(Items(head.value.elementType, items.value)).items == LegacyItems(items.value);
        }
      }
    }
  }

  lemma {:induction false} NullsForPlaceholderItems(w: Window, pos: nat, elementType: nat, count: nat,
                                                    before: seq<Value>)
    requires pos <= |w.bytes|
    ensures var read := ReadItems(w, pos, elementType, count, true, before);
      ReadItems(w, pos, elementType, count, false, LegacyItems(before))
      == if read.Ok? then Ok(LegacyItems(read.value), read.pos) else read
    decreases |w.bytes| - pos, 1
  {
    if count > 0 {
      NullsForPlaceholders(w, pos, elementType);
      var item := ReadValue(w, pos, elementType, true);
      if item.Ok? {
        NullsForPlaceholderItems(w, item.pos, elementType, count - 1, before + [item.value]);
        assert LegacyItems(before + [item.value]) == LegacyItems(before) + [LegacyValue(item.value)];
      }
    }
  }
}
