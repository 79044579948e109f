/** Lists of a GGUF file: what is read many times from bytes that spell its items one after another, and back. */
module GgufLists {
  import opened Wrappers
  import opened GgufValues
  import opened GgufHeader

  function Joined<S>(spelled: S -> seq<Byte>, items: seq<S>): seq<Byte> {
    if items == [] then [] else spelled(items[0]) + Joined(spelled, items[1..])
  }

  /** `stands(p, bytes)` says that the bytes are there from `p` on. */
  ghost predicate Splits(stands: (nat, seq<Byte>) -> bool) {
    forall p: nat, first, second {:trigger stands(p, first + second)} ::
      stands(p, first + second) <==> stands(p, first) && stands(p + |first|, second)
  }

  ghost predicate ReadsFrom<T>(read: nat -> Outcome<T>, limit: nat) {
    forall p: nat :: read(p).Ok? ==> p < read(p).pos <= limit
  }

  /** Where the spelling of the item stands, from `lo` on, it is read. */
  ghost predicate ReadsItem<S, T>(read: nat -> Outcome<T>, stands: (nat, seq<Byte>) -> bool, spelled: S -> seq<Byte>,
                                  kept: S -> T, lo: nat, item: S) {
    forall p: nat | lo <= p && stands(p, spelled(item)) :: read(p) == Ok(kept(item), p + |spelled(item)|)
  }

  lemma ImagesNext<S, T>(kept: S -> T, item: S, rest: seq<S>, before: seq<T>)
    ensures before + [kept(item)] + Mapped(kept, rest) == before + Mapped(kept, [item] + rest)
  {
    assert Mapped(kept, [item] + rest) == [kept(item)] + Mapped(kept, rest);
  }

  lemma JoinedNext<S>(spelled: S -> seq<Byte>, item: S, rest: seq<S>)
    ensures Joined(spelled, [item] + rest) == spelled(item) + Joined(spelled, rest)
  {
    assert ([item] + rest)[1..] == rest;
  }

  lemma {:induction false} ManyNext<T>(read: nat -> Outcome<T>, limit: nat, pos: nat, count: nat, before: seq<T>,
                                       value: T, next: nat)
    requires ReadsFrom(read, limit) && pos <= limit && read(pos) == Ok(value, next)
    ensures next <= limit
    ensures ReadMany(read, limit, pos, count + 1, before) == ReadMany(read, limit, next, count, before + [value])
  {
  }

  lemma {:induction false} ReadsJoined<S, T>(read: nat -> Outcome<T>, limit: nat, stands: (nat, seq<Byte>) -> bool,
                                             spelled: S -> seq<Byte>, kept: S -> T, lo: nat, pos: nat, items: seq<S>,
                                             before: seq<T>)
    requires ReadsFrom(read, limit) && Splits(stands) && lo <= pos <= limit
    requires forall i | 0 <= i < |items| :: ReadsItem(read, stands, spelled, kept, lo, items[i])
    requires stands(pos, Joined(spelled, items))
    ensures ReadMany(read, limit, pos, |items|, before)
         == Ok(before + Mapped(kept, items), pos + |Joined(spelled, items)|)
    decreases |items|
  {
    if items == [] {
      assert before + Mapped(kept, items) == before;
    } else {
      var first, rest, next := items[0], items[1..], pos + |spelled(items[0])|;
      assert items == [first] + rest;
      JoinedNext(spelled, first, rest);
      FirstStands(stands, pos, spelled(first), Joined(spelled, rest));
      assert ReadsItem(read, stands, spelled, kept, lo, first);
      ManyNext(read, limit, pos, |rest|, before, kept(first), next);
      ReadsJoined(read, limit, stands, spelled, kept, lo, next, rest, before + [kept(first)]);
      ImagesNext(kept, first, rest, before);
    }
  }

  lemma FirstStands(stands: (nat, seq<Byte>) -> bool, p: nat, first: seq<Byte>, second: seq<Byte>)
    requires Splits(stands)
    ensures stands(p, first + second) <==> stands(p, first) && stands(p + |first|, second)
  {
  }

  /** A list of good items is read where its spelling stands. */
  lemma {:induction false} ReadsAll<S(!new), T>(read: nat -> Outcome<T>, limit: nat, stands: (nat, seq<Byte>) -> bool,
                                                spelled: S -> seq<Byte>, kept: S -> T, good: S -> bool, pos: nat,
                                                items: seq<S>)
    requires ReadsFrom(read, limit) && Splits(stands) && pos <= limit && All(good, items)
    requires forall item | good(item) :: ReadsItem(read, stands, spelled, kept, pos, item)
    requires stands(pos, Joined(spelled, items))
    ensures ReadMany(read, limit, pos, |items|, []) == Ok(Mapped(kept, items), pos + |Joined(spelled, items)|)
  {
    forall i | 0 <= i < |items| ensures ReadsItem(read, stands, spelled, kept, pos, items[i]) {
      assert good(items[i]);
    }
    ReadsJoined(read, limit, stands, spelled, kept, pos, pos, items, []);
    assert [] + Mapped(kept, items) == Mapped(kept, items);
  }

  /** What is read at an offset, from `lo` on, is a good item whose spelling stands there. */
  ghost predicate ReadIsSpelled<S(!new), T>(read: nat -> Outcome<T>, stands: (nat, seq<Byte>) -> bool,
                                            spelled: S -> seq<Byte>, kept: S -> T, good: S -> bool, p: nat) {
    read(p).Ok? ==>
      exists item :: good(item) && stands(p, spelled(item)) && read(p) == Ok(kept(item), p + |spelled(item)|)
  }

  lemma {:induction false} ManyAreJoined<S(!new), T>(read: nat -> Outcome<T>, limit: nat,
                                                     stands: (nat, seq<Byte>) -> bool, spelled: S -> seq<Byte>,
                                                     kept: S -> T, good: S -> bool, lo: nat, pos: nat, count: nat,
                                                     before: seq<T>) returns (items: seq<S>)
    requires ReadsFrom(read, limit) && Splits(stands) && lo <= pos <= limit
    requires forall p: nat | p <= limit :: stands(p, [])
    requires forall p: nat | lo <= p :: ReadIsSpelled(read, stands, spelled, kept, good, p)
    requires ReadMany(read, limit, pos, count, before).Ok?
    ensures |items| == count && All(good, items) && stands(pos, Joined(spelled, items))
    ensures ReadMany(read, limit, pos, count, before)
         == Ok(before + Mapped(kept, items), pos + |Joined(spelled, items)|)
    decreases count
  {
    if count == 0 {
      items := [];
      assert before + Mapped(kept, items) == before;
    } else {
      assert ReadIsSpelled(read, stands, spelled, kept, good, pos) && read(pos).Ok?;
      var item :| good(item) && stands(pos, spelled(item)) && read(pos) == Ok(kept(item), pos + |spelled(item)|);
      var next := read(pos).pos;
      ManyNext(read, limit, pos, count - 1, before, kept(item), next);
      var rest := ManyAreJoined(read, limit, stands, spelled, kept, good, lo, next, count - 1, before + [kept(item)]);
      items := [item] + rest;
      JoinedNext(spelled, item, rest);
      FirstStands(stands, pos, spelled(item), Joined(spelled, rest));
      ImagesNext(kept, item, rest, before);
    }
  }
}
