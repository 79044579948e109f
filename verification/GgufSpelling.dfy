/** The numbers that bytes spell, and the spelling of a number in a given count of bytes. */
module GgufSpelling {
  import opened Wrappers
  import opened GgufValues

  /** What a one is worth at the place `i`. */
  function Place(i: nat): (p: nat)
    ensures p > 0
  {
    if i == 0 then 1 else 256 * Place(i - 1)
  }

  lemma Places()
    ensures Place(4) == 0x1_0000_0000 && Place(8) == 0x1_0000_0000_0000_0000 > MAX_SAFE_INTEGER
  {
    assert Place(1) == 256 * Place(0);
    assert Place(2) == 256 * Place(1) && Place(3) == 256 * Place(2) && Place(4) == 256 * Place(3);
    assert Place(5) == 256 * Place(4) && Place(6) == 256 * Place(5) && Place(7) == 256 * Place(6);
  }

  /** The value of digits whose first is the lowest: each counts by its place. */
  function Weighed(bytes: seq<Byte>): nat {
    if bytes == [] then 0
    else
      var n := |bytes| - 1;
      Weighed(bytes[..n]) + bytes[n] * Place(n)
  }

  function Reversed(bytes: seq<Byte>): (r: seq<Byte>)
    ensures |r| == |bytes| && forall i | 0 <= i < |r| :: r[i] == bytes[|r| - 1 - i]
  {
    seq(|bytes|, i requires 0 <= i < |bytes| => bytes[|bytes| - 1 - i])
  }

  lemma {:induction false} NumberAppend(bytes: seq<Byte>, last: Byte)
    ensures Number(bytes + [last], true) == Number(bytes, true) + last * Place(|bytes|)
  {
    if bytes != [] {
      NumberAppend(bytes[1..], last);
      assert (bytes + [last])[1..] == bytes[1..] + [last];
      assert 256 * (last * Place(|bytes| - 1)) == last * Place(|bytes|);
    }
  }

  /** Little-endian bytes count by their places. */
  lemma {:induction false} LittleEndianIsPositional(bytes: seq<Byte>)
    ensures Number(bytes, true) == Weighed(bytes)
  {
    if bytes != [] {
      var n := |bytes| - 1;
      LittleEndianIsPositional(bytes[..n]);
      NumberAppend(bytes[..n], bytes[n]);
      assert bytes == bytes[..n] + [bytes[n]];
    }
  }

  /** Big-endian bytes count by their places from the other end. */
  lemma {:induction false} BigEndianIsPositional(bytes: seq<Byte>)
    ensures Number(bytes, false) == Weighed(Reversed(bytes))
  {
    LittleEndianIsPositional(Reversed(bytes));
    BigEndianMirrors(bytes);
  }

  lemma {:induction false} BigEndianMirrors(bytes: seq<Byte>)
    ensures Number(bytes, false) == Number(Reversed(bytes), true)
  {
    if bytes != [] {
      var n := |bytes| - 1;
      BigEndianMirrors(bytes[..n]);
      assert Reversed(bytes)[1..] == Reversed(bytes[..n]);
    }
  }

  /** The spelling of a number in `n` bytes. */
  function Spelled(value: nat, n: nat, littleEndian: bool): (bytes: seq<Byte>)
    ensures |bytes| == n
  {
    if n == 0 then []
    else if littleEndian then [value % 256] + Spelled(value / 256, n - 1, true)
    else Spelled(value / 256, n - 1, false) + [value % 256]
  }

  /** Every number that `n` bytes can hold is what its spelling in them reads as. */
  lemma {:induction false} SpellingReadsBack(value: nat, n: nat, littleEndian: bool)
    requires value < Place(n)
    ensures Number(Spelled(value, n, littleEndian), littleEndian) == value
  {
    if n > 0 {
      SpellingReadsBack(value / 256, n - 1, littleEndian);
      var bytes, rest := Spelled(value, n, littleEndian), Spelled(value / 256, n - 1, littleEndian);
      assert if littleEndian then bytes[1..] == rest else bytes[..n - 1] == rest;
    }
  }

  lemma LowestDigit(digit: Byte, rest: nat)
    ensures (digit + 256 * rest) % 256 == digit && (digit + 256 * rest) / 256 == rest
  {
  }

  lemma SpelledLittle(digit: Byte, rest: nat, n: nat)
    ensures Spelled(digit + 256 * rest, n + 1, true) == [digit] + Spelled(rest, n, true)
  {
    LowestDigit(digit, rest);
  }

  lemma SpelledBig(digit: Byte, rest: nat, n: nat)
    ensures Spelled(digit + 256 * rest, n + 1, false) == Spelled(rest, n, false) + [digit]
  {
    LowestDigit(digit, rest);
  }

  /** All bytes are the spelling of the number that they read as. */
  lemma {:induction false} NumberIsSpelled(bytes: seq<Byte>, littleEndian: bool)
    ensures Number(bytes, littleEndian) < Place(|bytes|)
    ensures Spelled(Number(bytes, littleEndian), |bytes|, littleEndian) == bytes
  {
    if bytes != [] {
      var n := |bytes| - 1;
      if littleEndian {
        NumberIsSpelled(bytes[1..], true);
        SpelledLittle(bytes[0], Number(bytes[1..], true), n);
        assert bytes == [bytes[0]] + bytes[1..];
      } else {
        NumberIsSpelled(bytes[..n], false);
        SpelledBig(bytes[n], Number(bytes[..n], false), n);
        assert bytes == bytes[..n] + [bytes[n]];
      }
    }
  }

  // ----- bytes at an offset

  /** The window holds these bytes from `pos` on. */
  predicate At(w: Window, pos: nat, bytes: seq<Byte>) {
    pos + |bytes| <= |w.bytes| && w.bytes[pos..pos + |bytes|] == bytes
  }

  lemma AtParts(w: Window, pos: nat, first: seq<Byte>, second: seq<Byte>)
    ensures At(w, pos, first + second) <==> At(w, pos, first) && At(w, pos + |first|, second)
  {
    var n, m := |first|, |first| + |second|;
    if pos + m <= |w.bytes| {
      assert w.bytes[pos..pos + m] == w.bytes[pos..pos + n] + w.bytes[pos + n..pos + m];
      if At(w, pos, first + second) {
        assert w.bytes[pos..pos + n] == w.bytes[pos..pos + m][..n] == first;
        assert w.bytes[pos + n..pos + m] == w.bytes[pos..pos + m][n..] == second;
      }
    }
  }

  /** Bytes are taken at an offset exactly when they are there. */
  lemma TakeIff(w: Window, pos: nat, bytes: seq<Byte>)
    requires |w.bytes| <= MAX_SAFE_INTEGER
    ensures Take(w, pos, |bytes|) == Ok(bytes, pos + |bytes|) <==> At(w, pos, bytes)
  {
  }

  /** Bytes spell a number exactly when they are its spelling. */
  lemma {:induction false} SpellsIff(bytes: seq<Byte>, value: nat, littleEndian: bool)
    ensures Number(bytes, littleEndian) == value <==>
      value < Place(|bytes|) && bytes == Spelled(value, |bytes|, littleEndian)
  {
    NumberIsSpelled(bytes, littleEndian);
    if value < Place(|bytes|) {
      SpellingReadsBack(value, |bytes|, littleEndian);
    }
  }

  /** A number is read at an offset exactly when its spelling is there. */
  lemma {:induction false} ReadUintIff(w: Window, pos: nat, n: nat, value: nat)
    requires |w.bytes| <= MAX_SAFE_INTEGER
    ensures ReadUint(w, pos, n) == Ok(value, pos + n) <==>
      value < Place(n) && At(w, pos, Spelled(value, n, w.littleEndian))
  {
    if pos + n <= |w.bytes| {
      SpellsIff(w.bytes[pos..pos + n], value, w.littleEndian);
    }
  }

  lemma {:induction false} ReadCountIff(w: Window, pos: nat, count: nat)
    requires |w.bytes| <= MAX_SAFE_INTEGER
    ensures ReadCount(w, pos) == Ok(count, pos + 8) <==>
      count <= MAX_SAFE_INTEGER && At(w, pos, Spelled(count, 8, w.littleEndian))
  {
    Places();
    ReadUintIff(w, pos, 8, count);
  }
}
