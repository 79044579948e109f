/** What a parsed GGUF header comes to: its metadata object and its parameter count, said of the file. */
module GgufReports {
  import opened Wrappers
  import opened GgufValues
  import opened GgufHeader
  import opened GgufSpelling
  import opened GgufContents
  import opened GgufFiles

  // ----- metadata

  /** The pair puts a value under a key: the key is whitelisted, and the value is not a placeholder. */
  predicate Puts(names: Names, littleEndian: bool, pair: StoredPair, key: string) {
    names.decode(pair.key) == key && names.whitelisted(key) && Kept(pair.value, littleEndian, false) != Null
  }

  /** The last pair that puts a value under the key. */
  predicate LastPut(names: Names, littleEndian: bool, pairs: seq<StoredPair>, key: string, i: nat) {
    && i < |pairs| && Puts(names, littleEndian, pairs[i], key)
    && forall j | i < j < |pairs| :: !Puts(names, littleEndian, pairs[j], key)
  }

  /**
   Either read puts into the metadata, under each whitelisted key, the value
   that was stored last under it, placeholders inside it made null, and nothing
   else.
   */
  lemma {:induction false} MetadataIsLastPut(names: Names, widened: bool, littleEndian: bool, pairs: seq<StoredPair>,
                                             key: string)
    ensures var metadata := Metadata(names, Mapped(PairKeeper(names, widened, littleEndian), pairs), widened);
      && (key in metadata <==> exists i: nat :: LastPut(names, littleEndian, pairs, key, i))
      && (forall i: nat | LastPut(names, littleEndian, pairs, key, i) ::
            key in metadata && metadata[key] == Kept(pairs[i].value, littleEndian, false))
  {
    if pairs != [] {
      var n := |pairs| - 1;
      MetadataIsLastPut(names, widened, littleEndian, pairs[..n], key);
      MetadataNext(names, widened, littleEndian, pairs, key);
      LastPutNext(names, littleEndian, pairs, key);
      if Puts(names, littleEndian, pairs[n], key) {
        assert LastPut(names, littleEndian, pairs, key, n);
      } else {
        if i: nat :| LastPut(names, littleEndian, pairs[..n], key, i) {
          assert LastPut(names, littleEndian, pairs, key, i);
        }
        forall i: nat | LastPut(names, littleEndian, pairs, key, i)
          ensures LastPut(names, littleEndian, pairs[..n], key, i) && pairs[..n][i] == pairs[i]
        {
        }
      }
    }
  }

  lemma {:induction false} MetadataNext(names: Names, widened: bool, littleEndian: bool, pairs: seq<StoredPair>,
                                        key: string)
    requires pairs != []
    ensures var n := |pairs| - 1;
      var before := Metadata(names, Mapped(PairKeeper(names, widened, littleEndian), pairs[..n]), widened);
      var after := Metadata(names, Mapped(PairKeeper(names, widened, littleEndian), pairs), widened);
      if Puts(names, littleEndian, pairs[n], key) then
        key in after && after[key] == Kept(pairs[n].value, littleEndian, false)
      else (key in after <==> key in before) && (key in before ==> after[key] == before[key])
  {
    var n := |pairs| - 1;
    var kept := Mapped(PairKeeper(names, widened, littleEndian), pairs);
    assert kept[..n] == Mapped(PairKeeper(names, widened, littleEndian), pairs[..n]);
    KeptWithoutPlaceholders(pairs[n].value, littleEndian);
    NullStays(pairs[n].value, littleEndian);
  }

  lemma NullStays(s: Stored, littleEndian: bool)
    ensures Kept(s, littleEndian, true) != Null
  {
  }

  lemma LastPutNext(names: Names, littleEndian: bool, pairs: seq<StoredPair>, key: string)
    requires pairs != []
    ensures var n := |pairs| - 1;
      forall i: nat :: LastPut(names, littleEndian, pairs, key, i) <==>
        if Puts(names, littleEndian, pairs[n], key) then i == n else LastPut(names, littleEndian, pairs[..n], key, i)
  {
    var n := |pairs| - 1;
    forall i: nat ensures LastPut(names, littleEndian, pairs, key, i) <==>
      if Puts(names, littleEndian, pairs[n], key) then i == n else LastPut(names, littleEndian, pairs[..n], key, i)
    {
      if LastPut(names, littleEndian, pairs, key, i) && i < n {
        assert pairs[..n][i] == pairs[i];
      }
      if LastPut(names, littleEndian, pairs[..n], key, i) {
        assert pairs[..n][i] == pairs[i];
        forall j | i < j < n ensures !Puts(names, littleEndian, pairs[j], key) {
          assert pairs[..n][j] == pairs[j];
        }
      }
    }
  }

  // ----- parameters

  /** A tensor has as many elements as its dimensions make. */
  function Elements(dims: seq<nat>): nat {
    if dims == [] then 1 else dims[0] * Elements(dims[1..])
  }

  lemma Associate(a: nat, b: nat, c: nat)
    ensures a * b * c == a * (b * c)
  {
  }

  lemma {:induction false} ElementsAppend(dims: seq<nat>, last: nat)
    ensures Elements(dims + [last]) == Elements(dims) * last
  {
    if dims == [] {
      assert dims + [last] == [last] && [last][1..] == [];
    } else {
      ElementsAppend(dims[1..], last);
      assert (dims + [last])[1..] == dims[1..] + [last];
      Associate(dims[0], Elements(dims[1..]), last);
    }
  }

  lemma {:induction false} ProductIsElements(dims: seq<nat>)
    ensures Product(dims) == Elements(dims)
  {
    if dims != [] {
      var n := |dims| - 1;
      ProductIsElements(dims[..n]);
      ElementsAppend(dims[..n], dims[n]);
      assert dims == dims[..n] + [dims[n]];
    }
  }

  function AllElements(tensors: seq<StoredTensor>): nat {
    if tensors == [] then 0 else Elements(tensors[0].dims) + AllElements(tensors[1..])
  }

  lemma {:induction false} AllElementsAppend(tensors: seq<StoredTensor>, last: StoredTensor)
    ensures AllElements(tensors + [last]) == AllElements(tensors) + Elements(last.dims)
  {
    if tensors == [] {
      assert tensors + [last] == [last] && [last][1..] == [];
    } else {
      AllElementsAppend(tensors[1..], last);
      assert (tensors + [last])[1..] == tensors[1..] + [last];
    }
  }

  /** The parameter count of either read is the number of elements of all tensors of the file. */
  lemma {:induction false} ParametersAreElements(names: Names, widened: bool, tensors: seq<StoredTensor>)
    ensures ParameterCount(Mapped(TensorKeeper(names, widened), tensors)) == AllElements(tensors)
  {
    if tensors != [] {
      var n := |tensors| - 1;
      ParametersAreElements(names, widened, tensors[..n]);
      assert Mapped(TensorKeeper(names, widened), tensors)[..n] == Mapped(TensorKeeper(names, widened), tensors[..n]);
      ProductIsElements(tensors[n].dims);
      AllElementsAppend(tensors[..n], tensors[n]);
      assert tensors == tensors[..n] + [tensors[n]];
    }
  }
}
