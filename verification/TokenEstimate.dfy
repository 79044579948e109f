/** The cheap token estimate, and the search for the longest prefix within a budget. */
module TokenEstimate {
  import opened TextUnits

  datatype Counts = Counts(cjk: nat, words: nat, punctuation: nat, inWord: bool)

  const NOTHING := Counts(0, 0, 0, false)

  /** The counts after one more unit. */
  function Observe(c: Counts, u: Unit): Counts {
    if IsCjk(u) then c.(cjk := c.cjk + 1, inWord := false)
    else if IsWord(u) then c.(words := if c.inWord then c.words else c.words + 1, inWord := true)
    else if u > 32 then c.(punctuation := c.punctuation + 1, inWord := false)
    else c.(inWord := false)
  }

  function CountsOf(text: Text): Counts {
    if text == [] then NOTHING else Observe(CountsOf(text[..|text| - 1]), text[|text| - 1])
  }

  function Estimate(text: Text): nat {
    if text == [] then 0
    else
      var c := CountsOf(text);
      var weighed := Weigh(c.cjk, c.words, c.punctuation);
      if weighed > 1 then weighed else 1
  }

  // ----- what the counts count

  /** A word begins at `i`. */
  predicate WordStart(text: Text, i: nat)
    requires i < |text|
  {
    IsWord(text[i]) && (i == 0 || !IsWord(text[i - 1]))
  }

  function WordStarts(text: Text): nat {
    if text == [] then 0
    else WordStarts(text[..|text| - 1]) + if WordStart(text, |text| - 1) then 1 else 0
  }

  /** The words counted are the maximal runs of word characters. */
  lemma {:induction false} WordsAreRuns(text: Text)
    ensures CountsOf(text).words == WordStarts(text)
    ensures CountsOf(text).inWord <==> text != [] && IsWord(text[|text| - 1])
  {
    if text != [] {
      WordsAreRuns(text[..|text| - 1]);
    }
  }

  /** A prefix is never estimated higher than the whole. */
  lemma {:induction false} EstimateGrows(text: Text, n: nat)
    requires n <= |text|
    ensures Estimate(text[..n]) <= Estimate(text)
  {
    CountsGrow(text, n);
  }

  lemma {:induction false} CountsGrow(text: Text, n: nat)
    requires n <= |text|
    ensures var some, all := CountsOf(text[..n]), CountsOf(text);
      some.cjk <= all.cjk && some.words <= all.words && some.punctuation <= all.punctuation
    decreases |text|
  {
    if n == |text| {
      assert text[..n] == text;
    } else {
      CountsGrow(text[..|text| - 1], n);
      assert text[..|text| - 1][..n] == text[..n];
    }
  }

  // ----- the loops

  method EstimateTokenCount(text: Text) returns (tokens: nat)
    ensures tokens == Estimate(text)
  {
    if text == [] { return 0; }
    var cjk, words, punctuation, inWord := 0, 0, 0, false;
    for i := 0 to |text|
      invariant cjk >= 0 && words >= 0 && punctuation >= 0
      invariant Counts(cjk, words, punctuation, inWord) == CountsOf(text[..i])
    {
      var code := text[i];
      assert text[..i + 1][..i] == text[..i];
      if 0x3400 <= code <= 0x9FFF {
        cjk, inWord := cjk + 1, false;
      } else if IsWord(code) {
        if !inWord {
          words, inWord := words + 1, true;
        }
      } else if code > 32 {
        punctuation, inWord := punctuation + 1, false;
      } else {
        inWord := false;
      }
    }
    assert text[..|text|] == text;
    var weighed := Weigh(cjk, words, punctuation);
    tokens := if weighed > 1 then weighed else 1;
  }

  /** The longest prefix within the budget, found by halving; none is within a negative budget. */
  method ClipLength(text: Text, maxTokens: int) returns (length: nat)
    ensures length <= |text|
    ensures maxTokens >= 0 ==> Estimate(text[..length]) <= maxTokens
    ensures forall n | length < n <= |text| :: Estimate(text[..n]) > maxTokens
  {
    var low, high := 0, |text|;
    while low < high
      invariant 0 <= low <= high <= |text|
      invariant maxTokens >= 0 ==> Estimate(text[..low]) <= maxTokens
      invariant forall n | high < n <= |text| :: Estimate(text[..n]) > maxTokens
    {
      var mid := (low + high + 1) / 2;
      var tokens := EstimateTokenCount(text[..mid]);
      if tokens <= maxTokens {
        low := mid;
      } else {
        forall n | mid <= n <= |text| ensures Estimate(text[..n]) > maxTokens {
          EstimateGrows(text[..n], mid);
          assert text[..n][..mid] == text[..mid];
        }
        high := mid - 1;
      }
    }
    length := low;
  }
}
