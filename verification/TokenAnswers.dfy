/** The token estimates, said of the characters of a text. */
module TokenAnswers {
  import opened TextUnits
  import opened TokenEstimate
  import opened MessageSplit

  // ----- characters

  function Code(c: char): int { c as int }

  predicate Letter(u: Unit) {
    Code('a') <= u <= Code('z') || Code('A') <= u <= Code('Z')
  }

  predicate Digit(u: Unit) { Code('0') <= u <= Code('9') }

  /** From the first character of CJK Extension A to the last of the CJK Unified Ideographs block. */
  predicate Ideograph(u: Unit) { Code('\U{3400}') <= u <= Code('\U{9FFF}') }

  predicate WordCharacter(u: Unit) {
    Letter(u) || Digit(u) || u == Code('_') || u == Code('.') || u == Code('/') || u == Code(':') || u == Code('-')
  }

  /** Any other character that is neither a space nor a control character. */
  predicate Mark(u: Unit) { u > Code(' ') && !Ideograph(u) && !WordCharacter(u) }

  lemma Classes(u: Unit)
    ensures IsCjk(u) <==> Ideograph(u)
    ensures IsAlphaNumeric(u) <==> Letter(u) || Digit(u)
    ensures IsWord(u) <==> WordCharacter(u)
  {
  }

  // ----- counts

  function Where(text: Text, p: Unit -> bool): set<nat> {
    set i: nat | i < |text| && p(text[i])
  }

  /** A run of word characters begins here. */
  predicate RunStart(text: Text, i: nat)
    requires i < |text|
  {
    WordCharacter(text[i]) && (i == 0 || !WordCharacter(text[i - 1]))
  }

  function RunStarts(text: Text): set<nat> {
    set i: nat | i < |text| && RunStart(text, i)
  }

  lemma OnePlaceMore(places: set<nat>, next: nat)
    requires next !in places
    ensures |places + {next}| == |places| + 1
  {
  }

  lemma {:induction false} WhereNext(text: Text, p: Unit -> bool)
    requires text != []
    ensures var n := |text| - 1;
      |Where(text, p)| == |Where(text[..n], p)| + if p(text[n]) then 1 else 0
  {
    var n := |text| - 1;
    if p(text[n]) {
      assert Where(text, p) == Where(text[..n], p) + {n};
      OnePlaceMore(Where(text[..n], p), n);
    } else {
      assert Where(text, p) == Where(text[..n], p);
    }
  }

  lemma {:induction false} CountsAreWhere(text: Text)
    ensures CountsOf(text).cjk == |Where(text, Ideograph)|
    ensures CountsOf(text).punctuation == |Where(text, Mark)|
  {
    if text != [] {
      var n := |text| - 1;
      CountsAreWhere(text[..n]);
      WhereNext(text, Ideograph);
      WhereNext(text, Mark);
      Classes(text[n]);
    }
  }

  lemma {:induction false} RunsNext(text: Text)
    requires text != []
    ensures var n := |text| - 1;
      |RunStarts(text)| == |RunStarts(text[..n])| + if WordStart(text, n) then 1 else 0
  {
    var n := |text| - 1;
    Classes(text[n]);
    if n > 0 {
      Classes(text[n - 1]);
    }
    if WordStart(text, n) {
      assert RunStarts(text) == RunStarts(text[..n]) + {n};
      OnePlaceMore(RunStarts(text[..n]), n);
    } else {
      assert RunStarts(text) == RunStarts(text[..n]);
    }
  }

  lemma {:induction false} RunsAreCounted(text: Text)
    ensures WordStarts(text) == |RunStarts(text)|
  {
    if text != [] {
      RunsAreCounted(text[..|text| - 1]);
      RunsNext(text);
    }
  }

  // ----- estimates

  /** An ideograph weighs 0.9 tokens, a run of word characters 1.3, and any other printing character 0.35. */
  function Weight(cjk: nat, words: nat, marks: nat): real {
    0.9 * cjk as real + 1.3 * words as real + 0.35 * marks as real
  }

  /** The least whole number that is no less. */
  predicate RoundedUp(n: int, weight: real) {
    (n - 1) as real < weight <= n as real
  }

  lemma WeighRoundsUp(cjk: nat, words: nat, marks: nat)
    ensures RoundedUp(Weigh(cjk, words, marks), Weight(cjk, words, marks))
  {
    var hundredths := 90 * cjk + 130 * words + 35 * marks;
    assert Weight(cjk, words, marks) * 100.0 == hundredths as real;
    var n := (hundredths + 99) / 100;
    assert hundredths <= 100 * n <= hundredths + 99;
  }

  /** The estimate is the weight of the characters rounded up, at least 1 for a text that is not empty. */
  lemma {:induction false} EstimateIsWeight(text: Text)
    ensures var weight := Weight(|Where(text, Ideograph)|, |RunStarts(text)|, |Where(text, Mark)|);
      var n := Estimate(text);
      if text == [] then n == 0
      else n >= 1 && weight <= n as real && (n > 1 ==> RoundedUp(n, weight))
  {
    CountsAreWhere(text);
    WordsAreRuns(text);
    RunsAreCounted(text);
    var c := CountsOf(text);
    WeighRoundsUp(c.cjk, c.words, c.punctuation);
  }

  // ----- messages

  /** What the messages from `from` on cost: each its estimate, and at least 1. */
  lemma {:induction false} TotalIsSum(ms: Messages, from: nat)
    requires from < |ms|
    ensures Total(ms, |ms|) == 0
    ensures ms[from].tokens >= 1 ==> Total(ms, from) == ms[from].tokens + Total(ms, from + 1)
    ensures ms[from].tokens == 0 ==> Total(ms, from) == 1 + Total(ms, from + 1)
  {
  }
}
