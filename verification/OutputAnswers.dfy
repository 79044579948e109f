/** The output estimate, said of the characters of each channel's text and of the bytes that arrived. */
module OutputAnswers {
  import opened TextUnits
  import opened SseEvents
  import opened OutputEstimator
  import opened TokenAnswers

  // ----- characters

  /** What `\s` matches in ECMAScript: white space and line terminators. */
  predicate Space(u: Unit) {
    u as int in {
      Code('\t'), Code('\n'), Code('\U{000B}'), Code('\U{000C}'), Code('\r'), Code(' '), Code('\U{00A0}'),
      Code('\U{1680}'), Code('\U{2000}'), Code('\U{2001}'), Code('\U{2002}'), Code('\U{2003}'), Code('\U{2004}'),
      Code('\U{2005}'), Code('\U{2006}'), Code('\U{2007}'), Code('\U{2008}'), Code('\U{2009}'), Code('\U{200A}'),
      Code('\U{2028}'), Code('\U{2029}'), Code('\U{202F}'), Code('\U{205F}'), Code('\U{3000}'), Code('\U{FEFF}')}
  }

  /** Any character that is no space, letter, digit, underscore or ideograph; `.`, `/`, `:` and `-` are marks. */
  predicate OutputMark(u: Unit) {
    !Space(u) && !Letter(u) && !Digit(u) && u != Code('_') && !Ideograph(u)
  }

  lemma OutputClasses(u: Unit)
    ensures IsSpace(u) <==> Space(u)
    ensures IsPunctuation(u) <==> OutputMark(u)
  {
    Classes(u);
  }

  // ----- counts of a text

  lemma {:induction false} CountsAreWhere(text: Text)
    ensures var c := CountsAfter(false, text);
      && c.cjk == |Where(text, Ideograph)| && c.words == |RunStarts(text)| && c.punctuation == |Where(text, OutputMark)|
  {
    if text != [] {
      var n := |text| - 1;
      CountsAreWhere(text[..n]);
      WhereNext(text, Ideograph);
      WhereNext(text, OutputMark);
      RunStartNext(text);
      Classes(text[n]);
      OutputClasses(text[n]);
    }
  }

  lemma {:induction false} RunStartNext(text: Text)
    requires text != []
    ensures var n := |text| - 1;
      |RunStarts(text)| == |RunStarts(text[..n])| + if IsWord(text[n]) && !EndsInWord(false, text[..n]) then 1 else 0
  {
    var n := |text| - 1;
    Classes(text[n]);
    if n > 0 {
      Classes(text[n - 1]);
    }
    if RunStart(text, n) {
      assert RunStarts(text) == RunStarts(text[..n]) + {n};
      OnePlaceMore(RunStarts(text[..n]), n);
    } else {
      assert RunStarts(text) == RunStarts(text[..n]);
    }
  }

  // ----- the estimate

  /**
   The estimate is 0 before any text.  After that it is the weight of what was
   counted, rounded up, with a token for every four bytes that were not sampled,
   rounded up; it is at least 1 and at most a hundred million.
   */
  lemma EstimateIs(e: Estimator) returns (sampled: nat, overflow: nat)
    ensures RoundedUp(sampled, Weight(e.counts.cjk, e.counts.words, e.counts.punctuation))
    ensures RoundedUp(overflow, e.overflowBytes as real / 4.0)
    ensures var n, all := EstimateTokens(e), sampled + overflow;
      if !e.observed then n == 0
      else if all == 0 then n == 1
      else if all > 100_000_000 then n == 100_000_000
      else n == all
  {
    sampled, overflow := Weigh(e.counts.cjk, e.counts.words, e.counts.punctuation), (e.overflowBytes + 3) / 4;
    WeighRoundsUp(e.counts.cjk, e.counts.words, e.counts.punctuation);
    assert 4 * (overflow - 1) < e.overflowBytes <= 4 * overflow;
  }

  lemma {:induction false} OneTextCounts(pieces: seq<Piece>, text: Text, channel: Channel, cap: nat)
    requires text != [] && TextBytes(text) <= cap && pieces == [Piece(channel, text)]
    ensures var e := Run(pieces, cap);
      e.observed && e.overflowBytes == 0 && e.counts == CountsAfter(false, text)
  {
    var before, piece := pieces[..0], Piece(channel, text);
    assert Channels(before) == {} && before + [piece] == pieces;
    assert Channels(before + [piece]) == {channel} by { PieceSums(before, piece); }
    WholePiece(Run(before, cap), before, piece, cap);
    AddsToNothing(CountsAfter(false, text));
  }

  lemma AddsToNothing(c: Counts)
    ensures Add(Counts(0, 0, 0), c) == c
  {
  }

  /** The least whole number between 1 and a hundred million that is no less than the weight. */
  predicate Estimates(n: nat, weight: real) {
    if weight <= 1.0 then n == 1
    else if weight > 100_000_000.0 then n == 100_000_000
    else RoundedUp(n, weight)
  }

  lemma EstimatesAll(n: nat, sampled: nat, overflow: nat, weight: real)
    requires RoundedUp(sampled, weight) && weight >= 0.0 && overflow == 0
    requires n == if sampled == 0 then 1 else if sampled > 100_000_000 then 100_000_000 else sampled
    ensures Estimates(n, weight)
  {
  }

  lemma WeightIsPositive(cjk: nat, words: nat, marks: nat)
    ensures Weight(cjk, words, marks) >= 0.0
  {
  }

  /** A text on its own, within the sample, is estimated by the weight of its characters. */
  lemma {:induction false} OneTextIsWeighed(text: Text, channel: Channel, cap: nat)
    requires text != [] && TextBytes(text) <= cap
    ensures Estimates(EstimateTokens(Run([Piece(channel, text)], cap)),
                      Weight(|Where(text, Ideograph)|, |RunStarts(text)|, |Where(text, OutputMark)|))
  {
    var pieces := [Piece(channel, text)];
    var e := Run(pieces, cap);
    OneTextCounts(pieces, text, channel, cap);
    CountsAreWhere(text);
    var sampled, overflow := EstimateIs(e);
    WeightIsPositive(e.counts.cjk, e.counts.words, e.counts.punctuation);
    EstimatesAll(EstimateTokens(e), sampled, overflow, Weight(e.counts.cjk, e.counts.words, e.counts.punctuation));
  }

  // ----- channels

  /** A channel keeps its own word while fewer than 256 are known or it is one of them; the others share one. */
  lemma ChannelsApart(e: Estimator, channel: Channel)
    ensures ChannelKey(e, channel) == if channel in e.words || |e.words| < 256 then channel else 0
  {
  }

  // ----- bytes

  /** The sample of a text is the longest run of whole characters from its beginning that fits. */
  lemma {:induction false} SampleIsLongest(text: Text, i: nat, used: nat, remaining: nat)
    requires i <= |text| && AtCharacter(text, i) && used == TextBytes(text[..i]) <= remaining
    ensures var n := SampleEnd(text, i, used, remaining);
      && AtCharacter(text, n) && TextBytes(text[..n]) <= remaining
      && forall m | n < m <= |text| :: AtCharacter(text, m) ==> TextBytes(text[..m]) > remaining
    decreases |text| - i
  {
    if i < |text| {
      CharBytesAdd(text, i);
      if used + CharBytes(text, i) > remaining {
        var next := i + CharUnits(text, i);
        forall m | i < m <= |text| && AtCharacter(text, m) ensures TextBytes(text[..m]) > remaining {
          assert next <= m;
          assert text[..m] == text[..next] + text[next..m];
          BytesGrow(text[..next], text[next..m]);
        }
      } else {
        SampleIsLongest(text, i + CharUnits(text, i), used + CharBytes(text, i), remaining);
      }
    }
  }

  /** Every byte that arrives is sampled or counted beyond the sample, up to four hundred million of these. */
  lemma {:induction false} EveryByteCounts(pieces: seq<Piece>, cap: nat)
    ensures var e := Run(pieces, cap);
      && e.sampledBytes <= cap && e.sampledBytes <= AllBytes(pieces)
      && e.overflowBytes == Least(400_000_000, AllBytes(pieces) - e.sampledBytes)
      && (e.observed <==> exists i :: 0 <= i < |pieces| && pieces[i].text != [])
  {
    if pieces != [] {
      var n := |pieces| - 1;
      var before, last := Run(pieces[..n], cap), pieces[n];
      EveryByteCounts(pieces[..n], cap);
      PieceCounts(before, cap, last.channel, last.text);
      if last.text != [] {
        assert pieces[n].text != [];
      }
      if i :| 0 <= i < n && pieces[..n][i].text != [] {
        assert pieces[i].text != [];
      }
      forall i | 0 <= i < n ensures pieces[..n][i] == pieces[i] {
      }
    }
  }

  lemma SampledFits(text: Text, remaining: nat)
    ensures TextBytes(Sampled(text, remaining)) <= remaining && TextBytes(Sampled(text, remaining)) <= TextBytes(text)
  {
    var n := SampleEnd(text, 0, 0, remaining);
    assert text[..0] == [];
    SampleIsLongest(text, 0, 0, remaining);
    assert text == text[..n] + text[n..];
    BytesGrow(text[..n], text[n..]);
  }

  lemma PieceCounts(e: Estimator, cap: nat, channel: Channel, text: Text)
    requires e.sampledBytes <= cap
    ensures var e' := ObserveText(e, cap, channel, text);
      if text == [] then e' == e
      else
        && e'.observed
        && e.sampledBytes <= e'.sampledBytes <= cap && e'.sampledBytes - e.sampledBytes <= TextBytes(text)
        && e'.overflowBytes
           == Least(400_000_000, e.overflowBytes + (TextBytes(text) - (e'.sampledBytes - e.sampledBytes)))
  {
    SampledFits(text, cap - e.sampledBytes);
  }
}
