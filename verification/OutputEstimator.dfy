/** The estimate of generated tokens from the text that a response streams over several channels. */
module OutputEstimator {
  import opened SseEvents
  import opened TextUnits

  const MAX_ESTIMATED_TOKENS: nat := 100_000_000
  const MAX_CHANNELS: nat := 256

  datatype Counts = Counts(cjk: nat, words: nat, punctuation: nat)

  // ----- one channel

  /** What ECMAScript's `\s` matches. */
  predicate IsSpace(u: Unit) {
    9 <= u <= 13 || u in {0x20, 0xA0, 0x1680, 0x2028, 0x2029, 0x202F, 0x205F, 0x3000, 0xFEFF} || 0x2000 <= u <= 0x200A
  }

  /** Word characters other than letters, digits and `_` count as punctuation, too. */
  predicate IsPunctuation(u: Unit) {
    !IsSpace(u) && !IsAlphaNumeric(u) && u != 95 && !IsCjk(u)
  }

  function Observe(c: Counts, inWord: bool, u: Unit): Counts {
    Counts(c.cjk + if IsCjk(u) then 1 else 0,
           c.words + if IsWord(u) && !inWord then 1 else 0,
           c.punctuation + if IsPunctuation(u) then 1 else 0)
  }

  /** The counts of a text read after a text that ended inside a word, or not. */
  function CountsAfter(inWord: bool, text: Text): Counts {
    if text == [] then Counts(0, 0, 0)
    else
      var n := |text| - 1;
      Observe(CountsAfter(inWord, text[..n]), EndsInWord(inWord, text[..n]), text[n])
  }

  predicate EndsInWord(inWord: bool, text: Text) {
    if text == [] then inWord else IsWord(text[|text| - 1])
  }

  function Add(a: Counts, b: Counts): Counts {
    Counts(a.cjk + b.cjk, a.words + b.words, a.punctuation + b.punctuation)
  }

  lemma LastUnit(inWord: bool, a: Text, b: Text)
    requires b != []
    ensures var init := b[..|b| - 1];
      CountsAfter(inWord, a + b) == Observe(CountsAfter(inWord, a + init), EndsInWord(inWord, a + init), b[|b| - 1])
  {
    assert (a + b)[..|a + b| - 1] == a + b[..|b| - 1];
  }

  lemma EndSplit(inWord: bool, a: Text, b: Text)
    ensures EndsInWord(inWord, a + b) == EndsInWord(EndsInWord(inWord, a), b)
  {
    if b == [] {
      assert a + b == a;
    }
  }

  lemma ObserveAdds(a: Counts, b: Counts, inWord: bool, u: Unit)
    ensures Observe(Add(a, b), inWord, u) == Add(a, Observe(b, inWord, u))
  {
  }

  /** A word cut in two is counted once. */
  lemma {:induction false} CountsSplit(inWord: bool, a: Text, b: Text)
    ensures CountsAfter(inWord, a + b) == Add(CountsAfter(inWord, a), CountsAfter(EndsInWord(inWord, a), b))
    decreases |b|
  {
    if b == [] {
      assert a + b == a;
    } else {
      var init, last := b[..|b| - 1], b[|b| - 1];
      CountsSplit(inWord, a, init);
      EndSplit(inWord, a, init);
      LastUnit(inWord, a, b);
      ObserveAdds(CountsAfter(inWord, a), CountsAfter(EndsInWord(inWord, a), init), EndsInWord(inWord, a + init), last);
    }
  }

  // ----- the sample

  predicate PairAt(text: Text, i: nat)
    requires i < |text|
  {
    HighSurrogate(text[i]) && i + 1 < |text| && LowSurrogate(text[i + 1])
  }

  /** The units of the character at `i`, and its UTF-8 bytes. */
  function CharUnits(text: Text, i: nat): (n: nat)
    requires i < |text|
    ensures 1 <= n <= |text| - i
  {
    if PairAt(text, i) then 2 else 1
  }

  function CharBytes(text: Text, i: nat): nat
    requires i < |text|
  {
    if text[i] <= 0x7F then 1 else if text[i] <= 0x7FF then 2 else if PairAt(text, i) then 4 else 3
  }

  /** How much of the text from `i` on is sampled when `used` of `remaining` bytes are taken. */
  function SampleEnd(text: Text, i: nat, used: nat, remaining: nat): (n: nat)
    requires i <= |text|
    ensures i <= n <= |text|
    decreases |text| - i
  {
    if i == |text| || used >= remaining || used + CharBytes(text, i) > remaining then i
    else SampleEnd(text, i + CharUnits(text, i), used + CharBytes(text, i), remaining)
  }

  function Sampled(text: Text, remaining: nat): Text { text[..SampleEnd(text, 0, 0, remaining)] }

  /** No character begins inside a surrogate pair. */
  predicate AtCharacter(text: Text, i: nat)
    requires i <= |text|
  {
    i == 0 || i == |text| || !(HighSurrogate(text[i - 1]) && LowSurrogate(text[i]))
  }

  lemma CharBytesAdd(text: Text, i: nat)
    requires i < |text| && AtCharacter(text, i)
    ensures var n := i + CharUnits(text, i);
      TextBytes(text[..n]) == TextBytes(text[..i]) + CharBytes(text, i) && AtCharacter(text, n)
  {
    assert text[..i + 1][..i] == text[..i];
    if PairAt(text, i) {
      assert text[..i + 2][..i + 1] == text[..i + 1];
    }
  }

  /** A text that fits is sampled whole. */
  lemma {:induction false} FitsWhole(text: Text, i: nat, used: nat, remaining: nat)
    requires i <= |text| && AtCharacter(text, i) && used == TextBytes(text[..i]) && TextBytes(text) <= remaining
    ensures SampleEnd(text, i, used, remaining) == |text|
    decreases |text| - i
  {
    if i < |text| {
      var n := i + CharUnits(text, i);
      CharBytesAdd(text, i);
      assert text == text[..n] + text[n..];
      BytesGrow(text[..n], text[n..]);
      FitsWhole(text, n, used + CharBytes(text, i), remaining);
    }
  }

  // ----- the estimator

  /** Channels are numbered; once there are too many, further ones share channel 0. */
  type Channel = nat

  const SHARED: Channel := 0

  /** `words`: for each channel seen, whether its text so far ended inside a word. */
  datatype Estimator = Estimator(words: map<Channel, bool>, sampledBytes: nat, overflowBytes: nat, counts: Counts,
                                 observed: bool)

  const FRESH := Estimator(map[], 0, 0, Counts(0, 0, 0), false)

  function ChannelKey(e: Estimator, channel: Channel): Channel {
    if channel in e.words || |e.words| < MAX_CHANNELS then channel else SHARED
  }

  function InWord(e: Estimator, key: Channel): bool { key in e.words && e.words[key] }

  function Least(a: nat, b: nat): nat { if a < b then a else b }

  function Positive(n: int): nat { if n > 0 then n else 0 }

  function ObserveText(e: Estimator, cap: nat, channel: Channel, text: Text): Estimator {
    if text == [] then e
    else
      var key := ChannelKey(e, channel);
      var sample := Sampled(text, Positive(cap - e.sampledBytes));
      var used := TextBytes(sample);
      Estimator(e.words[key := EndsInWord(InWord(e, key), sample)], e.sampledBytes + used,
                Least(MAX_ESTIMATED_TOKENS * 4, e.overflowBytes + Positive(TextBytes(text) - used)),
                Add(e.counts, CountsAfter(InWord(e, key), sample)), true)
  }

  /** The weighed counts of the sample, and a token for every four bytes beyond it. */
  function EstimateTokens(e: Estimator): nat {
    if !e.observed then 0
    else
      var sampled := Weigh(e.counts.cjk, e.counts.words, e.counts.punctuation);
      var total := sampled + (e.overflowBytes + 3) / 4;
      Least(MAX_ESTIMATED_TOKENS, if total > 1 then total else 1)
  }

  datatype Piece = Piece(channel: Channel, text: Text)

  function Run(pieces: seq<Piece>, cap: nat): Estimator {
    if pieces == [] then FRESH
    else
      var last := pieces[|pieces| - 1];
      ObserveText(Run(pieces[..|pieces| - 1], cap), cap, last.channel, last.text)
  }

  // ----- one text per channel

  /** Everything that arrived on a channel. */
  function ChannelText(pieces: seq<Piece>, channel: Channel): Text {
    if pieces == [] then []
    else
      var last := pieces[|pieces| - 1];
      ChannelText(pieces[..|pieces| - 1], channel) + if last.channel == channel then last.text else []
  }

  function Channels(pieces: seq<Piece>): set<Channel> {
    if pieces == [] then {}
    else
      var last := pieces[|pieces| - 1];
      Channels(pieces[..|pieces| - 1]) + if last.text != [] then {last.channel} else {}
  }

  function AllBytes(pieces: seq<Piece>): nat {
    if pieces == [] then 0 else AllBytes(pieces[..|pieces| - 1]) + TextBytes(pieces[|pieces| - 1].text)
  }

  /** The counts of the channels below `n`, each as one text. */
  function CountsBelow(pieces: seq<Piece>, n: nat): Counts {
    if n == 0 then Counts(0, 0, 0) else Add(CountsBelow(pieces, n - 1), CountsAfter(false, ChannelText(pieces, n - 1)))
  }

  /** More text on one channel adds to that channel only. */
  lemma {:induction false} OneChannelAdds(pieces: seq<Piece>, more: seq<Piece>, channel: Channel, gain: Counts, n: nat)
    requires forall k: nat | k < n ::
      CountsAfter(false, ChannelText(more, k))
      == if k == channel then Add(CountsAfter(false, ChannelText(pieces, k)), gain)
        else CountsAfter(false, ChannelText(pieces, k))
    ensures CountsBelow(more, n) == if channel < n then Add(CountsBelow(pieces, n), gain) else CountsBelow(pieces, n)
  {
    if n > 0 {
      OneChannelAdds(pieces, more, channel, gain, n - 1);
      Rearrange(CountsBelow(pieces, n - 1), gain, CountsAfter(false, ChannelText(pieces, n - 1)));
    }
  }

  lemma PieceAdds(pieces: seq<Piece>, piece: Piece, n: nat)
    requires piece.channel < n
    ensures CountsBelow(pieces + [piece], n) == Add(CountsBelow(pieces, n), Gain(pieces, piece))
  {
    forall k: nat | k < n
      ensures CountsAfter(false, ChannelText(pieces + [piece], k))
        == if k == piece.channel then Add(CountsAfter(false, ChannelText(pieces, k)), Gain(pieces, piece))
           else CountsAfter(false, ChannelText(pieces, k))
    {
      ChannelGain(pieces, piece, k);
    }
    OneChannelAdds(pieces, pieces + [piece], piece.channel, Gain(pieces, piece), n);
  }

  /** What a piece adds to the counts of its channel. */
  function Gain(pieces: seq<Piece>, piece: Piece): Counts {
    CountsAfter(EndsInWord(false, ChannelText(pieces, piece.channel)), piece.text)
  }

  lemma ChannelGain(pieces: seq<Piece>, piece: Piece, channel: Channel)
    ensures CountsAfter(false, ChannelText(pieces + [piece], channel))
         == if piece.channel == channel then Add(CountsAfter(false, ChannelText(pieces, channel)), Gain(pieces, piece))
            else CountsAfter(false, ChannelText(pieces, channel))
  {
    TextAfter(pieces, piece, channel);
    CountsSplit(false, ChannelText(pieces, channel), piece.text);
  }

  lemma Rearrange(a: Counts, b: Counts, c: Counts)
    ensures Add(Add(a, b), c) == Add(Add(a, c), b) == Add(a, Add(c, b))
  {
  }

  lemma TextAfter(pieces: seq<Piece>, piece: Piece, channel: Channel)
    ensures ChannelText(pieces + [piece], channel)
         == if piece.channel == channel then ChannelText(pieces, channel) + piece.text else ChannelText(pieces, channel)
  {
    assert (pieces + [piece])[..|pieces|] == pieces;
    assert ChannelText(pieces, channel) + [] == ChannelText(pieces, channel);
  }

  /** The estimator knows whether the channel's text so far ends inside a word. */
  predicate KnowsChannel(e: Estimator, pieces: seq<Piece>, channel: Channel) {
    InWord(e, channel) == EndsInWord(false, ChannelText(pieces, channel))
  }

  /** The estimator knows each channel's text so far, and has counted every channel as one text. */
  ghost predicate Tracks(e: Estimator, pieces: seq<Piece>, n: nat) {
    && e.words.Keys == Channels(pieces)
    && (forall k: Channel :: KnowsChannel(e, pieces, k))
    && e.counts == CountsBelow(pieces, n)
    && e.sampledBytes == AllBytes(pieces) && e.overflowBytes == 0 && e.observed == (Channels(pieces) != {})
  }

  /** The estimator after a piece that fits: all of it is sampled, under its own channel. */
  function ObserveWhole(e: Estimator, piece: Piece): Estimator {
    var k, text := piece.channel, piece.text;
    if text == [] then e
    else
      Estimator(e.words[k := EndsInWord(InWord(e, k), text)], e.sampledBytes + TextBytes(text), e.overflowBytes,
                Add(e.counts, CountsAfter(InWord(e, k), text)), true)
  }

  lemma WholePiece(e: Estimator, pieces: seq<Piece>, piece: Piece, cap: nat)
    requires e.words.Keys == Channels(pieces) && |Channels(pieces + [piece])| <= MAX_CHANNELS
    requires e.sampledBytes + TextBytes(piece.text) <= cap && e.overflowBytes == 0
    ensures ObserveText(e, cap, piece.channel, piece.text) == ObserveWhole(e, piece)
  {
    if piece.text != [] {
      OwnKey(e, pieces, piece);
      FitsWhole(piece.text, 0, 0, cap - e.sampledBytes);
      SampledWhole(e, cap, piece);
    }
  }

  lemma SampledWhole(e: Estimator, cap: nat, piece: Piece)
    requires piece.text != [] && ChannelKey(e, piece.channel) == piece.channel && e.overflowBytes == 0
    requires e.sampledBytes <= cap && SampleEnd(piece.text, 0, 0, cap - e.sampledBytes) == |piece.text|
    ensures ObserveText(e, cap, piece.channel, piece.text) == ObserveWhole(e, piece)
  {
    assert piece.text[..|piece.text|] == piece.text;
  }

  lemma StillKnown(e: Estimator, pieces: seq<Piece>, piece: Piece, channel: Channel)
    requires KnowsChannel(e, pieces, channel)
    ensures KnowsChannel(ObserveWhole(e, piece), pieces + [piece], channel)
  {
    TextAfter(pieces, piece, channel);
    EndSplit(false, ChannelText(pieces, channel), piece.text);
  }

  lemma WholeTracks(e: Estimator, pieces: seq<Piece>, piece: Piece, n: nat)
    requires Tracks(e, pieces, n) && piece.channel < n
    ensures Tracks(ObserveWhole(e, piece), pieces + [piece], n)
  {
    PieceSums(pieces, piece);
    PieceAdds(pieces, piece, n);
    forall k: Channel ensures KnowsChannel(ObserveWhole(e, piece), pieces + [piece], k) {
      assert KnowsChannel(e, pieces, k);
      StillKnown(e, pieces, piece, k);
    }
    if piece.text == [] {
      NothingAdds(CountsBelow(pieces, n), EndsInWord(false, ChannelText(pieces, piece.channel)));
    } else {
      assert KnowsChannel(e, pieces, piece.channel);
    }
  }

  lemma PieceSums(pieces: seq<Piece>, piece: Piece)
    ensures AllBytes(pieces + [piece]) == AllBytes(pieces) + TextBytes(piece.text)
    ensures Channels(pieces + [piece]) == Channels(pieces) + if piece.text == [] then {} else {piece.channel}
  {
    assert (pieces + [piece])[..|pieces|] == pieces;
  }

  /** The channels seen are those with text. */
  lemma {:induction false} TextsAre(pieces: seq<Piece>)
    ensures forall k: Channel :: k in Channels(pieces) <==> ChannelText(pieces, k) != []
  {
    if pieces != [] {
      TextsAre(pieces[..|pieces| - 1]);
    }
  }

  lemma NothingAdds(c: Counts, inWord: bool)
    ensures Add(c, CountsAfter(inWord, [])) == c
  {
  }

  lemma OwnKey(e: Estimator, pieces: seq<Piece>, piece: Piece)
    requires e.words.Keys == Channels(pieces) && piece.text != [] && |Channels(pieces + [piece])| <= MAX_CHANNELS
    ensures ChannelKey(e, piece.channel) == piece.channel
  {
    assert (pieces + [piece])[..|pieces|] == pieces;
    if piece.channel !in e.words {
      assert Channels(pieces + [piece]) == e.words.Keys + {piece.channel};
      assert |e.words| == |e.words.Keys|;
    }
  }

  predicate ChannelsBelow(pieces: seq<Piece>, n: nat) {
    forall i | 0 <= i < |pieces| :: pieces[i].channel < n
  }

  lemma {:induction false} RunTracks(pieces: seq<Piece>, n: nat, cap: nat)
    requires ChannelsBelow(pieces, n) && AllBytes(pieces) <= cap && |Channels(pieces)| <= MAX_CHANNELS
    ensures Tracks(Run(pieces, cap), pieces, n)
  {
    if pieces == [] {
      NoCounts(n);
    } else {
      var init, last := pieces[..|pieces| - 1], pieces[|pieces| - 1];
      assert pieces == init + [last];
      FewerChannels(init, last);
      RunTracks(init, n, cap);
      WholePiece(Run(init, cap), init, last, cap);
      WholeTracks(Run(init, cap), init, last, n);
    }
  }

  lemma FewerChannels(pieces: seq<Piece>, piece: Piece)
    ensures |Channels(pieces)| <= |Channels(pieces + [piece])|
  {
    assert (pieces + [piece])[..|pieces|] == pieces;
    Subset(Channels(pieces), Channels(pieces + [piece]));
  }

  lemma Subset(a: set<Channel>, b: set<Channel>)
    requires a <= b
    ensures |a| <= |b|
  {
    assert b == a + (b - a);
  }

  lemma {:induction false} NoCounts(n: nat)
    ensures CountsBelow([], n) == Counts(0, 0, 0)
  {
    if n > 0 {
      NoCounts(n - 1);
    }
  }

  lemma {:induction false} SameCounts(a: seq<Piece>, b: seq<Piece>, n: nat)
    requires forall k | 0 <= k < n :: ChannelText(a, k) == ChannelText(b, k)
    ensures CountsBelow(a, n) == CountsBelow(b, n)
  {
    if n > 0 {
      SameCounts(a, b, n - 1);
    }
  }

  /**
   Within the sample and the channels that are kept apart, the estimate depends
   only on the text of each channel, however it was cut and interleaved.
   */
  lemma EstimateOfTexts(a: seq<Piece>, b: seq<Piece>, n: nat, cap: nat)
    requires ChannelsBelow(a, n) && AllBytes(a) <= cap && |Channels(a)| <= MAX_CHANNELS
    requires ChannelsBelow(b, n) && AllBytes(b) <= cap && |Channels(b)| <= MAX_CHANNELS
    requires forall k | 0 <= k < n :: ChannelText(a, k) == ChannelText(b, k)
    ensures EstimateTokens(Run(a, cap)) == EstimateTokens(Run(b, cap))
  {
    RunTracks(a, n, cap);
    RunTracks(b, n, cap);
    SameEstimate(Run(a, cap), Run(b, cap), a, b, n);
  }

  lemma SameEstimate(ea: Estimator, eb: Estimator, a: seq<Piece>, b: seq<Piece>, n: nat)
    requires Tracks(ea, a, n) && Tracks(eb, b, n) && ChannelsBelow(a, n) && ChannelsBelow(b, n)
    requires forall k | 0 <= k < n :: ChannelText(a, k) == ChannelText(b, k)
    ensures EstimateTokens(ea) == EstimateTokens(eb)
  {
    SameCounts(a, b, n);
    TextsAre(a);
    TextsAre(b);
    SeenBelow(a, n);
    SeenBelow(b, n);
    assert Channels(a) == Channels(b);
  }

  lemma {:induction false} SeenBelow(pieces: seq<Piece>, n: nat)
    requires ChannelsBelow(pieces, n)
    ensures forall k | k in Channels(pieces) :: k < n
  {
    if pieces != [] {
      SeenBelow(pieces[..|pieces| - 1], n);
    }
  }

  // ----- the estimator as it runs

  lemma CharCounts(inWord: bool, text: Text, i: nat)
    requires i < |text|
    ensures var here := CountsAfter(inWord, text[..i]);
      CountsAfter(inWord, text[..i + 1]) == Observe(here, EndsInWord(inWord, text[..i]), text[i])
    ensures EndsInWord(inWord, text[..i + 1]) == IsWord(text[i])
  {
    assert text[..i + 1][..i] == text[..i];
  }

  class StreamEstimator {
    const cap: nat
    var words: map<Channel, bool>
    var sampledBytes: nat
    var overflowBytes: nat
    var cjk: nat
    var wordRuns: nat
    var punctuation: nat
    var observed: bool

    function State(): Estimator
      reads this
    {
      Estimator(words, sampledBytes, overflowBytes, Counts(cjk, wordRuns, punctuation), observed)
    }

    constructor (cap: nat)
      ensures State() == FRESH && this.cap == cap
    {
      this.cap := cap;
      words, sampledBytes, overflowBytes, cjk, wordRuns, punctuation, observed := map[], 0, 0, 0, 0, 0, false;
    }

    method ObserveUnit(u: Unit, inWord: bool) returns (nowInWord: bool)
      modifies this`cjk, this`wordRuns, this`punctuation
      ensures Counts(cjk, wordRuns, punctuation) == Observe(old(Counts(cjk, wordRuns, punctuation)), inWord, u)
      ensures nowInWord == IsWord(u)
    {
      if IsCjk(u) {
        cjk := cjk + 1;
      }
      nowInWord := IsWord(u);
      if nowInWord && !inWord {
        wordRuns := wordRuns + 1;
      }
      if !IsSpace(u) && !IsAlphaNumeric(u) && u != 95 && !IsCjk(u) {
        punctuation := punctuation + 1;
      }
    }

    /** Samples the text from its beginning while whole characters fit. */
    method Sample(text: Text, remaining: nat, start: bool) returns (inWord: bool, used: nat)
      modifies this`cjk, this`wordRuns, this`punctuation
      ensures var sample := Sampled(text, remaining);
        && used == TextBytes(sample) && inWord == EndsInWord(start, sample)
        && Counts(cjk, wordRuns, punctuation)
          == Add(old(Counts(cjk, wordRuns, punctuation)), CountsAfter(start, sample))
    {
      inWord, used := start, 0;
      var index := 0;
      ghost var before := Counts(cjk, wordRuns, punctuation);
      assert text[..0] == [];
      while index < |text| && used < remaining
        invariant index <= |text| && AtCharacter(text, index)
        invariant SampleEnd(text, 0, 0, remaining) == SampleEnd(text, index, used, remaining)
        invariant used == TextBytes(text[..index]) && inWord == EndsInWord(start, text[..index])
        invariant Counts(cjk, wordRuns, punctuation) == Add(before, CountsAfter(start, text[..index]))
        decreases |text| - index
      {
        var bytes := CharBytes(text, index);
        if used + bytes > remaining { break; }
        CharBytesAdd(text, index);
        var pair := PairAt(text, index);
        CharCounts(start, text, index);
        ObserveAdds(before, CountsAfter(start, text[..index]), inWord, text[index]);
        inWord := ObserveUnit(text[index], inWord);
        index := index + 1;
        if pair {
          CharCounts(start, text, index);
          ObserveAdds(before, CountsAfter(start, text[..index]), inWord, text[index]);
          inWord := ObserveUnit(text[index], inWord);
          index := index + 1;
        }
        used := used + bytes;
      }
    }

    method ObserveChannel(channel: Channel, text: Text)
      modifies this
      ensures State() == ObserveText(old(State()), cap, channel, text)
    {
      if text == [] { return; }
      observed := true;
      var remaining := Positive(cap - sampledBytes);
      var key := if channel in words || |words| < MAX_CHANNELS then channel else SHARED;
      assert key == ChannelKey(old(State()), channel);
      var inWord, used := Sample(text, remaining, key in words && words[key]);
      sampledBytes := sampledBytes + used;
      var missed: int := TextBytes(text) - used;
      overflowBytes := Least(MAX_ESTIMATED_TOKENS * 4, overflowBytes + Positive(missed));
      words := words[key := inWord];
    }
  }
}
