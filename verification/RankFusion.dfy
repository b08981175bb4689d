/** Reciprocal rank fusion of ranked channels. */
module RankFusion {
  import opened Prelude
  import opened Ordering

  const RRF_K: nat := 60
  const PER_CHANNEL_K: nat := 20

  datatype Hit = Hit(chunk: int, score: real)

  function ScoreOf(): Hit -> real {
    (h: Hit) => h.score
  }

  /** One hit per chunk, as in a list built from the items of a dict keyed by chunk id. */
  ghost predicate UniqueChunks(hits: seq<Hit>) {
    forall i, j :: 0 <= i < j < |hits| ==> hits[i].chunk != hits[j].chunk
  }

  lemma UniqueChunksDistinct(hits: seq<Hit>)
    requires UniqueChunks(hits)
    ensures Distinct(hits)
    ensures forall a, b :: a in hits && b in hits && a.chunk == b.chunk ==> a == b
  {
  }

  lemma PermutationUniqueChunks(hits: seq<Hit>, other: seq<Hit>)
    requires multiset(hits) == multiset(other) && UniqueChunks(hits)
    ensures UniqueChunks(other)
  {
    UniqueChunksDistinct(hits);
    PermutationDistinct(hits, other);
    SameElements(hits, other);
  }

  /** What the hit at a 1-based rank is worth. */
  function Weight(k: nat, rank: nat): (w: real)
    requires rank >= 1
    ensures w > 0.0
  {
    1.0 / (k + rank) as real
  }

  lemma WeightDecreases(k: nat, r: nat, s: nat)
    requires 1 <= r < s
    ensures Weight(k, r) > Weight(k, s)
  {
    var x, y := (k + r) as real, (k + s) as real;
    assert 1.0 / x - 1.0 / y == (y - x) / (x * y);
    assert x * y > 0.0;
  }

  /** What one channel contributes to chunk c, every occurrence counted. */
  function ChannelScore(channel: seq<int>, k: nat, c: int): (s: real)
    ensures s >= 0.0
  {
    if channel == [] then 0.0
    else
      var n := |channel|;
      ChannelScore(channel[..n - 1], k, c) + if channel[n - 1] == c then Weight(k, n) else 0.0
  }

  function FusedScore(channels: seq<seq<int>>, k: nat, c: int): (s: real)
    ensures s >= 0.0
  {
    if channels == [] then 0.0
    else FusedScore(channels[..|channels| - 1], k, c) + ChannelScore(channels[|channels| - 1], k, c)
  }

  function ScoredHits(order: seq<int>, channels: seq<seq<int>>, k: nat): (hits: seq<Hit>)
    ensures |hits| == |order|
    ensures forall i :: 0 <= i < |order| ==> hits[i] == Hit(order[i], FusedScore(channels, k, order[i]))
  {
    seq(|order|, i requires 0 <= i < |order| => Hit(order[i], FusedScore(channels, k, order[i])))
  }

  /** The fused list: every chunk of any channel once, best first, ties in order of first appearance. */
  function Fused(channels: seq<seq<int>>, k: nat): seq<Hit> {
    SortDescending(ScoredHits(FirstSeen(Flatten(channels)), channels, k), ScoreOf())
  }

  /** The dict after the channels done and the read part of the current one: keys in order, scores so far. */
  ghost predicate Tallied(order: seq<int>, fused: map<int, real>, done: seq<seq<int>>, part: seq<int>, k: nat) {
    && order == FirstSeen(Flatten(done) + part)
    && KeysOf(order, fused)
    && (forall x {:trigger Tally(fused, x)} :: Tally(fused, x) == FusedScore(done, k, x) + ChannelScore(part, k, x))
  }

  ghost predicate KeysOf(order: seq<int>, fused: map<int, real>) {
    && (forall i :: 0 <= i < |order| ==> order[i] in fused)
    && (forall x :: x in fused ==> x in order)
  }

  /** fused.get(x, 0.0) */
  function Tally(fused: map<int, real>, x: int): real {
    if x in fused then fused[x] else 0.0
  }

  /** One more occurrence of id in the current channel. */
  lemma TallyHit(
    order: seq<int>, fused: map<int, real>, done: seq<seq<int>>, part: seq<int>, k: nat, id: int,
    order': seq<int>, fused': map<int, real>, part': seq<int>)
    requires Tallied(order, fused, done, part, k) && part' == part + [id]
    requires order' == if id in fused then order else order + [id]
    requires fused' == fused[id := Tally(fused, id) + Weight(k, |part| + 1)]
    ensures Tallied(order', fused', done, part', k)
  {
    KeysHit(order, fused, id, Tally(fused, id) + Weight(k, |part| + 1));
    TallyOrder(order, Flatten(done), part, id);
    TallyScore(fused, done, part, k, id);
  }

  lemma KeysHit(order: seq<int>, fused: map<int, real>, id: int, score: real)
    requires KeysOf(order, fused)
    ensures KeysOf(if id in fused then order else order + [id], fused[id := score])
    ensures id in fused <==> id in order
  {
  }

  lemma TallyScore(fused: map<int, real>, done: seq<seq<int>>, part: seq<int>, k: nat, id: int)
    requires forall x {:trigger Tally(fused, x)} :: Tally(fused, x) == FusedScore(done, k, x) + ChannelScore(part, k, x)
    ensures var fused' := fused[id := Tally(fused, id) + Weight(k, |part| + 1)];
            forall x {:trigger Tally(fused', x)} ::
              Tally(fused', x) == FusedScore(done, k, x) + ChannelScore(part + [id], k, x)
  {
    var w := Weight(k, |part| + 1);
    var fused' := fused[id := Tally(fused, id) + w];
    forall x ensures Tally(fused', x) == FusedScore(done, k, x) + ChannelScore(part + [id], k, x) {
      ChannelScoreSnoc(part, k, id, x);
      assert Tally(fused', x) == Tally(fused, x) + if x == id then w else 0.0;
    }
  }

  lemma TallyOrder(order: seq<int>, done: seq<int>, part: seq<int>, id: int)
    requires order == FirstSeen(done + part)
    ensures FirstSeen(done + (part + [id])) == if id in order then order else order + [id]
  {
    assert done + (part + [id]) == done + part + [id];
    FirstSeenSnoc(done + part, id);
    FirstSeenFacts(done + part);
  }

  lemma ChannelScoreSnoc(part: seq<int>, k: nat, id: int, x: int)
    ensures ChannelScore(part + [id], k, x) == ChannelScore(part, k, x) + if x == id then Weight(k, |part| + 1) else 0.0
  {
    assert (part + [id])[..|part|] == part;
  }

  /** The items of the dict as hits. */
  function Items(order: seq<int>, fused: map<int, real>): (hits: seq<Hit>)
    requires forall i :: 0 <= i < |order| ==> order[i] in fused
    ensures |hits| == |order| && forall i :: 0 <= i < |order| ==> hits[i] == Hit(order[i], fused[order[i]])
  {
    seq(|order|, i requires 0 <= i < |order| => Hit(order[i], fused[order[i]]))
  }

  lemma TallyComplete(order: seq<int>, fused: map<int, real>, channels: seq<seq<int>>, k: nat)
    requires Tallied(order, fused, channels, [], k)
    ensures order == FirstSeen(Flatten(channels))
    ensures Items(order, fused) == ScoredHits(order, channels, k)
  {
    assert Flatten(channels) + [] == Flatten(channels);
    forall i | 0 <= i < |order| ensures fused[order[i]] == FusedScore(channels, k, order[i]) {
      assert Tally(fused, order[i]) == fused[order[i]];
    }
  }

  lemma TallyChannel(order: seq<int>, fused: map<int, real>, done: seq<seq<int>>, channel: seq<int>, k: nat)
    requires Tallied(order, fused, done, channel, k)
    ensures Tallied(order, fused, done + [channel], [], k)
  {
    assert (done + [channel])[..|done|] == done;
    assert Flatten(done + [channel]) + [] == Flatten(done) + channel;
  }

  /** The body of the inner loop: one occurrence at its rank. */
  method AddRank(order0: seq<int>, fused0: map<int, real>, ghost done: seq<seq<int>>, channel: seq<int>, r: nat, k: nat)
    returns (order: seq<int>, fused: map<int, real>)
    requires r < |channel| && Tallied(order0, fused0, done, channel[..r], k)
    ensures Tallied(order, fused, done, channel[..r + 1], k)
  {
    var id := channel[r];
    order, fused := if id in fused0 then order0 else order0 + [id], fused0[id := Tally(fused0, id) + Weight(k, r + 1)];
    assert channel[..r + 1] == channel[..r] + [id];
    TallyHit(order0, fused0, done, channel[..r], k, id, order, fused, channel[..r + 1]);
  }

  /** The inner loop of the fusion: one ranked channel is added to the dict. */
  method AddChannel(order0: seq<int>, fused0: map<int, real>, ghost done: seq<seq<int>>, channel: seq<int>, k: nat)
    returns (order: seq<int>, fused: map<int, real>)
    requires Tallied(order0, fused0, done, [], k)
    ensures Tallied(order, fused, done, channel, k)
  {
    order, fused := order0, fused0;
    for r := 0 to |channel|
      invariant Tallied(order, fused, done, channel[..r], k)
    {
      order, fused := AddRank(order, fused, done, channel, r, k);
    }
    assert channel[..|channel|] == channel;
  }

  method ReciprocalRankFusion(channels: seq<seq<int>>, k: nat) returns (result: seq<Hit>)
    ensures result == Fused(channels, k)
  {
    var order: seq<int> := [];
    var fused: map<int, real> := map[];
    TallyNothing(k);
    for c := 0 to |channels|
      invariant Tallied(order, fused, channels[..c], [], k)
    {
      order, fused := AddChannel(order, fused, channels[..c], channels[c], k);
      TallyChannel(order, fused, channels[..c], channels[c], k);
      assert channels[..c + 1] == channels[..c] + [channels[c]];
    }
    assert channels[..|channels|] == channels;
    TallyComplete(order, fused, channels, k);
    result := SortDescending(Items(order, fused), ScoreOf());
  }

  lemma TallyNothing(k: nat)
    ensures Tallied([], map[], [], [], k)
  {
    assert Flatten<int>([]) + [] == [];
  }

  /** The fused list holds each chunk of any channel exactly once, with its fused score. */
  lemma FusedContents(channels: seq<seq<int>>, k: nat)
    ensures UniqueChunks(Fused(channels, k))
    ensures forall h :: h in Fused(channels, k)
              <==> h.chunk in Flatten(channels) && h.score == FusedScore(channels, k, h.chunk)
  {
    var order := FirstSeen(Flatten(channels));
    var hits := ScoredHits(order, channels, k);
    FirstSeenFacts(Flatten(channels));
    SortPermutes(hits, ByKeyDescending(ScoreOf()));
    PermutationUniqueChunks(hits, Fused(channels, k));
    SameElements(hits, Fused(channels, k));
    forall h ensures h in hits <==> h.chunk in order && h.score == FusedScore(channels, k, h.chunk) {
      if h.chunk in order && h.score == FusedScore(channels, k, h.chunk) {
        var i :| 0 <= i < |order| && order[i] == h.chunk;
        assert hits[i] == h;
      }
    }
  }

  /** The fused list is best first. */
  lemma FusedIsRanked(channels: seq<seq<int>>, k: nat, a: Hit, b: Hit)
    requires Before(Fused(channels, k), a, b)
    ensures a.score >= b.score
  {
    var hits := ScoredHits(FirstSeen(Flatten(channels)), channels, k);
    assert TotalPreorder(ByKeyDescending(ScoreOf()));
    SortSorts(hits, ByKeyDescending(ScoreOf()));
  }

  lemma ChunkAt(order: seq<int>, channels: seq<seq<int>>, k: nat, x: int, y: int)
    requires Distinct(order)
    ensures var hits := ScoredHits(order, channels, k);
            Before(hits, Hit(x, FusedScore(channels, k, x)), Hit(y, FusedScore(channels, k, y)))
            <==> Before(order, x, y)
  {
    var hits := ScoredHits(order, channels, k);
    var hx, hy := Hit(x, FusedScore(channels, k, x)), Hit(y, FusedScore(channels, k, y));
    if Before(order, x, y) {
      var i, j :| 0 <= i < j < |order| && order[i] == x && order[j] == y;
      assert hits[i] == hx && hits[j] == hy;
    }
    if Before(hits, hx, hy) {
      var i, j :| 0 <= i < j < |hits| && hits[i] == hx && hits[j] == hy;
      assert order[i] == x && order[j] == y;
    }
  }

  /** The fused order: by fused score, ties by first appearance in the channels. */
  lemma FusedOrder(channels: seq<seq<int>>, k: nat, x: int, y: int)
    requires x in Flatten(channels) && y in Flatten(channels) && x != y
    ensures var fx, fy := FusedScore(channels, k, x), FusedScore(channels, k, y);
            Before(Fused(channels, k), Hit(x, fx), Hit(y, fy))
            <==> fx > fy || (fx == fy && Before(FirstSeen(Flatten(channels)), x, y))
  {
    var order := FirstSeen(Flatten(channels));
    var hits := ScoredHits(order, channels, k);
    var hx, hy := Hit(x, FusedScore(channels, k, x)), Hit(y, FusedScore(channels, k, y));
    FirstSeenFacts(Flatten(channels));
    var i :| 0 <= i < |order| && order[i] == x;
    var j :| 0 <= j < |order| && order[j] == y;
    assert hits[i] == hx && hits[j] == hy;
    ChunkAt(order, channels, k, x, y);
    SortDescendingOrder(hits, ScoreOf(), hx, hy);
  }

  /** A duplicate-free channel is worth one rank weight to its members and nothing to others. */
  lemma {:induction false} ChannelScoreBounds(channel: seq<int>, k: nat, c: int)
    requires Distinct(channel)
    ensures c !in channel ==> ChannelScore(channel, k, c) == 0.0
    ensures c in channel ==> Weight(k, |channel|) <= ChannelScore(channel, k, c) <= Weight(k, 1)
  {
    if channel != [] {
      var n := |channel|;
      ChannelScoreBounds(channel[..n - 1], k, c);
      if n > 1 {
        WeightDecreases(k, 1, n);
        WeightDecreases(k, n - 1, n);
      }
    }
  }

  /** Agreement between the channels is worth more than any single-channel rank. */
  lemma BothChannelsLead(keyword: seq<int>, vector: seq<int>, a: int, b: int)
    requires Distinct(keyword) && Distinct(vector)
    requires |keyword| <= PER_CHANNEL_K && |vector| <= PER_CHANNEL_K
    requires a in keyword && a in vector
    requires b !in keyword || b !in vector
    ensures FusedScore([keyword, vector], RRF_K, a) - FusedScore([keyword, vector], RRF_K, b)
            >= 1.0 / 40.0 - 1.0 / 61.0
  {
    TwoChannels(keyword, vector, RRF_K, a);
    TwoChannels(keyword, vector, RRF_K, b);
    ChannelScoreBounds(keyword, RRF_K, a);
    ChannelScoreBounds(vector, RRF_K, a);
    ChannelScoreBounds(keyword, RRF_K, b);
    ChannelScoreBounds(vector, RRF_K, b);
    if |keyword| < 20 { WeightDecreases(RRF_K, |keyword|, 20); }
    if |vector| < 20 { WeightDecreases(RRF_K, |vector|, 20); }
  }

  lemma TwoChannels(keyword: seq<int>, vector: seq<int>, k: nat, c: int)
    ensures FusedScore([keyword, vector], k, c) == ChannelScore(keyword, k, c) + ChannelScore(vector, k, c)
    ensures c in Flatten([keyword, vector]) <==> c in keyword || c in vector
  {
    var channels := [keyword, vector];
    assert channels[..1] == [keyword] && [keyword][..0] == [];
    assert FusedScore([keyword], k, c) == ChannelScore(keyword, k, c);
    assert Flatten([keyword]) == keyword;
  }

  // --- One channel alone ---

  lemma {:induction false} FirstSeenDistinct(xs: seq<int>)
    requires Distinct(xs)
    ensures FirstSeen(xs) == xs
  {
    if xs != [] {
      var n := |xs| - 1;
      FirstSeenDistinct(xs[..n]);
      assert xs == xs[..n] + [xs[n]];
      assert forall i :: 0 <= i < n ==> xs[..n][i] != xs[n];
    }
  }

  lemma {:induction false} ChannelScoreAt(channel: seq<int>, k: nat, i: nat)
    requires Distinct(channel) && i < |channel|
    ensures ChannelScore(channel, k, channel[i]) == Weight(k, i + 1)
  {
    var n := |channel| - 1;
    if i == n {
      ChannelScoreBounds(channel[..n], k, channel[n]);
      assert forall j :: 0 <= j < n ==> channel[..n][j] != channel[n];
    } else {
      ChannelScoreAt(channel[..n], k, i);
    }
  }

  /** A channel as hits with its rank weights. */
  function ChannelHits(channel: seq<int>, k: nat): (hits: seq<Hit>)
    ensures |hits| == |channel| && forall i :: 0 <= i < |hits| ==> hits[i] == Hit(channel[i], Weight(k, i + 1))
  {
    seq(|channel|, i requires 0 <= i < |channel| => Hit(channel[i], Weight(k, i + 1)))
  }

  lemma ScoredChannel(channel: seq<int>, k: nat)
    requires Distinct(channel)
    ensures ScoredHits(channel, [[], channel], k) == ChannelHits(channel, k)
  {
    forall i | 0 <= i < |channel| ensures FusedScore([[], channel], k, channel[i]) == Weight(k, i + 1) {
      TwoChannels([], channel, k, channel[i]);
      ChannelScoreAt(channel, k, i);
    }
  }

  lemma ChannelHitsAreSorted(channel: seq<int>, k: nat)
    ensures SortDescending(ChannelHits(channel, k), ScoreOf()) == ChannelHits(channel, k)
  {
    var hits := ChannelHits(channel, k);
    forall i, j | 0 <= i < j < |hits| ensures hits[i].score > hits[j].score {
      WeightDecreases(k, i + 1, j + 1);
    }
    SortedIsFixed(hits, ScoreOf());
  }

  lemma OneChannelSeen(channel: seq<int>)
    requires Distinct(channel)
    ensures FirstSeen(Flatten([[], channel])) == channel
  {
    var none: seq<int> := [];
    var channels := [none, channel];
    assert channels[..1] == [none] && [none][..0] == [];
    assert Flatten([none]) == none;
    assert Flatten(channels) == none + channel == channel;
    FirstSeenDistinct(channel);
  }

  /** When no keyword matches, the fused list is the vector channel with its rank weights. */
  lemma OneChannel(channel: seq<int>, k: nat)
    requires Distinct(channel)
    ensures Fused([[], channel], k) == ChannelHits(channel, k)
  {
    var channels := [[], channel];
    OneChannelSeen(channel);
    ScoredChannel(channel, k);
    ChannelHitsAreSorted(channel, k);
    assert Fused(channels, k) == SortDescending(ScoredHits(channel, channels, k), ScoreOf());
  }
}
