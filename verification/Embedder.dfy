/** Batched document embedding under a count limit and an estimated token limit. */
module Embedder {
  import opened Prelude

  const MAX_BATCH_TEXTS: nat := 96
  const MAX_BATCH_TOKENS: nat := 100_000
  const MAX_TEXT_CHARS: nat := 96_000

  type Vector = seq<real>

  /** The provider's answer to the n-th request; None stands for a raised error. */
  type Provider = (nat, seq<string>) -> Option<seq<Vector>>

  function EstimateTokens(text: string): (n: nat)
    ensures |text| <= MAX_TEXT_CHARS ==> n <= MAX_BATCH_TOKENS
  {
    if |text| / 3 >= 1 then |text| / 3 else 1
  }

  function Tokens(batch: seq<string>): nat {
    if batch == [] then 0 else Tokens(batch[..|batch| - 1]) + EstimateTokens(batch[|batch| - 1])
  }

  /** Within both limits. */
  predicate Fits(batch: seq<string>) {
    |batch| <= MAX_BATCH_TEXTS && Tokens(batch) <= MAX_BATCH_TOKENS
  }

  function Clip(text: string): string {
    Take(text, MAX_TEXT_CHARS)
  }

  function Clipped(texts: seq<string>): (clipped: seq<string>)
    ensures |clipped| == |texts| && forall i :: 0 <= i < |texts| ==> clipped[i] == Clip(texts[i])
  {
    seq(|texts|, i requires 0 <= i < |texts| => Clip(texts[i]))
  }

  /** Every request is non-empty and within the limits. */
  ghost predicate LegalRequests(requests: seq<seq<string>>) {
    forall i :: 0 <= i < |requests| ==> requests[i] != [] && Fits(requests[i])
  }

  /** A request that could not have taken one more text. */
  ghost predicate FullBefore(batch: seq<string>, next: string) {
    !Fits(batch + [next])
  }

  /** Request i could not have taken the first text of request i + 1. */
  ghost predicate FullAt(requests: seq<seq<string>>, i: nat) {
    i + 1 < |requests| ==> requests[i + 1] != [] && FullBefore(requests[i], requests[i + 1][0])
  }

  /** No request could have taken the first text of the following one. */
  ghost predicate Greedy(requests: seq<seq<string>>) {
    forall i :: 0 <= i < |requests| ==> FullAt(requests, i)
  }

  /** The i-th request was answered with one vector per text. */
  predicate Accepted(provider: Provider, i: nat, batch: seq<string>) {
    provider(i, batch).Some? && |provider(i, batch).value| == |batch|
  }

  ghost predicate AllAccepted(provider: Provider, requests: seq<seq<string>>) {
    forall i :: 0 <= i < |requests| ==> Accepted(provider, i, requests[i])
  }

  /** The vectors of the answers, in request order. */
  function Answers(provider: Provider, requests: seq<seq<string>>): seq<Vector>
    requires forall i :: 0 <= i < |requests| ==> Accepted(provider, i, requests[i])
  {
    if requests == [] then []
    else
      var n := |requests| - 1;
      assert forall i :: 0 <= i < n ==> requests[..n][i] == requests[i];
      assert Accepted(provider, n, requests[n]);
      Answers(provider, requests[..n]) + provider(n, requests[n]).value
  }

  lemma AnswersSnoc(provider: Provider, requests: seq<seq<string>>, batch: seq<string>)
    requires AllAccepted(provider, requests) && Accepted(provider, |requests|, batch)
    ensures AllAccepted(provider, requests + [batch])
    ensures Answers(provider, requests + [batch]) == Answers(provider, requests) + provider(|requests|, batch).value
  {
    AcceptedSnoc(provider, requests, batch);
    var all := requests + [batch];
    assert all[..|requests|] == requests && all[|requests|] == batch;
  }

  lemma AcceptedSnoc(provider: Provider, requests: seq<seq<string>>, batch: seq<string>)
    requires AllAccepted(provider, requests) && Accepted(provider, |requests|, batch)
    ensures AllAccepted(provider, requests + [batch])
  {
    var all := requests + [batch];
    forall i | 0 <= i < |all| ensures Accepted(provider, i, all[i]) {
      if i < |requests| { assert all[i] == requests[i]; }
    }
  }

  lemma FlattenSnoc<T>(xss: seq<seq<T>>, xs: seq<T>)
    ensures Flatten(xss + [xs]) == Flatten(xss) + xs
  {
    assert (xss + [xs])[..|xss|] == xss;
  }

  lemma TokensSnoc(batch: seq<string>, text: string)
    ensures Tokens(batch + [text]) == Tokens(batch) + EstimateTokens(text)
  {
    assert (batch + [text])[..|batch|] == batch;
  }

  /** The state of the loop: requests made so far cover a prefix, the open batch is the next stretch. */
  ghost predicate Batching(requests: seq<seq<string>>, batch: seq<string>, read: seq<string>) {
    && LegalRequests(requests) && Greedy(requests) && Fits(batch)
    && Flatten(requests) + batch == read
    && (requests != [] && batch != [] ==> FullBefore(requests[|requests| - 1], batch[0]))
  }

  lemma BatchTakes(requests: seq<seq<string>>, batch: seq<string>, read: seq<string>, text: string)
    requires Batching(requests, batch, read) && Fits(batch + [text])
    requires batch == [] && requests != [] ==> FullBefore(requests[|requests| - 1], text)
    ensures Batching(requests, batch + [text], read + [text])
  {
    assert Flatten(requests) + (batch + [text]) == Flatten(requests) + batch + [text];
  }

  lemma BatchSent(requests: seq<seq<string>>, batch: seq<string>, read: seq<string>)
    requires Batching(requests, batch, read) && batch != []
    ensures Batching(requests + [batch], [], read)
  {
    FlattenSnoc(requests, batch);
    assert Flatten(requests + [batch]) + [] == read;
    var all := requests + [batch];
    forall i | 0 <= i < |all| ensures FullAt(all, i) {
      if i + 1 < |requests| {
        assert FullAt(requests, i);
      }
    }
  }

  /** What the answered requests amount to. */
  ghost predicate Collected(provider: Provider, requests: seq<seq<string>>, vectors: seq<Vector>) {
    AllAccepted(provider, requests) && vectors == Answers(provider, requests)
  }

  /** The last request failed, the others were answered. */
  ghost predicate FailedAtLast(provider: Provider, requests: seq<seq<string>>) {
    && requests != [] && AllAccepted(provider, requests[..|requests| - 1])
    && !Accepted(provider, |requests| - 1, requests[|requests| - 1])
  }

  /** One request: vectors.extend(await self._embed(batch)). */
  method Send(provider: Provider, requests0: seq<seq<string>>, vectors0: seq<Vector>, batch: seq<string>)
    returns (ok: bool, requests: seq<seq<string>>, vectors: seq<Vector>)
    requires Collected(provider, requests0, vectors0)
    ensures requests == requests0 + [batch]
    ensures ok ==> Collected(provider, requests, vectors)
    ensures !ok ==> FailedAtLast(provider, requests)
  {
    ok := Accepted(provider, |requests0|, batch);
    requests, vectors := requests0 + [batch], vectors0;
    if ok {
      AnswersSnoc(provider, requests0, batch);
      vectors := vectors + provider(|requests0|, batch).value;
    } else {
      assert requests[..|requests| - 1] == requests0;
    }
  }

  /** The test before a text is added: send the open batch if the text no longer fits in. */
  method MakeRoom(
    provider: Provider, requests0: seq<seq<string>>, vectors0: seq<Vector>, batch0: seq<string>, tokens0: nat,
    clipped: string, ghost read: seq<string>)
    returns (ok: bool, requests: seq<seq<string>>, vectors: seq<Vector>, batch: seq<string>, tokens: nat)
    requires Batching(requests0, batch0, read) && Collected(provider, requests0, vectors0) && tokens0 == Tokens(batch0)
    requires batch0 == [] ==> requests0 == []
    requires |clipped| <= MAX_TEXT_CHARS
    ensures LegalRequests(requests) && Greedy(requests)
    ensures ok ==> Batching(requests, batch, read) && Collected(provider, requests, vectors) && tokens == Tokens(batch)
    ensures ok ==> Fits(batch + [clipped]) && (batch == [] && requests != [] ==> FullBefore(requests[|requests| - 1], clipped))
    ensures !ok ==> FailedAtLast(provider, requests) && Flatten(requests) + [] == read
  {
    RoomTest(batch0, tokens0, clipped);
    if batch0 != [] && (|batch0| >= MAX_BATCH_TEXTS || tokens0 + EstimateTokens(clipped) > MAX_BATCH_TOKENS) {
      batch, tokens := [], 0;
      BatchSent(requests0, batch0, read);
      ok, requests, vectors := Send(provider, requests0, vectors0, batch0);
    } else {
      ok, requests, vectors, batch, tokens := true, requests0, vectors0, batch0, tokens0;
    }
  }

  /** The test of the code is the limit test on the extended batch; one clipped text always fits. */
  lemma RoomTest(batch: seq<string>, tokens: nat, clipped: string)
    requires tokens == Tokens(batch) && |clipped| <= MAX_TEXT_CHARS
    ensures Fits(batch + [clipped]) <==> !(|batch| >= MAX_BATCH_TEXTS || tokens + EstimateTokens(clipped) > MAX_BATCH_TOKENS)
    ensures Fits([] + [clipped]) && (batch == [] ==> Fits(batch + [clipped]))
    ensures FullBefore(batch, clipped) <==> !Fits(batch + [clipped])
  {
    TokensSnoc(batch, clipped);
    OneTextFits(clipped);
  }

  lemma OneTextFits(clipped: string)
    requires |clipped| <= MAX_TEXT_CHARS
    ensures Fits([] + [clipped])
  {
    TokensSnoc([], clipped);
  }

  /** The loop body: one text. */
  method AddText(
    provider: Provider, requests0: seq<seq<string>>, vectors0: seq<Vector>, batch0: seq<string>, tokens0: nat,
    texts: seq<string>, t: nat)
    returns (ok: bool, requests: seq<seq<string>>, vectors: seq<Vector>, batch: seq<string>, tokens: nat)
    requires t < |texts| && Batching(requests0, batch0, Clipped(texts)[..t]) && Collected(provider, requests0, vectors0)
    requires tokens0 == Tokens(batch0) && (batch0 == [] ==> requests0 == [])
    ensures LegalRequests(requests) && Greedy(requests)
    ensures ok ==> Batching(requests, batch, Clipped(texts)[..t + 1]) && Collected(provider, requests, vectors)
    ensures ok ==> tokens == Tokens(batch) && batch != []
    ensures !ok ==> FailedAtLast(provider, requests) && Flatten(requests) + [] == Clipped(texts)[..t]
  {
    var clipped := Clip(texts[t]);
    ghost var read := Clipped(texts)[..t];
    ok, requests, vectors, batch, tokens := MakeRoom(provider, requests0, vectors0, batch0, tokens0, clipped, read);
    if ok {
      BatchTakes(requests, batch, read, clipped);
      TokensSnoc(batch, clipped);
      batch, tokens := batch + [clipped], tokens + EstimateTokens(clipped);
      assert Clipped(texts)[..t + 1] == read + [clipped];
    }
  }

  method EmbedDocuments(texts: seq<string>, provider: Provider)
    returns (result: Option<seq<Vector>>, requests: seq<seq<string>>)
    ensures LegalRequests(requests) && Greedy(requests)
    ensures result.Some? ==> Flatten(requests) == Clipped(texts) && Collected(provider, requests, result.value)
    // the first request that is not answered in full ends the call
    ensures result.None? ==> Flatten(requests) <= Clipped(texts) && FailedAtLast(provider, requests)
  {
    requests := [];
    var vectors: seq<Vector> := [];
    var batch: seq<string> := [];
    var batchTokens := 0;
    var ok := true;
    ghost var all := Clipped(texts);
    for t := 0 to |texts|
      invariant Batching(requests, batch, all[..t]) && Collected(provider, requests, vectors)
      invariant batchTokens == Tokens(batch) && (batch == [] ==> requests == [])
    {
      ok, requests, vectors, batch, batchTokens := AddText(provider, requests, vectors, batch, batchTokens, texts, t);
      if !ok {
        RequestsArePrefix(requests, all, t);
        return None, requests;
      }
    }
    assert all[..|texts|] == all;
    result, requests := Finish(provider, requests, vectors, batch, all);
  }

  /** The request after the loop. */
  method Finish(
    provider: Provider, requests0: seq<seq<string>>, vectors0: seq<Vector>, batch: seq<string>, ghost all: seq<string>)
    returns (result: Option<seq<Vector>>, requests: seq<seq<string>>)
    requires Batching(requests0, batch, all) && Collected(provider, requests0, vectors0)
    ensures LegalRequests(requests) && Greedy(requests)
    ensures result.Some? ==> Flatten(requests) == all && Collected(provider, requests, result.value)
    ensures result.None? ==> Flatten(requests) <= all && FailedAtLast(provider, requests)
  {
    var ok, vectors := true, vectors0;
    requests := requests0;
    if batch != [] {
      BatchSent(requests, batch, all);
      ok, requests, vectors := Send(provider, requests, vectors, batch);
    }
    assert all[..|all|] == all;
    RequestsArePrefix(requests, all, |all|);
    result := if ok then Some(vectors) else None;
  }

  lemma RequestsArePrefix(requests: seq<seq<string>>, clipped: seq<string>, t: nat)
    requires t <= |clipped| && Flatten(requests) + [] == clipped[..t]
    ensures Flatten(requests) <= clipped
    ensures t == |clipped| ==> Flatten(requests) == clipped
  {
    assert Flatten(requests) == clipped[..t];
  }

  // --- Agreement with one-at-a-time embedding ---

  /** Every full answer holds, text by text, what the provider makes of that text. */
  ghost predicate Pointwise(provider: Provider, each: string -> Vector) {
    forall n: nat, batch: seq<string>, k :: Accepted(provider, n, batch) && 0 <= k < |batch| ==>
      provider(n, batch).value[k] == each(batch[k])
  }

  function MapEach(texts: seq<string>, each: string -> Vector): seq<Vector> {
    seq(|texts|, i requires 0 <= i < |texts| => each(texts[i]))
  }

  lemma MapEachAppend(a: seq<string>, b: seq<string>, each: string -> Vector)
    ensures MapEach(a + b, each) == MapEach(a, each) + MapEach(b, each)
  {
  }

  lemma {:induction false} AnswersArePointwise(provider: Provider, requests: seq<seq<string>>, each: string -> Vector)
    requires AllAccepted(provider, requests) && Pointwise(provider, each)
    ensures Answers(provider, requests) == MapEach(Flatten(requests), each)
  {
    if requests != [] {
      var n := |requests| - 1;
      assert AllAccepted(provider, requests[..n]) by {
        forall i | 0 <= i < n ensures Accepted(provider, i, requests[..n][i]) {
          assert Accepted(provider, i, requests[i]);
        }
      }
      assert Accepted(provider, n, requests[n]);
      AnswersArePointwise(provider, requests[..n], each);
      assert provider(n, requests[n]).value == MapEach(requests[n], each);
      MapEachAppend(Flatten(requests[..n]), requests[n], each);
    }
  }

  /** Batching is invisible: a successful call returns the embedding of every clipped text in input order. */
  lemma BatchingIsInvisible(texts: seq<string>, provider: Provider, requests: seq<seq<string>>, each: string -> Vector)
    requires Flatten(requests) == Clipped(texts) && AllAccepted(provider, requests) && Pointwise(provider, each)
    ensures |Answers(provider, requests)| == |texts|
    ensures forall i :: 0 <= i < |texts| ==> Answers(provider, requests)[i] == each(Clip(texts[i]))
  {
    AnswersArePointwise(provider, requests, each);
  }

  // --- The greedy split is optimal ---

  lemma {:induction false} TokensAppend(a: seq<string>, b: seq<string>)
    ensures Tokens(a + b) == Tokens(a) + Tokens(b)
  {
    if b == [] {
      assert a + b == a;
    } else {
      var n := |b| - 1;
      assert (a + b)[..|a| + n] == a + b[..n];
      TokensAppend(a, b[..n]);
    }
  }

  /** A stretch of a fitting batch fits. */
  lemma StretchFits(texts: seq<string>, i: nat, j: nat, k: nat, l: nat)
    requires i <= j <= k <= l <= |texts| && Fits(texts[i..l])
    ensures Fits(texts[j..k])
  {
    assert texts[i..l] == texts[i..j] + texts[j..k] + texts[k..l];
    TokensAppend(texts[i..j] + texts[j..k], texts[k..l]);
    TokensAppend(texts[i..j], texts[j..k]);
  }

  /** How many texts the first k batches cover. */
  function Covered(batches: seq<seq<string>>, k: nat): nat
    requires k <= |batches|
  {
    |Flatten(batches[..k])|
  }

  lemma BatchIsStretch(batches: seq<seq<string>>, texts: seq<string>, k: nat)
    requires Flatten(batches) == texts && k < |batches|
    ensures Covered(batches, k) <= Covered(batches, k + 1) <= |texts|
    ensures Covered(batches, k + 1) == Covered(batches, k) + |batches[k]|
    ensures batches[k] == texts[Covered(batches, k)..Covered(batches, k + 1)]
  {
    var before, upTo, rest := Flatten(batches[..k]), Flatten(batches[..k + 1]), Flatten(batches[k + 1..]);
    assert batches[..k + 1] == batches[..k] + [batches[k]];
    FlattenSnoc(batches[..k], batches[k]);
    assert batches == batches[..k + 1] + batches[k + 1..];
    FlattenAppend(batches[..k + 1], batches[k + 1..]);
    StretchOf(before, batches[k], rest);
    assert upTo == before + batches[k];
  }

  lemma StretchOf(before: seq<string>, batch: seq<string>, rest: seq<string>)
    ensures batch == (before + batch + rest)[|before|..|before| + |batch|]
  {
  }

  lemma AllCovered(batches: seq<seq<string>>)
    ensures Covered(batches, |batches|) == |Flatten(batches)|
  {
    assert batches[..|batches|] == batches;
  }

  /** Greedy stays ahead of every other split. */
  lemma {:induction false} GreedyStaysAhead(requests: seq<seq<string>>, split: seq<seq<string>>, texts: seq<string>, k: nat)
    requires Flatten(requests) == texts == Flatten(split)
    requires LegalRequests(requests) && Greedy(requests)
    requires forall i :: 0 <= i < |split| ==> Fits(split[i])
    requires k <= |requests| && k <= |split|
    ensures Covered(split, k) <= Covered(requests, k)
  {
    if k > 0 {
      GreedyStaysAhead(requests, split, texts, k - 1);
      AllCovered(requests);
      BatchIsStretch(split, texts, k - 1);
      if k < |requests| {
        GreedyStep(requests, texts, k - 1, Covered(split, k - 1), Covered(split, k));
      }
    }
  }

  /** A fitting stretch that starts no later than request i ends no later than it. */
  lemma GreedyStep(requests: seq<seq<string>>, texts: seq<string>, i: nat, from: nat, to: nat)
    requires Flatten(requests) == texts && LegalRequests(requests) && Greedy(requests)
    requires i + 1 < |requests|
    requires from <= Covered(requests, i) && from <= to <= |texts| && Fits(texts[from..to])
    ensures to <= Covered(requests, i + 1)
  {
    BatchIsStretch(requests, texts, i);
    BatchIsStretch(requests, texts, i + 1);
    assert FullAt(requests, i);
    StretchEnds(texts, requests[i], requests[i + 1], Covered(requests, i), Covered(requests, i + 1), Covered(requests, i + 2), from, to);
  }

  /** The same over the texts alone: the batch is full before the first text after it. */
  lemma StretchEnds(
    texts: seq<string>, batch: seq<string>, next: seq<string>, start: nat, end: nat, after: nat, from: nat, to: nat)
    requires start <= end < after <= |texts| && batch == texts[start..end] && next == texts[end..after]
    requires FullBefore(batch, next[0])
    requires from <= start && from <= to <= |texts| && Fits(texts[from..to])
    ensures to <= end
  {
    OneMore(texts, start, end, after);
    if to > end {
      StretchFits(texts, from, start, end + 1, to);
    }
  }

  lemma OneMore(texts: seq<string>, start: nat, end: nat, after: nat)
    requires start <= end < after <= |texts|
    ensures texts[start..end + 1] == texts[start..end] + [texts[end..after][0]]
  {
  }

  // --- The limits in characters ---

  /** A third of the characters of each text, at least one per text. */
  ghost function Thirds(batch: seq<string>): nat {
    if batch == [] then 0 else (if |batch[0]| < 3 then 1 else |batch[0]| / 3) + Thirds(batch[1..])
  }

  lemma {:induction false} ThirdsSnoc(batch: seq<string>, text: string)
    ensures Thirds(batch + [text]) == Thirds(batch) + if |text| < 3 then 1 else |text| / 3
  {
    if batch == [] {
      assert [text][1..] == [];
    } else {
      assert (batch + [text])[1..] == batch[1..] + [text];
      ThirdsSnoc(batch[1..], text);
    }
  }

  lemma {:induction false} TokensAreThirds(batch: seq<string>)
    ensures Tokens(batch) == Thirds(batch)
  {
    if batch != [] {
      var n := |batch| - 1;
      TokensAreThirds(batch[..n]);
      ThirdsSnoc(batch[..n], batch[n]);
      assert batch == batch[..n] + [batch[n]];
    }
  }

  /** Room for the batch in one request. */
  ghost predicate Sendable(batch: seq<string>) {
    |batch| <= 96 && Thirds(batch) <= 100_000
  }

  lemma SendableFits(batch: seq<string>)
    ensures Sendable(batch) <==> Fits(batch)
  {
    TokensAreThirds(batch);
  }

  /**
   * What the requests hold, in characters: at most 96 texts and 100,000 thirds each, and none could have
   * taken the next text. A text is sent as it is up to 96,000 characters, else cut there.
   */
  lemma RequestLimits(requests: seq<seq<string>>, texts: seq<string>, i: nat)
    requires LegalRequests(requests) && Greedy(requests) && Flatten(requests) <= Clipped(texts)
    ensures i < |requests| ==> 0 < |requests[i]| <= 96 && Thirds(requests[i]) <= 100_000
    ensures i + 1 < |requests| ==>
              || |requests[i]| == 96
              || Thirds(requests[i]) + (if |requests[i + 1][0]| < 3 then 1 else |requests[i + 1][0]| / 3) > 100_000
    ensures i < |Flatten(requests)| ==>
              Flatten(requests)[i] == if |texts[i]| <= 96_000 then texts[i] else texts[i][..96_000]
  {
    if i < |requests| { SendableFits(requests[i]); }
    if i + 1 < |requests| {
      assert FullAt(requests, i);
      SendableFits(requests[i] + [requests[i + 1][0]]);
      ThirdsSnoc(requests[i], requests[i + 1][0]);
    }
  }

  /** No order-preserving split within the limits needs fewer requests. */
  lemma FewestRequests(requests: seq<seq<string>>, split: seq<seq<string>>)
    requires Flatten(requests) == Flatten(split)
    requires LegalRequests(requests) && Greedy(requests)
    requires forall i :: 0 <= i < |split| ==> Sendable(split[i])
    ensures |requests| <= |split|
  {
    forall i | 0 <= i < |split| ensures Fits(split[i]) { SendableFits(split[i]); }
    var k := |split|;
    AllCovered(split);
    if k < |requests| {
      GreedyStaysAhead(requests, split, Flatten(split), k);
      BatchIsStretch(requests, Flatten(split), k);
    }
  }
}
