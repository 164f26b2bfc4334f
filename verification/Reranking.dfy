/**
 The rerank stage (taxcalc-ai/src/taxcalc_ai/rerank.py): the local cross-encoder, the hosted
 reranker, and the fallback both share. What the model or the vendor answers is an input here.
 */
module Reranking {
  import opened Options
  import opened StableOrder
  import opened Fusion

  const DEFAULT_RERANK_TOP_K: nat := 6
  const RERANK_TIMEOUT_MS: real := 300.0

  datatype Error = UnknownReranker | MissingCredential

  /** The two components of the tuple every reranker returns. */
  datatype Reranked = Reranked(hits: seq<Hit>, timedOut: bool)

  function Prefix<T>(xs: seq<T>, n: nat): (r: seq<T>)
    ensures |r| == Min(n, |xs|) && forall i :: 0 <= i < |r| ==> r[i] == xs[i]
  {
    if n < |xs| then xs[..n] else xs
  }

  /** A hit with its score replaced. */
  function Rescored(h: Hit, score: real): Hit {
    h.(score := score)
  }

  // ---- the local cross-encoder ------------------------------------------------------------------

  /** `bge_rerank`, once the model has scored the pairs in `elapsed` milliseconds. */
  function BgeRerank(hits: seq<Hit>, topK: nat, scores: seq<real>, elapsed: real, timeout: real): Reranked {
    if hits == [] then Reranked([], false)
    else if elapsed > timeout then Reranked(Prefix(hits, topK), true)
    else
      var keys := Prefix(scores, |hits|);
      var order := Order(keys);
      Reranked(seq(Min(topK, |keys|), a requires 0 <= a < |order| =>
        Rescored(hits[order[a]], keys[order[a]])), false)
  }

  // ---- the hosted reranker ----------------------------------------------------------------------

  /** One row of the vendor's answer: a position, -1 when it names none, and a score. */
  datatype Scored = Scored(index: int, score: real)

  datatype Reply = TimedOut | Failed | Rows(rows: seq<Scored>)

  predicate Names(row: Scored, n: nat) {
    0 <= row.index < n
  }

  /** Rows naming a document that was sent, in the order they came. */
  function Kept(rows: seq<Scored>, n: nat): (r: seq<Scored>)
    ensures forall i :: 0 <= i < |r| ==> Names(r[i], n)
    ensures |r| <= |rows|
  {
    if rows == [] then []
    else
      var last := rows[|rows| - 1];
      Kept(rows[..|rows| - 1], n) + if Names(last, n) then [last] else []
  }

  function ReplyRows(reply: Reply): seq<Scored> {
    match reply
    case Rows(rows) => rows
    case _ => []
  }

  function KeysOf(rows: seq<Scored>): (r: seq<real>)
    ensures |r| == |rows|
  {
    seq(|rows|, i requires 0 <= i < |rows| => rows[i].score)
  }

  /** The hits the kept rows name, best score first. */
  function InOrder(hits: seq<Hit>, topK: nat, kept: seq<Scored>): (r: seq<Hit>)
    requires forall i :: 0 <= i < |kept| ==> Names(kept[i], |hits|)
    ensures |r| == Min(topK, |kept|)
  {
    var order := Order(KeysOf(kept));
    seq(Min(topK, |kept|), a requires 0 <= a < |kept| =>
      var row := kept[order[a]];
      assert Names(row, |hits|);
      Rescored(hits[row.index], row.score))
  }

  /** `cohere_rerank`, once the call has returned or failed. */
  function CohereRerank(hits: seq<Hit>, topK: nat, hasKey: bool, reply: Reply): Result<Reranked, Error> {
    if hits == [] then Ok(Reranked([], false))
    else if !hasKey then Err(MissingCredential)
    else
      var kept := Kept(ReplyRows(reply), |hits|);
      if kept == [] then Ok(Reranked(Prefix(hits, topK), true))
      else Ok(Reranked(InOrder(hits, topK, kept), false))
  }

  // ---- the dispatch -----------------------------------------------------------------------------

  datatype Backend = Bge | Cohere | Unknown

  /** What the chosen backend met: the model's scores and time, or the vendor's key and reply. */
  datatype World = World(backend: Backend, scores: seq<real>, elapsed: real, hasKey: bool, reply: Reply)

  function RerankCandidates(hits: seq<Hit>, topK: nat, w: World): Result<Reranked, Error> {
    match w.backend
    case Bge => Ok(BgeRerank(hits, topK, w.scores, w.elapsed, RERANK_TIMEOUT_MS))
    case Cohere => CohereRerank(hits, topK, w.hasKey, w.reply)
    case Unknown => Err(UnknownReranker)
  }

  /** The reranker had no say: too slow, failed, or answered with nothing usable. */
  predicate NoSay(hits: seq<Hit>, w: World) {
    hits != [] && if w.backend.Bge? then w.elapsed > RERANK_TIMEOUT_MS else Kept(ReplyRows(w.reply), |hits|) == []
  }

  /** The flag is raised exactly when the reranker had no say, and then the incoming order stands untouched. */
  lemma FlagMeansFallback(hits: seq<Hit>, topK: nat, w: World)
    requires RerankCandidates(hits, topK, w).Ok?
    ensures var r := RerankCandidates(hits, topK, w).value;
            && (r.timedOut <==> NoSay(hits, w))
            && (r.timedOut ==> r.hits == Prefix(hits, topK))
  {
  }

  /** Only a bad name or, with something to rerank, a missing credential fails the request. */
  lemma FailsIff(hits: seq<Hit>, topK: nat, w: World)
    ensures RerankCandidates(hits, topK, w).Err? <==>
            w.backend.Unknown? || (w.backend.Cohere? && hits != [] && !w.hasKey)
    ensures w.backend.Unknown? ==> RerankCandidates(hits, topK, w) == Err(UnknownReranker)
    ensures w.backend.Cohere? && hits != [] && !w.hasKey ==> RerankCandidates(hits, topK, w) == Err(MissingCredential)
  {
  }

  // ---- what comes back --------------------------------------------------------------------------

  /** The same chunk, whatever its score. */
  predicate SameChunk(a: Hit, b: Hit) {
    a.id == b.id && a.text == b.text
  }

  predicate OneOf(h: Hit, source: seq<Hit>) {
    exists i :: 0 <= i < |source| && SameChunk(h, source[i])
  }

  predicate Within(out: seq<Hit>, source: seq<Hit>) {
    forall a :: 0 <= a < |out| ==> OneOf(out[a], source)
  }

  lemma WithinTrans(a: seq<Hit>, b: seq<Hit>, c: seq<Hit>)
    requires Within(a, b) && Within(b, c)
    ensures Within(a, c)
  {
    forall x | 0 <= x < |a| ensures OneOf(a[x], c) {
      var i :| 0 <= i < |b| && SameChunk(a[x], b[i]);
      var j :| 0 <= j < |c| && SameChunk(b[i], c[j]);
      assert SameChunk(a[x], c[j]);
    }
  }

  lemma PrefixWithin(hits: seq<Hit>, n: nat)
    ensures Within(Prefix(hits, n), hits)
  {
    var r := Prefix(hits, n);
    forall a | 0 <= a < |r| ensures OneOf(r[a], hits) {
      assert SameChunk(r[a], hits[a]);
    }
  }

  lemma BgeWithin(hits: seq<Hit>, topK: nat, scores: seq<real>, elapsed: real, timeout: real)
    ensures Within(BgeRerank(hits, topK, scores, elapsed, timeout).hits, hits)
  {
    PrefixWithin(hits, topK);
    if hits != [] && elapsed <= timeout {
      var order, r := Order(Prefix(scores, |hits|)), BgeRerank(hits, topK, scores, elapsed, timeout).hits;
      forall a | 0 <= a < |r| ensures OneOf(r[a], hits) {
        assert SameChunk(r[a], hits[order[a]]);
      }
    }
  }

  lemma InOrderWithin(hits: seq<Hit>, topK: nat, kept: seq<Scored>)
    requires forall i :: 0 <= i < |kept| ==> Names(kept[i], |hits|)
    ensures Within(InOrder(hits, topK, kept), hits)
  {
    var order, r := Order(KeysOf(kept)), InOrder(hits, topK, kept);
    forall a | 0 <= a < |r| ensures OneOf(r[a], hits) {
      assert SameChunk(r[a], hits[kept[order[a]].index]);
    }
  }

  /** Reranking invents nothing and returns at most `topK`. */
  lemma RerankWithin(hits: seq<Hit>, topK: nat, w: World)
    requires RerankCandidates(hits, topK, w).Ok?
    ensures var r := RerankCandidates(hits, topK, w).value.hits; Within(r, hits) && |r| <= topK
  {
    PrefixWithin(hits, topK);
    BgeWithin(hits, topK, w.scores, w.elapsed, RERANK_TIMEOUT_MS);
    InOrderWithin(hits, topK, Kept(ReplyRows(w.reply), |hits|));
  }

  /** In time and with a score for every pair: the best `topK`, best first, none better left out, ties as they came. */
  lemma BgeIsTop(hits: seq<Hit>, topK: nat, scores: seq<real>, elapsed: real, timeout: real) returns (order: seq<nat>)
    requires hits != [] && |scores| == |hits| && elapsed <= timeout
    ensures var r := BgeRerank(hits, topK, scores, elapsed, timeout).hits;
            && |order| == |hits| && |r| == Min(topK, |hits|)
            && (forall i: nat :: i < |hits| ==> i in order)
            && (forall a :: 0 <= a < |order| ==> order[a] < |hits|)
            && (forall a, b :: 0 <= a < b < |order| ==> Before(scores, order[a], order[b]))
            && (forall a :: 0 <= a < |r| ==> r[a] == Rescored(hits[order[a]], scores[order[a]]))
  {
    assert Prefix(scores, |hits|) == scores;
    order := Order(scores);
  }

  /** Filtering drops the rows that name nothing sent, keeps each of the others as often as it came. */
  lemma {:induction false} KeptIff(rows: seq<Scored>, n: nat, row: Scored)
    ensures multiset(Kept(rows, n))[row] == if Names(row, n) then multiset(rows)[row] else 0
  {
    if rows != [] {
      var front, last := rows[..|rows| - 1], rows[|rows| - 1];
      KeptIff(front, n, row);
      assert rows == front + [last];
      assert Kept(rows, n) == Kept(front, n) + if Names(last, n) then [last] else [];
    }
  }

  /** In time and usable: the kept rows' candidates, best score first, ties as they came, none better left out. */
  lemma CohereIsTop(hits: seq<Hit>, topK: nat, rows: seq<Scored>) returns (order: seq<nat>)
    requires hits != [] && Kept(rows, |hits|) != []
    ensures var kept := Kept(rows, |hits|);
            var r := CohereRerank(hits, topK, true, Rows(rows));
            && r.Ok? && !r.value.timedOut
            && |order| == |kept| && |r.value.hits| == Min(topK, |kept|)
            && (forall i: nat :: i < |kept| ==> i in order)
            && (forall a :: 0 <= a < |order| ==> order[a] < |kept|)
            && (forall a, b :: 0 <= a < b < |order| ==> Before(KeysOf(kept), order[a], order[b]))
            && (forall a :: 0 <= a < |r.value.hits| ==>
                  r.value.hits[a] == Rescored(hits[kept[order[a]].index], kept[order[a]].score))
  {
    order := Order(KeysOf(Kept(rows, |hits|)));
  }

  /** Taken in this order, with these scores: the hits a ranking of `keys` returns. */
  predicate Ranks(out: seq<Hit>, topK: nat, keys: seq<real>, order: seq<nat>, source: nat -> Hit) {
    && |order| == |keys| && |out| == Min(topK, |keys|)
    && (forall i: nat :: i < |keys| ==> i in order)
    && (forall a :: 0 <= a < |order| ==> order[a] < |keys|)
    && (forall a, b :: 0 <= a < b < |order| ==> Before(keys, order[a], order[b]))
    && (forall a :: 0 <= a < |out| ==> var h := source(order[a]);
          out[a].id == h.id && out[a].text == h.text && out[a].score == keys[order[a]])
  }

  /** The pipeline's entry point gives the local model's ranking when it answers within 300 ms. */
  lemma LocalRanking(hits: seq<Hit>, topK: nat, w: World) returns (order: seq<nat>)
    requires w.backend.Bge? && |w.scores| == |hits| && w.elapsed <= 300.0
    ensures var r := RerankCandidates(hits, topK, w);
            && r.Ok? && !r.value.timedOut
            && Ranks(r.value.hits, topK, w.scores, order, (i: nat) => if i < |hits| then hits[i] else Hit("", "", 0.0))
  {
    order := [];
    if hits != [] {
      order := BgeIsTop(hits, topK, w.scores, w.elapsed, 300.0);
    }
  }

  /** And the first candidates, flagged, when it is later than that. */
  lemma LocalOverrun(hits: seq<Hit>, topK: nat, w: World)
    requires w.backend.Bge? && hits != [] && w.elapsed > 300.0
    ensures RerankCandidates(hits, topK, w) == Ok(Reranked(Prefix(hits, topK), true))
  {
  }

  /** The hosted ranking, of the candidates the usable rows name. */
  lemma HostedRanking(hits: seq<Hit>, topK: nat, w: World) returns (order: seq<nat>)
    requires w.backend.Cohere? && w.hasKey && w.reply.Rows? && hits != [] && Kept(w.reply.rows, |hits|) != []
    ensures var r, kept := RerankCandidates(hits, topK, w), Kept(w.reply.rows, |hits|);
            && r.Ok? && !r.value.timedOut
            && Ranks(r.value.hits, topK, KeysOf(kept), order,
                     (i: nat) => if i < |kept| then hits[kept[i].index] else Hit("", "", 0.0))
  {
    order := CohereIsTop(hits, topK, w.reply.rows);
  }

  predicate OncePerIndex(rows: seq<Scored>) {
    forall i, j :: 0 <= i < j < |rows| ==> rows[i].index != rows[j].index
  }

  lemma PrefixDistinct(hits: seq<Hit>, n: nat)
    requires DistinctIds(hits)
    ensures DistinctIds(Prefix(hits, n))
  {
  }

  /** With room for every kept row, the answer repeats nothing exactly when no row repeats a position. */
  lemma DistinctIffOncePerIndex(hits: seq<Hit>, topK: nat, kept: seq<Scored>)
    requires DistinctIds(hits) && forall i :: 0 <= i < |kept| ==> Names(kept[i], |hits|)
    requires |kept| <= topK
    ensures DistinctIds(InOrder(hits, topK, kept)) <==> OncePerIndex(kept)
  {
    var order, r := Order(KeysOf(kept)), InOrder(hits, topK, kept);
    if OncePerIndex(kept) {
      OncePerIndexDistinct(hits, topK, kept);
    }
    if i, j :| 0 <= i < j < |kept| && kept[i].index == kept[j].index {
      var a := IndexOf(order, i);
      var b := IndexOf(order, j);
      assert r[a].id == r[b].id;
    }
  }

  lemma OncePerIndexDistinct(hits: seq<Hit>, topK: nat, kept: seq<Scored>)
    requires DistinctIds(hits) && OncePerIndex(kept)
    requires forall i :: 0 <= i < |kept| ==> Names(kept[i], |hits|)
    ensures DistinctIds(InOrder(hits, topK, kept))
  {
    var order, r := Order(KeysOf(kept)), InOrder(hits, topK, kept);
    forall a, b | 0 <= a < b < |r| ensures r[a].id != r[b].id {
      var i, j := order[a], order[b];
      assert i < j || j < i;
      var p, q := kept[i].index, kept[j].index;
      assert p < q || q < p;
    }
  }

  lemma BgeDistinct(hits: seq<Hit>, topK: nat, scores: seq<real>, elapsed: real, timeout: real)
    requires DistinctIds(hits)
    ensures DistinctIds(BgeRerank(hits, topK, scores, elapsed, timeout).hits)
  {
    var order, r := Order(Prefix(scores, |hits|)), BgeRerank(hits, topK, scores, elapsed, timeout).hits;
    if hits != [] && elapsed <= timeout {
      forall a, b | 0 <= a < b < |r| ensures r[a].id != r[b].id {
        assert order[a] < order[b] || order[b] < order[a];
      }
    }
  }

  /** The vendor's rows are asked to name each document at most once; the local model cannot do otherwise. */
  predicate RepliesOnce(hits: seq<Hit>, w: World) {
    w.backend.Cohere? ==> OncePerIndex(Kept(ReplyRows(w.reply), |hits|))
  }

  lemma RerankDistinct(hits: seq<Hit>, topK: nat, w: World)
    requires DistinctIds(hits) && RepliesOnce(hits, w) && RerankCandidates(hits, topK, w).Ok?
    ensures DistinctIds(RerankCandidates(hits, topK, w).value.hits)
  {
    PrefixDistinct(hits, topK);
    if w.backend.Bge? {
      BgeDistinct(hits, topK, w.scores, w.elapsed, RERANK_TIMEOUT_MS);
    } else if hits != [] {
      OncePerIndexDistinct(hits, topK, Kept(ReplyRows(w.reply), |hits|));
    }
  }
}
