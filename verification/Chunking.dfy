/**
 Chunk identifiers and ordinals: `chunk_id_for` and the numbering loop of `chunk_docs`
 (taxcalc-ai/src/taxcalc_ai/chunker.py), and the parser the evaluation uses to get the ordinal
 back (taxcalc-agent-svc/evals/trajectory.py, `hydrate_contexts`).
 */
module Chunking {
  import opened Options
  import opened Decimals

  const UNKNOWN_DOC_ID: string := "doc-synth-unknown"
  const DEFAULT_TENANT_ID: string := "shared"

  // ---- identifiers ------------------------------------------------------------------------------

  function ChunkIdFor(docId: string, ordinal: nat): string {
    "chunk-" + docId + "-p" + Decimal(ordinal)
  }

  predicate MarkAt(s: string, i: int) {
    0 <= i < |s| - 1 && s[i] == '-' && s[i + 1] == 'p'
  }

  /** What follows the last "-p", which is how `rsplit("-p", 1)` splits. */
  function TailAfterLastMark(s: string, i: nat): Option<string>
    requires i <= |s|
    ensures TailAfterLastMark(s, i).None? ==> forall j :: 0 <= j < i ==> !MarkAt(s, j)
  {
    if i == 0 then None
    else if MarkAt(s, i - 1) then Some(s[i + 1..])
    else TailAfterLastMark(s, i - 1)
  }

  /** The ordinal read from a chunk id, 0 when the id is not of that shape. */
  function OrdinalOf(chunkId: string): nat {
    if "chunk-" <= chunkId then
      match TailAfterLastMark(chunkId, |chunkId|)
      case None => 0
      case Some(tail) => if tail != [] && AllDigits(tail) then Value(tail) else 0
    else 0
  }

  /** No mark begins inside the digits or at the dash before them but the printed one. */
  lemma {:induction false} TailFound(s: string, at: nat, i: nat)
    requires at < i <= |s| && MarkAt(s, at)
    requires forall j :: at < j < i ==> !MarkAt(s, j)
    ensures TailAfterLastMark(s, i) == Some(s[at + 2..])
    decreases i
  {
    if at < i - 1 {
      TailFound(s, at, i - 1);
    }
  }

  /** The parser undoes the printer for every document id, dashes, "-p" and digits included. */
  lemma OrdinalRoundTrip(docId: string, ordinal: nat)
    ensures OrdinalOf(ChunkIdFor(docId, ordinal)) == ordinal
  {
    var head, digits := "chunk-" + docId, Decimal(ordinal);
    var s := ChunkIdFor(docId, ordinal);
    assert s == head + "-p" + digits;
    assert s[|head| + 2..] == digits;
    forall j | |head| < j < |s| ensures !MarkAt(s, j) {
      if j > |head| + 1 {
        assert s[j] == digits[j - |head| - 2];
      }
    }
    TailFound(s, |head|, |s|);
    assert "chunk-" <= s;
    ValueOfDecimal(ordinal);
  }

  /** What the parser makes of any string: the digits after the last mark of a chunk id, and else 0. */
  lemma OrdinalReads(head: string, tail: string)
    requires "chunk-" <= head + "-p" + tail && forall j :: |head| < j ==> !MarkAt(head + "-p" + tail, j)
    ensures OrdinalOf(head + "-p" + tail) == if tail != [] && AllDigits(tail) then Value(tail) else 0
  {
    var s := head + "-p" + tail;
    TailFound(s, |head|, |s|);
    assert s[|head| + 2..] == tail;
  }

  lemma OrdinalDefaults(s: string)
    requires !("chunk-" <= s) || forall j :: 0 <= j < |s| ==> !MarkAt(s, j)
    ensures OrdinalOf(s) == 0
  {
    if "chunk-" <= s && TailAfterLastMark(s, |s|).Some? {
      NoMarkNoTail(s, |s|);
    }
  }

  lemma {:induction false} NoMarkNoTail(s: string, i: nat)
    requires i <= |s| && forall j :: 0 <= j < |s| ==> !MarkAt(s, j)
    ensures TailAfterLastMark(s, i).None?
  {
    if i > 0 {
      NoMarkNoTail(s, i - 1);
    }
  }

  lemma ChunkIdInjective(d1: string, o1: nat, d2: string, o2: nat)
    requires ChunkIdFor(d1, o1) == ChunkIdFor(d2, o2)
    ensures d1 == d2 && o1 == o2
  {
    var a, b := "chunk-" + d1 + "-", "chunk-" + d2 + "-";
    assert ChunkIdFor(d1, o1) == a + ['p'] + Decimal(o1);
    assert ChunkIdFor(d2, o2) == b + ['p'] + Decimal(o2);
    SplitAtLast(a, b, 'p', Decimal(o1), Decimal(o2));
    DecimalInjective(o1, o2);
    assert a[|"chunk-"|..|a| - 1] == d1 && b[|"chunk-"|..|b| - 1] == d2;
  }

  // ---- the numbering loop -----------------------------------------------------------------------

  /** A chunk as the splitter leaves it, or with the three keys this module owns written. */
  datatype Chunk = Chunk(
    text: string,
    docId: Option<string>,
    tenantId: Option<string>,
    ordinal: Option<nat>,
    chunkId: Option<string>,
    extra: map<string, string>)

  function DocOf(c: Chunk): string {
    match c.docId
    case Some(d) => d
    case None => UNKNOWN_DOC_ID
  }

  function Stamp(c: Chunk, n: nat): Chunk {
    c.(docId := Some(DocOf(c)), ordinal := Some(n), chunkId := Some(ChunkIdFor(DocOf(c), n)))
  }

  /** The chunks of one document, in order. */
  function Of(chunks: seq<Chunk>, doc: string): seq<Chunk> {
    if chunks == [] then []
    else
      var c := chunks[|chunks| - 1];
      Of(chunks[..|chunks| - 1], doc) + if DocOf(c) == doc then [c] else []
  }

  /** Every chunk numbered by how many chunks of its document precede it. */
  function Numbered(chunks: seq<Chunk>): (r: seq<Chunk>)
    ensures |r| == |chunks|
  {
    if chunks == [] then []
    else
      var n := |chunks| - 1;
      Numbered(chunks[..n]) + [Stamp(chunks[n], |Of(chunks[..n], DocOf(chunks[n]))|)]
  }

  lemma OfStep(chunks: seq<Chunk>, i: nat, doc: string)
    requires i < |chunks|
    ensures Of(chunks[..i + 1], doc) == Of(chunks[..i], doc) + if DocOf(chunks[i]) == doc then [chunks[i]] else []
  {
    assert chunks[..i + 1][..i] == chunks[..i];
  }

  lemma NumberedStep(chunks: seq<Chunk>, i: nat)
    requires i < |chunks|
    ensures Numbered(chunks[..i + 1]) ==
            Numbered(chunks[..i]) + [Stamp(chunks[i], |Of(chunks[..i], DocOf(chunks[i]))|)]
  {
    assert chunks[..i + 1][..i] == chunks[..i];
  }

  lemma StampedStep(chunks: seq<Chunk>, i: nat)
    requires i < |chunks|
    ensures (Numbered(chunks[..i]) + chunks[i..])[i := Stamp(chunks[i], |Of(chunks[..i], DocOf(chunks[i]))|)] ==
            Numbered(chunks[..i + 1]) + chunks[i + 1..]
  {
    NumberedStep(chunks, i);
  }

  /** The counters say how many chunks of each document have gone by. */
  ghost predicate Counts(seen: map<string, nat>, chunks: seq<Chunk>) {
    forall d :: (if d in seen then seen[d] else 0) == |Of(chunks, d)|
  }

  lemma CountsStep(seen: map<string, nat>, chunks: seq<Chunk>, i: nat)
    requires i < |chunks| && Counts(seen, chunks[..i])
    ensures var d := DocOf(chunks[i]);
            Counts(seen[d := |Of(chunks[..i], d)| + 1], chunks[..i + 1])
  {
    var d := DocOf(chunks[i]);
    var more := seen[d := |Of(chunks[..i], d)| + 1];
    forall e ensures (if e in more then more[e] else 0) == |Of(chunks[..i + 1], e)| {
      OfStep(chunks, i, e);
    }
  }

  /** The stamping loop of `chunk_docs`, in place on the list the splitter returned. */
  method StampChunks(chunks: array<Chunk>)
    modifies chunks
    ensures chunks[..] == Numbered(old(chunks[..]))
    ensures forall i :: 0 <= i < chunks.Length ==>
              var was := old(chunks[..]);
              var doc := if was[i].docId.Some? then was[i].docId.value else "doc-synth-unknown";
              Bears(chunks[i], was[i], doc, |Of(was[..i], doc)|)
  {
    ghost var was := chunks[..];
    var seen: map<string, nat> := map[];
    for i := 0 to chunks.Length
      invariant chunks[..] == Numbered(was[..i]) + was[i..]
      invariant Counts(seen, was[..i])
    {
      assert chunks[i] == chunks[..][i] == was[i];
      var docId := DocOf(chunks[i]);
      var ordinal := if docId in seen then seen[docId] else 0;
      CountsStep(seen, was, i);
      StampedStep(was, i);
      seen := seen[docId := ordinal + 1];
      var chunkId := ChunkIdFor(docId, ordinal);
      chunks[i] := chunks[i].(docId := Some(docId), ordinal := Some(ordinal), chunkId := Some(chunkId));
    }
    assert was[..chunks.Length] == was;
    forall i | 0 <= i < chunks.Length
      ensures var doc := if was[i].docId.Some? then was[i].docId.value else "doc-synth-unknown";
              Bears(chunks[i], was[i], doc, |Of(was[..i], doc)|)
    {
      NumberedBears(was, i);
      assert chunks[i] == chunks[..][i];
    }
  }

  /** The chunks of one document numbered from themselves alone. */
  function Counted(chunks: seq<Chunk>): seq<Chunk> {
    seq(|chunks|, i requires 0 <= i < |chunks| => Stamp(chunks[i], i))
  }

  lemma {:induction false} NumberedIsCounted(chunks: seq<Chunk>, doc: string)
    ensures Of(Numbered(chunks), doc) == Counted(Of(chunks, doc))
  {
    if chunks != [] {
      var n := |chunks| - 1;
      NumberedIsCounted(chunks[..n], doc);
      var stamped := Stamp(chunks[n], |Of(chunks[..n], DocOf(chunks[n]))|);
      OfSnoc(Numbered(chunks[..n]), stamped, doc);
      if DocOf(chunks[n]) == doc {
        CountedSnoc(Of(chunks[..n], doc), chunks[n]);
      }
    }
  }

  /** What one chunk is after numbering: its document, the number, the id they make, and nothing else changed. */
  predicate Bears(now: Chunk, was: Chunk, doc: string, n: nat) {
    && now.docId == Some(doc) && now.ordinal == Some(n) && now.chunkId == Some("chunk-" + doc + "-p" + Decimal(n))
    && now.text == was.text && now.tenantId == was.tenantId && now.extra == was.extra
  }

  lemma {:induction false} AllOfDoc(chunks: seq<Chunk>, doc: string, i: nat)
    requires i < |Of(chunks, doc)|
    ensures DocOf(Of(chunks, doc)[i]) == doc
  {
    if chunks != [] && i < |Of(chunks[..|chunks| - 1], doc)| {
      AllOfDoc(chunks[..|chunks| - 1], doc, i);
    }
  }

  /** The chunks of one document get 0, 1, 2, ... in their order, whatever lies between them. */
  lemma NumberedPerDocument(chunks: seq<Chunk>, doc: string)
    ensures var was, now := Of(chunks, doc), Of(Numbered(chunks), doc);
            |now| == |was| && forall i :: 0 <= i < |was| ==> Bears(now[i], was[i], doc, i)
  {
    NumberedIsCounted(chunks, doc);
    forall i | 0 <= i < |Of(chunks, doc)| ensures Bears(Of(Numbered(chunks), doc)[i], Of(chunks, doc)[i], doc, i) {
      AllOfDoc(chunks, doc, i);
    }
  }

  /** A chunk's number is how many chunks of its document come before it; no document id means the fallback one. */
  lemma NumberedBears(chunks: seq<Chunk>, i: nat)
    requires i < |chunks|
    ensures var doc := if chunks[i].docId.Some? then chunks[i].docId.value else "doc-synth-unknown";
            Bears(Numbered(chunks)[i], chunks[i], doc, |Of(chunks[..i], doc)|)
  {
    NumberedAt(chunks, i);
  }

  function PositionsOf(chunks: seq<Chunk>, doc: string): set<nat> {
    set j: nat | j < |chunks| && DocOf(chunks[j]) == doc
  }

  lemma PositionsStep(chunks: seq<Chunk>, doc: string)
    requires chunks != []
    ensures var n := |chunks| - 1;
            && n !in PositionsOf(chunks[..n], doc)
            && PositionsOf(chunks, doc) ==
               PositionsOf(chunks[..n], doc) + if DocOf(chunks[n]) == doc then {n} else {}
  {
  }

  /** The chunks of a document are as many as the positions that hold one. */
  lemma {:induction false} OfCounts(chunks: seq<Chunk>, doc: string)
    ensures |Of(chunks, doc)| == |PositionsOf(chunks, doc)|
  {
    if chunks != [] {
      OfCounts(chunks[..|chunks| - 1], doc);
      PositionsStep(chunks, doc);
    }
  }

  lemma OfSnoc(chunks: seq<Chunk>, c: Chunk, doc: string)
    ensures Of(chunks + [c], doc) == if DocOf(c) == doc then Of(chunks, doc) + [c] else Of(chunks, doc)
  {
    assert (chunks + [c])[..|chunks|] == chunks;
  }

  lemma CountedSnoc(chunks: seq<Chunk>, c: Chunk)
    ensures Counted(chunks + [c]) == Counted(chunks) + [Stamp(c, |chunks|)]
  {
  }

  /** Changing other documents, or interleaving them otherwise, renumbers no chunk of this one. */
  lemma OthersDoNotRenumber(xs: seq<Chunk>, ys: seq<Chunk>, doc: string)
    requires Of(xs, doc) == Of(ys, doc)
    ensures Of(Numbered(xs), doc) == Of(Numbered(ys), doc)
  {
    NumberedIsCounted(xs, doc);
    NumberedIsCounted(ys, doc);
  }

  lemma {:induction false} CountGrows(chunks: seq<Chunk>, i: nat, j: nat, doc: string)
    requires i < j <= |chunks| && DocOf(chunks[i]) == doc
    ensures |Of(chunks[..i], doc)| < |Of(chunks[..j], doc)|
    decreases j
  {
    assert chunks[..j][..j - 1] == chunks[..j - 1];
    if i < j - 1 {
      CountGrows(chunks, i, j - 1, doc);
    }
  }

  /** Later chunks change no earlier one. */
  lemma {:induction false} NumberedExtends(chunks: seq<Chunk>, m: nat, n: nat)
    requires m <= n <= |chunks|
    ensures Numbered(chunks[..m]) <= Numbered(chunks[..n])
    decreases n
  {
    if m < n {
      NumberedExtends(chunks, m, n - 1);
      NumberedStep(chunks, n - 1);
      var last := Stamp(chunks[n - 1], |Of(chunks[..n - 1], DocOf(chunks[n - 1]))|);
      PrefixOfMore(Numbered(chunks[..m]), Numbered(chunks[..n - 1]), last);
    }
  }

  lemma PrefixOfMore<T>(a: seq<T>, b: seq<T>, x: T)
    requires a <= b
    ensures a <= b + [x]
  {
  }

  lemma NumberedAt(chunks: seq<Chunk>, i: nat)
    requires i < |chunks|
    ensures Numbered(chunks)[i] == Stamp(chunks[i], |Of(chunks[..i], DocOf(chunks[i]))|)
  {
    NumberedStep(chunks, i);
    NumberedExtends(chunks, i + 1, |chunks|);
    assert chunks[..|chunks|] == chunks;
  }

  /** No two chunks of one run share a document and ordinal, so none share a chunk id. */
  lemma KeysDistinct(chunks: seq<Chunk>, i: nat, j: nat)
    requires i < j < |chunks|
    ensures var r := Numbered(chunks);
            && r[i].docId.Some? && r[j].docId.Some? && r[i].ordinal.Some? && r[j].ordinal.Some?
            && (r[i].docId, r[i].ordinal) != (r[j].docId, r[j].ordinal)
            && r[i].chunkId != r[j].chunkId
  {
    NumberedAt(chunks, i);
    NumberedAt(chunks, j);
    var di, dj := DocOf(chunks[i]), DocOf(chunks[j]);
    var ni, nj := |Of(chunks[..i], di)|, |Of(chunks[..j], dj)|;
    if di == dj {
      CountGrows(chunks, i, j, di);
    }
    if ChunkIdFor(di, ni) == ChunkIdFor(dj, nj) {
      ChunkIdInjective(di, ni, dj, nj);
    }
  }
}
