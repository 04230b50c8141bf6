/**
Cutting a page's text into overlapping chunks for embedding. A document arrives as its paragraphs,
each the list of its words: splitting the text at blank lines and at white space is not modelled.
*/
module Chunking {

  const CHUNK_WORDS: nat := 400
  const OVERLAP_WORDS: nat := 60

  datatype ChunkItem<W> = ChunkItem(index: nat, words: seq<W>, tokenCount: nat)

  // int(n * 1.3): the product of a count with 1.3 is rounded down.
  function TokenEstimate(words: nat): (r: nat)
    ensures 10 * r <= 13 * words < 10 * (r + 1)
  {
    words * 13 / 10
  }

  function Tail<W>(s: seq<W>, n: nat): (t: seq<W>)
    ensures |t| == if n <= |s| then n else |s|
  {
    if |s| <= n then s else s[|s| - n..]
  }

  method ChunkText<W>(paragraphs: seq<seq<W>>) returns (chunks: seq<ChunkItem<W>>)
    ensures Contents(chunks) == Pieces(paragraphs)
    ensures forall i | 0 <= i < |chunks| ::
              chunks[i].index == i && chunks[i].tokenCount == TokenEstimate(|chunks[i].words|)
  {
    chunks := [];
    var current: seq<W> := [];
    var index := 0;
    for i := 0 to |paragraphs|
      invariant index == |chunks|
      invariant forall k | 0 <= k < |chunks| ::
                  chunks[k].index == k && chunks[k].tokenCount == TokenEstimate(|chunks[k].words|)
      invariant Contents(chunks) == Done(paragraphs[..i]).0 && current == Done(paragraphs[..i]).1
    {
      assert paragraphs[..i + 1][..i] == paragraphs[..i];
      var words := paragraphs[i];
      if |current| + |words| > CHUNK_WORDS && current != [] {
        chunks := chunks + [ChunkItem(index, current, TokenEstimate(|current|))];
        index := index + 1;
        current := Tail(current, OVERLAP_WORDS) + words;
      } else {
        current := current + words;
      }
    }
    assert paragraphs[..|paragraphs|] == paragraphs;
    if current != [] {
      chunks := chunks + [ChunkItem(index, current, TokenEstimate(|current|))];
    }
  }

  function Contents<W>(chunks: seq<ChunkItem<W>>): (r: seq<seq<W>>)
    ensures |r| == |chunks| && forall i | 0 <= i < |r| :: r[i] == chunks[i].words
  {
    seq(|chunks|, i requires 0 <= i < |chunks| => chunks[i].words)
  }

  // The chunks closed so far and the words of the open one.
  function Done<W>(paragraphs: seq<seq<W>>): (seq<seq<W>>, seq<W>) {
    if paragraphs == [] then ([], [])
    else
      var (closed, current) := Done(paragraphs[..|paragraphs| - 1]);
      var words := paragraphs[|paragraphs| - 1];
      if |current| + |words| > CHUNK_WORDS && current != []
      then (closed + [current], Tail(current, OVERLAP_WORDS) + words)
      else (closed, current + words)
  }

  // All chunks, the open one last.
  function All<W>(paragraphs: seq<seq<W>>): (r: seq<seq<W>>)
    ensures r != []
  {
    Done(paragraphs).0 + [Done(paragraphs).1]
  }

  function Pieces<W>(paragraphs: seq<seq<W>>): seq<seq<W>> {
    var (closed, current) := Done(paragraphs);
    if current == [] then closed else closed + [current]
  }

  // ----- Dropping the repeated words gives the text back -----

  function Flatten<W>(paragraphs: seq<seq<W>>): seq<W> {
    if paragraphs == [] then [] else Flatten(paragraphs[..|paragraphs| - 1]) + paragraphs[|paragraphs| - 1]
  }

  // The words a chunk takes over from the ones before it.
  function Lead<W>(pieces: seq<seq<W>>): seq<W> {
    if pieces == [] then [] else Tail(pieces[|pieces| - 1], OVERLAP_WORDS)
  }

  predicate Linked<W(==)>(pieces: seq<seq<W>>) {
    forall i | 0 <= i < |pieces| :: Lead(pieces[..i]) <= pieces[i]
  }

  function Drop<W>(s: seq<W>, n: nat): seq<W> { if n <= |s| then s[n..] else [] }

  // The chunks put together again, each without the words it took over.
  function Reassemble<W>(pieces: seq<seq<W>>): seq<W> {
    if pieces == [] then []
    else
      var last := |pieces| - 1;
      Reassemble(pieces[..last]) + Drop(pieces[last], |Lead(pieces[..last])|)
  }

  lemma {:induction false} LinkedOneMore<W>(pieces: seq<seq<W>>, piece: seq<W>)
    ensures Linked(pieces + [piece]) <==> Linked(pieces) && Lead(pieces) <= piece
  {
    var more := pieces + [piece];
    assert more[..|pieces|] == pieces && more[|pieces|] == piece;
    assert forall i | 0 <= i < |pieces| :: more[..i] == pieces[..i] && more[i] == pieces[i];
  }

  lemma {:induction false} ReassembleOneMore<W>(pieces: seq<seq<W>>, piece: seq<W>)
    ensures Reassemble(pieces + [piece]) == Reassemble(pieces) + Drop(piece, |Lead(pieces)|)
  {
    assert (pieces + [piece])[..|pieces|] == pieces;
  }

  lemma {:induction false} OpenNext<W>(closed: seq<seq<W>>, current: seq<W>, words: seq<W>)
    requires Linked(closed + [current])
    ensures var all := closed + [current] + [Tail(current, OVERLAP_WORDS) + words];
            Linked(all) && Reassemble(all) == Reassemble(closed + [current]) + words
  {
    var pieces, piece := closed + [current], Tail(current, OVERLAP_WORDS) + words;
    LinkedOneMore(pieces, piece);
    ReassembleOneMore(pieces, piece);
  }

  // Words added to the last chunk come back as words added to the text.
  lemma {:induction false} DropGrows<W>(text: seq<W>, lead: seq<W>, current: seq<W>, words: seq<W>)
    requires lead <= current
    ensures lead <= current + words
    ensures text + Drop(current + words, |lead|) == text + Drop(current, |lead|) + words
  {
    assert (current + words)[|lead|..] == current[|lead|..] + words;
  }

  lemma {:induction false} ExtendLast<W>(closed: seq<seq<W>>, current: seq<W>, words: seq<W>)
    requires Linked(closed + [current])
    ensures Linked(closed + [current + words])
    ensures Reassemble(closed + [current + words]) == Reassemble(closed + [current]) + words
  {
    LinkedOneMore(closed, current);
    DropGrows(Reassemble(closed), Lead(closed), current, words);
    LinkedOneMore(closed, current + words);
    ReassembleOneMore(closed, current);
    ReassembleOneMore(closed, current + words);
  }

  lemma {:induction false} AllReassembles<W>(paragraphs: seq<seq<W>>)
    ensures Linked(All(paragraphs)) && Reassemble(All(paragraphs)) == Flatten(paragraphs)
  {
    if paragraphs == [] {
      ReassembleOneMore<W>([], []);
    } else {
      var before := paragraphs[..|paragraphs| - 1];
      var words := paragraphs[|paragraphs| - 1];
      var (closed, current) := Done(before);
      AllReassembles(before);
      if |current| + |words| > CHUNK_WORDS && current != [] {
        OpenNext(closed, current, words);
      } else {
        ExtendLast(closed, current, words);
      }
    }
  }

  lemma {:induction false} OnlyNothingIsEmpty<W>(paragraphs: seq<seq<W>>)
    ensures forall piece <- Done(paragraphs).0 :: piece != []
    ensures Done(paragraphs).0 != [] ==> Done(paragraphs).1 != []
  {
    if paragraphs != [] {
      OnlyNothingIsEmpty(paragraphs[..|paragraphs| - 1]);
    }
  }

  // Each chunk starts with the last 60 words of the one before it, and without those the chunks are
  // exactly the document's words in order.
  lemma {:induction false} ChunkRoundTrip<W>(paragraphs: seq<seq<W>>)
    ensures Linked(Pieces(paragraphs)) && Reassemble(Pieces(paragraphs)) == Flatten(paragraphs)
    ensures forall piece <- Pieces(paragraphs) :: piece != []
  {
    AllReassembles(paragraphs);
    OnlyNothingIsEmpty(paragraphs);
    var (closed, current) := Done(paragraphs);
    if current == [] {
      assert All(paragraphs)[..0] == [];
    }
  }

  // ----- Sizes -----

  lemma {:induction false} ChunkSizeBound<W>(paragraphs: seq<seq<W>>, longest: nat)
    requires forall p <- paragraphs :: |p| <= longest
    ensures forall piece <- Pieces(paragraphs) ::
              |piece| <= if 60 + longest <= 400 then 400 else 60 + longest
  {
    AllBounded(paragraphs, longest);
    assert forall piece <- Pieces(paragraphs) :: piece in All(paragraphs);
  }

  lemma {:induction false} AllBounded<W>(paragraphs: seq<seq<W>>, longest: nat)
    requires forall p <- paragraphs :: |p| <= longest
    ensures forall piece <- All(paragraphs) :: |piece| <= CHUNK_WORDS || |piece| <= OVERLAP_WORDS + longest
  {
    if paragraphs != [] {
      AllBounded(paragraphs[..|paragraphs| - 1], longest);
      var (closed, current) := Done(paragraphs[..|paragraphs| - 1]);
      assert forall piece <- closed :: piece in All(paragraphs[..|paragraphs| - 1]);
      assert current in All(paragraphs[..|paragraphs| - 1]);
    }
  }

  // ----- The bound is attained -----

  lemma {:induction false} DoneOneMore<W>(paragraphs: seq<seq<W>>, words: seq<W>)
    ensures var (closed, current) := Done(paragraphs);
            Done(paragraphs + [words])
            == if |current| + |words| > CHUNK_WORDS && current != []
               then (closed + [current], Tail(current, OVERLAP_WORDS) + words)
               else (closed, current + words)
  {
    assert (paragraphs + [words])[..|paragraphs|] == paragraphs;
  }

  function Copies<W>(w: W, n: nat): (r: seq<W>)
    ensures |r| == n
  {
    seq(n, i => w)
  }

  // Paragraphs of one word each fill one chunk to the brim.
  lemma {:induction false} SingleWordsFill<W>(w: W, n: nat)
    requires n <= CHUNK_WORDS
    ensures Done(Copies([w], n)) == ([], Copies(w, n))
  {
    if n > 0 {
      SingleWordsFill(w, n - 1);
      DoneOneMore(Copies([w], n - 1), [w]);
      assert Copies([w], n) == Copies([w], n - 1) + [[w]];
      assert Copies(w, n) == Copies(w, n - 1) + [w];
    }
  }

  // Two long paragraphs: the second gets a chunk of its own, with the overlap on top.
  lemma {:induction false} LongParagraphOverlaps<W>(p: seq<W>)
    requires OVERLAP_WORDS + |p| > CHUNK_WORDS
    ensures Done([p, p]) == ([p], Tail(p, OVERLAP_WORDS) + p)
  {
    var none: seq<seq<W>> := [];
    DoneOneMore(none, p);
    assert none + [p] == [p] && [] + p == p;
    assert Done([p]) == ([], p);
    DoneOneMore([p], p);
    assert [p] + [p] == [p, p] && none + [p] == [p];
  }

  // For every length of the longest paragraph some document has a chunk as long as the bound allows.
  lemma {:induction false} ChunkSizeBoundAttained<W>(w: W, longest: nat) returns (paragraphs: seq<seq<W>>, piece: seq<W>)
    requires longest > 0
    ensures forall p <- paragraphs :: |p| <= longest
    ensures piece in Pieces(paragraphs)
    ensures |piece| == if 60 + longest <= 400 then 400 else 60 + longest
  {
    if OVERLAP_WORDS + longest <= CHUNK_WORDS {
      paragraphs, piece := Copies([w], CHUNK_WORDS), Copies(w, CHUNK_WORDS);
      SingleWordsFill(w, CHUNK_WORDS);
      assert Pieces(paragraphs) == [] + [piece];
    } else {
      var p := Copies(w, longest);
      paragraphs, piece := [p, p], Tail(p, OVERLAP_WORDS) + p;
      LongParagraphOverlaps(p);
      assert Pieces(paragraphs) == [p] + [piece];
    }
  }

  // ----- Where the cuts are -----

  // The paragraph each chunk starts with.
  function Cuts<W>(paragraphs: seq<seq<W>>): (cuts: seq<nat>)
    ensures |cuts| == |All(paragraphs)| && forall i | 0 <= i < |cuts| :: cuts[i] <= |paragraphs|
  {
    if paragraphs == [] then [0]
    else
      var before := paragraphs[..|paragraphs| - 1];
      var current := Done(before).1;
      if |current| + |paragraphs[|paragraphs| - 1]| > CHUNK_WORDS && current != []
      then Cuts(before) + [|before|]
      else Cuts(before)
  }

  function End<W>(paragraphs: seq<seq<W>>, i: nat): (e: nat)
    requires i < |Cuts(paragraphs)|
    ensures e <= |paragraphs|
  {
    if i + 1 < |Cuts(paragraphs)| then Cuts(paragraphs)[i + 1] else |paragraphs|
  }

  // What chunk i holds when the paragraphs of its run before k have been added.
  function Partial<W>(paragraphs: seq<seq<W>>, i: nat, k: nat): seq<W>
    requires i < |Cuts(paragraphs)| && Cuts(paragraphs)[i] <= k <= |paragraphs|
  {
    Lead(All(paragraphs)[..i]) + Flatten(paragraphs[Cuts(paragraphs)[i]..k])
  }

  // No paragraph of the run was pushed in where it did not fit.
  ghost predicate RunFits<W>(paragraphs: seq<seq<W>>, i: nat)
    requires i < |Cuts(paragraphs)|
  {
    forall k | Cuts(paragraphs)[i] < k < End(paragraphs, i) ::
      Partial(paragraphs, i, k) == [] || |Partial(paragraphs, i, k)| + |paragraphs[k]| <= CHUNK_WORDS
  }

  // The chunk's run, and what it holds.
  ghost predicate Placed<W>(paragraphs: seq<seq<W>>, i: nat)
    requires i < |Cuts(paragraphs)|
  {
    var from, to := Cuts(paragraphs)[i], End(paragraphs, i);
    && (i == 0 ==> from == 0) && (if i + 1 < |Cuts(paragraphs)| then from < to else from <= to)
    && All(paragraphs)[i] == Partial(paragraphs, i, to)
  }

  // The paragraph after a closed chunk did not fit.
  ghost predicate Full<W>(paragraphs: seq<seq<W>>, i: nat)
    requires i < |Cuts(paragraphs)|
  {
    var to := End(paragraphs, i);
    i + 1 < |Cuts(paragraphs)| ==>
      to < |paragraphs| && All(paragraphs)[i] != [] && |All(paragraphs)[i]| + |paragraphs[to]| > CHUNK_WORDS
  }

  ghost predicate CutExactly<W>(paragraphs: seq<seq<W>>, i: nat)
    requires i < |Cuts(paragraphs)|
  {
    Placed(paragraphs, i) && Full(paragraphs, i) && RunFits(paragraphs, i)
  }

  lemma {:induction false} SliceOfPrefix<T>(s: seq<T>, n: nat, from: nat, to: nat)
    requires from <= to <= n <= |s|
    ensures s[..n][from..to] == s[from..to]
  {
    forall i | 0 <= i < to - from
      ensures s[..n][from..to][i] == s[from..to][i]
    {
    }
  }

  // Another paragraph leaves what earlier paragraphs gave a chunk as it was.
  lemma {:induction false} PartialStays<W>(paragraphs: seq<seq<W>>, i: nat, k: nat)
    requires paragraphs != []
    requires var before := paragraphs[..|paragraphs| - 1];
             i < |Cuts(before)| && Cuts(before)[i] <= k <= |before|
    ensures i < |Cuts(paragraphs)| && Cuts(paragraphs)[i] == Cuts(paragraphs[..|paragraphs| - 1])[i]
    ensures Partial(paragraphs, i, k) == Partial(paragraphs[..|paragraphs| - 1], i, k)
  {
    var before := paragraphs[..|paragraphs| - 1];
    var from := Cuts(before)[i];
    assert Cuts(paragraphs)[i] == from;
    SliceOfPrefix(paragraphs, |before|, from, k);
    assert All(paragraphs)[..i] == All(before)[..i];
  }

  lemma {:induction false} PartialGrows<W>(paragraphs: seq<seq<W>>, i: nat, k: nat)
    requires i < |Cuts(paragraphs)| && Cuts(paragraphs)[i] <= k < |paragraphs|
    ensures Partial(paragraphs, i, k + 1) == Partial(paragraphs, i, k) + paragraphs[k]
  {
    var from := Cuts(paragraphs)[i];
    var run := paragraphs[from..k + 1];
    assert run[..|run| - 1] == paragraphs[from..k];
  }

  // Whether another paragraph closes the open chunk.
  predicate Closes<W>(paragraphs: seq<seq<W>>)
    requires paragraphs != []
  {
    var current := Done(paragraphs[..|paragraphs| - 1]).1;
    |current| + |paragraphs[|paragraphs| - 1]| > CHUNK_WORDS && |current| > 0
  }

  // A chunk that the next paragraph does not join keeps its place.
  lemma {:induction false} StaysInPlace<W>(paragraphs: seq<seq<W>>, i: nat)
    requires paragraphs != []
    requires var before := paragraphs[..|paragraphs| - 1];
             i < |Cuts(before)| && (i + 1 == |Cuts(before)| ==> Closes(paragraphs))
    ensures var before := paragraphs[..|paragraphs| - 1];
            && i + 1 < |Cuts(paragraphs)|
            && Cuts(paragraphs)[i] == Cuts(before)[i] && End(paragraphs, i) == End(before, i)
            && All(paragraphs)[i] == All(before)[i]
  {
  }

  lemma {:induction false} ClosedStaysPlaced<W>(paragraphs: seq<seq<W>>, i: nat)
    requires paragraphs != []
    requires var before := paragraphs[..|paragraphs| - 1];
             i < |Cuts(before)| && Placed(before, i) && (i + 1 == |Cuts(before)| ==> Closes(paragraphs))
    ensures i < |Cuts(paragraphs)| && Placed(paragraphs, i)
  {
    var before := paragraphs[..|paragraphs| - 1];
    StaysInPlace(paragraphs, i);
    PartialStays(paragraphs, i, End(before, i));
    CutsBelow(before, i);
  }

  // Only an empty document has its last cut at its end.
  lemma {:induction false} CutsBelow<W>(paragraphs: seq<seq<W>>, i: nat)
    requires i < |Cuts(paragraphs)|
    ensures Cuts(paragraphs)[i] < |paragraphs| || paragraphs == []
  {
    if paragraphs != [] {
      var before := paragraphs[..|paragraphs| - 1];
      if i < |Cuts(before)| {
        CutsBelow(before, i);
      }
    }
  }

  lemma {:induction false} ClosedStaysFull<W>(paragraphs: seq<seq<W>>, i: nat)
    requires paragraphs != []
    requires var before := paragraphs[..|paragraphs| - 1];
             i < |Cuts(before)| && Full(before, i) && (i + 1 == |Cuts(before)| ==> Closes(paragraphs))
    ensures i < |Cuts(paragraphs)| && Full(paragraphs, i)
  {
    var before := paragraphs[..|paragraphs| - 1];
    StaysInPlace(paragraphs, i);
    if i + 1 < |Cuts(before)| {
      assert paragraphs[End(before, i)] == before[End(before, i)];
    } else {
      assert All(before)[i] == Done(before).1;
    }
  }

  lemma {:induction false} ClosedStaysFitting<W>(paragraphs: seq<seq<W>>, i: nat)
    requires paragraphs != []
    requires var before := paragraphs[..|paragraphs| - 1];
             i < |Cuts(before)| && RunFits(before, i) && (i + 1 == |Cuts(before)| ==> Closes(paragraphs))
    ensures i < |Cuts(paragraphs)| && RunFits(paragraphs, i)
  {
    var before := paragraphs[..|paragraphs| - 1];
    StaysInPlace(paragraphs, i);
    forall k | Cuts(paragraphs)[i] < k < End(paragraphs, i)
      ensures Partial(paragraphs, i, k) == [] || |Partial(paragraphs, i, k)| + |paragraphs[k]| <= CHUNK_WORDS
    {
      PartialStays(paragraphs, i, k);
      assert paragraphs[k] == before[k];
    }
  }

  lemma {:induction false} ClosedChunkStays<W>(paragraphs: seq<seq<W>>, i: nat)
    requires paragraphs != []
    requires var before := paragraphs[..|paragraphs| - 1];
             i < |Cuts(before)| && CutExactly(before, i) && (i + 1 == |Cuts(before)| ==> Closes(paragraphs))
    ensures i < |Cuts(paragraphs)| && CutExactly(paragraphs, i)
  {
    ClosedStaysPlaced(paragraphs, i);
    ClosedStaysFull(paragraphs, i);
    ClosedStaysFitting(paragraphs, i);
  }

  lemma {:induction false} FitsHere<W>(paragraphs: seq<seq<W>>, i: nat, k: nat)
    requires paragraphs != [] && !Closes(paragraphs)
    requires var before := paragraphs[..|paragraphs| - 1];
             i + 1 == |Cuts(before)| && CutExactly(before, i) && Cuts(before)[i] < k <= |before|
    ensures i < |Cuts(paragraphs)| && Cuts(paragraphs)[i] <= k
    ensures Partial(paragraphs, i, k) == [] || |Partial(paragraphs, i, k)| + |paragraphs[k]| <= CHUNK_WORDS
  {
    var before := paragraphs[..|paragraphs| - 1];
    PartialStays(paragraphs, i, k);
    if k == |before| {
      assert Partial(before, i, k) == Done(before).1;
    } else {
      assert paragraphs[k] == before[k];
    }
  }

  lemma {:induction false} OpenRunFits<W>(paragraphs: seq<seq<W>>, i: nat)
    requires paragraphs != [] && !Closes(paragraphs)
    requires var before := paragraphs[..|paragraphs| - 1]; i + 1 == |Cuts(before)| && CutExactly(before, i)
    ensures i < |Cuts(paragraphs)| && RunFits(paragraphs, i)
  {
    var before := paragraphs[..|paragraphs| - 1];
    PartialStays(paragraphs, i, Cuts(before)[i]);
    forall k | Cuts(paragraphs)[i] < k < End(paragraphs, i)
      ensures Partial(paragraphs, i, k) == [] || |Partial(paragraphs, i, k)| + |paragraphs[k]| <= CHUNK_WORDS
    {
      FitsHere(paragraphs, i, k);
    }
  }

  lemma {:induction false} GrowsInPlace<W>(paragraphs: seq<seq<W>>, i: nat)
    requires paragraphs != [] && !Closes(paragraphs) && i + 1 == |Cuts(paragraphs[..|paragraphs| - 1])|
    ensures var before := paragraphs[..|paragraphs| - 1];
            && i + 1 == |Cuts(paragraphs)| && End(paragraphs, i) == |paragraphs|
            && Cuts(paragraphs)[i] == Cuts(before)[i] && End(before, i) == |before|
            && All(paragraphs)[i] == All(before)[i] + paragraphs[|before|]
  {
  }

  lemma {:induction false} OpenStaysPlaced<W>(paragraphs: seq<seq<W>>, i: nat)
    requires paragraphs != [] && !Closes(paragraphs)
    requires var before := paragraphs[..|paragraphs| - 1]; i + 1 == |Cuts(before)| && Placed(before, i)
    ensures i < |Cuts(paragraphs)| && Placed(paragraphs, i) && Full(paragraphs, i)
  {
    var before := paragraphs[..|paragraphs| - 1];
    GrowsInPlace(paragraphs, i);
    PartialStays(paragraphs, i, |before|);
    PartialGrows(paragraphs, i, |before|);
  }

  lemma {:induction false} OpenChunkGrows<W>(paragraphs: seq<seq<W>>, i: nat)
    requires paragraphs != [] && !Closes(paragraphs)
    requires var before := paragraphs[..|paragraphs| - 1]; i + 1 == |Cuts(before)| && CutExactly(before, i)
    ensures i < |Cuts(paragraphs)| && CutExactly(paragraphs, i)
  {
    OpenRunFits(paragraphs, i);
    OpenStaysPlaced(paragraphs, i);
  }

  lemma {:induction false} NewChunkOpens<W>(paragraphs: seq<seq<W>>, i: nat)
    requires paragraphs != [] && Closes(paragraphs) && i == |Cuts(paragraphs[..|paragraphs| - 1])|
    ensures i < |Cuts(paragraphs)| && CutExactly(paragraphs, i)
  {
    var last := |paragraphs| - 1;
    var before := paragraphs[..last];
    assert Cuts(paragraphs) == Cuts(before) + [last] && End(paragraphs, i) == |paragraphs|;
    assert All(paragraphs) == All(before) + [Tail(Done(before).1, OVERLAP_WORDS) + paragraphs[last]];
    assert All(paragraphs)[..i] == All(before);
    assert paragraphs[last..last] == [];
    PartialGrows(paragraphs, i, last);
  }

  // A chunk is what it takes over plus a run of whole paragraphs; a run ends exactly where the next
  // paragraph would not fit, and never earlier.
  lemma {:induction false} CutsExact<W>(paragraphs: seq<seq<W>>, i: nat)
    requires i < |Cuts(paragraphs)|
    ensures CutExactly(paragraphs, i)
    decreases |paragraphs|
  {
    if paragraphs != [] {
      var before := paragraphs[..|paragraphs| - 1];
      if i < |Cuts(before)| {
        CutsExact(before, i);
      }
      if i == |Cuts(before)| {
        NewChunkOpens(paragraphs, i);
      } else if i + 1 == |Cuts(before)| && !Closes(paragraphs) {
        OpenChunkGrows(paragraphs, i);
      } else {
        ClosedChunkStays(paragraphs, i);
      }
    }
  }
}
