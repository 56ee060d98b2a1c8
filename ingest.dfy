/**
 * The character chunker of the ingestion pipeline (ingest.py): a document's
 * text is cut into windows of `chunk_size` characters, each window starting
 * `chunk_size - overlap` characters after the previous one, every chunk
 * paired with its start offset.
 */
module Ingest {
  import opened Candidates

  /**
   * The chunks produced from offset `start` on: the window at `start`, then
   * (unless that window reached the end of the text, or the next start is
   * past it) the chunks from `start + size - overlap`.
   */
  function ChunksFrom(text: string, size: int, overlap: int, start: int): (r: seq<(string, int)>)
    requires 0 < size && overlap < size
    requires 0 <= start < |text|
    ensures r != [] && r[0].1 == start
    decreases |text| - start
  {
    var end := start + size;
    var chunk := (text[start..Min(end, |text|)], start);
    if end >= |text| || end - overlap >= |text| then [chunk]
    else [chunk] + ChunksFrom(text, size, overlap, end - overlap)
  }

  /**
   * `chunk_text(text, chunk_size, overlap)`: never empty, even for an empty
   * text; the first chunk is the first `chunk_size` characters (the whole text
   * when it fits) at offset 0.
   */
  function Chunks(text: string, size: int, overlap: int): (r: seq<(string, int)>)
    requires |text| <= size || (0 < size && overlap < size)
    ensures r != [] && r[0].1 == 0
    ensures r[0].0 == text[..Min(size, |text|)]
    ensures |text| <= size ==> r == [(text, 0)]
  {
    if |text| <= size then [(text, 0)] else ChunksFrom(text, size, overlap, 0)
  }

  /**
   * `chunk_text`: the loop advances `start` by `chunk_size - overlap` and
   * stops after the chunk that reaches the end of the text.
   */
  method ChunkText(text: string, chunkSize: int, overlap: int) returns (chunks: seq<(string, int)>)
    requires |text| <= chunkSize || (0 < chunkSize && overlap < chunkSize)
    ensures chunks == Chunks(text, chunkSize, overlap)
  {
    if |text| <= chunkSize {
      return [(text, 0)];
    }
    chunks := [];
    var start := 0;
    while start < |text|
      invariant 0 <= start
      invariant start < |text| ==> chunks + ChunksFrom(text, chunkSize, overlap, start) == Chunks(text, chunkSize, overlap)
      invariant start >= |text| ==> chunks == Chunks(text, chunkSize, overlap)
      decreases |text| - start
    {
      var end := start + chunkSize;
      var chunk := text[start..Min(end, |text|)];
      ghost var rest := ChunksFrom(text, chunkSize, overlap, start);
      ghost var before := chunks;
      chunks := chunks + [(chunk, start)];
      if end >= |text| {
        assert rest == [(chunk, start)];
        break;
      }
      ghost var previous := start;
      start := end - overlap;
      if start < |text| {
        ghost var later := ChunksFrom(text, chunkSize, overlap, start);
        assert rest == [(chunk, previous)] + later;
        assert chunks + later == before + rest;
      } else {
        assert rest == [(chunk, previous)];
      }
    }
  }

  /**
   * How a text longer than one chunk is laid out: every start is inside the
   * text, each chunk is the window of `size` characters at its start (cut
   * at the end of the text), consecutive starts are `size - overlap` apart,
   * and every chunk but the last is a full window.
   */
  ghost predicate Layout(text: string, size: int, overlap: int, r: seq<(string, int)>) {
    && (forall k :: 0 <= k < |r| ==> Window(text, size, r[k]))
    && (forall k :: 0 <= k < |r| - 1 ==> r[k + 1].1 == r[k].1 + size - overlap && r[k].1 + size < |text|)
  }

  /** A chunk is the window of `size` characters at its start, cut at the end of the text. */
  ghost predicate Window(text: string, size: int, c: (string, int)) {
    0 <= c.1 < |text| && 0 < size && c.0 == text[c.1..Min(c.1 + size, |text|)]
  }

  lemma {:induction false} ChunksFromLayout(text: string, size: int, overlap: int, start: int)
    requires 0 < size && overlap < size
    requires 0 <= start < |text|
    ensures Layout(text, size, overlap, ChunksFrom(text, size, overlap, start))
    decreases |text| - start
  {
    var end := start + size;
    var c := (text[start..Min(end, |text|)], start);
    assert Window(text, size, c);
    if !(end >= |text| || end - overlap >= |text|) {
      var next := end - overlap;
      var r' := ChunksFrom(text, size, overlap, next);
      assert ChunksFrom(text, size, overlap, start) == [c] + r';
      ChunksFromLayout(text, size, overlap, next);
      LayoutCons(text, size, overlap, c, r');
    } else {
      assert ChunksFrom(text, size, overlap, start) == [c];
    }
  }

  /** A window followed by a layout starting `size - overlap` later, before the end of the text, is a layout. */
  lemma LayoutCons(text: string, size: int, overlap: int, c: (string, int), r: seq<(string, int)>)
    requires Window(text, size, c) && Layout(text, size, overlap, r)
    requires r != [] && r[0].1 == c.1 + size - overlap && c.1 + size < |text|
    ensures Layout(text, size, overlap, [c] + r)
  {
    var s := [c] + r;
    forall k | 0 <= k < |s| ensures Window(text, size, s[k]) {
      if k > 0 { assert s[k] == r[k - 1]; }
    }
    forall k | 0 <= k < |s| - 1 ensures s[k + 1].1 == s[k].1 + size - overlap && s[k].1 + size < |text| {
      if k > 0 { assert s[k] == r[k - 1] && s[k + 1] == r[k]; }
    }
  }

  /** Without gaps between chunks, the last one is the window that reaches the end of the text. */
  lemma {:induction false} ChunksFromLast(text: string, size: int, overlap: int, start: int)
    requires 0 <= overlap < size
    requires 0 <= start < |text|
    ensures var r := ChunksFrom(text, size, overlap, start);
      r[|r| - 1].1 + size >= |text|
    decreases |text| - start
  {
    var end := start + size;
    if end < |text| {
      var next := end - overlap;
      ChunksFromLast(text, size, overlap, next);
      var r, r' := ChunksFrom(text, size, overlap, start), ChunksFrom(text, size, overlap, next);
      assert r == [r[0]] + r';
    }
  }

  /**
   * A text longer than `chunk_size` is cut as `Layout` says, starting at
   * offset 0, with chunks of at most `chunk_size` characters; when
   * `0 <= overlap` the last chunk ends at the end of the text.
   */
  lemma ChunksLayout(text: string, size: int, overlap: int)
    requires |text| > size > 0 && overlap < size
    ensures var r := Chunks(text, size, overlap);
      && r[0].1 == 0
      && Layout(text, size, overlap, r)
      && (forall k :: 0 <= k < |r| ==> |r[k].0| <= size)
      && (forall k :: 0 <= k < |r| - 1 ==> |r[k].0| == size)
      && (0 <= overlap ==> r[|r| - 1].1 + |r[|r| - 1].0| == |text|)
  {
    var r := Chunks(text, size, overlap);
    assert r == ChunksFrom(text, size, overlap, 0);
    ChunksFromLayout(text, size, overlap, 0);
    LayoutSizes(text, size, overlap, r);
    if 0 <= overlap {
      ChunksFromLast(text, size, overlap, 0);
      WindowLength(text, size, r[|r| - 1]);
    }
  }

  /** In a layout every chunk holds at most `size` characters, and all but the last exactly `size`. */
  lemma LayoutSizes(text: string, size: int, overlap: int, r: seq<(string, int)>)
    requires Layout(text, size, overlap, r)
    ensures forall k :: 0 <= k < |r| ==> |r[k].0| <= size
    ensures forall k :: 0 <= k < |r| - 1 ==> |r[k].0| == size
  {
    forall k | 0 <= k < |r| ensures |r[k].0| <= size {
      WindowLength(text, size, r[k]);
    }
  }

  lemma WindowLength(text: string, size: int, c: (string, int))
    requires Window(text, size, c)
    ensures |c.0| == Min(c.1 + size, |text|) - c.1
  {
  }

  /** A text that fits in one chunk comes back whole at offset 0, the empty text included. */
  lemma ChunksShort(text: string, size: int, overlap: int)
    requires |text| <= size
    ensures Chunks(text, size, overlap) == [(text, 0)]
  {
  }

  /** Offset `i` of the text lies inside one of the chunks. */
  ghost predicate Covered(r: seq<(string, int)>, i: int) {
    exists k :: 0 <= k < |r| && r[k].1 <= i < r[k].1 + |r[k].0|
  }

  /** Every character of the text lies in some chunk, when chunks do not leave gaps (`0 <= overlap`). */
  lemma {:induction false} ChunksFromCover(text: string, size: int, overlap: int, start: int, i: int)
    requires 0 <= overlap < size
    requires 0 <= start <= i < |text|
    ensures Covered(ChunksFrom(text, size, overlap, start), i)
    decreases |text| - start
  {
    var r := ChunksFrom(text, size, overlap, start);
    var end := start + size;
    if i < end {
      assert |r[0].0| == Min(end, |text|) - start;
      assert r[0].1 <= i < r[0].1 + |r[0].0|;
      assert Covered(r, i);
    } else {
      var next := end - overlap;
      ChunksFromCover(text, size, overlap, next, i);
      var r' := ChunksFrom(text, size, overlap, next);
      var k :| 0 <= k < |r'| && r'[k].1 <= i < r'[k].1 + |r'[k].0|;
      assert r == [r[0]] + r';
      assert r[k + 1] == r'[k];
      assert Covered(r, i);
    }
  }

  lemma ChunksCover(text: string, size: int, overlap: int, i: int)
    requires |text| <= size || 0 <= overlap < size
    requires 0 <= i < |text|
    ensures Covered(Chunks(text, size, overlap), i)
  {
    if |text| > size {
      ChunksFromCover(text, size, overlap, 0, i);
    } else {
      assert Chunks(text, size, overlap)[0] == (text, 0);
    }
  }

  /** `s[n:]` */
  function Drop(s: string, n: nat): string {
    if n <= |s| then s[n..] else []
  }

  /** The later chunks with their first `overlap` characters (the part repeated from the previous chunk) removed. */
  function Tails(cs: seq<(string, int)>, overlap: nat): string
    decreases |cs|
  {
    if cs == [] then [] else Drop(cs[0].0, overlap) + Tails(cs[1..], overlap)
  }

  /** The first chunk followed by the non-overlapping part of every later chunk. */
  function Reassemble(cs: seq<(string, int)>, overlap: nat): string {
    if cs == [] then [] else cs[0].0 + Tails(cs[1..], overlap)
  }

  lemma {:induction false} ReassembleFrom(text: string, size: int, overlap: int, start: int)
    requires 0 <= overlap < size
    requires 0 <= start < |text|
    ensures Reassemble(ChunksFrom(text, size, overlap, start), overlap) == text[start..]
    decreases |text| - start
  {
    var end := start + size;
    if end >= |text| {
      ReassembleLast(text, size, overlap, start);
    } else {
      ReassembleFrom(text, size, overlap, end - overlap);
      TailsFrom(text, size, overlap, start);
      ReassembleStep(text, size, overlap, start);
    }
  }

  /** The window that reaches the end of the text is the whole rest of the text. */
  lemma ReassembleLast(text: string, size: int, overlap: int, start: int)
    requires 0 <= overlap < size
    requires 0 <= start < |text| <= start + size
    ensures Reassemble(ChunksFrom(text, size, overlap, start), overlap) == text[start..]
  {
    var r := ChunksFrom(text, size, overlap, start);
    assert r == [(text[start..], start)] by {
      assert Min(start + size, |text|) == |text|;
      assert text[start..|text|] == text[start..];
    }
    assert r[1..] == [];
  }

  /** A full window followed by the rest of the text, its overlap removed, is the text from `start`. */
  lemma ReassembleStep(text: string, size: int, overlap: int, start: int)
    requires 0 <= overlap < size
    requires 0 <= start && start + size < |text|
    requires Tails(ChunksFrom(text, size, overlap, start + size - overlap), overlap) == text[start + size..]
    ensures Reassemble(ChunksFrom(text, size, overlap, start), overlap) == text[start..]
  {
    var end := start + size;
    var r' := ChunksFrom(text, size, overlap, end - overlap);
    var head := text[start..end];
    assert ChunksFrom(text, size, overlap, start) == [(head, start)] + r';
    assert Reassemble([(head, start)] + r', overlap) == head + Tails(r', overlap) by {
      assert ([(head, start)] + r')[1..] == r';
    }
    assert head + text[end..] == text[start..];
  }

  /**
   * The chunks from the start `next` after `start` on, each without its
   * first `overlap` characters, are the text after the window at `start`
   * when the chunks from `next` reassemble.
   */
  lemma TailsFrom(text: string, size: int, overlap: int, start: int)
    requires 0 <= overlap < size
    requires 0 <= start && start + size < |text|
    requires Reassemble(ChunksFrom(text, size, overlap, start + size - overlap), overlap) ==
             text[start + size - overlap..]
    ensures Tails(ChunksFrom(text, size, overlap, start + size - overlap), overlap) == text[start + size..]
  {
    var next := start + size - overlap;
    var r' := ChunksFrom(text, size, overlap, next);
    var m := Min(next + size, |text|);
    assert r'[0].0 == text[next..m];
    var later := Tails(r'[1..], overlap);
    assert later == text[m..] by {
      assert text[next..m] + later == text[next..m] + text[m..];
      CancelPrefix(text[next..m], later, text[m..]);
    }
    assert Drop(text[next..m], overlap) == text[next + overlap..m];
    assert next + overlap == start + size;
    assert text[next + overlap..m] + text[m..] == text[start + size..];
  }

  lemma CancelPrefix(a: string, x: string, y: string)
    requires a + x == a + y
    ensures x == y
  {
    assert x == (a + x)[|a|..];
    assert y == (a + y)[|a|..];
  }

  /**
   * Round trip: the first chunk followed by every later chunk without its
   * first `overlap` characters is the text again.
   */
  lemma ChunksRoundTrip(text: string, size: int, overlap: int)
    requires |text| <= size || 0 <= overlap < size
    requires 0 <= overlap
    ensures Reassemble(Chunks(text, size, overlap), overlap) == text
  {
    if |text| > size {
      ReassembleFrom(text, size, overlap, 0);
    } else {
      assert Chunks(text, size, overlap)[1..] == [];
    }
  }
}
