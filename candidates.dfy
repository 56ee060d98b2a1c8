/**
 * The values every retrieval strategy passes around: a scored chunk of a
 * document as the vector store returns it, with the two payload keys the
 * core reads ("text" and "filename") and the optional `final_score`
 * attribute the weighted reranker attaches.
 */
module Candidates {

  datatype Option<T> = None | Some(value: T) {
    function GetOr(default: T): T {
      match this
      case Some(v) => v
      case None => default
    }
  }

  /** A payload key that is absent is `None`; a point without any payload has both keys absent. */
  datatype Candidate = Candidate(
    id: string,
    score: real,
    text: Option<string>,
    filename: Option<string>,
    finalScore: Option<real>)

  /** `payload.get("text", "")`: a missing text reads as the empty string. */
  function TextOf(c: Candidate): string {
    c.text.GetOr("")
  }

  /** The ids of a sequence of candidates, position by position. */
  function Ids(s: seq<Candidate>): (r: seq<string>)
    ensures |r| == |s|
    ensures forall i :: 0 <= i < |s| ==> r[i] == s[i].id
  {
    seq(|s|, i requires 0 <= i < |s| => s[i].id)
  }

  /** No two candidates share an id (the invariant of every merged context set). */
  predicate NoDupIds(s: seq<Candidate>) {
    forall i, j :: 0 <= i < j < |s| ==> s[i].id != s[j].id
  }

  function Min(a: int, b: int): int { if a <= b then a else b }
  function Max(a: int, b: int): int { if a <= b then b else a }

  /** The length of Python's `s[:n]` for a list of length `len`. */
  function TakeLength(len: nat, n: int): nat {
    if n >= 0 then Min(n, len) else Max(0, len + n)
  }

  /**
   * Python's `s[:n]`: the first `n` elements, or all but the last `-n`
   * when `n` is negative.
   */
  function Take<T>(s: seq<T>, n: int): (r: seq<T>)
    ensures |r| == TakeLength(|s|, n)
    ensures r == s[..|r|]
    ensures n >= 0 ==> |r| <= n
  {
    if n >= |s| then s
    else if n >= 0 then s[..n]
    else if |s| + n >= 0 then s[..|s| + n]
    else []
  }

  /** `max(r.score for r in s)` */
  function MaxScore(s: seq<Candidate>): (m: real)
    requires s != []
    ensures forall i :: 0 <= i < |s| ==> s[i].score <= m
    ensures exists i :: 0 <= i < |s| && s[i].score == m
  {
    if |s| == 1 then s[0].score
    else
      var rest := MaxScore(s[1..]);
      assert forall i :: 1 <= i < |s| ==> s[i] == s[1..][i - 1];
      if s[0].score >= rest then s[0].score else rest
  }

  /** `min(h.score for h in s)` */
  function MinScore(s: seq<Candidate>): (m: real)
    requires s != []
    ensures forall i :: 0 <= i < |s| ==> m <= s[i].score
    ensures exists i :: 0 <= i < |s| && s[i].score == m
  {
    if |s| == 1 then s[0].score
    else
      var rest := MinScore(s[1..]);
      assert forall i :: 1 <= i < |s| ==> s[i] == s[1..][i - 1];
      if s[0].score <= rest then s[0].score else rest
  }

  /** `[f(x) for x in s]` */
  function MapSeq<T, U>(f: T -> U, s: seq<T>): (r: seq<U>)
    ensures |r| == |s|
    ensures forall i :: 0 <= i < |s| ==> r[i] == f(s[i])
  {
    seq(|s|, i requires 0 <= i < |s| => f(s[i]))
  }

  /** The ids of two sequences put together. */
  lemma IdsAppend(a: seq<Candidate>, b: seq<Candidate>)
    ensures Ids(a + b) == Ids(a) + Ids(b)
  {
    assert |Ids(a + b)| == |Ids(a) + Ids(b)|;
  }

  /** The ids of the first `n` candidates are the first `n` ids. */
  lemma IdsTake(s: seq<Candidate>, n: int)
    ensures Ids(Take(s, n)) == Take(Ids(s), n)
  {
    assert |Ids(Take(s, n))| == |Take(Ids(s), n)|;
  }

  /** Mapping two sequences put together. */
  lemma MapAppend<T, U>(f: T -> U, a: seq<T>, b: seq<T>)
    ensures MapSeq(f, a + b) == MapSeq(f, a) + MapSeq(f, b)
  {
    assert |MapSeq(f, a + b)| == |MapSeq(f, a) + MapSeq(f, b)|;
  }

  /** Concatenation is associative (stated once for the proofs that regroup it). */
  lemma Assoc<T>(a: seq<T>, b: seq<T>, c: seq<T>)
    ensures a + (b + c) == (a + b) + c
  {
  }
}
