/**
 * Set-union fusion: the dictionary `merged` keyed by point id that both the
 * hybrid strategy and the multi-query strategy fill. A Python dict keeps its
 * keys in first-insertion order, while assigning to an existing key replaces
 * the value in place; `list(merged.values())` reads the values in key order.
 * The dictionary is represented by that list of values.
 */
module Merge {
  import opened Candidates

  /** `merged[p.id] = p` */
  function Upsert(vals: seq<Candidate>, p: Candidate): (r: seq<Candidate>)
    ensures |r| == if p.id in Ids(vals) then |vals| else |vals| + 1
    decreases |vals|
  {
    if vals == [] then [p]
    else if vals[0].id == p.id then [p] + vals[1..]
    else
      assert Ids(vals) == [vals[0].id] + Ids(vals[1..]);
      [vals[0]] + Upsert(vals[1..], p)
  }

  /** Assigning a key keeps the key order, and a new key goes last. */
  lemma {:induction false} UpsertIds(vals: seq<Candidate>, p: Candidate)
    ensures Ids(Upsert(vals, p)) == if p.id in Ids(vals) then Ids(vals) else Ids(vals) + [p.id]
    decreases |vals|
  {
    if vals != [] {
      if vals[0].id == p.id {
        UpsertIdsHead(vals, p);
      } else {
        UpsertIds(vals[1..], p);
        UpsertIdsStep(vals, p);
      }
    }
  }

  /** Assigning the first key replaces the first value and keeps every key. */
  lemma UpsertIdsHead(vals: seq<Candidate>, p: Candidate)
    requires vals != [] && vals[0].id == p.id
    ensures p.id in Ids(vals) && Ids(Upsert(vals, p)) == Ids(vals)
  {
    assert Ids(vals)[0] == p.id;
    assert Upsert(vals, p) == [p] + vals[1..];
  }

  /** `UpsertIds` for `vals` from `UpsertIds` for its tail, when the first key is another. */
  lemma UpsertIdsStep(vals: seq<Candidate>, p: Candidate)
    requires vals != [] && vals[0].id != p.id
    requires Ids(Upsert(vals[1..], p)) ==
      if p.id in Ids(vals[1..]) then Ids(vals[1..]) else Ids(vals[1..]) + [p.id]
    ensures Ids(Upsert(vals, p)) == if p.id in Ids(vals) then Ids(vals) else Ids(vals) + [p.id]
  {
    var tail := vals[1..];
    var rest := Upsert(tail, p);
    assert Upsert(vals, p) == [vals[0]] + rest;
    IdsAppend([vals[0]], rest);
    assert vals == [vals[0]] + tail;
    IdsAppend([vals[0]], tail);
  }

  /**
   * After `merged[p.id] = p` the dict holds `p`, every value it held under
   * another key, and nothing else.
   */
  lemma {:induction false} UpsertMembers(vals: seq<Candidate>, p: Candidate)
    ensures p in Upsert(vals, p)
    ensures forall x :: x in Upsert(vals, p) ==> x == p || x in vals
    ensures forall x :: x in vals && x.id != p.id ==> x in Upsert(vals, p)
    decreases |vals|
  {
    if vals != [] && vals[0].id != p.id {
      var tail := vals[1..];
      UpsertMembers(tail, p);
      assert Upsert(vals, p) == [vals[0]] + Upsert(tail, p);
      assert vals == [vals[0]] + tail;
    } else if vals != [] {
      assert vals == [vals[0]] + vals[1..];
    }
  }

  /** Assigning a key the dict does not hold appends it. */
  lemma {:induction false} UpsertFresh(vals: seq<Candidate>, p: Candidate)
    requires p.id !in Ids(vals)
    ensures Upsert(vals, p) == vals + [p]
    decreases |vals|
  {
    if vals != [] {
      assert vals[0].id == Ids(vals)[0];
      assert Ids(vals[1..]) == Ids(vals)[1..];
      UpsertFresh(vals[1..], p);
      assert vals == [vals[0]] + vals[1..];
    }
  }

  /** The keys of a sequence in first-occurrence order. */
  function Distinct(xs: seq<string>): seq<string>
    decreases |xs|
  {
    if xs == [] then []
    else
      var d := Distinct(xs[..|xs| - 1]);
      if xs[|xs| - 1] in d then d else d + [xs[|xs| - 1]]
  }

  /** `Distinct(xs)` holds exactly the keys of `xs`, each once. */
  lemma {:induction false} DistinctMembers(xs: seq<string>)
    ensures forall x :: x in Distinct(xs) <==> x in xs
    ensures forall i, j :: 0 <= i < j < |Distinct(xs)| ==> Distinct(xs)[i] != Distinct(xs)[j]
    decreases |xs|
  {
    if xs != [] {
      var init, y := xs[..|xs| - 1], xs[|xs| - 1];
      DistinctMembers(init);
      assert xs == init + [y];
    }
  }

  /** Dropping repeats never lengthens a sequence of keys. */
  lemma {:induction false} DistinctLength(xs: seq<string>)
    ensures |Distinct(xs)| <= |xs|
    decreases |xs|
  {
    if xs != [] {
      DistinctLength(xs[..|xs| - 1]);
    }
  }

  /** `[x for x in xs if x not in ys]` */
  function Without(xs: seq<string>, ys: seq<string>): seq<string>
    decreases |xs|
  {
    if xs == [] then []
    else Without(xs[..|xs| - 1], ys) + (if xs[|xs| - 1] in ys then [] else [xs[|xs| - 1]])
  }

  /** `Without(xs, ys)` holds exactly the keys of `xs` that `ys` lacks. */
  lemma {:induction false} WithoutMembers(xs: seq<string>, ys: seq<string>)
    ensures forall x :: x in Without(xs, ys) <==> x in xs && x !in ys
    decreases |xs|
  {
    if xs != [] {
      var init, y := xs[..|xs| - 1], xs[|xs| - 1];
      WithoutMembers(init, ys);
      assert xs == init + [y];
    }
  }

  /** Position `i` holds the last occurrence of its id in `s`: the write that wins. */
  ghost predicate LastOf(s: seq<Candidate>, i: int) {
    0 <= i < |s| && forall j :: i < j < |s| ==> s[j].id != s[i].id
  }

  /**
   * Inserting every candidate of `s` in order into an empty dict and reading
   * back its values.
   */
  function MergeById(s: seq<Candidate>): (r: seq<Candidate>)
    ensures |r| <= |s|
    decreases |s|
  {
    if s == [] then [] else Upsert(MergeById(s[..|s| - 1]), s[|s| - 1])
  }

  /** Writing the next candidate of `k` into the dict that holds `v` and the first `i` of `k`. */
  lemma MergeStep(v: seq<Candidate>, k: seq<Candidate>, i: int)
    requires 0 <= i < |k|
    ensures MergeById(v + k[..i + 1]) == Upsert(MergeById(v + k[..i]), k[i])
  {
    var s := v + k[..i + 1];
    assert s[..|s| - 1] == v + k[..i];
  }

  /** The merged ids are the distinct input ids, in first-occurrence order. */
  lemma {:induction false} MergeIds(s: seq<Candidate>)
    ensures Ids(MergeById(s)) == Distinct(Ids(s))
    decreases |s|
  {
    if s != [] {
      var init, last := s[..|s| - 1], s[|s| - 1];
      MergeIds(init);
      var xs := Ids(s);
      assert xs[..|xs| - 1] == Ids(init) && xs[|xs| - 1] == last.id;
      var d := Distinct(Ids(init));
      assert Distinct(xs) == if last.id in d then d else d + [last.id];
      UpsertIds(MergeById(init), last);
    }
  }

  /** The merge never holds two candidates with the same id. */
  lemma MergeNoDup(s: seq<Candidate>)
    ensures NoDupIds(MergeById(s))
  {
    var r := MergeById(s);
    MergeIds(s);
    DistinctMembers(Ids(s));
    forall i, j | 0 <= i < j < |r| ensures r[i].id != r[j].id {
      assert Ids(r)[i] != Ids(r)[j];
    }
  }

  /** Every merged candidate is one of the inputs. */
  lemma {:induction false} MergeMembers(s: seq<Candidate>)
    ensures forall x :: x in MergeById(s) ==> x in s
    decreases |s|
  {
    if s != [] {
      var init, last := s[..|s| - 1], s[|s| - 1];
      MergeMembers(init);
      assert s == init + [last];
      MergeMembersStep(init, last);
    }
  }

  /** `MergeMembers` for `init + [last]` from `MergeMembers` for `init`. */
  lemma MergeMembersStep(init: seq<Candidate>, last: Candidate)
    requires forall x :: x in MergeById(init) ==> x in init
    ensures forall x :: x in MergeById(init + [last]) ==> x in init + [last]
  {
    assert (init + [last])[..|init|] == init;
    UpsertMembers(MergeById(init), last);
  }

  /** The last candidate written under an id is the one the merge keeps (last write wins). */
  lemma {:induction false} MergeKeepsLast(s: seq<Candidate>, i: int)
    requires LastOf(s, i)
    ensures s[i] in MergeById(s)
    decreases |s|
  {
    var init := s[..|s| - 1];
    UpsertMembers(MergeById(init), s[|s| - 1]);
    if i < |s| - 1 {
      assert LastOf(init, i);
      MergeKeepsLast(init, i);
      assert s[i].id != s[|s| - 1].id;
    }
  }

  /** A list whose ids are already unique passes through the merge unchanged. */
  lemma {:induction false} MergeUnique(s: seq<Candidate>)
    requires NoDupIds(s)
    ensures MergeById(s) == s
    decreases |s|
  {
    if s != [] {
      var init, last := s[..|s| - 1], s[|s| - 1];
      MergeUnique(init);
      assert last.id !in Ids(init) by {
        forall i | 0 <= i < |init| ensures Ids(init)[i] != last.id {
          assert s[i].id != s[|s| - 1].id;
        }
      }
      UpsertFresh(init, last);
      assert init + [last] == s;
    }
  }

  /** Appending one key to `xs` appends it to `Without(xs, ys)` unless `ys` holds it. */
  lemma WithoutSnoc(xs: seq<string>, y: string, ys: seq<string>)
    ensures Without(xs + [y], ys) == Without(xs, ys) + (if y in ys then [] else [y])
  {
    assert (xs + [y])[..|xs|] == xs;
  }

  /** Appending one key to `xs` appends it to `Distinct(xs)` unless it is already there. */
  lemma DistinctSnoc(xs: seq<string>, y: string)
    ensures Distinct(xs + [y]) == if y in Distinct(xs) then Distinct(xs) else Distinct(xs) + [y]
  {
    assert (xs + [y])[..|xs|] == xs;
  }

  /**
   * Merging `a` and then `b`: the keys of `a` in their first-occurrence
   * order, then the keys found only in `b`, in their first-occurrence
   * order in `b`.
   */
  lemma {:induction false} DistinctAppend(a: seq<string>, b: seq<string>)
    ensures Distinct(a + b) == Distinct(a) + Without(Distinct(b), a)
    decreases |b|
  {
    if b == [] {
      assert a + b == a;
    } else {
      var bi, y := b[..|b| - 1], b[|b| - 1];
      DistinctAppend(a, bi);
      assert b == bi + [y];
      DistinctAppendStep(a, bi, y);
    }
  }

  /** One more key `y` at the end of `b` keeps `DistinctAppend`'s equation. */
  lemma DistinctAppendStep(a: seq<string>, bi: seq<string>, y: string)
    requires Distinct(a + bi) == Distinct(a) + Without(Distinct(bi), a)
    ensures Distinct(a + (bi + [y])) == Distinct(a) + Without(Distinct(bi + [y]), a)
  {
    var d := Distinct(a + bi);
    assert Distinct(a + (bi + [y])) == if y in d then d else d + [y] by {
      assert a + (bi + [y]) == (a + bi) + [y];
      DistinctSnoc(a + bi, y);
    }
    DistinctSnoc(bi, y);
    assert y in d <==> y in a || y in Distinct(bi) by {
      DistinctMembers(a + bi);
      DistinctMembers(bi);
      assert y in a + bi <==> y in a || y in bi;
    }
    if y !in Distinct(bi) {
      DistinctAppendNew(a, bi, y);
    }
  }

  /** The step of `DistinctAppendStep` for a key new to `bi`. */
  lemma DistinctAppendNew(a: seq<string>, bi: seq<string>, y: string)
    requires y !in Distinct(bi)
    requires Distinct(bi + [y]) == Distinct(bi) + [y]
    requires Distinct(a + (bi + [y])) == if y in a then Distinct(a + bi) else Distinct(a + bi) + [y]
    requires Distinct(a + bi) == Distinct(a) + Without(Distinct(bi), a)
    ensures Distinct(a + (bi + [y])) == Distinct(a) + Without(Distinct(bi + [y]), a)
  {
    var w := Without(Distinct(bi), a);
    WithoutSnoc(Distinct(bi), y, a);
    if y !in a {
      Assoc(Distinct(a), w, [y]);
    } else {
      assert w + [] == w;
    }
  }
}
