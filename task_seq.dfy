/**
 * `Array.prototype.filter`, `slice(0, n)` and `map(t => t.id)` over task
 * lists, with the facts the rest of the model needs about them.
 */
module TaskSeq {
  import opened Types

  /** `ts.filter(keep)`: the tasks satisfying `keep`, in their order. */
  function Filter(ts: seq<Task>, keep: Task -> bool): (r: seq<Task>)
    ensures |r| <= |ts|
    ensures forall t :: t in r <==> t in ts && keep(t)
  {
    if ts == [] then []
    else (if keep(ts[0]) then [ts[0]] else []) + Filter(ts[1..], keep)
  }

  /** Filtering distributes over concatenation, so it keeps the relative order of what it keeps. */
  lemma {:induction false} FilterAppend(a: seq<Task>, b: seq<Task>, keep: Task -> bool)
    ensures Filter(a + b, keep) == Filter(a, keep) + Filter(b, keep)
  {
    if a == [] {
      assert a + b == b;
    } else {
      assert (a + b)[1..] == a[1..] + b;
      FilterAppend(a[1..], b, keep);
    }
  }

  lemma {:induction false} FilterAll(ts: seq<Task>, keep: Task -> bool)
    requires forall t :: t in ts ==> keep(t)
    ensures Filter(ts, keep) == ts
  {
    if ts != [] {
      FilterAll(ts[1..], keep);
      assert ts == [ts[0]] + ts[1..];
    }
  }

  lemma {:induction false} FilterNone(ts: seq<Task>, keep: Task -> bool)
    requires forall t :: t in ts ==> !keep(t)
    ensures Filter(ts, keep) == []
  {
    if ts != [] {
      FilterNone(ts[1..], keep);
    }
  }

  /** Filtering twice with the same test is filtering once. */
  lemma {:induction false} FilterIdempotent(ts: seq<Task>, keep: Task -> bool)
    ensures Filter(Filter(ts, keep), keep) == Filter(ts, keep)
  {
    FilterAll(Filter(ts, keep), keep);
  }

  /** Two tests that agree on every task filter alike. */
  lemma {:induction false} FilterSameTest(ts: seq<Task>, f: Task -> bool, g: Task -> bool)
    requires forall t :: t in ts ==> f(t) == g(t)
    ensures Filter(ts, f) == Filter(ts, g)
  {
    if ts != [] {
      FilterSameTest(ts[1..], f, g);
    }
  }

  /** Filter sizes split the list: what `keep` keeps plus what it drops. */
  lemma {:induction false} FilterSplit(ts: seq<Task>, keep: Task -> bool, drop: Task -> bool)
    requires forall t :: t in ts ==> (keep(t) <==> !drop(t))
    ensures |Filter(ts, keep)| + |Filter(ts, drop)| == |ts|
  {
    if ts != [] {
      FilterSplit(ts[1..], keep, drop);
    }
  }

  /** A test implied by another keeps at least as many tasks. */
  lemma {:induction false} FilterMonotone(ts: seq<Task>, f: Task -> bool, g: Task -> bool)
    requires forall t :: t in ts && f(t) ==> g(t)
    ensures |Filter(ts, f)| <= |Filter(ts, g)|
  {
    if ts != [] {
      FilterMonotone(ts[1..], f, g);
    }
  }

  /** Filtering two permutations of each other keeps as many tasks from each. */
  lemma {:induction false} FilterCountPermutation(a: seq<Task>, b: seq<Task>, keep: Task -> bool)
    requires multiset(a) == multiset(b)
    ensures |Filter(a, keep)| == |Filter(b, keep)|
    decreases |a|
  {
    if a == [] {
      assert |b| == |multiset(b)| == 0;
    } else {
      assert a[0] in multiset(b);
      var j :| 0 <= j < |b| && b[j] == a[0];
      RemoveAt(b, j, keep);
      assert a == [a[0]] + a[1..];
      assert multiset(a[1..]) == multiset(a) - multiset{a[0]};
      FilterCountPermutation(a[1..], b[..j] + b[j + 1..], keep);
    }
  }

  /** Removing the element at `j` removes it from the multiset and from the filter count. */
  lemma RemoveAt(b: seq<Task>, j: int, keep: Task -> bool)
    requires 0 <= j < |b|
    ensures multiset(b[..j] + b[j + 1..]) == multiset(b) - multiset{b[j]}
    ensures |Filter(b, keep)| == |Filter(b[..j] + b[j + 1..], keep)| + (if keep(b[j]) then 1 else 0)
  {
    assert b == b[..j] + [b[j]] + b[j + 1..];
    FilterAppend(b[..j] + [b[j]], b[j + 1..], keep);
    FilterAppend(b[..j], [b[j]], keep);
    FilterAppend(b[..j], b[j + 1..], keep);
    assert [b[j]][1..] == [];
  }

  /** A relation that holds between every earlier and later task still holds after filtering. */
  lemma {:induction false} FilterPairwise(s: seq<Task>, keep: Task -> bool, le: (Task, Task) -> bool)
    requires forall i, j :: 0 <= i < j < |s| ==> le(s[i], s[j])
    ensures forall i, j :: 0 <= i < j < |Filter(s, keep)| ==> le(Filter(s, keep)[i], Filter(s, keep)[j])
  {
    if s != [] {
      var rest := Filter(s[1..], keep);
      FilterPairwise(s[1..], keep, le);
      forall t | t in s[1..] ensures le(s[0], t) {
        var k :| 0 <= k < |s[1..]| && s[1..][k] == t;
        assert s[k + 1] == t;
      }
      if keep(s[0]) {
        var r := [s[0]] + rest;
        assert r == Filter(s, keep);
        forall i, j | 0 <= i < j < |r| ensures le(r[i], r[j]) {
          assert r[j] == rest[j - 1];
          if i == 0 {
            assert rest[j - 1] in rest;
            assert rest[j - 1] in s[1..];
          } else {
            assert r[i] == rest[i - 1];
            assert le(rest[i - 1], rest[j - 1]);
          }
        }
      }
    }
  }

  /**
   * The positions in `ts` of the tasks `Filter` keeps: strictly increasing,
   * one per kept task, so the filtered list is a subsequence of `ts` in the
   * same order.
   */
  function KeptIndices(ts: seq<Task>, keep: Task -> bool): (idx: seq<int>)
    ensures |idx| == |Filter(ts, keep)|
  {
    if ts == [] then []
    else if keep(ts[0]) then [0] + Shift(KeptIndices(ts[1..], keep))
    else Shift(KeptIndices(ts[1..], keep))
  }

  /** `idx` lists strictly increasing positions of `ts` holding the elements of `r` in turn. */
  predicate Embeds(ts: seq<Task>, r: seq<Task>, idx: seq<int>) {
    |idx| == |r|
    && (forall k :: 0 <= k < |idx| ==> 0 <= idx[k] < |ts| && ts[idx[k]] == r[k])
    && (forall k, l :: 0 <= k < l < |idx| ==> idx[k] < idx[l])
  }

  /** The kept positions embed the filtered list in the original one. */
  lemma {:induction false} KeptIndicesEmbed(ts: seq<Task>, keep: Task -> bool)
    ensures Embeds(ts, Filter(ts, keep), KeptIndices(ts, keep))
  {
    if ts != [] {
      KeptIndicesEmbed(ts[1..], keep);
      ShiftEmbeds(ts, Filter(ts[1..], keep), KeptIndices(ts[1..], keep));
      if keep(ts[0]) {
        ConsEmbeds(ts, Filter(ts[1..], keep), Shift(KeptIndices(ts[1..], keep)));
      }
    }
  }

  /** An embedding into the tail, moved one place right, embeds into the whole list past its head. */
  lemma ShiftEmbeds(ts: seq<Task>, r: seq<Task>, idx: seq<int>)
    requires ts != [] && Embeds(ts[1..], r, idx)
    ensures Embeds(ts, r, Shift(idx))
    ensures forall k :: 0 <= k < |idx| ==> Shift(idx)[k] >= 1
  {
    var shifted := Shift(idx);
    forall k | 0 <= k < |shifted|
      ensures 1 <= shifted[k] < |ts| && ts[shifted[k]] == r[k]
    {
      assert ts[1..][idx[k]] == r[k];
    }
  }

  /** Putting the head in front of an embedding past the head embeds the longer list. */
  lemma ConsEmbeds(ts: seq<Task>, r: seq<Task>, idx: seq<int>)
    requires ts != [] && Embeds(ts, r, idx)
    requires forall k :: 0 <= k < |idx| ==> idx[k] >= 1
    ensures Embeds(ts, [ts[0]] + r, [0] + idx)
  {
    var full := [0] + idx;
    assert forall k :: 1 <= k < |full| ==> full[k] == idx[k - 1];
  }

  /** Every position moved one place right. */
  function Shift(idx: seq<int>): (r: seq<int>)
    ensures |r| == |idx| && forall k :: 0 <= k < |idx| ==> r[k] == idx[k] + 1
  {
    if idx == [] then [] else [idx[0] + 1] + Shift(idx[1..])
  }

  /** `slice(0, n)`. */
  function Take(ts: seq<Task>, n: nat): (r: seq<Task>)
    ensures |r| == if n < |ts| then n else |ts|
    ensures forall i :: 0 <= i < |r| ==> r[i] == ts[i]
  {
    if n < |ts| then ts[..n] else ts
  }

  /** `map(t => t.id)`. */
  function Ids(ts: seq<Task>): (r: seq<string>)
    ensures |r| == |ts|
    ensures forall i :: 0 <= i < |ts| ==> r[i] == ts[i].id
  {
    if ts == [] then [] else [ts[0].id] + Ids(ts[1..])
  }
}
