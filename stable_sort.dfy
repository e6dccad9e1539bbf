/**
 * The stable sort behind every `[...tasks].sort(comparator)` of the program.
 * `Array.prototype.sort` is stable, and every comparator the program uses
 * orders tasks by a lexicographic key of (at most) three integers; the modules
 * that sort define that key next to a function that mirrors their comparator
 * and prove that the two agree.
 */
module StableSort {
  import opened Types

  type Key = (int, int, int)

  /** Lexicographic order on keys: the comparator returns a negative number. */
  predicate KeyLess(a: Key, b: Key) {
    a.0 < b.0 || (a.0 == b.0 && (a.1 < b.1 || (a.1 == b.1 && a.2 < b.2)))
  }

  /** No task is followed by one whose key is strictly smaller. */
  ghost predicate SortedBy(s: seq<Task>, key: Task -> Key) {
    forall i, j :: 0 <= i < j < |s| ==> !KeyLess(key(s[j]), key(s[i]))
  }

  /**
   * Inserts `x` into `s` after every leading element whose key is not
   * greater than x's, so an inserted element stays behind its equals.
   */
  function Insert(x: Task, s: seq<Task>, key: Task -> Key): (r: seq<Task>)
    ensures multiset(r) == multiset(s) + multiset{x}
  {
    if s == [] then [x]
    else if KeyLess(key(x), key(s[0])) then [x] + s
    else
      assert s == [s[0]] + s[1..];
      [s[0]] + Insert(x, s[1..], key)
  }

  /** Inserting into a sorted list keeps it sorted. */
  lemma {:induction false} InsertSorted(x: Task, s: seq<Task>, key: Task -> Key)
    requires SortedBy(s, key)
    ensures SortedBy(Insert(x, s, key), key)
  {
    if s == [] {
    } else if KeyLess(key(x), key(s[0])) {
      forall j | 0 <= j < |s| ensures !KeyLess(key(s[j]), key(x)) {
        if j > 0 {
          assert !KeyLess(key(s[j]), key(s[0]));
        }
      }
      ConsSorted(x, s, key);
    } else {
      var rest := Insert(x, s[1..], key);
      assert SortedBy(s[1..], key);
      InsertSorted(x, s[1..], key);
      forall i | 0 <= i < |rest| ensures !KeyLess(key(rest[i]), key(s[0])) {
        assert rest[i] in multiset(rest);
        if rest[i] != x {
          assert rest[i] in multiset(s[1..]);
          var j :| 0 <= j < |s[1..]| && s[1..][j] == rest[i];
          assert s[j + 1] == rest[i];
        }
      }
      ConsSorted(s[0], rest, key);
    }
  }

  /** A head no greater than any element in front of a sorted list gives a sorted list. */
  lemma ConsSorted(h: Task, s: seq<Task>, key: Task -> Key)
    requires SortedBy(s, key)
    requires forall j :: 0 <= j < |s| ==> !KeyLess(key(s[j]), key(h))
    ensures SortedBy([h] + s, key)
  {
    var r := [h] + s;
    assert forall j :: 1 <= j < |r| ==> r[j] == s[j - 1];
  }

  /** Stable insertion sort of `s` by `key`. */
  function SortBy(s: seq<Task>, key: Task -> Key): (r: seq<Task>)
    ensures multiset(r) == multiset(s)
    ensures SortedBy(r, key)
  {
    if s == [] then []
    else
      assert s == s[..|s| - 1] + [s[|s| - 1]];
      var init := SortBy(s[..|s| - 1], key);
      InsertSorted(s[|s| - 1], init, key);
      Insert(s[|s| - 1], init, key)
  }

  /** The elements of `s` whose key is `k`, in their order in `s`. */
  function Class(s: seq<Task>, key: Task -> Key, k: Key): seq<Task> {
    if s == [] then []
    else (if key(s[0]) == k then [s[0]] else []) + Class(s[1..], key, k)
  }

  lemma {:induction false} ClassAppend(a: seq<Task>, b: seq<Task>, key: Task -> Key, k: Key)
    ensures Class(a + b, key, k) == Class(a, key, k) + Class(b, key, k)
  {
    if a != [] {
      assert (a + b)[1..] == a[1..] + b;
      ClassAppend(a[1..], b, key, k);
    } else {
      assert a + b == b;
    }
  }

  lemma {:induction false} ClassEmptyBelowFirst(s: seq<Task>, key: Task -> Key, k: Key)
    requires SortedBy(s, key) && s != [] && KeyLess(k, key(s[0]))
    ensures Class(s, key, k) == []
  {
    if |s| > 1 {
      assert !KeyLess(key(s[1]), key(s[0]));
      ClassEmptyBelowFirst(s[1..], key, k);
    }
  }

  lemma {:induction false} InsertClass(x: Task, s: seq<Task>, key: Task -> Key, k: Key)
    requires SortedBy(s, key)
    ensures Class(Insert(x, s, key), key, k) == Class(s, key, k) + (if key(x) == k then [x] else [])
  {
    if s == [] {
    } else if KeyLess(key(x), key(s[0])) {
      assert ([x] + s)[1..] == s;
      if key(x) == k {
        ClassEmptyBelowFirst(s, key, k);
      }
    } else {
      var rest := Insert(x, s[1..], key);
      assert ([s[0]] + rest)[1..] == rest;
      SortedTail(s, key);
      InsertClass(x, s[1..], key, k);
    }
  }

  lemma SortedTail(s: seq<Task>, key: Task -> Key)
    requires s != [] && SortedBy(s, key)
    ensures SortedBy(s[1..], key)
  {
    forall i, j | 0 <= i < j < |s| - 1 ensures !KeyLess(key(s[1..][j]), key(s[1..][i])) {
      assert s[1..][i] == s[i + 1] && s[1..][j] == s[j + 1];
    }
  }

  /**
   * Stability: the tasks of each key class appear in the result in exactly
   * their input order.
   */
  lemma {:induction false} SortByStable(s: seq<Task>, key: Task -> Key, k: Key)
    ensures Class(SortBy(s, key), key, k) == Class(s, key, k)
  {
    if s != [] {
      var init, last := s[..|s| - 1], s[|s| - 1];
      assert s == init + [last];
      SortByStable(init, key, k);
      InsertClass(last, SortBy(init, key), key, k);
      ClassAppend(init, [last], key, k);
    }
  }

  lemma {:induction false} InsertAtEnd(x: Task, s: seq<Task>, key: Task -> Key)
    requires forall i :: 0 <= i < |s| ==> !KeyLess(key(x), key(s[i]))
    ensures Insert(x, s, key) == s + [x]
  {
    if s != [] {
      InsertAtEnd(x, s[1..], key);
      assert s == [s[0]] + s[1..];
    }
  }

  /** Sorting an already sorted list changes nothing. */
  lemma {:induction false} SortBySortedIsIdentity(s: seq<Task>, key: Task -> Key)
    requires SortedBy(s, key)
    ensures SortBy(s, key) == s
  {
    if s != [] {
      var init, last := s[..|s| - 1], s[|s| - 1];
      assert s == init + [last];
      assert SortedBy(init, key) by {
        forall i, j | 0 <= i < j < |init| ensures !KeyLess(key(init[j]), key(init[i])) {
          assert init[i] == s[i] && init[j] == s[j];
        }
      }
      SortBySortedIsIdentity(init, key);
      forall i | 0 <= i < |init| ensures !KeyLess(key(last), key(init[i])) {
        assert init[i] == s[i];
      }
      InsertAtEnd(last, init, key);
    }
  }
}
