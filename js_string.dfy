/**
 * The JavaScript string operations the components use: `trim`, `includes`,
 * the first piece of `split(sep)` and the piece after it, and `toLowerCase`
 * (restricted to ASCII letters).
 */
module JsString {

  /** The white space and line terminators that `String.prototype.trim` removes. */
  predicate IsSpace(c: char) {
    c == ' ' || ('\t' <= c <= '\r') || c == '\U{00A0}' || c == '\U{1680}'
    || ('\U{2000}' <= c <= '\U{200A}') || c == '\U{2028}' || c == '\U{2029}'
    || c == '\U{202F}' || c == '\U{205F}' || c == '\U{3000}' || c == '\U{FEFF}'
  }

  /** The number of white-space characters at the start of `s`. */
  function LeadingSpaces(s: string): (n: nat)
    ensures n <= |s|
    ensures forall i :: 0 <= i < n ==> IsSpace(s[i])
    ensures n < |s| ==> !IsSpace(s[n])
  {
    if s != [] && IsSpace(s[0]) then
      var n := 1 + LeadingSpaces(s[1..]);
      assert forall i :: 1 <= i < n ==> s[i] == s[1..][i - 1];
      n
    else 0
  }

  function TrimEnd(s: string): (r: string)
    ensures |r| <= |s| && r == s[..|r|]
    ensures r == [] || !IsSpace(r[|r| - 1])
    ensures forall i :: |r| <= i < |s| ==> IsSpace(s[i])
  {
    if s != [] && IsSpace(s[|s| - 1]) then
      var r := TrimEnd(s[..|s| - 1]);
      assert forall i :: |r| <= i < |s| - 1 ==> s[i] == s[..|s| - 1][i];
      r
    else s
  }

  /**
   * `trim()`: the slice of `s` left after removing white space at both ends;
   * it neither starts nor ends with white space.
   */
  function Trim(s: string): (r: string)
    ensures LeadingSpaces(s) + |r| <= |s|
    ensures r == s[LeadingSpaces(s)..LeadingSpaces(s) + |r|]
    ensures forall j :: LeadingSpaces(s) + |r| <= j < |s| ==> IsSpace(s[j])
    ensures r == [] || (!IsSpace(r[0]) && !IsSpace(r[|r| - 1]))
  {
    var i := LeadingSpaces(s);
    var a := s[i..];
    var r := TrimEnd(a);
    assert forall j :: i + |r| <= j < |s| ==> s[j] == a[j - i];
    r
  }

  /** A string trims to "" exactly when every character is white space. */
  lemma TrimEmptyIffBlank(s: string)
    ensures Trim(s) == [] <==> forall i :: 0 <= i < |s| ==> IsSpace(s[i])
  {
    if forall i :: 0 <= i < |s| ==> IsSpace(s[i]) {
      BlankTrimsEmpty(s);
    }
  }

  lemma {:induction false} BlankTrimsEmpty(s: string)
    requires forall i :: 0 <= i < |s| ==> IsSpace(s[i])
    ensures LeadingSpaces(s) == |s|
  {
    if s != [] {
      BlankTrimsEmpty(s[1..]);
    }
  }

  /** Trimming a trimmed string changes nothing. */
  lemma TrimIdempotent(s: string)
    ensures Trim(Trim(s)) == Trim(s)
  {
  }

  /** `s.includes(sub)`. */
  function Contains(s: string, sub: string): bool
    decreases |s|
  {
    |sub| <= |s| && (s[..|sub|] == sub || (s != [] && Contains(s[1..], sub)))
  }

  /** `sub` occurs in `s` starting at position `i`. */
  predicate OccursAt(s: string, sub: string, i: int) {
    0 <= i <= |s| - |sub| && s[i..i + |sub|] == sub
  }

  /** `includes` holds exactly when `sub` occurs at some position. */
  lemma {:induction false} ContainsIffOccurs(s: string, sub: string)
    ensures Contains(s, sub) <==> exists i :: OccursAt(s, sub, i)
    decreases |s|
  {
    if |sub| <= |s| && s != [] {
      ContainsIffOccurs(s[1..], sub);
      if exists i :: OccursAt(s, sub, i) {
        var i :| OccursAt(s, sub, i);
        if i > 0 {
          assert OccursAt(s[1..], sub, i - 1);
        }
      }
      if s[..|sub|] == sub {
        assert OccursAt(s, sub, 0);
      } else if Contains(s[1..], sub) {
        var i :| OccursAt(s[1..], sub, i);
        assert OccursAt(s, sub, i + 1);
      }
    } else if |sub| <= |s| {
      assert OccursAt(s, sub, 0);
    }
  }

  /** A match cannot start inside a prefix that lacks the first character of `sub`. */
  lemma {:induction false} ContainsSkip(a: string, b: string, sub: string)
    requires sub != [] && sub[0] !in a
    ensures Contains(a + b, sub) == Contains(b, sub)
  {
    if a != [] {
      assert (a + b)[1..] == a[1..] + b;
      assert |sub| <= |a + b| ==> (a + b)[..|sub|][0] == a[0];
      ContainsSkip(a[1..], b, sub);
    } else {
      assert a + b == b;
    }
  }

  /** `split(c)[0]`: the text before the first `c`, or all of `s` when there is none. */
  function Before(s: string, c: char): (r: string)
    ensures |r| <= |s| && r == s[..|r|]
    ensures c !in r
    ensures |r| < |s| ==> s[|r|] == c
  {
    if s == [] || s[0] == c then [] else [s[0]] + Before(s[1..], c)
  }

  /** The text after the first `c` (empty when there is none): a suffix of `s`. */
  function After(s: string, c: char): (r: string)
    ensures |r| <= |s|
    ensures c !in s ==> r == []
  {
    if s == [] then []
    else if s[0] == c then s[1..]
    else After(s[1..], c)
  }

  /** A string holding `c` is the text before its first `c`, that `c`, and the text after it. */
  lemma {:induction false} SplitAtFirst(s: string, c: char)
    requires c in s
    ensures s == Before(s, c) + [c] + After(s, c)
  {
    if s[0] == c {
      assert s == [] + [c] + s[1..];
    } else {
      var t := s[1..];
      assert s == [s[0]] + t;
      assert c in t;
      SplitAtFirst(t, c);
      var b, a := Before(t, c), After(t, c);
      assert Before(s, c) == [s[0]] + b;
      assert After(s, c) == a;
      assert [s[0]] + (b + [c] + a) == ([s[0]] + b) + [c] + a;
    }
  }

  /** Splitting at the first separator recovers the two sides. */
  lemma {:induction false} BeforeAfterSplit(a: string, b: string, c: char)
    requires c !in a
    ensures Before(a + [c] + b, c) == a && After(a + [c] + b, c) == b
  {
    if a != [] {
      assert (a + [c] + b)[1..] == a[1..] + [c] + b;
      BeforeAfterSplit(a[1..], b, c);
    } else {
      assert a + [c] + b == [c] + b;
    }
  }

  /** Without the separator, the first piece is the whole string. */
  lemma {:induction false} BeforeAbsent(s: string, c: char)
    requires c !in s
    ensures Before(s, c) == s
  {
    if s != [] {
      BeforeAbsent(s[1..], c);
    }
  }

  /** ASCII `toLowerCase` of one character. */
  function LowerChar(c: char): (r: char)
    ensures 'A' <= c <= 'Z' ==> r as int == c as int + 32
    ensures !('A' <= c <= 'Z') ==> r == c
  {
    if 'A' <= c <= 'Z' then (c as int + 32) as char else c
  }

  function Lower(s: string): (r: string)
    ensures |r| == |s|
    ensures forall i :: 0 <= i < |s| ==> r[i] == LowerChar(s[i])
  {
    if s == [] then [] else [LowerChar(s[0])] + Lower(s[1..])
  }

  /** Lower-casing is idempotent. */
  lemma LowerIdempotent(s: string)
    ensures Lower(Lower(s)) == Lower(s)
  {
  }
}
