/** String tests the source performs with `String.prototype.startsWith`,
    `includes` and `substring`, over `seq<char>`, and the same-origin test
    for redirect targets built as origin followed by a path. */
module Text {
  import opened Common

  predicate StartsWith(s: string, p: string)
  {
    |p| <= |s| && s[..|p|] == p
  }

  /** `p` occurs in `s` starting at index `i`. */
  predicate OccursAt(s: string, p: string, i: int)
  {
    0 <= i && i + |p| <= |s| && s[i..i + |p|] == p
  }

  /** `s.includes(p)`: `p` occurs in `s` at some index. */
  predicate Contains(s: string, p: string)
  {
    exists i :: 0 <= i <= |s| - |p| && OccursAt(s, p, i)
  }

  /** The redirect stays on the request's origin: right after the origin comes
      the path. */
  predicate SameOrigin(location: string, origin: string)
  {
    StartsWith(location, origin + "/")
  }

  /** `next` accepted only when it is a path; anything else lands on `/`. */
  function SafeNext(next: Option<string>): (path: string)
    ensures StartsWith(path, "/")
    ensures Truthy(next) && next.value[0] == '/' ==> path == next.value
  {
    if Truthy(next) && next.value[0] == '/' then next.value else "/"
  }

  /** Appending a path to an origin keeps the origin followed by `/` in front. */
  lemma OriginThenPath(origin: string, path: string)
    requires |path| > 0 && path[0] == '/'
    ensures StartsWith(origin + path, origin + "/")
  {
    assert (origin + path)[..|origin| + 1] == origin + [path[0]];
  }

  lemma ContainsItself(p: string)
    ensures Contains(p, p)
  {
    assert OccursAt(p, p, 0);
  }

  /** An occurrence in one part is an occurrence in the concatenation. */
  lemma ContainsAppend(a: string, b: string, p: string)
    ensures Contains(a, p) ==> Contains(a + b, p)
    ensures Contains(b, p) ==> Contains(a + b, p)
  {
    if Contains(a, p) {
      var i :| 0 <= i <= |a| - |p| && OccursAt(a, p, i);
      assert (a + b)[i..i + |p|] == a[i..i + |p|];
      assert OccursAt(a + b, p, i);
    }
    if Contains(b, p) {
      var i :| 0 <= i <= |b| - |p| && OccursAt(b, p, i);
      assert (a + b)[|a| + i..|a| + i + |p|] == b[i..i + |p|];
      assert OccursAt(a + b, p, |a| + i);
    }
  }

  lemma ContainsMiddle(a: string, p: string, b: string)
    ensures Contains(a + p + b, p)
  {
    ContainsItself(p);
    ContainsAppend(a, p, p);
    ContainsAppend(a + p, b, p);
  }

  /** `s[k]`, or `d` when `k` is out of range. */
  function CharAt(s: string, k: int, d: char): char
  {
    if 0 <= k < |s| then s[k] else d
  }

  /** When `p` begins with `c`, holds `c` nowhere else, and `b` begins with
      `c`, an occurrence of `p` in `a + b` cannot straddle the seam. */
  lemma {:induction false} ContainsSplit(a: string, b: string, p: string, c: char)
    requires |p| > 0 && p[0] == c && c !in p[1..]
    requires |b| > 0 && b[0] == c
    ensures Contains(a + b, p) ==> Contains(a, p) || Contains(b, p)
  {
    if Contains(a + b, p) {
      var i :| 0 <= i <= |a + b| - |p| && OccursAt(a + b, p, i);
      // a straddling occurrence would put `c` at index |a| - i >= 1 of `p`
      assert forall j :: 0 <= j < |p| ==> (a + b)[i + j] == p[j];
      assert forall j :: 1 <= j < |p| ==> p[j] == p[1..][j - 1];
      var seam := CharAt(p, |a| - i, c);
      if i + |p| <= |a| {
        assert a[i..i + |p|] == (a + b)[i..i + |p|];
        assert OccursAt(a, p, i);
      } else if i >= |a| {
        assert b[i - |a|..i - |a| + |p|] == (a + b)[i..i + |p|];
        assert OccursAt(b, p, i - |a|);
      } else {
        assert false;
      }
    }
  }

  lemma ShorterDoesNotContain(s: string, p: string)
    requires |s| < |p|
    ensures !Contains(s, p)
  {
  }

  /** A character that `p` needs but `s` lacks rules out every occurrence. */
  lemma MissingCharNotContained(s: string, p: string, j: int)
    requires 0 <= j < |p| && p[j] !in s
    ensures !Contains(s, p)
  {
    forall i | 0 <= i <= |s| - |p|
      ensures !OccursAt(s, p, i)
    {
      assert s[i + j] != p[j];
      assert s[i..i + |p|][j] == s[i + j];
    }
  }

  // JavaScript strings count UTF-16 code units: a character outside the Basic
  // Multilingual Plane is two of them.

  function Units(c: char): nat
  {
    if c as int >= 0x1_0000 then 2 else 1
  }

  /** `s.length` in JavaScript. */
  function JsLength(s: string): (n: nat)
    ensures n >= |s|
  {
    if s == [] then 0 else Units(s[0]) + JsLength(s[1..])
  }

  /** `s.substring(0, n)`, taken as the longest prefix of whole characters whose
      JavaScript length is at most `n`. */
  function JsTake(s: string, n: nat): (r: string)
    ensures StartsWith(s, r) && JsLength(r) <= n
    ensures JsLength(s) <= n ==> r == s
    ensures |r| < |s| ==> JsLength(r) + Units(s[|r|]) > n
  {
    if s == [] then []
    else if Units(s[0]) <= n then [s[0]] + JsTake(s[1..], n - Units(s[0]))
    else []
  }
}
