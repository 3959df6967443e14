/**
 * The java.lang.String operations the request-token parser relies on:
 * `indexOf` of a one-character string, `contains` and `split` with a
 * one-character separator.
 */
module JavaStrings {

  /**
   * `s.indexOf(c)`: the first position of `c` in `s`, or -1 when there is none. For a
   * one-character string such as `"="`, `indexOf(String)` gives the same answer.
   */
  function IndexOf(s: string, c: char): (i: int)
    ensures -1 <= i < |s|
    ensures i == -1 <==> c !in s
    ensures 0 <= i ==> s[i] == c && c !in s[..i]
  {
    if |s| == 0 then -1
    else if s[0] == c then 0
    else
      var j := IndexOf(s[1..], c);
      if j == -1 then -1 else j + 1
  }

  /** The first occurrence of `c` is fixed by the prefix before it. */
  lemma {:induction false} IndexOfAppend(a: string, b: string, c: char)
    requires c !in a
    ensures IndexOf(a + b, c) == if c in b then |a| + IndexOf(b, c) else -1
  {
    if a == [] {
      assert a + b == b;
    } else {
      assert (a + b)[0] == a[0];
      assert (a + b)[1..] == a[1..] + b;
      IndexOfAppend(a[1..], b, c);
    }
  }

  /** A `c` with no `c` before it is the one `indexOf` finds. */
  lemma {:induction false} IndexOfFirst(s: string, c: char, i: int)
    requires 0 <= i < |s| && s[i] == c && c !in s[..i]
    ensures IndexOf(s, c) == i
  {
    if i > 0 {
      assert s[0] == s[..i][0];
      assert s[1..][i - 1] == s[i];
      assert s[1..][..i - 1] == s[..i][1..];
      IndexOfFirst(s[1..], c, i - 1);
    }
  }

  /** `sub` occurs in `s` starting at position `i`. */
  ghost predicate OccursAt(s: string, sub: string, i: int)
  {
    0 <= i <= |s| - |sub| && s[i..i + |sub|] == sub
  }

  /** `s.contains(sub)`. */
  function Contains(s: string, sub: string): (b: bool)
    ensures b <==> exists i :: OccursAt(s, sub, i)
    decreases |s|
  {
    if sub <= s then
      assert OccursAt(s, sub, 0);
      true
    else if |s| == 0 then
      false
    else
      var rest := Contains(s[1..], sub);
      assert rest ==> OccursAt(s, sub, 0) || exists i :: OccursAt(s, sub, i) by {
        if rest {
          var k :| OccursAt(s[1..], sub, k);
          assert s[k + 1..k + 1 + |sub|] == s[1..][k..k + |sub|];
          assert OccursAt(s, sub, k + 1);
        }
      }
      assert |sub| > |s| || s[..|sub|] != sub;
      assert forall i | OccursAt(s, sub, i) && i > 0 :: OccursAt(s[1..], sub, i - 1) by {
        forall i | OccursAt(s, sub, i) && i > 0 ensures OccursAt(s[1..], sub, i - 1) {
          assert s[1..][i - 1..i - 1 + |sub|] == s[i..i + |sub|];
        }
      }
      rest
  }

  /** A string contains its own prefix. */
  lemma ContainsPrefix(s: string, rest: string)
    ensures Contains(s + rest, s)
  {
    assert (s + rest)[..|s|] == s;
    assert OccursAt(s + rest, s, 0);
  }

  /** The pieces of `s` between the occurrences of `c`, empty pieces included. */
  function SplitAll(s: string, c: char): (parts: seq<string>)
    ensures |parts| >= 1
    ensures forall k | 0 <= k < |parts| :: c !in parts[k]
    decreases |s|
  {
    var i := IndexOf(s, c);
    if i == -1 then [s] else [s[..i]] + SplitAll(s[i + 1..], c)
  }

  /** The pieces glued back together with `c` between them. */
  function Join(parts: seq<string>, c: char): string
    requires |parts| >= 1
  {
    if |parts| == 1 then parts[0] else parts[0] + [c] + Join(parts[1..], c)
  }

  /** Splitting at every `c` loses nothing: joining the pieces gives `s` back. */
  lemma {:induction false} JoinSplitAll(s: string, c: char)
    ensures Join(SplitAll(s, c), c) == s
    decreases |s|
  {
    var i := IndexOf(s, c);
    if i != -1 {
      var rest := s[i + 1..];
      var tail := SplitAll(rest, c);
      SplitAllAt(s, c, i);
      JoinCons(s[..i], tail, c);
      JoinSplitAll(rest, c);
      assert s[..i] + [c] + rest == s;
    }
  }

  /** `split` around a first `c` at position `i`: the piece before it, then the pieces after it. */
  lemma SplitAllAt(s: string, c: char, i: int)
    requires 0 <= i < |s| && s[i] == c && c !in s[..i]
    ensures SplitAll(s, c) == [s[..i]] + SplitAll(s[i + 1..], c)
  {
    IndexOfFirst(s, c, i);
  }

  /** Joining a first piece in front of more pieces. */
  lemma JoinCons(head: string, tail: seq<string>, c: char)
    requires |tail| >= 1
    ensures Join([head] + tail, c) == head + [c] + Join(tail, c)
  {
    assert ([head] + tail)[1..] == tail;
  }

  /** Pieces free of `c` are recovered by splitting their join. */
  lemma {:induction false} SplitAllJoin(parts: seq<string>, c: char)
    requires |parts| >= 1
    requires forall k | 0 <= k < |parts| :: c !in parts[k]
    ensures SplitAll(Join(parts, c), c) == parts
  {
    if |parts| > 1 {
      var head, tail := parts[0], parts[1..];
      SplitAllJoin(tail, c);
      assert [head] + tail == parts;
      JoinCons(head, tail, c);
      var s := head + [c] + Join(tail, c);
      assert s[|head|] == c && s[..|head|] == head && s[|head| + 1..] == Join(tail, c);
      SplitAllAt(s, c, |head|);
    }
  }

  /** Joining one more, empty, piece adds one `c` at the end. */
  lemma {:induction false} JoinAppendEmpty(parts: seq<string>, c: char)
    requires |parts| >= 1
    ensures Join(parts + [""], c) == Join(parts, c) + [c]
  {
    var longer := parts + [""];
    assert longer[0] == parts[0];
    if |parts| == 1 {
      assert longer[1..] == [""];
    } else {
      assert longer[1..] == parts[1..] + [""];
      JoinAppendEmpty(parts[1..], c);
    }
  }

  /** Splitting `s` followed by one more `c` adds one empty piece at the end. */
  lemma SplitAllAppendSeparator(s: string, c: char)
    ensures SplitAll(s + [c], c) == SplitAll(s, c) + [""]
  {
    var parts := SplitAll(s, c);
    JoinSplitAll(s, c);
    JoinAppendEmpty(parts, c);
    SplitAllJoin(parts + [""], c);
  }

  /** What `String.split` does to its result when the limit is zero. */
  function DropTrailingEmpty(parts: seq<string>): (r: seq<string>)
    ensures r <= parts
    ensures r == [] || r[|r| - 1] != ""
    ensures forall j | |r| <= j < |parts| :: parts[j] == ""
  {
    if parts == [] || parts[|parts| - 1] != "" then parts
    else DropTrailingEmpty(parts[..|parts| - 1])
  }

  /** An empty piece at the end never survives. */
  lemma DropTrailingEmptyAppendEmpty(parts: seq<string>)
    ensures DropTrailingEmpty(parts + [""]) == DropTrailingEmpty(parts)
  {
    assert (parts + [""])[..|parts|] == parts;
  }

  /**
   * `s.split(String.valueOf(c))` for a separator that is not a regular-expression
   * metacharacter: `[s]` when `c` does not occur, otherwise the pieces between the
   * occurrences with the trailing empty pieces removed.
   */
  function Split(s: string, c: char): (r: seq<string>)
    ensures c !in s ==> r == [s]
    ensures r <= SplitAll(s, c)
    ensures forall j | |r| <= j < |SplitAll(s, c)| :: SplitAll(s, c)[j] == ""
    ensures c in s && r != [] ==> r[|r| - 1] != ""
    ensures forall k | 0 <= k < |r| :: c !in r[k]
  {
    if c !in s then [s] else DropTrailingEmpty(SplitAll(s, c))
  }

  /** A separator at the end of a non-empty string changes nothing. */
  lemma TrailingSeparatorIgnored(s: string, c: char)
    requires s != ""
    ensures Split(s + [c], c) == Split(s, c)
  {
    SplitAllAppendSeparator(s, c);
    DropTrailingEmptyAppendEmpty(SplitAll(s, c));
    if c !in s {
      assert SplitAll(s, c) == [s];
    }
  }

  /** A string made only of separators splits into nothing at all. */
  lemma {:induction false} OnlySeparators(n: nat, c: char)
    requires n >= 1
    ensures Split(seq(n, _ => c), c) == []
  {
    var s := seq(n, _ => c);
    assert s[0] == c;
    if n == 1 {
      assert s == [] + [c];
      SplitAllAppendSeparator([], c);
      assert IndexOf([], c) == -1;
    } else {
      var t := seq(n - 1, _ => c);
      assert s == t + [c];
      OnlySeparators(n - 1, c);
      TrailingSeparatorIgnored(t, c);
    }
  }
}
