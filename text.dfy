/** String helpers: the parts of .NET's string API that the modelled code
    uses (ToLower, Contains) and the joins its loops build. */
module Text {

  /** Lower-casing of one character by the invariant ASCII rule. */
  function LowerChar(c: char): char
  {
    if 'A' <= c <= 'Z' then (c as int - 'A' as int + 'a' as int) as char else c
  }

  function Lower(s: string): (r: string)
    ensures |r| == |s|
    ensures forall i :: 0 <= i < |s| ==> r[i] == LowerChar(s[i])
  {
    seq(|s|, i requires 0 <= i < |s| => LowerChar(s[i]))
  }

  /** `part` occurs in `s` as a contiguous piece. */
  predicate Contains(s: string, part: string)
  {
    exists i | 0 <= i <= |s| - |part| :: part <= s[i..]
  }

  predicate EndsWith(s: string, suffix: string)
  {
    |suffix| <= |s| && s[|s| - |suffix|..] == suffix
  }

  /** The parts with `sep` between each pair of neighbours: what a loop builds
      that appends the first part bare and every later one after `sep`. */
  function Join(parts: seq<string>, sep: string): string
    decreases |parts|
  {
    if |parts| == 0 then ""
    else if |parts| == 1 then parts[0]
    else Join(parts[..|parts| - 1], sep) + sep + parts[|parts| - 1]
  }

  /** Joining one more part adds the separator and the part, unless it is the first. */
  lemma JoinAppend(parts: seq<string>, sep: string, last: string)
    ensures Join(parts + [last], sep) == if |parts| == 0 then last else Join(parts, sep) + sep + last
  {
    assert (parts + [last])[..|parts|] == parts;
  }

  lemma AppendAssociates<T>(a: seq<T>, b: seq<T>, c: seq<T>)
    ensures (a + b) + c == a + (b + c)
  {
  }

  /** Text made only of capital letters and spaces, such as the SQL keywords. */
  predicate UpperWords(s: string)
  {
    forall i :: 0 <= i < |s| ==> s[i] == ' ' || 'A' <= s[i] <= 'Z'
  }

  lemma UpperWordsAvoid(s: string, c: char)
    requires UpperWords(s) && c != ' ' && !('A' <= c <= 'Z')
    ensures c !in s
  {
  }

  /** A sequence that differs from `s` at a position both have is no prefix of it. */
  lemma NotPrefixAt<T>(p: seq<T>, s: seq<T>, i: nat)
    requires i < |p| && i < |s| && p[i] != s[i]
    ensures !(p <= s)
  {
  }

  /** Appending two pieces one after the other to `a + b` extends `b`. */
  lemma AppendRegroups<T>(a: seq<T>, b: seq<T>, c: seq<T>, d: seq<T>)
    ensures a + b + c + d == a + (b + (c + d))
  {
  }

  /** Number of occurrences of `c` in `s`. */
  function Count(s: string, c: char): nat
  {
    if |s| == 0 then 0 else (if s[0] == c then 1 else 0) + Count(s[1..], c)
  }

  lemma {:induction false} CountAppend(a: string, b: string, c: char)
    ensures Count(a + b, c) == Count(a, c) + Count(b, c)
  {
    if |a| > 0 {
      assert (a + b)[1..] == a[1..] + b;
      CountAppend(a[1..], b, c);
    } else {
      assert a + b == b;
    }
  }

  lemma {:induction false} CountAbsent(s: string, c: char)
    requires c !in s
    ensures Count(s, c) == 0
  {
    if |s| > 0 {
      assert s[0] != c;
      assert forall x :: x in s[1..] ==> x in s;
      CountAbsent(s[1..], c);
    }
  }

  /** Joining parts free of `c` with the one-character separator `c` yields
      exactly one `c` between each pair of neighbours. */
  lemma {:induction false} CountJoinSeparators(parts: seq<string>, c: char)
    requires forall k :: 0 <= k < |parts| ==> c !in parts[k]
    ensures Count(Join(parts, [c]), c) == if |parts| == 0 then 0 else |parts| - 1
  {
    if |parts| == 0 {
    } else if |parts| == 1 {
      CountAbsent(parts[0], c);
    } else {
      var init := parts[..|parts| - 1];
      CountJoinSeparators(init, c);
      CountAppend(Join(init, [c]), [c], c);
      CountAppend(Join(init, [c]) + [c], parts[|parts| - 1], c);
      CountAbsent(parts[|parts| - 1], c);
    }
  }

  /** Joining parts that contain exactly one `c` each, with a separator free
      of `c`, yields one `c` per part. */
  lemma {:induction false} CountJoinParts(parts: seq<string>, sep: string, c: char)
    requires forall k :: 0 <= k < |parts| ==> Count(parts[k], c) == 1
    requires c !in sep
    ensures Count(Join(parts, sep), c) == |parts|
  {
    if |parts| > 1 {
      var init := parts[..|parts| - 1];
      CountJoinParts(init, sep, c);
      CountAppend(Join(init, sep), sep, c);
      CountAppend(Join(init, sep) + sep, parts[|parts| - 1], c);
      CountAbsent(sep, c);
    }
  }

  /** A join of parts free of `c`, with a separator free of `c`, is free of `c`. */
  lemma {:induction false} JoinAbsent(parts: seq<string>, sep: string, c: char)
    requires forall k :: 0 <= k < |parts| ==> c !in parts[k]
    requires c !in sep
    ensures c !in Join(parts, sep)
  {
    if |parts| > 1 {
      JoinAbsent(parts[..|parts| - 1], sep, c);
    }
  }

  /** Index of the first `x` in `s`, -1 when there is none (List.IndexOf). */
  function IndexOf<T(==)>(s: seq<T>, x: T): (r: int)
    ensures -1 <= r < |s|
    ensures r == -1 <==> x !in s
    ensures r >= 0 ==> s[r] == x && x !in s[..r]
  {
    if |s| == 0 then -1
    else if s[0] == x then 0
    else
      var k := IndexOf(s[1..], x);
      if k == -1 then -1 else k + 1
  }

  /** The text between the first double quote of `s` and the next one: what a
      reader of a statement takes to be its quoted identifier. */
  function FirstQuoted(s: string): string
  {
    var i := IndexOf(s, '"');
    if i == -1 then ""
    else
      var after := s[i + 1..];
      var j := IndexOf(after, '"');
      if j == -1 then "" else after[..j]
  }

  lemma {:induction false} IndexOfAt<T>(s: seq<T>, c: T, k: nat)
    requires k < |s| && s[k] == c && c !in s[..k]
    ensures IndexOf(s, c) == k
  {
    if k > 0 {
      assert s[0] in s[..k];
      assert s[1..][k - 1] == c;
      assert s[1..][..k - 1] == s[1..k];
      assert forall x :: x in s[1..k] ==> x in s[..k];
      IndexOfAt(s[1..], c, k - 1);
    }
  }

  lemma FirstQuotedOf(before: string, name: string, rest: string)
    requires '"' !in before && '"' !in name
    ensures FirstQuoted(before + "\"" + name + "\"" + rest) == name
  {
    var s := before + "\"" + name + "\"" + rest;
    assert s[..|before|] == before;
    IndexOfAt(s, '"', |before|);
    var after := s[|before| + 1..];
    assert after == name + "\"" + rest;
    assert after[..|name|] == name;
    IndexOfAt(after, '"', |name|);
  }

  /** The name between an opening text ending in a quote and a closing text
      starting with one is the first quoted identifier. */
  lemma FirstQuotedBetween(before: string, name: string, after: string, rest: string)
    requires '"' !in before && '"' !in name
    ensures FirstQuoted((before + "\"") + name + ("\"" + after) + rest) == name
  {
    assert (before + "\"") + name + ("\"" + after) + rest == before + "\"" + name + "\"" + (after + rest);
    FirstQuotedOf(before, name, after + rest);
  }

  lemma EndsWithAppend(s: string, suffix: string)
    ensures EndsWith(s + suffix, suffix)
  {
    assert (s + suffix)[|s|..] == suffix;
  }
}
