/**
 * Strings as sequences of characters, and the few JavaScript string and
 * array operations the plugin relies on: `split` and `join` with a
 * one-character separator, `contains`, and newline-terminated text.
 */
module Strings {

  /** `n` copies of `x`. */
  function Repeat<T>(x: T, n: nat): (r: seq<T>)
    ensures |r| == n
    ensures forall i :: 0 <= i < n ==> r[i] == x
  {
    if n == 0 then [] else Repeat(x, n - 1) + [x]
  }

  /** The parts with `sep` between each two neighbours (`parts.join(sep)`). */
  function Join(parts: seq<string>, sep: char): string
  {
    if |parts| == 0 then []
    else if |parts| == 1 then parts[0]
    else Join(parts[..|parts| - 1], sep) + [sep] + parts[|parts| - 1]
  }

  /** The lines, each followed by `term`. */
  function Terminated(lines: seq<string>, term: char): string
  {
    if |lines| == 0 then []
    else Terminated(lines[..|lines| - 1], term) + lines[|lines| - 1] + [term]
  }

  /** `s.split(sep)`: the pieces of `s` between occurrences of `sep`; never empty. */
  function Split(s: string, sep: char): (r: seq<string>)
    ensures |r| >= 1
    ensures forall i :: 0 <= i < |r| ==> sep !in r[i]
  {
    if |s| == 0 then [[]]
    else
      var rest := Split(s[1..], sep);
      if s[0] == sep then [[]] + rest else [[s[0]] + rest[0]] + rest[1..]
  }

  /** `sub` occurs in `s` starting at index `i`. */
  predicate OccursAt(s: string, sub: string, i: int)
  {
    0 <= i && i + |sub| <= |s| && s[i..i + |sub|] == sub
  }

  /** `s.contains(sub)`: `sub` occurs somewhere in `s`. */
  predicate Contains(s: string, sub: string): (found: bool)
    ensures found <==> exists i :: OccursAt(s, sub, i)
  {
    if |sub| > |s| then false
    else if s[..|sub|] == sub then
      assert OccursAt(s, sub, 0);
      true
    else
      var found := Contains(s[1..], sub);
      assert found ==> exists i :: OccursAt(s, sub, i) by {
        if found {
          var j :| OccursAt(s[1..], sub, j);
          assert OccursAt(s, sub, j + 1);
        }
      }
      assert (exists i :: OccursAt(s, sub, i)) ==> found by {
        if exists i :: OccursAt(s, sub, i) {
          var i :| OccursAt(s, sub, i);
          assert i != 0;
          assert OccursAt(s[1..], sub, i - 1);
        }
      }
      found
  }

  lemma ContainsPrefix(sub: string, rest: string)
    ensures Contains(sub + rest, sub)
  {
    assert (sub + rest)[..|sub|] == sub;
  }

  lemma {:induction false} SplitWithoutSeparator(s: string, sep: char)
    requires sep !in s
    ensures Split(s, sep) == [s]
  {
    if |s| > 0 {
      SplitWithoutSeparator(s[1..], sep);
      assert [s[0]] + s[1..] == s;
    }
  }

  /** Splitting at one occurrence of the separator splits the two sides independently. */
  lemma {:induction false} SplitAround(a: string, sep: char, b: string)
    ensures Split(a + [sep] + b, sep) == Split(a, sep) + Split(b, sep)
  {
    if |a| == 0 {
      assert a + [sep] + b == [sep] + b;
      assert ([sep] + b)[1..] == b;
    } else {
      assert (a + [sep] + b)[0] == a[0];
      assert (a + [sep] + b)[1..] == a[1..] + [sep] + b;
      SplitAround(a[1..], sep, b);
    }
  }

  /** `split` undoes `join` when no part holds the separator. */
  lemma {:induction false} SplitJoin(parts: seq<string>, sep: char)
    requires |parts| >= 1
    requires forall i :: 0 <= i < |parts| ==> sep !in parts[i]
    ensures Split(Join(parts, sep), sep) == parts
  {
    var last := parts[|parts| - 1];
    SplitWithoutSeparator(last, sep);
    if |parts| > 1 {
      var init := parts[..|parts| - 1];
      SplitJoin(init, sep);
      SplitAround(Join(init, sep), sep, last);
      assert init + [last] == parts;
    }
  }

  lemma {:induction false} JoinNotContains(parts: seq<string>, sep: char, c: char)
    requires c != sep
    requires forall i :: 0 <= i < |parts| ==> c !in parts[i]
    ensures c !in Join(parts, sep)
  {
    if |parts| > 1 {
      JoinNotContains(parts[..|parts| - 1], sep, c);
    }
  }

  lemma {:induction false} JoinLength(parts: seq<string>, sep: char, width: nat)
    requires |parts| >= 1
    requires forall i :: 0 <= i < |parts| ==> |parts[i]| == width
    ensures |Join(parts, sep)| == |parts| * (width + 1) - 1
  {
    if |parts| > 1 {
      JoinLength(parts[..|parts| - 1], sep, width);
      assert (|parts| - 1) * (width + 1) + (width + 1) == |parts| * (width + 1);
    }
  }

  /** Newline-terminated text is the lines joined with one empty line after them. */
  lemma {:induction false} TerminatedIsJoin(lines: seq<string>, term: char)
    ensures Terminated(lines, term) == Join(lines + [[]], term)
  {
    if |lines| > 0 {
      var init := lines[..|lines| - 1];
      var last := lines[|lines| - 1];
      TerminatedIsJoin(init, term);
      assert (init + [[]])[..|init|] == init;
      assert (lines + [[]])[..|lines|] == lines;
      assert init + [last] == lines;
      assert Join(init + [[]], term) + last == Join(lines, term);
    }
  }

  /** Splitting terminated text at its terminator gives back the lines and one empty trailer. */
  lemma SplitTerminated(lines: seq<string>, term: char)
    requires forall i :: 0 <= i < |lines| ==> term !in lines[i]
    ensures Split(Terminated(lines, term), term) == lines + [[]]
  {
    TerminatedIsJoin(lines, term);
    SplitJoin(lines + [[]], term);
  }

  lemma {:induction false} TerminatedLength(lines: seq<string>, term: char, width: nat)
    requires forall i :: 0 <= i < |lines| ==> |lines[i]| == width
    ensures |Terminated(lines, term)| == |lines| * (width + 1)
  {
    if |lines| > 0 {
      TerminatedLength(lines[..|lines| - 1], term, width);
      assert (|lines| - 1) * (width + 1) + (width + 1) == |lines| * (width + 1);
    }
  }
}
