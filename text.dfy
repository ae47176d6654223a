/** String primitives of the Python standard library that the backend
    relies on (`str.split` with a one-character separator, `str.join`,
    `str.rfind`, the `in` substring test), with the round-trip facts the
    rest of the model needs. */
module Text {

  /** `s.split(sep)` for a one-character `sep`: the pieces between the
      occurrences of `sep`, so there is always one piece more than there
      are separators. */
  function Split(s: string, sep: char): (parts: seq<string>)
    ensures |parts| == Occurrences(s, sep) + 1
    ensures forall k :: 0 <= k < |parts| ==> sep !in parts[k]
    decreases |s|
  {
    if s == [] then [""]
    else
      var rest := Split(s[1..], sep);
      if s[0] == sep then [""] + rest
      else [[s[0]] + rest[0]] + rest[1..]
  }

  /** Number of times `c` occurs in `s`. */
  function Occurrences(s: string, c: char): nat
    decreases |s|
  {
    if s == [] then 0 else (if s[0] == c then 1 else 0) + Occurrences(s[1..], c)
  }

  /** `sep.join(parts)`. */
  function Join(parts: seq<string>, sep: string): string
    decreases |parts|
  {
    if parts == [] then ""
    else if |parts| == 1 then parts[0]
    else parts[0] + sep + Join(parts[1..], sep)
  }

  /** Joining the pieces of a split with the same separator gives back the
      original string. */
  lemma {:induction false} JoinSplit(s: string, sep: char)
    ensures Join(Split(s, sep), [sep]) == s
    decreases |s|
  {
    if s != [] {
      var rest := Split(s[1..], sep);
      JoinSplit(s[1..], sep);
      if s[0] == sep {
        assert s == [sep] + s[1..];
      } else {
        JoinHead(s[0], rest, [sep]);
        assert s == [s[0]] + s[1..];
      }
    }
  }

  /** Prepending a character to the first piece prepends it to the join. */
  lemma JoinHead(c: char, parts: seq<string>, sep: string)
    requires |parts| >= 1
    ensures Join([[c] + parts[0]] + parts[1..], sep) == [c] + Join(parts, sep)
  {
    if |parts| > 1 {
      assert ([[c] + parts[0]] + parts[1..])[1..] == parts[1..];
    }
  }

  /** A string that does not contain the separator is a single piece. */
  lemma {:induction false} SplitNoSeparator(s: string, sep: char)
    requires sep !in s
    ensures Split(s, sep) == [s]
    decreases |s|
  {
    if s != [] {
      SplitNoSeparator(s[1..], sep);
      assert s == [s[0]] + s[1..];
    }
  }

  /** Splitting at the first separator: the part before it becomes the first
      piece and the rest is split on its own. */
  lemma {:induction false} SplitAtFirst(a: string, sep: char, b: string)
    requires sep !in a
    ensures Split(a + [sep] + b, sep) == [a] + Split(b, sep)
    decreases |a|
  {
    if a == [] {
      assert a + [sep] + b == [sep] + b;
      assert ([sep] + b)[1..] == b;
    } else {
      var s := a + [sep] + b;
      assert s[0] == a[0] && s[1..] == a[1..] + [sep] + b;
      SplitAtFirst(a[1..], sep, b);
      assert [a[0]] + a[1..] == a;
    }
  }

  /** Splitting a join gives back the pieces, provided no piece contains the
      separator. */
  lemma {:induction false} SplitJoin(parts: seq<string>, sep: char)
    requires |parts| >= 1
    requires forall k :: 0 <= k < |parts| ==> sep !in parts[k]
    ensures Split(Join(parts, [sep]), sep) == parts
    decreases |parts|
  {
    if |parts| == 1 {
      SplitNoSeparator(parts[0], sep);
    } else {
      SplitJoin(parts[1..], sep);
      SplitAtFirst(parts[0], sep, Join(parts[1..], [sep]));
      assert [parts[0]] + parts[1..] == parts;
    }
  }

  /** `s.rfind(c)`: the index of the last `c` in `s`, or -1 when there is
      none. */
  function LastIndexOf(s: string, c: char): (i: int)
    ensures -1 <= i < |s|
    ensures i >= 0 ==> s[i] == c
    ensures forall j :: i < j < |s| ==> s[j] != c
    ensures i == -1 <==> c !in s
    decreases |s|
  {
    if s == [] then -1
    else if s[|s| - 1] == c then |s| - 1
    else LastIndexOf(s[..|s| - 1], c)
  }

  /** `pat` occurs in `s` starting at index `i`. */
  predicate OccursAt(s: string, pat: string, i: nat)
  {
    i + |pat| <= |s| && s[i..i + |pat|] == pat
  }

  /** Python's `pat in s` and JavaScript's `s.includes(pat)`. */
  predicate Contains(s: string, pat: string)
    decreases |s|
  {
    if |s| < |pat| then false
    else s[..|pat|] == pat || Contains(s[1..], pat)
  }

  /** The recursive test finds exactly the strings in which `pat` occurs at
      some index. */
  lemma {:induction false} ContainsOccurs(s: string, pat: string)
    ensures Contains(s, pat) <==> exists i: nat :: OccursAt(s, pat, i)
    decreases |s|
  {
    if |s| >= |pat| {
      assert OccursAt(s, pat, 0) <==> s[..|pat|] == pat;
      if s[..|pat|] != pat {
        ContainsOccurs(s[1..], pat);
        if Contains(s[1..], pat) {
          var i: nat :| OccursAt(s[1..], pat, i);
          assert s[i + 1..i + 1 + |pat|] == s[1..][i..i + |pat|];
          assert OccursAt(s, pat, i + 1);
        }
        if i: nat :| OccursAt(s, pat, i) && i > 0 {
          assert s[1..][i - 1..i - 1 + |pat|] == s[i..i + |pat|];
          assert OccursAt(s[1..], pat, i - 1);
        }
      }
    } else {
      if i: nat :| OccursAt(s, pat, i) {
        assert false;
      }
    }
  }

  /** `"".join(parts)`: the parts one after the other. */
  function Concat<T>(parts: seq<seq<T>>): seq<T>
    decreases |parts|
  {
    if parts == [] then [] else Concat(parts[..|parts| - 1]) + parts[|parts| - 1]
  }

  /** Concatenating two runs of parts is concatenating their
      concatenations. */
  lemma {:induction false} ConcatAppend<T>(xs: seq<seq<T>>, ys: seq<seq<T>>)
    ensures Concat(xs + ys) == Concat(xs) + Concat(ys)
    decreases |ys|
  {
    if ys == [] {
      assert xs + ys == xs;
    } else {
      var n := |ys| - 1;
      assert (xs + ys)[..|xs + ys| - 1] == xs + ys[..n];
      assert (xs + ys)[|xs + ys| - 1] == ys[n];
      ConcatAppend(xs, ys[..n]);
      assert Concat(xs) + Concat(ys[..n]) + ys[n] == Concat(xs) + (Concat(ys[..n]) + ys[n]);
    }
  }
}
