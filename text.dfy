/**
  The string operations the parser relies on: Python's substring test `t in s`,
  `s.split(sep)` for a non-empty separator, and splitting into lines on '\n'.
 */
module Text {
  import opened Wrappers

  /** `t` occurs in `s` starting at index `i`. */
  predicate OccursAt(s: string, t: string, i: int) {
    0 <= i && i + |t| <= |s| && s[i..i + |t|] == t
  }

  /** Python's `t in s`. */
  ghost predicate Contains(s: string, t: string) {
    exists i :: OccursAt(s, t, i)
  }

  /** The leftmost index at or after `from` where `t` occurs in `s`, as the search behind `in` and `split` finds it. */
  function Find(s: string, t: string, from: nat): (r: Option<nat>)
    requires from <= |s|
    ensures r.Some? ==> from <= r.value && OccursAt(s, t, r.value)
    ensures r.Some? ==> forall j :: from <= j < r.value ==> !OccursAt(s, t, j)
    ensures r.None? ==> forall j :: from <= j ==> !OccursAt(s, t, j)
    decreases |s| - from
  {
    if |s| < from + |t| then None
    else if s[from..from + |t|] == t then Some(from)
    else Find(s, t, from + 1)
  }

  /** A search from the start finds something exactly when `t` occurs somewhere. */
  lemma FindContains(s: string, t: string)
    ensures Find(s, t, 0).Some? <==> Contains(s, t)
  {
    if Contains(s, t) {
      var i :| OccursAt(s, t, i);
      assert 0 <= i;
    }
  }

  /**
    Python's `s.split(sep)` for a non-empty separator: the pieces left between the
    leftmost non-overlapping occurrences of `sep`, scanning from the left.
   */
  function Split(s: string, sep: string): (pieces: seq<string>)
    requires sep != []
    ensures |pieces| >= 1
    decreases |s|
  {
    match Find(s, sep, 0)
    case None => [s]
    case Some(i) => [s[..i]] + Split(s[i + |sep|..], sep)
  }

  /** Python's `sep.join(pieces)`. */
  function Join(pieces: seq<string>, sep: string): string
    requires |pieces| >= 1
  {
    if |pieces| == 1 then pieces[0] else pieces[0] + sep + Join(pieces[1..], sep)
  }

  /** Python's `s.split('\n')`. */
  function Lines(s: string): (lines: seq<string>)
    ensures |lines| >= 1
  {
    Split(s, "\n")
  }

  /** Joining the pieces back with the separator gives the original text. */
  lemma {:induction false} JoinSplit(s: string, sep: string)
    requires sep != []
    ensures Join(Split(s, sep), sep) == s
    decreases |s|
  {
    var f := Find(s, sep, 0);
    if f.Some? {
      var i := f.value;
      var rest := s[i + |sep|..];
      var pieces := Split(s, sep);
      assert pieces == [s[..i]] + Split(rest, sep);
      assert pieces[1..] == Split(rest, sep);
      JoinSplit(rest, sep);
      calc {
        Join(pieces, sep);
        pieces[0] + sep + Join(pieces[1..], sep);
        s[..i] + sep + rest;
        { assert s[i..i + |sep|] == sep; }
        s[..i] + s[i..i + |sep|] + s[i + |sep|..];
        s;
      }
    }
  }

  /** An occurrence inside a prefix of `s` is an occurrence in `s`. */
  lemma OccursInPrefix(s: string, t: string, n: nat, j: int)
    requires n <= |s| && OccursAt(s[..n], t, j)
    ensures OccursAt(s, t, j)
  {
    assert s[..n][j..j + |t|] == s[j..j + |t|];
  }

  /** No piece of a split contains the separator. */
  lemma {:induction false} SplitPiecesAvoidSeparator(s: string, sep: string)
    requires sep != []
    ensures forall k :: 0 <= k < |Split(s, sep)| ==> !Contains(Split(s, sep)[k], sep)
    decreases |s|
  {
    match Find(s, sep, 0)
    case None =>
      FindContains(s, sep);
    case Some(i) =>
      var rest := s[i + |sep|..];
      SplitPiecesAvoidSeparator(rest, sep);
      if Contains(s[..i], sep) {
        var j :| OccursAt(s[..i], sep, j);
        OccursInPrefix(s, sep, i, j);
        assert false;
      }
      forall k | 0 <= k < |Split(s, sep)|
        ensures !Contains(Split(s, sep)[k], sep)
      {
        if k > 0 {
          assert Split(s, sep)[k] == Split(rest, sep)[k - 1];
        }
      }
  }

  /** The split has a single piece exactly when the separator does not occur; that piece is the whole text. */
  lemma SplitSingle(s: string, sep: string)
    requires sep != []
    ensures |Split(s, sep)| == 1 <==> !Contains(s, sep)
    ensures !Contains(s, sep) ==> Split(s, sep) == [s]
  {
    FindContains(s, sep);
  }

  /**
    The split has exactly the two pieces `a` and `b` exactly when the text is
    `a + sep + b`, the separator does not start anywhere before `|a|`, and `b`
    does not contain it.
   */
  lemma {:induction false} SplitTwo(s: string, sep: string, a: string, b: string)
    requires sep != []
    ensures Split(s, sep) == [a, b] <==>
      s == a + sep + b && !Contains(b, sep) && forall j :: 0 <= j < |a| ==> !OccursAt(s, sep, j)
  {
    if Split(s, sep) == [a, b] {
      JoinSplit(s, sep);
      assert Join([a, b], sep) == a + sep + b;
      SplitPiecesAvoidSeparator(s, sep);
      assert !Contains(Split(s, sep)[1], sep);
      match Find(s, sep, 0)
      case None =>
      case Some(i) =>
        assert a == s[..i];
    }
    if s == a + sep + b && !Contains(b, sep) && forall j :: 0 <= j < |a| ==> !OccursAt(s, sep, j) {
      assert OccursAt(s, sep, |a|) by {
        assert s[|a|..|a| + |sep|] == sep;
      }
      match Find(s, sep, 0)
      case None =>
      case Some(i) =>
        assert i == |a|;
        assert s[..i] == a;
        assert s[i + |sep|..] == b;
        SplitSingle(b, sep);
    }
  }

  /** A one-character occurrence is that character at that index. */
  lemma OccursAtChar(s: string, c: char, j: int)
    ensures OccursAt(s, [c], j) <==> 0 <= j < |s| && s[j] == c
  {
    if 0 <= j < |s| {
      assert s[j..j + 1] == [s[j]];
    }
  }

  /** A string contains the one-character string `[c]` exactly when `c` is one of its characters. */
  lemma ContainsChar(s: string, c: char)
    ensures Contains(s, [c]) <==> c in s
  {
    if Contains(s, [c]) {
      var j :| OccursAt(s, [c], j);
      OccursAtChar(s, c, j);
    }
    if c in s {
      var j :| 0 <= j < |s| && s[j] == c;
      OccursAtChar(s, c, j);
    }
  }

  /** Two lines joined by one newline split back into exactly those two lines. */
  lemma {:induction false} LinesOfTwo(a: string, b: string)
    requires '\n' !in a && '\n' !in b
    ensures Lines(a + "\n" + b) == [a, b]
  {
    var s := a + "\n" + b;
    ContainsChar(b, '\n');
    forall j | 0 <= j < |a|
      ensures !OccursAt(s, "\n", j)
    {
      OccursAtChar(s, '\n', j);
      assert s[j] == a[j];
    }
    SplitTwo(s, "\n", a, b);
  }

  /** A first line without a newline is split off at the first newline. */
  lemma LinesCons(a: string, rest: string)
    requires '\n' !in a
    ensures Lines(a + "\n" + rest) == [a] + Lines(rest)
  {
    var s := a + "\n" + rest;
    assert OccursAt(s, "\n", |a|) by {
      assert s[|a|..|a| + 1] == "\n";
    }
    forall j | 0 <= j < |a|
      ensures !OccursAt(s, "\n", j)
    {
      OccursAtChar(s, '\n', j);
      assert s[j] == a[j];
    }
    assert s[..|a|] == a && s[|a| + 1..] == rest;
  }

  /** Lines without newlines, joined with newlines, split back into the same lines. */
  lemma {:induction false} LinesJoin(xs: seq<string>)
    requires |xs| >= 1 && forall k :: 0 <= k < |xs| ==> '\n' !in xs[k]
    ensures Lines(Join(xs, "\n")) == xs
    decreases |xs|
  {
    if |xs| == 1 {
      ContainsChar(xs[0], '\n');
      SplitSingle(xs[0], "\n");
    } else {
      LinesJoin(xs[1..]);
      LinesCons(xs[0], Join(xs[1..], "\n"));
      assert [xs[0]] + xs[1..] == xs;
    }
  }

}
