/**
  The fixed-shape regular expressions of the parser. Every one of them has the form
  `^head(run)stop(run)stop...(run)stop$`, where each run is one capture group of
  characters of a class (`\d` or `[0-9\.]`), at least one long and, for `\d{1,3}`, at
  most three, and each stop is a literal that starts with a character outside the run's
  class. Because of that last condition a line can be cut into groups in at most one
  way, so the lazy quantifiers `+?` of the source choose nothing: the match below takes
  each run as long as the class allows and is proved to agree with the only possible
  decomposition (MatchExactly).
 */
module Patterns {
  import opened Wrappers

  /** `\d` (ASCII digits) and `[0-9\.]`. */
  datatype CharClass = Digit | DecimalChar

  predicate InClass(c: char, cls: CharClass) {
    match cls
    case Digit => '0' <= c <= '9'
    case DecimalChar => '0' <= c <= '9' || c == '.'
  }

  predicate AllIn(s: string, cls: CharClass) {
    forall i :: 0 <= i < |s| ==> InClass(s[i], cls)
  }

  /** One capture group (a run of `cls`, at most `limit` long when a limit is given) and the literal after it. */
  datatype Field = Field(cls: CharClass, limit: Option<nat>, stop: string)

  /** A regular expression anchored at both ends: a leading literal, then the fields in order. */
  datatype Pattern = Pattern(head: string, fields: seq<Field>)

  /** The stop after every run begins with a character the run cannot take. */
  predicate Delimited(p: Pattern) {
    forall f :: f in p.fields ==> f.stop != [] && !InClass(f.stop[0], f.cls)
  }

  /** `g` is text a field's group can capture. */
  predicate Token(f: Field, g: string) {
    1 <= |g| && (f.limit.Some? ==> |g| <= f.limit.value) && AllIn(g, f.cls)
  }

  /** One capturable text per field. */
  predicate Fits(fs: seq<Field>, gs: seq<string>) {
    |gs| == |fs| && forall k :: 0 <= k < |gs| ==> Token(fs[k], gs[k])
  }

  function RenderFields(fs: seq<Field>, gs: seq<string>): string
    requires |gs| == |fs|
  {
    if fs == [] then [] else gs[0] + fs[0].stop + RenderFields(fs[1..], gs[1..])
  }

  /** The line a pattern matches when its groups capture `gs`. */
  function Render(p: Pattern, gs: seq<string>): string
    requires |gs| == |p.fields|
  {
    p.head + RenderFields(p.fields, gs)
  }

  /** The length of the longest prefix of `s` made of characters of `cls`. */
  function RunLength(cls: CharClass, s: string): (n: nat)
    ensures n <= |s| && AllIn(s[..n], cls)
    ensures n < |s| ==> !InClass(s[n], cls)
  {
    if s == [] || !InClass(s[0], cls) then 0
    else
      var n := 1 + RunLength(cls, s[1..]);
      assert s[..n] == [s[0]] + s[1..][..n - 1];
      n
  }

  function MatchFields(fs: seq<Field>, line: string): (r: Option<seq<string>>)
    ensures r.Some? ==> Fits(fs, r.value) && RenderFields(fs, r.value) == line
    decreases |fs|
  {
    if fs == [] then
      if line == [] then Some([]) else None
    else
      var f := fs[0];
      var n := RunLength(f.cls, line);
      var after := line[n..];
      if n == 0 || (f.limit.Some? && n > f.limit.value) then None
      else if !(|f.stop| <= |after| && after[..|f.stop|] == f.stop) then None
      else match MatchFields(fs[1..], after[|f.stop|..])
        case None => None
        case Some(gs) =>
          var r := [line[..n]] + gs;
          assert r[1..] == gs;
          Recompose(line, n, f.stop);
          Some(r)
  }

  /** A line is its run, the stop that follows, and the rest. */
  lemma Recompose(line: string, n: nat, stop: string)
    requires n <= |line| && |stop| <= |line[n..]| && line[n..][..|stop|] == stop
    ensures line == line[..n] + stop + line[n..][|stop|..]
  {
    var after := line[n..];
    assert after == after[..|stop|] + after[|stop|..];
    assert line == line[..n] + after;
  }

  /**
    `pattern.match(line)` for a line without a newline: the captured groups, or None
    when the line is not an instance of the pattern.
   */
  function Match(p: Pattern, line: string): (r: Option<seq<string>>)
    ensures r.Some? ==> Fits(p.fields, r.value)
  {
    if |p.head| <= |line| && line[..|p.head|] == p.head then MatchFields(p.fields, line[|p.head|..])
    else None
  }

  /** The groups of a match render back to the matched line. */
  lemma MatchSound(p: Pattern, line: string)
    ensures Match(p, line).Some? ==> Render(p, Match(p, line).value) == line
  {
    if |p.head| <= |line| && line[..|p.head|] == p.head {
      assert line == p.head + line[|p.head|..];
    }
  }

  /** A run followed by text that starts outside its class is taken whole. */
  lemma {:induction false} RunLengthOfToken(cls: CharClass, g: string, tail: string)
    requires AllIn(g, cls)
    requires tail == [] || !InClass(tail[0], cls)
    ensures RunLength(cls, g + tail) == |g|
    decreases |g|
  {
    if g != [] {
      assert (g + tail)[1..] == g[1..] + tail;
      RunLengthOfToken(cls, g[1..], tail);
    }
  }

  lemma {:induction false} MatchFieldsRendered(fs: seq<Field>, gs: seq<string>)
    requires forall f :: f in fs ==> f.stop != [] && !InClass(f.stop[0], f.cls)
    requires Fits(fs, gs)
    ensures MatchFields(fs, RenderFields(fs, gs)) == Some(gs)
    decreases |fs|
  {
    if fs != [] {
      var f, g := fs[0], gs[0];
      var tail := RenderFields(fs[1..], gs[1..]);
      var line := RenderFields(fs, gs);
      assert Token(f, g);
      assert f in fs;
      assert line == g + (f.stop + tail);
      RunLengthOfToken(f.cls, g, f.stop + tail);
      assert line[..|g|] == g;
      assert line[|g|..] == f.stop + tail;
      assert (f.stop + tail)[|f.stop|..] == tail;
      assert Fits(fs[1..], gs[1..]) by {
        forall k | 0 <= k < |gs[1..]|
          ensures Token(fs[1..][k], gs[1..][k])
        {
          assert Token(fs[k + 1], gs[k + 1]);
        }
      }
      MatchFieldsRendered(fs[1..], gs[1..]);
      assert [g] + gs[1..] == gs;
    }
  }

  /** Rendering groups that fit a delimited pattern and matching the line gives those groups back. */
  lemma MatchRendered(p: Pattern, gs: seq<string>)
    requires Delimited(p) && Fits(p.fields, gs)
    ensures Match(p, Render(p, gs)) == Some(gs)
  {
    var line := Render(p, gs);
    assert line[..|p.head|] == p.head;
    assert line[|p.head|..] == RenderFields(p.fields, gs);
    MatchFieldsRendered(p.fields, gs);
  }

  /**
    For a delimited pattern, `line` matches with groups `gs` exactly when the groups fit
    the fields and rendering them gives the line.
   */
  lemma MatchExactly(p: Pattern, line: string, gs: seq<string>)
    requires Delimited(p)
    ensures Match(p, line) == Some(gs) <==> Fits(p.fields, gs) && |gs| == |p.fields| && Render(p, gs) == line
  {
    MatchSound(p, line);
    if Fits(p.fields, gs) && Render(p, gs) == line {
      MatchRendered(p, gs);
    }
  }

  /** A line is an instance of a delimited pattern in at most one way. */
  lemma GroupsUnique(p: Pattern, gs1: seq<string>, gs2: seq<string>)
    requires Delimited(p) && Fits(p.fields, gs1) && Fits(p.fields, gs2)
    requires Render(p, gs1) == Render(p, gs2)
    ensures gs1 == gs2
  {
    MatchRendered(p, gs1);
    MatchRendered(p, gs2);
  }

  /** A line that is an instance of no grouping does not match. */
  lemma MatchNone(p: Pattern, line: string)
    requires forall gs :: Fits(p.fields, gs) ==> Render(p, gs) != line
    ensures Match(p, line).None?
  {
    MatchSound(p, line);
  }

  /** The text of a pattern (its literals) has no newline. */
  predicate SingleLine(p: Pattern) {
    '\n' !in p.head && forall f :: f in p.fields ==> '\n' !in f.stop
  }

  lemma {:induction false} RenderFieldsSingleLine(fs: seq<Field>, gs: seq<string>)
    requires forall f :: f in fs ==> '\n' !in f.stop
    requires Fits(fs, gs)
    ensures '\n' !in RenderFields(fs, gs)
    decreases |fs|
  {
    if fs != [] {
      assert Token(fs[0], gs[0]);
      assert fs[0] in fs;
      assert Fits(fs[1..], gs[1..]) by {
        forall k | 0 <= k < |gs[1..]|
          ensures Token(fs[1..][k], gs[1..][k])
        {
          assert Token(fs[k + 1], gs[k + 1]);
        }
      }
      RenderFieldsSingleLine(fs[1..], gs[1..]);
    }
  }

  /** Every line a single-line pattern renders is a single line. */
  lemma RenderSingleLine(p: Pattern, gs: seq<string>)
    requires SingleLine(p) && Fits(p.fields, gs)
    ensures '\n' !in Render(p, gs)
  {
    RenderFieldsSingleLine(p.fields, gs);
  }
}
