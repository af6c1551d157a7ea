/**
  Properties of the parse: the patterns are unambiguous single-line patterns, the
  separator splits a well-formed report into its two parts, each summary line sets
  exactly the values it shows, the BusyBox samples follow the reply lines, and a
  whole report reads back the values printed in it.
 */
module PingProperties {
  import opened Wrappers
  import opened Text
  import opened Patterns
  import opened Numbers
  import opened Jitter
  import opened PingParse

  /** Every pattern of both dialects cuts a line into groups in one way only, and spans one line. */
  lemma ProfilesWellFormed(d: Dialect, target: string)
    ensures Delimited(ProfileFor(d, target).response) && SingleLine(ProfileFor(d, target).response)
    ensures Delimited(ProfileFor(d, target).packets) && SingleLine(ProfileFor(d, target).packets)
    ensures Delimited(ProfileFor(d, target).rtt) && SingleLine(ProfileFor(d, target).rtt)
  {
    ReplyWellFormed(": icmp_seq=");
    ReplyWellFormed(": seq=");
    SummaryWellFormed();
  }

  lemma ReplyWellFormed(seqLabel: string)
    requires seqLabel != [] && seqLabel[0] == ':' && '\n' !in seqLabel
    ensures Delimited(ReplyPattern(seqLabel)) && SingleLine(ReplyPattern(seqLabel))
  {
    var p := ReplyPattern(seqLabel);
    forall f | f in p.fields
      ensures f.stop != [] && !InClass(f.stop[0], f.cls) && '\n' !in f.stop
    {
      var k :| 0 <= k < |p.fields| && p.fields[k] == f;
    }
  }

  lemma SummaryWellFormed()
    ensures Delimited(LinuxPackets) && SingleLine(LinuxPackets)
    ensures Delimited(LinuxRtt) && SingleLine(LinuxRtt)
    ensures Delimited(BusyboxPackets) && SingleLine(BusyboxPackets)
    ensures Delimited(BusyboxRtt) && SingleLine(BusyboxRtt)
  {
    LinuxPacketsWellFormed();
    LinuxRttWellFormed();
    BusyboxPacketsWellFormed();
    BusyboxRttWellFormed();
  }

  lemma LinuxPacketsWellFormed()
    ensures Delimited(LinuxPackets) && SingleLine(LinuxPackets)
  {
    FieldsWellFormed(LinuxPackets);
  }

  lemma LinuxRttWellFormed()
    ensures Delimited(LinuxRtt) && SingleLine(LinuxRtt)
  {
    FieldsWellFormed(LinuxRtt);
  }

  lemma BusyboxPacketsWellFormed()
    ensures Delimited(BusyboxPackets) && SingleLine(BusyboxPackets)
  {
    FieldsWellFormed(BusyboxPackets);
  }

  lemma BusyboxRttWellFormed()
    ensures Delimited(BusyboxRtt) && SingleLine(BusyboxRtt)
  {
    FieldsWellFormed(BusyboxRtt);
  }

  /** Checks a pattern field by field. */
  lemma FieldsWellFormed(p: Pattern)
    requires '\n' !in p.head
    requires forall k :: 0 <= k < |p.fields| ==>
      p.fields[k].stop != [] && !InClass(p.fields[k].stop[0], p.fields[k].cls) && '\n' !in p.fields[k].stop
    ensures Delimited(p) && SingleLine(p)
  {
    forall f | f in p.fields
      ensures f.stop != [] && !InClass(f.stop[0], f.cls) && '\n' !in f.stop
    {
      var k :| 0 <= k < |p.fields| && p.fields[k] == f;
    }
  }

  /** The separator is a fixed frame around the target, written verbatim, so different targets split on different separators. */
  lemma SeparatorCarriesTarget(target: string, other: string)
    ensures |Separator(target)| == |target| + 27
    ensures Separator(target)[..6] == "\n\n--- " && Separator(target)[6..6 + |target|] == target
    ensures Separator(target)[6 + |target|..] == " ping statistics ---\n"
    ensures Separator(target) == Separator(other) ==> target == other
  {
    var s := Separator(target);
    assert s == "\n\n--- " + target + " ping statistics ---\n";
    if s == Separator(other) {
      assert |target| == |other|;
      assert target == s[6..6 + |target|] == other;
    }
  }

  /** No two newlines in a row. */
  predicate NoDoubleNewline(s: string) {
    forall j :: 0 <= j < |s| - 1 && s[j] == '\n' ==> s[j + 1] != '\n'
  }

  /** Reply text as ping prints it before the summary: no empty line and no newline at the end. */
  predicate NoBlankLine(s: string) {
    NoDoubleNewline(s) && (s == [] || s[|s| - 1] != '\n')
  }

  /** The separator opens with two newlines, so it can only start where two newlines meet. */
  lemma SeparatorStartsBlank(s: string, target: string, j: int)
    requires OccursAt(s, Separator(target), j)
    ensures j + 1 < |s| && s[j] == '\n' && s[j + 1] == '\n'
  {
    var sep := Separator(target);
    assert sep[0] == '\n' && sep[1] == '\n';
    assert s[j..j + |sep|] == sep;
    assert s[j] == s[j..j + |sep|][0] && s[j + 1] == s[j..j + |sep|][1];
  }

  /**
    Reply text without a blank line, the separator, and summary text without two
    newlines in a row split into exactly those two parts.
   */
  lemma SplitAtSeparator(raw: string, target: string, summary: string)
    requires NoBlankLine(raw) && NoDoubleNewline(summary)
    ensures Split(raw + Separator(target) + summary, Separator(target)) == [raw, summary]
  {
    var sep := Separator(target);
    var text := raw + sep + summary;
    if Contains(summary, sep) {
      var i :| OccursAt(summary, sep, i);
      SeparatorStartsBlank(summary, target, i);
      assert false;
    }
    forall j | 0 <= j < |raw|
      ensures !OccursAt(text, sep, j)
    {
      if OccursAt(text, sep, j) {
        SeparatorStartsBlank(text, target, j);
        assert false;
      }
    }
    SplitTwo(text, sep, raw, summary);
  }

  /** With a dialect settled and no separator in the text, the parse stops at the split with no statistic changed. */
  lemma MissingSeparator(r: Record, target: string, text: string)
    requires Identified(r, text).Some? && !Contains(text, Separator(target))
    ensures Parse(r, target, text) == Step(r.(pingType := Identified(r, text)), Some(SplitMismatch(1)))
  {
    SplitSingle(text, Separator(target));
  }

  /**
    The evaluators run only when the separator splits the text into exactly two parts:
    the text is the reply part, the separator and the summary part, the separator
    starts nowhere in the reply part and does not occur in the summary part. This holds
    for an evaluation that finishes and for one that stops on a rejected number.
   */
  lemma EvaluatedOnlyAfterSplit(r: Record, target: string, text: string)
    requires Parse(r, target, text).failure.None? || Parse(r, target, text).failure.value.NotANumber?
    ensures var pieces := Split(text, Separator(target));
      |pieces| == 2 && text == pieces[0] + Separator(target) + pieces[1] &&
      !Contains(pieces[1], Separator(target)) &&
      forall j :: 0 <= j < |pieces[0]| ==> !OccursAt(text, Separator(target), j)
  {
    var pieces := Split(text, Separator(target));
    assert Identified(r, text).Some?;
    assert |pieces| == 2;
    assert pieces == [pieces[0], pieces[1]];
    SplitTwo(text, Separator(target), pieces[0], pieces[1]);
  }

  /**
    An iputils packet line, as the first summary line, sets transmitted, received,
    loss and elapsed time to the numbers it shows and changes nothing else.
   */
  lemma LinuxPacketsRead(r: Record, gs: seq<string>, rest: seq<string>)
    requires Fits(LinuxPackets.fields, gs) && ParseDecimal(gs[2]).Some?
    ensures LinuxPacketStep(r, [Render(LinuxPackets, gs)] + rest) ==
      Step(r.(packetsTransmitted := Some(DigitsValue(gs[0])), packetsReceived := Some(DigitsValue(gs[1])),
              packetLoss := ParseDecimal(gs[2]), time := Some(DigitsValue(gs[3]))), None)
  {
    LinuxPacketsWellFormed();
    MatchRendered(LinuxPackets, gs);
  }

  /** An iputils RTT line, as the second summary line, sets min, avg, max and mdev to the numbers it shows and nothing else. */
  lemma LinuxRttRead(r: Record, first: string, gs: seq<string>, rest: seq<string>)
    requires Fits(LinuxRtt.fields, gs)
    requires ParseDecimal(gs[0]).Some? && ParseDecimal(gs[1]).Some? && ParseDecimal(gs[2]).Some? && ParseDecimal(gs[3]).Some?
    ensures LinuxRttStep(r, [first, Render(LinuxRtt, gs)] + rest) ==
      Step(r.(rttMin := ParseDecimal(gs[0]), rttAvg := ParseDecimal(gs[1]),
              rttMax := ParseDecimal(gs[2]), rttMdev := ParseDecimal(gs[3])), None)
  {
    LinuxRttWellFormed();
    MatchRendered(LinuxRtt, gs);
  }

  /**
    A minimum `float()` rejects (such as "1.2.3", which the `[0-9\.]` group accepts)
    ends the parse at the RTT line with the RTT values untouched.
   */
  lemma LinuxRttRejected(r: Record, first: string, gs: seq<string>, rest: seq<string>)
    requires Fits(LinuxRtt.fields, gs) && ParseDecimal(gs[0]).None?
    ensures LinuxRttStep(r, [first, Render(LinuxRtt, gs)] + rest) == Step(r, Some(NotANumber(gs[0])))
  {
    LinuxRttWellFormed();
    MatchRendered(LinuxRtt, gs);
  }

  /** "1.2.3" is a run of `[0-9\.]` that `float()` rejects. */
  lemma TwoDotsRejected()
    ensures AllIn("1.2.3", DecimalChar) && ParseDecimal("1.2.3").None?
  {
    var s := "1.2.3";
    assert AllIn(s, DecimalChar);
    ParseDecimalAccepts(s);
    assert s[1] == '.' && s[3] == '.';
  }

  /**
    A BusyBox packet line sets transmitted, received and loss to the numbers it shows,
    clears the elapsed time and changes nothing else.
   */
  lemma BusyboxPacketsRead(r: Record, gs: seq<string>, rest: seq<string>)
    requires Fits(BusyboxPackets.fields, gs) && ParseDecimal(gs[2]).Some?
    ensures BusyboxPacketStep(r, [Render(BusyboxPackets, gs)] + rest) ==
      Step(r.(packetsTransmitted := Some(DigitsValue(gs[0])), packetsReceived := Some(DigitsValue(gs[1])),
              packetLoss := ParseDecimal(gs[2]), time := None), None)
  {
    BusyboxPacketsWellFormed();
    MatchRendered(BusyboxPackets, gs);
  }

  /** A BusyBox RTT line sets min, avg and max to the numbers it shows; mdev and the rest stay. */
  lemma BusyboxRttRead(r: Record, first: string, gs: seq<string>, rest: seq<string>)
    requires Fits(BusyboxRtt.fields, gs)
    requires ParseDecimal(gs[0]).Some? && ParseDecimal(gs[1]).Some? && ParseDecimal(gs[2]).Some?
    ensures BusyboxRttStep(r, [first, Render(BusyboxRtt, gs)] + rest) ==
      Step(r.(rttMin := ParseDecimal(gs[0]), rttAvg := ParseDecimal(gs[1]), rttMax := ParseDecimal(gs[2])), None)
  {
    BusyboxRttWellFormed();
    MatchRendered(BusyboxRtt, gs);
  }

  /** The number of lines that match a pattern. */
  function MatchCount(p: Pattern, rows: seq<string>): nat {
    if rows == [] then 0
    else MatchCount(p, rows[..|rows| - 1]) + (if Match(p, rows[|rows| - 1]).Some? then 1 else 0)
  }

  /** Every matching reply line contributes exactly one sample. */
  lemma {:induction false} SamplesCount(rows: seq<string>)
    ensures Samples(rows).Ok? ==> |Samples(rows).value| == MatchCount(BusyboxReply, rows)
    decreases |rows|
  {
    if rows != [] {
      SamplesCount(rows[..|rows| - 1]);
    }
  }

  /** Some line matches exactly when the count of matching lines is positive. */
  lemma {:induction false} MatchCountPositive(p: Pattern, rows: seq<string>)
    ensures MatchCount(p, rows) > 0 <==> exists k :: 0 <= k < |rows| && Match(p, rows[k]).Some?
    decreases |rows|
  {
    if rows != [] {
      var init, last := rows[..|rows| - 1], rows[|rows| - 1];
      MatchCountPositive(p, init);
      if Match(p, last).Some? {
        assert Match(p, rows[|rows| - 1]).Some?;
      } else if MatchCount(p, init) > 0 {
        var k :| 0 <= k < |init| && Match(p, init[k]).Some?;
        assert rows[k] == init[k];
      } else {
        forall k | 0 <= k < |rows|
          ensures Match(p, rows[k]).None?
        {
          if k < |init| {
            assert rows[k] == init[k];
          }
        }
      }
    }
  }

  /** A reply line appends its own time, after the times of the lines before it. */
  lemma SampleOfReply(rows: seq<string>, gs: seq<string>)
    requires Fits(BusyboxReply.fields, gs) && Samples(rows).Ok?
    requires ParseDecimal(gs[ReplyTime]).Some?
    ensures Samples(rows + [Render(BusyboxReply, gs)]) ==
      Ok(Samples(rows).value + [ParseDecimal(gs[ReplyTime]).value])
  {
    ReplyWellFormed(": seq=");
    MatchRendered(BusyboxReply, gs);
    assert (rows + [Render(BusyboxReply, gs)])[..|rows|] == rows;
  }

  /** A line that is not a reply adds no sample. */
  lemma NonReplySkipped(rows: seq<string>, row: string)
    requires forall gs :: Fits(BusyboxReply.fields, gs) ==> Render(BusyboxReply, gs) != row
    ensures Samples(rows + [row]) == Samples(rows)
  {
    MatchNone(BusyboxReply, row);
    assert (rows + [row])[..|rows|] == rows;
  }

  /**
    After a BusyBox evaluation that did not fail, mdev is present exactly when some
    reply line matched, whatever the summary held.
   */
  lemma MdevPresentIffReply(r: Record, raw: seq<string>, summary: seq<string>)
    requires EvalBusybox(r, raw, summary).failure.None?
    ensures EvalBusybox(r, raw, summary).record.rttMdev.Some? <==>
      exists k :: 0 <= k < |raw| && Match(BusyboxReply, raw[k]).Some?
  {
    SamplesCount(raw);
    MatchCountPositive(BusyboxReply, raw);
  }

  /** The iputils evaluation reads only the summary: the reply part of the report plays no part. */
  lemma LinuxIgnoresReplies(r: Record, target: string, raw1: string, raw2: string, summary: string)
    requires NoBlankLine(raw1) && NoBlankLine(raw2) && NoDoubleNewline(summary)
    requires Identified(r, raw1 + Separator(target) + summary) == Some(Linux)
    requires Identified(r, raw2 + Separator(target) + summary) == Some(Linux)
    ensures Parse(r, target, raw1 + Separator(target) + summary) == Parse(r, target, raw2 + Separator(target) + summary)
  {
    SplitAtSeparator(raw1, target, summary);
    SplitAtSeparator(raw2, target, summary);
  }

  /** Reading the same report again over the result changes nothing: every stage either writes a value of the text or keeps the old one. */
  lemma ParseIdempotent(r: Record, target: string, text: string)
    ensures Parse(Parse(r, target, text).record, target, text) == Parse(r, target, text)
  {
    var d := Identified(r, text);
    var pieces := Split(text, Separator(target));
    if d.Some? && |pieces| == 2 {
      var raw, summary := Lines(pieces[0]), Lines(pieces[1]);
      var r1 := r.(pingType := d);
      match d.value
      case Linux =>
        LinuxIdempotent(r1, summary);
      case BusyBox =>
        BusyboxIdempotent(r1, raw, summary);
    }
  }

  lemma LinuxIdempotent(r: Record, summary: seq<string>)
    ensures EvalLinux(EvalLinux(r, summary).record, summary) == EvalLinux(r, summary)
  {
    var a := LinuxPacketStep(r, summary);
    if a.failure.None? {
      var b := LinuxRttStep(a.record, summary);
      LinuxPacketsAgain(r, b.record, summary);
      if b.failure.None? {
        LinuxRttAgain(a.record, b.record, summary);
      } else {
        LinuxRttFailsAgain(a.record, summary);
      }
    } else {
      LinuxPacketsFailAgain(r, summary);
    }
  }

  lemma BusyboxIdempotent(r: Record, raw: seq<string>, summary: seq<string>)
    ensures EvalBusybox(EvalBusybox(r, raw, summary).record, raw, summary) == EvalBusybox(r, raw, summary)
  {
    var a := BusyboxPacketStep(r, summary);
    if a.failure.None? {
      var b := BusyboxRttStep(a.record, summary);
      var x := EvalBusybox(r, raw, summary).record;
      BusyboxPacketsAgain(r, x, summary);
      if b.failure.None? {
        BusyboxRttAgain(a.record, x, summary);
      } else {
        BusyboxRttFailsAgain(a.record, summary);
      }
    } else {
      BusyboxPacketsFailAgain(r, summary);
    }
  }

  /** A record that already shows what a successful packet line sets is left as it is by that line. */
  lemma LinuxPacketsAgain(r: Record, y: Record, summary: seq<string>)
    requires LinuxPacketStep(r, summary).failure.None? && SamePackets(y, LinuxPacketStep(r, summary).record)
    ensures LinuxPacketStep(y, summary) == Step(y, None)
  {
    match FirstLine(LinuxPackets, summary)
    case None =>
    case Some(g) =>
      assert Token(LinuxPackets.fields[2], g[2]);
      assert ParseDecimal(g[2]).Some?;
  }

  /** A packet line whose loss `float()` rejects fails the same way a second time. */
  lemma LinuxPacketsFailAgain(r: Record, summary: seq<string>)
    requires LinuxPacketStep(r, summary).failure.Some?
    ensures LinuxPacketStep(LinuxPacketStep(r, summary).record, summary) == LinuxPacketStep(r, summary)
  {
    match FirstLine(LinuxPackets, summary)
    case None =>
    case Some(g) =>
      assert Token(LinuxPackets.fields[2], g[2]);
      assert ParseDecimal(g[2]).None?;
  }

  lemma LinuxRttAgain(r: Record, y: Record, summary: seq<string>)
    requires LinuxRttStep(r, summary).failure.None? && SameRtt(y, LinuxRttStep(r, summary).record)
    ensures LinuxRttStep(y, summary) == Step(y, None)
  {
    match SecondLine(LinuxRtt, summary)
    case None =>
    case Some(g) =>
      assert Token(LinuxRtt.fields[0], g[0]) && Token(LinuxRtt.fields[1], g[1]);
      assert Token(LinuxRtt.fields[2], g[2]) && Token(LinuxRtt.fields[3], g[3]);
      assert ParseDecimal(g[0]).Some? && ParseDecimal(g[1]).Some?;
      assert ParseDecimal(g[2]).Some? && ParseDecimal(g[3]).Some?;
  }

  lemma LinuxRttFailsAgain(r: Record, summary: seq<string>)
    requires LinuxRttStep(r, summary).failure.Some?
    ensures LinuxRttStep(LinuxRttStep(r, summary).record, summary) == LinuxRttStep(r, summary)
  {
    match SecondLine(LinuxRtt, summary)
    case None =>
    case Some(g) =>
      assert Token(LinuxRtt.fields[0], g[0]) && Token(LinuxRtt.fields[1], g[1]);
      assert Token(LinuxRtt.fields[2], g[2]) && Token(LinuxRtt.fields[3], g[3]);
      if ParseDecimal(g[0]).None? {
      } else if ParseDecimal(g[1]).None? {
      } else if ParseDecimal(g[2]).None? {
      } else {
        assert ParseDecimal(g[3]).None?;
      }
  }

  lemma BusyboxPacketsAgain(r: Record, y: Record, summary: seq<string>)
    requires BusyboxPacketStep(r, summary).failure.None? && SamePackets(y, BusyboxPacketStep(r, summary).record)
    ensures BusyboxPacketStep(y, summary) == Step(y, None)
  {
    match FirstLine(BusyboxPackets, summary)
    case None =>
    case Some(g) =>
      assert Token(BusyboxPackets.fields[2], g[2]);
      assert ParseDecimal(g[2]).Some?;
  }

  lemma BusyboxPacketsFailAgain(r: Record, summary: seq<string>)
    requires BusyboxPacketStep(r, summary).failure.Some?
    ensures BusyboxPacketStep(BusyboxPacketStep(r, summary).record, summary) == BusyboxPacketStep(r, summary)
  {
    match FirstLine(BusyboxPackets, summary)
    case None =>
    case Some(g) =>
      assert Token(BusyboxPackets.fields[2], g[2]);
      assert ParseDecimal(g[2]).None?;
  }

  lemma BusyboxRttAgain(r: Record, y: Record, summary: seq<string>)
    requires BusyboxRttStep(r, summary).failure.None?
    requires y.rttMin == BusyboxRttStep(r, summary).record.rttMin
    requires y.rttAvg == BusyboxRttStep(r, summary).record.rttAvg
    requires y.rttMax == BusyboxRttStep(r, summary).record.rttMax
    ensures BusyboxRttStep(y, summary) == Step(y, None)
  {
    match SecondLine(BusyboxRtt, summary)
    case None =>
    case Some(g) =>
      assert Token(BusyboxRtt.fields[0], g[0]) && Token(BusyboxRtt.fields[1], g[1]);
      assert Token(BusyboxRtt.fields[2], g[2]);
      assert ParseDecimal(g[0]).Some? && ParseDecimal(g[1]).Some? && ParseDecimal(g[2]).Some?;
  }

  lemma BusyboxRttFailsAgain(r: Record, summary: seq<string>)
    requires BusyboxRttStep(r, summary).failure.Some?
    ensures BusyboxRttStep(BusyboxRttStep(r, summary).record, summary) == BusyboxRttStep(r, summary)
  {
    match SecondLine(BusyboxRtt, summary)
    case None =>
    case Some(g) =>
      assert Token(BusyboxRtt.fields[0], g[0]) && Token(BusyboxRtt.fields[1], g[1]);
      assert Token(BusyboxRtt.fields[2], g[2]);
  }

  /** A text contains any string placed inside it. */
  lemma ContainsInside(a: string, t: string, b: string)
    ensures Contains(a + t + b, t)
  {
    assert (a + t + b)[|a|..|a| + |t|] == t;
    assert OccursAt(a + t + b, t, |a|);
  }

  /** Two summary lines, possibly followed by the final newline, split into those lines and hold no blank line. */
  lemma SummaryLines(p: string, q: string, trailing: bool)
    requires '\n' !in p && '\n' !in q && q != []
    ensures NoDoubleNewline(p + "\n" + q + (if trailing then "\n" else ""))
    ensures Lines(p + "\n" + q + (if trailing then "\n" else "")) == [p, q] + (if trailing then [""] else [])
  {
    var s := p + "\n" + q + (if trailing then "\n" else "");
    forall j | 0 <= j < |s| - 1
      ensures s[j] == '\n' ==> s[j + 1] != '\n'
    {
      if j < |p| {
        assert s[j] == p[j];
      } else if j == |p| {
        assert s[j + 1] == q[0];
      } else {
        assert s[j] == q[j - |p| - 1];
      }
    }
    if trailing {
      var xs := [p, q, ""];
      assert xs[1..] == [q, ""] && xs[1..][1..] == [""];
      assert Join([""], "\n") == "";
      assert Join([q, ""], "\n") == q + "\n" + "";
      assert Join(xs, "\n") == p + "\n" + (q + "\n" + "");
      assert p + "\n" + (q + "\n" + "") == s;
      LinesJoin(xs);
    } else {
      assert s == p + "\n" + q;
      LinesOfTwo(p, q);
    }
  }

  /** The summary block as iputils prints it: the packet line, the RTT line and, unless stripped, the final newline. */
  function LinuxSummary(pk: seq<string>, rt: seq<string>, trailing: bool): string
    requires |pk| == |LinuxPackets.fields| && |rt| == |LinuxRtt.fields|
  {
    Render(LinuxPackets, pk) + "\n" + Render(LinuxRtt, rt) + (if trailing then "\n" else "")
  }

  /** The summary block as BusyBox ping prints it. */
  function BusyboxSummary(pk: seq<string>, rt: seq<string>, trailing: bool): string
    requires |pk| == |BusyboxPackets.fields| && |rt| == |BusyboxRtt.fields|
  {
    Render(BusyboxPackets, pk) + "\n" + Render(BusyboxRtt, rt) + (if trailing then "\n" else "")
  }

  /** A report of reply text, separator and a two-line summary splits into the reply lines and the summary lines. */
  lemma ReportParts(raw: string, target: string, p: string, q: string, trailing: bool)
    requires NoBlankLine(raw) && '\n' !in p && '\n' !in q && q != []
    ensures var summary := p + "\n" + q + (if trailing then "\n" else "");
      Split(raw + Separator(target) + summary, Separator(target)) == [raw, summary] &&
      Lines(summary) == [p, q] + (if trailing then [""] else [])
  {
    SummaryLines(p, q, trailing);
    SplitAtSeparator(raw, target, p + "\n" + q + (if trailing then "\n" else ""));
  }

  /** A line that starts with the RTT header, after a newline, carries the dialect's signature. */
  lemma SignatureInReport(front: string, p: string, head: string, fields: string, tail: string)
    ensures Contains(front + (p + "\n" + (head + fields) + tail), "\n" + head)
  {
    assert front + (p + "\n" + (head + fields) + tail) == (front + p) + ("\n" + head) + (fields + tail);
    ContainsInside(front + p, "\n" + head, fields + tail);
  }

  /** Once the dialect is settled and the report splits into two parts, Parse is that dialect's evaluator on the parts' lines. */
  lemma ParseOfReport(r: Record, target: string, raw: string, summary: string)
    requires Identified(r, raw + Separator(target) + summary).Some?
    requires Split(raw + Separator(target) + summary, Separator(target)) == [raw, summary]
    ensures var d := Identified(r, raw + Separator(target) + summary).value;
      Parse(r, target, raw + Separator(target) + summary) ==
        match d
        case Linux => EvalLinux(r.(pingType := Some(d)), Lines(summary))
        case BusyBox => EvalBusybox(r.(pingType := Some(d)), Lines(raw), Lines(summary))
  {
  }

  /** The iputils summary lines set every statistic from the numbers they show. */
  lemma LinuxSummaryRead(r: Record, pk: seq<string>, rt: seq<string>, rest: seq<string>)
    requires Fits(LinuxPackets.fields, pk) && Fits(LinuxRtt.fields, rt)
    requires ParseDecimal(pk[2]).Some?
    requires ParseDecimal(rt[0]).Some? && ParseDecimal(rt[1]).Some? && ParseDecimal(rt[2]).Some? && ParseDecimal(rt[3]).Some?
    ensures EvalLinux(r, [Render(LinuxPackets, pk), Render(LinuxRtt, rt)] + rest) ==
      Step(Record(r.pingType, ParseDecimal(pk[2]), Some(DigitsValue(pk[0])), Some(DigitsValue(pk[1])),
                  Some(DigitsValue(pk[3])), ParseDecimal(rt[0]), ParseDecimal(rt[1]), ParseDecimal(rt[2]),
                  ParseDecimal(rt[3])), None)
  {
    var p, q := Render(LinuxPackets, pk), Render(LinuxRtt, rt);
    assert [p, q] + rest == [p] + ([q] + rest);
    LinuxPacketsRead(r, pk, [q] + rest);
    LinuxRttRead(LinuxPacketStep(r, [p, q] + rest).record, p, rt, rest);
  }

  /** The BusyBox summary lines set the counts, loss and RTT values, and clear the elapsed time. */
  lemma BusyboxSummaryRead(r: Record, pk: seq<string>, rt: seq<string>, rest: seq<string>)
    requires Fits(BusyboxPackets.fields, pk) && Fits(BusyboxRtt.fields, rt)
    requires ParseDecimal(pk[2]).Some?
    requires ParseDecimal(rt[0]).Some? && ParseDecimal(rt[1]).Some? && ParseDecimal(rt[2]).Some?
    ensures var s := BusyboxRttStep(BusyboxPacketStep(r, [Render(BusyboxPackets, pk), Render(BusyboxRtt, rt)] + rest).record,
                                    [Render(BusyboxPackets, pk), Render(BusyboxRtt, rt)] + rest);
      s == Step(Record(r.pingType, ParseDecimal(pk[2]), Some(DigitsValue(pk[0])), Some(DigitsValue(pk[1])),
                       None, ParseDecimal(rt[0]), ParseDecimal(rt[1]), ParseDecimal(rt[2]), r.rttMdev), None) &&
      BusyboxPacketStep(r, [Render(BusyboxPackets, pk), Render(BusyboxRtt, rt)] + rest).failure.None?
  {
    var p, q := Render(BusyboxPackets, pk), Render(BusyboxRtt, rt);
    assert [p, q] + rest == [p] + ([q] + rest);
    BusyboxPacketsRead(r, pk, [q] + rest);
    BusyboxRttRead(BusyboxPacketStep(r, [p, q] + rest).record, p, rt, rest);
  }

  /**
    A whole iputils report (reply text, separator, packet and RTT lines) reads back
    every number of its summary, whatever the object held before and whatever the
    reply lines say.
   */
  lemma LinuxReportRead(r: Record, target: string, raw: string, pk: seq<string>, rt: seq<string>, trailing: bool)
    requires NoBlankLine(raw)
    requires Fits(LinuxPackets.fields, pk) && Fits(LinuxRtt.fields, rt)
    requires ParseDecimal(pk[2]).Some?
    requires ParseDecimal(rt[0]).Some? && ParseDecimal(rt[1]).Some? && ParseDecimal(rt[2]).Some? && ParseDecimal(rt[3]).Some?
    ensures Parse(r, target, raw + Separator(target) + LinuxSummary(pk, rt, trailing)) ==
      Step(Record(Some(Linux), ParseDecimal(pk[2]), Some(DigitsValue(pk[0])), Some(DigitsValue(pk[1])),
                  Some(DigitsValue(pk[3])), ParseDecimal(rt[0]), ParseDecimal(rt[1]), ParseDecimal(rt[2]),
                  ParseDecimal(rt[3])), None)
  {
    var p, q := Render(LinuxPackets, pk), Render(LinuxRtt, rt);
    var tail := if trailing then "\n" else "";
    LinuxPacketsWellFormed();
    LinuxRttWellFormed();
    RenderSingleLine(LinuxPackets, pk);
    RenderSingleLine(LinuxRtt, rt);
    ReportParts(raw, target, p, q, trailing);
    SignatureInReport(raw + Separator(target), p, LinuxRtt.head, RenderFields(LinuxRtt.fields, rt), tail);
    var summary := LinuxSummary(pk, rt, trailing);
    assert Identified(r, raw + Separator(target) + summary) == Some(Linux);
    ParseOfReport(r, target, raw, summary);
    LinuxSummaryRead(r.(pingType := Some(Linux)), pk, rt, if trailing then [""] else []);
  }

  /**
    A whole BusyBox report reads back transmitted, received, loss and the three RTT
    values of its summary, leaves the elapsed time absent and recomputes mdev from the
    reply samples.
   */
  lemma BusyboxReportRead(r: Record, target: string, raw: string, pk: seq<string>, rt: seq<string>, trailing: bool, times: seq<real>)
    requires NoBlankLine(raw) && Samples(Lines(raw)) == Ok(times)
    requires Fits(BusyboxPackets.fields, pk) && Fits(BusyboxRtt.fields, rt)
    requires ParseDecimal(pk[2]).Some?
    requires ParseDecimal(rt[0]).Some? && ParseDecimal(rt[1]).Some? && ParseDecimal(rt[2]).Some?
    requires !Contains(raw + Separator(target) + BusyboxSummary(pk, rt, trailing), LinuxSignature)
    ensures Parse(r, target, raw + Separator(target) + BusyboxSummary(pk, rt, trailing)) ==
      Step(Record(Some(BusyBox), ParseDecimal(pk[2]), Some(DigitsValue(pk[0])), Some(DigitsValue(pk[1])),
                  None, ParseDecimal(rt[0]), ParseDecimal(rt[1]), ParseDecimal(rt[2]), Mdev(times)), None)
  {
    var p, q := Render(BusyboxPackets, pk), Render(BusyboxRtt, rt);
    var tail := if trailing then "\n" else "";
    BusyboxPacketsWellFormed();
    BusyboxRttWellFormed();
    RenderSingleLine(BusyboxPackets, pk);
    RenderSingleLine(BusyboxRtt, rt);
    ReportParts(raw, target, p, q, trailing);
    SignatureInReport(raw + Separator(target), p, BusyboxRtt.head, RenderFields(BusyboxRtt.fields, rt), tail);
    var summary := BusyboxSummary(pk, rt, trailing);
    assert Identified(r, raw + Separator(target) + summary) == Some(BusyBox);
    ParseOfReport(r, target, raw, summary);
    BusyboxSummaryRead(r.(pingType := Some(BusyBox)), pk, rt, if trailing then [""] else []);
  }

  /**
    A BusyBox report whose reply times are 12, 14 and 13 ms gets mdev 0.816, the
    rounded population deviation, whatever its summary says.
   */
  lemma BusyboxReportMdev(r: Record, target: string, raw: string, pk: seq<string>, rt: seq<string>, trailing: bool)
    requires NoBlankLine(raw) && Samples(Lines(raw)) == Ok([12.0, 14.0, 13.0])
    requires Fits(BusyboxPackets.fields, pk) && Fits(BusyboxRtt.fields, rt)
    requires ParseDecimal(pk[2]).Some?
    requires ParseDecimal(rt[0]).Some? && ParseDecimal(rt[1]).Some? && ParseDecimal(rt[2]).Some?
    requires !Contains(raw + Separator(target) + BusyboxSummary(pk, rt, trailing), LinuxSignature)
    ensures Parse(r, target, raw + Separator(target) + BusyboxSummary(pk, rt, trailing)).record.rttMdev == Some(0.816)
    ensures Parse(r, target, raw + Separator(target) + BusyboxSummary(pk, rt, trailing)).record.time.None?
  {
    BusyboxReportRead(r, target, raw, pk, rt, trailing, [12.0, 14.0, 13.0]);
    MdevOfTwelveFourteenThirteen();
  }
}
