/**
  The part of `Ping` (ping.py) that turns the captured text of one ping run into
  statistics: dialect detection, pattern setup, the split into reply lines and summary
  lines, and field extraction for the iputils ("linux") and BusyBox dialects.

  The class keeps the source's attributes one by one and its methods update them in
  the source's order. Each method is proved against a pure function of the attributes
  it starts from (`Snapshot()`): `Parse` for `capture`, `EvalLinux` and `EvalBusybox`
  for the two evaluators. The properties of those functions are stated here and in
  module PingProperties.
 */
module PingParse {
  import opened Wrappers
  import opened Text
  import opened Patterns
  import opened Numbers
  import opened Jitter

  /** The two ping implementations the parser recognises (the values "linux" and "busybox" of `_type`). */
  datatype Dialect = Linux | BusyBox

  /** The literal text that opens each dialect's RTT summary line. */
  const LinuxRttHead: string := "rtt min/avg/max/mdev = "
  const BusyboxRttHead: string := "round-trip min/avg/max = "

  /** The summary-header text that identifies each dialect: its RTT line, at the start of a line. */
  const LinuxSignature: string := "\n" + LinuxRttHead
  const BusyboxSignature: string := "\n" + BusyboxRttHead

  /** The line that opens the summary block, with the target inserted verbatim (`_parse_split`). */
  function Separator(target: string): string {
    "\n\n--- " + target + " ping statistics ---\n"
  }

  /**
    `^(\d+?) bytes from (\d{1,3}\.\d{1,3}\.\d{1,3}\.\d{1,3})<seqLabel>(\d+?) ttl=(\d+?) time=([0-9\.]+?) ms$`,
    with `: icmp_seq=` for iputils and `: seq=` for BusyBox. The address group is
    written as its four octet fields.
   */
  function ReplyPattern(seqLabel: string): Pattern {
    Pattern("", [
      Field(Digit, None, " bytes from "),
      Field(Digit, Some(3), "."), Field(Digit, Some(3), "."), Field(Digit, Some(3), "."),
      Field(Digit, Some(3), seqLabel),
      Field(Digit, None, " ttl="),
      Field(Digit, None, " time="),
      Field(DecimalChar, None, " ms")])
  }

  const LinuxReply: Pattern := ReplyPattern(": icmp_seq=")
  const BusyboxReply: Pattern := ReplyPattern(": seq=")

  /** The field holding Python's fifth group of a reply line, `time=`. */
  const ReplyTime: nat := 7

  /** `^(\d+?) packets transmitted, (\d+?) received, ([0-9\.]+?)% packet loss, time (\d+?)ms$` */
  const LinuxPackets: Pattern := Pattern("", [
    Field(Digit, None, " packets transmitted, "),
    Field(Digit, None, " received, "),
    Field(DecimalChar, None, "% packet loss, time "),
    Field(Digit, None, "ms")])

  /** `^rtt min/avg/max/mdev = ([0-9\.]+?)/([0-9\.]+?)/([0-9\.]+?)/([0-9\.]+?) ms$` */
  const LinuxRtt: Pattern := Pattern(LinuxRttHead, [
    Field(DecimalChar, None, "/"),
    Field(DecimalChar, None, "/"),
    Field(DecimalChar, None, "/"),
    Field(DecimalChar, None, " ms")])

  /** `^(\d+?) packets transmitted, (\d+?) packets received, ([0-9\.]+?)% packet loss$` */
  const BusyboxPackets: Pattern := Pattern("", [
    Field(Digit, None, " packets transmitted, "),
    Field(Digit, None, " packets received, "),
    Field(DecimalChar, None, "% packet loss")])

  /** `^round-trip min/avg/max = ([0-9\.]+?)/([0-9\.]+?)/([0-9\.]+?) ms$` */
  const BusyboxRtt: Pattern := Pattern(BusyboxRttHead, [
    Field(DecimalChar, None, "/"),
    Field(DecimalChar, None, "/"),
    Field(DecimalChar, None, " ms")])

  /** The four `_parse_*` attributes a setup method assigns together. */
  datatype Profile = Profile(split: string, response: Pattern, packets: Pattern, rtt: Pattern)

  /** What `_re_setup_linux` and `_re_setup_busybox` assign. */
  function ProfileFor(d: Dialect, target: string): (p: Profile)
    ensures p.split == Separator(target)
    ensures "\n" + p.rtt.head == (match d case Linux => LinuxSignature case BusyBox => BusyboxSignature)
  {
    match d
    case Linux => Profile(Separator(target), LinuxReply, LinuxPackets, LinuxRtt)
    case BusyBox => Profile(Separator(target), BusyboxReply, BusyboxPackets, BusyboxRtt)
  }

  /** Why a parse stops: no dialect, a separator split that does not give two pieces, or a group `float()` rejects. */
  datatype Failure = Unrecognized | SplitMismatch(pieces: nat) | NotANumber(text: string)

  /** The nine values the object exposes through its read-only properties; None is Python's None. */
  datatype Record = Record(
    pingType: Option<Dialect>,
    packetLoss: Option<real>,
    packetsTransmitted: Option<nat>,
    packetsReceived: Option<nat>,
    time: Option<nat>,
    rttMin: Option<real>,
    rttAvg: Option<real>,
    rttMax: Option<real>,
    rttMdev: Option<real>)

  /** The class-level defaults: every attribute None. */
  const Blank: Record := Record(None, None, None, None, None, None, None, None, None)

  /** The attributes after one stage, and the failure that ended the parse there, if any. */
  datatype Step = Step(record: Record, failure: Option<Failure>)

  predicate SamePackets(a: Record, b: Record) {
    a.packetLoss == b.packetLoss && a.packetsTransmitted == b.packetsTransmitted &&
    a.packetsReceived == b.packetsReceived && a.time == b.time
  }

  predicate SameRtt(a: Record, b: Record) {
    a.rttMin == b.rttMin && a.rttAvg == b.rttAvg && a.rttMax == b.rttMax && a.rttMdev == b.rttMdev
  }

  /**
    Which dialect the text shows, by signature: iputils wins whenever its signature is
    present, BusyBox needs its own and the absence of the iputils one.
   */
  function Detect(text: string): (d: Option<Dialect>)
    ensures d == Some(Linux) <==> Contains(text, LinuxSignature)
    ensures d == Some(BusyBox) <==> !Contains(text, LinuxSignature) && Contains(text, BusyboxSignature)
  {
    FindContains(text, LinuxSignature);
    FindContains(text, BusyboxSignature);
    if Find(text, LinuxSignature, 0).Some? then Some(Linux)
    else if Find(text, BusyboxSignature, 0).Some? then Some(BusyBox)
    else None
  }

  /** The first summary line matched against a packet pattern; no line is no match. */
  function FirstLine(p: Pattern, summary: seq<string>): (m: Option<seq<string>>)
    ensures m.Some? ==> |summary| >= 1 && Fits(p.fields, m.value)
  {
    if |summary| >= 1 then Match(p, summary[0]) else None
  }

  /** The second summary line matched against an RTT pattern; a missing line (the caught IndexError) is no match. */
  function SecondLine(p: Pattern, summary: seq<string>): (m: Option<seq<string>>)
    ensures m.Some? ==> |summary| >= 2 && Fits(p.fields, m.value)
  {
    if |summary| >= 2 then Match(p, summary[1]) else None
  }

  /**
    The assignments of ping.py:57-60 once the iputils packet line matched with groups
    `g`: both counts, then the loss (where `float()` may stop the parse), then the time.
   */
  function LinuxPacketsFrom(r: Record, g: seq<string>): (s: Step)
    requires |g| == 4 && AllIn(g[0], Digit) && AllIn(g[1], Digit) && AllIn(g[2], DecimalChar) && AllIn(g[3], Digit)
    ensures s.record.pingType == r.pingType && SameRtt(s.record, r)
    ensures s.record.packetsTransmitted == Some(DigitsValue(g[0])) && s.record.packetsReceived == Some(DigitsValue(g[1]))
    ensures s.failure.None? <==> ParseDecimal(g[2]).Some?
    ensures s.failure.None? ==> s.record.packetLoss == ParseDecimal(g[2]) && s.record.time == Some(DigitsValue(g[3]))
    ensures s.failure.Some? ==> s.failure == Some(NotANumber(g[2])) && s.record.packetLoss == r.packetLoss && s.record.time == r.time
  {
    var r1 := r.(packetsTransmitted := Some(DigitsValue(g[0])), packetsReceived := Some(DigitsValue(g[1])));
    match ParseDecimal(g[2])
    case None => Step(r1, Some(NotANumber(g[2])))
    case Some(loss) => Step(r1.(packetLoss := Some(loss), time := Some(DigitsValue(g[3]))), None)
  }

  /**
    The iputils packet line (ping.py:52-60): transmitted, received, loss and time are
    set together or not at all; if `float()` rejects the loss group the parse stops
    after the two counts.
   */
  function LinuxPacketStep(r: Record, summary: seq<string>): (s: Step)
    ensures s.record.pingType == r.pingType && SameRtt(s.record, r)
    ensures FirstLine(LinuxPackets, summary).None? ==> s == Step(r, None)
    ensures s.failure.None? && FirstLine(LinuxPackets, summary).Some? ==>
      s.record.packetsTransmitted.Some? && s.record.packetsReceived.Some? &&
      s.record.packetLoss.Some? && s.record.time.Some?
    ensures s.failure.Some? ==>
      s.failure.value.NotANumber? && s.record.packetsTransmitted.Some? && s.record.packetsReceived.Some? &&
      s.record.packetLoss == r.packetLoss && s.record.time == r.time
  {
    match FirstLine(LinuxPackets, summary)
    case None => Step(r, None)
    case Some(g) =>
      assert Token(LinuxPackets.fields[0], g[0]) && Token(LinuxPackets.fields[1], g[1]);
      assert Token(LinuxPackets.fields[2], g[2]) && Token(LinuxPackets.fields[3], g[3]);
      LinuxPacketsFrom(r, g)
  }

  /**
    The assignments of ping.py:67-70 once the iputils RTT line matched with groups `g`:
    min, avg, max and mdev in that order, each through `float()`, the first rejected
    group stopping the parse with the earlier ones set.
   */
  function LinuxRttFrom(r: Record, g: seq<string>): (s: Step)
    requires |g| == 4 && AllIn(g[0], DecimalChar) && AllIn(g[1], DecimalChar)
    requires AllIn(g[2], DecimalChar) && AllIn(g[3], DecimalChar)
    ensures s.record.pingType == r.pingType && SamePackets(s.record, r)
    ensures s.failure.None? <==>
      ParseDecimal(g[0]).Some? && ParseDecimal(g[1]).Some? && ParseDecimal(g[2]).Some? && ParseDecimal(g[3]).Some?
    ensures s.failure.None? ==>
      s.record.rttMin == ParseDecimal(g[0]) && s.record.rttAvg == ParseDecimal(g[1]) &&
      s.record.rttMax == ParseDecimal(g[2]) && s.record.rttMdev == ParseDecimal(g[3])
    ensures s.failure.Some? ==> s.failure.value.NotANumber? && s.record.rttMdev == r.rttMdev
  {
    match ParseDecimal(g[0])
    case None => Step(r, Some(NotANumber(g[0])))
    case Some(lo) =>
      var r1 := r.(rttMin := Some(lo));
      match ParseDecimal(g[1])
      case None => Step(r1, Some(NotANumber(g[1])))
      case Some(avg) =>
        var r2 := r1.(rttAvg := Some(avg));
        match ParseDecimal(g[2])
        case None => Step(r2, Some(NotANumber(g[2])))
        case Some(hi) =>
          var r3 := r2.(rttMax := Some(hi));
          match ParseDecimal(g[3])
          case None => Step(r3, Some(NotANumber(g[3])))
          case Some(mdev) => Step(r3.(rttMdev := Some(mdev)), None)
  }

  /**
    The iputils RTT line (ping.py:62-70): min, avg, max and mdev are set together or
    not at all; `float()` rejecting a group stops the parse with the earlier ones set.
   */
  function LinuxRttStep(r: Record, summary: seq<string>): (s: Step)
    ensures s.record.pingType == r.pingType && SamePackets(s.record, r)
    ensures SecondLine(LinuxRtt, summary).None? ==> s == Step(r, None)
    ensures s.failure.None? && SecondLine(LinuxRtt, summary).Some? ==>
      s.record.rttMin.Some? && s.record.rttAvg.Some? && s.record.rttMax.Some? && s.record.rttMdev.Some?
    ensures s.failure.Some? ==> s.failure.value.NotANumber? && s.record.rttMdev == r.rttMdev
  {
    match SecondLine(LinuxRtt, summary)
    case None => Step(r, None)
    case Some(g) =>
      assert Token(LinuxRtt.fields[0], g[0]) && Token(LinuxRtt.fields[1], g[1]);
      assert Token(LinuxRtt.fields[2], g[2]) && Token(LinuxRtt.fields[3], g[3]);
      LinuxRttFrom(r, g)
  }

  /** `_evaluate_linux`: the packet line, then the RTT line; the reply lines play no part. */
  function EvalLinux(r: Record, summary: seq<string>): (s: Step)
    ensures s.record.pingType == r.pingType
    ensures s.failure.Some? ==> s.failure.value.NotANumber?
  {
    var s := LinuxPacketStep(r, summary);
    if s.failure.Some? then s else LinuxRttStep(s.record, summary)
  }

  /**
    The assignments of ping.py:78-81 once the BusyBox packet line matched with groups
    `g`: both counts, then the loss (where `float()` may stop the parse), then the
    elapsed time cleared.
   */
  function BusyboxPacketsFrom(r: Record, g: seq<string>): (s: Step)
    requires |g| == 3 && AllIn(g[0], Digit) && AllIn(g[1], Digit) && AllIn(g[2], DecimalChar)
    ensures s.record.pingType == r.pingType && SameRtt(s.record, r)
    ensures s.record.packetsTransmitted == Some(DigitsValue(g[0])) && s.record.packetsReceived == Some(DigitsValue(g[1]))
    ensures s.failure.None? <==> ParseDecimal(g[2]).Some?
    ensures s.failure.None? ==> s.record.packetLoss == ParseDecimal(g[2]) && s.record.time.None?
    ensures s.failure.Some? ==> s.failure == Some(NotANumber(g[2])) && s.record.packetLoss == r.packetLoss && s.record.time == r.time
  {
    var r1 := r.(packetsTransmitted := Some(DigitsValue(g[0])), packetsReceived := Some(DigitsValue(g[1])));
    match ParseDecimal(g[2])
    case None => Step(r1, Some(NotANumber(g[2])))
    case Some(loss) => Step(r1.(packetLoss := Some(loss), time := None), None)
  }

  /**
    The BusyBox packet line (ping.py:73-81): transmitted, received and loss are set
    together and the elapsed time is cleared, or nothing changes.
   */
  function BusyboxPacketStep(r: Record, summary: seq<string>): (s: Step)
    ensures s.record.pingType == r.pingType && SameRtt(s.record, r)
    ensures FirstLine(BusyboxPackets, summary).None? ==> s == Step(r, None)
    ensures s.failure.None? && FirstLine(BusyboxPackets, summary).Some? ==>
      s.record.packetsTransmitted.Some? && s.record.packetsReceived.Some? &&
      s.record.packetLoss.Some? && s.record.time.None?
    ensures s.failure.Some? ==>
      s.failure.value.NotANumber? && s.record.packetsTransmitted.Some? && s.record.packetsReceived.Some? &&
      s.record.packetLoss == r.packetLoss && s.record.time == r.time
  {
    match FirstLine(BusyboxPackets, summary)
    case None => Step(r, None)
    case Some(g) =>
      assert Token(BusyboxPackets.fields[0], g[0]) && Token(BusyboxPackets.fields[1], g[1]);
      assert Token(BusyboxPackets.fields[2], g[2]);
      BusyboxPacketsFrom(r, g)
  }

  /**
    The assignments of ping.py:88-90 once the BusyBox RTT line matched with groups `g`:
    min, avg and max in that order, each through `float()`; mdev is not touched.
   */
  function BusyboxRttFrom(r: Record, g: seq<string>): (s: Step)
    requires |g| == 3 && AllIn(g[0], DecimalChar) && AllIn(g[1], DecimalChar) && AllIn(g[2], DecimalChar)
    ensures s.record.pingType == r.pingType && SamePackets(s.record, r) && s.record.rttMdev == r.rttMdev
    ensures s.failure.None? <==> ParseDecimal(g[0]).Some? && ParseDecimal(g[1]).Some? && ParseDecimal(g[2]).Some?
    ensures s.failure.None? ==>
      s.record.rttMin == ParseDecimal(g[0]) && s.record.rttAvg == ParseDecimal(g[1]) && s.record.rttMax == ParseDecimal(g[2])
    ensures s.failure.Some? ==> s.failure.value.NotANumber?
  {
    match ParseDecimal(g[0])
    case None => Step(r, Some(NotANumber(g[0])))
    case Some(lo) =>
      var r1 := r.(rttMin := Some(lo));
      match ParseDecimal(g[1])
      case None => Step(r1, Some(NotANumber(g[1])))
      case Some(avg) =>
        var r2 := r1.(rttAvg := Some(avg));
        match ParseDecimal(g[2])
        case None => Step(r2, Some(NotANumber(g[2])))
        case Some(hi) => Step(r2.(rttMax := Some(hi)), None)
  }

  /** The BusyBox RTT line (ping.py:83-90): min, avg and max together or not at all; mdev is not touched. */
  function BusyboxRttStep(r: Record, summary: seq<string>): (s: Step)
    ensures s.record.pingType == r.pingType && SamePackets(s.record, r) && s.record.rttMdev == r.rttMdev
    ensures SecondLine(BusyboxRtt, summary).None? ==> s == Step(r, None)
    ensures s.failure.None? && SecondLine(BusyboxRtt, summary).Some? ==>
      s.record.rttMin.Some? && s.record.rttAvg.Some? && s.record.rttMax.Some?
    ensures s.failure.Some? ==> s.failure.value.NotANumber?
  {
    match SecondLine(BusyboxRtt, summary)
    case None => Step(r, None)
    case Some(g) =>
      assert Token(BusyboxRtt.fields[0], g[0]) && Token(BusyboxRtt.fields[1], g[1]);
      assert Token(BusyboxRtt.fields[2], g[2]);
      BusyboxRttFrom(r, g)
  }

  /**
    The `time=` samples of the reply lines (ping.py:93-100), in line order: a line that
    matches the BusyBox reply pattern adds its time, any other line adds nothing, and a
    time `float()` rejects stops the collection.
   */
  function Samples(rows: seq<string>): (r: Result<seq<real>, Failure>)
    ensures r.Ok? ==> |r.value| <= |rows|
    ensures r.Err? ==> r.error.NotANumber?
    decreases |rows|
  {
    if rows == [] then Ok([])
    else
      match Samples(rows[..|rows| - 1])
      case Err(f) => Err(f)
      case Ok(times) =>
        match Match(BusyboxReply, rows[|rows| - 1])
        case None => Ok(times)
        case Some(g) =>
          assert Token(BusyboxReply.fields[ReplyTime], g[ReplyTime]);
          match ParseDecimal(g[ReplyTime])
          case None => Err(NotANumber(g[ReplyTime]))
          case Some(t) => Ok(times + [t])
  }

  /**
    `_evaluate_busybox`: the packet line, the RTT line, then mdev recomputed from the
    reply samples (None when there is none), whatever the summary lines held.
   */
  function EvalBusybox(r: Record, raw: seq<string>, summary: seq<string>): (s: Step)
    ensures s.record.pingType == r.pingType
    ensures s.failure.Some? ==> s.failure.value.NotANumber?
  {
    var s1 := BusyboxPacketStep(r, summary);
    if s1.failure.Some? then s1
    else
      var s2 := BusyboxRttStep(s1.record, summary);
      if s2.failure.Some? then s2
      else
        match Samples(raw)
        case Err(f) => Step(s2.record, Some(f))
        case Ok(times) => Step(s2.record.(rttMdev := Mdev(times)), None)
  }

  /** The dialect after `_identify`: the detected one, or the one identified by an earlier capture. */
  function Identified(r: Record, text: string): (d: Option<Dialect>)
    ensures Contains(text, LinuxSignature) ==> d == Some(Linux)
    ensures !Contains(text, LinuxSignature) && Contains(text, BusyboxSignature) ==> d == Some(BusyBox)
    ensures !Contains(text, LinuxSignature) && !Contains(text, BusyboxSignature) ==> d == r.pingType
    ensures d.None? <==> r.pingType.None? && !Contains(text, LinuxSignature) && !Contains(text, BusyboxSignature)
  {
    if Detect(text).Some? then Detect(text) else r.pingType
  }

  /**
    `capture` after the command has run (ping.py:42-49): identify the dialect (keeping
    the previous one when no signature is found), split on the separator, which must
    give exactly two pieces, cut both parts into lines and run the dialect's evaluator.
   */
  function Parse(r: Record, target: string, text: string): (s: Step)
    ensures s.record.pingType == Identified(r, text)
    ensures s.failure == Some(Unrecognized) <==> Identified(r, text).None?
    ensures s.failure.Some? && !s.failure.value.NotANumber? ==> SamePackets(s.record, r) && SameRtt(s.record, r)
    ensures Identified(r, text).Some? && |Split(text, Separator(target))| != 2 ==>
      s == Step(r.(pingType := Identified(r, text)), Some(SplitMismatch(|Split(text, Separator(target))|)))
  {
    var d := Identified(r, text);
    var r1 := r.(pingType := d);
    match d
    case None => Step(r1, Some(Unrecognized))
    case Some(dialect) =>
      var pieces := Split(text, Separator(target));
      if |pieces| != 2 then Step(r1, Some(SplitMismatch(|pieces|)))
      else
        var raw, summary := Lines(pieces[0]), Lines(pieces[1]);
        match dialect
        case Linux => EvalLinux(r1, summary)
        case BusyBox => EvalBusybox(r1, raw, summary)
  }

  /** The `Ping` object, from the point where the captured text is available. */
  class Ping {
    const target: string
    var pingType: Option<Dialect>
    var profile: Option<Profile>
    var packetLoss: Option<real>
    var packetsTransmitted: Option<nat>
    var packetsReceived: Option<nat>
    var time: Option<nat>
    var rttMin: Option<real>
    var rttAvg: Option<real>
    var rttMax: Option<real>
    var rttMdev: Option<real>

    /** The patterns in place are those of the identified dialect, and there are none before identification. */
    ghost predicate Valid()
      reads this`pingType, this`profile
    {
      match pingType
      case None => profile.None?
      case Some(d) => profile == Some(ProfileFor(d, target))
    }

    /** The values of the nine read-only properties. */
    function Snapshot(): Record
      reads this
    {
      Record(pingType, packetLoss, packetsTransmitted, packetsReceived, time, rttMin, rttAvg, rttMax, rttMdev)
    }

    /** A fresh object for `target`, before any capture. */
    constructor (target: string)
      ensures this.target == target
      ensures Valid() && Snapshot() == Blank
    {
      this.target := target;
      pingType, profile := None, None;
      packetLoss, packetsTransmitted, packetsReceived, time := None, None, None, None;
      rttMin, rttAvg, rttMax, rttMdev := None, None, None, None;
    }

    /** `_re_setup_linux`. */
    method SetupLinux()
      modifies this`profile
      ensures profile == Some(ProfileFor(Linux, target))
    {
      profile := Some(ProfileFor(Linux, target));
    }

    /** `_re_setup_busybox`. */
    method SetupBusybox()
      modifies this`profile
      ensures profile == Some(ProfileFor(BusyBox, target))
    {
      profile := Some(ProfileFor(BusyBox, target));
    }

    /** `_identify`: set the dialect from the signatures (or keep the old one) and set up its patterns. */
    method Identify(text: string)
      requires Valid()
      modifies this`pingType, this`profile
      ensures Valid()
      ensures pingType == Identified(old(Snapshot()), text)
    {
      if Find(text, LinuxSignature, 0).Some? {
        pingType := Some(Linux);
      } else if Find(text, BusyboxSignature, 0).Some? {
        pingType := Some(BusyBox);
      }
      if pingType == Some(Linux) {
        SetupLinux();
      } else if pingType == Some(BusyBox) {
        SetupBusybox();
      }
    }

    /** `capture` from the captured output on: the new attributes are those Parse gives. */
    method Capture(text: string) returns (failure: Option<Failure>)
      requires Valid()
      modifies this
      ensures Valid()
      ensures Snapshot() == Parse(old(Snapshot()), target, text).record
      ensures failure == Parse(old(Snapshot()), target, text).failure
    {
      Identify(text);
      if profile.None? {
        return Some(Unrecognized);
      }
      var pieces := Split(text, profile.value.split);
      if |pieces| != 2 {
        return Some(SplitMismatch(|pieces|));
      }
      var raw := Lines(pieces[0]);
      var summary := Lines(pieces[1]);
      if pingType == Some(Linux) {
        failure := EvaluateLinux(raw, summary);
      } else {
        failure := EvaluateBusybox(raw, summary);
      }
    }

    /** `_evaluate_linux`; `raw` is accepted and never read. */
    method EvaluateLinux(raw: seq<string>, summary: seq<string>) returns (failure: Option<Failure>)
      requires Valid() && pingType == Some(Linux)
      modifies this`packetsTransmitted, this`packetsReceived, this`packetLoss, this`time,
        this`rttMin, this`rttAvg, this`rttMax, this`rttMdev
      ensures Snapshot() == EvalLinux(old(Snapshot()), summary).record
      ensures failure == EvalLinux(old(Snapshot()), summary).failure
    {
      failure := ReadLinuxPackets(summary);
      if failure.None? {
        failure := ReadLinuxRtt(summary);
      }
    }

    /** ping.py:52-60, with the iputils packet pattern in place. */
    method ReadLinuxPackets(summary: seq<string>) returns (failure: Option<Failure>)
      requires profile == Some(ProfileFor(Linux, target))
      modifies this`packetsTransmitted, this`packetsReceived, this`packetLoss, this`time
      ensures Snapshot() == LinuxPacketStep(old(Snapshot()), summary).record
      ensures failure == LinuxPacketStep(old(Snapshot()), summary).failure
    {
      var p := profile.value.packets;
      var m := FirstLine(p, summary);
      if m.Some? {
        var g := m.value;
        assert Token(p.fields[0], g[0]) && Token(p.fields[1], g[1]);
        assert Token(p.fields[2], g[2]) && Token(p.fields[3], g[3]);
        failure := StoreLinuxPackets(g);
      } else {
        failure := None;
      }
    }

    /** ping.py:57-60: the groups of a matched iputils packet line, stored field by field. */
    method StoreLinuxPackets(g: seq<string>) returns (failure: Option<Failure>)
      requires |g| == 4 && AllIn(g[0], Digit) && AllIn(g[1], Digit) && AllIn(g[2], DecimalChar) && AllIn(g[3], Digit)
      modifies this`packetsTransmitted, this`packetsReceived, this`packetLoss, this`time
      ensures Snapshot() == LinuxPacketsFrom(old(Snapshot()), g).record
      ensures failure == LinuxPacketsFrom(old(Snapshot()), g).failure
    {
      packetsTransmitted := Some(DigitsValue(g[0]));
      packetsReceived := Some(DigitsValue(g[1]));
      var loss := ParseDecimal(g[2]);
      if loss.None? {
        return Some(NotANumber(g[2]));
      }
      packetLoss := loss;
      time := Some(DigitsValue(g[3]));
      failure := None;
    }

    /** ping.py:62-70, with the iputils RTT pattern in place. */
    method ReadLinuxRtt(summary: seq<string>) returns (failure: Option<Failure>)
      requires profile == Some(ProfileFor(Linux, target))
      modifies this`rttMin, this`rttAvg, this`rttMax, this`rttMdev
      ensures Snapshot() == LinuxRttStep(old(Snapshot()), summary).record
      ensures failure == LinuxRttStep(old(Snapshot()), summary).failure
    {
      var p := profile.value.rtt;
      var m := SecondLine(p, summary);
      if m.Some? {
        var g := m.value;
        assert Token(p.fields[0], g[0]) && Token(p.fields[1], g[1]);
        assert Token(p.fields[2], g[2]) && Token(p.fields[3], g[3]);
        failure := StoreLinuxRtt(g);
      } else {
        failure := None;
      }
    }

    /** ping.py:67-70: the groups of a matched iputils RTT line, stored field by field. */
    method StoreLinuxRtt(g: seq<string>) returns (failure: Option<Failure>)
      requires |g| == 4 && AllIn(g[0], DecimalChar) && AllIn(g[1], DecimalChar)
      requires AllIn(g[2], DecimalChar) && AllIn(g[3], DecimalChar)
      modifies this`rttMin, this`rttAvg, this`rttMax, this`rttMdev
      ensures Snapshot() == LinuxRttFrom(old(Snapshot()), g).record
      ensures failure == LinuxRttFrom(old(Snapshot()), g).failure
    {
      var v := ParseDecimal(g[0]);
      if v.None? {
        return Some(NotANumber(g[0]));
      }
      rttMin := v;
      v := ParseDecimal(g[1]);
      if v.None? {
        return Some(NotANumber(g[1]));
      }
      rttAvg := v;
      v := ParseDecimal(g[2]);
      if v.None? {
        return Some(NotANumber(g[2]));
      }
      rttMax := v;
      v := ParseDecimal(g[3]);
      if v.None? {
        return Some(NotANumber(g[3]));
      }
      rttMdev := v;
      failure := None;
    }

    /** `_evaluate_busybox`: packet line, RTT line, then mdev from the collected reply times. */
    method EvaluateBusybox(raw: seq<string>, summary: seq<string>) returns (failure: Option<Failure>)
      requires Valid() && pingType == Some(BusyBox)
      modifies this`packetsTransmitted, this`packetsReceived, this`packetLoss, this`time,
        this`rttMin, this`rttAvg, this`rttMax, this`rttMdev
      ensures Snapshot() == EvalBusybox(old(Snapshot()), raw, summary).record
      ensures failure == EvalBusybox(old(Snapshot()), raw, summary).failure
    {
      failure := ReadBusyboxPackets(summary);
      if failure.Some? {
        return;
      }
      failure := ReadBusyboxRtt(summary);
      if failure.Some? {
        return;
      }
      var times := CollectTimes(raw);
      if times.Err? {
        return Some(times.error);
      }
      rttMdev := ComputeMdev(times.value);
    }

    /**
      The method form of ping.py:101-107: the mean, the squared deviations, their mean and
      its rounded root, or None without samples. Its properties are proved about `Mdev`.
     */
    static method ComputeMdev(times: seq<real>) returns (mdev: Option<real>)
      ensures mdev == Mdev(times)
    {
      if |times| > 0 {
        var meanRtt := Sum(times) / |times| as real;
        var squared := SquaredDeviations(times, meanRtt);
        SumNonNegative(squared);
        mdev := Some(RoundedRoot(Sum(squared) / |squared| as real));
      } else {
        mdev := None;
      }
    }

    /** ping.py:73-81, with the BusyBox packet pattern in place. */
    method ReadBusyboxPackets(summary: seq<string>) returns (failure: Option<Failure>)
      requires profile == Some(ProfileFor(BusyBox, target))
      modifies this`packetsTransmitted, this`packetsReceived, this`packetLoss, this`time
      ensures Snapshot() == BusyboxPacketStep(old(Snapshot()), summary).record
      ensures failure == BusyboxPacketStep(old(Snapshot()), summary).failure
    {
      var p := profile.value.packets;
      var m := FirstLine(p, summary);
      if m.Some? {
        var g := m.value;
        assert Token(p.fields[0], g[0]) && Token(p.fields[1], g[1]);
        assert Token(p.fields[2], g[2]);
        failure := StoreBusyboxPackets(g);
      } else {
        failure := None;
      }
    }

    /** ping.py:78-81: the groups of a matched BusyBox packet line, stored field by field. */
    method StoreBusyboxPackets(g: seq<string>) returns (failure: Option<Failure>)
      requires |g| == 3 && AllIn(g[0], Digit) && AllIn(g[1], Digit) && AllIn(g[2], DecimalChar)
      modifies this`packetsTransmitted, this`packetsReceived, this`packetLoss, this`time
      ensures Snapshot() == BusyboxPacketsFrom(old(Snapshot()), g).record
      ensures failure == BusyboxPacketsFrom(old(Snapshot()), g).failure
    {
      packetsTransmitted := Some(DigitsValue(g[0]));
      packetsReceived := Some(DigitsValue(g[1]));
      var loss := ParseDecimal(g[2]);
      if loss.None? {
        return Some(NotANumber(g[2]));
      }
      packetLoss := loss;
      time := None;
      failure := None;
    }

    /** ping.py:83-90, with the BusyBox RTT pattern in place. */
    method ReadBusyboxRtt(summary: seq<string>) returns (failure: Option<Failure>)
      requires profile == Some(ProfileFor(BusyBox, target))
      modifies this`rttMin, this`rttAvg, this`rttMax
      ensures Snapshot() == BusyboxRttStep(old(Snapshot()), summary).record
      ensures failure == BusyboxRttStep(old(Snapshot()), summary).failure
    {
      var p := profile.value.rtt;
      var m := SecondLine(p, summary);
      if m.Some? {
        var g := m.value;
        assert Token(p.fields[0], g[0]) && Token(p.fields[1], g[1]);
        assert Token(p.fields[2], g[2]);
        failure := StoreBusyboxRtt(g);
      } else {
        failure := None;
      }
    }

    /** ping.py:88-90: the groups of a matched BusyBox RTT line, stored field by field. */
    method StoreBusyboxRtt(g: seq<string>) returns (failure: Option<Failure>)
      requires |g| == 3 && AllIn(g[0], DecimalChar) && AllIn(g[1], DecimalChar) && AllIn(g[2], DecimalChar)
      modifies this`rttMin, this`rttAvg, this`rttMax
      ensures Snapshot() == BusyboxRttFrom(old(Snapshot()), g).record
      ensures failure == BusyboxRttFrom(old(Snapshot()), g).failure
    {
      var v := ParseDecimal(g[0]);
      if v.None? {
        return Some(NotANumber(g[0]));
      }
      rttMin := v;
      v := ParseDecimal(g[1]);
      if v.None? {
        return Some(NotANumber(g[1]));
      }
      rttAvg := v;
      v := ParseDecimal(g[2]);
      if v.None? {
        return Some(NotANumber(g[2]));
      }
      rttMax := v;
      failure := None;
    }

    /** The loop of ping.py:93-100: the reply times in line order, or the failure of the first bad one. */
    method CollectTimes(raw: seq<string>) returns (times: Result<seq<real>, Failure>)
      requires profile == Some(ProfileFor(BusyBox, target))
      ensures times == Samples(raw)
    {
      var response := profile.value.response;
      var found: seq<real> := [];
      for i := 0 to |raw|
        invariant Samples(raw[..i]) == Ok(found)
      {
        assert raw[..i + 1][..i] == raw[..i];
        var m := Match(response, raw[i]);
        if m.Some? {
          var g := m.value;
          assert Token(response.fields[ReplyTime], g[ReplyTime]);
          var t := ParseDecimal(g[ReplyTime]);
          if t.None? {
            SamplesStopAt(raw, i + 1);
            return Err(NotANumber(g[ReplyTime]));
          }
          found := found + [t.value];
        }
      }
      assert raw[..|raw|] == raw;
      return Ok(found);
    }

    /** The read-only properties (ping.py:132-166), each the matching component of Snapshot(). */
    function PingType(): (v: Option<Dialect>)
      reads this
      ensures v == Snapshot().pingType
    {
      pingType
    }

    function PacketLoss(): (v: Option<real>)
      reads this
      ensures v == Snapshot().packetLoss
    {
      packetLoss
    }

    function PacketsTransmitted(): (v: Option<nat>)
      reads this
      ensures v == Snapshot().packetsTransmitted
    {
      packetsTransmitted
    }

    function PacketsReceived(): (v: Option<nat>)
      reads this
      ensures v == Snapshot().packetsReceived
    {
      packetsReceived
    }

    function Time(): (v: Option<nat>)
      reads this
      ensures v == Snapshot().time
    {
      time
    }

    function RttMin(): (v: Option<real>)
      reads this
      ensures v == Snapshot().rttMin
    {
      rttMin
    }

    function RttAvg(): (v: Option<real>)
      reads this
      ensures v == Snapshot().rttAvg
    {
      rttAvg
    }

    function RttMax(): (v: Option<real>)
      reads this
      ensures v == Snapshot().rttMax
    {
      rttMax
    }

    function RttMdev(): (v: Option<real>)
      reads this
      ensures v == Snapshot().rttMdev
    {
      rttMdev
    }
  }

  /** Once a `float()` in the sample loop has failed, the whole collection fails with it. */
  lemma {:induction false} SamplesStopAt(rows: seq<string>, n: nat)
    requires n <= |rows| && Samples(rows[..n]).Err?
    ensures Samples(rows) == Samples(rows[..n])
    decreases |rows| - n
  {
    if n < |rows| {
      assert rows[..n + 1][..n] == rows[..n];
      SamplesStopAt(rows, n + 1);
    } else {
      assert rows[..n] == rows;
    }
  }
}
