# ping.py output parser, modelled in Dafny

`ping.py` runs the system `ping` binary against a target and turns the text it prints
into statistics. The `Ping` object exposes them as nine read-only properties:
- the dialect (`ping_type`)
- packets transmitted and received
- packet loss
- elapsed time
- RTT min, avg, max and mdev

This project models the parsing half of that object, from the point where the
captured text is available:

- **Dialect detection** (`_identify`). The iputils ("linux") dialect is recognised by
  `"\nrtt min/avg/max/mdev = "`. BusyBox is recognised by `"\nround-trip min/avg/max = "`,
  and only when the iputils signature is absent. When neither is present, the dialect of
  an earlier capture is kept.
- **Pattern setup** (`_re_setup_linux`, `_re_setup_busybox`). The separator
  `"\n\n--- <target> ping statistics ---\n"` contains the target verbatim. Each dialect
  has three anchored patterns: reply line, packet line and RTT line.
- **Split and dispatch** (`capture`). `split` on the separator must give exactly two
  pieces: the text is cut at the first occurrence of the separator, and the rest of the
  text after it must not contain the separator again. (An occurrence may overlap the
  first one, since `split` does not look for overlapping matches.) Both parts are cut
  into lines, and the dialect's evaluator runs on them.
- **Evaluators**:
  - `_evaluate_linux` reads the counts, loss, time and the four RTT values from the
    first two summary lines.
  - `_evaluate_busybox` reads the counts, loss and three RTT values, and clears the time.
    It then recomputes mdev from the `time=` values of the reply lines: the population
    standard deviation, rounded to three decimals. mdev is None when no reply line
    matched.

## Module layout

- `Wrappers` (wrappers.dfy): `Option` and `Result`.
- `Text` (text.dfy): substring search, Python's `str.split(sep)`, `'\n'.join` and
  splitting into lines.
- `Patterns` (patterns.dfy): the source's regular expressions.
  - Each regular expression is modelled as a leading literal followed by fields. A field
    is a run of `\d` or `[0-9\.]` plus the literal that stops it.
  - Every stop starts with a character its run cannot contain, so the lazy `+?`
    quantifiers have only one way to match. `MatchExactly` proves that the computed match
    is that one way.
- `Numbers` (numbers.dfy): `int()` on a digit group, and `float()` on a `[0-9\.]` group
  (exact rationals).
- `Jitter` (jitter.dfy): the mean, the population variance, and `round(v ** 0.5, 3)`
  computed exactly.
- `PingParse` (ping.dfy): the dialects, patterns and statistics record, and pure step
  functions for each stage of the parse.
  - The `Ping` class keeps the source's attributes as fields. Its methods update them in
    the source's order.
  - Each method is proved equal to a step function of the state it starts from
    (`Snapshot()`).
- `PingProperties` (ping_properties.dfy): the properties of those step functions, up to
  whole reports read back end to end.

Each matched summary line is handled in two stages:
- A `Read*` method matches the line against the pattern the setup stored (`FirstLine` or
  `SecondLine`).
- A `Store*` method then assigns the groups field by field.

The step function of a line (`*Step`) is split the same way: the line match, then the
assignments (`*From`).

A `float()` that rejects a group (for example `1.2.3`, which `[0-9\.]+?` accepts) raises
out of `capture` in the source. Here it ends the parse with the failure
`NotANumber(group)`. The attributes assigned before that point keep their new values, as
in the source.

## Behaviour worth knowing

- `capture` updates the object's attributes in place. Whatever was set before a failure
  stays set. In particular, the dialect is already recorded when the separator split
  fails. `Parse`/`Capture` model this.
- Unless a `float()` conversion raises first (on the loss group, an RTT group or a reply
  time), the BusyBox path recomputes mdev and overwrites `rtt_mdev`. When no reply line
  matched, it sets it to None, whatever an earlier capture left there. When a conversion
  raises, `rtt_mdev` keeps its old value. `EvalBusybox` models both.
- Nothing in `ping.py` checks that `received <= transmitted` or that
  `min <= avg <= max`. The numbers the lines show are stored as they are, so no such
  invariant is claimed here.

## Model

| member | source | states |
|---|---|---|
| PingParse.Detect | ping.py:109-113 | iputils is detected exactly when its signature occurs; BusyBox exactly when its signature occurs and the iputils one does not |
| PingParse.Identified | ping.py:109-114 | an iputils signature settles the dialect to iputils; a BusyBox signature without the iputils one settles it to BusyBox; with neither, the earlier dialect is kept; so it stays unset exactly when it was unset before and neither signature occurs |
| PingParse.Ping.Identify | ping.py:109-118 | the new dialect is `Identified` of the old state, and the patterns in place are exactly those of that dialect (`Valid`) |
| PingParse.ProfileFor | ping.py:120-130 | the profile of either dialect splits on the separator for the target, and its RTT pattern starts with that dialect's signature line |
| PingParse.Ping.SetupLinux | ping.py:120-124 | stores the separator for the object's target and the three iputils patterns |
| PingParse.Ping.SetupBusybox | ping.py:126-130 | stores the separator for the object's target and the three BusyBox patterns |
| PingProperties.SeparatorCarriesTarget | ping.py:121 | the separator is the fixed frame around the target written verbatim (length `|target| + 27`); different targets give different separators |
| PingParse.Parse | ping.py:42-49 | the resulting dialect is `Identified`; the parse fails with Unrecognized exactly when no dialect is known; a failure other than a rejected number leaves every statistic as it was; with a dialect known, a split into any number of pieces other than two (no separator, or a second one after the first) stops with `SplitMismatch` and changes only the dialect |
| PingParse.Ping.Capture | ping.py:42-49 | the new attributes and the reported failure are exactly those `Parse` gives for the old attributes, and the patterns stay those of the dialect |
| Text.Split | ping.py:43 | `str.split(sep)` always yields at least one piece |
| Text.Lines | ping.py:44-45 | `split('\n')` always yields at least one line |
| Text.SplitTwo | ping.py:43 | `split(sep)` yields two pieces `[a, b]` exactly when `text == a + sep + b`, `b` does not contain `sep` and `sep` starts nowhere inside `a` |
| Text.SplitSingle | ping.py:43 | `split(sep)` yields one piece exactly when the separator does not occur, and that piece is the whole text |
| Text.JoinSplit | ping.py:43-45 | joining the pieces of `split(sep)` with `sep` gives back the text |
| Text.SplitPiecesAvoidSeparator | ping.py:43-45 | no piece of `split(sep)` contains the separator |
| Text.LinesOfTwo | ping.py:45 | two newline-free lines joined by a newline split back into those two lines |
| Text.LinesJoin | ping.py:44-45 | newline-free lines joined with newlines split back into the same lines |
| PingProperties.SplitAtSeparator | ping.py:43 | reply text without a blank line, the separator, and summary text without two newlines in a row split into exactly the reply text and the summary text |
| PingProperties.MissingSeparator | ping.py:43 | with a dialect known and no separator in the text, the parse fails with one piece and changes nothing but the dialect |
| PingProperties.EvaluatedOnlyAfterSplit | ping.py:43-49 | an evaluator runs, whether it finishes or stops on a rejected number, only after `split` gave two pieces: text is reply part + separator + summary part, with no separator in the summary part |
| PingProperties.ProfilesWellFormed | ping.py:122-130 | all six patterns of both dialects are unambiguous and span a single line |
| PingProperties.ReplyWellFormed | ping.py:122 | the reply pattern (either sequence label) is unambiguous and spans a single line |
| PingProperties.SummaryWellFormed | ping.py:123-130 | the packet and RTT patterns of both dialects are unambiguous and span a single line |
| Patterns.Match | ping.py:53-56 | a match yields one group per field, each of the field's class and within its bounds |
| Patterns.MatchFields | ping.py:122-130 | a successful match yields groups each of its field's class and bounds, and those groups with the stops rebuild the line |
| Patterns.MatchExactly | ping.py:122-130 | for an unambiguous pattern, `match(line)` gives groups `gs` exactly when the groups fit the fields and render back to the line |
| Patterns.MatchRendered | ping.py:122-130 | a line built from fitting groups is matched, with exactly those groups |
| Patterns.GroupsUnique | ping.py:122-130 | one line has only one decomposition into fitting groups |
| Patterns.MatchNone | ping.py:53-56 | a line that is no instance of the pattern gives no match |
| Patterns.RunLength | ping.py:122-130 | the longest run of a class at the start of a line; the character after it is outside the class |
| Numbers.ParseDecimal | ping.py:59 | `float()` of a `[0-9\.]` group, when it accepts it, is never negative |
| Numbers.DigitsValue | ping.py:57 | `int()` of a digit string of length `k` is below `10^k` |
| Numbers.ParseDecimalAccepts | ping.py:59 | `float()` on a `[0-9\.]` group succeeds exactly when the group has a digit and at most one dot |
| Numbers.DecimalOfDigits | ping.py:59 | `float()` of a digit string is its integer value |
| Numbers.DecimalOfPoint | ping.py:67-70 | `float()` of `whole.frac` is whole plus frac scaled by its length |
| Numbers.DigitsValueShowNat | ping.py:57 | `int()` of the decimal digits of `n` is `n` |
| PingParse.FirstLine | ping.py:53-55 | a packet-line match needs a first summary line and yields groups that fit the pattern; a missing line is no match |
| PingParse.SecondLine | ping.py:62-65 | an RTT-line match needs a second summary line (the caught IndexError) and yields groups that fit the pattern |
| PingParse.LinuxPacketsFrom | ping.py:57-60 | both counts are set to the `int()` of their groups; loss and time are set exactly when `float()` accepts the loss group; on rejection loss and time keep their old values |
| PingParse.LinuxPacketStep | ping.py:52-60 | no matching first line changes nothing; otherwise the four packet fields are set together, or the parse stops with only the counts set; RTT fields never change |
| PingParse.Ping.ReadLinuxPackets | ping.py:52-60 | the new attributes and failure are exactly `LinuxPacketStep` of the old ones, with the stored iputils packet pattern |
| PingParse.Ping.StoreLinuxPackets | ping.py:57-60 | the new attributes and failure are exactly `LinuxPacketsFrom` of the old ones |
| PingParse.LinuxRttFrom | ping.py:67-70 | the RTT line succeeds exactly when `float()` accepts all four groups, and then min/avg/max/mdev are those values; a failure leaves mdev as it was |
| PingParse.LinuxRttStep | ping.py:62-70 | no matching second line changes nothing; a successful line sets all four RTT values; packet fields never change |
| PingParse.Ping.ReadLinuxRtt | ping.py:62-70 | the new attributes and failure are exactly `LinuxRttStep` of the old ones, with the stored iputils RTT pattern |
| PingParse.Ping.StoreLinuxRtt | ping.py:67-70 | the new attributes and failure are exactly `LinuxRttFrom` of the old ones |
| PingParse.EvalLinux | ping.py:51-70 | the dialect is untouched and the only possible failure is a rejected number |
| PingParse.Ping.EvaluateLinux | ping.py:51-70 | the new attributes and failure are exactly `EvalLinux` of the old ones |
| PingParse.BusyboxPacketsFrom | ping.py:78-81 | both counts are set; the loss is set and the time cleared exactly when `float()` accepts the loss group; on rejection loss and time keep their old values |
| PingParse.BusyboxPacketStep | ping.py:73-81 | no matching first line changes nothing; a successful line sets counts and loss and clears the time; RTT fields never change |
| PingParse.Ping.ReadBusyboxPackets | ping.py:73-81 | the new attributes and failure are exactly `BusyboxPacketStep` of the old ones, with the stored BusyBox packet pattern |
| PingParse.Ping.StoreBusyboxPackets | ping.py:78-81 | the new attributes and failure are exactly `BusyboxPacketsFrom` of the old ones |
| PingParse.BusyboxRttFrom | ping.py:88-90 | the RTT line succeeds exactly when `float()` accepts all three groups, and then min/avg/max are those values; mdev is never touched |
| PingParse.BusyboxRttStep | ping.py:83-90 | no matching second line changes nothing; a successful line sets min, avg and max; packet fields and mdev never change |
| PingParse.Ping.ReadBusyboxRtt | ping.py:83-90 | the new attributes and failure are exactly `BusyboxRttStep` of the old ones, with the stored BusyBox RTT pattern |
| PingParse.Ping.StoreBusyboxRtt | ping.py:88-90 | the new attributes and failure are exactly `BusyboxRttFrom` of the old ones |
| PingParse.Samples | ping.py:93-100 | the samples are at most one per line, and the only failure is a rejected time |
| PingParse.Ping.CollectTimes | ping.py:93-100 | the loop's result is exactly `Samples` of the reply lines |
| PingParse.SamplesStopAt | ping.py:95-100 | once a time is rejected, the lines after it cannot change the outcome |
| PingParse.EvalBusybox | ping.py:72-107 | the dialect is untouched and the only possible failure is a rejected number |
| PingParse.Ping.EvaluateBusybox | ping.py:72-107 | the new attributes and failure are exactly `EvalBusybox` of the old ones |
| PingParse.Ping.ComputeMdev | ping.py:101-107 | the computed mdev is exactly `Mdev` of the samples |
| Jitter.Mdev | ping.py:101-107 | mdev is present exactly when there is at least one sample, and is never negative |
| Jitter.SumNonNegative | ping.py:102-103 | a sum of non-negative times is non-negative |
| Jitter.SumBounds | ping.py:102 | terms between two bounds give a sum between `|xs|` times each bound |
| Jitter.MeanWithin | ping.py:102 | the mean of the reply times lies between any lower and upper bound of those times |
| Jitter.Square | ping.py:103 | a square is never negative |
| Jitter.SquaredDeviations | ping.py:103 | one squared deviation per sample, each non-negative |
| Jitter.PopulationVariance | ping.py:102-105 | the population variance is never negative |
| Jitter.VarianceZeroIffConstant | ping.py:102-105 | the variance is zero exactly when all samples are equal |
| Jitter.RoundedRoot | ping.py:105 | the result is a multiple of 0.001 whose half-thousandth interval contains the square root of the variance |
| Jitter.RoundedRootUnique | ping.py:105 | only one number satisfies those conditions, so the rounding is determined |
| Jitter.MdevOfTenTwentyThirty | ping.py:101-105 | samples 10, 20, 30 give mean 20, variance 200/3 and mdev 8.165 |
| Jitter.MdevOfTwelveFourteenThirteen | ping.py:101-105 | samples 12, 14, 13 give variance 2/3 and mdev 0.816 |
| PingProperties.LinuxPacketsRead | ping.py:52-60 | an iputils packet line sets transmitted, received, loss and time to the numbers it shows and nothing else |
| PingProperties.LinuxRttRead | ping.py:62-70 | an iputils RTT line sets min, avg, max and mdev to the numbers it shows and nothing else |
| PingProperties.LinuxRttRejected | ping.py:67 | an RTT line whose minimum `float()` rejects stops the parse with every attribute unchanged |
| PingProperties.TwoDotsRejected | ping.py:67 | `1.2.3` is a `[0-9\.]` group that `float()` rejects |
| PingProperties.BusyboxPacketsRead | ping.py:73-81 | a BusyBox packet line sets the counts and loss it shows, clears the time and changes nothing else |
| PingProperties.BusyboxRttRead | ping.py:83-90 | a BusyBox RTT line sets min, avg and max to the numbers it shows; mdev and the rest stay |
| PingProperties.SamplesCount | ping.py:94-100 | the number of samples equals the number of reply lines that match the pattern |
| PingProperties.MatchCountPositive | ping.py:94-101 | the count of matching lines is positive exactly when some line matches |
| PingProperties.SampleOfReply | ping.py:96-100 | a reply line appends its own time after the times of the lines before it |
| PingProperties.NonReplySkipped | ping.py:96-100 | a line that is not a reply adds no sample |
| PingProperties.MdevPresentIffReply | ping.py:101-107 | after a successful BusyBox evaluation, mdev is present exactly when some reply line matched, whatever the summary held |
| PingProperties.LinuxIgnoresReplies | ping.py:51-70 | the iputils result does not depend on the reply part of the report |
| PingProperties.ParseIdempotent | ping.py:42-107 | parsing the same text again over the result changes nothing |
| PingProperties.LinuxIdempotent | ping.py:51-70 | evaluating the same iputils summary twice gives the result of evaluating it once |
| PingProperties.BusyboxIdempotent | ping.py:72-107 | evaluating the same BusyBox report twice gives the result of evaluating it once |
| PingProperties.ReportParts | ping.py:43-45 | a report of reply text, separator and a two-line summary splits into the reply text and exactly those summary lines |
| PingProperties.ParseOfReport | ping.py:42-49 | once the dialect is settled and the report splits in two, the parse is that dialect's evaluator on the lines of the two parts |
| PingProperties.LinuxSummaryRead | ping.py:51-70 | the two iputils summary lines set every statistic from the numbers they show |
| PingProperties.BusyboxSummaryRead | ping.py:72-90 | the two BusyBox summary lines set counts, loss and RTT values and clear the time |
| PingProperties.LinuxReportRead | ping.py:42-70 | a whole iputils report, with or without the final newline, reads back every number of its summary, whatever the object held and the reply lines say |
| PingProperties.BusyboxReportRead | ping.py:42-107 | a whole BusyBox report reads back counts, loss and the three RTT values, leaves the time absent and sets mdev from the reply samples |
| PingProperties.BusyboxReportMdev | ping.py:72-107 | a BusyBox report whose reply times are 12, 14 and 13 ms gets mdev 0.816 and no time |
| PingParse.Ping.PingType | ping.py:164-166 | reports the dialect component of the state |
| PingParse.Ping.PacketLoss | ping.py:156-158 | reports the packet-loss component of the state |
| PingParse.Ping.PacketsTransmitted | ping.py:148-150 | reports the transmitted-count component of the state |
| PingParse.Ping.PacketsReceived | ping.py:152-154 | reports the received-count component of the state |
| PingParse.Ping.Time | ping.py:160-162 | reports the elapsed-time component of the state |
| PingParse.Ping.RttMin | ping.py:132-134 | reports the RTT minimum component of the state |
| PingParse.Ping.RttAvg | ping.py:136-138 | reports the RTT average component of the state |
| PingParse.Ping.RttMax | ping.py:140-142 | reports the RTT maximum component of the state |
| PingParse.Ping.RttMdev | ping.py:144-146 | reports the RTT mdev component of the state |

## Left out

- Building the command line and running it (ping.py:36-41): the subprocess call, the
  count, the interval and the binary path. The captured text is a parameter of
  `Capture`. `subprocess.getoutput` strips the final newline; the report lemmas cover
  text both with and without it.
- The constructor's own call to `capture` (ping.py:28-34) and the command-line entry
  point (ping.py:168-189). The model's constructor only records the target and starts
  from all-None attributes.
- An unknown dialect. The source then calls `split(None)`, a whitespace split, on the
  text. Usually the tuple unpacking then fails, and no statistic is set either way. The
  model stops with the failure `Unrecognized` and changes nothing; whitespace splitting
  is not modelled.
- Exceptions are not modelled as exceptions. A `ValueError` from `float()` that
  propagates out of `capture` is a returned `NotANumber` failure, and a separator split
  into other than two pieces is a returned `SplitMismatch`. The attributes already assigned stay, as
  in the source.
- Floating point. `float()`, the mean, the variance, `** 0.5` and `round(…, 3)` are
  computed exactly over the reals: `float()` gives the exact decimal value, and the
  rounding picks the multiple of 0.001 nearest the exact square root, with a tie going
  up. Binary rounding and Python's round-half-even on the binary value are not captured.
- Numbers.DigitsValue: never fails, whereas Python 3.11 and later make `int()` raise
  on a digit string longer than 4300 characters; the model has no such limit.
- Unicode digits. `\d` in Python's `re` also matches non-ASCII decimal digits, which
  `int()` accepts. The model's `\d` is ASCII `0-9` only.
- The address group of the reply pattern is modelled as four octet fields. That
  describes the same lines as the one group of the source.
