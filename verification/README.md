# Headset battery indicator: a verified model

The daemon reads the battery of wireless headsets and mirrors it onto virtual HID batteries. This
project models its decisions in Dafny and proves what they guarantee over whole runs: how many
requests a headset that does not answer is sent, what has to have been received before the level
shown moves, which handles and devices exist, and when an entry is withdrawn.

Every operation that changes state in place is a method of a class (`Session`, `WedgeWatch`,
`Reader`, `DevicePool`, `Batteries`, `Bridge`), proved equal to a function on values (`State`,
`Watch`, `ReaderState`, `PoolState`, `BridgeState`). The lemmas about runs are about those
functions.

| file | what it models |
|---|---|
| `Prelude.dfy`, `Headset.dfy` | instants, levels, what a reader reports |
| `DisplayName.dfy` | the label of a virtual device, cut on a UTF-8 boundary |
| `Frame.dfy` | the report scanner, and the framed stream it is run on |
| `Session.dfy`, `SessionRuns.dfy`, `SessionInvariants.dfy` | one open dongle; its request budget; its invariants, its pace and giving up |
| `Wedge.dfy` | the watch for a wedged dongle |
| `Reader.dfy`, `ReaderRuns.dfy` | sessions that come and go; where the levels reported come from |
| `ReaderStories.dfy`, `ReaderBeliefs.dfy` | what a reader's sessions and its watch owe to the passes made; what closing and reopening sessions loses |
| `ReaderReports.dfy` | what is reported of a headset, from the last word of its dongle and the cable |
| `ReaderSilence.dfy`, `ReaderBudgets.dfy` | which silences of the watch are asked about; the request budget of a product, over all its sessions |
| `Policy.dfy`, `Vetting.dfy` | the decisions about a reading; what vetting guarantees over sequences |
| `BridgeState.dfy`, `Bridge.dfy` | the bridge's steps, on values and in place |
| `BridgeInvariants.dfy`, `BridgeRuns.dfy` | what every step keeps; whole runs |
| `BridgeRecords.dfy` | which devices are struck out, which headsets are tried and which readings taken in, exactly |
| `BridgeClocks.dfy`, `BridgePace.dfy`, `BridgeGone.dfy` | the grace clocks; how soon they are judged; headsets reported gone |
| `Gauges.dfy`, `Lives.dfy` | how one reading moves the level shown; what each device shows over a run, from the readings taken in since it was made |
| `Published.dfy`, `Daemon.dfy` | what was shown over a run; reader and bridge together |
| `Summary.dfy` | when a poll's finding is worth a line |

## How the model stands for the program

- Instants and durations are natural numbers of nanoseconds. `duration_since` saturates at zero, as
  it does in the program. A session's `opened_at` is the instant of the poll that opened it.
- Whatever the kernel, the hardware or the readers decide is an argument: what an open, a fetch, a
  write, a device creation, a registration, a push or a round of serving comes to. A lemma that
  holds for all arguments holds whatever they do.
- `update(r)` is taken to make the device's `reading()` return `r`, whether or not the kernel took
  it; `create` to hand the handle back when it fails; `destroy` to return the handle; and an error
  of `serve_all` to name a device that is there, if it names one.
- The order in which sessions of vanished nodes are closed is left open, which covers the order of
  the program's map.
- What a dongle says is attributed to the product of the session it is polled for, as the program does,
  also when a node was taken over by another dongle.
- A headset's key is the triple it is formatted from; a handle is the one it was inherited as, or
  the number of the open that made it. Traces (`log`, `sources`,
  `trace`, `peak`) are ghost state.
- Counters are unbounded.

## Where the comments and the code part

The model follows the code. Three comments claim more than it does; the exact condition is proved.

- src/maxwell/wedge.rs:24-28 and src/maxwell/mod.rs:83-84: a request has gone out by the time a
  silence has lasted ten minutes. The silence is the watch's and outlives sessions, and while fetches
  and writes succeed a request has gone out in it if and only if some session visited in the meantime
  was due at a visit, counted from its state when the silence began or from its opening if that came
  later (`ReaderSilence.SilenceIsAskedAbout`). That can fail in several ways. The headset was reported
  gone to a session that had asked; the interval is longer than the silence, which src/main.rs:177
  accepts; the headset had still to be given up on; or no session was there for long enough, as when
  a dongle is pulled and replugged. There are runs of the first two
  (`SessionInvariants.TenMinutesNotAskedAbout`), and one of the last in which the dongle is called
  wedged without ever having been asked (`ReaderSilence.ReplugIsNotAskedAbout`). With an interval and
  a listening time of at most ten minutes, a session that was there when the silence began has asked
  ten minutes later but for the first and the third (`ReaderSilence.TenMinutesAreAskedAbout`).
- src/bridge/policy.rs:80-84: the offline grace only applies to a headset that is still listed. It
  also applies on the first poll that misses it: `Policy.OfflineGraceOfAMissingHeadset`,
  `BridgeClocks.WithdrawnExactly`, and a run in `BridgeClocks.OfflineGraceFallsOnTheMissing`. A headset that had answered is never hurt by that:
  `BridgeClocks.AnsweringHeadsetIsSpared`.
- src/maxwell/session.rs:284-285: when a headset is given up on, the quick questions are spent. A
  write that fails is a strike but not an ask, so they may not be
  (`SessionInvariants.FailedWritesAreStrikesToo`); they are exactly when three requests were sent
  (`SessionInvariants.GivingUpIsSlow`), which holds while writes succeed
  (`SessionInvariants.GivingUpIsSlowWhileWritesSucceed`).

A session that is closed hands on what it knew of the link (src/maxwell/mod.rs:206-215). That makes
re-enumeration lossless exactly as long as no poll opens a second session for a product
(`ReaderBeliefs.SecondSessionsAreTheOnlyLoss`). With one
dongle per product plugged in one still can, when a node is taken over by the dongle of another
product between two polls (`ReaderBeliefs.NodesAreTakenOver`).

The round trip of the scanner needs neither nonzero message types nor payloads without `5d`:
`Frame.RoundTrip` says exactly when it holds.

## Model

| member | source | states |
|---|---|---|
| `Frame.RoundTrip` | src/maxwell/frame.rs:58-75 | printing any list of framed messages and scanning it gives back exactly its link and battery messages, in order, if and only if no free bytes hold a whole header followed by a byte that makes it a message |
| `Frame.ReportRoundTrip` | src/maxwell/frame.rs:46-75 | the same through a whole report with any leftovers, for link states, link tails and other payloads without `5d`; a level of 93 is `5d` itself and does no harm |
| `Frame.Messages` | src/maxwell/frame.rs:52-75 | no level above 100 is ever said, whatever the frame |
| `Frame.NoStraddling` | src/maxwell/frame.rs:30-34 | no header begun in free bytes is completed by the framing of the next message |
| `Frame.LeftoversSayNothing` | src/maxwell/frame.rs:46-50 | two frames that count as many bytes as fresh and agree on each of those they have say the same, whatever else is in them and however short they are |
| `Frame.TruncationKeepsAPrefix` | src/maxwell/frame.rs:54-57 | a stream cut anywhere says a prefix of what the whole says |
| `Frame.SmallerCountSaysAPrefix` | src/maxwell/frame.rs:46-75 | so does a frame with a smaller fresh count, for any frame and counts |
| `Frame.MessagesDoNotOverlap` | src/maxwell/frame.rs:58-75 | two messages never start less than seven bytes apart |
| `DisplayNames.DisplayName` | src/headset.rs:58-72 | the label is the longest whole-character prefix, within 127 bytes of UTF-8, of the name without controls, or a stand-in if that is blank |
| `DisplayNames.LongestFitIsUnique` | src/headset.rs:61-66 | there is only one such prefix |
| `DisplayNames.BoundariesArePrefixes` | src/headset.rs:63-66 | every whole-character prefix ends on a boundary, so the search passes none over |
| `DisplayNames.EncodingIsReadBack` | src/headset.rs:61-66 | a character is encoded in the shortest UTF-8 form, which is read back as it whatever follows |
| `DisplayNames.ControlsAreAllThatGoes` | src/headset.rs:61 | no control character is left, and a name without any stays as it is |
| `DisplayNames.TheOthersStayInPlace` | src/headset.rs:61 | each character is kept exactly if it is no control, between what is left of the name on either side of it |
| `Headsets.KeysTellHeadsetsApart` | src/headset.rs:43-48 | two headsets have one key if and only if vendor, product and model are the same |
| `Sessions.Session.TakeIn` | src/maxwell/session.rs:199-232 | a report is taken in as `State.Hear` says, its levels numbered on from the reader's count, and it is told whether it said anything |
| `Sessions.Session.Ask` | src/maxwell/session.rs:278-309 | asking sends and counts, counts a strike, gives up, or fails, as `State.Ask` says |
| `Sessions.HeardReport` | src/maxwell/session.rs:199-232 | the last message settles the link; the last that is not a mere "linked" settles the level and the open request, which otherwise stay; asks are untouched |
| `Sessions.HeardLevelIsNumbered` | src/maxwell/session.rs:220-228 | a level held is the one received at its number, and is held only while the link is up |
| `SessionRuns.RequestBudget` | src/maxwell/session.rs:243-309 | from any state, since something was last heard at most three requests and one per ten minutes are sent, for every interval and whatever fails |
| `SessionRuns.RequestBudgetFromOpening` | src/maxwell/session.rs:172-187 | the same since a session was opened, whatever it inherited |
| `SessionRuns.SessionBudget` | src/maxwell/session.rs:29-43 | over a whole session: three per silence, and one per ten minutes |
| `SessionRuns.SlowRequestsFit` | src/maxwell/session.rs:43 | the slow part of the budget is the time divided by ten minutes, rounded down |
| `SessionInvariants.BudgetIsReached` | src/maxwell/session.rs:283-307 | the budget is tight: for every number of slow requests some run with an interval of one second and the usual listening time sends as many as it allows |
| `SessionInvariants.InvariantHolds` | src/maxwell/session.rs:199-309 | over every run: a level only while linked and at most 100, a pending request only if one was sent, fewer than three strikes while linked |
| `SessionInvariants.RequestsAreSpaced` | src/maxwell/session.rs:243-276 | two requests of a session are at least the interval or ten seconds apart, and only its first is ever sent while the headset is known to be gone |
| `SessionInvariants.SilentSessionIsOnSchedule` | src/maxwell/session.rs:253-268 | a session opened on an unknown link and told nothing sends its first request no earlier than the listening time, its second ten seconds after that, its third forty, and each later one ten minutes after the one before |
| `SessionInvariants.SilentSessionIsAskedInTime` | src/maxwell/session.rs:253-268 | and, polled steadily, no later than one poll per request after those instants |
| `SessionInvariants.NextEarliest` | src/maxwell/session.rs:32-43 | the delay before each later request is the distance of these instants: ten seconds, thirty, then ten minutes |
| `SessionInvariants.GoneSessionAsksOnce` | src/maxwell/session.rs:269-274 | one opened on a headset that is gone and told nothing asks once, after it has listened, and never again |
| `SessionInvariants.LinkedSessionIsOnSchedule` | src/maxwell/session.rs:243-298 | one opened on a linked headset and told nothing, while writes succeed, asks three times at the interval, gives up an interval later, and from then on sends its n-th request no earlier than the slow cadence allows |
| `SessionInvariants.GivingUpIsSlow` | src/maxwell/session.rs:283-298 | giving up lands in the slow cadence if and only if three requests were sent |
| `SessionInvariants.StrikesAreRequests` | src/maxwell/session.rs:279-307 | while every write succeeds, strikes never outnumber requests |
| `SessionInvariants.GivingUpIsSlowWhileWritesSucceed` | src/maxwell/session.rs:45-47 | so then giving up always lands in the slow cadence |
| `SessionInvariants.FailedWritesAreStrikesToo` | src/maxwell/session.rs:304 | a run in which failed writes make a headset given up on be asked again ten seconds later |
| `SessionInvariants.QuietSessionAsks` | src/maxwell/session.rs:243-309 | while fetches and writes succeed, under any one setting and from any state, a session told nothing after the first of its polls has sent a request if and only if it is due on the last of them, or, if it is to give up, once it has done so on the first due and the delay after that is over |
| `SessionInvariants.SilenceIsAskedAbout` | src/maxwell/session.rs:243-276 | so a silence that one session spans has been asked about by an instant if and only if: reported gone, the session never asked before and has listened; else, it never asked or the interval has gone by since |
| `SessionInvariants.TenMinutesAreAskedAbout` | src/maxwell/session.rs:243-276 | so with an interval and a listening time of at most ten minutes, a silence of ten minutes that one session spans has been asked about unless and only unless the headset was reported gone to it after it had asked |
| `SessionInvariants.TenMinutesNotAskedAbout` | src/main.rs:177 | two runs whose silence of ten minutes is not asked about: one after the headset was reported gone, one with an interval of an hour |
| `SessionInvariants.OpeningIsAskedAbout` | src/maxwell/session.rs:250-274 | while fetches and writes succeed, a session told nothing since it was opened has asked if and only if it inherited a linked headset or has listened, whatever the interval |
| `Wedge.WedgeWatch.Heard` | src/maxwell/wedge.rs:122-126 | a dongle speaking ends the silence, and is news exactly if a warning was out |
| `Wedge.WedgeWatch.Check` | src/maxwell/wedge.rs:140-169 | a check warns with the silence to quote, or not, as `Watch.Check` and `Watch.Warns` say |
| `Wedge.SilenceIsCounted` | src/maxwell/wedge.rs:133-169 | in a silence of at least ten minutes, one warning and one more per day, one look and one more per half minute, at most |
| `Wedge.SilenceIsReportedSparingly` | src/maxwell/wedge.rs:145-168 | the n-th warning or look never comes before ten minutes and n-1 days or half minutes |
| `Wedge.StreamingIsReported` | src/maxwell/wedge.rs:138-139 | a warning does come, if the looks find playback, exactly once a check is made after ten minutes |
| `Wedge.WarningsRestOnEvidence` | src/maxwell/wedge.rs:149-159 | every warning rests on a look less than half a minute old that found playback running |
| `Wedge.LooksExactly` | src/maxwell/wedge.rs:149-156 | in a silence, a check looks at the audio side if and only if ten minutes have gone by and half a minute since every look before |
| `Wedge.WarnsExactly` | src/maxwell/wedge.rs:157-168 | it warns if and only if ten minutes have gone by, the last look found playback running, and a day has gone by since every warning before, so the reminder does come |
| `Wedge.RecoveryIsReportedIfTheSilenceWas` | src/maxwell/wedge.rs:120-126 | the recovery is news exactly when a warning was issued since a dongle last spoke |
| `Readers.Reader.ListenTo` | src/maxwell/mod.rs:301-348 | one dongle is opened, listened to, asked and watched as `ReaderState.ListenTo` says, and each failure ends it where the program ends it |
| `Readers.Reader.Visit` | src/maxwell/mod.rs:217-264 | a failure reports an unavailable battery, and only a gone dongle loses its session |
| `Readers.Reader.Retain` | src/maxwell/mod.rs:206-215 | sessions of vanished nodes are closed and hand on what they knew of the link |
| `Readers.Reader.Reconcile` | src/maxwell/mod.rs:198-266 | a pass closes, then visits every dongle in order and reports each |
| `ReaderRuns.VisitPollsTheSession` | src/maxwell/mod.rs:319-331 | a visit is exactly one poll of one session |
| `ReaderRuns.VisitLeavesTheOthers` | src/maxwell/mod.rs:244-248 | and touches no other |
| `ReaderReports.VisitTells` | src/maxwell/mod.rs:217-264 | a pass that succeeds reports what the session then knows and has the watch check the dongle unless its headset is linked; one that fails reports an unavailable battery, and only a dongle that is gone loses its session, which hands on its link |
| `ReaderReports.GoneIsTheLastWord` | src/maxwell/session.rs:199-309 | a session holds its headset to be gone if and only if the last message it heard says so, or it heard none and inherited that |
| `ReaderReports.ReportsAreTruthful` | src/maxwell/session.rs:311-318 | over every run, a headset is reported gone if and only if the pass succeeded and that is the last word; charging only on the cable, discharging only off it; a level if and only if the session holds one; and unavailable if the pass failed |
| `ReaderStories.SessionsAreTold` | src/maxwell/mod.rs:198-266 | over every run of the reader, each open session is where the polls the trace has of it since it was opened, on the link inherited then, have led it; they are in order and none is later than now |
| `ReaderStories.SessionsKeepTheBudget` | src/maxwell/session.rs:29-43 | so each has kept the request budget: by the polls of the trace, three per silence, three if nothing was heard since it was opened, and three since something was last heard, each with one more per ten minutes |
| `ReaderStories.PollsArePasses` | src/maxwell/mod.rs:217-264 | and every poll in the trace is one pass over a dongle listed at that node, with what that pass fetched |
| `ReaderStories.WatchIsTold` | src/maxwell/mod.rs:319-345 | over every run of the reader, the watch is where the passes have led it since the first report: each report that says something, and each check on a dongle not known to be linked |
| `ReaderStories.ReaderWarnsSparingly` | src/maxwell/wedge.rs:103-169 | so since a dongle last spoke, or since the watch began, the reader has neither warned nor looked for ten minutes, and then warned at most once and once more per day, looked once and once more per half minute; and it has a warning out exactly if it issued one in that time |
| `ReaderSilence.TraceIsSound` | src/maxwell/mod.rs:329-331 | over every run, the trace is in order and has a request exactly after each poll that sends one |
| `ReaderSilence.SilenceIsAskedAbout` | src/maxwell/wedge.rs:24-28 | over every run of the reader, while fetches and writes succeed, under any one setting, a request has gone out in the silence the watch counts if and only if some session visited in it was due at a visit, from its state when the silence began or as opened since |
| `ReaderSilence.TenMinutesAreAskedAbout` | src/maxwell/wedge.rs:24-28 | with an interval and a listening time of at most ten minutes, a session that was there when the silence began and is not to be given up on was due by a visit ten minutes later unless and only unless its headset was reported gone after it had asked |
| `ReaderSilence.OpenedSinceIsAskedAbout` | src/maxwell/session.rs:250-274 | one opened since was due at a visit exactly if it inherited a linked headset or has listened by then |
| `ReaderSilence.SilenceBegins` | src/maxwell/wedge.rs:102-104 | whatever the run, the silence the watch counts begins with some poll: the last that heard something, or the first report |
| `ReaderSilence.ReplugIsNotAskedAbout` | src/maxwell/mod.rs:83-84 | a run, all of whose opens and fetches succeed, in which a replugged dongle is called wedged after ten minutes and no request was ever sent |
| `ReaderBudgets.ProductsKeepTheBudget` | src/maxwell/session.rs:29-43 | over every run with one dongle per product in which no poll opens a second session for one, all sessions of a product together are sent three requests per session opened and per poll that heard something, and one per ten minutes since the first was opened, at most; and three and one per ten minutes since the last of those |
| `ReaderRuns.ReadingsAreNumbered` | src/maxwell/mod.rs:160-165 | over every run, each level reported is the one received at its number, across sessions, no two sessions hold the same number, and it is from a dongle of the product reported as long as the nodes listed stay the same dongles |
| `ReaderBeliefs.ReenumerationLosesNothing` | src/maxwell/mod.rs:198-266 | over every run with one dongle per product in which no poll opens a second session for a product, the belief about the link is that of one observer of the same messages and givings-up who never closes anything |
| `ReaderBeliefs.SecondSessionsAreTheOnlyLoss` | src/maxwell/mod.rs:206-248 | and a poll keeps that whatever it runs into if and only if it opens no second session for a product |
| `ReaderBeliefs.SameDonglesOpenNoSecond` | src/maxwell/mod.rs:206-215 | which it does not while the nodes listed stay the same dongles |
| `ReaderBeliefs.NodesAreTakenOver` | src/maxwell/mod.rs:206-215 | a run after which a poll does: a dongle has moved to another node and one of another product has its old one |
| `Policy.OfflineGraceOfAMissingHeadset` | src/bridge/policy.rs:80-101 | a missing headset falls to the offline grace exactly on the first poll that misses it, after a longer silence |
| `Policy.UnansweredIsRetriedSoon` | src/bridge/policy.rs:45-52 | the native reader is polled every second, another at the interval, and one with an unanswered battery within three seconds and no later than usual |
| `Vetting.ShownExactly` | src/bridge/policy.rs:102-181 | whatever is remembered, a reading is shown at once, cable and all, if and only if it is near and no rise off the cable, or far and confirmed; deferred if and only if far and not confirmed; else held |
| `Vetting.NotDeferredIsNear` | src/bridge/policy.rs:164-181 | only the known or the read level is shown, within 15 points of any reading that is not deferred |
| `Vetting.JumpTakesTwo` | src/bridge/policy.rs:108-115 | a change of more than 15 points takes a deferred reading and another one within 5 points of it, which is shown |
| `Vetting.TrackingBound` | src/bridge/mod.rs:837-872 | after two fresh readings within 5 points the level shown is within 20 of the second, from any state |
| `Vetting.TrackingBoundIsTight` | src/bridge/policy.rs:34-37 | the 20 points are reached |
| `Vetting.OnlyTheLastIsDeferred` | src/bridge/policy.rs:22-37 | what waits for a second opinion is the reading just before, which was deferred and is far off what is shown |
| `Vetting.GlitchLeavesNoTrace` | src/bridge/policy.rs:22-37 | with nothing deferred, one glitch before a plausible reading leaves every later state as it would have been without it |
| `Vetting.PublishedIsTheLowest` | src/bridge/policy.rs:133-140 | while discharging without a jump, the level shown is the lowest of the start and the readings not deferred |
| `Vetting.RisesHaveAReason` | src/bridge/policy.rs:143-163 | a rise between two moments off the cable has a charging reading or a confirmed jump in between |
| `Bridges.DevicePool.Acquire` | src/bridge/mod.rs:274-284 | a spare handle is reused first; the node is opened only if none was inherited |
| `Bridges.Batteries.Remove` | src/bridge/batteries.rs:77-79 | a battery leaves both lists at once |
| `Bridges.Bridge.Outcome` | src/bridge/mod.rs:626-658 | a success clears the strikes; the third failure removes the battery, keeps the handle and sets the retry time |
| `Bridges.Bridge.Attach` | src/bridge/mod.rs:661-750 | a device is made and listed, or the handle is back among the spare ones and the failure is told apart |
| `Bridges.Bridge.AttachIfAllowed` | src/bridge/mod.rs:555-579 | a headset without a battery is attached unless barred or abandoned, and what comes of it is recorded |
| `Bridges.Bridge.Update` | src/bridge/mod.rs:581-617 | a level is vetted, and pushed if it changed or is due again |
| `Bridges.Bridge.Gone` | src/bridge/mod.rs:542-552 | a headset reported gone starts a clock, and is removed with its handle kept once that has run |
| `Bridges.Bridge.NoteAll` | src/bridge/mod.rs:448-451 | every clock is started, kept or cleared, and nothing else |
| `BridgeStates.Position` | src/bridge/batteries.rs:65-68 | the first battery with the key, or none if no battery has it |
| `Bridges.Bridge.Apply` | src/bridge/mod.rs:508-617 | a report is applied as `BridgeState.Apply` says |
| `Bridges.Bridge.Expire` | src/bridge/mod.rs:753-779 | the removal loop keeps exactly the batteries within their grace, in order, and every handle |
| `Bridges.Bridge.Tick` | src/bridge/mod.rs:410-456 | a poll applies, notes and expires, and says whether a live battery is silent |
| `Bridges.Bridge.Wait` | src/bridge/mod.rs:787-818 | serving ends, in the deadline or a failure of the wait itself, every device failure having been a strike |
| `Bridges.Bridge.Shutdown` | src/bridge/mod.rs:822-827 | no device is left, and the handles of all are dropped |
| `Bridges.Bridge.Announce` | src/bridge/mod.rs:459-505 | what is said, and what is noted as unsettled, is as `News` says |
| `Summaries.WhatIsSaidHasLasted` | src/bridge/mod.rs:459-481 | a line is only said of a finding that every poll has made for five seconds and that was not said last |
| `Summaries.SaidExactly` | src/bridge/mod.rs:459-481 | a line is said of what a poll finds if and only if it was not the last thing said and every poll for five seconds has found it |
| `Summaries.SummaryIsTheBest` | src/bridge/mod.rs:103-135 | what is found is the best there is: a headset that answers, one with a battery, any at all, or none |
| `BridgeInvariants.ApplyKeepsInv` | src/bridge/mod.rs:508-617 | devices and bookkeeping stay in step, keys distinct, live keys neither barred nor abandoned, strikes below three |
| `BridgeInvariants.TickKeepsInv` | src/bridge/mod.rs:410-456 | so they do over a poll |
| `BridgeInvariants.WaitKeepsInv` | src/bridge/mod.rs:787-818 | and over a wait |
| `BridgeInvariants.WaitHandlesFewFailures` | src/bridge/mod.rs:802-816 | a wait handles at most three failures per battery, each using up a strike for good |
| `BridgeInvariants.WaitLosesNobody` | src/bridge/mod.rs:649-657 | after a wait a headset is live exactly if it has no retry time |
| `BridgeStates.OutcomeIsAStrike` | src/bridge/mod.rs:639-657 | every failure strictly lowers the strikes left to the live batteries |
| `BridgeRuns.HandlesAreConserved` | src/bridge/mod.rs:240-288 | over every run, inherited handles are all spare or in use; otherwise as many were opened as were held at once |
| `BridgeRuns.BarredHeadsetsAreLeftAlone` | src/bridge/mod.rs:555-579 | over every run, no attempt for a minute after a failed attach or three strikes, and none ever for an abandoned headset |
| `BridgeRecords.RunIsKept` | src/bridge/mod.rs:626-658 | over every run, a battery's strikes are its failures in a row since its device was made or last took something; every retry time and abandonment rests on an event; the level last worth a line is within five points of the one shown |
| `BridgeRecords.StruckOutExactly` | src/bridge/mod.rs:626-658 | over every run, talking to a device ends it if and only if the last three times failed |
| `BridgeRecords.OutcomeTells` | src/bridge/mod.rs:626-658 | what becomes of it is what the trace says: it lives on, or is withdrawn with its handle kept and barred for a minute |
| `BridgeRecords.TwoFailuresAreForgiven` | src/bridge/mod.rs:628-634 | after something went well, two failures do not end a device |
| `BridgeRecords.TriedExactly` | src/bridge/mod.rs:555-579 | over every run, a poll tries a headset without a battery if and only if it reports a level of it, it was never abandoned and every failure is a minute old; it then has a battery if and only if there was a handle and the kernel took device and registration, and otherwise is abandoned if its identity was refused and barred for a minute if not |
| `BridgeRecords.ReportIsReadExactly` | src/bridge/mod.rs:508-540 | a report of a headset with a battery is taken in as a reading if and only if it has a level, its own or, on the cable without one, the level shown |
| `BridgeRecords.WaitServesToTheEnd` | src/bridge/mod.rs:787-818 | a wait goes on through every device failure until a round ends without one |
| `BridgeRecords.WaitRecordsFailures` | src/bridge/mod.rs:802-816 | and takes each of them in, once |
| `BridgeClocks.GraceClocksAreRight` | src/bridge/mod.rs:448-455 | over every run, each live battery's clocks show the first poll of its current run of silence and absence, and no grace is over |
| `BridgeClocks.WithdrawnExactly` | src/bridge/mod.rs:753-779 | after every run, the next poll withdraws exactly the batteries missing since an earlier poll for longer than the missing grace, and those listed or first missed now that have been silent for longer than the offline grace |
| `BridgeClocks.OfflineGraceFallsOnTheMissing` | src/bridge/policy.rs:80-84 | a run, for every configuration, in which a headset that stopped answering goes by the offline grace on the first poll that misses it |
| `BridgeClocks.AnsweringHeadsetIsSpared` | src/bridge/policy.rs:75-101 | a headset that answered when last listed is withdrawn only after the missing grace, however short the offline one |
| `BridgePace.SilenceEndsInTime` | src/bridge/policy.rs:45-52 | over every run whose polls come no later than the bridge's own delay, a listed headset that has fallen silent is withdrawn by a poll if and only if the offline grace is over, and that poll comes within the delay of an unanswered one after it |
| `BridgePace.UnansweredExactly` | src/bridge/mod.rs:448-456 | a poll leaves a battery unanswered if and only if one that is left belongs to a headset that did not answer it |
| `BridgeGone.GoneClocksAreRight` | src/bridge/mod.rs:541-552 | over every run, the clock of a headset reported gone started on the first such report since it last answered, and is off if there is none |
| `BridgeGone.GoneIsBelievedOnceItLasts` | src/bridge/mod.rs:50-53 | a report of being gone removes the battery if and only if that clock has run for three seconds |
| `Gauges.UpdateStepsTheGauge` | src/bridge/mod.rs:581-617 | an update moves the gauge of its battery by one vetting step, puts the reading in the trace, and pushes right after it exactly when the reading is not deferred and changes what is shown or a minute is over; how the push went counts, and the third failure in a row ends the device |
| `Lives.RunIsVetted` | src/bridge/mod.rs:581-617 | over every run, each live battery's gauge is where vetting leads from the reading its device was made with through all those taken in since, and every push comes right after the reading it is due to and tells what that made of the level |
| `Lives.ShownIsTheReading` | src/bridge/mod.rs:581-617 | over every run, a device shows the last reading its battery took in if that was plausible and no rise off the cable, or confirmed the one deferred, and otherwise what it showed before |
| `Lives.ReadingsAreReported` | src/bridge/mod.rs:508-540 | over every run, every reading taken in was reported by the poll of that instant, with its sample |
| `Lives.JumpsRestOnTwo` | src/bridge/policy.rs:108-115 | over every run, a push of more than 15 points is at the level of the reading taken in just before it; the reading before that, with nothing read, made or pushed for the headset in between, was as far off, within 5 points of it, and another sample |
| `Lives.ShownIsTheLowest` | src/bridge/policy.rs:133-140 | over every run, a device that has only discharged, without a jump, shows the lowest of the level it was made with and the readings not deferred since |
| `Lives.ShownTracksTheReadings` | src/bridge/mod.rs:837-872 | over every run, a device whose last two readings agree and are two samples shows a level within 20 points of the last |
| `Lives.GlitchesAreNotShown` | src/bridge/policy.rs:22-37 | over every run, a device shows what it would had a glitch never been read |
| `Published.AnsweredIsShownFresh` | src/bridge/mod.rs:592-617 | after a reading that is not deferred the level shown is the vetted one, by a push less than a minute old |
| `Published.RunIsFaithful` | src/bridge/mod.rs:587-615 | over every run, each device shows the last reading it was made with or pushed, at the time recorded; each push replaces that, and off the cable never by a rise within the step |
| `Published.RisesShownHaveAReason` | src/bridge/policy.rs:133-163 | over every run, a level shown off the cable has risen only past a charge or a push of more than the step |
| `Daemon.NoJumpRestsOnOneMessage` | src/bridge/mod.rs:837-872 | on the native reader, over every run, a push of more than 15 points is at the level of the battery message read just before it, and the reading of the headset before that, with none and no push in between, is another message within 5 points; both are from dongles of the headset's product as long as the nodes listed stay the same dongles |

## Left out

- `AccessWatch` (src/maxwell/session.rs:60-89): one access error and one flag; it would add only easy members.
- `Reader::read_once` and `looks_wedged`: the one-shot `status` command.
- `Bridge::run`: the stop flag, deadlines and notifications around `tick` and `wait`; runs are any timely sequence of the two.
- `src/source.rs`: the choice between the readers; a poll's headsets are an argument.
- `src/maxwell/discover.rs`, `playback_running`, `sound_card`: walks of sysfs; the dongles, the cable and the playback state are arguments.
- `src/headsetcontrol.rs`, `src/main.rs`, `src/notify.rs`: processes, command line and sockets.
- The `uhid-battery` and `hidraw` crates are not part of this model, beyond the outcomes listed above.
- `fetch`: the padding of a short report with zeros; the scanner is proved for frames of any length.
- Log lines and their wording, the text of errors, and the level at which a line is logged.
- The format of `Headset::key` and `Headset::uniq`: keys are compared as the triples they are formatted from.
- The watchdog's worst case: it rests on the timing of code that is not here.
- Overflow of `asks`, `unanswered` and `readings`.
- VirtualBattery and the uhid device are values in the lists of `Batteries`, updated by position: references into the lists held across calls are not modelled, and the program holds none.
- `Vetted`: what is `vetted` in place on a battery is a function of the record it keeps, assigned back by `Update`.
- Bridges.Bridge.Tick: a probe that fails is an empty poll; which error it was is not modelled.
