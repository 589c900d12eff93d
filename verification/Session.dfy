/**
 One open dongle (src/maxwell/session.rs): what is believed of its headset, and when a battery
 request is due. `State` and its members say what each operation does to a session;
 the class at the end does it in place.
 */
module Sessions {
  import opened Prelude
  import opened Frame
  import opened Headsets

  const MAX_UNANSWERED: nat := 3
  const LISTEN_FIRST: nat := 3 * SECOND
  const ASK_AGAIN_AFTER: seq<nat> := [10 * SECOND, 30 * SECOND]
  const ASK_IDLE_RETRY: nat := 600 * SECOND

  /** What is believed about the link between dongle and headset. */
  datatype LinkState = Unknown | Up | Down

  /** How long an unlinked session that has asked `asks` times waits before asking again. */
  function AskAgainDelay(asks: nat): nat {
    if 1 <= asks && asks - 1 < |ASK_AGAIN_AFTER| then ASK_AGAIN_AFTER[asks - 1] else ASK_IDLE_RETRY
  }

  datatype State = State(
    link: LinkState,
    level: Option<nat>,
    sample: nat,
    openedAt: nat,
    askedAt: Option<nat>,
    asks: nat,
    pending: bool,
    unanswered: nat)
  {
    /** Takes in one message; `number` is what a battery message is numbered. */
    function HearOne(message: Message, number: nat): State {
      match message
      case Link(true) => this.(link := Up, unanswered := 0)
      case Link(false) => this.(link := Down, level := None, pending := false, unanswered := 0)
      case Battery(percent) =>
        this.(link := Up, level := Some(percent), sample := number, pending := false, unanswered := 0)
    }

    /** Takes in the messages of a report; `readings` battery messages came before them. */
    function Hear(said: seq<Message>, readings: nat): State
      decreases |said|
    {
      if said == [] then
        this
      else
        HearOne(said[0], readings + 1).Hear(said[1..], readings + if said[0].Battery? then 1 else 0)
    }

    predicate ShouldAsk(now: nat, interval: nat, listenFirst: nat) {
      match link
      case Up => askedAt.None? || Since(now, askedAt.value) >= interval
      case Unknown =>
        (match askedAt
         case None => Since(now, openedAt) >= listenFirst
         case Some(at) => Since(now, at) >= AskAgainDelay(asks))
      case Down => askedAt.None? && Since(now, openedAt) >= listenFirst
    }

    /** The strikes against the headset once the request still open is counted as lost. */
    function Strikes(): nat {
      unanswered + if pending then 1 else 0
    }

    /** Whether asking now abandons the headset instead of sending a request. */
    predicate GivesUp() {
      link == Up && Strikes() >= MAX_UNANSWERED
    }

    /** Asks; `written` is whether the device takes the request. */
    function Ask(now: nat, written: bool): State {
      if GivesUp() then
        this.(link := Unknown, level := None, pending := false, unanswered := 0, askedAt := Some(now))
      else if !written then
        this.(unanswered := Strikes())
      else
        this.(unanswered := Strikes(), askedAt := Some(now), asks := asks + 1, pending := true)
    }

    function BatteryState(wired: bool): BatteryState {
      if link == Down then Disconnected
      else if level.None? then Unavailable
      else if wired then Charging(level)
      else Discharging(level.value)
    }
  }

  function Opened(link: LinkState, now: nat): State {
    State(link, None, 0, now, None, 0, false, 0)
  }

  /** The levels among the messages of a report, in order. */
  function Levels(said: seq<Message>): seq<nat> {
    if said == [] then
      []
    else
      (if said[0].Battery? then [said[0].level] else []) + Levels(said[1..])
  }

  // ----- What a report does to a session, without walking through it -----

  /** Message `i` is the last one that says more than that the headset is linked. */
  ghost predicate Decides(said: seq<Message>, i: nat) {
    && i < |said|
    && said[i] != Link(true)
    && forall j :: i < j < |said| ==> said[j] == Link(true)
  }

  /**
   The last message settles the link; the last one that is not a mere "linked" settles the
   level, its number and the pending request, which otherwise stay as they were.
   */
  lemma {:induction false} HeardReport(s: State, said: seq<Message>, readings: nat)
    requires said != []
    ensures var r := s.Hear(said, readings);
      && r.unanswered == 0
      && r.link == (if said[|said| - 1] == Link(false) then Down else Up)
      && (r.openedAt, r.askedAt, r.asks) == (s.openedAt, s.askedAt, s.asks)
    ensures forall i: nat | Decides(said, i) ::
      var r := s.Hear(said, readings);
      !r.pending && r.level == if said[i].Battery? then Some(said[i].level) else None
    ensures (forall m <- said :: m == Link(true)) ==>
      var r := s.Hear(said, readings);
      (r.pending, r.level, r.sample) == (s.pending, s.level, s.sample)
    decreases |said|
  {
    var next := s.HearOne(said[0], readings + 1);
    var count := readings + if said[0].Battery? then 1 else 0;
    var rest := said[1..];
    assert said[0] in said && forall m <- rest :: m in said;
    if rest == [] {
      assert s.Hear(said, readings) == next.Hear([], count);
    } else {
      HeardReport(next, rest, count);
      assert said[|said| - 1] == rest[|rest| - 1];
      forall i: nat | Decides(said, i)
        ensures !s.Hear(said, readings).pending
        ensures s.Hear(said, readings).level == if said[i].Battery? then Some(said[i].level) else None
      {
        if i == 0 {
          assert forall m <- rest :: m == Link(true);
        } else {
          assert Decides(rest, i - 1);
        }
      }
    }
  }

  /**
   Levels are numbered in the order they are received: whatever level a session holds after a
   report is the one the reader's log of levels has at its number.
   */
  lemma {:induction false} HeardLevelIsNumbered(s: State, said: seq<Message>, log: seq<nat>)
    requires LevelFromLog(s, log)
    ensures LevelFromLog(s.Hear(said, |log|), log + Levels(said))
    decreases |said|
  {
    if said == [] {
      assert log + Levels(said) == log;
    } else {
      var level := if said[0].Battery? then [said[0].level] else [];
      OneLevelIsNumbered(s, said[0], log);
      HeardLevelIsNumbered(s.HearOne(said[0], |log| + 1), said[1..], log + level);
      assert log + level + Levels(said[1..]) == log + Levels(said);
    }
  }

  lemma OneLevelIsNumbered(s: State, message: Message, log: seq<nat>)
    requires LevelFromLog(s, log)
    ensures LevelFromLog(s.HearOne(message, |log| + 1), log + if message.Battery? then [message.level] else [])
  {
  }

  /** A level held is held while the link is up, and is the message numbered `sample`. */
  ghost predicate LevelFromLog(s: State, log: seq<nat>) {
    && s.sample <= |log|
    && (s.level.Some? ==>
          s.link == Up && 1 <= s.sample && log[s.sample - 1] == s.level.value)
  }

  // ----- The session itself -----

  class Session {
    const productId: nat
    const openedAt: nat
    var link: LinkState
    var level: Option<nat>
    var sample: nat
    var askedAt: Option<nat>
    var asks: nat
    var pending: bool
    var unanswered: nat

    constructor (productId: nat, link: LinkState, now: nat)
      ensures View() == Opened(link, now) && this.productId == productId
    {
      this.productId := productId;
      this.link := link;
      level := None;
      sample := 0;
      openedAt := now;
      askedAt := None;
      asks := 0;
      pending := false;
      unanswered := 0;
    }

    function View(): State
      reads this
    {
      State(link, level, sample, openedAt, askedAt, asks, pending, unanswered)
    }

    /** Hears every message of a report in order; `count` goes on from `readings`, by one per level. */
    method TakeIn(frame: seq<byte>, readings: nat) returns (heard: bool, count: nat)
      modifies this
      ensures View() == old(View()).Hear(Messages(frame), readings)
      ensures heard <==> Messages(frame) != []
      ensures count == readings + |Levels(Messages(frame))|
    {
      var messages := Messages(frame);
      heard := messages != [];
      count := readings;
      for i := 0 to |messages|
        invariant View().Hear(messages[i..], count) == old(View()).Hear(messages, readings)
        invariant count + |Levels(messages[i..])| == readings + |Levels(messages)|
      {
        assert messages[i..][0] == messages[i] && messages[i..][1..] == messages[i + 1..];
        match messages[i]
        case Link(true) =>
          link := Up;
          unanswered := 0;
        case Link(false) =>
          link := Down;
          level := None;
          pending := false;
          unanswered := 0;
        case Battery(percent) =>
          link := Up;
          level := Some(percent);
          count := count + 1;
          sample := count;
          pending := false;
          unanswered := 0;
      }
    }

    predicate ShouldAsk(now: nat, interval: nat, listenFirst: nat)
      reads this
    {
      View().ShouldAsk(now, interval, listenFirst)
    }

    /** Sends a request, or gives up; fails when the device does not take the request. */
    method Ask(now: nat, written: bool) returns (ok: bool)
      modifies this
      ensures View() == old(View()).Ask(now, written)
      ensures ok <==> written || old(View()).GivesUp()
    {
      if pending {
        unanswered := unanswered + 1;
      }
      if link == Up && unanswered >= MAX_UNANSWERED {
        link := Unknown;
        level := None;
        pending := false;
        unanswered := 0;
        askedAt := Some(now);
        return true;
      }
      if !written {
        return false;
      }
      askedAt := Some(now);
      asks := asks + 1;
      pending := true;
      ok := true;
    }

    function Battery(wired: bool): BatteryState
      reads this
    {
      View().BatteryState(wired)
    }
  }
}
