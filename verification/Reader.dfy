/**
 The native reader (src/maxwell/mod.rs): one session per hidraw node that lists a dongle, opened
 and closed as nodes come and go. `ReaderState` and its members say what a pass over the
 dongles does; the class at the end does it in place.
 */
module Readers {
  import opened Prelude
  import opened Frame
  import opened Headsets
  import opened Sessions
  import SessionRuns
  import opened Wedge

  const VENDOR_ID: nat := 0x3329

  type Node = nat

  datatype Dongle = Dongle(node: Node, productId: nat)

  /** What one pass runs into on a dongle: everything the kernel and the hardware decide. */
  datatype Io = Io(opens: bool, fetch: Fetch, write: Write, playback: Option<bool>)

  datatype Fetch = Report(frame: seq<byte>) | FetchFailed(gone: bool)

  datatype Write = Taken | WriteFailed(gone: bool)

  /** The settings and the instant of a pass. */
  datatype Pass = Pass(now: nat, interval: nat, listenFirst: nat, wired: bool)

  /** A session and the product it belongs to. */
  datatype Held = Held(productId: nat, state: State)

  /**
   A trace of what a reader does: a session opened for a product, believing this of the link; a
   session polled; a request sent; a headset given up on; and the watch told of a pass over a
   silent dongle.
   */
  datatype Act =
    | Opening(node: Node, productId: nat, link: LinkState, at: nat)
    | Polled(node: Node, productId: nat, poll: SessionRuns.Poll)
    | Asked(node: Node, productId: nat, at: nat)
    | GaveUp(productId: nat, at: nat)
    | Checked(at: nat, running: Option<bool>)

  /** A reading: the battery and the number of the message it came from; or a failure. */
  datatype Outcome = Reading(battery: BatteryState, sample: nat) | Failure(gone: bool)

  /**
   `log` holds every level received, over every session, and `sources` the product each is from;
   their length is the reader's count.
   */
  datatype ReaderState = ReaderState(
    sessions: map<Node, Held>,
    lastLink: map<nat, LinkState>,
    log: seq<nat>,
    sources: seq<nat>,
    wedge: Option<Watch>,
    trace: seq<Act>)
  {
    function Inherited(productId: nat): LinkState {
      if productId in lastLink then lastLink[productId] else Unknown
    }

    /** With a session for the dongle, which opens if need be. */
    function Open(dongle: Dongle, now: nat): (r: ReaderState)
      ensures dongle.node in r.sessions
    {
      if dongle.node in sessions then
        this
      else
        var link := Inherited(dongle.productId);
        this.(sessions := sessions[dongle.node := Held(dongle.productId, Opened(link, now))],
              trace := trace + [Opening(dongle.node, dongle.productId, link, now)])
    }

    function With(node: Node, state: State): ReaderState
      requires node in sessions
    {
      this.(sessions := sessions[node := sessions[node].(state := state)])
    }

    /** Closes the session at a node; its product inherits the link it believed in. */
    function Close(node: Node): ReaderState {
      if node in sessions then
        this.(sessions := sessions - {node},
              lastLink := lastLink[sessions[node].productId := sessions[node].state.link])
      else
        this
    }

    /** What a pass over the dongle of a session is to the session: one poll. */
    function PollOf(pass: Pass, io: Io): SessionRuns.Poll {
      SessionRuns.Poll(pass.now, pass.interval, pass.listenFirst, |log|,
                       if io.fetch.Report? then Some(Messages(io.fetch.frame)) else None, io.write.Taken?)
    }

    /** With the poll in the trace. */
    function Noted(node: Node, poll: SessionRuns.Poll): ReaderState
      requires node in sessions
    {
      this.(trace := trace + [Polled(node, sessions[node].productId, poll)])
    }

    /** Takes in the report that the dongle at `node` was polled for. */
    function Hear(node: Node, poll: SessionRuns.Poll): ReaderState
      requires node in sessions && poll.fetched.Some?
    {
      var held, said := sessions[node], poll.fetched.value;
      var watch := if wedge.Some? then wedge.value else NewWatch(poll.now);
      With(node, held.state.Hear(said, |log|)).Noted(node, poll).(
        log := log + Levels(said),
        sources := sources + Repeat(held.productId, |Levels(said)|),
        wedge := Some(if said != [] then watch.Heard(poll.now) else watch))
    }

    /** Asks, if a request is due. */
    function AskIfDue(node: Node, pass: Pass, write: Write): ReaderState
      requires node in sessions
    {
      var held := sessions[node];
      if !held.state.ShouldAsk(pass.now, pass.interval, pass.listenFirst) then
        this
      else
        With(node, held.state.Ask(pass.now, write.Taken?)).(
          trace := trace + Asking(node, pass.now, write.Taken?))
    }

    /** What asking puts in the trace: that it gives up, or the request if the device takes it. */
    function Asking(node: Node, now: nat, written: bool): seq<Act>
      requires node in sessions
    {
      if sessions[node].state.GivesUp() then [GaveUp(sessions[node].productId, now)]
      else if written then [Asked(node, sessions[node].productId, now)]
      else []
    }

    predicate AskFails(node: Node, pass: Pass, write: Write)
      requires node in sessions
    {
      && sessions[node].state.ShouldAsk(pass.now, pass.interval, pass.listenFirst)
      && !sessions[node].state.GivesUp()
      && write.WriteFailed?
    }

    function CheckWedge(node: Node, now: nat, playback: Option<bool>): ReaderState
      requires node in sessions
    {
      if sessions[node].state.link != Up && wedge.Some? then
        this.(wedge := Some(wedge.value.Check(now, playback)), trace := trace + [Checked(now, playback)])
      else
        this
    }

    /** Opens, fetches, hears, asks and checks, as far as each of these lets it go on. */
    function ListenTo(dongle: Dongle, pass: Pass, io: Io): (ReaderState, Outcome) {
      if dongle.node !in sessions && !io.opens then
        (this, Failure(false))
      else
        var open := Open(dongle, pass.now);
        var poll := open.PollOf(pass, io);
        match io.fetch
        case FetchFailed(gone) => (open.Noted(dongle.node, poll), Failure(gone))
        case Report(frame) =>
          var heard := open.Hear(dongle.node, poll);
          var asked := heard.AskIfDue(dongle.node, pass, io.write);
          if heard.AskFails(dongle.node, pass, io.write) then
            (asked, Failure(io.write.gone))
          else
            var checked := asked.CheckWedge(dongle.node, pass.now, io.playback);
            var state := checked.sessions[dongle.node].state;
            (checked, Reading(state.BatteryState(pass.wired), state.sample))
    }

    /** Listens to one dongle; only one that is gone loses its session. */
    function Visit(dongle: Dongle, pass: Pass, io: Io): (ReaderState, Headset) {
      var (reader, outcome) := ListenTo(dongle, pass, io);
      match outcome
      case Reading(battery, sample) => (reader, Reported(dongle, battery, sample))
      case Failure(gone) =>
        (if gone then reader.Close(dongle.node) else reader, Reported(dongle, Unavailable, 0))
    }

    /** Listens to every dongle listed, in order. */
    function VisitAll(dongles: seq<Dongle>, pass: Pass, ios: seq<Io>): (ReaderState, seq<Headset>)
      requires |ios| == |dongles|
    {
      if dongles == [] then
        (this, [])
      else
        var n := |dongles| - 1;
        var (reader, headsets) := VisitAll(dongles[..n], pass, ios[..n]);
        var (last, headset) := reader.Visit(dongles[n], pass, ios[n]);
        (last, headsets + [headset])
    }
  }

  function Reported(dongle: Dongle, battery: BatteryState, sample: nat): Headset {
    Headset("Audeze Maxwell", VENDOR_ID, dongle.productId, true, battery, Some(sample))
  }

  function Repeat(x: nat, n: nat): seq<nat> {
    seq(n, _ => x)
  }

  function Nodes(dongles: seq<Dongle>): set<Node> {
    set d <- dongles :: d.node
  }

  /**
   Only sessions on listed nodes are left. The others were closed in some order: each product
   inherits the link from one of those it had.
   */
  ghost predicate Retains(before: ReaderState, listed: set<Node>, after: ReaderState) {
    && after == before.(sessions := after.sessions, lastLink := after.lastLink)
    && after.sessions == (map node | node in before.sessions && node in listed :: before.sessions[node])
    && (forall productId ::
          ClosesNone(before, listed, productId) ==>
            after.Inherited(productId) == before.Inherited(productId))
    && (forall productId ::
          !ClosesNone(before, listed, productId) ==>
            exists node :: Closes(before, listed, node, productId)
                           && after.Inherited(productId) == before.sessions[node].state.link)
  }

  ghost predicate Closes(r: ReaderState, listed: set<Node>, node: Node, productId: nat) {
    node in r.sessions && node !in listed && r.sessions[node].productId == productId
  }

  ghost predicate ClosesNone(r: ReaderState, listed: set<Node>, productId: nat) {
    forall node :: !Closes(r, listed, node, productId)
  }

  // ----- The reader itself -----

  class Reader {
    var sessions: map<Node, Session>
    var lastLink: map<nat, LinkState>
    var readings: nat
    var wedge: WedgeWatch?
    ghost var log: seq<nat>
    ghost var sources: seq<nat>
    ghost var trace: seq<Act>

    ghost function Objects(): set<object>
      reads this
    {
      OpenSessions() + if wedge == null then {} else {wedge}
    }

    ghost function OpenSessions(): set<object>
      reads this`sessions
    {
      set node | node in sessions :: sessions[node]
    }

    ghost function HeldSessions(): map<Node, Held>
      reads this`sessions, OpenSessions()
    {
      map node | node in sessions :: Held(sessions[node].productId, sessions[node].View())
    }

    ghost predicate Valid()
      reads this
    {
      && readings == |log|
      && forall m, n :: m in sessions && n in sessions && m != n ==> sessions[m] != sessions[n]
    }

    ghost function View(): ReaderState
      reads this, Objects()
    {
      ReaderState(
        HeldSessions(),
        lastLink,
        log,
        sources,
        if wedge == null then None else Some(wedge.View()),
        trace)
    }

    constructor ()
      ensures Valid() && fresh(Objects())
      ensures View() == ReaderState(map[], map[], [], [], None, [])
    {
      sessions := map[];
      lastLink := map[];
      readings := 0;
      wedge := null;
      log := [];
      sources := [];
      trace := [];
    }

    /** Has a session for the dongle; fails if it does not open. */
    method Open(dongle: Dongle, now: nat, opens: bool) returns (ok: bool)
      requires Valid()
      modifies this`sessions, this`trace
      ensures Valid() && fresh(Objects() - old(Objects()))
      ensures ok <==> dongle.node in old(sessions) || opens
      ensures wedge == old(wedge)
      ensures View() == if ok then old(View()).Open(dongle, now) else old(View())
    {
      if dongle.node in sessions {
        return true;
      }
      if !opens {
        return false;
      }
      var link := if dongle.productId in lastLink then lastLink[dongle.productId] else Unknown;
      var session := new Session(dongle.productId, link, now);
      Insert(dongle.node, session);
      Trace(Opening(dongle.node, dongle.productId, link, now));
      ok := true;
    }

    ghost method Trace(act: Act)
      requires Valid()
      modifies this`trace
      ensures Valid() && View() == old(View()).(trace := old(trace) + [act])
    {
      trace := trace + [act];
    }

    method Insert(node: Node, session: Session)
      requires Valid() && node !in sessions && session !in sessions.Values
      modifies this`sessions
      ensures Valid() && Objects() <= old(Objects()) + {session}
      ensures View() == old(View()).(sessions := old(View()).sessions[node := Held(session.productId, session.View())])
    {
      sessions := sessions[node := session];
    }

    /** Takes in the report of the dongle at `node`, and numbers its levels. */
    method TakeIn(node: Node, frame: seq<byte>, now: nat, ghost poll: SessionRuns.Poll)
      requires Valid() && node in sessions && poll.fetched == Some(Messages(frame)) && poll.now == now
      modifies this`readings, this`log, this`sources, this`trace, this`wedge, sessions[node], wedge
      ensures Valid() && wedge != null && (wedge == old(wedge) || fresh(wedge))
      ensures View() == old(View()).Hear(node, poll)
    {
      var heard, count := SessionTakesIn(node, frame);
      Number(count, frame, sessions[node].productId);
      Trace(Polled(node, sessions[node].productId, poll));
      Watch(heard, now);
    }

    method SessionTakesIn(node: Node, frame: seq<byte>) returns (heard: bool, count: nat)
      requires Valid() && node in sessions
      modifies sessions[node]
      ensures heard <==> Messages(frame) != []
      ensures count == readings + |Levels(Messages(frame))|
      ensures View() == old(View()).With(node, old(sessions[node].View()).Hear(Messages(frame), readings))
    {
      heard, count := sessions[node].TakeIn(frame, readings);
    }

    /** Goes on counting from the levels of a report. */
    method Number(count: nat, ghost frame: seq<byte>, ghost productId: nat)
      requires Valid() && count == readings + |Levels(Messages(frame))|
      modifies this`readings, this`log, this`sources
      ensures Valid()
      ensures View() == old(View()).(log := old(log) + Levels(Messages(frame)),
                                     sources := old(sources) + Repeat(productId, |Levels(Messages(frame))|))
    {
      readings := count;
      log := log + Levels(Messages(frame));
      sources := sources + Repeat(productId, |Levels(Messages(frame))|);
    }

    /** Starts the watch on the first report, and tells it when one says something. */
    method Watch(heard: bool, now: nat)
      requires Valid()
      modifies this`wedge, wedge
      ensures Valid() && wedge != null && (wedge == old(wedge) || fresh(wedge))
      ensures var watch := if old(wedge) == null then NewWatch(now) else old(wedge.View());
        View() == old(View()).(wedge := Some(if heard then watch.Heard(now) else watch))
    {
      if wedge == null {
        wedge := new WedgeWatch(now);
      }
      if heard {
        var _ := wedge.Heard(now);
      }
    }

    method Ask(node: Node, now: nat, written: bool) returns (ok: bool)
      requires Valid() && node in sessions
      modifies this`trace, sessions[node]
      ensures Valid()
      ensures var was, state := old(View()), old(sessions[node].View());
        && View() == was.With(node, state.Ask(now, written)).(trace := was.trace + was.Asking(node, now, written))
        && (ok <==> written || state.GivesUp())
    {
      trace := trace + View().Asking(node, now, written);
      ok := sessions[node].Ask(now, written);
    }

    /** Asks, if a request is due; fails if the device does not take it. */
    method AskIfDue(node: Node, pass: Pass, write: Write) returns (ok: bool)
      requires Valid() && node in sessions
      modifies this`trace, sessions[node]
      ensures Valid()
      ensures View() == old(View()).AskIfDue(node, pass, write)
      ensures ok <==> !old(View()).AskFails(node, pass, write)
    {
      var session := sessions[node];
      ok := true;
      if session.ShouldAsk(pass.now, pass.interval, pass.listenFirst) {
        ok := Ask(node, pass.now, write.Taken?);
      }
    }

    method ListenTo(dongle: Dongle, pass: Pass, io: Io) returns (outcome: Outcome)
      requires Valid()
      modifies this, Objects()
      ensures Valid() && fresh(Objects() - old(Objects()))
      ensures (View(), outcome) == old(View()).ListenTo(dongle, pass, io)
    {
      var ok := Open(dongle, pass.now, io.opens);
      if !ok {
        return Failure(false);
      }
      ghost var open := View();
      ghost var poll := open.PollOf(pass, io);
      if io.fetch.FetchFailed? {
        Trace(Polled(dongle.node, sessions[dongle.node].productId, poll));
        return Failure(io.fetch.gone);
      }
      TakeIn(dongle.node, io.fetch.frame, pass.now, poll);
      ghost var heard := View();
      ok := AskIfDue(dongle.node, pass, io.write);
      if !ok {
        return Failure(io.write.gone);
      }
      outcome := Report(dongle.node, pass, io.playback);
    }

    /** Checks for a wedge, and reports what the session knows. */
    method Report(node: Node, pass: Pass, playback: Option<bool>) returns (outcome: Outcome)
      requires Valid() && node in sessions && wedge != null
      modifies this`trace, wedge
      ensures Valid()
      ensures View() == old(View()).CheckWedge(node, pass.now, playback)
      ensures var state := View().sessions[node].state;
        outcome == Reading(state.BatteryState(pass.wired), state.sample)
    {
      var session := sessions[node];
      if session.link != Up {
        var _ := wedge.Check(pass.now, playback);
        Trace(Checked(pass.now, playback));
      }
      outcome := Reading(session.Battery(pass.wired), session.sample);
    }

    /** Closes the session at a node, if it has one. */
    method Close(node: Node)
      requires Valid()
      modifies this`sessions, this`lastLink
      ensures Valid() && Objects() <= old(Objects())
      ensures sessions == old(sessions) - {node}
      ensures View() == old(View()).Close(node)
    {
      if node in sessions {
        var session := sessions[node];
        sessions := sessions - {node};
        lastLink := lastLink[session.productId := session.link];
      }
    }

    method Visit(dongle: Dongle, pass: Pass, io: Io) returns (headset: Headset)
      requires Valid()
      modifies this, Objects()
      ensures Valid() && fresh(Objects() - old(Objects()))
      ensures (View(), headset) == old(View()).Visit(dongle, pass, io)
    {
      var outcome := ListenTo(dongle, pass, io);
      match outcome
      case Reading(battery, sample) =>
        headset := Reported(dongle, battery, sample);
      case Failure(gone) =>
        if gone {
          Close(dongle.node);
        }
        headset := Reported(dongle, Unavailable, 0);
    }

    /** Closes every session whose node is not listed, one by one. */
    method Retain(dongles: seq<Dongle>)
      requires Valid()
      modifies this`sessions, this`lastLink
      ensures Valid() && Objects() <= old(Objects())
      ensures Retains(old(View()), Nodes(dongles), View())
    {
      ghost var before := View();
      var unseen := sessions.Keys;
      NothingClosed(before, Nodes(dongles) + unseen);
      while unseen != {}
        invariant Valid() && Objects() <= old(Objects())
        invariant unseen <= sessions.Keys
        invariant Retains(before, Nodes(dongles) + unseen, View())
        decreases unseen
      {
        var node :| node in unseen;
        if node in Nodes(dongles) {
          assert Nodes(dongles) + unseen == Nodes(dongles) + (unseen - {node});
        } else {
          assert Nodes(dongles) + unseen - {node} == Nodes(dongles) + (unseen - {node});
          ClosingOneMore(before, Nodes(dongles) + unseen, View(), node);
          Close(node);
        }
        unseen := unseen - {node};
      }
      assert Nodes(dongles) + {} == Nodes(dongles);
    }

    /**
     A whole pass: `Retain`, and then a visit to each dongle in the order they are listed.
     */
    method Reconcile(dongles: seq<Dongle>, pass: Pass, ios: seq<Io>) returns (headsets: seq<Headset>)
      requires Valid() && |ios| == |dongles|
      modifies this, Objects()
      ensures Valid() && fresh(Objects() - old(Objects()))
      ensures Reconciles(old(View()), dongles, pass, ios, View(), headsets)
    {
      Retain(dongles);
      headsets := VisitAll(dongles, pass, ios);
    }

    /** Visits every dongle in the order they are listed. */
    method VisitAll(dongles: seq<Dongle>, pass: Pass, ios: seq<Io>) returns (headsets: seq<Headset>)
      requires Valid() && |ios| == |dongles|
      modifies this, Objects()
      ensures Valid() && fresh(Objects() - old(Objects()))
      ensures (View(), headsets) == old(View()).VisitAll(dongles, pass, ios)
    {
      ghost var before := View();
      headsets := [];
      for i := 0 to |dongles|
        invariant Valid() && fresh(Objects() - old(Objects()))
        invariant (View(), headsets) == before.VisitAll(dongles[..i], pass, ios[..i])
      {
        OneMoreVisit(before, dongles, pass, ios, i);
        var headset := Visit(dongles[i], pass, ios[i]);
        headsets := headsets + [headset];
      }
      assert dongles[..|dongles|] == dongles && ios[..|dongles|] == ios;
    }
  }

  lemma OneMoreVisit(r: ReaderState, dongles: seq<Dongle>, pass: Pass, ios: seq<Io>, i: nat)
    requires i < |dongles| == |ios|
    ensures var (reader, headsets) := r.VisitAll(dongles[..i], pass, ios[..i]);
      var (last, headset) := reader.Visit(dongles[i], pass, ios[i]);
      r.VisitAll(dongles[..i + 1], pass, ios[..i + 1]) == (last, headsets + [headset])
  {
    assert dongles[..i + 1][..i] == dongles[..i] && ios[..i + 1][..i] == ios[..i];
  }

  lemma NothingClosed(r: ReaderState, listed: set<Node>)
    requires r.sessions.Keys <= listed
    ensures Retains(r, listed, r)
  {
  }

  lemma ClosingOneMore(before: ReaderState, listed: set<Node>, after: ReaderState, node: Node)
    requires Retains(before, listed, after) && node in after.sessions
    ensures Retains(before, listed - {node}, after.Close(node))
  {
    var less := listed - {node};
    var closed := after.Close(node);
    var product := before.sessions[node].productId;
    assert forall n, p :: Closes(before, less, n, p) <==> Closes(before, listed, n, p) || (n == node && p == product);
    assert Closes(before, less, node, product);
    forall p | ClosesNone(before, less, p)
      ensures closed.Inherited(p) == before.Inherited(p)
    {
      assert ClosesNone(before, listed, p);
    }
    forall p | !ClosesNone(before, less, p)
      ensures exists n :: Closes(before, less, n, p) && closed.Inherited(p) == before.sessions[n].state.link
    {
      if p == product {
        assert closed.Inherited(p) == before.sessions[node].state.link;
      } else {
        assert !ClosesNone(before, listed, p);
      }
    }
  }

  /** One whole pass: what is closed, then what is listened to. */
  ghost predicate Reconciles(
    before: ReaderState, dongles: seq<Dongle>, pass: Pass, ios: seq<Io>,
    after: ReaderState, headsets: seq<Headset>)
    requires |ios| == |dongles|
  {
    exists retained ::
      Retains(before, Nodes(dongles), retained) && (after, headsets) == retained.VisitAll(dongles, pass, ios)
  }
}
