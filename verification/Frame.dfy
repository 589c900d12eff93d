/**
 The dongle's report (src/maxwell/frame.rs): an unanchored scan for two headers in the fresh
 part of a buffer that is otherwise full of leftovers, and the framed stream it is run on.
 */
module Frame {
  import opened Prelude

  type byte = x: nat | x < 256

  const FRESH_LEN_OFFSET: nat := 1
  const PAYLOAD_OFFSET: nat := 3

  const BATTERY_ANSWER: seq<byte> := [0x5d, 0x05, 0x00, 0xd6, 0x0c, 0x00, 0x00]
  const LINK_EVENT: seq<byte> := [0x5d, 0x0e, 0x00, 0xb1, 0x2c, 0x00, 0x02]

  /** One thing said in a report: the state of the link, or a level. */
  datatype Message = Link(up: bool) | Battery(level: nat)

  /** The bytes of a report that are not leftovers: as many as it counts, and has. */
  function Fresh(frame: seq<byte>): seq<byte> {
    var end := Min(PAYLOAD_OFFSET + Count(frame), |frame|);
    if PAYLOAD_OFFSET <= end then frame[PAYLOAD_OFFSET..end] else []
  }

  /** How many bytes a report says were written. */
  function Count(frame: seq<byte>): byte {
    if FRESH_LEN_OFFSET < |frame| then frame[FRESH_LEN_OFFSET] else 0
  }

  /** The message starting exactly at the front of `rest`, if there is one. */
  function MessageAt(rest: seq<byte>): Option<Message> {
    if BATTERY_ANSWER <= rest && |BATTERY_ANSWER| < |rest| then
      var value := rest[|BATTERY_ANSWER|];
      if value <= 100 then Some(Battery(value)) else None
    else if LINK_EVENT <= rest && |LINK_EVENT| < |rest| then
      Some(Link(rest[|LINK_EVENT|] != 0))
    else
      None
  }

  /** The messages found at every offset of `data`, in order. */
  function Scan(data: seq<byte>): (said: seq<Message>)
    ensures forall m <- said :: m.Battery? ==> m.level <= 100
  {
    if data == [] then
      []
    else
      match MessageAt(data)
      case Some(message) => [message] + Scan(data[1..])
      case None => Scan(data[1..])
  }

  /** All that a report says, in the order it was said. */
  function Messages(frame: seq<byte>): (said: seq<Message>)
    ensures forall m <- said :: m.Battery? ==> m.level <= 100
  {
    Scan(Fresh(frame))
  }

  // ----- The framed stream: each message is 05, its type, its length, 00 and its payload -----

  /**
   One framed message. Every message of the layout is one of these: an answer to the battery
   request, a link event, or anything else - an acknowledgement, say.
   */
  datatype Item =
    | Answer(value: byte)
    | LinkEvent(state: byte, tail: seq<byte>)
    | Other(kind: byte, payload: seq<byte>)
  {
    function Kind(): byte {
      match this
      case Other(kind, _) => kind
      case _ => 0x5d
    }

    function Payload(): seq<byte> {
      match this
      case Answer(value) => [0xd6, 0x0c, 0x00, 0x00, value]
      case LinkEvent(state, tail) => [0xb1, 0x2c, 0x00, 0x02, state] + tail
      case Other(_, payload) => payload
    }

    /** The lengths fit the layout, and `Other` is neither of the first two in disguise. */
    ghost predicate WellFormed() {
      match this
      case Answer(_) => true
      case LinkEvent(_, tail) => |tail| == 9
      case Other(kind, payload) =>
        && |payload| < 256
        && !(BATTERY_ANSWER <= [kind, |payload|, 0x00] + payload && |payload| == 5)
        && !(LINK_EVENT <= [kind, |payload|, 0x00] + payload && |payload| == 14)
    }

    /** The bytes the layout does not prescribe, at the end of the message. */
    function Free(): seq<byte> {
      match this
      case Answer(value) => [value]
      case LinkEvent(state, tail) => [state] + tail
      case Other(_, payload) => payload
    }

    /** What the message means. */
    function Said(): seq<Message> {
      match this
      case Answer(value) => if value <= 100 then [Battery(value)] else []
      case LinkEvent(state, _) => [Link(state != 0)]
      case Other(_, _) => []
    }
  }

  ghost predicate WellFormed(items: seq<Item>) {
    forall i :: 0 <= i < |items| ==> items[i].WellFormed()
  }

  function PrintItem(item: Item): seq<byte>
    requires item.WellFormed()
  {
    [0x05, item.Kind(), |item.Payload()|, 0x00] + item.Payload()
  }

  function Print(items: seq<Item>): seq<byte>
    requires WellFormed(items)
  {
    if items == [] then [] else PrintItem(items[0]) + Print(items[1..])
  }

  function SaidAll(items: seq<Item>): seq<Message> {
    if items == [] then [] else items[0].Said() + SaidAll(items[1..])
  }

  /**
   Whether the free bytes of item `i` hold a whole header followed by a byte that makes it a
   message - the next item starts with `05`.
   */
  ghost predicate Smuggles(items: seq<Item>, i: nat)
    requires i < |items|
  {
    Noise(items[i], i + 1 < |items|) != []
  }

  function Noise(item: Item, followed: bool): seq<Message> {
    Scan(item.Free() + if followed then [0x05] else [])
  }

  /** What a scan of the printed items finds: the messages, and the noise, interleaved. */
  ghost function Told(items: seq<Item>): seq<Message> {
    if items == [] then
      []
    else
      items[0].Said() + Noise(items[0], 1 < |items|) + Told(items[1..])
  }

  // ----- How the scan moves along a stream -----

  lemma {:induction false} ScanTooShort(data: seq<byte>)
    requires |data| < 8
    ensures Scan(data) == []
  {
    if data == [] {
    } else {
      ScanTooShort(data[1..]);
    }
  }

  /** A byte that is not `5d` starts nothing. */
  lemma ScanSkips(b: byte, rest: seq<byte>)
    requires b != 0x5d
    ensures Scan([b] + rest) == Scan(rest)
  {
    var data: seq<byte> := [b] + rest;
    assert data[1..] == rest;
    assert BATTERY_ANSWER[0] == LINK_EVENT[0] == 0x5d && data[0] == b;
  }

  /** The front of a framed stream: empty, or at least a header `05 . . 00`. */
  ghost predicate Framed(rest: seq<byte>) {
    rest == [] || (4 <= |rest| && rest[0] == 0x05 && rest[3] == 0x00)
  }

  /** No header starts in free bytes and is completed by the framing of what follows. */
  lemma NoStraddling(free: seq<byte>, rest: seq<byte>)
    requires Framed(rest) && free != []
    ensures MessageAt(free + rest) == MessageAt(free + if rest == [] then [] else [0x05])
  {
    var whole: seq<byte> := free + rest;
    var short: seq<byte> := free + if rest == [] then [] else [0x05];
    if rest != [] {
      if |free| < 7 {
        if 7 <= |whole| {
          assert whole[|free|] == 0x05;
          assert whole[|free| + 3] == 0x00;
          assert BATTERY_ANSWER[|free|] == 0x05 ==> |free| == 1 && BATTERY_ANSWER[4] == 0x0c;
          assert LINK_EVENT[|free|] != 0x05;
        }
      } else {
        assert whole[..7] == free[..7] == short[..7];
        assert whole[7] == short[7];
      }
    } else {
      assert whole == short;
    }
  }

  lemma {:induction false} ScanSplits(free: seq<byte>, rest: seq<byte>)
    requires Framed(rest)
    ensures Scan(free + rest) == Scan(free + if rest == [] then [] else [0x05]) + Scan(rest)
    decreases |free|
  {
    var short: seq<byte> := free + if rest == [] then [] else [0x05];
    if free == [] {
      assert free + rest == rest;
      ScanTooShort(short);
    } else {
      NoStraddling(free, rest);
      ScanSplits(free[1..], rest);
      assert (free + rest)[1..] == free[1..] + rest;
      assert short[1..] == free[1..] + if rest == [] then [] else [0x05];
    }
  }

  /** Past its prescribed bytes, an item has said what it means, and nothing else. */
  lemma ScanItem(item: Item, rest: seq<byte>)
    requires item.WellFormed()
    ensures Scan(PrintItem(item) + rest) == item.Said() + Scan(item.Free() + rest)
  {
    var len: byte := |item.Payload()|;
    var body: seq<byte> := item.Payload() + rest;
    assert PrintItem(item) + rest == [0x05] + ([item.Kind(), len, 0x00] + body);
    ScanSkips(0x05, [item.Kind(), len, 0x00] + body);
    ScanHeader(item, rest);
    ItemPrefixSaysNothing(item, rest);
  }

  lemma ScanHeader(item: Item, rest: seq<byte>)
    requires item.WellFormed()
    ensures Scan([item.Kind(), |item.Payload()|, 0x00] + (item.Payload() + rest))
         == item.Said() + Scan(item.Payload() + rest)
  {
    var body: seq<byte> := item.Payload() + rest;
    var at: seq<byte> := [item.Kind(), |item.Payload()|, 0x00] + body;
    assert at[1..] == [|item.Payload()|, 0x00] + body;
    LengthByteSaysNothing(|item.Payload()|, body);
    ItemHeader(item, rest);
  }

  lemma ItemHeader(item: Item, rest: seq<byte>)
    requires item.WellFormed()
    ensures item.Said() == match MessageAt([item.Kind(), |item.Payload()|, 0x00] + (item.Payload() + rest))
                           case Some(message) => [message]
                           case None => []
  {
    match item {
      case Answer(value) => AnswerHeader(value, rest);
      case LinkEvent(state, tail) => LinkHeader(state, tail, rest);
      case Other(_, _) => OtherHeader(item, rest);
    }
  }

  lemma ItemPrefixSaysNothing(item: Item, rest: seq<byte>)
    ensures Scan(item.Payload() + rest) == Scan(item.Free() + rest)
  {
    var tail: seq<byte> := item.Free() + rest;
    match item {
      case Answer(value) =>
        assert item.Payload() + rest == [0xd6, 0x0c, 0x00, 0x00] + tail;
        ScanSkipsFour(0xd6, 0x0c, 0x00, 0x00, tail);
      case LinkEvent(_, _) =>
        assert item.Payload() + rest == [0xb1, 0x2c, 0x00, 0x02] + tail;
        ScanSkipsFour(0xb1, 0x2c, 0x00, 0x02, tail);
      case Other(_, _) =>
    }
  }

  lemma ScanSkipsTwo(a: byte, b: byte, rest: seq<byte>)
    requires a != 0x5d && b != 0x5d
    ensures Scan([a, b] + rest) == Scan(rest)
  {
    assert [a, b] + rest == [a] + ([b] + rest);
    ScanSkips(a, [b] + rest);
    ScanSkips(b, rest);
  }

  lemma ScanSkipsFour(a: byte, b: byte, c: byte, d: byte, rest: seq<byte>)
    requires a != 0x5d && b != 0x5d && c != 0x5d && d != 0x5d
    ensures Scan([a, b, c, d] + rest) == Scan(rest)
  {
    assert [a, b, c, d] + rest == [a, b] + ([c, d] + rest);
    ScanSkipsTwo(a, b, [c, d] + rest);
    ScanSkipsTwo(c, d, rest);
  }

  lemma LengthByteSaysNothing(len: byte, body: seq<byte>)
    ensures Scan([len, 0x00] + body) == Scan(body)
  {
    var data: seq<byte> := [len, 0x00] + body;
    assert data[1] == 0x00 && BATTERY_ANSWER[1] == 0x05 && LINK_EVENT[1] == 0x0e;
    assert data[1..] == [0x00] + body;
    ScanSkips(0x00, body);
  }

  lemma AnswerHeader(value: byte, rest: seq<byte>)
    ensures MessageAt([0x5d, 5, 0x00] + (Answer(value).Payload() + rest))
         == if value <= 100 then Some(Battery(value)) else None
  {
  }

  lemma LinkHeader(state: byte, tail: seq<byte>, rest: seq<byte>)
    requires |tail| == 9
    ensures MessageAt([0x5d, 14, 0x00] + (LinkEvent(state, tail).Payload() + rest)) == Some(Link(state != 0))
  {
    var at: seq<byte> := [0x5d, 14, 0x00] + (LinkEvent(state, tail).Payload() + rest);
    assert at[..7] == LINK_EVENT;
    assert at[7] == state;
    assert at[1] != BATTERY_ANSWER[1];
  }

  lemma OtherHeader(item: Item, rest: seq<byte>)
    requires item.Other? && item.WellFormed()
    ensures MessageAt([item.kind, |item.payload|, 0x00] + (item.payload + rest)) == None
  {
    var own: seq<byte> := [item.kind, |item.payload|, 0x00] + item.payload;
    var at: seq<byte> := [item.kind, |item.payload|, 0x00] + (item.payload + rest);
    assert at == own + rest;
    assert at[1] == |item.payload|;
    assert 7 <= |own| ==> at[..7] == own[..7];
  }

  lemma PrintIsFramed(items: seq<Item>)
    requires WellFormed(items)
    ensures Framed(Print(items))
    ensures Print(items) == [] <==> items == []
  {
  }

  lemma {:induction false} ScanTells(items: seq<Item>)
    requires WellFormed(items)
    ensures Scan(Print(items)) == Told(items)
  {
    if items == [] {
    } else {
      PrintIsFramed(items[1..]);
      ScanItemThenRest(items[0], Print(items[1..]));
      ScanTells(items[1..]);
    }
  }

  lemma ScanItemThenRest(item: Item, rest: seq<byte>)
    requires item.WellFormed() && Framed(rest)
    ensures Scan(PrintItem(item) + rest) == item.Said() + Noise(item, rest != []) + Scan(rest)
  {
    ScanItem(item, rest);
    ScanSplits(item.Free(), rest);
  }

  lemma NoiseOnlyAdds<T>(said: seq<T>, noise: seq<T>, told: seq<T>, saidAfter: seq<T>)
    requires |saidAfter| <= |told| && (|told| == |saidAfter| ==> told == saidAfter)
    ensures |said + saidAfter| <= |said + noise + told|
    ensures |said + noise + told| == |said + saidAfter| <==> noise == [] && told == saidAfter
    ensures noise == [] && told == saidAfter ==> said + noise + told == said + saidAfter
  {
  }

  /** Noise only ever adds messages: what is told is what was said exactly when there is none. */
  lemma {:induction false} ToldIsSaid(items: seq<Item>)
    ensures |SaidAll(items)| <= |Told(items)|
    ensures Told(items) == SaidAll(items) <==> |Told(items)| == |SaidAll(items)|
    ensures Told(items) == SaidAll(items) <==> Silent(items)
  {
    if items == [] {
    } else {
      ToldIsSaid(items[1..]);
      SilentSplits(items);
      NoiseOnlyAdds(items[0].Said(), Noise(items[0], 1 < |items|), Told(items[1..]), SaidAll(items[1..]));
    }
  }

  ghost predicate Silent(items: seq<Item>) {
    forall i :: 0 <= i < |items| ==> !Smuggles(items, i)
  }

  lemma SilentSplits(items: seq<Item>)
    requires items != []
    ensures Silent(items) <==> Noise(items[0], 1 < |items|) == [] && Silent(items[1..])
  {
    var rest := items[1..];
    assert Smuggles(items, 0) == (Noise(items[0], 1 < |items|) != []);
    assert forall i :: 0 <= i < |rest| ==> Smuggles(rest, i) == Smuggles(items, i + 1);
    assert forall i :: 1 <= i < |items| ==> Smuggles(items, i) == Smuggles(rest, i - 1);
  }

  /**
   The round trip, for the whole layout and exactly: scanning a printed stream gives back the
   link and battery messages that were printed, in order, if and only if no free bytes smuggle
   in a header of their own.
   */
  lemma RoundTrip(items: seq<Item>)
    requires WellFormed(items)
    ensures Scan(Print(items)) == SaidAll(items) <==> Silent(items)
  {
    ScanTells(items);
    ToldIsSaid(items);
  }

  /** Free bytes without a `5d` smuggle nothing in - nor does a level, `5d` being one of them. */
  lemma {:induction false} NoHeaderByteNoNoise(free: seq<byte>)
    requires |free| == 1 || 0x5d !in free
    ensures Scan(free) == [] && Scan(free + [0x05]) == []
  {
    if |free| <= 1 {
      ScanTooShort(free);
      ScanTooShort(free + [0x05]);
    } else {
      assert free == [free[0]] + free[1..];
      assert free + [0x05] == [free[0]] + (free[1..] + [0x05]);
      ScanSkips(free[0], free[1..]);
      ScanSkips(free[0], free[1..] + [0x05]);
      NoHeaderByteNoNoise(free[1..]);
    }
  }

  /** A report: its ID, the fresh count, a byte that is not looked at, the stream, leftovers. */
  function Report(id: byte, third: byte, stream: seq<byte>, leftovers: seq<byte>): seq<byte>
    requires |stream| < 256
  {
    [id, |stream|, third] + stream + leftovers
  }

  /** The round trip through a whole report, whatever earlier exchanges left behind in it. */
  lemma {:induction false} ReportRoundTrip(items: seq<Item>, id: byte, third: byte, leftovers: seq<byte>)
    requires WellFormed(items) && |Print(items)| < 256
    requires forall item <- items :: !item.Answer? ==> 0x5d !in item.Free()
    ensures Messages(Report(id, third, Print(items), leftovers)) == SaidAll(items)
  {
    FreshOfReport(id, third, Print(items), leftovers);
    forall i | 0 <= i < |items|
      ensures !Smuggles(items, i)
    {
      assert items[i] in items;
      NoHeaderByteNoNoise(items[i].Free());
      assert items[i].Free() + [] == items[i].Free();
    }
    RoundTrip(items);
  }

  lemma FreshOfReport(id: byte, third: byte, stream: seq<byte>, leftovers: seq<byte>)
    requires |stream| < 256
    ensures Fresh(Report(id, third, stream, leftovers)) == stream
  {
  }

  // ----- Stale bytes, truncation, spacing -----

  /** Both frames end before byte `i`, or have the same there. */
  predicate AgreeAt(frame: seq<byte>, other: seq<byte>, i: nat) {
    if i < |frame| && i < |other| then frame[i] == other[i] else |frame| <= i && |other| <= i
  }

  /**
   Only the bytes counted as fresh matter: two frames that count as many and agree on each of
   them say the same, whatever else is in them, however short they are.
   */
  lemma {:induction false} LeftoversSayNothing(frame: seq<byte>, other: seq<byte>)
    requires Count(frame) == Count(other)
    requires forall i :: PAYLOAD_OFFSET <= i < PAYLOAD_OFFSET + Count(frame) ==> AgreeAt(frame, other, i)
    ensures Messages(frame) == Messages(other)
  {
    var n, m := |Fresh(frame)|, |Fresh(other)|;
    assert n < Count(frame) ==> AgreeAt(frame, other, PAYLOAD_OFFSET + n);
    assert m < Count(frame) ==> AgreeAt(frame, other, PAYLOAD_OFFSET + m);
    forall i | 0 <= i < n && i < m
      ensures Fresh(frame)[i] == Fresh(other)[i]
    {
      assert AgreeAt(frame, other, PAYLOAD_OFFSET + i);
    }
    assert Fresh(frame) == Fresh(other);
  }

  /** A stream cut short anywhere says a prefix of what the whole of it says. */
  lemma {:induction false} TruncationKeepsAPrefix(data: seq<byte>, more: seq<byte>)
    ensures Scan(data) <= Scan(data + more)
  {
    if |data| < 8 {
      ScanTooShort(data);
    } else {
      TruncationKeepsAPrefix(data[1..], more);
      assert (data + more)[1..] == data[1..] + more;
      assert (data + more)[..7] == data[..7];
      assert (data + more)[7] == data[7];
    }
  }

  /** So does a frame with a smaller fresh count, for frames of any length and any counts. */
  lemma SmallerCountSaysAPrefix(frame: seq<byte>, count: byte)
    requires 2 <= |frame| && count <= frame[1]
    ensures Messages(frame[1 := count]) <= Messages(frame)
  {
    var less := frame[1 := count];
    var few, all := Fresh(less), Fresh(frame);
    assert few <= all;
    assert all == few + all[|few|..];
    TruncationKeepsAPrefix(few, all[|few|..]);
  }

  /** Two messages never start less than seven bytes apart. */
  lemma MessagesDoNotOverlap(data: seq<byte>, i: nat, j: nat)
    requires i < j < |data|
    requires MessageAt(data[i..]).Some? && MessageAt(data[j..]).Some?
    ensures 7 <= j - i
  {
    assert data[i..][j - i] == data[j] == data[j..][0];
    assert BATTERY_ANSWER[0] == LINK_EVENT[0] == 0x5d;
    assert forall k :: 1 <= k < 7 ==> BATTERY_ANSWER[k] != 0x5d && LINK_EVENT[k] != 0x5d;
  }
}
