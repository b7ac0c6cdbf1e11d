/** The in-process channel bus: sequenced channels, cursors per consumer, destructive acks. */
module Channels {
  import opened Wrappers

  /** The payloads the agents of the pipeline hand over; `Other` is anything else. */
  datatype Payload =
    | Research(topic: string, snapshot: nat, factKeys: seq<string>)
    | Draft(topic: string, snapshot: nat, draftPath: string)
    | Final(topic: string, snapshot: nat, finalPath: string, notes: string)
    | Other(text: string)

  datatype Message = Message(id: nat, channel: string, seq_: nat, kind: Option<string>, payload: Payload)

  /** Ids come from a counter, standing for fresh random ids. */
  datatype Bus = Bus(messages: seq<Message>, cursors: map<string, int>, nextSeq: map<string, nat>, nextId: nat)

  const EMPTY := Bus([], map[], map[], 0)

  function CursorKey(channel: string, consumer: string): string {
    channel + ":" + consumer
  }

  function LastSeq(bus: Bus, channel: string): nat {
    if channel in bus.nextSeq then bus.nextSeq[channel] else 0
  }

  function Cursor(bus: Bus, key: string): int {
    if key in bus.cursors then bus.cursors[key] else 0
  }

  // ----- the three operations -----

  function Sent(bus: Bus, channel: string, kind: Option<string>, payload: Payload): Message {
    Message(bus.nextId, channel, LastSeq(bus, channel) + 1, kind, payload)
  }

  function Send(bus: Bus, channel: string, kind: Option<string>, payload: Payload): Bus {
    bus.(messages := bus.messages + [Sent(bus, channel, kind, payload)],
         nextSeq := bus.nextSeq[channel := LastSeq(bus, channel) + 1],
         nextId := bus.nextId + 1)
  }

  predicate Beyond(m: Message, channel: string, base: int) {
    m.channel == channel && m.seq_ > base
  }

  /** The messages of a channel beyond `base`, in the order they were sent. */
  function Pending(messages: seq<Message>, channel: string, base: int): seq<Message> {
    if messages == [] then []
    else
      var last := messages[|messages| - 1];
      Pending(messages[..|messages| - 1], channel, base) + if Beyond(last, channel, base) then [last] else []
  }

  /** A limit below one still lets one message through. */
  function Limited(out: seq<Message>, limit: Option<int>): seq<Message> {
    if limit == None then out
    else
      var n := if limit.value < 1 then 1 else limit.value;
      if n < |out| then out[..n] else out
  }

  datatype Reading = Reading(channel: string, consumer: Option<string>, limit: Option<int>, peek: bool,
                             since: Option<int>)

  function Base(bus: Bus, r: Reading): int {
    if r.since.Some? then r.since.value
    else if r.consumer.Some? then Cursor(bus, CursorKey(r.channel, r.consumer.value))
    else 0
  }

  function Received(bus: Bus, r: Reading): seq<Message> {
    Limited(Pending(bus.messages, r.channel, Base(bus, r)), r.limit)
  }

  function Receive(bus: Bus, r: Reading): Bus {
    var out := Received(bus, r);
    if out != [] && r.consumer.Some? && !r.peek then
      bus.(cursors := bus.cursors[CursorKey(r.channel, r.consumer.value) := out[|out| - 1].seq_])
    else bus
  }

  function Without(messages: seq<Message>, id: nat): seq<Message> {
    if messages == [] then []
    else
      var last := messages[|messages| - 1];
      Without(messages[..|messages| - 1], id) + if last.id != id then [last] else []
  }

  function Ack(bus: Bus, id: nat): Bus {
    bus.(messages := Without(bus.messages, id))
  }

  function Depth(messages: seq<Message>, channel: string): nat {
    if messages == [] then 0
    else Depth(messages[..|messages| - 1], channel) + if messages[|messages| - 1].channel == channel then 1 else 0
  }

  // ----- the shape of the bus -----

  /** Sent in this order: ids grow, and so do the sequence numbers of each channel. */
  predicate Before(a: Message, b: Message) {
    a.id < b.id && (a.channel == b.channel ==> a.seq_ < b.seq_)
  }

  ghost predicate Increasing(messages: seq<Message>) {
    messages == [] ||
    (var n := |messages| - 1;
     Increasing(messages[..n]) && forall m :: m in messages[..n] ==> Before(m, messages[n]))
  }

  /** Ids are distinct and used up in order, and each channel's messages are numbered upwards. */
  ghost predicate Ordered(bus: Bus) {
    Increasing(bus.messages) && forall m :: m in bus.messages ==> Numbered(bus, m)
  }

  ghost predicate Numbered(bus: Bus, m: Message) {
    m.id < bus.nextId && 1 <= m.seq_ <= LastSeq(bus, m.channel)
  }

  lemma InInit<T>(s: seq<T>, x: T)
    requires s != []
    ensures x in s <==> x in s[..|s| - 1] || x == s[|s| - 1]
  {
    assert s == s[..|s| - 1] + [s[|s| - 1]];
  }

  lemma {:induction false} IncreasingAt(messages: seq<Message>, i: nat, j: nat)
    requires Increasing(messages) && i < j < |messages|
    ensures Before(messages[i], messages[j])
    decreases |messages|
  {
    var n := |messages| - 1;
    if j == n {
      assert messages[..n][i] == messages[i];
    } else {
      IncreasingAt(messages[..n], i, j);
    }
  }

  lemma {:induction false} WithoutIn(messages: seq<Message>, id: nat, m: Message)
    ensures m in Without(messages, id) <==> m in messages && m.id != id
    decreases |messages|
  {
    if messages != [] {
      WithoutIn(messages[..|messages| - 1], id, m);
      InInit(messages, m);
    }
  }

  lemma {:induction false} WithoutIncreasing(messages: seq<Message>, id: nat)
    requires Increasing(messages)
    ensures Increasing(Without(messages, id))
    decreases |messages|
  {
    if messages != [] {
      var n := |messages| - 1;
      var out := Without(messages[..n], id);
      WithoutIncreasing(messages[..n], id);
      forall m | m in out ensures Before(m, messages[n]) { WithoutIn(messages[..n], id, m); }
      assert (out + [messages[n]])[..|out|] == out && out + [] == out;
    }
  }

  lemma {:induction false} PendingIn(messages: seq<Message>, channel: string, base: int, m: Message)
    ensures m in Pending(messages, channel, base) <==> m in messages && Beyond(m, channel, base)
    decreases |messages|
  {
    if messages != [] {
      PendingIn(messages[..|messages| - 1], channel, base, m);
      InInit(messages, m);
    }
  }

  lemma {:induction false} PendingIncreasing(messages: seq<Message>, channel: string, base: int)
    requires Increasing(messages)
    ensures Increasing(Pending(messages, channel, base))
    decreases |messages|
  {
    if messages != [] {
      var n := |messages| - 1;
      var out := Pending(messages[..n], channel, base);
      PendingIncreasing(messages[..n], channel, base);
      forall m | m in out ensures Before(m, messages[n]) { PendingIn(messages[..n], channel, base, m); }
      assert (out + [messages[n]])[..|out|] == out && out + [] == out;
    }
  }

  lemma SendOrdered(bus: Bus, channel: string, kind: Option<string>, payload: Payload)
    requires Ordered(bus)
    ensures Ordered(Send(bus, channel, kind, payload))
  {
    var bus' := Send(bus, channel, kind, payload);
    assert bus'.messages[..|bus.messages|] == bus.messages;
    forall m | m in bus.messages ensures Before(m, Sent(bus, channel, kind, payload)) { assert Numbered(bus, m); }
  }

  lemma AckOrdered(bus: Bus, id: nat)
    requires Ordered(bus)
    ensures Ordered(Ack(bus, id))
  {
    WithoutIncreasing(bus.messages, id);
    forall m | m in Ack(bus, id).messages ensures Numbered(Ack(bus, id), m) {
      WithoutIn(bus.messages, id, m);
      assert Numbered(bus, m);
    }
  }

  /** What one receive returns is the lowest pending messages: everything pending up to the last one returned. */
  lemma ReceivedIn(bus: Bus, r: Reading, m: Message)
    requires Ordered(bus)
    ensures var out := Received(bus, r);
            && (m in out ==> m in bus.messages && Beyond(m, r.channel, Base(bus, r)))
            && (m in bus.messages && Beyond(m, r.channel, Base(bus, r)) ==>
                  out != [] && (m in out || out[|out| - 1].seq_ < m.seq_))
  {
    var all, out := Pending(bus.messages, r.channel, Base(bus, r)), Received(bus, r);
    PendingIn(bus.messages, r.channel, Base(bus, r), m);
    PendingIncreasing(bus.messages, r.channel, Base(bus, r));
    if m in all && m !in out {
      var k :| 0 <= k < |all| && all[k] == m;
      LimitedIn(all, r.limit, k);
      IncreasingAt(all, |out| - 1, k);
      LastPending(bus, r);
    }
  }

  /** The least sequence number a reader is past: what it asks for, else what it has read, else nothing. */
  lemma BaseIs(bus: Bus, r: Reading)
    ensures r.since.Some? ==> Base(bus, r) == r.since.value
    ensures r.since == None && r.consumer.Some? && CursorKey(r.channel, r.consumer.value) in bus.cursors ==>
              Base(bus, r) == bus.cursors[CursorKey(r.channel, r.consumer.value)]
    ensures r.since == None && (r.consumer == None || CursorKey(r.channel, r.consumer.value) !in bus.cursors) ==>
              Base(bus, r) == 0
  {
  }

  /** A receive leaves out a pending message only when its limit is full, where a limit below one counts as one; and it
      never returns more than that. */
  lemma OnlyLimitLeavesOut(bus: Bus, r: Reading, m: Message)
    requires m in bus.messages && Beyond(m, r.channel, Base(bus, r))
    ensures r.limit == None ==> m in Received(bus, r)
    ensures r.limit.Some? ==>
              var limit := if r.limit.value < 1 then 1 else r.limit.value;
              |Received(bus, r)| <= limit && (m !in Received(bus, r) ==> |Received(bus, r)| == limit)
  {
    PendingIn(bus.messages, r.channel, Base(bus, r), m);
  }

  /** A look without taking: peeking, or reading for nobody, moves no cursor, and a receive moves only the reader's own,
      to the last message it returned. */
  lemma CursorMoves(bus: Bus, r: Reading, key: string)
    ensures Receive(bus, r).messages == bus.messages
    ensures r.peek || r.consumer == None ==> Receive(bus, r) == bus
    ensures r.consumer.Some? && key != CursorKey(r.channel, r.consumer.value) ==>
              Cursor(Receive(bus, r), key) == Cursor(bus, key)
    ensures var out := Received(bus, r);
            !r.peek && r.consumer.Some? && key == CursorKey(r.channel, r.consumer.value) && out != [] ==>
              Cursor(Receive(bus, r), key) == out[|out| - 1].seq_
    ensures Received(bus, r) == Received(bus, r.(peek := !r.peek))
  {
  }

  lemma LimitedIn(all: seq<Message>, limit: Option<int>, k: nat)
    requires k < |all|
    ensures k < |Limited(all, limit)| ==> all[k] in Limited(all, limit)
  {
    if k < |Limited(all, limit)| { assert Limited(all, limit)[k] == all[k]; }
  }

  lemma LastPending(bus: Bus, r: Reading)
    ensures var out := Received(bus, r);
            out != [] ==> Beyond(out[|out| - 1], r.channel, Base(bus, r)) && out[|out| - 1] in bus.messages
  {
    var all, out := Pending(bus.messages, r.channel, Base(bus, r)), Received(bus, r);
    if out != [] {
      assert out[|out| - 1] == all[|out| - 1];
      PendingIn(bus.messages, r.channel, Base(bus, r), all[|out| - 1]);
    }
  }

  /** A receive returns messages in increasing order, and with a limit at most that many, but never none for it. */
  lemma ReceivedOrder(bus: Bus, r: Reading, i: nat, j: nat)
    requires Ordered(bus) && i < j < |Received(bus, r)|
    ensures Received(bus, r)[i].seq_ < Received(bus, r)[j].seq_
    ensures r.limit.Some? ==> r.limit.value >= 2 && |Received(bus, r)| <= r.limit.value
  {
    var all, out := Pending(bus.messages, r.channel, Base(bus, r)), Received(bus, r);
    PendingIncreasing(bus.messages, r.channel, Base(bus, r));
    IncreasingAt(all, i, j);
    assert out[i] == all[i] && out[j] == all[j] && all[i] in all && all[j] in all;
    PendingIn(bus.messages, r.channel, Base(bus, r), all[i]);
    PendingIn(bus.messages, r.channel, Base(bus, r), all[j]);
  }
}
