/** What a subscriber gets to see over any run of sends, receives and acks. */
module ChannelHistory {
  import opened Wrappers
  import opened Runs
  import opened Channels

  datatype Op =
    | SendOp(channel: string, kind: Option<string>, payload: Payload)
    | ReceiveOp(reading: Reading)
    | AckOp(id: nat)

  function Step(bus: Bus, op: Op): Bus {
    match op
    case SendOp(channel, kind, payload) => Send(bus, channel, kind, payload)
    case ReceiveOp(reading) => Receive(bus, reading)
    case AckOp(id) => Ack(bus, id)
  }

  datatype Subscriber = Subscriber(channel: string, consumer: string) {
    function Key(): string { CursorKey(channel, consumer) }

    predicate Owns(r: Reading) {
      r.channel == channel && r.consumer == Some(consumer)
    }
  }

  /** The bus, and what has happened on it: everything sent, everything acked, everything delivered to one
      subscriber in order. */
  datatype History = History(bus: Bus, sent: seq<Message>, acked: set<nat>, delivered: seq<Message>)

  function Next(h: History, op: Op, s: Subscriber): History {
    match op
    case SendOp(channel, kind, payload) =>
      h.(bus := Step(h.bus, op), sent := h.sent + [Sent(h.bus, channel, kind, payload)])
    case ReceiveOp(reading) =>
      h.(bus := Step(h.bus, op), delivered := h.delivered + if s.Owns(reading) then Received(h.bus, reading) else [])
    case AckOp(id) => h.(bus := Step(h.bus, op), acked := h.acked + {id})
  }

  const START := History(EMPTY, [], {}, [])

  function After(ops: seq<Op>, s: Subscriber): History {
    Fold((h: History, op: Op) => Next(h, op, s), START, ops)
  }

  /** The subscriber never reads with `since` or `peek`, and no other reader's cursor key is spelt like its own. */
  predicate Plain(op: Op, s: Subscriber) {
    op.ReceiveOp? && op.reading.consumer.Some?
    && CursorKey(op.reading.channel, op.reading.consumer.value) == s.Key() ==>
      s.Owns(op.reading) && op.reading.since == None && !op.reading.peek
  }

  predicate AllPlain(ops: seq<Op>, s: Subscriber) {
    forall i :: 0 <= i < |ops| ==> Plain(ops[i], s)
  }

  ghost predicate Rising(ms: seq<Message>) {
    ms == [] ||
    (var n := |ms| - 1;
     Rising(ms[..n]) && forall m :: m in ms[..n] ==> m.seq_ < ms[n].seq_)
  }

  lemma {:induction false} RisingAt(ms: seq<Message>, i: nat, j: nat)
    requires Rising(ms) && i < j < |ms|
    ensures ms[i].seq_ < ms[j].seq_
    decreases |ms|
  {
    var n := |ms| - 1;
    if j == n {
      assert ms[..n][i] == ms[i];
    } else {
      RisingAt(ms[..n], i, j);
    }
  }

  lemma {:induction false} RisingAppend(a: seq<Message>, b: seq<Message>, k: nat)
    requires Rising(a) && k <= |b|
    requires forall i, j :: 0 <= i < j < |b| ==> b[i].seq_ < b[j].seq_
    requires forall x, y :: x in a && y in b ==> x.seq_ < y.seq_
    ensures Rising(a + b[..k])
    decreases k
  {
    if k == 0 {
      assert a + b[..0] == a;
    } else {
      RisingAppend(a, b, k - 1);
      var all := a + b[..k];
      assert all[..|all| - 1] == a + b[..k - 1];
      forall m | m in a + b[..k - 1] ensures m.seq_ < b[k - 1].seq_ {
        assert m in a || m in b[..k - 1];
      }
    }
  }

  // ----- the invariant -----

  ghost predicate Tracked(h: History, s: Subscriber) {
    && Ordered(h.bus)
    && Accounted(h.sent, h.bus.messages, h.acked)
    && Rising(h.delivered)
    && (forall m :: m in h.delivered ==> m.channel == s.channel && m.seq_ <= Cursor(h.bus, s.Key()))
    && Covered(h.bus.messages, s.channel, Cursor(h.bus, s.Key()), h.delivered)
    && 0 <= Cursor(h.bus, s.Key()) <= LastSeq(h.bus, s.channel)
  }

  ghost predicate Accounted(sent: seq<Message>, messages: seq<Message>, acked: set<nat>) {
    forall m :: m in sent ==> m in messages || m.id in acked
  }

  ghost predicate Covered(messages: seq<Message>, channel: string, cursor: int, delivered: seq<Message>) {
    forall m :: m in messages && m.channel == channel && m.seq_ <= cursor ==> m in delivered
  }

  lemma SendTracked(h: History, s: Subscriber, op: Op)
    requires Tracked(h, s) && op.SendOp?
    ensures Tracked(Next(h, op, s), s)
  {
    SendOrdered(h.bus, op.channel, op.kind, op.payload);
    LastSeqGrows(h.bus, op.channel, op.kind, op.payload, s.channel);
    var x := Sent(h.bus, op.channel, op.kind, op.payload);
    SentAccounted(h.sent, h.bus.messages, h.acked, x);
    SentCovered(h.bus.messages, s.channel, Cursor(h.bus, s.Key()), h.delivered, x);
  }

  lemma LastSeqGrows(bus: Bus, channel: string, kind: Option<string>, payload: Payload, other: string)
    ensures LastSeq(bus, other) <= LastSeq(Send(bus, channel, kind, payload), other)
  {
  }

  lemma SentAccounted(sent: seq<Message>, messages: seq<Message>, acked: set<nat>, x: Message)
    requires Accounted(sent, messages, acked)
    ensures Accounted(sent + [x], messages + [x], acked)
  {
  }

  lemma SentCovered(messages: seq<Message>, channel: string, cursor: int, delivered: seq<Message>, x: Message)
    requires Covered(messages, channel, cursor, delivered) && (x.channel == channel ==> x.seq_ > cursor)
    ensures Covered(messages + [x], channel, cursor, delivered)
  {
  }

  lemma AckTracked(h: History, s: Subscriber, op: Op)
    requires Tracked(h, s) && op.AckOp?
    ensures Tracked(Next(h, op, s), s)
  {
    AckOrdered(h.bus, op.id);
    forall m ensures m in Ack(h.bus, op.id).messages <==> m in h.bus.messages && m.id != op.id {
      WithoutIn(h.bus.messages, op.id, m);
    }
  }

  lemma OwnReceiveTracked(h: History, s: Subscriber, op: Op)
    requires Tracked(h, s) && op.ReceiveOp? && Plain(op, s) && s.Owns(op.reading)
    ensures Tracked(Next(h, op, s), s)
  {
    var out := Received(h.bus, op.reading);
    OwnReceiveRising(h, s, op.reading);
    if out == [] {
      assert h.delivered + out == h.delivered;
    } else {
      OwnReceiveCovers(h, s, op.reading);
      LastPending(h.bus, op.reading);
      assert Numbered(h.bus, out[|out| - 1]);
    }
  }

  lemma OwnReceiveRising(h: History, s: Subscriber, r: Reading)
    requires Tracked(h, s) && s.Owns(r) && r.since == None && !r.peek
    ensures Rising(h.delivered + Received(h.bus, r))
  {
    var out := Received(h.bus, r);
    forall m | m in out ensures Cursor(h.bus, s.Key()) < m.seq_ { ReceivedIn(h.bus, r, m); }
    forall i, j | 0 <= i < j < |out| ensures out[i].seq_ < out[j].seq_ { ReceivedOrder(h.bus, r, i, j); }
    RisingAppend(h.delivered, out, |out|);
    assert out[..|out|] == out;
  }

  lemma OwnReceiveCovers(h: History, s: Subscriber, r: Reading)
    requires Tracked(h, s) && s.Owns(r) && r.since == None && !r.peek && Received(h.bus, r) != []
    ensures var out := Received(h.bus, r);
            && (forall m :: m in h.bus.messages && m.channel == s.channel && m.seq_ <= out[|out| - 1].seq_ ==>
                  m in h.delivered + out)
            && (forall m :: m in h.delivered + out ==> m.channel == s.channel && m.seq_ <= out[|out| - 1].seq_)
  {
    var out := Received(h.bus, r);
    LastPending(h.bus, r);
    forall m | m in h.bus.messages && m.channel == s.channel && m.seq_ <= out[|out| - 1].seq_
      ensures m in h.delivered + out
    {
      ReceivedIn(h.bus, r, m);
    }
    forall m | m in h.delivered + out ensures m.channel == s.channel && m.seq_ <= out[|out| - 1].seq_ {
      ReceivedIn(h.bus, r, m);
      if m in out {
        var i :| 0 <= i < |out| && out[i] == m;
        if i < |out| - 1 { ReceivedOrder(h.bus, r, i, |out| - 1); }
      }
    }
  }

  lemma OtherReceiveTracked(h: History, s: Subscriber, r: Reading)
    requires Tracked(h, s) && Plain(ReceiveOp(r), s) && !s.Owns(r)
    ensures Tracked(Next(h, ReceiveOp(r), s), s)
  {
    var h' := Next(h, ReceiveOp(r), s);
    assert h.delivered + [] == h.delivered;
    assert Cursor(h'.bus, s.Key()) == Cursor(h.bus, s.Key()) && h'.bus.messages == h.bus.messages;
    forall m | m in h'.bus.messages ensures Numbered(h'.bus, m) { assert Numbered(h.bus, m); }
  }

  lemma NextTracked(h: History, s: Subscriber, op: Op)
    requires Tracked(h, s) && Plain(op, s)
    ensures Tracked(Next(h, op, s), s)
  {
    match op {
      case SendOp(_, _, _) => SendTracked(h, s, op);
      case AckOp(_) => AckTracked(h, s, op);
      case ReceiveOp(r) =>
        if s.Owns(r) {
          OwnReceiveTracked(h, s, op);
        } else {
          OtherReceiveTracked(h, s, r);
        }
    }
  }

  lemma {:induction false} AfterTracked(ops: seq<Op>, s: Subscriber)
    requires AllPlain(ops, s)
    ensures Tracked(After(ops, s), s)
    decreases |ops|
  {
    if ops != [] {
      var n := |ops| - 1;
      AfterTracked(ops[..n], s);
      NextTracked(After(ops[..n], s), s, ops[n]);
    }
  }

  // ----- the main results -----

  /** Deliveries to a subscriber are strictly increasing in sequence number, so nothing is delivered twice. */
  lemma DeliveredInOrderOnce(ops: seq<Op>, s: Subscriber, i: nat, j: nat)
    requires AllPlain(ops, s) && i < j < |After(ops, s).delivered|
    ensures After(ops, s).delivered[i].seq_ < After(ops, s).delivered[j].seq_
  {
    AfterTracked(ops, s);
    RisingAt(After(ops, s).delivered, i, j);
  }

  /** A message at or below the cursor was delivered to the subscriber, unless someone acked it. */
  lemma NothingSkipped(ops: seq<Op>, s: Subscriber, m: Message)
    requires AllPlain(ops, s)
    requires m in After(ops, s).sent && m.channel == s.channel && m.seq_ <= Cursor(After(ops, s).bus, s.Key())
    ensures m in After(ops, s).delivered || m.id in After(ops, s).acked
  {
    AfterTracked(ops, s);
  }

  // ----- when the hypotheses fail -----

  /** Two subscribers share a cursor key exactly when one name pair shifts a colon of the other. */
  lemma KeysCollide(a: Subscriber, b: Subscriber)
    requires |a.channel| <= |b.channel|
    ensures a.Key() == b.Key() <==>
              a == b || exists m: string :: b.channel == a.channel + ":" + m && a.consumer == m + ":" + b.consumer
  {
    if a.Key() == b.Key() {
      var key, n, k := a.Key(), |a.channel|, |b.channel|;
      assert key[..n] == a.channel && key[n] == ':' && key[n + 1..] == a.consumer;
      assert key[..k] == b.channel && key[k] == ':' && key[k + 1..] == b.consumer;
      if n == k {
        assert a == b;
      } else {
        var m := b.channel[n + 1..];
        assert b.channel == a.channel + ":" + m by {
          assert b.channel == b.channel[..n] + [b.channel[n]] + b.channel[n + 1..];
          assert b.channel[..n] == key[..n] && b.channel[n] == key[n];
        }
        assert a.consumer == m + ":" + b.consumer;
      }
    }
    forall m: string | b.channel == a.channel + ":" + m && a.consumer == m + ":" + b.consumer
      ensures a.Key() == b.Key()
    {
      assert a.channel + ":" + (m + ":" + b.consumer) == a.channel + ":" + m + ":" + b.consumer;
    }
  }

  /** With no colon in the channel names, distinct subscribers have distinct keys. */
  lemma PlainNamesDoNotCollide(a: Subscriber, b: Subscriber)
    requires ':' !in a.channel && ':' !in b.channel
    ensures a.Key() == b.Key() <==> a == b
  {
    if |a.channel| <= |b.channel| {
      KeysCollide(a, b);
    } else {
      KeysCollide(b, a);
    }
  }

  function Ask(s: Subscriber): Reading {
    Reading(s.channel, Some(s.consumer), None, false, None)
  }

  lemma PendingTwo(x: Message, y: Message, channel: string, base: int)
    ensures Pending([x, y], channel, base)
            == (if Beyond(x, channel, base) then [x] else []) + (if Beyond(y, channel, base) then [y] else [])
  {
    assert [x, y][..1] == [x] && [x][..0] == [];
    assert Pending([x], channel, base) == if Beyond(x, channel, base) then [x] else [];
  }

  /** Any two subscribers of different channels whose keys collide can lose a message: the other one's receive moves
      the shared cursor past it. */
  lemma CollisionLoses(a: Subscriber, b: Subscriber, payload: Payload)
    requires a.channel != b.channel && a.Key() == b.Key()
    ensures var ops := [SendOp(a.channel, None, payload)] + [SendOp(b.channel, None, payload)]
                       + [ReceiveOp(Ask(b))] + [ReceiveOp(Ask(a))];
            var h := After(ops, a);
            exists m :: m in h.sent && m.channel == a.channel && m.seq_ <= Cursor(h.bus, a.Key())
                        && m !in h.delivered && m.id !in h.acked
  {
    var first := [SendOp(a.channel, None, payload)] + [SendOp(b.channel, None, payload)];
    var ma, mb := Message(0, a.channel, 1, None, payload), Message(1, b.channel, 1, None, payload);
    var h1 := Grow([], SendOp(a.channel, None, payload), a);
    var h2 := Grow([SendOp(a.channel, None, payload)], SendOp(b.channel, None, payload), a);
    assert h2 == History(Bus([ma, mb], map[], map[a.channel := 1, b.channel := 1], 2), [ma, mb], {}, []);
    var h3 := Grow(first, ReceiveOp(Ask(b)), a);
    var h4 := Grow(first + [ReceiveOp(Ask(b))], ReceiveOp(Ask(a)), a);
    OthersReceiveHides(h2, a, b, ma, mb);
  }

  lemma OthersReceiveHides(h: History, a: Subscriber, b: Subscriber, ma: Message, mb: Message)
    requires a.channel != b.channel && a.Key() == b.Key()
    requires h.bus.messages == [ma, mb] && h.bus.cursors == map[] && h.sent == [ma, mb] && h.acked == {}
             && h.delivered == []
    requires ma.channel == a.channel && mb.channel == b.channel && ma.seq_ == mb.seq_ == 1
    ensures var h' := Next(Next(h, ReceiveOp(Ask(b)), a), ReceiveOp(Ask(a)), a);
            ma in h'.sent && ma.seq_ <= Cursor(h'.bus, a.Key()) && ma !in h'.delivered && ma.id !in h'.acked
  {
    PendingTwo(ma, mb, b.channel, 0);
    assert Received(h.bus, Ask(b)) == [mb];
    var h1 := Next(h, ReceiveOp(Ask(b)), a);
    assert h1.bus.messages == [ma, mb] && Cursor(h1.bus, a.Key()) == 1 && h1.delivered == [];
    PendingTwo(ma, mb, a.channel, 1);
    assert Received(h1.bus, Ask(a)) == [];
  }

  lemma Grow(ops: seq<Op>, op: Op, s: Subscriber) returns (h: History)
    ensures h == After(ops + [op], s) == Next(After(ops, s), op, s)
  {
    assert (ops + [op])[..|ops|] == ops;
    h := After(ops + [op], s);
  }

  lemma TwoSent(s: Subscriber, payload: Payload)
    ensures var m1, m2 := Message(0, s.channel, 1, None, payload), Message(1, s.channel, 2, None, payload);
            var h := After([SendOp(s.channel, None, payload)] + [SendOp(s.channel, None, payload)], s);
            && h.bus.messages == [m1, m2] && h.bus.cursors == map[] && h.delivered == []
            && Received(h.bus, Ask(s)) == [m1, m2]
            && Received(h.bus, Ask(s).(since := Some(0), limit := Some(0))) == [m1]
  {
    var send := SendOp(s.channel, None, payload);
    var m1, m2 := Message(0, s.channel, 1, None, payload), Message(1, s.channel, 2, None, payload);
    var h1 := Grow([], send, s);
    assert h1.bus.messages == [m1];
    var h2 := Grow([send], send, s);
    assert h2.bus.messages == [m1, m2];
    PendingTwo(m1, m2, s.channel, 0);
  }

  /** A message still on the channel between `since` and the cursor. */
  ghost predicate Behind(bus: Bus, s: Subscriber, since: int) {
    exists m :: m in bus.messages && m.channel == s.channel && since < m.seq_ <= Cursor(bus, s.Key())
  }

  /** A receive with `since` goes back behind the cursor exactly when a message between the two is still there. */
  lemma SinceGoesBack(bus: Bus, s: Subscriber, r: Reading)
    requires Ordered(bus) && s.Owns(r) && r.since.Some?
    ensures (exists m :: m in Received(bus, r) && m.seq_ <= Cursor(bus, s.Key())) <==> Behind(bus, s, r.since.value)
  {
    if m :| m in bus.messages && m.channel == s.channel && r.since.value < m.seq_ <= Cursor(bus, s.Key()) {
      ReceivedIn(bus, r, m);
      var out := Received(bus, r);
      assert m !in out ==> out[|out| - 1] in out && out[|out| - 1].seq_ < m.seq_;
    }
    if m :| m in Received(bus, r) && m.seq_ <= Cursor(bus, s.Key()) { ReceivedIn(bus, r, m); }
  }

  /** After any run of plain operations, a receive with `since` delivers a second time exactly when some message behind
      the cursor has not been acked. */
  lemma SinceRedelivers(ops: seq<Op>, s: Subscriber, r: Reading)
    requires AllPlain(ops, s) && s.Owns(r) && r.since.Some?
    ensures var h := After(ops, s);
            (exists m :: m in Received(h.bus, r) && m in h.delivered) <==> Behind(h.bus, s, r.since.value)
  {
    var h := After(ops, s);
    AfterTracked(ops, s);
    SinceGoesBack(h.bus, s, r);
    forall m | m in Received(h.bus, r) ensures m in h.delivered <==> m.seq_ <= Cursor(h.bus, s.Key()) {
      ReceivedIn(h.bus, r, m);
    }
  }

  /** The cursor itself goes back, in a receive without a limit, exactly when everything found lies below it. */
  lemma SinceMovesBack(bus: Bus, s: Subscriber, r: Reading)
    requires Ordered(bus) && s.Owns(r) && r.since.Some? && r.limit == None && !r.peek
    ensures Cursor(Receive(bus, r), s.Key()) < Cursor(bus, s.Key()) <==>
              && (exists m :: m in bus.messages && Beyond(m, s.channel, r.since.value))
              && forall m :: m in bus.messages && Beyond(m, s.channel, r.since.value) ==> m.seq_ < Cursor(bus, s.Key())
  {
    var out := Received(bus, r);
    LastPending(bus, r);
    forall m | m in bus.messages && Beyond(m, s.channel, r.since.value)
      ensures out != [] && m.seq_ <= out[|out| - 1].seq_
    {
      PendingIn(bus.messages, r.channel, r.since.value, m);
      var i :| 0 <= i < |out| && out[i] == m;
      if i < |out| - 1 { ReceivedOrder(bus, r, i, |out| - 1); }
    }
  }

  /** For example: reading once more from the start with a limit of 0 returns one message, and the next plain receive
      delivers the other one a second time. */
  lemma SinceExample(s: Subscriber, payload: Payload)
    ensures var ops := [SendOp(s.channel, None, payload)] + [SendOp(s.channel, None, payload)]
                       + [ReceiveOp(Ask(s))] + [ReceiveOp(Ask(s).(since := Some(0), limit := Some(0)))]
                       + [ReceiveOp(Ask(s))];
            var d := After(ops, s).delivered;
            |d| == 4 && d[1] == d[3] && d[0] == d[2] && d[0].seq_ < d[1].seq_
  {
    var send, ask := SendOp(s.channel, None, payload), ReceiveOp(Ask(s));
    var back := ReceiveOp(Ask(s).(since := Some(0), limit := Some(0)));
    var m1, m2 := Message(0, s.channel, 1, None, payload), Message(1, s.channel, 2, None, payload);
    TwoSent(s, payload);
    var h3 := Grow([send] + [send], ask, s);
    assert h3.bus.messages == [m1, m2] && h3.delivered == [m1, m2];
    assert Received(h3.bus, back.reading) == [m1];
    var h4 := Grow([send] + [send] + [ask], back, s);
    assert h4.bus.messages == [m1, m2] && h4.delivered == [m1, m2, m1] && Cursor(h4.bus, s.Key()) == 1;
    PendingTwo(m1, m2, s.channel, 1);
    assert Received(h4.bus, Ask(s)) == [m2];
    var h5 := Grow([send] + [send] + [ask] + [back], ask, s);
    assert h5.delivered == [m1, m2, m1, m2];
  }
}
