/** The bus object, and waiting on a channel while other threads use it. */
module ChannelBus {
  import opened Wrappers
  import opened Runs
  import opened Channels
  import opened ChannelHistory

  /** A match: any kind will do when none is asked for. */
  predicate Matches(m: Message, kind: Option<string>) {
    kind == None || m.kind == kind
  }

  lemma {:induction false} PendingPrefix(messages: seq<Message>, channel: string, base: int, i: nat)
    requires i <= |messages|
    ensures Pending(messages[..i], channel, base) <= Pending(messages, channel, base)
    decreases |messages|
  {
    if i == |messages| {
      assert messages[..i] == messages;
    } else {
      var n := |messages| - 1;
      PendingPrefix(messages[..n], channel, base, i);
      assert messages[..n][..i] == messages[..i];
    }
  }

  class SimChannels {
    var messages: seq<Message>
    var cursors: map<string, int>
    var nextSeq: map<string, nat>
    var nextId: nat

    ghost function State(): Bus
      reads this
    {
      Bus(messages, cursors, nextSeq, nextId)
    }

    constructor ()
      ensures State() == EMPTY
    {
      messages, cursors, nextSeq, nextId := [], map[], map[], 0;
    }

    method Send(channel: string, kind: Option<string>, payload: Payload) returns (m: Message)
      modifies this
      ensures m == Sent(old(State()), channel, kind, payload)
      ensures State() == Channels.Send(old(State()), channel, kind, payload)
    {
      var seq_ := (if channel in nextSeq then nextSeq[channel] else 0) + 1;
      nextSeq := nextSeq[channel := seq_];
      m := Message(nextId, channel, seq_, kind, payload);
      nextId := nextId + 1;
      messages := messages + [m];
    }

    method Receive(r: Reading) returns (out: seq<Message>)
      modifies this`cursors
      ensures out == Received(old(State()), r)
      ensures State() == Channels.Receive(old(State()), r)
    {
      var base := 0;
      if r.since.Some? {
        base := r.since.value;
      } else if r.consumer.Some? {
        var key := CursorKey(r.channel, r.consumer.value);
        base := if key in cursors then cursors[key] else 0;
      }
      out := Scan(r, base);
      if out != [] && r.consumer.Some? && !r.peek {
        cursors := cursors[CursorKey(r.channel, r.consumer.value) := out[|out| - 1].seq_];
      }
    }

    /** The loop over the messages, which stops as soon as the limit is reached. */
    method Scan(r: Reading, base: int) returns (out: seq<Message>)
      ensures out == Limited(Pending(messages, r.channel, base), r.limit)
    {
      out := [];
      for i := 0 to |messages|
        invariant out == Pending(messages[..i], r.channel, base)
        invariant r.limit.Some? ==> out == [] || |out| < r.limit.value
      {
        assert messages[..i + 1][..i] == messages[..i];
        if messages[i].channel == r.channel && messages[i].seq_ > base {
          out := out + [messages[i]];
          if r.limit.Some? && |out| >= r.limit.value {
            PendingPrefix(messages, r.channel, base, i + 1);
            return;
          }
        }
      }
      assert messages[..|messages|] == messages;
    }

    /** The messages an ack leaves. */
    method Remaining(id: nat) returns (left: seq<Message>)
      ensures left == Without(messages, id)
    {
      left := [];
      for i := 0 to |messages|
        invariant left == Without(messages[..i], id)
      {
        assert messages[..i + 1][..i] == messages[..i];
        if messages[i].id != id { left := left + [messages[i]]; }
      }
      assert messages[..|messages|] == messages;
    }

    method AckId(id: nat)
      modifies this`messages
      ensures State() == Ack(old(State()), id)
    {
      var left := Remaining(id);
      messages := left;
    }

    method MessageCount(channel: string) returns (count: nat)
      ensures count == Depth(messages, channel)
    {
      count := 0;
      for i := 0 to |messages|
        invariant count == Depth(messages[..i], channel)
      {
        assert messages[..i + 1][..i] == messages[..i];
        if messages[i].channel == channel { count := count + 1; }
      }
      assert messages[..|messages|] == messages;
    }

    method Do(op: Op)
      modifies this
      ensures State() == Step(old(State()), op)
    {
      match op {
        case SendOp(channel, kind, payload) => var _ := Send(channel, kind, payload);
        case ReceiveOp(r) => var _ := Receive(r);
        case AckOp(id) => AckId(id);
      }
    }
  }

  // ----- waiting -----

  /** Another thread's operation: it does not touch this subscriber's cursor. */
  predicate Foreign(op: Op, s: Subscriber) {
    op.ReceiveOp? && op.reading.consumer.Some? ==>
      CursorKey(op.reading.channel, op.reading.consumer.value) != s.Key()
  }

  predicate AllForeign(ops: seq<Op>, s: Subscriber) {
    forall i :: 0 <= i < |ops| ==> Foreign(ops[i], s)
  }

  ghost predicate Sane(bus: Bus, s: Subscriber) {
    Ordered(bus) && Cursor(bus, s.Key()) <= LastSeq(bus, s.channel)
  }

  /** Every message still on the channel between `start` and `end` is of another kind. */
  ghost predicate NoneBetween(bus: Bus, s: Subscriber, kind: Option<string>, start: int, end: int) {
    forall m :: m in bus.messages && m.channel == s.channel && start < m.seq_ <= end ==> !Matches(m, kind)
  }

  /** So far the wait has passed over nothing it should have returned. */
  ghost predicate Passed(bus: Bus, s: Subscriber, kind: Option<string>, start: int) {
    Sane(bus, s) && start <= Cursor(bus, s.Key()) && NoneBetween(bus, s, kind, start, Cursor(bus, s.Key()))
  }

  lemma ForeignPasses(bus: Bus, s: Subscriber, kind: Option<string>, start: int, op: Op)
    requires Passed(bus, s, kind, start) && Foreign(op, s)
    ensures Passed(Step(bus, op), s, kind, start)
    ensures Cursor(Step(bus, op), s.Key()) == Cursor(bus, s.Key())
  {
    match op {
      case SendOp(channel, k, payload) =>
        SendOrdered(bus, channel, k, payload);
        LastSeqGrows(bus, channel, k, payload, s.channel);
      case ReceiveOp(r) => ReceiveOrdered(bus, r);
      case AckOp(id) =>
        AckOrdered(bus, id);
        forall m ensures m in Ack(bus, id).messages ==> m in bus.messages { WithoutIn(bus.messages, id, m); }
    }
  }

  lemma ReceiveOrdered(bus: Bus, r: Reading)
    requires Ordered(bus)
    ensures Ordered(Channels.Receive(bus, r))
  {
    forall m | m in bus.messages ensures Numbered(Channels.Receive(bus, r), m) { assert Numbered(bus, m); }
  }

  function Poll(s: Subscriber): Reading {
    Reading(s.channel, Some(s.consumer), Some(10), false, None)
  }

  /** A poll takes what is pending, up to ten messages at a time. */
  lemma TenAtATime(bus: Bus, s: Subscriber, m: Message)
    requires m in bus.messages && m.channel == s.channel && Cursor(bus, s.Key()) < m.seq_
    ensures |Received(bus, Poll(s))| <= 10
    ensures m !in Received(bus, Poll(s)) ==> |Received(bus, Poll(s))| == 10
  {
    OnlyLimitLeavesOut(bus, Poll(s), m);
  }

  /** A poll whose first `n` messages do not match. */
  lemma PollCovers(bus: Bus, s: Subscriber, kind: Option<string>, start: int, n: nat)
    requires Passed(bus, s, kind, start)
    requires n <= |Received(bus, Poll(s))| && forall i :: 0 <= i < n ==> !Matches(Received(bus, Poll(s))[i], kind)
    ensures var out, bus' := Received(bus, Poll(s)), Channels.Receive(bus, Poll(s));
            && Sane(bus', s) && Cursor(bus, s.Key()) <= Cursor(bus', s.Key())
            && (n == |out| ==> Passed(bus', s, kind, start))
            && (n < |out| ==> NoneBetween(bus', s, kind, start, out[n].seq_ - 1) && out[n] in bus'.messages
                              && out[n].channel == s.channel && start < out[n].seq_ <= Cursor(bus', s.Key()))
  {
    var out, bus' := Received(bus, Poll(s)), Channels.Receive(bus, Poll(s));
    ReceiveOrdered(bus, Poll(s));
    LastPending(bus, Poll(s));
    if out != [] { assert Numbered(bus, out[|out| - 1]); }
    if n < |out| {
      ReceivedIn(bus, Poll(s), out[n]);
      if n < |out| - 1 { ReceivedOrder(bus, Poll(s), n, |out| - 1); }
    }
    var end := if n < |out| then out[n].seq_ - 1 else Cursor(bus', s.Key());
    forall m | m in bus'.messages && m.channel == s.channel && start < m.seq_ <= end ensures !Matches(m, kind) {
      ReceivedIn(bus, Poll(s), m);
      OutBefore(bus, s, m, n);
    }
  }

  /** A received message before the `n`-th sits at an index below `n`. */
  lemma OutBefore(bus: Bus, s: Subscriber, m: Message, n: nat)
    requires Ordered(bus)
    ensures var out := Received(bus, Poll(s));
            m in out && (n < |out| ==> m.seq_ < out[n].seq_) && n <= |out| ==> exists i :: 0 <= i < n && out[i] == m
  {
    var out := Received(bus, Poll(s));
    if m in out && n < |out| && m.seq_ < out[n].seq_ {
      var i :| 0 <= i < |out| && out[i] == m;
      if n < i { ReceivedOrder(bus, Poll(s), n, i); }
    }
  }

  /** Polls until a message of the requested kind arrives.  `others` is what the other threads do between the polls;
      when it runs out the deadline has passed. */
  method WaitForChannel(channels: SimChannels, s: Subscriber, kind: Option<string>, others: seq<seq<Op>>)
    returns (found: Option<Message>)
    requires Sane(channels.State(), s)
    requires forall i :: 0 <= i < |others| ==> AllForeign(others[i], s)
    modifies channels
    ensures Sane(channels.State(), s)
    ensures found.Some? ==>
              var m := found.value;
              && m in channels.messages && m.channel == s.channel && Matches(m, kind)
              && Cursor(old(channels.State()), s.Key()) < m.seq_ <= Cursor(channels.State(), s.Key())
              && NoneBetween(channels.State(), s, kind, Cursor(old(channels.State()), s.Key()), m.seq_ - 1)
    ensures found == None ==>
              NoneBetween(channels.State(), s, kind, Cursor(old(channels.State()), s.Key()),
                          Cursor(channels.State(), s.Key()))
  {
    ghost var start := Cursor(channels.State(), s.Key());
    var round := 0;
    while true
      invariant round <= |others|
      invariant Passed(channels.State(), s, kind, start)
      decreases |others| - round
    {
      ghost var bus := channels.State();
      var msg, n := PollOnce(channels, s, kind);
      PollCovers(bus, s, kind, start, n);
      if msg.Some? { return msg; }
      if round == |others| { return None; }
      OtherThreads(channels, s, kind, others[round], start);
      round := round + 1;
    }
  }

  /** One receive, and the index of the first match in it. */
  method PollOnce(channels: SimChannels, s: Subscriber, kind: Option<string>) returns (found: Option<Message>, n: nat)
    modifies channels`cursors
    ensures channels.State() == Channels.Receive(old(channels.State()), Poll(s))
    ensures FirstMatch(Received(old(channels.State()), Poll(s)), kind, n, found)
  {
    var out := channels.Receive(Poll(s));
    for i := 0 to |out|
      invariant forall k :: 0 <= k < i ==> !Matches(out[k], kind)
    {
      if Matches(out[i], kind) { return Some(out[i]), i; }
    }
    return None, |out|;
  }

  ghost predicate FirstMatch(out: seq<Message>, kind: Option<string>, n: nat, found: Option<Message>) {
    && n <= |out| && (forall i :: 0 <= i < n ==> !Matches(out[i], kind))
    && found == (if n < |out| then Some(out[n]) else None)
    && (n < |out| ==> Matches(out[n], kind))
  }

  method OtherThreads(channels: SimChannels, s: Subscriber, kind: Option<string>, ops: seq<Op>, ghost start: int)
    requires Passed(channels.State(), s, kind, start) && AllForeign(ops, s)
    modifies channels
    ensures Passed(channels.State(), s, kind, start)
  {
    for i := 0 to |ops|
      invariant Passed(channels.State(), s, kind, start)
    {
      ForeignPasses(channels.State(), s, kind, start, ops[i]);
      channels.Do(ops[i]);
    }
  }

  // ----- a second wait -----

  /** What can happen after a poll: other threads' operations, and more polls of the same subscriber. */
  predicate FollowsPoll(ops: seq<Op>, s: Subscriber) {
    forall i :: 0 <= i < |ops| ==> Foreign(ops[i], s) || ops[i] == ReceiveOp(Poll(s))
  }

  lemma {:induction false} NeverBack(bus: Bus, s: Subscriber, ops: seq<Op>)
    requires Sane(bus, s) && FollowsPoll(ops, s)
    ensures Sane(Fold(Step, bus, ops), s) && Cursor(bus, s.Key()) <= Cursor(Fold(Step, bus, ops), s.Key())
    decreases |ops|
  {
    if ops != [] {
      var op, mid := ops[|ops| - 1], Fold(Step, bus, ops[..|ops| - 1]);
      NeverBack(bus, s, ops[..|ops| - 1]);
      if Foreign(op, s) {
        ForeignPasses(mid, s, None, Cursor(mid, s.Key()), op);
      } else {
        PollCovers(mid, s, None, Cursor(mid, s.Key()), 0);
      }
    }
  }

  lemma {:induction false} StaysUnlessAcked(bus: Bus, ops: seq<Op>, m: Message)
    requires m in bus.messages && AckOp(m.id) !in ops
    ensures m in Fold(Step, bus, ops).messages
    decreases |ops|
  {
    if ops != [] {
      var mid := Fold(Step, bus, ops[..|ops| - 1]);
      StaysUnlessAcked(bus, ops[..|ops| - 1], m);
      if ops[|ops| - 1].AckOp? { WithoutIn(mid.messages, ops[|ops| - 1].id, m); }
    }
  }

  /** Another match of the batch that a later poll does not find. */
  ghost predicate Missed(out: seq<Message>, n: nat, kind: Option<string>, later: seq<Message>, m: Message)
    requires n < |out|
  {
    m in out && m != out[n] && Matches(m, kind) && m !in later
  }

  /** A wait returns the first match of a batch, here at `n`.  Whatever happens afterwards, a later poll misses a match
      of that batch exactly when the batch held another one after it: such a message is never found again, although it
      stays on the channel unless somebody acks it. */
  lemma LaterPollMisses(bus: Bus, s: Subscriber, kind: Option<string>, n: nat, ops: seq<Op>)
    requires Sane(bus, s) && FollowsPoll(ops, s)
    requires var out := Received(bus, Poll(s)); n < |out| && FirstMatch(out, kind, n, Some(out[n]))
    ensures var out, end := Received(bus, Poll(s)), Fold(Step, Channels.Receive(bus, Poll(s)), ops);
            && ((exists m :: Missed(out, n, kind, Received(end, Poll(s)), m))
                <==> exists k :: n < k < |out| && Matches(out[k], kind))
            && forall k :: n < k < |out| && Matches(out[k], kind) ==>
                 && Missed(out, n, kind, Received(end, Poll(s)), out[k])
                 && (AckOp(out[k].id) !in ops ==> out[k] in end.messages)
  {
    var out, after := Received(bus, Poll(s)), Channels.Receive(bus, Poll(s));
    var end := Fold(Step, after, ops);
    PollCovers(bus, s, kind, Cursor(bus, s.Key()), n);
    NeverBack(after, s, ops);
    forall k | n < k < |out| && Matches(out[k], kind)
      ensures Missed(out, n, kind, Received(end, Poll(s)), out[k])
      ensures AckOp(out[k].id) !in ops ==> out[k] in end.messages
    {
      ReceivedOrder(bus, Poll(s), n, k);
      if k < |out| - 1 { ReceivedOrder(bus, Poll(s), k, |out| - 1); }
      ReceivedIn(bus, Poll(s), out[k]);
      ReceivedIn(end, Poll(s), out[k]);
      if AckOp(out[k].id) !in ops { StaysUnlessAcked(after, ops, out[k]); }
    }
  }

  /** For example, with two matches pending, the second is gone for a subscriber that waits twice. */
  lemma SecondPollMisses(bus: Bus, s: Subscriber, kind: Option<string>, m1: Message, m2: Message)
    requires Sane(bus, s) && bus.messages == [m1, m2] && m1.channel == m2.channel == s.channel
    requires Cursor(bus, s.Key()) < m1.seq_ < m2.seq_ && Matches(m1, kind) && Matches(m2, kind)
    ensures var bus' := Channels.Receive(bus, Poll(s));
            && FirstMatch(Received(bus, Poll(s)), kind, 0, Some(m1))
            && m2 !in Received(bus', Poll(s)) && m2 in bus'.messages
  {
    PendingTwo(m1, m2, s.channel, Cursor(bus, s.Key()));
    assert Received(bus, Poll(s)) == [m1, m2];
    LaterPollMisses(bus, s, kind, 0, []);
    assert Missed([m1, m2], 0, kind, Received(Channels.Receive(bus, Poll(s)), Poll(s)), [m1, m2][1]);
  }
}
