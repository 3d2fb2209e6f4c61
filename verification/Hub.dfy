/** The fan-out of live events to subscribers that read at their own pace. */
module Hub {
  import opened LiveModel
  import opened Sets

  const CAPACITY := 8

  datatype Fate = Received | Dropped

  /**
   A subscriber's channel: its buffer and whether it is open. Beside it stand the events published to it since it
   subscribed, what became of those that left the buffer, and those its consumer has received.
   */
  datatype Subscription = Subscription(
    buffer: seq<Event>, open: bool, published: seq<Event>, fates: seq<Fate>, inbox: seq<Event>)

  /** The published events that were received. */
  function Taken(published: seq<Event>, fates: seq<Fate>): seq<Event>
    requires |fates| <= |published|
  {
    if fates == [] then []
    else
      var n := |fates| - 1;
      Taken(published, fates[..n]) + if fates[n] == Received then [published[n]] else []
  }

  /**
   The buffer holds the last events published, at most as many as it has room for; every earlier one was received or
   dropped, and the consumer received its events in the order of their publication.
   */
  ghost predicate Fits(s: Subscription) {
    && |s.fates| + |s.buffer| == |s.published| && |s.buffer| <= CAPACITY
    && s.buffer == s.published[|s.fates|..]
    && s.inbox == Taken(s.published, s.fates)
  }

  // Operations on a channel

  function Sent(s: Subscription, event: Event): Subscription {
    s.(buffer := s.buffer + [event], published := s.published + [event])
  }

  function AfterReceive(s: Subscription): Subscription
    requires s.buffer != []
  {
    s.(buffer := s.buffer[1..], fates := s.fates + [Received], inbox := s.inbox + [s.buffer[0]])
  }

  function AfterDrop(s: Subscription): Subscription
    requires s.buffer != []
  {
    s.(buffer := s.buffer[1..], fates := s.fates + [Dropped])
  }

  lemma {:induction false} TakenIgnoresLater(published: seq<Event>, more: seq<Event>, fates: seq<Fate>)
    requires |fates| <= |published|
    ensures Taken(published + more, fates) == Taken(published, fates)
  {
    if fates != [] {
      TakenIgnoresLater(published, more, fates[..|fates| - 1]);
    }
  }

  lemma SendFits(s: Subscription, event: Event)
    requires Fits(s) && |s.buffer| < CAPACITY
    ensures Fits(Sent(s, event))
  {
    TakenIgnoresLater(s.published, [event], s.fates);
  }

  lemma ReceiveFits(s: Subscription)
    requires Fits(s) && s.buffer != []
    ensures Fits(AfterReceive(s))
  {
    var next := AfterReceive(s);
    assert next.fates[..|s.fates|] == s.fates;
    assert next.buffer == next.published[|next.fates|..];
  }

  lemma DropFits(s: Subscription)
    requires Fits(s) && s.buffer != []
    ensures Fits(AfterDrop(s))
  {
    var next := AfterDrop(s);
    assert next.fates[..|s.fates|] == s.fates;
    assert next.buffer == next.published[|next.fates|..];
    assert Taken(s.published, s.fates) + [] == Taken(s.published, s.fates);
  }

  // What may happen to a channel meanwhile

  function Drops(fates: seq<Fate>): nat {
    if fates == [] then 0
    else
      var n := |fates| - 1;
      Drops(fates[..n]) + if fates[n] == Dropped then 1 else 0
  }

  lemma {:induction false} DropsJoin(a: seq<Fate>, b: seq<Fate>)
    ensures Drops(a + b) == Drops(a) + Drops(b)
  {
    if b == [] {
      assert a + b == a;
    } else {
      var n := |b| - 1;
      assert (a + b)[..|a| + n] == a + b[..n];
      DropsJoin(a, b[..n]);
    }
  }

  /** The consumer has received some events, and events were published of which some may have displaced older ones. */
  ghost predicate Advances(a: Subscription, b: Subscription, events: seq<Event>, drops: nat) {
    && b.open == a.open && b.published == a.published + events
    && a.fates <= b.fates && Drops(b.fates) == Drops(a.fates) + drops
    && Fits(b)
  }

  lemma AdvancesFurther(a: Subscription, b: Subscription, c: Subscription, events: seq<Event>, more: seq<Event>,
                        m: nat, n: nat)
    requires Advances(a, b, events, m) && Advances(b, c, more, n)
    ensures Advances(a, c, events + more, m + n)
  {
    assert a.published + events + more == a.published + (events + more);
  }

  /** The event published next after a has not been dropped: if it left the buffer, it was received. */
  ghost predicate KeepsNext(a: Subscription, b: Subscription) {
    |a.published| < |b.fates| ==> b.fates[|a.published|] == Received
  }

  /**
   One event is published and is in the buffer or already received; an older one may be dropped for it, but only if
   the buffer was full.
   */
  ghost predicate TakesIn(a: Subscription, b: Subscription, event: Event) {
    && KeepsNext(a, b)
    && (Advances(a, b, [event], 0) || (Advances(a, b, [event], 1) && |a.buffer| == CAPACITY))
  }

  lemma {:induction false} NoDropsMeansReceived(fates: seq<Fate>)
    requires Drops(fates) == 0
    ensures forall i | 0 <= i < |fates| :: fates[i] == Received
  {
    if fates != [] {
      NoDropsMeansReceived(fates[..|fates| - 1]);
    }
  }

  /** What leaves the buffer without a drop is received. */
  lemma ReceptionsKeepNext(a: Subscription, b: Subscription, c: Subscription)
    requires KeepsNext(a, b) && Advances(b, c, [], 0) && |b.fates| <= |a.published| + 1
    ensures KeepsNext(a, c)
  {
    var since := c.fates[|b.fates|..];
    assert c.fates == b.fates + since;
    DropsJoin(b.fates, since);
    NoDropsMeansReceived(since);
    if |b.fates| <= |a.published| < |c.fates| {
      assert c.fates[|a.published|] == since[|a.published| - |b.fates|];
    }
  }

  lemma BufferShrinks(a: Subscription, b: Subscription, drops: nat)
    requires Fits(a) && Advances(a, b, [], drops)
    ensures |b.buffer| <= |a.buffer|
  {
  }

  lemma ReceiveAdvances(s: Subscription)
    requires Fits(s) && s.buffer != []
    ensures Advances(s, AfterReceive(s), [], 0)
  {
    ReceiveFits(s);
    DropsJoin(s.fates, [Received]);
    assert Drops([Received]) == 0 by { assert [Received][..0] == []; }
  }

  lemma DropAdvances(s: Subscription)
    requires Fits(s) && s.buffer != []
    ensures Advances(s, AfterDrop(s), [], 1)
  {
    DropFits(s);
    DropsJoin(s.fates, [Dropped]);
    assert Drops([Dropped]) == 1 by { assert [Dropped][..0] == []; }
  }

  lemma SendAdvances(s: Subscription, event: Event)
    requires Fits(s) && |s.buffer| < CAPACITY
    ensures Advances(s, Sent(s, event), [event], 0)
  {
    SendFits(s, event);
  }

  type Channels = map<nat, Subscription>

  /** Nothing but receptions happened to the channels. */
  ghost predicate OnlyReceptions(a: Channels, b: Channels) {
    a.Keys == b.Keys && forall c | c in a :: Advances(a[c], b[c], [], 0)
  }

  lemma ReceptionsFurther(a: Channels, b: Channels, c: Channels)
    requires OnlyReceptions(a, b) && OnlyReceptions(b, c)
    ensures OnlyReceptions(a, c)
  {
    forall d | d in a ensures Advances(a[d], c[d], [], 0) {
      AdvancesFurther(a[d], b[d], c[d], [], [], 0, 0);
    }
  }

  ghost predicate AllFit(channels: Channels) {
    forall c | c in channels :: Fits(channels[c])
  }

  lemma ReceptionIsReception(a: Channels, c: nat)
    requires AllFit(a) && c in a && a[c].buffer != []
    ensures OnlyReceptions(a, a[c := AfterReceive(a[c])])
  {
    ReceiveAdvances(a[c]);
  }

  /** All but one channel saw receptions only. */
  ghost predicate OthersOnlyReceive(a: Channels, b: Channels, c: nat) {
    a.Keys == b.Keys && forall d | d in a && d != c :: Advances(a[d], b[d], [], 0)
  }

  lemma OthersFurther(a: Channels, b: Channels, c: Channels, d: nat)
    requires OthersOnlyReceive(a, b, d) && OthersOnlyReceive(b, c, d)
    ensures OthersOnlyReceive(a, c, d)
  {
    forall e | e in a && e != d ensures Advances(a[e], c[e], [], 0) {
      AdvancesFurther(a[e], b[e], c[e], [], [], 0, 0);
    }
  }

  lemma DropLeavesOthers(a: Channels, c: nat)
    requires AllFit(a) && c in a
    ensures OthersOnlyReceive(a, a, c) && Advances(a[c], a[c], [], 0)
    ensures a[c].buffer != [] ==>
      OthersOnlyReceive(a, a[c := AfterDrop(a[c])], c) && Advances(a[c], AfterDrop(a[c]), [], 1)
  {
    if a[c].buffer != [] {
      DropAdvances(a[c]);
    }
  }

  lemma SendLeavesOthers(a: Channels, c: nat, event: Event)
    requires AllFit(a) && c in a && |a[c].buffer| < CAPACITY
    ensures OthersOnlyReceive(a, a[c := Sent(a[c], event)], c) && Advances(a[c], Sent(a[c], event), [event], 0)
  {
    SendAdvances(a[c], event);
  }

  /** Those who have been served took the event in, the others have only received. */
  ghost predicate AreTakingIn(a: Channels, b: Channels, served: set<nat>, event: Event) {
    && a.Keys == b.Keys
    && forall c | c in a :: if c in served then TakesIn(a[c], b[c], event) else Advances(a[c], b[c], [], 0)
  }

  lemma Nothing(a: Channels)
    requires AllFit(a)
    ensures OnlyReceptions(a, a)
  {
  }

  lemma TakesInAmong(a: Subscription, b: Subscription, c: Subscription, event: Event)
    requires (Advances(a, b, [], 0) && TakesIn(b, c, event)) || (TakesIn(a, b, event) && Advances(b, c, [], 0))
    requires Fits(a)
    ensures TakesIn(a, c, event)
  {
    assert [] + [event] == [event] && [event] + [] == [event];
    if Advances(a, b, [], 0) && TakesIn(b, c, event) {
      BufferShrinks(a, b, 0);
      var drops := if Advances(b, c, [event], 0) then 0 else 1;
      AdvancesFurther(a, b, c, [], [event], 0, drops);
    } else {
      var drops := if Advances(a, b, [event], 0) then 0 else 1;
      AdvancesFurther(a, b, c, [event], [], drops, 0);
      ReceptionsKeepNext(a, b, c);
    }
  }

  lemma OneMoreTakesIn(a: Channels, b: Channels, c: Channels, served: set<nat>, d: nat, event: Event)
    requires AllFit(a) && AreTakingIn(a, b, served, event) && d in a && d !in served
    requires OthersOnlyReceive(b, c, d) && TakesIn(b[d], c[d], event)
    ensures AreTakingIn(a, c, served + {d}, event)
  {
    forall e | e in a
      ensures if e in served + {d} then TakesIn(a[e], c[e], event) else Advances(a[e], c[e], [], 0)
    {
      if e in served || e == d {
        TakesInAmong(a[e], b[e], c[e], event);
      } else {
        AdvancesFurther(a[e], b[e], c[e], [], [], 0, 0);
      }
    }
  }

  class Hub {
    /** Every channel ever made. */
    var channels: Channels
    var subscribers: set<nat>
    var closed: bool
    var next: nat

    /** A channel is open exactly while it is subscribed. */
    ghost predicate Valid()
      reads this
    {
      && subscribers <= channels.Keys && AllFit(channels)
      && (forall c | c in channels :: c < next && (channels[c].open <==> c in subscribers))
      && (closed ==> subscribers == {})
    }

    constructor ()
      ensures Valid() && subscribers == {} && !closed && channels == map[]
    {
      channels, subscribers, closed, next := map[], {}, false, 0;
    }

    /** A consumer takes the oldest event from its channel, which may be closed by now. */
    method Receive(c: nat) returns (event: Event)
      requires Valid() && c in channels && channels[c].buffer != []
      modifies this`channels
      ensures Valid() && event == old(channels)[c].buffer[0]
      ensures channels == old(channels)[c := AfterReceive(old(channels)[c])]
    {
      event := channels[c].buffer[0];
      ReceiveFits(channels[c]);
      channels := channels[c := AfterReceive(channels[c])];
    }

    /** Any number of receptions by any consumers. */
    method Consumers()
      requires Valid()
      modifies this`channels
      ensures Valid() && OnlyReceptions(old(channels), channels)
    {
      var receptions: nat := *;
      while receptions > 0
        invariant Valid() && OnlyReceptions(old(channels), channels)
      {
        receptions := receptions - 1;
        var c: nat := *;
        if c in channels && channels[c].buffer != [] {
          ghost var before := channels;
          var _ := Receive(c);
          ReceptionIsReception(before, c);
          ReceptionsFurther(old(channels), before, channels);
        }
      }
    }

    /** A send panics on a closed channel and finds no room in a full one. */
    method Send(c: nat, event: Event)
      requires Valid() && c in channels && channels[c].open && |channels[c].buffer| < CAPACITY
      modifies this`channels
      ensures Valid() && channels == old(channels)[c := Sent(old(channels)[c], event)]
    {
      SendFits(channels[c], event);
      channels := channels[c := Sent(channels[c], event)];
    }

    /** The oldest event is taken out of the channel and forgotten, if there is one. */
    method DropOldest(c: nat) returns (ghost drops: nat)
      requires Valid() && c in subscribers
      modifies this`channels
      ensures Valid()
      ensures drops == if old(channels)[c].buffer == [] then 0 else 1
      ensures channels == if drops == 0 then old(channels) else old(channels)[c := AfterDrop(old(channels)[c])]
    {
      drops := 0;
      if channels[c].buffer != [] {
        DropFits(channels[c]);
        channels := channels[c := AfterDrop(channels[c])];
        drops := 1;
      }
    }

    /** The second select, with consumers at work before and after it. */
    method MakeRoom(c: nat) returns (ghost drops: nat)
      requires Valid() && c in subscribers
      modifies this`channels
      ensures Valid() && OthersOnlyReceive(old(channels), channels, c)
      ensures drops <= 1 && Advances(old(channels)[c], channels[c], [], drops)
      ensures |channels[c].buffer| < CAPACITY
    {
      Consumers();
      ghost var before := channels;
      drops := DropOldest(c);
      ghost var after := channels;
      DropLeavesOthers(before, c);
      Consumers();
      BufferShrinks(after[c], channels[c], 0);
      OthersFurther(old(channels), before, after, c);
      OthersFurther(old(channels), after, channels, c);
      AdvancesFurther(old(channels)[c], before[c], after[c], [], [], 0, drops);
      AdvancesFurther(old(channels)[c], after[c], channels[c], [], [], drops, 0);
    }

    /** The first two selects, with consumers at work in between. */
    method AwaitRoom(c: nat) returns (ghost drops: nat)
      requires Valid() && c in subscribers
      modifies this`channels
      ensures Valid() && OthersOnlyReceive(old(channels), channels, c)
      ensures drops <= 1 && Advances(old(channels)[c], channels[c], [], drops)
      ensures drops > 0 ==> |old(channels)[c].buffer| == CAPACITY
      ensures |channels[c].buffer| < CAPACITY
    {
      Consumers();
      drops := 0;
      BufferShrinks(old(channels)[c], channels[c], 0);
      if |channels[c].buffer| >= CAPACITY {
        ghost var before := channels;
        drops := MakeRoom(c);
        OthersFurther(old(channels), before, channels, c);
        AdvancesFurther(old(channels)[c], before[c], channels[c], [], [], 0, drops);
      }
    }

    /**
     A delivery. The default of the last select is never taken, since only the publisher sends and it has made room:
     the event ends up in the buffer, from where its consumer may take it.
     */
    method Deliver(c: nat, event: Event)
      requires Valid() && c in subscribers
      modifies this`channels
      ensures Valid() && OthersOnlyReceive(old(channels), channels, c)
      ensures TakesIn(old(channels)[c], channels[c], event)
      ensures channels[c].buffer != [] && channels[c].buffer[|channels[c].buffer| - 1] == event
    {
      ghost var drops := AwaitRoom(c);
      ghost var before := channels;
      Send(c, event);
      SendLeavesOthers(before, c, event);
      OthersFurther(old(channels), before, channels, c);
      AdvancesFurther(old(channels)[c], before[c], channels[c], [], [event], drops, 0);
      assert [] + [event] == [event];
    }

    /** Every subscriber takes the event in, in any order of subscribers; after closing nobody does. */
    method Publish(event: Event)
      requires Valid()
      modifies this`channels
      ensures Valid() && channels.Keys == old(channels).Keys
      ensures forall c | c in channels ::
        if c in subscribers then TakesIn(old(channels)[c], channels[c], event)
        else Advances(old(channels)[c], channels[c], [], 0)
    {
      if closed {
        Nothing(channels);
        return;
      }
      Nothing(channels);
      var waiting := subscribers;
      ghost var served: set<nat> := {};
      while waiting != {}
        invariant Valid() && waiting + served == subscribers && waiting !! served
        invariant AreTakingIn(old(channels), channels, served, event)
        decreases waiting
      {
        var c := Any(waiting);
        ghost var before := channels;
        Deliver(c, event);
        OneMoreTakesIn(old(channels), before, channels, served, c, event);
        waiting, served := waiting - {c}, served + {c};
      }
      assert served == subscribers;
    }

    /** A new channel, closed from the start if the hub is. */
    method Subscribe() returns (c: nat)
      requires Valid()
      modifies this
      ensures Valid() && c !in old(channels) && closed == old(closed)
      ensures channels == old(channels)[c := Subscription([], !closed, [], [], [])]
      ensures subscribers == if closed then {} else old(subscribers) + {c}
    {
      c := next;
      next := next + 1;
      if closed {
        channels := channels[c := Subscription([], false, [], [], [])];
        return;
      }
      channels := channels[c := Subscription([], true, [], [], [])];
      subscribers := subscribers + {c};
    }

    /** Cancelling closes a channel that is still subscribed and does nothing to any other. */
    method Cancel(c: nat)
      requires Valid() && c in channels
      modifies this
      ensures Valid() && closed == old(closed) && subscribers == old(subscribers) - {c}
      ensures channels == old(channels)[c := old(channels)[c].(open := false)]
    {
      if c in subscribers {
        subscribers := subscribers - {c};
        CloseChannel(c);
      }
    }

    /** Closing panics on a closed channel. */
    method CloseChannel(c: nat)
      requires c in channels && channels[c].open
      modifies this`channels
      ensures channels == old(channels)[c := old(channels)[c].(open := false)]
    {
      channels := channels[c := channels[c].(open := false)];
    }

    /** All channels are closed, each once, and keep their buffers; closing again does nothing. */
    method Close()
      requires Valid()
      modifies this
      ensures Valid() && closed && subscribers == {}
      ensures channels == map c | c in old(channels) :: old(channels)[c].(open := false)
    {
      if closed {
        assert channels == map c | c in channels :: channels[c].(open := false);
        return;
      }
      closed := true;
      while subscribers != {}
        invariant closed && next == old(next) && subscribers <= old(subscribers)
        invariant channels.Keys == old(channels).Keys
        invariant forall c | c in channels :: channels[c] == old(channels)[c].(open := c in subscribers)
        decreases subscribers
      {
        var c := Any(subscribers);
        subscribers := subscribers - {c};
        CloseChannel(c);
      }
      assert channels == map c | c in old(channels) :: old(channels)[c].(open := false);
    }
  }

  // What a consumer gets to see

  /** The positions of the published events that were received. */
  function Positions(fates: seq<Fate>): seq<nat> {
    if fates == [] then []
    else
      var n := |fates| - 1;
      Positions(fates[..n]) + if fates[n] == Received then [n] else []
  }

  /** A consumer receives published events in order, none twice, and exactly those neither dropped nor waiting. */
  lemma {:induction false} ReceivedInOrder(published: seq<Event>, fates: seq<Fate>)
    requires |fates| <= |published|
    ensures
      var positions, taken := Positions(fates), Taken(published, fates);
      && |taken| == |positions|
      && (forall i | 0 <= i < |positions| :: positions[i] < |fates| && taken[i] == published[positions[i]])
      && (forall i, j | 0 <= i < j < |positions| :: positions[i] < positions[j])
      && (forall p: nat | p < |fates| :: p in positions <==> fates[p] == Received)
  {
    if fates != [] {
      ReceivedInOrder(published, fates[..|fates| - 1]);
    }
  }

  lemma ReceivedIsInInbox(s: Subscription, p: nat)
    requires Fits(s) && p < |s.fates| && s.fates[p] == Received
    ensures p in Positions(s.fates) && s.published[p] in s.inbox
  {
    ReceivedInOrder(s.published, s.fates);
    var positions := Positions(s.fates);
    assert p in positions;
    var i :| 0 <= i < |positions| && positions[i] == p;
    assert s.inbox[i] == s.published[p];
  }

  /** The consumer has received the events at ascending positions; waiting are the last ones, at most eight. */
  lemma InboxInOrder(s: Subscription)
    requires Fits(s)
    ensures
      var positions := Positions(s.fates);
      && |s.inbox| == |positions|
      && (forall i | 0 <= i < |positions| :: positions[i] < |s.published| && s.inbox[i] == s.published[positions[i]])
      && (forall i, j | 0 <= i < j < |positions| :: positions[i] < positions[j])
    ensures |s.buffer| <= 8 && |s.fates| == |s.published| - |s.buffer| && s.buffer == s.published[|s.fates|..]
  {
    ReceivedInOrder(s.published, s.fates);
  }

  /** A publication adds the event and no other, forgets nothing already known, and drops at most one event. */
  lemma PublicationsInNumbers(a: Subscription, b: Subscription, event: Event)
    requires Fits(a) && TakesIn(a, b, event)
    ensures b.published == a.published + [event] && a.fates <= b.fates && b.open == a.open
    ensures a.inbox <= b.inbox && Drops(a.fates) <= Drops(b.fates) <= Drops(a.fates) + 1
    ensures Drops(b.fates) > Drops(a.fates) ==> |a.buffer| == 8
  {
    TakenGrows(a.published, b.published, a.fates, b.fates);
  }

  lemma {:induction false} TakenGrows(published: seq<Event>, more: seq<Event>, fates: seq<Fate>, later: seq<Fate>)
    requires published <= more && fates <= later && |fates| <= |published| && |later| <= |more|
    ensures Taken(published, fates) <= Taken(more, later)
    decreases |later|
  {
    if |fates| < |later| {
      TakenGrows(published, more, fates, later[..|later| - 1]);
    } else {
      assert fates == later && published + more[|published|..] == more;
      TakenIgnoresLater(published, more[|published|..], fates);
    }
  }

  /** A published event is in the subscriber's buffer, behind all earlier ones, or has been received. */
  lemma EventIsNotLost(a: Subscription, b: Subscription, event: Event)
    requires Fits(a) && TakesIn(a, b, event)
    ensures if |b.fates| <= |a.published| then b.buffer != [] && b.buffer[|b.buffer| - 1] == event
            else |a.published| in Positions(b.fates) && event in b.inbox
  {
    assert b.published[|a.published|] == event;
    if |b.fates| > |a.published| {
      ReceivedIsInInbox(b, |a.published|);
    }
  }

  /** What is dropped for an event was published before it, and nothing is unless the buffer was full. */
  lemma DroppedIsOlder(a: Subscription, b: Subscription, event: Event)
    requires Fits(a) && TakesIn(a, b, event)
    ensures forall i | |a.fates| <= i < |b.fates| && b.fates[i] == Dropped ::
      i < |a.published| && |a.buffer| == 8
  {
    if |a.buffer| < CAPACITY {
      var since := b.fates[|a.fates|..];
      assert b.fates == a.fates + since;
      DropsJoin(a.fates, since);
      NoDropsMeansReceived(since);
      assert forall i | |a.fates| <= i < |b.fates| :: b.fates[i] == since[i - |a.fates|];
    }
  }
}
