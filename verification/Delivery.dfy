/** What each stream connection has been offered, has queued, has dropped and has sent, in every reachable state. */
module Delivery {
  import opened Clips
  import opened HubSpec
  import opened Tables
  import opened Protocol
  import opened Turnstile
  import opened Memory

  // ---- the channel ----

  /**
   Conservation: every offered item was accepted or dropped, in publish order. The first one offered met an empty
   channel, so it was not dropped.
   */
  ghost predicate Conserves(offered: seq<Clip>, accepted: seq<Clip>, lost: seq<Clip>) {
    && multiset(offered) == multiset(accepted) + multiset(lost)
    && Ascending(accepted) && Ascending(lost)
    && (lost == [] ==> accepted == offered)
    && (offered != [] ==> accepted != [] && accepted[0] == offered[0])
  }

  /** What was accepted has been received or is queued. */
  function AcceptedBy(c: Conn): seq<Clip> {
    c.taken + c.queue
  }

  ghost predicate ChannelOk(c: Conn) {
    && CountsUpFrom(c.offered, c.joined)
    && Conserves(c.offered, AcceptedBy(c), c.lost)
    && |c.queue| <= QUEUE_CAPACITY
  }

  lemma InOffered(c: Conn, x: Clip)
    requires ChannelOk(c) && (x in AcceptedBy(c) || x in c.lost)
    ensures x in c.offered && c.joined < x.seqNo <= c.joined + |c.offered|
  {
    assert x in multiset(AcceptedBy(c)) + multiset(c.lost);
    assert x in multiset(c.offered);
  }

  lemma AcceptOne(offered: seq<Clip>, accepted: seq<Clip>, lost: seq<Clip>, x: Clip)
    requires Conserves(offered, accepted, lost) && Ascending(accepted + [x])
    ensures Conserves(offered + [x], accepted + [x], lost)
  {
    hide Ascending;
    assert multiset(offered + [x]) == multiset(offered) + multiset{x};
    assert multiset(accepted + [x]) == multiset(accepted) + multiset{x};
    if offered == [] { NoneAccepted(accepted, lost); }
  }

  lemma DropOne(offered: seq<Clip>, accepted: seq<Clip>, lost: seq<Clip>, x: Clip)
    requires Conserves(offered, accepted, lost) && Ascending(lost + [x]) && accepted != []
    ensures Conserves(offered + [x], accepted, lost + [x])
  {
    hide Ascending;
    assert multiset(offered + [x]) == multiset(offered) + multiset{x};
    assert multiset(lost + [x]) == multiset(lost) + multiset{x};
    if offered == [] { NoneAccepted(accepted, lost); }
  }

  lemma NoneAccepted(accepted: seq<Clip>, lost: seq<Clip>)
    requires multiset([]) == multiset(accepted) + multiset(lost)
    ensures accepted == []
  {
    assert |multiset(accepted) + multiset(lost)| == |accepted| + |lost|;
  }

  lemma OfferAscends(c: Conn, x: Clip)
    requires ChannelOk(c) && x.seqNo == c.joined + |c.offered| + 1
    ensures Ascending(AcceptedBy(c) + [x]) && Ascending(c.lost + [x])
  {
    hide Ascending;
    forall y | y in AcceptedBy(c) || y in c.lost ensures y.seqNo < x.seqNo {
      InOffered(c, y);
    }
    AscendingAppend(AcceptedBy(c), x);
    AscendingAppend(c.lost, x);
  }

  lemma OfferKeepsChannel(c: Conn, x: Clip)
    requires ChannelOk(c) && x.seqNo == c.joined + |c.offered| + 1
    ensures ChannelOk(Offer(c, x))
    ensures Offer(c, x).lost != c.lost ==> |c.queue| == QUEUE_CAPACITY
  {
    OfferAscends(c, x);
    CountsAppend(c.offered, x, c.joined);
    hide Conserves, CountsUpFrom;
    if |c.queue| < QUEUE_CAPACITY {
      AcceptOne(c.offered, AcceptedBy(c), c.lost, x);
      assert AcceptedBy(Offer(c, x)) == AcceptedBy(c) + [x];
    } else {
      DropOne(c.offered, AcceptedBy(c), c.lost, x);
    }
  }

  lemma TakeKeepsChannel(c: Conn, c': Conn)
    requires ChannelOk(c) && c.queue != []
    requires c'.queue == c.queue[1..] && c'.taken == c.taken + [c.queue[0]]
    requires c'.offered == c.offered && c'.joined == c.joined && c'.lost == c.lost
    ensures ChannelOk(c')
  {
    hide Conserves, CountsUpFrom;
    assert AcceptedBy(c') == AcceptedBy(c);
  }

  // ---- the publisher's side ----

  /** A connection has been offered a gap-free stretch of the log, up to the last snapshot it was in. */
  ghost predicate OfferedOk(s: Sys, id: nat)
    requires LogInv(s) && id in s.conns
  {
    var c := s.conns[id];
    && s.base <= c.joined
    && c.joined + |c.offered| <= Snapped(s)
    && c.joined + |c.offered| <= s.base + |s.log|
    && c.offered == s.log[c.joined - s.base..c.joined - s.base + |c.offered|]
    && (if s.turn.FanOut? && id in s.turn.todo then c.joined + |c.offered| == s.published
        else c.open ==> c.joined + |c.offered| == Snapped(s))
  }

  // ---- the handler's side ----

  ghost predicate SentOk(c: Conn) {
    && Ascending(c.replay)
    && (c.since.None? ==> c.replay == [])
    && (c.since.Some? ==> forall x | x in c.replay :: x.seqNo > c.since.value)
    && match c.phase
       case Subscribed => c.replay == [] && c.sent == [] && c.taken == [] && c.upTo == 0 && !c.covered
       case Streaming(n) =>
         && n <= |c.replay|
         && (n < |c.replay| ==> c.taken == [])
         && c.upTo == (if n == 0 then 0 else c.replay[n - 1].seqNo)
         && c.sent == c.replay[..n] + Above(c.taken, c.upTo)
         && (c.since.None? ==> c.covered)
         && (c.covered && c.since.Some? ==>
               CountsUpFrom(c.replay, c.since.value) && c.joined <= c.since.value + |c.replay|)
  }

  ghost predicate ConnOk(s: Sys, id: nat)
    requires LogInv(s) && id in s.conns
  {
    && ChannelOk(s.conns[id])
    && OfferedOk(s, id)
    && SentOk(s.conns[id])
    && AllKnown(s, s.conns[id].replay)
  }

  ghost predicate AllKnown(s: Sys, l: seq<Clip>) {
    forall x | x in l :: Known(s, x)
  }

  lemma StillKnown(s: Sys, s': Sys, l: seq<Clip>)
    requires LogInv(s) && LogInv(s') && AllKnown(s, l)
    requires s'.base == s.base && s'.boot == s.boot && s.log <= s'.log
    ensures AllKnown(s', l)
  {
    forall x | x in l ensures Known(s', x) {
      assert Known(s, x);
    }
  }

  ghost predicate DeliveryInv(s: Sys) {
    && LogInv(s)
    && (forall id | id in s.conns :: ConnOk(s, id))
  }

  lemma NewConnOk(s: Sys, since: Option<nat>, id: nat, s': Sys)
    requires Ordered(s) && SnapshotInv(s) && id !in s.conns
    requires s' == SetConn(s, id, NewConn(s, since)).(client := s'.client)
    ensures ConnOk(s', id)
  {
    assert Snapped(s) <= s.hub.seqNo;
  }

  lemma EnterOffered(s: Sys, p: nat, id: nat)
    requires LogInv(s) && p in s.puts && s.turn.Free? && id in s.conns && OfferedOk(s, id)
    ensures LogInv(AfterEnter(s, p)) && OfferedOk(AfterEnter(s, p), id)
  {
  }

  lemma EnterConnOk(s: Sys, p: nat, id: nat)
    requires Ordered(s) && p in s.puts && s.turn.Free? && id in s.conns && ConnOk(s, id)
    ensures ConnOk(AfterEnter(s, p), id)
  {
    EnterOrdered(s, p);
    EnterOffered(s, p, id);
    StillKnown(s, AfterEnter(s, p), s.conns[id].replay);
  }

  lemma DeliverOffered(s: Sys, id: nat)
    requires Ordered(s) && s.turn.FanOut? && id in s.turn.todo && id in s.conns && OfferedOk(s, id)
    requires s.conns[id].offered == s.log[s.conns[id].joined - s.base..s.published - s.base]
    ensures OfferedOk(AfterDeliver(s, id), id)
    ensures s.puts[s.turn.put].item.seqNo == s.published + 1
  {
    TurnItem(s);
    hide InFlightInv, TurnInv, CountsUpFrom;
    var lo, hi := s.conns[id].joined - s.base, s.published - s.base;
    assert s.log[lo..hi + 1] == s.log[lo..hi] + [s.log[hi]];
  }

  lemma OfferKeepsSent(c: Conn, x: Clip)
    requires SentOk(c)
    ensures SentOk(Offer(c, x)) && Offer(c, x).replay == c.replay
  {
    hide Above, Ascending, CountsUpFrom;
  }

  lemma DeliverConnOk(s: Sys, id: nat)
    requires Ordered(s) && s.turn.FanOut? && id in s.turn.todo && id in s.conns && ConnOk(s, id)
    ensures ConnOk(AfterDeliver(s, id), id)
  {
    var x := s.puts[s.turn.put].item;
    DeliverOffered(s, id);
    OfferKeepsChannel(s.conns[id], x);
    OfferKeepsSent(s.conns[id], x);
    StillKnown(s, AfterDeliver(s, id), s.conns[id].replay);
  }

  lemma ReadSent(s: Sys, id: nat)
    requires id in s.conns && s.conns[id].phase.Subscribed? && SentOk(s.conns[id])
    requires Descending(s.hub.history) && s.conns[id].joined <= s.hub.seqNo
    requires forall x | x in s.hub.history :: x.seqNo <= s.hub.seqNo
    ensures SentOk(AfterRead(s, id).conns[id])
    ensures forall x | x in AfterRead(s, id).conns[id].replay :: x in s.hub.history
  {
    var c, s' := s.conns[id], AfterRead(s, id);
    if c.since.Some? {
      var since := c.since.value;
      OldestFirstAscending(s.hub.history, since);
      OldestFirstMembers(s.hub.history, since);
      if Covers(s.hub.history, since, s.hub.seqNo) {
        CoveredReplay(s.hub.history, since, s.hub.seqNo);
      }
    }
  }

  lemma ReadOffered(s: Sys, id: nat)
    requires LogInv(s) && id in s.conns && OfferedOk(s, id)
    ensures LogInv(AfterRead(s, id)) && OfferedOk(AfterRead(s, id), id)
  {
  }

  lemma ReadChannel(s: Sys, id: nat)
    requires id in s.conns && ChannelOk(s.conns[id])
    ensures ChannelOk(AfterRead(s, id).conns[id])
  {
  }

  lemma ReadKeeps(s: Sys, id: nat)
    requires LogInv(s) && id in s.conns && s.conns[id].phase.Subscribed? && ConnOk(s, id)
    requires Descending(s.hub.history) && AllKnown(s, s.hub.history)
    requires forall x | x in s.hub.history :: x.seqNo <= s.hub.seqNo
    ensures ConnOk(AfterRead(s, id), id)
  {
    ReadSent(s, id);
    ReadOffered(s, id);
    ReadChannel(s, id);
    StillKnown(s, AfterRead(s, id), AfterRead(s, id).conns[id].replay);
  }

  lemma ReadConnOk(cfg: Config, s: Sys, id: nat)
    requires Ordered(s) && MemInv(cfg, s) && id in s.conns && s.conns[id].phase.Subscribed? && ConnOk(s, id)
    ensures ConnOk(AfterRead(s, id), id)
  {
    ReadKeeps(s, id);
  }

  lemma ReplaySent(s: Sys, id: nat)
    requires id in s.conns && s.conns[id].phase.Streaming?
    requires s.conns[id].phase.next < |s.conns[id].replay| && SentOk(s.conns[id])
    ensures SentOk(AfterReplay(s, id).conns[id])
  {
    var c := s.conns[id];
    var n := c.phase.next;
    assert c.replay[..n + 1] == c.replay[..n] + [c.replay[n]];
    assert n > 0 ==> c.replay[n - 1].seqNo < c.replay[n].seqNo;
    assert c.replay[n] in c.replay;
  }

  lemma ReplayOffered(s: Sys, id: nat)
    requires LogInv(s) && id in s.conns && s.conns[id].phase.Streaming?
    requires s.conns[id].phase.next < |s.conns[id].replay| && ChannelOk(s.conns[id]) && OfferedOk(s, id)
    ensures LogInv(AfterReplay(s, id)) && OfferedOk(AfterReplay(s, id), id) && ChannelOk(AfterReplay(s, id).conns[id])
  {
  }

  lemma ReplayConnOk(s: Sys, id: nat)
    requires LogInv(s) && id in s.conns && s.conns[id].phase.Streaming?
    requires s.conns[id].phase.next < |s.conns[id].replay| && ConnOk(s, id)
    ensures ConnOk(AfterReplay(s, id), id)
  {
    ReplaySent(s, id);
    ReplayOffered(s, id);
    StillKnown(s, AfterReplay(s, id), s.conns[id].replay);
  }

  lemma ForwardSent(s: Sys, id: nat)
    requires id in s.conns && s.conns[id].phase == Streaming(|s.conns[id].replay|)
    requires s.conns[id].queue != [] && SentOk(s.conns[id]) && ChannelOk(s.conns[id])
    ensures SentOk(AfterForward(s, id).conns[id]) && ChannelOk(AfterForward(s, id).conns[id])
  {
    hide ChannelOk, Above, Ascending, CountsUpFrom;
    var c := s.conns[id];
    TakeKeepsChannel(c, AfterForward(s, id).conns[id]);
    AboveAppend(c.taken, c.queue[0], c.upTo);
  }

  lemma ForwardOffered(s: Sys, id: nat)
    requires LogInv(s) && id in s.conns && s.conns[id].queue != [] && OfferedOk(s, id)
    ensures LogInv(AfterForward(s, id)) && OfferedOk(AfterForward(s, id), id)
  {
  }

  lemma ForwardConnOk(s: Sys, id: nat)
    requires LogInv(s) && id in s.conns && s.conns[id].phase == Streaming(|s.conns[id].replay|)
    requires s.conns[id].queue != [] && ConnOk(s, id)
    ensures ConnOk(AfterForward(s, id), id)
  {
    ForwardSent(s, id);
    ForwardOffered(s, id);
    StillKnown(s, AfterForward(s, id), s.conns[id].replay);
  }

  /** What a step that is not about connection `id` leaves alone. */
  ghost predicate SameFor(s: Sys, s': Sys, id: nat)
    requires id in s.conns
  {
    && id in s'.conns
    && s'.base == s.base && s'.boot == s.boot && s.log <= s'.log
    && s'.conns[id].(open := true, serving := true) == s.conns[id].(open := true, serving := true)
    && (s'.conns[id].open ==> s.conns[id].open)
    && Snapped(s') == Snapped(s)
    && ((s'.turn.FanOut? && id in s'.turn.todo) <==> (s.turn.FanOut? && id in s.turn.todo))
    && (s'.turn.FanOut? ==> s'.published == s.published)
  }

  lemma FlagsDoNotMatter(c: Conn, c': Conn)
    requires c'.(open := true, serving := true) == c.(open := true, serving := true)
    requires ChannelOk(c) && SentOk(c)
    ensures ChannelOk(c') && SentOk(c') && c'.replay == c.replay && c'.offered == c.offered && c'.joined == c.joined
  {
    assert c' == c.(open := c'.open, serving := c'.serving);
  }

  /** A connection that a step does not touch stays as it is, while the log only grows. */
  lemma OtherConnOk(s: Sys, s': Sys, id: nat)
    requires LogInv(s) && LogInv(s') && id in s.conns && id in s'.conns && ConnOk(s, id)
    requires SameFor(s, s', id)
    ensures ConnOk(s', id)
  {
    hide ChannelOk, SentOk, AllKnown;
    FlagsDoNotMatter(s.conns[id], s'.conns[id]);
    var c := s.conns[id];
    assert s'.log[c.joined - s.base..c.joined - s.base + |c.offered|] == c.offered;
    StillKnown(s, s', c.replay);
  }

  predicate Touches(step: Step, id: nat) {
    match step
    case Deliver(c) => c == id
    case Read(c) => c == id
    case Replay(c) => c == id
    case Forward(c) => c == id
    case Subscribe(c, _) => c == id
    case Dial(c) => c == id
    case _ => false
  }

  lemma TouchedConnOk(cfg: Config, s: Sys, step: Step, id: nat)
    requires Ordered(s) && SnapshotInv(s) && MemInv(cfg, s) && Enabled(cfg, s, step) && Touches(step, id)
    requires id in s.conns ==> ConnOk(s, id)
    ensures LogInv(Apply(cfg, s, step)) && id in Apply(cfg, s, step).conns && ConnOk(Apply(cfg, s, step), id)
  {
    match step
    case Deliver(c) => DeliverConnOk(s, c);
    case Read(c) => ReadConnOk(cfg, s, c);
    case Replay(c) => ReplayConnOk(s, c);
    case Forward(c) => ForwardConnOk(s, c);
    case Subscribe(c, since) => NewConnOk(s, since, c, Apply(cfg, s, step));
    case Dial(c) =>
      NewConnOk(s, SinceSeq(s.client.lastSeq), c, Apply(cfg, s, step));
  }

  lemma UntouchedConn(cfg: Config, s: Sys, step: Step, id: nat)
    requires Enabled(cfg, s, step) && IsConnStep(step) && !Touches(step, id) && id in s.conns
    ensures var s' := Apply(cfg, s, step);
            && id in s'.conns
            && s'.conns[id].(open := true, serving := true) == s.conns[id].(open := true, serving := true)
            && (s'.conns[id].open ==> s.conns[id].open)
  {
  }

  lemma UntouchedSame(cfg: Config, s: Sys, step: Step, id: nat)
    requires Enabled(cfg, s, step) && !Touches(step, id) && !step.Enter? && id in s.conns
    requires step.Advance? ==> Owns(s, s.turn.put, s.published + 1)
    ensures SameFor(s, Apply(cfg, s, step), id)
  {
    if IsConnStep(step) {
      ConnStepFrame(cfg, s, step);
      UntouchedConn(cfg, s, step, id);
    }
  }

  lemma UntouchedConnOk(cfg: Config, s: Sys, step: Step, id: nat)
    requires Ordered(s) && Enabled(cfg, s, step) && !Touches(step, id) && !step.Enter?
    requires id in s.conns && ConnOk(s, id)
    ensures LogInv(Apply(cfg, s, step)) && id in Apply(cfg, s, step).conns && ConnOk(Apply(cfg, s, step), id)
  {
    StepOrdered(cfg, s, step);
    UntouchedSame(cfg, s, step, id);
    OtherConnOk(s, Apply(cfg, s, step), id);
  }

  lemma StepDelivery(cfg: Config, s: Sys, step: Step)
    requires Ordered(s) && SnapshotInv(s) && MemInv(cfg, s) && DeliveryInv(s) && Enabled(cfg, s, step)
    ensures DeliveryInv(Apply(cfg, s, step))
  {
    hide ConnOk, MemInv, SnapshotInv;
    var s' := Apply(cfg, s, step);
    StepOrdered(cfg, s, step);
    forall id | id in s'.conns ensures ConnOk(s', id) {
      if Touches(step, id) {
        TouchedConnOk(cfg, s, step, id);
      } else if step.Enter? {
        EnterConnOk(s, step.put, id);
      } else {
        UntouchedConnOk(cfg, s, step, id);
      }
    }
  }
}
