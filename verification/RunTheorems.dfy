/** The guarantees of the hub, stated for every run from every table it can be started on. */
module RunTheorems {
  import opened Clips
  import opened HubSpec
  import opened Tables
  import opened Protocol
  import opened Turnstile
  import opened Memory
  import opened Delivery
  import opened Persistence
  import opened Streams

  /** `s` is reached by `steps` from a hub started on any loadable table, with any clock readings. */
  ghost predicate Reached(cfg: Config, t: Table, clock: nat, lastSeq: nat, steps: seq<Step>, s: Sys) {
    && 0 < cfg.maxHistory
    && Loadable(t)
    && Runs(cfg, Boot(cfg, t, clock, lastSeq), steps, s)
  }

  /** ... on a clock that never steps back, and over a table left by hubs with no longer a ttl. */
  ghost predicate ReachedOnTime(cfg: Config, t: Table, clock: nat, lastSeq: nat, steps: seq<Step>, s: Sys) {
    && Reached(cfg, t, clock, lastSeq, steps, s)
    && Left(cfg, t, clock) && Timely(cfg, Boot(cfg, t, clock, lastSeq), steps)
  }

  lemma ReachedInv(cfg: Config, t: Table, clock: nat, lastSeq: nat, steps: seq<Step>, s: Sys)
    requires Reached(cfg, t, clock, lastSeq, steps, s)
    ensures Inv(cfg, s)
    ensures ReachedOnTime(cfg, t, clock, lastSeq, steps, s) ==> TimedInv(cfg, s)
  {
    hide Inv, TimedInv, Boot, Loadable, Left;
    BootInv(cfg, t, clock, lastSeq);
    RunInv(cfg, Boot(cfg, t, clock, lastSeq), steps, s);
    if ReachedOnTime(cfg, t, clock, lastSeq, steps, s) {
      BootTimed(cfg, t, clock, lastSeq);
      RunTimed(cfg, Boot(cfg, t, clock, lastSeq), steps, s);
    }
  }

  /** The hub's memory in every reachable state, at any clock readings. */
  lemma MemoryAlwaysSane(cfg: Config, t: Table, clock: nat, lastSeq: nat, steps: seq<Step>, s: Sys)
    requires Reached(cfg, t, clock, lastSeq, steps, s)
    ensures Sane(cfg, s.hub) && AllKnown(s, s.hub.history)
  {
    ReachedInv(cfg, t, clock, lastSeq, steps, s);
  }

  /** ... and when the clock never steps back: expiry falls, `current` is the newest item, no neighbours are twins. */
  lemma MemoryAlwaysTidy(cfg: Config, t: Table, clock: nat, lastSeq: nat, steps: seq<Step>, s: Sys)
    requires ReachedOnTime(cfg, t, clock, lastSeq, steps, s)
    ensures Tidy(cfg, s.hub)
    ensures t.rows == map[] ==> NoTwins(s.hub.history)
  {
    hide Inv, StoreInv, Coherent, Tidy;
    ReachedInv(cfg, t, clock, lastSeq, steps, s);
    RunBoot(cfg, Boot(cfg, t, clock, lastSeq), steps, s);
  }

  lemma {:induction false} RunBoot(cfg: Config, s: Sys, steps: seq<Step>, s': Sys)
    requires Runs(cfg, s, steps, s')
    ensures s'.boot == s.boot && s'.base == s.base && s'.client.start == s.client.start
    decreases |steps|
  {
    if steps != [] {
      RunBoot(cfg, Apply(cfg, s, steps[0]), steps[1..], s');
    }
  }

  /**
   For published numbers `GetBySeq` answers from memory what the table would answer, for exactly the items whose own
   save did not fail. New items have to outlive the pending deletes; rows left by hubs with any other ttl do not matter.
   */
  lemma MemoryAlwaysCoherent(cfg: Config, t: Table, clock: nat, lastSeq: nat, steps: seq<Step>, s: Sys, n: nat)
    requires Reached(cfg, t, clock, lastSeq, steps, s) && PromptRun(cfg, Boot(cfg, t, clock, lastSeq), steps)
    requires n <= s.published
    ensures forall x | x in s.hub.history && x.seqNo <= s.published :: HasRow(s.table, x) <==> x.seqNo !in s.failed
    ensures Remembered(s.hub, n).Some? ==> (Remembered(s.hub, n) == LoadItem(s.table, n) <==> n !in s.failed)
  {
    hide Ordered, SnapshotInv, DeliveryInv, ClientInv, Sane, Boot, Loadable, LoadSeq;
    ReachedInv(cfg, t, clock, lastSeq, steps, s);
    BootInv(cfg, t, clock, lastSeq);
    BootCoherent(cfg, t, clock, lastSeq);
    RunCoherent(cfg, Boot(cfg, t, clock, lastSeq), steps, s);
    MemoryAnswersLikeTable(cfg, s, n);
  }

  /** On a clock that never steps back that is always so. */
  lemma CoherentOnTime(cfg: Config, t: Table, clock: nat, lastSeq: nat, steps: seq<Step>, s: Sys, n: nat)
    requires Reached(cfg, t, clock, lastSeq, steps, s) && Timely(cfg, Boot(cfg, t, clock, lastSeq), steps)
    requires n <= s.published
    ensures forall x | x in s.hub.history && x.seqNo <= s.published :: HasRow(s.table, x) <==> x.seqNo !in s.failed
    ensures Remembered(s.hub, n).Some? ==> (Remembered(s.hub, n) == LoadItem(s.table, n) <==> n !in s.failed)
  {
    hide NewestFirst, LoadSeq, Loadable;
    TimelyIsPrompt(cfg, Boot(cfg, t, clock, lastSeq), steps);
    MemoryAlwaysCoherent(cfg, t, clock, lastSeq, steps, s, n);
  }

  /** The turnstile in every reachable state: who is in flight, that publishing cannot stall, and where it ends. */
  lemma TurnstileAlways(cfg: Config, t: Table, clock: nat, lastSeq: nat, steps: seq<Step>, s: Sys)
    requires Reached(cfg, t, clock, lastSeq, steps, s)
    ensures forall n | s.published < n <= s.hub.seqNo :: Owned(s, n)
    ensures forall p, q | p in s.puts && q in s.puts && s.puts[p].item.seqNo == s.puts[q].item.seqNo :: p == q
    ensures |s.puts| == s.hub.seqNo - s.published
    ensures s.puts != map[] ==> exists step :: CanPublish(cfg, s, step)
    ensures exists more, s' :: Runs(cfg, s, more, s') && s'.puts == map[] && s'.published == s.hub.seqNo
  {
    ReachedInv(cfg, t, clock, lastSeq, steps, s);
    InFlightCount(s);
    NoDeadlock(cfg, s);
    var more, s' := Drain(cfg, s);
  }

  /** Whatever is dropped, expired or cleared: strictly increasing, and only items committed under their number. */
  lemma StreamAlwaysOrdered(cfg: Config, t: Table, clock: nat, lastSeq: nat, steps: seq<Step>, s: Sys, id: nat)
    requires Reached(cfg, t, clock, lastSeq, steps, s) && id in s.conns
    ensures Ascending(s.conns[id].sent)
    ensures AllKnown(s, s.conns[id].sent)
  {
    ReachedInv(cfg, t, clock, lastSeq, steps, s);
    assert ConnOk(s, id);
    SentAscending(s.conns[id]);
    SentKnown(s, id);
  }

  lemma SentKnown(s: Sys, id: nat)
    requires LogInv(s) && id in s.conns && ConnOk(s, id)
    ensures AllKnown(s, s.conns[id].sent)
  {
    var c := s.conns[id];
    SentAscending(c);
    forall x | x in c.sent ensures Known(s, x) {
      if x in c.replay {
        assert AllKnown(s, c.replay);
      } else {
        var i :| 0 <= i < |c.offered| && c.offered[i] == x;
        assert x == s.log[c.joined - s.base + i];
      }
    }
  }

  /** Whatever is dropped: nothing sent lies at or below since_seq, exactly when Guarded (or nothing sent). */
  lemma StreamResumesExactly(cfg: Config, t: Table, clock: nat, lastSeq: nat, steps: seq<Step>, s: Sys, id: nat)
    requires Reached(cfg, t, clock, lastSeq, steps, s) && id in s.conns && s.conns[id].since.Some?
    ensures var c := s.conns[id];
            (forall x | x in c.sent :: c.since.value < x.seqNo) <==> Guarded(c) || c.sent == []
  {
    ReachedInv(cfg, t, clock, lastSeq, steps, s);
    ConnIsOk(s, id);
    SentAboveSince(s.conns[id]);
  }

  /**
   Gap-free, from since_seq or without one from the subscription, exactly when the replay sent so far is, and once live
   items have gone out, these follow on from it. With the history covering the gap at the read, as it always does
   without since_seq, that is when Guarded and skipping nothing.
   */
  lemma StreamGapFreeExactly(cfg: Config, t: Table, clock: nat, lastSeq: nat, steps: seq<Step>, s: Sys, id: nat)
    requires Reached(cfg, t, clock, lastSeq, steps, s) && id in s.conns && s.conns[id].phase.Streaming?
    ensures s.conns[id].phase.next <= |s.conns[id].replay|
    ensures var c := s.conns[id];
            CountsUpFrom(c.sent, StartOf(c))
            <==> CountsUpFrom(c.replay[..c.phase.next], StartOf(c)) && (|c.sent| == c.phase.next || FollowsOn(c))
    ensures var c := s.conns[id];
            c.covered ==> (CountsUpFrom(c.sent, StartOf(c)) <==> c.sent == [] || (Guarded(c) && !Skips(c)))
    ensures s.conns[id].since.None? ==> s.conns[id].covered && Guarded(s.conns[id])
    ensures s.conns[id].lost == [] ==> !Skips(s.conns[id])
  {
    ReachedInv(cfg, t, clock, lastSeq, steps, s);
    hide Reached, Ordered, SnapshotInv, MemInv, TableInv, ClientInv, ChannelOk, FollowsOn, CountsUpFrom;
    ConnIsOk(s, id);
    SentCountsExactly(s.conns[id]);
    if s.conns[id].covered { CoveredCounts(s.conns[id]); }
  }

  /**
   What exactly has been sent when the handler has caught up: the replay, and of everything published since the
   subscription, all above the replay but the drops.
   */
  lemma StreamCatchesUp(cfg: Config, t: Table, clock: nat, lastSeq: nat, steps: seq<Step>, s: Sys, id: nat)
    requires Reached(cfg, t, clock, lastSeq, steps, s) && id in s.conns
    requires var c := s.conns[id]; c.open && c.phase == Streaming(|c.replay|) && c.queue == []
    ensures var c := s.conns[id];
            s.published <= c.joined + |c.offered| && (s.turn.Free? ==> c.joined + |c.offered| == s.published)
    ensures var c := s.conns[id];
            forall n: nat :: Has(c.sent, n)
                        <==> Has(c.replay, n)
                             || (c.upTo < n && c.joined < n <= c.joined + |c.offered| && !Has(c.lost, n))
    ensures var c := s.conns[id];
            c.covered && c.lost == [] && Guarded(c) ==>
              CountsUpFrom(c.sent, StartOf(c)) && StartOf(c) + |c.sent| >= s.published
  {
    ReachedInv(cfg, t, clock, lastSeq, steps, s);
    assert ConnOk(s, id);
    var c := s.conns[id];
    CaughtUp(c);
    if c.covered && c.lost == [] && Guarded(c) { NothingHeldBack(c); }
  }

  /** A since_seq the hub had published when the handler subscribed satisfies the guard, then and ever after. */
  lemma PublishedSinceIsGuarded(cfg: Config, s: Sys, id: nat, since: nat)
    requires Enabled(cfg, s, Subscribe(id, Some(since))) && since <= s.published
    ensures Guarded(Apply(cfg, s, Subscribe(id, Some(since))).conns[id])
  {
  }

  lemma {:induction false} GuardStays(cfg: Config, s: Sys, steps: seq<Step>, s': Sys, id: nat)
    requires Inv(cfg, s) && Runs(cfg, s, steps, s') && id in s.conns && Guarded(s.conns[id])
    ensures id in s'.conns && Guarded(s'.conns[id])
    decreases |steps|
  {
    if steps != [] {
      ConnIsOk(s, id);
      ConnExtends(cfg, s, steps[0], id);
      StepInv(cfg, s, steps[0]);
      GuardStays(cfg, Apply(cfg, s, steps[0]), steps[1..], s', id);
    }
  }

  /** What a replay holds: exactly the history's items above since_seq, oldest first, and none without since_seq. */
  lemma ReadTakesHistory(cfg: Config, s: Sys, id: nat)
    requires Enabled(cfg, s, Read(id)) && Sane(cfg, s.hub)
    ensures var c, c' := s.conns[id], Apply(cfg, s, Read(id)).conns[id];
            && c'.phase == Streaming(0) && c'.sent == c.sent && c'.queue == c.queue
            && Ascending(c'.replay)
            && (c.since.None? ==> c'.replay == [])
            && (c.since.Some? ==> forall x :: x in c'.replay <==> x in s.hub.history && c.since.value < x.seqNo)
  {
    var c := s.conns[id];
    if c.since.Some? {
      OldestFirstAscending(s.hub.history, c.since.value);
      OldestFirstMembers(s.hub.history, c.since.value);
    }
  }

  /** Out of the publisher's reach: unsubscribed, and not in a snapshot taken before. */
  ghost predicate Cut(s: Sys, id: nat) {
    id in s.conns && !s.conns[id].open && !(s.turn.FanOut? && id in s.turn.todo)
  }

  lemma CutStep(cfg: Config, s: Sys, step: Step, id: nat)
    requires Cut(s, id) && Enabled(cfg, s, step)
    ensures Cut(Apply(cfg, s, step), id) && Apply(cfg, s, step).conns[id].offered == s.conns[id].offered
  {
    if IsConnStep(step) {
      ConnStepFrame(cfg, s, step);
      if !Touches(step, id) { UntouchedConn(cfg, s, step, id); }
    } else {
      HubStepFrame(cfg, s, step);
    }
  }

  /** Unsubscribing works: at most the item being published reaches the channel any more. */
  lemma {:induction false} UnsubscribedGetsNothing(cfg: Config, s: Sys, steps: seq<Step>, s': Sys, id: nat)
    requires Cut(s, id) && Runs(cfg, s, steps, s')
    ensures Cut(s', id) && s'.conns[id].offered == s.conns[id].offered
    decreases |steps|
  {
    hide Cut;
    if steps != [] {
      CutStep(cfg, s, steps[0], id);
      UnsubscribedGetsNothing(cfg, Apply(cfg, s, steps[0]), steps[1..], s', id);
    }
  }

  lemma UnsubscribeCuts(cfg: Config, s: Sys, id: nat)
    requires Enabled(cfg, s, Unsubscribe(id))
    ensures var s' := Apply(cfg, s, Unsubscribe(id));
            && id in s'.conns && s'.conns[id] == s.conns[id].(open := false)
            && (Cut(s', id) || (s.turn.FanOut? && id in s.turn.todo))
  {
  }

  lemma LeftStep(cfg: Config, s: Sys, step: Step, id: nat)
    requires id in s.conns && !s.conns[id].serving && Enabled(cfg, s, step)
    ensures var s' := Apply(cfg, s, step);
            id in s'.conns && !s'.conns[id].serving && s'.conns[id].sent == s.conns[id].sent
  {
    hide AfterCommit, IsDuplicate, NewClip, AfterReap, AfterSave, AfterExpiry, OldestFirst, NextInLine, Covers;
    if IsConnStep(step) {
      ConnStepFrame(cfg, s, step);
      if !Touches(step, id) { UntouchedConn(cfg, s, step, id); }
    } else {
      HubStepFrame(cfg, s, step);
    }
  }

  /** Once its handler has returned a connection sends nothing more. */
  lemma LeftSendsNothing(cfg: Config, s: Sys, id: nat, steps: seq<Step>, s': Sys)
    requires Enabled(cfg, s, Leave(id)) && Runs(cfg, Apply(cfg, s, Leave(id)), steps, s')
    ensures id in s'.conns && s'.conns[id].sent == s.conns[id].sent
  {
    LeftRun(cfg, Apply(cfg, s, Leave(id)), steps, s', id);
  }

  lemma {:induction false} LeftRun(cfg: Config, s: Sys, steps: seq<Step>, s': Sys, id: nat)
    requires id in s.conns && !s.conns[id].serving && Runs(cfg, s, steps, s')
    ensures id in s'.conns && s'.conns[id].sent == s.conns[id].sent
    decreases |steps|
  {
    if steps != [] {
      LeftStep(cfg, s, steps[0], id);
      LeftRun(cfg, Apply(cfg, s, steps[0]), steps[1..], s', id);
    }
  }

  /** What conservation says of one connection: offered = received + queued + dropped, in order, never beyond 16. */
  ghost predicate Conserved(s: Sys, c: Conn) {
    && s.base <= c.joined && c.joined + |c.offered| <= s.hub.seqNo == s.base + |s.log|
    && c.offered == s.log[c.joined - s.base..c.joined - s.base + |c.offered|]
    && (c.open && s.turn.Free? ==> c.joined + |c.offered| == s.published)
    && multiset(c.offered) == multiset(c.taken) + multiset(c.queue) + multiset(c.lost)
    && Ascending(c.taken + c.queue) && Ascending(c.lost)
    && |c.queue| <= 16
  }

  lemma ConnConserves(s: Sys, id: nat)
    requires LogInv(s) && id in s.conns && ConnOk(s, id)
    ensures Conserved(s, s.conns[id])
  {
  }

  /** Fan-out conservation: everything published while subscribed is received, queued or dropped. */
  lemma FanOutConserves(cfg: Config, t: Table, clock: nat, lastSeq: nat, steps: seq<Step>, s: Sys, id: nat)
    requires Reached(cfg, t, clock, lastSeq, steps, s) && id in s.conns
    ensures Conserved(s, s.conns[id])
  {
    ReachedInv(cfg, t, clock, lastSeq, steps, s);
    assert ConnOk(s, id);
    ConnConserves(s, id);
  }

  lemma OfferDrops(c: Conn, x: Clip)
    ensures Offer(c, x).lost != c.lost <==> |c.queue| >= 16
    ensures Offer(c, x).queue == if |c.queue| < 16 then c.queue + [x] else c.queue
  {
    assert |c.lost + [x]| == |c.lost| + 1;
  }

  /** A drop happens only at a send to a queue with 16 waiting, and at such a send always. */
  lemma DropNeedsFullQueue(cfg: Config, s: Sys, step: Step, id: nat)
    requires Enabled(cfg, s, step) && id in s.conns && |s.conns[id].queue| <= 16
    ensures id in Apply(cfg, s, step).conns
    ensures Apply(cfg, s, step).conns[id].lost != s.conns[id].lost
            <==> step == Deliver(id) && |s.conns[id].queue| == 16
  {
    hide OldestFirst, Covers;
    if !IsConnStep(step) {
      HubStepFrame(cfg, s, step);
      if step == Deliver(id) { OfferDrops(s.conns[id], s.puts[s.turn.put].item); }
    } else if !Touches(step, id) {
      UntouchedConn(cfg, s, step, id);
    }
  }

  /** At every send to `id` along the run at most 15 items are waiting. */
  ghost predicate NeverFull(cfg: Config, s: Sys, steps: seq<Step>, id: nat)
    decreases |steps|
  {
    steps == [] ||
    (Enabled(cfg, s, steps[0])
     && (steps[0] == Deliver(id) && id in s.conns ==> |s.conns[id].queue| <= 15)
     && NeverFull(cfg, Apply(cfg, s, steps[0]), steps[1..], id))
  }

  lemma NewLosesNothing(cfg: Config, s: Sys, step: Step, id: nat)
    requires Enabled(cfg, s, step) && id !in s.conns
    ensures id in Apply(cfg, s, step).conns ==> Apply(cfg, s, step).conns[id].lost == []
  {
  }

  lemma LostStep(cfg: Config, s: Sys, step: Step, id: nat)
    requires DeliveryInv(s) && Enabled(cfg, s, step)
    requires id in s.conns ==> s.conns[id].lost == []
    requires step == Deliver(id) && id in s.conns ==> |s.conns[id].queue| <= 15
    ensures id in Apply(cfg, s, step).conns ==> Apply(cfg, s, step).conns[id].lost == []
  {
    if id in s.conns {
      assert ConnOk(s, id);
      DropNeedsFullQueue(cfg, s, step, id);
    } else {
      NewLosesNothing(cfg, s, step, id);
    }
  }

  lemma {:induction false} NeverFullLosesNothing(cfg: Config, s: Sys, steps: seq<Step>, s': Sys, id: nat)
    requires Inv(cfg, s) && Runs(cfg, s, steps, s') && NeverFull(cfg, s, steps, id)
    requires id in s.conns ==> s.conns[id].lost == []
    ensures id in s'.conns ==> s'.conns[id].lost == []
    decreases |steps|
  {
    if steps != [] {
      LostStep(cfg, s, steps[0], id);
      StepInv(cfg, s, steps[0]);
      NeverFullLosesNothing(cfg, Apply(cfg, s, steps[0]), steps[1..], s', id);
    }
  }

  /**
   A client over any number of drops and reconnects to one hub run; lastSeq is the last of what it received. All of it
   is strictly increasing and above where the client started if and only if every connection it read from was Guarded.
   It is gap-free, and begins right behind the cursor the client started with, if it had one, if and only if every
   item was NextInLine when received: a drop that the next connection's replay makes good does no harm.
   */
  lemma ReconnectsKeepOrder(cfg: Config, t: Table, clock: nat, lastSeq: nat, steps: seq<Step>, s: Sys)
    requires Reached(cfg, t, clock, lastSeq, steps, s)
    ensures var cl := s.client;
            && (cl.received != [] ==> cl.lastSeq == cl.received[|cl.received| - 1].seqNo)
            && (cl.guarded <==> Ascending(cl.received) && forall x | x in cl.received :: lastSeq < x.seqNo)
            && (cl.whole <==>
                  && (forall i | 0 < i < |cl.received| :: cl.received[i].seqNo == cl.received[i - 1].seqNo + 1)
                  && (lastSeq > 0 && cl.received != [] ==> cl.received[0].seqNo == lastSeq + 1))
  {
    ReachedInv(cfg, t, clock, lastSeq, steps, s);
    RunBoot(cfg, Boot(cfg, t, clock, lastSeq), steps, s);
    var cl := s.client;
    Consecutive(cl.received, FirstBelow(cl));
  }

  lemma {:induction false} CountsAt(l: seq<Clip>, from: nat, i: nat)
    requires i < |l| && l[0].seqNo == from + 1 && forall j | 0 < j < |l| :: l[j].seqNo == l[j - 1].seqNo + 1
    ensures l[i].seqNo == from + 1 + i
  {
    if i > 0 { CountsAt(l, from, i - 1); }
  }

  /** Counting on is the first number and then steps of one. */
  lemma Consecutive(l: seq<Clip>, from: nat)
    ensures CountsUpFrom(l, from)
            <==> (l != [] ==> l[0].seqNo == from + 1) && forall i | 0 < i < |l| :: l[i].seqNo == l[i - 1].seqNo + 1
  {
    if (l != [] ==> l[0].seqNo == from + 1) && forall i | 0 < i < |l| :: l[i].seqNo == l[i - 1].seqNo + 1 {
      forall i | 0 <= i < |l| ensures l[i].seqNo == from + 1 + i {
        CountsAt(l, from, i);
      }
    }
  }

  lemma {:induction false} ConnStays(cfg: Config, s: Sys, steps: seq<Step>, s': Sys, id: nat)
    requires Inv(cfg, s) && Runs(cfg, s, steps, s') && id in s.conns
    ensures Inv(cfg, s') && id in s'.conns
    ensures s'.conns[id].since == s.conns[id].since && s'.conns[id].joined == s.conns[id].joined
    decreases |steps|
  {
    if steps != [] {
      ConnIsOk(s, id);
      ConnExtends(cfg, s, steps[0], id);
      StepInv(cfg, s, steps[0]);
      ConnStays(cfg, Apply(cfg, s, steps[0]), steps[1..], s', id);
    }
  }

  /**
   What a client asks for, and what it gets. One that has seen nothing asks for no replay, and however the run goes on,
   the connection sends only what was not published yet when it subscribed. Any other asks from the last number seen.
   */
  lemma DialAsksFromCursor(cfg: Config, s: Sys, id: nat, steps: seq<Step>, s': Sys)
    requires Inv(cfg, s) && Enabled(cfg, s, Dial(id)) && Runs(cfg, Apply(cfg, s, Dial(id)), steps, s')
    ensures id in s'.conns
    ensures s.client.lastSeq > 0 ==> s'.conns[id].since == Some(s.client.lastSeq)
    ensures s.client.lastSeq == 0 ==>
              s'.conns[id].since == None && s'.conns[id].replay == []
              && forall x | x in s'.conns[id].sent :: s.published < x.seqNo
  {
    hide Inv, Apply, Enabled, Runs;
    Dialled(cfg, s, id);
    StepInv(cfg, s, Dial(id));
    ConnStays(cfg, Apply(cfg, s, Dial(id)), steps, s', id);
    SentFromJoined(cfg, s', id);
  }

  lemma Dialled(cfg: Config, s: Sys, id: nat)
    requires Enabled(cfg, s, Dial(id))
    ensures var s' := Apply(cfg, s, Dial(id));
            && id in s'.conns && s.published <= s'.conns[id].joined
            && s'.conns[id].since == if s.client.lastSeq > 0 then Some(s.client.lastSeq) else None
  {
  }

  /** When a connection breaks the client can dial again, with the number and the items it had. */
  lemma DialsAgain(cfg: Config, s: Sys, id: nat)
    requires Enabled(cfg, s, HangUp) && id !in s.conns
    ensures var s' := Apply(cfg, s, HangUp);
            && s'.conns == s.conns && s'.client == s.client.(conn := None) && Enabled(cfg, s', Dial(id))
            && Apply(cfg, s', Dial(id)).client == s.client.(conn := Some(id), read := 0)
  {
  }

  lemma SentFromJoined(cfg: Config, s: Sys, id: nat)
    requires Inv(cfg, s) && id in s.conns
    ensures s.conns[id].since == None ==>
              s.conns[id].replay == [] && forall x | x in s.conns[id].sent :: s.conns[id].joined < x.seqNo
  {
    ConnIsOk(s, id);
    if s.conns[id].since == None { SentLive(s.conns[id]); }
  }

  // ---- the guard is needed ----

  lemma CommittedThenSubscribed(cfg: Config, input: PutInput) returns (steps: seq<Step>, s: Sys)
    requires 0 < cfg.maxHistory
    ensures Reached(cfg, EMPTY_TABLE, 0, 0, steps, s)
    ensures var item := NewClip(cfg, HubState(None, [], 0), input, 0);
            && s.hub == HubState(Some(item), [item], 1) && s.published == 0 && s.turn == Free
            && s.puts == map[0 := InFlight(item, Arriving)]
            && s.conns == map[0 := Conn(Some(0), true, true, Subscribed, [], 0, [], [], 0, [], [], [], false)]
  {
    var s0 := Boot(cfg, EMPTY_TABLE, 0, 0);
    var s1 := Apply(cfg, s0, Commit(0, input, 0));
    s := Apply(cfg, s1, Subscribe(0, Some(0)));
    Then(cfg, s0, [], s0, Commit(0, input, 0));
    steps := [] + [Commit(0, input, 0)];
    Then(cfg, s0, steps, s1, Subscribe(0, Some(0)));
    steps := steps + [Subscribe(0, Some(0))];
  }

  /** Item 1 is committed, and connection 0 replays it although it is not published yet. */
  lemma ReplayBeforePublish(cfg: Config, input: PutInput) returns (steps: seq<Step>, s: Sys)
    requires 0 < cfg.maxHistory
    ensures Reached(cfg, EMPTY_TABLE, 0, 0, steps, s)
    ensures var item := NewClip(cfg, HubState(None, [], 0), input, 0);
            && s.hub == HubState(Some(item), [item], 1) && s.published == 0 && s.turn == Free
            && s.puts == map[0 := InFlight(item, Arriving)]
            && s.conns.Keys == {0} && s.conns[0].sent == [item] && s.conns[0].open
  {
    hide Loadable, LoadSeq, NewestFirst, Boot, Runs;
    var s0 := Boot(cfg, EMPTY_TABLE, 0, 0);
    var item := NewClip(cfg, HubState(None, [], 0), input, 0);
    var s2: Sys;
    steps, s2 := CommittedThenSubscribed(cfg, input);
    var s3 := Apply(cfg, s2, Read(0));
    assert [item][1..] == [] && OldestFirst([item], 0) == [item];
    s := Apply(cfg, s3, Replay(0));
    Then(cfg, s0, steps, s2, Read(0));
    steps := steps + [Read(0)];
    Then(cfg, s0, steps, s3, Replay(0));
    steps := steps + [Replay(0)];
  }

  /** Connection 1 subscribes behind item 1 and finds nothing to replay. */
  lemma EmptyReplay(cfg: Config, s: Sys, item: Clip) returns (steps: seq<Step>, s': Sys)
    requires s.hub.history == [item] && item.seqNo == 1 && s.published == 0 && s.turn == Free && 1 !in s.conns
    ensures Runs(cfg, s, steps, s')
    ensures exists covered :: s' == s.(conns := s.conns[1 := Conn(Some(1), true, true, Streaming(0), [], 0, [], [], 0,
                                                                  [], [], [], covered)])
  {
    hide Runs, Covers;
    var s1 := Apply(cfg, s, Subscribe(1, Some(1)));
    assert [item][1..] == [] && OldestFirst([item], 1) == [];
    s' := Apply(cfg, s1, Read(1));
    Then(cfg, s, [], s, Subscribe(1, Some(1)));
    steps := [] + [Subscribe(1, Some(1))];
    Then(cfg, s, steps, s1, Read(1));
    steps := steps + [Read(1)];
  }

  /** ... and is then sent item 1 live. */
  lemma LiveAfterEmptyReplay(cfg: Config, s: Sys, item: Clip) returns (steps: seq<Step>, s': Sys)
    requires s.hub.history == [item] && item.seqNo == 1 && s.published == 0 && s.turn == Free
    requires s.puts == map[0 := InFlight(item, Arriving)] && 1 !in s.conns && 0 in s.conns
    ensures Runs(cfg, s, steps, s')
    ensures 1 in s'.conns && s'.conns[1].since == Some(1) && s'.conns[1].sent == [item]
    ensures 0 in s'.conns && s'.conns[0].sent == s.conns[0].sent
  {
    hide Runs;
    var s2: Sys;
    steps, s2 := EmptyReplay(cfg, s, item);
    var s3 := Apply(cfg, s2, Enter(0));
    var s4 := Apply(cfg, s3, Deliver(1));
    s' := Apply(cfg, s4, Forward(1));
    Then(cfg, s, steps, s2, Enter(0));
    steps := steps + [Enter(0)];
    Then(cfg, s, steps, s3, Deliver(1));
    steps := steps + [Deliver(1)];
    Then(cfg, s, steps, s4, Forward(1));
    steps := steps + [Forward(1)];
  }

  /**
   A reader handed a committed but unpublished item by one replay that reconnects behind it before its publication
   is sent the same item again: connection 1 asks for what follows item 1 and is sent item 1.
   */
  lemma UnguardedReconnectRepeats(cfg: Config, input: PutInput)
    requires 0 < cfg.maxHistory
    ensures exists steps, s ::
              && Reached(cfg, EMPTY_TABLE, 0, 0, steps, s)
              && 0 in s.conns && 1 in s.conns
              && |s.conns[0].sent| == 1 && s.conns[0].sent[0].seqNo == 1
              && s.conns[1].since == Some(1) && s.conns[1].sent == s.conns[0].sent
  {
    var first, mid := ReplayBeforePublish(cfg, input);
    var second, s := LiveAfterEmptyReplay(cfg, mid, mid.hub.history[0]);
    RunsJoin(cfg, Boot(cfg, EMPTY_TABLE, 0, 0), first, mid, second, s);
    assert Reached(cfg, EMPTY_TABLE, 0, 0, first + second, s);
  }
}
