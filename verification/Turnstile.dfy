/** The publish turnstile: who is in flight, who may enter, and why it never stalls. */
module Turnstile {
  import opened Clips
  import opened HubSpec
  import opened Tables
  import opened Protocol

  ghost predicate Owns(s: Sys, p: nat, n: nat) {
    p in s.puts && s.puts[p].item.seqNo == n
  }

  ghost predicate Owned(s: Sys, n: nat) {
    exists p :: Owns(s, p, n)
  }

  /** The log numbers its items base+1, base+2, ... up to the hub's counter. */
  ghost predicate LogInv(s: Sys) {
    && CountsUpFrom(s.log, s.base)
    && s.hub.seqNo == s.base + |s.log|
    && s.base <= s.published <= s.hub.seqNo
  }

  function LogItem(s: Sys, n: nat): Clip
    requires s.base < n <= s.base + |s.log|
  {
    s.log[n - s.base - 1]
  }

  /** The numbers in flight are exactly published+1 .. seq, each owned by one call, with the item it committed. */
  ghost predicate InFlightInv(s: Sys)
    requires LogInv(s)
  {
    && (forall p | p in s.puts ::
          s.published < s.puts[p].item.seqNo <= s.hub.seqNo && s.puts[p].item == LogItem(s, s.puts[p].item.seqNo))
    && (forall p, q | p in s.puts && q in s.puts && p != q :: s.puts[p].item.seqNo != s.puts[q].item.seqNo)
    && (forall n | s.published < n <= s.hub.seqNo :: Owned(s, n))
  }

  /** The lock is held only by the call whose turn it is, and that call is never asleep. */
  ghost predicate TurnInv(s: Sys) {
    && (s.turn.Free? || Owns(s, s.turn.put, s.published + 1))
    && (forall p | p in s.puts && s.puts[p].wait.Sleeping? :: s.puts[p].item.seqNo != s.published + 1)
  }

  ghost predicate Ordered(s: Sys) {
    LogInv(s) && InFlightInv(s) && TurnInv(s)
  }

  lemma BootOrdered(cfg: Config, t: Table, clock: nat, lastSeq: nat)
    ensures Ordered(Boot(cfg, t, clock, lastSeq))
  {
  }

  /** What the holder of the turn is publishing. */
  lemma TurnItem(s: Sys)
    requires Ordered(s) && s.turn.FanOut?
    ensures s.turn.put in s.puts && s.published < s.hub.seqNo
    ensures s.puts[s.turn.put].item == LogItem(s, s.published + 1)
    ensures s.puts[s.turn.put].item.seqNo == s.published + 1
  {
  }

  /** Steps that leave the log and the calls in flight alone keep what is said of them. */
  lemma SameInFlight(s: Sys, s': Sys)
    requires LogInv(s) && InFlightInv(s)
    requires s'.hub.seqNo == s.hub.seqNo && s'.published == s.published && s'.base == s.base && s'.log == s.log
    requires s'.puts.Keys == s.puts.Keys && forall p | p in s.puts :: s'.puts[p].item == s.puts[p].item
    ensures LogInv(s') && InFlightInv(s')
  {
    forall n | s'.published < n <= s'.hub.seqNo ensures Owned(s', n) {
      assert Owned(s, n);
      var p :| Owns(s, p, n);
      assert Owns(s', p, n);
    }
  }

  lemma SameOrdered(s: Sys, s': Sys)
    requires Ordered(s)
    requires s'.hub.seqNo == s.hub.seqNo && s'.published == s.published && s'.base == s.base && s'.log == s.log
    requires s'.puts == s.puts
    requires s'.turn == s.turn || (!s'.turn.Free? && !s.turn.Free? && s'.turn.put == s.turn.put)
    ensures Ordered(s')
  {
    SameInFlight(s, s');
  }

  lemma CommitLog(cfg: Config, s: Sys, p: nat, input: PutInput, now: nat)
    requires LogInv(s) && p !in s.puts && !IsDuplicate(cfg, s.hub, input)
    ensures var s' := AfterPut(cfg, s, p, input, now);
            LogInv(s') && (forall n | s.base < n <= s.hub.seqNo :: LogItem(s', n) == LogItem(s, n))
            && LogItem(s', s'.hub.seqNo) == s'.puts[p].item
  {
  }

  lemma CommitOwned(cfg: Config, s: Sys, p: nat, input: PutInput, now: nat, n: nat)
    requires Ordered(s) && p !in s.puts && !IsDuplicate(cfg, s.hub, input)
    requires s.published < n <= s.hub.seqNo + 1
    ensures Owned(AfterPut(cfg, s, p, input, now), n)
  {
    var s' := AfterPut(cfg, s, p, input, now);
    if n == s.hub.seqNo + 1 {
      assert Owns(s', p, n);
    } else {
      assert Owned(s, n);
      var q :| Owns(s, q, n);
      assert Owns(s', q, n);
    }
  }

  lemma CommitDistinct(cfg: Config, s: Sys, p: nat, input: PutInput, now: nat)
    requires Ordered(s) && p !in s.puts && !IsDuplicate(cfg, s.hub, input)
    ensures var s' := AfterPut(cfg, s, p, input, now);
            && (forall q | q in s'.puts :: s.published < s'.puts[q].item.seqNo <= s.hub.seqNo + 1)
            && (forall q, r | q in s'.puts && r in s'.puts && q != r ::
                  s'.puts[q].item.seqNo != s'.puts[r].item.seqNo)
            && TurnInv(s')
  {
  }

  lemma CommitOrdered(cfg: Config, s: Sys, p: nat, input: PutInput, now: nat)
    requires Ordered(s) && p !in s.puts
    ensures Ordered(AfterPut(cfg, s, p, input, now))
  {
    var s' := AfterPut(cfg, s, p, input, now);
    if IsDuplicate(cfg, s.hub, input) {
      SameInFlight(s, s');
    } else {
      CommitLog(cfg, s, p, input, now);
      forall n | s'.published < n <= s'.hub.seqNo ensures Owned(s', n) {
        CommitOwned(cfg, s, p, input, now, n);
      }
      CommitDistinct(cfg, s, p, input, now);
    }
  }

  lemma EnterTurn(s: Sys, p: nat)
    requires TurnInv(s) && p in s.puts && s.turn.Free?
    ensures TurnInv(AfterEnter(s, p))
  {
  }

  lemma EnterOrdered(s: Sys, p: nat)
    requires Ordered(s) && p in s.puts && s.turn.Free?
    ensures Ordered(AfterEnter(s, p))
  {
    hide TurnInv, InFlightInv;
    EnterTurn(s, p);
    SameInFlight(s, AfterEnter(s, p));
  }

  lemma AdvanceOrdered(s: Sys)
    requires Ordered(s) && s.turn.Stored?
    ensures Ordered(AfterAdvance(s)) && AfterAdvance(s).published == s.published + 1
  {
    var s' := AfterAdvance(s);
    forall n | s'.published < n <= s'.hub.seqNo ensures Owned(s', n) {
      assert Owned(s, n);
      var q :| Owns(s, q, n);
      assert Owns(s', q, n);
    }
  }

  lemma StepOrdered(cfg: Config, s: Sys, step: Step)
    requires Ordered(s) && Enabled(cfg, s, step)
    ensures Ordered(Apply(cfg, s, step))
  {
    var s' := Apply(cfg, s, step);
    if IsConnStep(step) {
      ConnStepFrame(cfg, s, step);
      SameOrdered(s, s');
    } else {
      match step
      case Commit(p, input, now) => CommitOrdered(cfg, s, p, input, now);
      case Enter(p) => EnterOrdered(s, p);
      case Advance => AdvanceOrdered(s);
      case _ => SameOrdered(s, s');
    }
  }

  // ---- which calls take a number, and what they commit ----

  /**
   A call takes the next number if and only if the current clip has another MIME type, or another hash than the digest
   of the payload the MIME type selects; otherwise nothing at all changes. What it commits is its input.
   */
  lemma CommitTakesNumber(cfg: Config, s: Sys, p: nat, input: PutInput, now: nat)
    requires Enabled(cfg, s, Commit(p, input, now))
    ensures var s' := Apply(cfg, s, Commit(p, input, now));
            var hash := cfg.digest(if "text/" <= input.mime then input.content else input.data);
            var repeat := s.hub.current.Some? && s.hub.current.value.mime == input.mime
                          && s.hub.current.value.hash == hash;
            && s'.hub.seqNo == s.hub.seqNo + (if repeat then 0 else 1)
            && (repeat ==> s' == s)
            && (!repeat ==>
                  && p in s'.puts && s'.hub.current == Some(s'.puts[p].item)
                  && s'.puts[p].item == Clip(s.hub.seqNo + 1, input.mime, input.content, input.data, hash,
                                             input.source, now, now + cfg.ttl))
  {
    RepeatsExactly(cfg, s.hub, input);
  }

  /** Two calls in a row: the second is refused exactly if it has the same MIME type and payload digest as the first. */
  lemma TwoCommits(cfg: Config, s: Sys, p: nat, a: PutInput, t: nat, q: nat, b: PutInput, u: nat)
    requires Enabled(cfg, s, Commit(p, a, t)) && Enabled(cfg, Apply(cfg, s, Commit(p, a, t)), Commit(q, b, u))
    ensures var s1 := Apply(cfg, s, Commit(p, a, t));
            var s2 := Apply(cfg, s1, Commit(q, b, u));
            var x := if "text/" <= a.mime then a.content else a.data;
            var y := if "text/" <= b.mime then b.content else b.data;
            && (s2.hub.seqNo == s1.hub.seqNo <==> a.mime == b.mime && cfg.digest(x) == cfg.digest(y))
            && (a.mime == b.mime && x == y ==> s2 == s1)
            && ((forall v, w | cfg.digest(v) == cfg.digest(w) :: v == w) ==>
                  (s2.hub.seqNo == s1.hub.seqNo <==> a.mime == b.mime && x == y))
  {
    CommitTakesNumber(cfg, s, p, a, t);
    CommitTakesNumber(cfg, Apply(cfg, s, Commit(p, a, t)), q, b, u);
  }

  // ---- publishing happens once per number and in order ----

  /** `publishedSeq` moves only by `Advance`, by exactly one, for exactly the call that committed that number. */
  lemma PublishedInOrder(cfg: Config, s: Sys, step: Step)
    requires Ordered(s) && Enabled(cfg, s, step)
    ensures var s' := Apply(cfg, s, step);
            && s'.published == (if step.Advance? then s.published + 1 else s.published)
            && (step.Advance? ==> s.turn.put !in s'.puts && s.puts[s.turn.put].item == LogItem(s, s.published + 1))
            && (forall p | p in s.puts && p !in s'.puts :: step.Advance? && p == s.turn.put)
  {
    if IsConnStep(step) {
      ConnStepFrame(cfg, s, step);
    } else if step.Advance? {
      AdvanceOrdered(s);
    }
  }

  /** As many calls are in flight as numbers are unpublished. */
  lemma InFlightCount(s: Sys)
    requires Ordered(s)
    ensures |s.puts| == s.hub.seqNo - s.published
  {
    CountOwners(s, s.puts.Keys, s.hub.seqNo);
  }

  lemma {:induction false} CountOwners(s: Sys, ps: set<nat>, top: nat)
    requires Ordered(s) && s.published <= top <= s.hub.seqNo
    requires forall p :: p in ps <==> p in s.puts && s.puts[p].item.seqNo <= top
    ensures |ps| == top - s.published
    decreases top
  {
    if top == s.published {
      assert ps == {};
    } else {
      assert Owned(s, top);
      var p :| Owns(s, p, top);
      CountOwners(s, ps - {p}, top - 1);
    }
  }

  // ---- no deadlock, and termination once new Puts stop ----

  predicate IsPublisherStep(step: Step) {
    step.Enter? || step.Deliver? || step.Save? || step.Advance?
  }

  /** A step by which an in-flight call comes nearer its end. */
  ghost predicate CanPublish(cfg: Config, s: Sys, step: Step) {
    IsPublisherStep(step) && Enabled(cfg, s, step)
  }

  /** Every channel in the publisher's snapshot exists. */
  ghost predicate SnapshotInv(s: Sys) {
    s.turn.FanOut? ==> forall c | c in s.turn.todo :: c in s.conns
  }

  lemma StepSnapshot(cfg: Config, s: Sys, step: Step)
    requires SnapshotInv(s) && Enabled(cfg, s, step)
    ensures SnapshotInv(Apply(cfg, s, step))
  {
  }

  /** With the lock free, a call that gets in without going to sleep is the owner of published+1, and it is awake. */
  lemma ExactlyOneMayEnter(cfg: Config, s: Sys)
    requires Ordered(s) && s.turn.Free? && s.puts != map[]
    ensures exists p :: Enabled(cfg, s, Enter(p)) && !Apply(cfg, s, Enter(p)).turn.Free?
    ensures forall p, q | Enabled(cfg, s, Enter(p)) && !Apply(cfg, s, Enter(p)).turn.Free?
                       && Enabled(cfg, s, Enter(q)) && !Apply(cfg, s, Enter(q)).turn.Free? :: p == q
  {
    var any :| any in s.puts;
    var turn := s.published + 1;
    assert Owned(s, turn);
    var p :| Owns(s, p, turn);
    assert Enabled(cfg, s, Enter(p)) && !Apply(cfg, s, Enter(p)).turn.Free?;
  }

  lemma NothingUnowned(s: Sys)
    requires Ordered(s) && s.published < s.hub.seqNo
    ensures s.puts != map[]
  {
    var n := s.hub.seqNo;
    assert Owned(s, n);
  }

  /** No deadlock: while any call is in flight, some publisher step is enabled. */
  lemma NoDeadlock(cfg: Config, s: Sys)
    requires Ordered(s) && SnapshotInv(s)
    ensures s.puts != map[] ==> exists step :: CanPublish(cfg, s, step)
    ensures s.puts == map[] ==> s.published == s.hub.seqNo && s.turn.Free?
  {
    if s.puts != map[] {
      match s.turn
      case Free =>
        ExactlyOneMayEnter(cfg, s);
        var p :| Enabled(cfg, s, Enter(p));
        assert CanPublish(cfg, s, Enter(p));
      case FanOut(p, todo) =>
        if todo == {} {
          assert CanPublish(cfg, s, Save(true));
        } else {
          var c :| c in todo;
          assert CanPublish(cfg, s, Deliver(c));
        }
      case Stored(p) => assert CanPublish(cfg, s, Advance);
    } else if s.published < s.hub.seqNo {
      NothingUnowned(s);
    }
  }

  /** What is left of the current turn: sends, the save, the release. */
  function TurnLeft(t: Turn): nat {
    match t
    case Free => 0
    case FanOut(_, todo) => |todo| + 2
    case Stored(_) => 1
  }

  ghost function Awake(s: Sys): set<nat> {
    set p | p in s.puts && s.puts[p].wait.Arriving?
  }

  lemma SleepingLowersAwake(s: Sys, p: nat)
    requires p in s.puts && s.puts[p].wait.Arriving? && s.puts[p].item.seqNo != s.published + 1
    ensures |Awake(AfterEnter(s, p))| < |Awake(s)|
  {
    assert p in Awake(s);
    assert Awake(AfterEnter(s, p)) == Awake(s) - {p};
  }

  /**
   Every publisher step strictly lowers (unpublished numbers, turn not yet taken, awake calls, rest of the turn)
   in lexicographic order, so once new Puts stop, publishing ends; by NoDeadlock it ends with nothing in flight.
   */
  lemma PublisherTerminates(cfg: Config, s: Sys, step: Step)
    requires Ordered(s) && CanPublish(cfg, s, step)
    ensures var s' := Apply(cfg, s, step);
            (s.hub.seqNo - s.published, s.turn.Free?, |Awake(s)|, TurnLeft(s.turn)
             decreases to s'.hub.seqNo - s'.published, s'.turn.Free?, |Awake(s')|, TurnLeft(s'.turn))
  {
    var s' := Apply(cfg, s, step);
    match step
    case Enter(p) =>
      if s.puts[p].item.seqNo != s.published + 1 {
        SleepingLowersAwake(s, p);
      }
    case Deliver(c) =>
      assert s'.puts == s.puts && Awake(s') == Awake(s);
      assert |s'.turn.todo| == |s.turn.todo| - 1;
    case Save(_) =>
      assert s'.puts == s.puts && Awake(s') == Awake(s);
    case Advance =>
      AdvanceOrdered(s);
  }

  /** From every reachable state the calls in flight can be run to the end by publisher steps alone. */
  lemma {:induction false} Drain(cfg: Config, s: Sys) returns (steps: seq<Step>, s': Sys)
    requires Ordered(s) && SnapshotInv(s)
    ensures Runs(cfg, s, steps, s') && forall step | step in steps :: IsPublisherStep(step)
    ensures s'.puts == map[] && s'.turn.Free? && s'.published == s'.hub.seqNo == s.hub.seqNo
    decreases s.hub.seqNo - s.published, s.turn.Free?, |Awake(s)|, TurnLeft(s.turn)
  {
    hide InFlightInv, TurnInv;
    NoDeadlock(cfg, s);
    if s.puts == map[] {
      return [], s;
    }
    var step :| CanPublish(cfg, s, step);
    PublisherTerminates(cfg, s, step);
    StepOrdered(cfg, s, step);
    StepSnapshot(cfg, s, step);
    var rest, last := Drain(cfg, Apply(cfg, s, step));
    steps, s' := [step] + rest, last;
    assert steps[1..] == rest;
  }
}
