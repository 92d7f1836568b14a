/**
 Any number of agents around one hub, every monitor call one atomic step. Remote clips of any content may be applied
 at any time, platforms may convert what is written, sends may fail or lose their acknowledgement.
 */
module Fleet {
  import opened Clips
  import opened Monitor

  /** Where one agent's poll loop stands: with content polled as new, or sent and not yet marked. */
  datatype Loop = Idle | Holding(content: Content, stamp: nat) | Acknowledged(stamp: nat)

  /** `clip` is what a read of the clipboard gives; `stamp` counts how often it has been replaced. */
  datatype Agent = Agent(clip: Content, stamp: nat, keys: Keys, loop: Loop)

  /** One state of one agent's clipboard. */
  datatype Origin = Origin(agent: nat, stamp: nat)

  datatype Fleet = Fleet(
    agents: map<nat, Agent>,
    current: Option<Key>,     // key of the hub's current clip, for the repeat check
    commits: nat,             // clips the hub has committed
    genuine: set<Origin>,     // history variable: clipboards at a start, user copies, faulty applies that MayReturn
    handled: seq<Origin>)     // history variable: what was sent with success or blocked, in order

  datatype SendOutcome = Rejected | Accepted | AcceptedUnacknowledged

  datatype Action =
    | Copy(agent: nat, content: Content)
    | Poll(agent: nat, readable: bool)
    | Send(agent: nat, outcome: SendOutcome)
    | Mark(agent: nat)
    | Block(agent: nat)                                // MarkHandled, also when the clear fails
    | BlockAndClear(agent: nat)
    | Apply(agent: nat, remote: Content, stored: Content)   // written and read back as `stored`
    | FaultyApply(agent: nat, remote: Content, written: bool, stored: Content)  // write or read-back fails
    | Post(content: Content)                           // a clip from outside the fleet
    | Restart(agent: nat)                              // the agent's process starts again, on what is on the clipboard
    | Forget(left: Option<Key>)     // the hub's current clip is cleared, expires, or is an older one after a restart

  ghost predicate Allowed(f: Fleet, a: Action) {
    match a
    case Copy(id, _) => id in f.agents
    case Poll(id, _) => id in f.agents && f.agents[id].loop.Idle?
    case Send(id, _) => id in f.agents && f.agents[id].loop.Holding?
    case Mark(id) => id in f.agents && f.agents[id].loop.Acknowledged?
    case Block(id) => id in f.agents && f.agents[id].loop.Holding?
    case BlockAndClear(id) => id in f.agents && f.agents[id].loop.Holding?
    case Apply(id, _, stored) => id in f.agents && !IsEmpty(stored)
    case FaultyApply(id, _, _, _) => id in f.agents
    case Post(_) => true
    case Restart(id) => id in f.agents
    case Forget(_) => true
  }

  /** `Put` on the hub: a repeat of the current key commits nothing. */
  function AfterPut(digest: Digest, f: Fleet, ct: Content): Fleet {
    if f.current == Some(KeyOf(digest, ct)) then f
    else f.(current := Some(KeyOf(digest, ct)), commits := f.commits + 1)
  }

  function SetAgent(f: Fleet, id: nat, g: Agent): Fleet {
    f.(agents := f.agents[id := g])
  }

  /** After a failed write or read-back only other content than what was to be written can come back. */
  predicate CanReturn(digest: Digest, remote: Content, stored: Content) {
    !IsEmpty(stored) && KeyOf(digest, stored) != KeyOf(digest, remote)
  }

  /**
   ... and even that not if the monitor has seen it last when it polls next: after a failed write while the loop is
   idle, or when what it is about to mark as sent is what the fault has left.
   */
  predicate MayReturn(digest: Digest, g: Agent, remote: Content, written: bool, stored: Content) {
    && CanReturn(digest, remote, stored)
    && match g.loop
       case Idle => written || KeyOf(digest, stored) != g.keys.lastSeen
       case Holding(_, _) => true
       case Acknowledged(_) => KeyOf(digest, stored) != g.keys.pending
  }

  /** The clipboard's content is replaced. */
  function Replaced(g: Agent, ct: Content): Agent {
    g.(clip := ct, stamp := g.stamp + 1)
  }

  ghost function After(digest: Digest, f: Fleet, a: Action): Fleet
    requires Allowed(f, a)
  {
    match a
    case Copy(id, ct) =>
      SetAgent(f, id, Replaced(f.agents[id], ct)).(genuine := f.genuine + {Origin(id, f.agents[id].stamp + 1)})
    case Poll(id, readable) => SetAgent(f, id, Polled(digest, f.agents[id], readable))
    case Send(id, outcome) => AfterSend(digest, f, id, outcome)
    case Mark(id) => SetAgent(f, id, f.agents[id].(keys := AfterHandled(f.agents[id].keys), loop := Idle))
    case Block(id) =>
      SetAgent(f, id, f.agents[id].(keys := AfterHandled(f.agents[id].keys), loop := Idle))
        .(handled := f.handled + [Origin(id, f.agents[id].loop.stamp)])
    case BlockAndClear(id) =>
      SetAgent(f, id, Replaced(f.agents[id], NOTHING).(keys := START, loop := Idle))
        .(handled := f.handled + [Origin(id, f.agents[id].loop.stamp)])
    case Apply(id, remote, stored) =>
      SetAgent(f, id, Replaced(f.agents[id], stored)
        .(keys := AfterApply(digest, f.agents[id].keys, remote, true, Got(stored))))
    case FaultyApply(id, remote, written, stored) =>
      SetAgent(f, id, Replaced(f.agents[id], stored)
        .(keys := AfterApply(digest, f.agents[id].keys, remote, written, Failed)))
        .(genuine := if MayReturn(digest, f.agents[id], remote, written, stored)
                     then f.genuine + {Origin(id, f.agents[id].stamp + 1)} else f.genuine)
    case Post(ct) => AfterPut(digest, f, ct)
    case Restart(id) =>
      SetAgent(f, id, Replaced(f.agents[id], f.agents[id].clip).(keys := START, loop := Idle))
        .(genuine := f.genuine + {Origin(id, f.agents[id].stamp + 1)})
    case Forget(left) => f.(current := left)
  }

  function Polled(digest: Digest, g: Agent, readable: bool): Agent {
    var reading := if readable then Got(g.clip) else Failed;
    g.(keys := AfterPoll(digest, g.keys, reading),
       loop := if PollOutcome(digest, g.keys, reading).NewContent? then Holding(g.clip, g.stamp) else Idle)
  }

  ghost function AfterSend(digest: Digest, f: Fleet, id: nat, outcome: SendOutcome): Fleet
    requires id in f.agents && f.agents[id].loop.Holding?
  {
    var g := f.agents[id];
    match outcome
    case Rejected => SetAgent(f, id, g.(loop := Idle))
    case Accepted =>
      SetAgent(AfterPut(digest, f, g.loop.content), id, g.(loop := Acknowledged(g.loop.stamp)))
        .(handled := f.handled + [Origin(id, g.loop.stamp)])
    case AcceptedUnacknowledged => SetAgent(AfterPut(digest, f, g.loop.content), id, g.(loop := Idle))
  }

  ghost predicate Goes(digest: Digest, f: Fleet, actions: seq<Action>, f': Fleet)
    decreases |actions|
  {
    if actions == [] then f == f'
    else Allowed(f, actions[0]) && Goes(digest, After(digest, f, actions[0]), actions[1..], f')
  }

  /** Every agent freshly started on whatever its clipboard holds, with the hub in whatever state. */
  ghost predicate Fresh(f: Fleet) {
    && (forall id | id in f.agents ::
          f.agents[id].keys == START && f.agents[id].loop == Idle && f.agents[id].stamp == 0)
    && f.handled == []
    && f.genuine == set id | id in f.agents :: Origin(id, 0)
  }

  // ---- the invariant ----

  /** What one agent's keys, loop and clipboard owe to what has been handled so far. */
  ghost predicate AgentOk(digest: Digest, genuine: set<Origin>, handled: seq<Origin>, id: nat, g: Agent) {
    var here := Origin(id, g.stamp);
    && (here !in genuine ==> IsEmpty(g.clip) || KeyOf(digest, g.clip) == g.keys.lastWritten || Seen(digest, g))
    && (here in handled ==>
          Hidden(digest, g.keys, g.clip) || (g.loop.Acknowledged? && KeyOf(digest, g.clip) == g.keys.pending))
    && (forall o | o in handled && o.agent == id :: o.stamp <= g.stamp)
    && match g.loop
       case Idle => true
       case Holding(ct, n) =>
         && n <= g.stamp && Origin(id, n) !in handled && Origin(id, n) in genuine && here !in handled
         && g.keys.pending == KeyOf(digest, ct)
         && (n == g.stamp ==> ct == g.clip && !Hidden(digest, g.keys, ct))
       case Acknowledged(n) =>
         && n <= g.stamp && (here in handled ==> n == g.stamp)
         && (n == g.stamp ==> g.keys.pending == KeyOf(digest, g.clip))
  }

  /** The monitor has, or will have when it polls next, last seen what is on the clipboard. */
  predicate Seen(digest: Digest, g: Agent) {
    match g.loop
    case Idle => KeyOf(digest, g.clip) == g.keys.lastSeen
    case Holding(_, _) => false
    case Acknowledged(_) => KeyOf(digest, g.clip) == g.keys.pending
  }

  ghost predicate NoRepeats(l: seq<Origin>) {
    forall i, j | 0 <= i < j < |l| :: l[i] != l[j]
  }

  ghost predicate FleetInv(digest: Digest, f: Fleet) {
    && NoRepeats(f.handled)
    && (forall o | o in f.handled :: o in f.genuine)
    && (forall id | id in f.agents :: AgentOk(digest, f.genuine, f.handled, id, f.agents[id]))
  }

  lemma AppendFresh(l: seq<Origin>, o: Origin)
    requires NoRepeats(l) && o !in l
    ensures NoRepeats(l + [o])
  {
  }

  /** Agents that take no part in an action stay as they were. */
  lemma OthersOk(digest: Digest, f: Fleet, f': Fleet, id: nat)
    requires FleetInv(digest, f)
    requires f'.agents.Keys == f.agents.Keys
    requires forall other | other in f.agents && other != id :: f'.agents[other] == f.agents[other]
    requires f.genuine <= f'.genuine && forall o | o in f'.genuine && o.agent != id :: o in f.genuine
    requires f'.handled == f.handled || (exists o: Origin :: o.agent == id && f'.handled == f.handled + [o])
    ensures forall other | other in f'.agents && other != id ::
              AgentOk(digest, f'.genuine, f'.handled, other, f'.agents[other])
  {
    forall other | other in f'.agents && other != id
      ensures AgentOk(digest, f'.genuine, f'.handled, other, f'.agents[other])
    {
      assert AgentOk(digest, f.genuine, f.handled, other, f.agents[other]);
      assert forall o: Origin | o.agent == other :: o in f'.handled <==> o in f.handled;
      assert forall o: Origin | o.agent == other :: o in f'.genuine <==> o in f.genuine;
    }
  }

  lemma BlockKeepsInv(digest: Digest, f: Fleet, id: nat, clear: bool)
    requires FleetInv(digest, f) && id in f.agents && f.agents[id].loop.Holding?
    ensures FleetInv(digest, After(digest, f, if clear then BlockAndClear(id) else Block(id)))
  {
    AppendFresh(f.handled, Origin(id, f.agents[id].loop.stamp));
    OthersOk(digest, f, After(digest, f, if clear then BlockAndClear(id) else Block(id)), id);
  }

  lemma ReplaceKeepsInv(digest: Digest, f: Fleet, a: Action)
    requires FleetInv(digest, f) && Allowed(f, a) && (a.Copy? || a.Apply? || a.FaultyApply?)
    ensures FleetInv(digest, After(digest, f, a))
  {
    var f' := After(digest, f, a);
    ReplacedOk(digest, f, f', a.agent);
    OthersOk(digest, f, f', a.agent);
    assert forall id | id in f'.agents :: id == a.agent || AgentOk(digest, f'.genuine, f'.handled, id, f'.agents[id]);
  }

  /** A replaced clipboard is new: nothing of it is handled yet, and it is hidden unless it is genuine. */
  lemma ReplacedOk(digest: Digest, f: Fleet, f': Fleet, id: nat)
    requires id in f.agents && AgentOk(digest, f.genuine, f.handled, id, f.agents[id])
    requires id in f'.agents && f'.handled == f.handled
    requires var g, g' := f.agents[id], f'.agents[id];
             && g'.stamp == g.stamp + 1 && g'.loop == g.loop && g'.keys.pending == g.keys.pending
             && (f'.genuine == f.genuine + {Origin(id, g'.stamp)}
                 || (f'.genuine == f.genuine
                     && (IsEmpty(g'.clip) || KeyOf(digest, g'.clip) == g'.keys.lastWritten || Seen(digest, g'))))
    ensures AgentOk(digest, f'.genuine, f'.handled, id, f'.agents[id])
  {
  }

  lemma ActKeepsInv(digest: Digest, f: Fleet, a: Action)
    requires FleetInv(digest, f) && Allowed(f, a)
    ensures FleetInv(digest, After(digest, f, a))
  {
    var f' := After(digest, f, a);
    match a
    case Post(_) =>
    case Forget(_) =>
    case Send(id, outcome) => SendKeepsInv(digest, f, id, outcome);
    case Block(id) => BlockKeepsInv(digest, f, id, false);
    case BlockAndClear(id) => BlockKeepsInv(digest, f, id, true);
    case Poll(id, readable) => PollKeepsInv(digest, f, id, readable);
    case Mark(id) => OthersOk(digest, f, f', id);
    case Restart(id) => RestartKeepsInv(digest, f, id);
    case _ => ReplaceKeepsInv(digest, f, a);
  }

  lemma RestartKeepsInv(digest: Digest, f: Fleet, id: nat)
    requires FleetInv(digest, f) && id in f.agents
    ensures FleetInv(digest, After(digest, f, Restart(id)))
  {
    OthersOk(digest, f, After(digest, f, Restart(id)), id);
    assert AgentOk(digest, f.genuine, f.handled, id, f.agents[id]);
  }

  lemma PollKeepsInv(digest: Digest, f: Fleet, id: nat, readable: bool)
    requires FleetInv(digest, f) && Allowed(f, Poll(id, readable))
    ensures FleetInv(digest, After(digest, f, Poll(id, readable)))
  {
    OthersOk(digest, f, After(digest, f, Poll(id, readable)), id);
    assert AgentOk(digest, f.genuine, f.handled, id, f.agents[id]);
  }

  lemma SendKeepsInv(digest: Digest, f: Fleet, id: nat, outcome: SendOutcome)
    requires FleetInv(digest, f) && id in f.agents && f.agents[id].loop.Holding?
    ensures FleetInv(digest, AfterSend(digest, f, id, outcome))
  {
    AppendFresh(f.handled, Origin(id, f.agents[id].loop.stamp));
    OthersOk(digest, f, AfterSend(digest, f, id, outcome), id);
  }

  lemma {:induction false} RunKeepsInv(digest: Digest, f: Fleet, actions: seq<Action>, f': Fleet)
    requires FleetInv(digest, f) && Goes(digest, f, actions, f')
    ensures FleetInv(digest, f')
    decreases |actions|
  {
    if actions != [] {
      ActKeepsInv(digest, f, actions[0]);
      RunKeepsInv(digest, After(digest, f, actions[0]), actions[1..], f');
    }
  }

  lemma FreshInv(digest: Digest, f: Fleet)
    requires Fresh(f)
    ensures FleetInv(digest, f)
  {
  }

  // ---- each local copy is handled at most once ----

  /**
   Over any run, no state of a clipboard is sent with success or blocked twice, none that a remote apply produced ever
   is, and a clip already handled is not offered by a poll as long as it stays.
   */
  lemma HandledAtMostOnce(digest: Digest, f: Fleet, actions: seq<Action>, f': Fleet)
    requires Fresh(f) && Goes(digest, f, actions, f')
    ensures NoRepeats(f'.handled)
    ensures forall o | o in f'.handled :: o in f'.genuine
    ensures forall id | id in f'.agents && f'.agents[id].loop.Idle? && Settled(f', id) ::
              !PollOutcome(digest, f'.agents[id].keys, Got(f'.agents[id].clip)).NewContent?
  {
    FreshInv(digest, f);
    RunKeepsInv(digest, f, actions, f');
    forall id | id in f'.agents && f'.agents[id].loop.Idle? && Settled(f', id)
      ensures !PollOutcome(digest, f'.agents[id].keys, Got(f'.agents[id].clip)).NewContent?
    {
      assert AgentOk(digest, f'.genuine, f'.handled, id, f'.agents[id]);
    }
  }

  /** What is on the clipboard has been handled already, or is not the user's. */
  ghost predicate Settled(f: Fleet, id: nat)
    requires id in f.agents
  {
    var here := Origin(id, f.agents[id].stamp);
    here in f.handled || here !in f.genuine
  }

  /** A rejected send loses nothing: if the clip is still there, the next poll offers it again. */
  lemma RejectedIsOfferedAgain(digest: Digest, f: Fleet, id: nat)
    requires FleetInv(digest, f) && id in f.agents && f.agents[id].loop.Holding?
    requires f.agents[id].loop.stamp == f.agents[id].stamp
    ensures var g := After(digest, f, Send(id, Rejected)).agents[id];
            PollOutcome(digest, g.keys, Got(g.clip)) == NewContent(f.agents[id].loop.content)
  {
    assert AgentOk(digest, f.genuine, f.handled, id, f.agents[id]);
  }

  // ---- no feedback loop ----

  /** The actions that may each account for one clip on the hub, as things stand. */
  predicate Accounts(digest: Digest, f: Fleet, a: Action) {
    match a
    case Copy(_, _) => true
    case FaultyApply(id, remote, written, stored) =>
      id in f.agents && MayReturn(digest, f.agents[id], remote, written, stored)
    case Post(_) => true
    case Restart(_) => true
    case Send(_, outcome) => outcome.AcceptedUnacknowledged?
    case _ => false
  }

  /** How many actions of a run account for a clip. */
  ghost function Tally(digest: Digest, f: Fleet, actions: seq<Action>): nat
    decreases |actions|
  {
    if actions == [] || !Allowed(f, actions[0]) then 0
    else (if Accounts(digest, f, actions[0]) then 1 else 0) + Tally(digest, After(digest, f, actions[0]), actions[1..])
  }

  /** Each action adds to what is committed beyond what is handled, or to what is genuine, at most its account. */
  lemma ActAccounts(digest: Digest, f: Fleet, a: Action)
    requires Allowed(f, a)
    ensures var f' := After(digest, f, a);
            f'.commits - |f'.handled| + |f'.genuine|
            <= f.commits - |f.handled| + |f.genuine| + (if Accounts(digest, f, a) then 1 else 0)
  {
    var f' := After(digest, f, a);
    if (a.Copy? || a.FaultyApply? || a.Restart?) && Accounts(digest, f, a) {
      var o := Origin(a.agent, f.agents[a.agent].stamp + 1);
      assert f'.genuine == f.genuine + {o};
      assert |f.genuine + {o}| <= |f.genuine| + 1;
    }
  }

  lemma {:induction false} RunAccounts(digest: Digest, f: Fleet, actions: seq<Action>, f': Fleet)
    requires Goes(digest, f, actions, f')
    ensures f'.commits - |f'.handled| + |f'.genuine|
            <= f.commits - |f.handled| + |f.genuine| + Tally(digest, f, actions)
    decreases |actions|
  {
    if actions != [] {
      ActAccounts(digest, f, actions[0]);
      RunAccounts(digest, After(digest, f, actions[0]), actions[1..], f');
    }
  }

  lemma {:induction false} NoRepeatsFit(l: seq<Origin>, s: set<Origin>)
    requires NoRepeats(l) && forall o | o in l :: o in s
    ensures |l| <= |s|
  {
    if l != [] {
      var n := |l| - 1;
      assert forall o | o in l[..n] :: o in l && o != l[n];
      assert l[n] in l;
      NoRepeatsFit(l[..n], s - {l[n]});
    }
  }

  lemma InitialOrigins(f: Fleet, ids: set<nat>)
    ensures |set id | id in ids :: Origin(id, 0)| == |ids|
  {
    if ids != {} {
      var id :| id in ids;
      InitialOrigins(f, ids - {id});
      assert (set i | i in ids :: Origin(i, 0)) == (set i | i in ids - {id} :: Origin(i, 0)) + {Origin(id, 0)};
    }
  }

  /**
   No feedback loop, for any number of agents and whatever the hub holds at the start: in every run it commits at most
   one clip per clipboard an agent starts on, at first or again, user copy, outside post, lost acknowledgement, and
   faulty apply that MayReturn. Remote clips applied with a readable read-back never come back, whatever the platform
   made of them.
   */
  lemma NoFeedbackLoop(digest: Digest, f: Fleet, actions: seq<Action>, f': Fleet)
    requires Fresh(f) && Goes(digest, f, actions, f')
    ensures f'.commits <= f.commits + |f.agents| + Tally(digest, f, actions)
  {
    FreshInv(digest, f);
    RunKeepsInv(digest, f, actions, f');
    RunAccounts(digest, f, actions, f');
    NoRepeatsFit(f'.handled, f'.genuine);
    InitialOrigins(f, f.agents.Keys);
    assert f.genuine == set id | id in f.agents.Keys :: Origin(id, 0);
  }

  // ---- the account of faulty applies is needed ----

  /** Actions that read the clipboard of agent `id` or replace it; all others leave it to the next poll. */
  predicate Disturbs(a: Action, id: nat) {
    match a
    case Copy(i, _) => i == id
    case Poll(i, readable) => i == id && readable
    case BlockAndClear(i) => i == id
    case Apply(i, _, _) => i == id
    case FaultyApply(i, _, _, _) => i == id
    case Restart(i) => i == id
    case _ => false
  }

  /** What was polled before is handled only now: sent and marked, or blocked. */
  predicate Handles(actions: seq<Action>, id: nat) {
    Mark(id) in actions || Block(id) in actions
  }

  lemma UndisturbedStep(digest: Digest, f: Fleet, a: Action, id: nat)
    requires id in f.agents && Allowed(f, a) && !Disturbs(a, id)
    ensures id in After(digest, f, a).agents
    ensures var g, g' := f.agents[id], After(digest, f, a).agents[id];
            && g'.clip == g.clip
            && g'.keys == (if a == Mark(id) || a == Block(id) then AfterHandled(g.keys) else g.keys)
  {
  }

  /** Until its next poll an undisturbed agent keeps its clipboard, and of its keys only lastSeen may become pending. */
  lemma {:induction false} UndisturbedRun(digest: Digest, f: Fleet, actions: seq<Action>, f': Fleet, id: nat)
    requires id in f.agents && Goes(digest, f, actions, f') && forall a | a in actions :: !Disturbs(a, id)
    ensures id in f'.agents && f'.agents[id].clip == f.agents[id].clip
    ensures f'.agents[id].keys == if Handles(actions, id) then AfterHandled(f.agents[id].keys) else f.agents[id].keys
    decreases |actions|
  {
    if actions != [] {
      UndisturbedStep(digest, f, actions[0], id);
      UndisturbedRun(digest, After(digest, f, actions[0]), actions[1..], f', id);
      assert actions == [actions[0]] + actions[1..];
    }
  }

  /** What the monitor will have last seen, at the next poll after a faulty apply. */
  function SeenThen(digest: Digest, k: Keys, remote: Content, written: bool, handled: bool): Key {
    if handled then k.pending else if written then KeyOf(digest, remote) else k.lastSeen
  }

  /**
   When exactly the next poll offers what a faulty apply left, wherever in the poll loop the apply falls and whatever
   happens before that poll: it is other content than the remote clip, and not what the monitor has last seen by then.
   */
  lemma FaultyApplyReturns(digest: Digest, f: Fleet, id: nat, remote: Content, written: bool, stored: Content,
                           actions: seq<Action>, f': Fleet)
    requires id in f.agents && Goes(digest, After(digest, f, FaultyApply(id, remote, written, stored)), actions, f')
    requires forall a | a in actions :: !Disturbs(a, id)
    ensures id in f'.agents
    ensures Allowed(f', Poll(id, true)) ==>
              (After(digest, f', Poll(id, true)).agents[id].loop.Holding?
               <==> CanReturn(digest, remote, stored)
                    && KeyOf(digest, stored)
                       != SeenThen(digest, f.agents[id].keys, remote, written, Handles(actions, id)))
  {
    UndisturbedRun(digest, After(digest, f, FaultyApply(id, remote, written, stored)), actions, f', id);
  }

  /** A start knows nothing: what is on the clipboard is offered, unless its key is the pair of empty strings. */
  lemma RestartOffers(digest: Digest, f: Fleet, id: nat)
    requires id in f.agents && f.agents[id].clip.data != []
    ensures var g := After(digest, After(digest, f, Restart(id)), Poll(id, true)).agents[id];
            && g.clip == f.agents[id].clip
            && (g.loop.Holding? <==> Key(digest(g.clip.data), g.clip.mime) != Key("", ""))
  {
  }

  /** Whatever clip the hub is left with, a clip is refused exactly as its repeat. */
  lemma ForgottenIsCommitted(digest: Digest, f: Fleet, left: Option<Key>, ct: Content)
    ensures var f' := After(digest, After(digest, f, Forget(left)), Post(ct));
            && f'.commits == f.commits + (if left == Some(Key(digest(ct.data), ct.mime)) then 0 else 1)
            && f'.current == Some(Key(digest(ct.data), ct.mime)) && f'.agents == f.agents
  {
  }

  /** The charge is exact: what a fault leaves is offered next by a loop that is idle, or only has to mark. */
  lemma MayReturnExactly(digest: Digest, f: Fleet, id: nat, remote: Content, written: bool, stored: Content)
    requires id in f.agents && !f.agents[id].loop.Holding?
    ensures var f1 := After(digest, f, FaultyApply(id, remote, written, stored));
            var f2 := if f.agents[id].loop.Idle? then f1 else After(digest, f1, Mark(id));
            After(digest, f2, Poll(id, true)).agents[id].loop.Holding?
            <==> MayReturn(digest, f.agents[id], remote, written, stored)
  {
  }

  /**
   A poll that offers nothing settles what is on the clipboard: a failed write that leaves it as it is never makes it
   come back, whatever happens up to the next poll, and nothing is charged for it.
   */
  lemma RecognisedStays(digest: Digest, f: Fleet, id: nat, remote: Content, actions: seq<Action>, f': Fleet)
    requires id in f.agents && f.agents[id].loop.Idle?
    requires var f1 := After(digest, f, Poll(id, true));
             f1.agents[id].loop.Idle?
             && Goes(digest, After(digest, f1, FaultyApply(id, remote, false, f.agents[id].clip)), actions, f')
    requires forall a | a in actions :: !Disturbs(a, id)
    ensures id in f'.agents && f'.agents[id].loop.Idle? && f'.agents[id].clip == f.agents[id].clip
    ensures !After(digest, f', Poll(id, true)).agents[id].loop.Holding?
    ensures !Accounts(digest, After(digest, f, Poll(id, true)), FaultyApply(id, remote, false, f.agents[id].clip))
  {
    var f1, clip := After(digest, f, Poll(id, true)), f.agents[id].clip;
    var f2 := After(digest, f1, FaultyApply(id, remote, false, clip));
    if clip.data != [] { RecognisedIsSeen(digest, f.agents[id].keys, clip, KeyOf(digest, remote)); }
    StaysIdle(digest, f2, actions, f', id);
  }

  lemma {:induction false} StaysIdle(digest: Digest, f: Fleet, actions: seq<Action>, f': Fleet, id: nat)
    requires id in f.agents && f.agents[id].loop.Idle?
    requires Goes(digest, f, actions, f') && forall a | a in actions :: !Disturbs(a, id)
    ensures id in f'.agents && f'.agents[id].loop.Idle?
    ensures f'.agents[id].clip == f.agents[id].clip && f'.agents[id].keys == f.agents[id].keys
    decreases |actions|
  {
    if actions != [] {
      UndisturbedStep(digest, f, actions[0], id);
      StaysIdle(digest, After(digest, f, actions[0]), actions[1..], f', id);
    }
  }

  lemma {:induction false} GoesOn(digest: Digest, f: Fleet, actions: seq<Action>, mid: Fleet, a: Action)
    requires Goes(digest, f, actions, mid) && Allowed(mid, a)
    ensures Goes(digest, f, actions + [a], After(digest, mid, a))
    decreases |actions|
  {
    if actions == [] {
      assert [a][1..] == [];
    } else {
      assert (actions + [a])[1..] == actions[1..] + [a];
      GoesOn(digest, After(digest, f, actions[0]), actions[1..], mid, a);
    }
  }

  lemma {:induction false} TallyAppend(digest: Digest, f: Fleet, actions: seq<Action>, mid: Fleet, a: Action)
    requires Goes(digest, f, actions, mid) && Allowed(mid, a)
    ensures Tally(digest, f, actions + [a]) == Tally(digest, f, actions) + (if Accounts(digest, mid, a) then 1 else 0)
    decreases |actions|
  {
    if actions == [] {
      assert [a][1..] == [] && actions + [a] == [a];
    } else {
      assert (actions + [a])[1..] == actions[1..] + [a];
      TallyAppend(digest, After(digest, f, actions[0]), actions[1..], mid, a);
    }
  }

  /** `actions` leads from `f` to `mid`, with `t` on account and no user copy. */
  ghost predicate Echoes(digest: Digest, f: Fleet, actions: seq<Action>, mid: Fleet, t: nat) {
    Goes(digest, f, actions, mid) && Tally(digest, f, actions) == t && forall a: Action | a in actions :: !a.Copy?
  }

  lemma NothingEchoes(digest: Digest, f: Fleet)
    ensures Echoes(digest, f, [], f, 0)
  {
  }

  lemma EchoesOn(digest: Digest, f: Fleet, actions: seq<Action>, mid: Fleet, t: nat, a: Action)
    requires Echoes(digest, f, actions, mid, t) && Allowed(mid, a) && !a.Copy?
    ensures Echoes(digest, f, actions + [a], After(digest, mid, a), t + (if Accounts(digest, mid, a) then 1 else 0))
  {
    GoesOn(digest, f, actions, mid, a);
    TallyAppend(digest, f, actions, mid, a);
  }

  /** One agent on clip `x` polls it as new; the outside has posted `r`, which is applied before the send. */
  lemma AppliedWhileHolding(digest: Digest, f: Fleet, x: Content, r: Content) returns (actions: seq<Action>, f': Fleet)
    requires f.agents == map[0 := Agent(x, 0, START, Idle)] && Fresh(f) && !IsEmpty(x) && !IsEmpty(r)
    requires f.current == None && f.commits == 0
    requires KeyOf(digest, x) != NO_KEY
    ensures Echoes(digest, f, actions, f', 1)
    ensures f'.commits == 1 && f'.current == Some(KeyOf(digest, r))
    ensures f'.agents ==
            map[0 := Agent(r, 1, Keys(KeyOf(digest, r), KeyOf(digest, r), KeyOf(digest, x)), Holding(x, 0))]
  {
    hide Echoes;
    var f1 := After(digest, f, Post(r));
    var f2 := After(digest, f1, Poll(0, true));
    f' := After(digest, f2, Apply(0, r, r));
    NothingEchoes(digest, f);
    EchoesOn(digest, f, [], f, 0, Post(r));
    actions := [] + [Post(r)];
    EchoesOn(digest, f, actions, f1, 1, Poll(0, true));
    actions := actions + [Poll(0, true)];
    EchoesOn(digest, f, actions, f2, 1, Apply(0, r, r));
    actions := actions + [Apply(0, r, r)];
  }

  /** ... then the send succeeds and is marked, which leaves `r` on the clipboard under lastWritten only. */
  lemma AppliedWhileSending(digest: Digest, f: Fleet, x: Content, r: Content) returns (actions: seq<Action>, f': Fleet)
    requires f.agents == map[0 := Agent(x, 0, START, Idle)] && Fresh(f) && !IsEmpty(x) && !IsEmpty(r)
    requires f.current == None && f.commits == 0
    requires KeyOf(digest, x) != KeyOf(digest, r) && KeyOf(digest, x) != NO_KEY
    ensures Echoes(digest, f, actions, f', 1)
    ensures f'.commits == 2 && f'.current == Some(KeyOf(digest, x))
    ensures f'.agents == map[0 := Agent(r, 1, Keys(KeyOf(digest, r), KeyOf(digest, x), KeyOf(digest, x)), Idle)]
  {
    hide Echoes;
    var f3: Fleet;
    actions, f3 := AppliedWhileHolding(digest, f, x, r);
    var f4 := After(digest, f3, Send(0, Accepted));
    f' := After(digest, f4, Mark(0));
    EchoesOn(digest, f, actions, f3, 1, Send(0, Accepted));
    actions := actions + [Send(0, Accepted)];
    EchoesOn(digest, f, actions, f4, 1, Mark(0));
    actions := actions + [Mark(0)];
  }

  /**
   A remote clip can come back after a failed write: with no user copy at all, one initial clip and one post, the hub
   commits three clips. So the bound of NoFeedbackLoop is reached, and without its account of faults it is false.
   */
  lemma FailedWriteEchoes(digest: Digest, f: Fleet, x: Content, r: Content, z: Content)
    requires f.agents == map[0 := Agent(x, 0, START, Idle)] && Fresh(f) && !IsEmpty(x) && !IsEmpty(r)
    requires f.current == None && f.commits == 0
    requires KeyOf(digest, x) != KeyOf(digest, r) && KeyOf(digest, z) != KeyOf(digest, r) && KeyOf(digest, x) != NO_KEY
    ensures exists actions, f' :: Echoes(digest, f, actions, f', 2) && f'.commits == 3 == |f.agents| + 2
  {
    var actions, f5 := AppliedWhileSending(digest, f, x, r);
    var f6 := After(digest, f5, FaultyApply(0, z, false, r));
    var f7 := After(digest, f6, Poll(0, true));
    var f8 := After(digest, f7, Send(0, Accepted));
    EchoesOn(digest, f, actions, f5, 1, FaultyApply(0, z, false, r));
    actions := actions + [FaultyApply(0, z, false, r)];
    EchoesOn(digest, f, actions, f6, 2, Poll(0, true));
    actions := actions + [Poll(0, true)];
    EchoesOn(digest, f, actions, f7, 2, Send(0, Accepted));
    assert f8.commits == 3;
  }
}
