/**
 The hub as a system of interleaved atomic steps, each one critical section or channel operation of the source:
 concurrent `Put` calls with their publish turnstile, stream connections, `Clear`, the reaper and its late delete,
 and one reconnecting client. Fields marked "history variable" are read by no guard; they only record the past.
 */
module Protocol {
  import opened Clips
  import opened HubSpec
  import opened Tables

  /** Where a `Put` call that has committed but not yet published stands. */
  datatype Wait = Arriving | Sleeping

  datatype InFlight = InFlight(item: Clip, wait: Wait)

  /** Who holds `publishMu`: nobody, or the call `put`, before or after its `SaveItem`. */
  datatype Turn = Free | FanOut(put: nat, todo: set<nat>) | Stored(put: nat)

  datatype Phase = Subscribed | Streaming(next: nat)

  /** One stream connection: its channel, the handler's locals and what it has written to the socket. */
  datatype Conn = Conn(
    since: Option<nat>,   // the parsed since_seq
    open: bool,           // still registered in `subs`
    serving: bool,        // the handler has not returned
    phase: Phase,
    replay: seq<Clip>,    // `missed`
    upTo: nat,            // `replayedUpTo`
    queue: seq<Clip>,     // channel contents
    sent: seq<Clip>,      // items written to the socket
    joined: nat,          // history variable: last sequence number snapshotted before the subscription
    offered: seq<Clip>,   // history variable: every item the publisher tried to enqueue
    taken: seq<Clip>,     // history variable: items received from the channel
    lost: seq<Clip>,      // history variable: items dropped on a full channel
    covered: bool)        // history variable: at the read, history held everything above since_seq

  /** The reconnecting client of the stream. */
  datatype Client = Client(
    lastSeq: nat,
    conn: Option<nat>,
    read: nat,
    received: seq<Clip>,
    start: nat,           // history variable: lastSeq at the beginning
    guarded: bool,        // history variable: every connection read from so far was Guarded
    whole: bool)          // history variable: every item received after a cursor was NextInLine

  datatype Sys = Sys(
    hub: HubState,
    table: Table,
    published: nat,
    puts: map<nat, InFlight>,
    turn: Turn,
    conns: map<nat, Conn>,
    deletes: multiset<nat>,  // reaps whose DeleteExpired goroutine has not run yet
    clock: nat,           // history variable: the latest clock reading
    client: Client,
    base: nat,            // history variable: the sequence number the hub started from
    boot: seq<Clip>,      // history variable: the history the hub started with
    log: seq<Clip>,       // history variable: every item committed since the start
    failed: set<nat>)     // history variable: the numbers of items whose SaveItem has failed

  datatype Step =
    | Commit(put: nat, input: PutInput, now: nat)
    | Enter(put: nat)
    | Deliver(conn: nat)
    | Save(ok: bool)
    | Advance
    | Subscribe(conn: nat, since: Option<nat>)
    | Read(conn: nat)
    | Replay(conn: nat)
    | Forward(conn: nat)
    | Unsubscribe(conn: nat)
    | Leave(conn: nat)
    | Clear(ok: bool)
    | Reap(now: nat)
    | Expire(before: nat)
    | Dial(conn: nat)
    | Receive
    | HangUp

  /** The highest sequence number whose subscriber snapshot has been taken. */
  function Snapped(s: Sys): nat {
    if s.turn.Free? then s.published else s.published + 1
  }

  /** The highest sequence number whose save has been attempted. */
  function SaveTried(s: Sys): nat {
    if s.turn.Stored? then s.published + 1 else s.published
  }

  predicate AllSaved(s: Sys) {
    s.failed == {}
  }

  /** The branch of the handshake that decides whether live items follow on from the replay. */
  predicate Guarded(c: Conn) {
    c.since.None? || c.since.value <= c.joined || c.replay != []
  }

  /** The number a connection's stream starts behind: its since_seq, or without one what was published before it. */
  function StartOf(c: Conn): nat {
    if c.since.Some? then c.since.value else c.joined
  }

  /** The since_seq a client asks with, absent while it has seen nothing. */
  function SinceSeq(lastSeq: nat): Option<nat> {
    if lastSeq > 0 then Some(lastSeq) else None
  }

  function NewConn(s: Sys, since: Option<nat>): Conn {
    Conn(since, true, true, Subscribed, [], 0, [], [], Snapped(s), [], [], [], false)
  }

  ghost function SetConn(s: Sys, c: nat, conn: Conn): Sys {
    s.(conns := s.conns[c := conn])
  }

  ghost predicate Enabled(cfg: Config, s: Sys, step: Step) {
    match step
    case Commit(p, _, _) => p !in s.puts
    case Enter(p) => s.turn.Free? && p in s.puts && s.puts[p].wait.Arriving?
    case Deliver(c) => s.turn.FanOut? && s.turn.put in s.puts && c in s.turn.todo && c in s.conns
    case Save(_) => s.turn.FanOut? && s.turn.todo == {} && s.turn.put in s.puts
    case Advance => s.turn.Stored? && s.turn.put in s.puts
    case Subscribe(c, _) => c !in s.conns
    case Read(c) => c in s.conns && s.conns[c].serving && s.conns[c].phase.Subscribed?
    case Replay(c) =>
      c in s.conns && s.conns[c].serving && s.conns[c].phase.Streaming? && s.conns[c].phase.next < |s.conns[c].replay|
    case Forward(c) =>
      c in s.conns && s.conns[c].serving && s.conns[c].phase == Streaming(|s.conns[c].replay|) && s.conns[c].queue != []
    case Unsubscribe(c) => c in s.conns   // once the context is cancelled; the handler may still be running
    case Leave(c) => c in s.conns
    case Clear(_) => true
    case Reap(_) => true   // the clock is read before the lock is taken, so the reading may be old
    case Expire(t) => t in s.deletes
    case Dial(c) => s.client.conn.None? && c !in s.conns
    case Receive =>
      s.client.conn.Some? && s.client.conn.value in s.conns && s.client.read < |s.conns[s.client.conn.value].sent|
    case HangUp => s.client.conn.Some?
  }

  ghost function Apply(cfg: Config, s: Sys, step: Step): Sys
    requires Enabled(cfg, s, step)
  {
    match step
    case Commit(p, input, now) => AfterPut(cfg, s, p, input, now)
    case Enter(p) => AfterEnter(s, p)
    case Deliver(c) => AfterDeliver(s, c)
    case Save(ok) =>
      s.(turn := Stored(s.turn.put),
         table := if ok then AfterSave(s.table, s.puts[s.turn.put].item) else s.table,
         failed := if ok then s.failed else s.failed + {s.puts[s.turn.put].item.seqNo})
    case Advance => AfterAdvance(s)
    case Subscribe(c, since) => SetConn(s, c, NewConn(s, since))
    case Read(c) => AfterRead(s, c)
    case Replay(c) => AfterReplay(s, c)
    case Forward(c) => AfterForward(s, c)
    case Unsubscribe(c) => SetConn(s, c, s.conns[c].(open := false))
    case Leave(c) => SetConn(s, c, s.conns[c].(serving := false))
    case Clear(ok) => if ok then s.(table := AfterDeleteAll(s.table), hub := AfterClear(s.hub)) else s
    case Reap(now) =>
      s.(hub := AfterReap(s.hub, now), deletes := s.deletes + multiset{now}, clock := Max(s.clock, now))
    case Expire(t) => s.(table := AfterExpiry(s.table, t), deletes := s.deletes - multiset{t})
    case Dial(c) =>
      SetConn(s, c, NewConn(s, SinceSeq(s.client.lastSeq))).(client := s.client.(conn := Some(c), read := 0))
    case Receive => s.(client := AfterReceive(s.client, s.conns[s.client.conn.value]))
    case HangUp => s.(client := s.client.(conn := None))
  }

  /** `Put` up to the release of `h.mu`: a repeat of the current clip changes nothing. */
  ghost function AfterPut(cfg: Config, s: Sys, p: nat, input: PutInput, now: nat): Sys {
    if IsDuplicate(cfg, s.hub, input) then s
    else
      var item := NewClip(cfg, s.hub, input, now);
      s.(hub := AfterCommit(cfg, s.hub, item), puts := s.puts[p := InFlight(item, Arriving)],
         log := s.log + [item], clock := Max(s.clock, now))
  }

  /** Taking `publishMu`: on its turn a call snapshots the subscribers, otherwise it waits on the condition. */
  ghost function AfterEnter(s: Sys, p: nat): Sys
    requires p in s.puts
  {
    if s.puts[p].item.seqNo == s.published + 1
    then s.(turn := FanOut(p, set c | c in s.conns && s.conns[c].open))
    else s.(puts := s.puts[p := s.puts[p].(wait := Sleeping)])
  }

  /** The non-blocking send of one item to one channel. */
  function Offer(c: Conn, item: Clip): Conn {
    if |c.queue| < QUEUE_CAPACITY
    then c.(queue := c.queue + [item], offered := c.offered + [item])
    else c.(lost := c.lost + [item], offered := c.offered + [item])
  }

  ghost function AfterDeliver(s: Sys, c: nat): Sys
    requires s.turn.FanOut? && s.turn.put in s.puts && c in s.conns
  {
    SetConn(s, c, Offer(s.conns[c], s.puts[s.turn.put].item)).(turn := FanOut(s.turn.put, s.turn.todo - {c}))
  }

  /** `publishedSeq` moves on, every sleeper is woken and the lock released; the call returns. */
  ghost function AfterAdvance(s: Sys): Sys
    requires s.turn.Stored? && s.turn.put in s.puts
  {
    var rest := map p | p in s.puts && p != s.turn.put :: s.puts[p].(wait := Arriving);
    s.(published := s.puts[s.turn.put].item.seqNo, puts := rest, turn := Free)
  }

  ghost function AfterRead(s: Sys, c: nat): Sys
    requires c in s.conns
  {
    var conn := s.conns[c];
    var conn' := match conn.since
      case None => conn.(phase := Streaming(0), replay := [], covered := true)
      case Some(since) =>
        conn.(phase := Streaming(0), replay := OldestFirst(s.hub.history, since),
              covered := Covers(s.hub.history, since, s.hub.seqNo));
    SetConn(s, c, conn')
  }

  ghost function AfterReplay(s: Sys, c: nat): Sys
    requires c in s.conns && s.conns[c].phase.Streaming? && s.conns[c].phase.next < |s.conns[c].replay|
  {
    var conn := s.conns[c];
    var item := conn.replay[conn.phase.next];
    SetConn(s, c, conn.(sent := conn.sent + [item], phase := Streaming(conn.phase.next + 1),
                        upTo := if item.seqNo > conn.upTo then item.seqNo else conn.upTo))
  }

  /** Receiving from the channel; what the replay already covered is skipped. */
  ghost function AfterForward(s: Sys, c: nat): Sys
    requires c in s.conns && s.conns[c].queue != []
  {
    var conn := s.conns[c];
    var item := conn.queue[0];
    SetConn(s, c, conn.(queue := conn.queue[1..], taken := conn.taken + [item],
                        sent := if item.seqNo <= conn.upTo then conn.sent else conn.sent + [item]))
  }

  ghost function AfterReceive(cl: Client, c: Conn): Client
    requires cl.read < |c.sent|
  {
    var item := c.sent[cl.read];
    cl.(lastSeq := item.seqNo, read := cl.read + 1, received := cl.received + [item],
        guarded := cl.guarded && Guarded(c),
        whole := cl.whole && (cl.lastSeq > 0 ==> NextInLine(c, cl.read, cl.lastSeq)))
  }

  /**
   Nothing is missing between the cursor and the k-th item sent. In the replay: the history held the next number when
   it was read. Live: the subscription was not behind the cursor, the item lies above it, and no drop lies in between.
   */
  ghost predicate NextInLine(c: Conn, k: nat, cursor: nat)
    requires k < |c.sent|
  {
    if k < |c.replay| then Has(c.replay, cursor + 1)
    else c.joined <= cursor < c.sent[k].seqNo
         && forall x | x in c.lost :: x.seqNo <= cursor || c.sent[k].seqNo <= x.seqNo
  }

  /** The steps of handlers and the client, which leave the hub and its table alone. */
  predicate IsConnStep(step: Step) {
    step.Subscribe? || step.Read? || step.Replay? || step.Forward? || step.Unsubscribe? || step.Leave?
    || step.Dial? || step.Receive? || step.HangUp?
  }

  lemma ConnStepFrame(cfg: Config, s: Sys, step: Step)
    requires Enabled(cfg, s, step) && IsConnStep(step)
    ensures var s' := Apply(cfg, s, step); s' == s.(conns := s'.conns, client := s'.client)
  {
  }

  lemma PutFrame(cfg: Config, s: Sys, p: nat, input: PutInput, now: nat)
    ensures var s' := AfterPut(cfg, s, p, input, now); s'.client == s.client && s'.conns == s.conns
  {
    hide AfterCommit, NewClip;
  }

  lemma EnterFrame(s: Sys, p: nat)
    requires p in s.puts
    ensures AfterEnter(s, p).client == s.client && AfterEnter(s, p).conns == s.conns
  {
  }

  lemma DeliverFrame(s: Sys, c: nat)
    requires s.turn.FanOut? && s.turn.put in s.puts && c in s.conns
    ensures AfterDeliver(s, c).client == s.client
  {
    hide Offer;
  }

  lemma AdvanceFrame(s: Sys)
    requires s.turn.Stored? && s.turn.put in s.puts
    ensures AfterAdvance(s).client == s.client && AfterAdvance(s).conns == s.conns
  {
  }

  /** All other steps leave the client alone, and the connections too but for one channel. */
  lemma HubStepFrame(cfg: Config, s: Sys, step: Step)
    requires Enabled(cfg, s, step) && !IsConnStep(step)
    ensures var s' := Apply(cfg, s, step);
            && s'.client == s.client
            && (if step.Deliver? then s'.conns == AfterDeliver(s, step.conn).conns else s'.conns == s.conns)
  {
    match step
    case Commit(p, input, now) => PutFrame(cfg, s, p, input, now);
    case Enter(p) => EnterFrame(s, p);
    case Deliver(c) => DeliverFrame(s, c);
    case Advance => AdvanceFrame(s);
    case _ => hide AfterSave, AfterExpiry, AfterReap, AfterClear;
  }

  // ---- start and runs ----

  /** What `New` sets up over a table, for a client that last saw `lastSeq`. */
  ghost function Boot(cfg: Config, t: Table, clock: nat, lastSeq: nat): Sys {
    var items := Take(NewestFirst(t.rows), cfg.maxHistory);
    Sys(Loaded(LoadSeq(t), items), t, LoadSeq(t), map[], Free, map[], multiset{}, clock,
        Client(lastSeq, None, 0, [], lastSeq, true, true), LoadSeq(t), items, [], {})
  }

  /** ... over an empty table. */
  lemma BootEmpty(cfg: Config)
    ensures Boot(cfg, EMPTY_TABLE, 0, 0) ==
            Sys(HubState(None, [], 0), EMPTY_TABLE, 0, map[], Free, map[], multiset{}, 0,
                Client(0, None, 0, [], 0, true, true), 0, [], [], {})
  {
  }

  /** `steps` leads from `s` to `s'`. */
  ghost predicate Runs(cfg: Config, s: Sys, steps: seq<Step>, s': Sys)
    decreases |steps|
  {
    if steps == [] then s == s'
    else Enabled(cfg, s, steps[0]) && Runs(cfg, Apply(cfg, s, steps[0]), steps[1..], s')
  }

  /** A `Put` reads the clock no earlier than any reading before it. A reap need not: it reads before it locks. */
  predicate OnTime(s: Sys, step: Step) {
    step.Commit? ==> s.clock <= step.now
  }

  /** A run on a clock that never steps back. Only results about expiry ask for it. */
  ghost predicate Timely(cfg: Config, s: Sys, steps: seq<Step>)
    decreases |steps|
  {
    steps == [] ||
    (Enabled(cfg, s, steps[0]) && OnTime(s, steps[0]) && Timely(cfg, Apply(cfg, s, steps[0]), steps[1..]))
  }

  /** Following one enabled step at a time. */
  lemma {:induction false} Then(cfg: Config, s: Sys, steps: seq<Step>, mid: Sys, step: Step)
    requires Runs(cfg, s, steps, mid) && Enabled(cfg, mid, step)
    ensures Runs(cfg, s, steps + [step], Apply(cfg, mid, step))
    decreases |steps|
  {
    if steps == [] {
      assert [step][1..] == [];
    } else {
      assert (steps + [step])[1..] == steps[1..] + [step];
      Then(cfg, Apply(cfg, s, steps[0]), steps[1..], mid, step);
    }
  }

  lemma {:induction false} RunsJoin(cfg: Config, a: Sys, first: seq<Step>, b: Sys, second: seq<Step>, c: Sys)
    requires Runs(cfg, a, first, b) && Runs(cfg, b, second, c)
    ensures Runs(cfg, a, first + second, c)
    decreases |first|
  {
    if first == [] {
      assert first + second == second;
    } else {
      assert (first + second)[1..] == first[1..] + second;
      RunsJoin(cfg, Apply(cfg, a, first[0]), first[1..], b, second, c);
    }
  }
}
