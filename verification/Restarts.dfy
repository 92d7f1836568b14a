/** Runs over many hub processes on one table: keys never reused, and what a restart gives back. */
module Restarts {
  import opened Clips
  import opened HubSpec
  import opened Tables
  import opened Protocol
  import opened Turnstile
  import opened Memory
  import opened Persistence
  import opened Streams
  import opened Delivery
  import opened RunTheorems

  // ---- fresh keys over any number of hub runs ----

  /** The keys saved along a run, in order. */
  ghost function SavedKeys(cfg: Config, s: Sys, steps: seq<Step>, s': Sys): seq<nat>
    requires Runs(cfg, s, steps, s')
    decreases |steps|
  {
    if steps == [] then []
    else SavedBy(s, steps[0]) + SavedKeys(cfg, Apply(cfg, s, steps[0]), steps[1..], s')
  }

  ghost function SavedBy(s: Sys, step: Step): seq<nat> {
    if step == Save(true) && s.turn.FanOut? && s.turn.put in s.puts
    then [SaveKey(s.table, s.puts[s.turn.put].item)] else []
  }

  /** One hub process: its settings, the clock when it starts, its stream client, what it does, how it ends. */
  datatype Session = Session(cfg: Config, startClock: nat, lastSeq: nat, steps: seq<Step>, end: Sys)

  ghost function Start(t: Table, f: Session): Sys {
    Boot(f.cfg, t, f.startClock, f.lastSeq)
  }

  /** Hub processes run one after another on one table; each may stop anywhere, also in mid-publish. */
  ghost predicate Lifetime(t: Table, sessions: seq<Session>)
    decreases |sessions|
  {
    sessions == [] ||
    var f := sessions[0];
    && 0 < f.cfg.maxHistory
    && Runs(f.cfg, Start(t, f), f.steps, f.end)
    && Lifetime(f.end.table, sessions[1..])
  }

  /** ... on one clock that never steps back, and with no ttl shorter than the one before. */
  ghost predicate Punctual(t: Table, clock: nat, ttl: nat, sessions: seq<Session>)
    decreases |sessions|
  {
    sessions == [] ||
    var f := sessions[0];
    && clock <= f.startClock && ttl <= f.cfg.ttl
    && Timely(f.cfg, Start(t, f), f.steps)
    && Punctual(f.end.table, f.end.clock, f.cfg.ttl, sessions[1..])
  }

  ghost function AllSavedKeys(t: Table, sessions: seq<Session>): seq<nat>
    requires Lifetime(t, sessions)
    decreases |sessions|
  {
    if sessions == [] then []
    else
      var f := sessions[0];
      SavedKeys(f.cfg, Start(t, f), f.steps, f.end) + AllSavedKeys(f.end.table, sessions[1..])
  }

  ghost function LastTable(t: Table, sessions: seq<Session>): Table {
    if sessions == [] then t else sessions[|sessions| - 1].end.table
  }

  /** `keys` climbs strictly from above `lo` and ends at `hi`; it is empty only if the mark did not move. */
  ghost predicate Climbs(keys: seq<nat>, lo: nat, hi: nat) {
    && (forall i, j | 0 <= i < j < |keys| :: keys[i] < keys[j])
    && (forall i | 0 <= i < |keys| :: lo < keys[i])
    && hi == if keys == [] then lo else keys[|keys| - 1]
  }

  lemma ClimbsJoin(a: seq<nat>, b: seq<nat>, lo: nat, mid: nat, hi: nat)
    requires Climbs(a, lo, mid) && Climbs(b, mid, hi)
    ensures Climbs(a + b, lo, hi)
  {
  }

  lemma StepSaves(cfg: Config, s: Sys, step: Step)
    requires Inv(cfg, s) && Enabled(cfg, s, step)
    ensures Climbs(SavedBy(s, step), LoadSeq(s.table), LoadSeq(Apply(cfg, s, step).table))
    ensures SavedBy(s, step) != [] ==> SavedBy(s, step)[0] !in s.table.rows
  {
    hide Ordered, SnapshotInv, MemInv, DeliveryInv, Loadable, FewerRows, LoadSeq, AfterSave, ClientInv;
    if step == Save(true) {
      SaveIsFresh(s);
    } else if !step.Save? {
      OrderedTurn(s);
      TableFrame(cfg, s, step);
      LoadableFewer(s.table, Apply(cfg, s, step).table);
    }
  }

  lemma OrderedTurn(s: Sys)
    requires Ordered(s)
    ensures TurnInv(s)
  {
  }

  lemma {:induction false} RunSaves(cfg: Config, s: Sys, steps: seq<Step>, s': Sys)
    requires Inv(cfg, s) && Runs(cfg, s, steps, s')
    ensures Climbs(SavedKeys(cfg, s, steps, s'), LoadSeq(s.table), LoadSeq(s'.table))
    decreases |steps|
  {
    hide Inv, Climbs, LoadSeq;
    if steps == [] {
      NoClimb(LoadSeq(s.table));
    } else {
      var s1 := Apply(cfg, s, steps[0]);
      StepSaves(cfg, s, steps[0]);
      StepInv(cfg, s, steps[0]);
      RunSaves(cfg, s1, steps[1..], s');
      ClimbsJoin(SavedBy(s, steps[0]), SavedKeys(cfg, s1, steps[1..], s'),
                 LoadSeq(s.table), LoadSeq(s1.table), LoadSeq(s'.table));
    }
  }

  lemma NoClimb(lo: nat)
    ensures Climbs([], lo, lo)
  {
  }

  /** A process leaves its table in the shape the next one needs, whatever the settings and clocks of the two. */
  lemma SessionInv(t: Table, f: Session)
    requires Loadable(t) && 0 < f.cfg.maxHistory && Runs(f.cfg, Start(t, f), f.steps, f.end)
    ensures Inv(f.cfg, Start(t, f)) && Inv(f.cfg, f.end) && Loadable(f.end.table)
  {
    hide Boot, Loadable, Ordered, SnapshotInv, MemInv, DeliveryInv, ClientInv;
    BootInv(f.cfg, t, f.startClock, f.lastSeq);
    RunInv(f.cfg, Start(t, f), f.steps, f.end);
  }

  /**
   Over any sequence of hub processes, each with its own settings and any clock readings, with failed saves, clears,
   expiries and crashes: rows are saved under strictly increasing keys, all above the starting mark, and the sequence
   number a restart loads is the greatest key ever saved.
   */
  lemma {:induction false} KeysNeverReused(t: Table, sessions: seq<Session>)
    requires Loadable(t) && Lifetime(t, sessions)
    ensures Climbs(AllSavedKeys(t, sessions), LoadSeq(t), LoadSeq(LastTable(t, sessions)))
    decreases |sessions|
  {
    hide Inv, Climbs, LoadSeq, Loadable, Start;
    if sessions == [] {
      NoClimb(LoadSeq(t));
    } else {
      var f, rest := sessions[0], sessions[1..];
      SessionInv(t, f);
      RunSaves(f.cfg, Start(t, f), f.steps, f.end);
      StartTable(t, f);
      KeysNeverReused(f.end.table, rest);
      assert LastTable(t, sessions) == LastTable(f.end.table, rest);
      ClimbsJoin(SavedKeys(f.cfg, Start(t, f), f.steps, f.end), AllSavedKeys(f.end.table, rest),
                 LoadSeq(t), LoadSeq(f.end.table), LoadSeq(LastTable(t, sessions)));
    }
  }

  lemma StartTable(t: Table, f: Session)
    ensures Start(t, f).table == t
  {
  }

  /** Every table such a life leaves can be started on again, so every theorem about one run holds of each process. */
  lemma {:induction false} LifetimeInv(t: Table, sessions: seq<Session>)
    requires Loadable(t) && Lifetime(t, sessions)
    ensures forall i | 0 <= i < |sessions| :: Inv(sessions[i].cfg, sessions[i].end)
    decreases |sessions|
  {
    hide Inv, Loadable;
    if sessions != [] {
      SessionInv(t, sessions[0]);
      LifetimeInv(sessions[0].end.table, sessions[1..]);
      assert forall i | 0 < i < |sessions| :: sessions[i] == sessions[1..][i - 1];
    }
  }

  lemma SessionTimed(t: Table, clock: nat, ttl: nat, f: Session)
    requires Loadable(t) && ExpiresBy(t.rows, clock + ttl) && clock <= f.startClock && ttl <= f.cfg.ttl
    requires 0 < f.cfg.maxHistory && Runs(f.cfg, Start(t, f), f.steps, f.end) && Timely(f.cfg, Start(t, f), f.steps)
    ensures TimedInv(f.cfg, f.end) && ExpiresBy(f.end.table.rows, f.end.clock + f.cfg.ttl)
  {
    assert Left(f.cfg, t, f.startClock);
    hide Boot, Loadable, Left, ExpiresBy, Inv, ExpiryInv, Coherent, Later;
    BootTimed(f.cfg, t, f.startClock, f.lastSeq);
    RunTimed(f.cfg, Start(t, f), f.steps, f.end);
  }

  /** ... and so do the theorems about expiry, coherence and restarts, if the life is Punctual. */
  lemma {:induction false} LifetimeTimed(t: Table, clock: nat, ttl: nat, sessions: seq<Session>)
    requires Loadable(t) && ExpiresBy(t.rows, clock + ttl)
    requires Lifetime(t, sessions) && Punctual(t, clock, ttl, sessions)
    ensures forall i | 0 <= i < |sessions| :: TimedInv(sessions[i].cfg, sessions[i].end)
    decreases |sessions|
  {
    hide Inv, TimedInv, Loadable, ExpiresBy, Start;
    if sessions != [] {
      var f := sessions[0];
      SessionInv(t, f);
      SessionTimed(t, clock, ttl, f);
      LifetimeTimed(f.end.table, f.end.clock, f.cfg.ttl, sessions[1..]);
      assert forall i | 0 < i < |sessions| :: sessions[i] == sessions[1..][i - 1];
    }
  }

  // ---- the restart round trip ----

  /**
   A clear comes with nothing left to save, a reap expires nothing that is still to be saved, and no save fails. Puts
   may be waiting or publishing all the while, and the late deletes may come at any time.
   */
  ghost predicate Calm(s: Sys, step: Step) {
    && LogInv(s) && SaveTried(s) <= s.hub.seqNo
    && match step
       case Clear(ok) => ok ==> Unsaved(s) == []
       case Reap(now) => forall x | x in Unsaved(s) :: now <= x.expiresAt
       case Save(ok) => ok
       case _ => true
  }

  ghost predicate CalmRun(cfg: Config, s: Sys, steps: seq<Step>)
    decreases |steps|
  {
    steps == [] ||
    (Enabled(cfg, s, steps[0]) && Calm(s, steps[0]) && CalmRun(cfg, Apply(cfg, s, steps[0]), steps[1..]))
  }

  function Reversed(l: seq<Clip>): seq<Clip> {
    if l == [] then [] else Reversed(l[1..]) + [l[0]]
  }

  lemma {:induction false} ReversedAppend(l: seq<Clip>, x: Clip)
    ensures Reversed(l + [x]) == [x] + Reversed(l)
  {
    if l == [] {
      assert (l + [x])[1..] == [];
    } else {
      assert (l + [x])[1..] == l[1..] + [x];
      ReversedAppend(l[1..], x);
    }
  }

  /** The rows that outlive every delete still to come. */
  ghost function Lasting(rows: map<nat, Clip>, deletes: multiset<nat>): map<nat, Clip> {
    map k | k in rows && Outlives(rows[k], deletes) :: rows[k]
  }

  ghost predicate Outlives(x: Clip, deletes: multiset<nat>) {
    forall t | t in deletes :: t <= x.expiresAt
  }

  /** `h` is the newest `n` of: the items `u` still to be saved, then the lasting rows. */
  ghost predicate Mirror(n: nat, h: seq<Clip>, u: seq<Clip>, rows: map<nat, Clip>, deletes: multiset<nat>) {
    && h == Take(Reversed(u) + NewestFirst(Lasting(rows, deletes)), n)
    && forall i | 0 <= i < |u| :: Outlives(u[i], deletes)
  }

  lemma MirrorCommit(n: nat, h: seq<Clip>, u: seq<Clip>, rows: map<nat, Clip>, deletes: multiset<nat>, x: Clip)
    requires 0 < n && Mirror(n, h, u, rows, deletes) && Outlives(x, deletes)
    ensures Mirror(n, Take([x] + h, n), u + [x], rows, deletes)
  {
    hide NewestFirst, Lasting, Outlives, Take;
    ReversedAppend(u, x);
    TakeTwice(x, Reversed(u), NewestFirst(Lasting(rows, deletes)), n);
  }

  lemma TakeTwice(x: Clip, u: seq<Clip>, l: seq<Clip>, n: nat)
    requires 0 < n
    ensures Take([x] + Take(u + l, n), n) == Take(([x] + u) + l, n)
  {
    assert [x] + (u + l) == ([x] + u) + l;
  }

  lemma MirrorSave(n: nat, h: seq<Clip>, u: seq<Clip>, rows: map<nat, Clip>, deletes: multiset<nat>)
    requires Mirror(n, h, u, rows, deletes) && u != [] && Keyed(rows) && forall k | k in rows :: k < u[0].seqNo
    ensures Mirror(n, h, u[1..], rows[u[0].seqNo := u[0]], deletes)
  {
    hide NewestFirst;
    var lasting := Lasting(rows, deletes);
    assert Outlives(u[0], deletes);
    assert Lasting(rows[u[0].seqNo := u[0]], deletes) == lasting[u[0].seqNo := u[0]];
    NewestFirstAdd(lasting, u[0]);
    assert Reversed(u) + NewestFirst(lasting) == Reversed(u[1..]) + ([u[0]] + NewestFirst(lasting));
  }

  /** The whole list a mirror is cut from loses expiry from front to back. */
  lemma WholeFalls(u: seq<Clip>, rows: map<nat, Clip>, deletes: multiset<nat>, horizon: nat)
    requires Keyed(rows) && ExpiryRises(rows) && Later(rows, u, horizon)
    ensures ExpiryFalls(Reversed(u) + NewestFirst(Lasting(rows, deletes)))
  {
    var r, l := Reversed(u), NewestFirst(Lasting(rows, deletes));
    NewestFirstExpiry(Lasting(rows, deletes));
    NewestFirstLists(Lasting(rows, deletes));
    ReversedAt(u);
    var whole: seq<Clip> := r + l;
    forall i, j | 0 <= i < j < |whole| ensures whole[j].expiresAt <= whole[i].expiresAt {
      if i < |r| <= j {
        assert l[j - |r|] in l;
      }
    }
  }

  lemma {:induction false} ReversedAt(l: seq<Clip>)
    ensures |Reversed(l)| == |l| && forall i | 0 <= i < |l| :: Reversed(l)[i] == l[|l| - 1 - i]
  {
    if l != [] { ReversedAt(l[1..]); }
  }

  lemma MirrorReap(n: nat, h: seq<Clip>, u: seq<Clip>, rows: map<nat, Clip>, deletes: multiset<nat>, now: nat,
                   horizon: nat)
    requires Mirror(n, h, u, rows, deletes) && Keyed(rows) && ExpiryRises(rows) && Later(rows, u, horizon)
    requires forall x | x in u :: now <= x.expiresAt
    ensures Mirror(n, Unexpired(h, now), u, rows, deletes + multiset{now})
  {
    hide NewestFirst, Lasting, Later, ExpiryRises, Take;
    var r, l := Reversed(u), NewestFirst(Lasting(rows, deletes));
    WholeFalls(u, rows, deletes, horizon);
    TakeUnexpired(r + l, n, now);
    ReversedAt(u);
    UnexpiredJoin(r, l, now);
    NoneExpired(r, now);
    LastingKeyed(rows, deletes);
    LastingReap(rows, deletes, now);
    NewestFirstExpire(Lasting(rows, deletes), now);
  }

  lemma LastingKeyed(rows: map<nat, Clip>, deletes: multiset<nat>)
    requires Keyed(rows)
    ensures Keyed(Lasting(rows, deletes))
  {
  }

  lemma LastingReap(rows: map<nat, Clip>, deletes: multiset<nat>, now: nat)
    ensures Lasting(rows, deletes + multiset{now}) == LiveRows(Lasting(rows, deletes), now)
    ensures forall x: Clip :: Outlives(x, deletes + multiset{now}) <==> Outlives(x, deletes) && now <= x.expiresAt
  {
    forall x: Clip ensures Outlives(x, deletes + multiset{now}) <==> Outlives(x, deletes) && now <= x.expiresAt {
      assert now in deletes + multiset{now};
      assert forall t | t in deletes :: t in deletes + multiset{now};
    }
  }

  lemma MirrorExpire(n: nat, h: seq<Clip>, u: seq<Clip>, rows: map<nat, Clip>, deletes: multiset<nat>, t: nat)
    requires Mirror(n, h, u, rows, deletes) && t in deletes
    ensures Mirror(n, h, u, LiveRows(rows, t), deletes - multiset{t})
  {
    forall x: Clip ensures Outlives(x, deletes) <==> Outlives(x, deletes - multiset{t}) && t <= x.expiresAt {
      assert forall d | d in deletes :: d == t || d in deletes - multiset{t};
    }
    assert Lasting(LiveRows(rows, t), deletes - multiset{t}) == Lasting(rows, deletes);
  }

  /** Memory mirrors the table in state `s`, and no save has failed. */
  ghost predicate Mirrors(cfg: Config, s: Sys) {
    && LogInv(s) && SaveTried(s) <= s.hub.seqNo
    && Mirror(cfg.maxHistory, s.hub.history, Unsaved(s), s.table.rows, s.deletes)
    && AllSaved(s)
  }

  lemma MirrorStart(n: nat, rows: map<nat, Clip>)
    ensures Mirror(n, Take(NewestFirst(rows), n), [], rows, multiset{})
  {
    hide NewestFirst;
    assert Lasting(rows, multiset{}) == rows;
    assert Reversed([]) + NewestFirst(rows) == NewestFirst(rows);
  }

  lemma BootMirrors(cfg: Config, t: Table, clock: nat, lastSeq: nat)
    ensures Mirrors(cfg, Boot(cfg, t, clock, lastSeq))
  {
    hide Mirror, NewestFirst, LoadSeq;
    MirrorStart(cfg.maxHistory, t.rows);
  }

  lemma CommitMirrors(cfg: Config, s: Sys, p: nat, input: PutInput, now: nat)
    requires Ordered(s) && 0 < cfg.maxHistory && ExpiryInv(cfg, s) && Mirrors(cfg, s) && p !in s.puts && s.clock <= now
    ensures Mirrors(cfg, AfterPut(cfg, s, p, input, now))
  {
    if !IsDuplicate(cfg, s.hub, input) {
      CommitUnsaved(cfg, s, p, input, now);
      MirrorCommit(cfg.maxHistory, s.hub.history, Unsaved(s), s.table.rows, s.deletes, NewClip(cfg, s.hub, input, now));
    }
  }

  lemma SaveMirrors(cfg: Config, s: Sys, ok: bool)
    requires Ordered(s) && TableInv(s) && Mirrors(cfg, s) && Enabled(cfg, s, Save(ok))
    ensures Mirrors(cfg, Apply(cfg, s, Save(ok))) <==> ok
  {
    SaveIsFresh(s);
    SaveTable(cfg, s, ok);
    MirrorSave(cfg.maxHistory, s.hub.history, Unsaved(s), s.table.rows, s.deletes);
  }

  lemma ReapMirrors(cfg: Config, s: Sys, now: nat)
    requires TableInv(s) && StoreInv(cfg, s) && Mirrors(cfg, s)
    ensures Mirrors(cfg, Apply(cfg, s, Reap(now))) <==> Calm(s, Reap(now))
  {
    hide Unsaved, Later, ExpiresBy, LoadSeq, Loadable, Unexpired, NewestFirst, Lasting, Outlives, LogInv;
    SameUnsaved(s, Apply(cfg, s, Reap(now)));
    KeyedRises(cfg, s);
    if Calm(s, Reap(now)) {
      MirrorReap(cfg.maxHistory, s.hub.history, Unsaved(s), s.table.rows, s.deletes, now, s.clock + cfg.ttl);
    } else {
      var u := Unsaved(s);
      var x :| x in u && !(now <= x.expiresAt);
      var i :| 0 <= i < |u| && u[i] == x;
      LastingReap(s.table.rows, s.deletes, now);
    }
  }

  lemma SameUnsaved(s: Sys, s': Sys)
    requires LogInv(s) && SaveTried(s) <= s.hub.seqNo
    requires s'.log == s.log && s'.base == s.base && s'.published == s.published && s'.hub.seqNo == s.hub.seqNo
    requires s'.turn == s.turn
    ensures LogInv(s') && SaveTried(s') == SaveTried(s) && Unsaved(s') == Unsaved(s)
  {
  }

  lemma KeyedRises(cfg: Config, s: Sys)
    requires TableInv(s) && StoreInv(cfg, s)
    ensures Keyed(s.table.rows) && ExpiryRises(s.table.rows)
  {
  }

  lemma ClearMirrors(cfg: Config, s: Sys)
    requires 0 < cfg.maxHistory && Mirrors(cfg, s)
    ensures Mirrors(cfg, Apply(cfg, s, Clear(true))) <==> Unsaved(s) == []
  {
    hide Unsaved, LogInv;
    SameUnsaved(s, Apply(cfg, s, Clear(true)));
    ClearedMirror(cfg.maxHistory, Unsaved(s), s.deletes);
  }

  lemma ClearedMirror(n: nat, u: seq<Clip>, deletes: multiset<nat>)
    requires 0 < n && forall i | 0 <= i < |u| :: Outlives(u[i], deletes)
    ensures Mirror(n, [], u, map[], deletes) <==> u == []
  {
    hide Outlives;
    assert Lasting(map[], deletes) == map[];
    assert Reversed(u) + [] == Reversed(u);
    ReversedAt(u);
  }

  /** The fields the mirror speaks of. */
  ghost predicate SameMirror(s: Sys, s': Sys) {
    && s'.hub.history == s.hub.history && s'.log == s.log && s'.base == s.base && SaveTried(s') == SaveTried(s)
    && s'.table == s.table && s'.deletes == s.deletes && s'.failed == s.failed
  }

  lemma OtherMirrors(cfg: Config, s: Sys, step: Step)
    requires TurnInv(s) && Enabled(cfg, s, step)
    requires !step.Commit? && !step.Save? && !step.Reap? && !step.Expire? && step != Clear(true)
    ensures SameMirror(s, Apply(cfg, s, step))
  {
    if IsConnStep(step) { ConnStepFrame(cfg, s, step); }
  }

  lemma SameMirrors(cfg: Config, s: Sys, s': Sys)
    requires Mirrors(cfg, s) && SameMirror(s, s') && LogInv(s')
    ensures Mirrors(cfg, s')
  {
    hide Mirror, CountsUpFrom;
  }

  lemma ExpireMirrors(cfg: Config, s: Sys, t: nat)
    requires Mirrors(cfg, s) && Enabled(cfg, s, Expire(t))
    ensures Mirrors(cfg, Apply(cfg, s, Expire(t)))
  {
    MirrorExpire(cfg.maxHistory, s.hub.history, Unsaved(s), s.table.rows, s.deletes, t);
  }

  lemma RestMirrors(cfg: Config, s: Sys, step: Step)
    requires Ordered(s) && Mirrors(cfg, s) && Enabled(cfg, s, step)
    requires !step.Commit? && !step.Save? && !step.Reap? && !step.Expire? && step != Clear(true)
    ensures Mirrors(cfg, Apply(cfg, s, step))
  {
    OtherMirrors(cfg, s, step);
    StepOrdered(cfg, s, step);
    SameMirrors(cfg, s, Apply(cfg, s, step));
  }

  /** A step taken on time keeps memory mirroring the table if and only if it is Calm. */
  lemma StepMirrors(cfg: Config, s: Sys, step: Step)
    requires TimedInv(cfg, s) && Mirrors(cfg, s) && Enabled(cfg, s, step) && OnTime(s, step)
    ensures Mirrors(cfg, Apply(cfg, s, step)) <==> Calm(s, step)
  {
    hide Mirror, Unsaved, InFlightInv, TurnInv, SnapshotInv, Sane, DeliveryInv, ClientInv, ExpiryInv, StoreInv;
    if step.Commit? {
      CommitMirrors(cfg, s, step.put, step.input, step.now);
    } else if step.Save? {
      SaveMirrors(cfg, s, step.ok);
    } else if step.Reap? {
      ReapMirrors(cfg, s, step.now);
    } else if step.Expire? {
      ExpireMirrors(cfg, s, step.before);
    } else if step == Clear(true) {
      ClearMirrors(cfg, s);
    } else {
      RestMirrors(cfg, s, step);
    }
  }

  lemma {:induction false} CalmMirrors(cfg: Config, s: Sys, steps: seq<Step>, s': Sys)
    requires TimedInv(cfg, s) && Mirrors(cfg, s)
    requires Runs(cfg, s, steps, s') && Timely(cfg, s, steps) && CalmRun(cfg, s, steps)
    ensures TimedInv(cfg, s') && Mirrors(cfg, s')
    decreases |steps|
  {
    hide TimedInv, Mirrors, Calm;
    if steps != [] {
      StepMirrors(cfg, s, steps[0]);
      StepTimed(cfg, s, steps[0]);
      CalmMirrors(cfg, Apply(cfg, s, steps[0]), steps[1..], s');
    }
  }

  lemma NothingUnsaved(s: Sys)
    requires Ordered(s) && s.puts == map[]
    ensures SaveTried(s) == s.hub.seqNo && Unsaved(s) == []
  {
    if s.published < s.hub.seqNo { NothingUnowned(s); }
  }

  /** Listing more rows changes nothing in the first `n` if these are listed anyway. */
  lemma {:induction false} FirstRows(rows: map<nat, Clip>, fewer: map<nat, Clip>, n: nat)
    requires Keyed(rows) && forall k | k in fewer :: k in rows && fewer[k] == rows[k]
    requires forall x | x in Take(NewestFirst(rows), n) :: x.seqNo in fewer
    ensures Take(NewestFirst(fewer), n) == Take(NewestFirst(rows), n)
    decreases n
  {
    hide NewestFirst, MaxKey;
    if rows == map[] {
      assert fewer == map[];
    } else if n > 0 {
      var m := MaxKey(rows);
      NewestHead(rows);
      var l := NewestFirst(rows);
      assert Take(l, n)[0] == rows[m] && Take(l, n)[0] in Take(l, n);
      MaxKeyIs(fewer, m);
      NewestHead(fewer);
      var rest := NewestFirst(rows - {m});
      forall x | x in Take(rest, n - 1) ensures x.seqNo in fewer - {m} {
        TakeBehind(rows[m], rest, n, x);
        NewestFirstLists(rows - {m});
        assert x in rest;
      }
      FirstRows(rows - {m}, fewer - {m}, n - 1);
      TakeOneMore(rows[m], rest, NewestFirst(fewer - {m}), n);
    }
  }

  lemma NewestHead(rows: map<nat, Clip>)
    requires rows != map[]
    ensures var m := MaxKey(rows);
            m in rows && KeysAtMost(rows, m) && NewestFirst(rows) == [rows[m]] + NewestFirst(rows - {m})
  {
  }

  lemma TakeBehind(first: Clip, rest: seq<Clip>, n: nat, x: Clip)
    requires n > 0 && x in Take(rest, n - 1)
    ensures x in Take([first] + rest, n) && x in rest
  {
    var i :| 0 <= i < |Take(rest, n - 1)| && Take(rest, n - 1)[i] == x;
    assert Take([first] + rest, n)[i + 1] == x;
  }

  lemma TakeOneMore(first: Clip, a: seq<Clip>, b: seq<Clip>, n: nat)
    requires n > 0 && Take(a, n - 1) == Take(b, n - 1)
    ensures Take([first] + a, n) == Take([first] + b, n)
  {
    assert Take([first] + a, n) == [first] + Take(a, n - 1);
    assert Take([first] + b, n) == [first] + Take(b, n - 1);
  }

  /** The newest rows are the newest lasting ones exactly if all of them last. */
  lemma LastingFirst(rows: map<nat, Clip>, deletes: multiset<nat>, n: nat)
    requires Keyed(rows)
    ensures Take(NewestFirst(Lasting(rows, deletes)), n) == Take(NewestFirst(rows), n)
            <==> forall x | x in Take(NewestFirst(rows), n) :: Outlives(x, deletes)
  {
    hide NewestFirst, Outlives;
    var lasting := Lasting(rows, deletes);
    NewestFirstLists(rows);
    NewestFirstLists(lasting);
    forall x | x in Take(NewestFirst(lasting), n) ensures Outlives(x, deletes) {
      assert x in NewestFirst(lasting);
    }
    if forall x | x in Take(NewestFirst(rows), n) :: Outlives(x, deletes) {
      forall x | x in Take(NewestFirst(rows), n) ensures x.seqNo in lasting {
        assert x in NewestFirst(rows);
      }
      FirstRows(rows, lasting, n);
    }
  }

  lemma QuietMirror(cfg: Config, s: Sys)
    requires Ordered(s) && TableInv(s) && Mirrors(cfg, s) && s.puts == map[]
    ensures s.hub.history == Take(NewestFirst(Lasting(s.table.rows, s.deletes)), cfg.maxHistory)
    ensures s.hub.seqNo == LoadSeq(s.table) && Keyed(s.table.rows)
  {
    NothingUnsaved(s);
    var l := NewestFirst(Lasting(s.table.rows, s.deletes));
    assert Reversed([]) + l == l;
  }

  /** Whether a restart gives back the memory, read off the state it was stopped in. */
  lemma BootGivesBack(cfg: Config, s: Sys, clock: nat, lastSeq: nat)
    requires Ordered(s) && TableInv(s) && ExpiryInv(cfg, s) && Mirrors(cfg, s) && s.puts == map[]
    ensures Boot(cfg, s.table, clock, lastSeq).hub == s.hub
            <==> forall x | x in Take(NewestFirst(s.table.rows), cfg.maxHistory) :: Outlives(x, s.deletes)
  {
    QuietMirror(cfg, s);
    LastingFirst(s.table.rows, s.deletes, cfg.maxHistory);
  }

  /**
   The round trip: stopped with no call in flight, after a Calm run on a clock that never steps back, a hub restarted
   on its table has exactly the memory it had if and only if none of the newest rows is due to an outstanding delete;
   so it has if no delete is outstanding.
   */
  lemma RestartGivesBack(cfg: Config, t: Table, clock: nat, lastSeq: nat, steps: seq<Step>, s: Sys,
                         clock': nat, lastSeq': nat)
    requires ReachedOnTime(cfg, t, clock, lastSeq, steps, s) && CalmRun(cfg, Boot(cfg, t, clock, lastSeq), steps)
    requires s.puts == map[]
    ensures Boot(cfg, s.table, clock', lastSeq').hub == s.hub
            <==> forall x | x in Take(NewestFirst(s.table.rows), cfg.maxHistory) :: Outlives(x, s.deletes)
    ensures s.deletes == multiset{} ==> Boot(cfg, s.table, clock', lastSeq').hub == s.hub
  {
    hide NewestFirst, LoadSeq, Loadable, Left, MemInv, DeliveryInv, SnapshotInv, ClientInv, StoreInv, Coherent, Mirrors;
    BootTimed(cfg, t, clock, lastSeq);
    BootMirrors(cfg, t, clock, lastSeq);
    CalmMirrors(cfg, Boot(cfg, t, clock, lastSeq), steps, s);
    BootGivesBack(cfg, s, clock', lastSeq');
  }

  // ---- why the run has to be calm, and why only saved numbers are never reused ----

  /** A clear that overtakes an in-flight save: memory ends empty, the row stays, and a restart brings it back. */
  lemma ClearRaceLeavesRow(cfg: Config, input: PutInput)
    requires 0 < cfg.maxHistory
    ensures exists steps, s ::
              && Runs(cfg, Boot(cfg, EMPTY_TABLE, 0, 0), steps, s)
              && s.puts == map[] && s.deletes == multiset{}
              && s.hub.history == [] && 1 in s.table.rows
  {
    BootEmpty(cfg);
    hide Boot, Runs, NewestFirst, MaxKey;
    var s0 := Boot(cfg, EMPTY_TABLE, 0, 0);
    var s1 := Apply(cfg, s0, Commit(0, input, 0));
    var s2 := Apply(cfg, s1, Enter(0));
    var s3 := Apply(cfg, s2, Clear(true));
    assert s2.turn.todo == {};
    var s4 := Apply(cfg, s3, Save(true));
    var s5 := Apply(cfg, s4, Advance);
    Then(cfg, s0, [], s0, Commit(0, input, 0));
    var steps := [] + [Commit(0, input, 0)];
    Then(cfg, s0, steps, s1, Enter(0));
    steps := steps + [Enter(0)];
    Then(cfg, s0, steps, s2, Clear(true));
    steps := steps + [Clear(true)];
    Then(cfg, s0, steps, s3, Save(true));
    steps := steps + [Save(true)];
    Then(cfg, s0, steps, s4, Advance);
  }

  lemma SubscribedThenCommitted(cfg: Config, input: PutInput) returns (steps: seq<Step>, s: Sys)
    requires 0 < cfg.maxHistory
    ensures Runs(cfg, Boot(cfg, EMPTY_TABLE, 0, 0), steps, s)
    ensures s.table == EMPTY_TABLE && s.published == 0 && s.turn == Free && s.clock == 0
    ensures s.puts == map[0 := InFlight(NewClip(cfg, HubState(None, [], 0), input, 0), Arriving)]
    ensures s.conns == map[0 := Conn(None, true, true, Streaming(0), [], 0, [], [], 0, [], [], [], true)]
  {
    var s0 := Boot(cfg, EMPTY_TABLE, 0, 0);
    var s1 := Apply(cfg, s0, Subscribe(0, None));
    var s2 := Apply(cfg, s1, Read(0));
    s := Apply(cfg, s2, Commit(0, input, 0));
    Then(cfg, s0, [], s0, Subscribe(0, None));
    steps := [] + [Subscribe(0, None)];
    Then(cfg, s0, steps, s1, Read(0));
    steps := steps + [Read(0)];
    Then(cfg, s0, steps, s2, Commit(0, input, 0));
    steps := steps + [Commit(0, input, 0)];
  }

  // ---- which numbers a restart gives out again ----

  /** Started on `t`, a hub can come to `s'`, having given the number `n` to a clip. */
  ghost predicate GivesOut(cfg: Config, t: Table, clock: nat, lastSeq: nat, steps: seq<Step>, s': Sys, n: nat) {
    Runs(cfg, Boot(cfg, t, clock, lastSeq), steps, s') && Has(s'.log, n)
  }

  /** `k` more commits, each of a MIME type the one before did not have. */
  lemma {:induction false} Commits(cfg: Config, s: Sys, k: nat) returns (steps: seq<Step>, s': Sys)
    requires LogInv(s) && 0 < k && forall p | p in s.puts :: p < s.hub.seqNo
    ensures Runs(cfg, s, steps, s') && LogInv(s') && forall p | p in s'.puts :: p < s'.hub.seqNo
    ensures s'.hub.seqNo == s.hub.seqNo + k && Has(s'.log, s'.hub.seqNo)
    ensures s'.hub.current.Some?
  {
    var before, mid := [], s;
    if k > 1 {
      before, mid := Commits(cfg, s, k - 1);
    }
    var mime := if mid.hub.current.Some? then mid.hub.current.value.mime + "+" else "";
    var step := Commit(mid.hub.seqNo, PutInput(mime, [], [], ""), 0);
    assert !IsDuplicate(cfg, mid.hub, step.input);
    CommitLog(cfg, mid, mid.hub.seqNo, step.input, 0);
    Then(cfg, s, before, mid, step);
    steps, s' := before + [step], Apply(cfg, mid, step);
    assert s'.log[|s'.log| - 1] in s'.log;
  }

  /**
   Whatever has been delivered by then: a number is given to a clip by some run of the next process if and only if it
   lies above the greatest number ever saved. While saves succeed, that is the last number whose save was attempted.
   */
  lemma ReusedExactly(cfg: Config, t: Table, clock: nat, lastSeq: nat, steps: seq<Step>, s: Sys, n: nat,
                      cfg': Config, clock': nat, lastSeq': nat)
    requires Reached(cfg, t, clock, lastSeq, steps, s) && 0 < cfg'.maxHistory
    ensures (exists more, s' :: GivesOut(cfg', s.table, clock', lastSeq', more, s', n)) <==> LoadSeq(s.table) < n
    ensures AllSaved(s) ==> LoadSeq(s.table) == SaveTried(s)
  {
    hide Boot, Loadable, LoadSeq, InFlightInv, TurnInv, SnapshotInv, MemInv, DeliveryInv, ClientInv, Runs, Has;
    ReachedInv(cfg, t, clock, lastSeq, steps, s);
    var s0 := Boot(cfg', s.table, clock', lastSeq');
    BootCounts(cfg', s.table, clock', lastSeq');
    BootInv(cfg', s.table, clock', lastSeq');
    if LoadSeq(s.table) < n {
      var more, s' := Commits(cfg', s0, n - LoadSeq(s.table));
      assert GivesOut(cfg', s.table, clock', lastSeq', more, s', n);
    }
    forall more, s' | GivesOut(cfg', s.table, clock', lastSeq', more, s', n) ensures LoadSeq(s.table) < n {
      RunBoot(cfg', s0, more, s');
      RunInv(cfg', s0, more, s');
      LogAbove(s', n);
    }
  }

  lemma BootCounts(cfg: Config, t: Table, clock: nat, lastSeq: nat)
    ensures var s := Boot(cfg, t, clock, lastSeq); s.base == s.hub.seqNo == LoadSeq(t) && s.puts == map[]
  {
    hide LoadSeq, NewestFirst;
  }

  lemma LogAbove(s: Sys, n: nat)
    requires LogInv(s) && Has(s.log, n)
    ensures s.base < n
  {
  }

  /** Delivered before it is saved: after a crash in between, the next hub gives the same number to another clip. */
  lemma CrashReusesDeliveredNumber(cfg: Config, input: PutInput, other: PutInput)
    requires 0 < cfg.maxHistory
    ensures exists steps, s ::
              && Runs(cfg, Boot(cfg, EMPTY_TABLE, 0, 0), steps, s)
              && 0 in s.conns && |s.conns[0].sent| == 1
              && s.conns[0].sent[0] == NewClip(cfg, HubState(None, [], 0), input, 0)
              && NewClip(cfg, Boot(cfg, s.table, s.clock, 1).hub, other, 0).seqNo == s.conns[0].sent[0].seqNo
  {
    hide Runs;
    var s0 := Boot(cfg, EMPTY_TABLE, 0, 0);
    var steps, s3 := SubscribedThenCommitted(cfg, input);
    var s4 := Apply(cfg, s3, Enter(0));
    var s5 := Apply(cfg, s4, Deliver(0));
    var s6 := Apply(cfg, s5, Forward(0));
    Then(cfg, s0, steps, s3, Enter(0));
    steps := steps + [Enter(0)];
    Then(cfg, s0, steps, s4, Deliver(0));
    steps := steps + [Deliver(0)];
    Then(cfg, s0, steps, s5, Forward(0));
    steps := steps + [Forward(0)];
    assert LoadSeq(s6.table) == 0;
  }
}
