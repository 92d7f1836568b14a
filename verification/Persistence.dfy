/** Memory against the table: fresh keys in every run, and cache coherence on a clock that never steps back. */
module Persistence {
  import opened Clips
  import opened HubSpec
  import opened Tables
  import opened Protocol
  import opened Turnstile
  import opened Memory

  // ---- facts about rows and the items still to be saved ----

  /** Unsaved items expire no earlier than saved ones, in commit order, and not beyond `horizon`. */
  ghost predicate Later(rows: map<nat, Clip>, u: seq<Clip>, horizon: nat) {
    && (forall i, j | 0 <= i < j < |u| :: u[i].expiresAt <= u[j].expiresAt)
    && (forall k, i | k in rows && 0 <= i < |u| :: rows[k].expiresAt <= u[i].expiresAt)
    && (forall i | 0 <= i < |u| :: u[i].expiresAt <= horizon)
  }

  lemma LaterCommit(rows: map<nat, Clip>, u: seq<Clip>, x: Clip, horizon: nat)
    requires Later(rows, u, horizon) && ExpiresBy(rows, horizon) && horizon <= x.expiresAt
    ensures Later(rows, u + [x], x.expiresAt) && ExpiresBy(rows, x.expiresAt)
  {
  }

  lemma LaterSave(rows: map<nat, Clip>, u: seq<Clip>, key: nat, horizon: nat)
    requires Later(rows, u, horizon) && u != [] && ExpiresBy(rows, horizon) && forall k | k in rows :: k < key
    ensures Later(rows[key := u[0]], u[1..], horizon) && ExpiresBy(rows[key := u[0]], horizon)
  {
  }

  /** Saving under a key above the mark keeps the table as a hub would leave it, and replaces no row. */
  lemma LoadableSave(t: Table, x: Clip)
    requires Loadable(t) && LoadSeq(t) < x.seqNo
    ensures var t' := AfterSave(t, x);
            && Loadable(t') && t'.rows == t.rows[x.seqNo := x] && LoadSeq(t') == x.seqNo
            && x.seqNo !in t.rows && forall k | k in t.rows :: k < x.seqNo
  {
    assert x.(seqNo := x.seqNo) == x;
  }

  /** Rows have gone at most, and the mark has stayed. */
  ghost predicate FewerRows(t: Table, t': Table) {
    t'.mark == t.mark && forall k | k in t'.rows :: k in t.rows && t'.rows[k] == t.rows[k]
  }

  lemma LoadableFewer(t: Table, t': Table)
    requires Loadable(t) && FewerRows(t, t')
    ensures Loadable(t') && LoadSeq(t') == LoadSeq(t)
  {
    if t.mark.None? {
      assert t'.rows == map[];
    }
  }

  // ---- the invariants ----

  /** The items committed whose save has not been attempted yet, oldest first. */
  ghost function Unsaved(s: Sys): seq<Clip>
    requires LogInv(s) && SaveTried(s) <= s.hub.seqNo
  {
    s.log[SaveTried(s) - s.base..]
  }

  /** Whatever the clock and the ttl were. */
  ghost predicate TableInv(s: Sys) {
    && LogInv(s) && SaveTried(s) <= s.hub.seqNo
    && Loadable(s.table)
    && LoadSeq(s.table) <= SaveTried(s)
    && (AllSaved(s) ==> LoadSeq(s.table) == SaveTried(s))
    && (forall k | k in s.failed :: k <= SaveTried(s) && k !in s.table.rows)
  }

  /** On a clock that never steps back, and no ttl shorter than the one before. */
  ghost predicate StoreInv(cfg: Config, s: Sys) {
    && LogInv(s) && SaveTried(s) <= s.hub.seqNo
    && ExpiresBy(s.table.rows, s.clock + cfg.ttl)
    && Later(s.table.rows, Unsaved(s), s.clock + cfg.ttl)
  }

  /** The row of `x` is in the table, as `x` itself. */
  ghost predicate HasRow(t: Table, x: Clip) {
    x.seqNo in t.rows && t.rows[x.seqNo] == x
  }

  /** Every remembered item whose save has been tried and has not failed has its identical row. */
  ghost predicate Coherent(s: Sys) {
    forall x | x in s.hub.history && x.seqNo <= SaveTried(s) && x.seqNo !in s.failed :: HasRow(s.table, x)
  }

  lemma BootTable(cfg: Config, t: Table, clock: nat, lastSeq: nat)
    requires Loadable(t)
    ensures TableInv(Boot(cfg, t, clock, lastSeq))
  {
    hide Sound, MaxKey, NewestFirst;
  }

  lemma BootStore(cfg: Config, t: Table, clock: nat, lastSeq: nat)
    requires Left(cfg, t, clock)
    ensures StoreInv(cfg, Boot(cfg, t, clock, lastSeq))
  {
    hide NewestFirst, LoadSeq, ExpiresBy;
    assert Later(t.rows, [], clock + cfg.ttl);
  }

  lemma BootCoherent(cfg: Config, t: Table, clock: nat, lastSeq: nat)
    requires 0 < cfg.maxHistory && Loadable(t)
    ensures Coherent(Boot(cfg, t, clock, lastSeq)) && Behind(Boot(cfg, t, clock, lastSeq))
  {
    hide NewestFirst, LoadSeq;
    BootMem(cfg, t, clock, lastSeq);
  }

  // ---- any step, at any clock reading ----

  /** The row a publisher saves lies above the high-water mark, so no row is ever replaced. */
  lemma SaveIsFresh(s: Sys)
    requires Ordered(s) && TableInv(s) && s.turn.FanOut?
    ensures s.turn.put in s.puts
    ensures var item := s.puts[s.turn.put].item;
            && SaveKey(s.table, item) == item.seqNo == s.published + 1
            && Unsaved(s) != [] && item == Unsaved(s)[0]
            && LoadSeq(s.table) < item.seqNo
            && item.seqNo !in s.table.rows
            && LoadSeq(AfterSave(s.table, item)) == item.seqNo
  {
    TurnItem(s);
    hide Ordered, Loadable, LoadSeq;
    LoadableSave(s.table, s.puts[s.turn.put].item);
  }

  lemma SaveTable(cfg: Config, s: Sys, ok: bool)
    requires Ordered(s) && TableInv(s) && Enabled(cfg, s, Save(ok))
    ensures var s' := Apply(cfg, s, Save(ok));
            && TableInv(s') && Unsaved(s') == Unsaved(s)[1..]
            && s'.table == (if ok then AfterSave(s.table, Unsaved(s)[0]) else s.table)
            && (ok ==> s'.table.rows == s.table.rows[Unsaved(s)[0].seqNo := Unsaved(s)[0]])
            && forall k | k in s.table.rows :: k < Unsaved(s)[0].seqNo
  {
    hide InFlightInv, TurnInv, CountsUpFrom, Loadable, LoadSeq, AfterSave, SaveKey;
    SaveIsFresh(s);
    LoadableSave(s.table, s.puts[s.turn.put].item);
    assert Unsaved(Apply(cfg, s, Save(ok))) == Unsaved(s)[1..];
  }

  /** A step that is no save drops rows at most, and no save is attempted by it. */
  lemma TableFrame(cfg: Config, s: Sys, step: Step)
    requires TurnInv(s) && Enabled(cfg, s, step) && !step.Save?
    ensures var s' := Apply(cfg, s, step);
            && FewerRows(s.table, s'.table) && SaveTried(s') == SaveTried(s) && s'.failed == s.failed
            && s.hub.seqNo <= s'.hub.seqNo
  {
    if IsConnStep(step) {
      ConnStepFrame(cfg, s, step);
    } else {
      match step
      case Commit(p, input, now) => PutTable(cfg, s, p, input, now);
      case Enter(p) => EnterTable(s, p);
      case Deliver(c) => hide Offer;
      case Advance => AdvanceTable(s);
      case _ => hide AfterEnter, AfterAdvance, AfterPut, AfterDeliver;
    }
  }

  lemma PutTable(cfg: Config, s: Sys, p: nat, input: PutInput, now: nat)
    ensures var s' := AfterPut(cfg, s, p, input, now);
            && s'.table == s.table && SaveTried(s') == SaveTried(s) && s'.failed == s.failed
            && s.hub.seqNo <= s'.hub.seqNo
  {
  }

  lemma EnterTable(s: Sys, p: nat)
    requires p in s.puts && s.turn.Free?
    ensures var s' := AfterEnter(s, p);
            && s'.table == s.table && SaveTried(s') == SaveTried(s) && s'.failed == s.failed && s'.hub == s.hub
  {
  }

  lemma AdvanceTable(s: Sys)
    requires TurnInv(s) && s.turn.Stored? && s.turn.put in s.puts
    ensures var s' := AfterAdvance(s);
            && s'.table == s.table && SaveTried(s') == SaveTried(s) && s'.failed == s.failed && s'.hub == s.hub
  {
  }

  lemma StepTable(cfg: Config, s: Sys, step: Step)
    requires Ordered(s) && TableInv(s) && Enabled(cfg, s, step)
    ensures TableInv(Apply(cfg, s, step))
  {
    if step.Save? {
      SaveTable(cfg, s, step.ok);
    } else {
      StepOrdered(cfg, s, step);
      TableFrame(cfg, s, step);
      LoadableFewer(s.table, Apply(cfg, s, step).table);
      hide FewerRows, Loadable, LoadSeq, Apply, Enabled, InFlightInv, TurnInv;
    }
  }

  // ---- what each step adds to, and takes from, table and memory ----

  lemma CommitUnsaved(cfg: Config, s: Sys, p: nat, input: PutInput, now: nat)
    requires LogInv(s) && SaveTried(s) <= s.hub.seqNo && p !in s.puts && !IsDuplicate(cfg, s.hub, input)
    ensures var s' := AfterPut(cfg, s, p, input, now);
            LogInv(s') && SaveTried(s') == SaveTried(s) && Unsaved(s') == Unsaved(s) + [NewClip(cfg, s.hub, input, now)]
  {
    var item, lo := NewClip(cfg, s.hub, input, now), SaveTried(s) - s.base;
    assert (s.log + [item])[lo..] == s.log[lo..] + [item];
  }

  lemma CommitStore(cfg: Config, s: Sys, p: nat, input: PutInput, now: nat)
    requires StoreInv(cfg, s) && p !in s.puts && s.clock <= now
    ensures StoreInv(cfg, AfterPut(cfg, s, p, input, now))
  {
    if !IsDuplicate(cfg, s.hub, input) {
      CommitUnsaved(cfg, s, p, input, now);
      LaterCommit(s.table.rows, Unsaved(s), NewClip(cfg, s.hub, input, now), s.clock + cfg.ttl);
      hide Later, ExpiresBy, Unsaved, LogInv;
    }
  }

  lemma CommitCoherent(cfg: Config, s: Sys, p: nat, input: PutInput, now: nat)
    requires LogInv(s) && SaveTried(s) <= s.hub.seqNo && Coherent(s)
    ensures Coherent(AfterPut(cfg, s, p, input, now))
  {
    hide HasRow;
    TakeOf(NewClip(cfg, s.hub, input, now), s.hub.history, cfg.maxHistory);
  }

  lemma SaveStore(cfg: Config, s: Sys, ok: bool)
    requires Ordered(s) && TableInv(s) && StoreInv(cfg, s) && Enabled(cfg, s, Save(ok))
    ensures StoreInv(cfg, Apply(cfg, s, Save(ok)))
  {
    hide Ordered, Later, ExpiresBy, Unsaved, AfterSave, LoadSeq, Loadable;
    SaveIsFresh(s);
    SaveTable(cfg, s, ok);
    var u := Unsaved(s);
    LaterSave(s.table.rows, u, u[0].seqNo, s.clock + cfg.ttl);
    if !ok { LaterTail(s.table.rows, u, s.clock + cfg.ttl); }
    assert Apply(cfg, s, Save(ok)).clock == s.clock;
  }

  lemma LaterTail(rows: map<nat, Clip>, u: seq<Clip>, horizon: nat)
    requires Later(rows, u, horizon) && u != []
    ensures Later(rows, u[1..], horizon)
  {
  }

  lemma SaveCoherent(cfg: Config, s: Sys, ok: bool)
    requires Ordered(s) && MemInv(cfg, s) && TableInv(s) && Coherent(s) && Enabled(cfg, s, Save(ok))
    ensures Coherent(Apply(cfg, s, Save(ok)))
  {
    var s' := Apply(cfg, s, Save(ok));
    SaveIsFresh(s);
    SaveTable(cfg, s, ok);
    TurnItem(s);
    hide Ordered, TableInv, AfterSave, Sane, Unsaved;
    forall x | x in s.hub.history && x.seqNo <= s.published + 1 && x.seqNo !in s'.failed ensures HasRow(s'.table, x) {
      assert Known(s, x);
      assert x.seqNo <= s.published ==> HasRow(s.table, x);
    }
  }

  /** A step that at most drops rows and memory, keeping the rows of what stays in memory. */
  ghost predicate OnlyDrops(s: Sys, s': Sys) {
    && s'.log == s.log && s'.base == s.base && SaveTried(s') == SaveTried(s)
    && s.clock <= s'.clock && s'.failed == s.failed && FewerRows(s.table, s'.table)
    && (forall x | x in s'.hub.history :: x in s.hub.history && (HasRow(s.table, x) ==> HasRow(s'.table, x)))
  }

  lemma FewerExpire(rows: map<nat, Clip>, rows': map<nat, Clip>, u: seq<Clip>, horizon: nat, horizon': nat)
    requires ExpiresBy(rows, horizon) && Later(rows, u, horizon) && horizon <= horizon'
    requires forall k | k in rows' :: k in rows && rows'[k] == rows[k]
    ensures ExpiresBy(rows', horizon') && Later(rows', u, horizon')
  {
  }

  lemma OnlyDropsStore(cfg: Config, s: Sys, s': Sys)
    requires StoreInv(cfg, s) && LogInv(s') && OnlyDrops(s, s')
    ensures StoreInv(cfg, s')
  {
    FewerExpire(s.table.rows, s'.table.rows, Unsaved(s), s.clock + cfg.ttl, s'.clock + cfg.ttl);
  }

  lemma OnlyDropsCoherent(s: Sys, s': Sys)
    requires Coherent(s) && OnlyDrops(s, s')
    ensures Coherent(s')
  {
  }

  lemma ReapDrops(cfg: Config, s: Sys, now: nat)
    ensures OnlyDrops(s, Apply(cfg, s, Reap(now)))
  {
    UnexpiredMembers(s.hub.history, now);
  }

  lemma ExpireDrops(cfg: Config, s: Sys, t: nat)
    requires Behind(s) && Enabled(cfg, s, Expire(t))
    ensures OnlyDrops(s, Apply(cfg, s, Expire(t)))
  {
  }

  /** Why memory has to be ahead of the deletes: a late delete keeps table and memory coherent exactly if it is. */
  lemma ExpireCoherent(cfg: Config, s: Sys, t: nat)
    requires Coherent(s) && Enabled(cfg, s, Expire(t))
    ensures Coherent(Apply(cfg, s, Expire(t)))
            <==> forall x | x in s.hub.history && x.seqNo <= SaveTried(s) && x.seqNo !in s.failed :: t <= x.expiresAt
  {
    var s' := Apply(cfg, s, Expire(t));
    forall x | x in s.hub.history && x.seqNo <= SaveTried(s) && x.seqNo !in s.failed
      ensures HasRow(s'.table, x) <==> t <= x.expiresAt
    {
      assert HasRow(s.table, x);
    }
  }

  lemma QuietDrops(cfg: Config, s: Sys, step: Step)
    requires TurnInv(s) && Enabled(cfg, s, step)
    requires !step.Commit? && !step.Save? && !step.Reap? && !step.Expire?
    ensures OnlyDrops(s, Apply(cfg, s, step))
  {
    TableFrame(cfg, s, step);
    MemFrame(cfg, s, step);
    QuietRows(cfg, s, step);
  }

  /** Other than saves and deletes, only a clear touches the table, and it empties the memory too. */
  lemma QuietRows(cfg: Config, s: Sys, step: Step)
    requires Enabled(cfg, s, step) && !step.Commit? && !step.Save? && !step.Reap? && !step.Expire?
    ensures var s' := Apply(cfg, s, step); s'.table == s.table || s'.hub.history == []
  {
    if IsConnStep(step) {
      ConnStepFrame(cfg, s, step);
    }
  }

  lemma DropsOnly(cfg: Config, s: Sys, step: Step)
    requires TurnInv(s) && Behind(s) && Enabled(cfg, s, step) && !step.Commit? && !step.Save?
    ensures OnlyDrops(s, Apply(cfg, s, step))
  {
    hide OnlyDrops, TurnInv, Behind;
    if step.Reap? {
      ReapDrops(cfg, s, step.now);
    } else if step.Expire? {
      ExpireDrops(cfg, s, step.before);
    } else {
      QuietDrops(cfg, s, step);
    }
  }

  /** While memory is ahead of the pending deletes every step keeps it coherent, at any clock readings and any ttl. */
  lemma StepCoherent(cfg: Config, s: Sys, step: Step)
    requires Ordered(s) && MemInv(cfg, s) && TableInv(s) && Behind(s) && Coherent(s) && Enabled(cfg, s, step)
    ensures Coherent(Apply(cfg, s, step))
  {
    hide Coherent, InFlightInv, TurnInv, MemInv, Behind, OnlyDrops;
    if step.Commit? {
      CommitCoherent(cfg, s, step.put, step.input, step.now);
    } else if step.Save? {
      SaveCoherent(cfg, s, step.ok);
    } else {
      DropsOnly(cfg, s, step);
      OnlyDropsCoherent(s, Apply(cfg, s, step));
    }
  }

  /** Rows go on expiring in order of their numbers, by every step taken on time. */
  lemma StepStore(cfg: Config, s: Sys, step: Step)
    requires Ordered(s) && TableInv(s) && Behind(s) && StoreInv(cfg, s) && Enabled(cfg, s, step) && OnTime(s, step)
    ensures StoreInv(cfg, Apply(cfg, s, step))
  {
    hide StoreInv, InFlightInv, TurnInv, Behind, OnlyDrops;
    if step.Commit? {
      CommitStore(cfg, s, step.put, step.input, step.now);
    } else if step.Save? {
      SaveStore(cfg, s, step.ok);
    } else {
      StepOrdered(cfg, s, step);
      DropsOnly(cfg, s, step);
      OnlyDropsStore(cfg, s, Apply(cfg, s, step));
    }
  }

  // ---- what coherence gives a caller ----

  /**
   Whenever `GetBySeq` finds a published number in memory, it answers what `LoadItem` would exactly if the save of
   that item did not fail; so for published numbers saved with success its answer is always the table's.
   */
  lemma MemoryAnswersLikeTable(cfg: Config, s: Sys, n: nat)
    requires MemInv(cfg, s) && TableInv(s) && Coherent(s) && n <= s.published
    ensures Remembered(s.hub, n).Some? ==> (Remembered(s.hub, n) == LoadItem(s.table, n) <==> n !in s.failed)
  {
    if Remembered(s.hub, n).Some? {
      var x := Remembered(s.hub, n).value;
      assert x in s.hub.history && x.seqNo == n;
      assert n !in s.failed ==> HasRow(s.table, x);
    }
  }
}
