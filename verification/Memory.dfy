/** The in-memory state in every reachable state: order, bound, `current`, where items come from, and expiry. */
module Memory {
  import opened Clips
  import opened HubSpec
  import opened Tables
  import opened Protocol
  import opened Turnstile

  /** `x` is the one item committed under its number in this run, or was loaded at the start. */
  ghost predicate Known(s: Sys, x: Clip) {
    if x.seqNo <= s.base then x in s.boot
    else x.seqNo <= s.base + |s.log| && x == LogItem(s, x.seqNo)
  }

  /** Whatever the clock and the ttl were. */
  ghost predicate MemInv(cfg: Config, s: Sys) {
    && 0 < cfg.maxHistory
    && Sane(cfg, s.hub)
    && (forall x | x in s.hub.history :: 0 < x.seqNo <= s.hub.seqNo && Known(s, x))
  }

  /** No pending delete will take the row of anything in memory. */
  ghost predicate Behind(s: Sys) {
    forall t, x | t in s.deletes && x in s.hub.history :: t <= x.expiresAt
  }

  /** On a clock that never steps back, with one ttl for all items. */
  ghost predicate ExpiryInv(cfg: Config, s: Sys) {
    && Tidy(cfg, s.hub)
    && (forall x | x in s.hub.history :: x.expiresAt <= s.clock + cfg.ttl)
    && (forall t | t in s.deletes :: t <= s.clock)
    && Behind(s)
    && (NoTwins(s.boot) ==> NoTwins(s.hub.history))
  }

  /** A table as any hub leaves it. */
  ghost predicate Loadable(t: Table) {
    Sound(t) && forall k | k in t.rows :: 0 < k
  }

  /** Later rows expire no earlier, and none beyond `horizon`. */
  ghost predicate ExpiresBy(rows: map<nat, Clip>, horizon: nat) {
    ExpiryRises(rows) && forall k | k in rows :: rows[k].expiresAt <= horizon
  }

  /** A table such as hubs with at most this ttl, on a clock that has reached `clock`, can have left behind. */
  ghost predicate Left(cfg: Config, t: Table, clock: nat) {
    Loadable(t) && ExpiresBy(t.rows, clock + cfg.ttl)
  }

  // ---- at the start ----

  lemma TakeKeeps(l: seq<Clip>, n: nat)
    requires Descending(l)
    ensures Descending(Take(l, n)) && |Take(l, n)| <= n
    ensures forall x | x in Take(l, n) :: x in l
    ensures ExpiryFalls(l) ==> ExpiryFalls(Take(l, n))
  {
  }

  lemma BootMem(cfg: Config, t: Table, clock: nat, lastSeq: nat)
    requires 0 < cfg.maxHistory && Loadable(t)
    ensures MemInv(cfg, Boot(cfg, t, clock, lastSeq))
    ensures forall x | x in Boot(cfg, t, clock, lastSeq).hub.history :: x.seqNo in t.rows && t.rows[x.seqNo] == x
  {
    hide NewestFirst, LoadSeq;
    NewestFirstLists(t.rows);
    var l := NewestFirst(t.rows);
    TakeKeeps(l, cfg.maxHistory);
    var s := Boot(cfg, t, clock, lastSeq);
    forall x | x in s.hub.history
      ensures 0 < x.seqNo <= LoadSeq(t) && x.seqNo in t.rows && t.rows[x.seqNo] == x
    {
      assert x in l;
    }
    assert forall i | 0 <= i < |s.hub.history| :: s.hub.history[i] in s.hub.history;
  }

  lemma BootExpiry(cfg: Config, t: Table, clock: nat, lastSeq: nat)
    requires 0 < cfg.maxHistory && Left(cfg, t, clock)
    ensures ExpiryInv(cfg, Boot(cfg, t, clock, lastSeq))
  {
    hide NewestFirst, LoadSeq, ExpiryRises;
    BootMem(cfg, t, clock, lastSeq);
    NewestFirstLists(t.rows);
    NewestFirstExpiry(t.rows);
    TakeKeeps(NewestFirst(t.rows), cfg.maxHistory);
  }

  // ---- commits ----

  lemma CommitMem(cfg: Config, s: Sys, p: nat, input: PutInput, now: nat)
    requires Ordered(s) && MemInv(cfg, s) && p !in s.puts
    ensures MemInv(cfg, AfterPut(cfg, s, p, input, now))
  {
    hide InFlightInv, TurnInv, Sane;
    var s' := AfterPut(cfg, s, p, input, now);
    if !IsDuplicate(cfg, s.hub, input) {
      var item := NewClip(cfg, s.hub, input, now);
      CommitKeepsSane(cfg, s.hub, item);
      CommitLog(cfg, s, p, input, now);
      TakeOf(item, s.hub.history, cfg.maxHistory);
      forall x | x in s'.hub.history ensures 0 < x.seqNo <= s'.hub.seqNo && Known(s', x) {
        if x != item {
          assert x in s.hub.history && Known(s, x);
        }
      }
    }
  }

  lemma TakeOf(x: Clip, l: seq<Clip>, n: nat)
    ensures forall y | y in Take([x] + l, n) :: y == x || y in l
  {
    forall y | y in Take([x] + l, n) ensures y == x || y in l {
      assert y in [x] + l;
    }
  }

  lemma CommitExpiry(cfg: Config, s: Sys, p: nat, input: PutInput, now: nat)
    requires 0 < cfg.maxHistory && ExpiryInv(cfg, s) && s.clock <= now
    ensures ExpiryInv(cfg, AfterPut(cfg, s, p, input, now))
  {
    hide Tidy, NoTwins;
    if !IsDuplicate(cfg, s.hub, input) {
      CommitKeepsTidy(cfg, s.hub, input, now);
      TakeOf(NewClip(cfg, s.hub, input, now), s.hub.history, cfg.maxHistory);
    }
  }

  // ---- reaps, at any clock reading ----

  lemma ReapMem(cfg: Config, s: Sys, now: nat)
    requires MemInv(cfg, s)
    ensures MemInv(cfg, Apply(cfg, s, Reap(now)))
  {
    hide Sane;
    ReapKeepsSane(cfg, s.hub, now);
    UnexpiredMembers(s.hub.history, now);
    var s' := Apply(cfg, s, Reap(now));
    forall x | x in s'.hub.history ensures 0 < x.seqNo <= s'.hub.seqNo && Known(s', x) {
      assert x in s.hub.history && Known(s, x);
    }
  }

  lemma ReapExpiry(cfg: Config, s: Sys, now: nat)
    requires ExpiryInv(cfg, s)
    ensures ExpiryInv(cfg, Apply(cfg, s, Reap(now)))
  {
    hide Tidy, NoTwins;
    ReapKeepsTidy(cfg, s.hub, now);
    UnexpiredMembers(s.hub.history, now);
  }

  // ---- all other steps leave the memory alone, or empty it ----

  ghost predicate SameMemory(s: Sys, s': Sys) {
    && (s'.hub == s.hub || s'.hub == AfterClear(s.hub))
    && s'.base == s.base && s'.boot == s.boot && s'.log == s.log && s'.clock == s.clock
    && s'.deletes <= s.deletes
  }

  lemma MemFrame(cfg: Config, s: Sys, step: Step)
    requires Enabled(cfg, s, step) && !step.Commit? && !step.Reap?
    ensures SameMemory(s, Apply(cfg, s, step))
  {
  }

  lemma SameMem(cfg: Config, s: Sys, s': Sys)
    requires MemInv(cfg, s) && SameMemory(s, s')
    ensures MemInv(cfg, s')
  {
    assert forall x | x in s'.hub.history :: Known(s, x) && Known(s', x);
  }

  lemma SameExpiry(cfg: Config, s: Sys, s': Sys)
    requires ExpiryInv(cfg, s) && SameMemory(s, s')
    ensures ExpiryInv(cfg, s')
  {
    assert forall t | t in s'.deletes :: t in s.deletes;
  }

  /** Kept by every step, at any clock reading. */
  lemma StepMem(cfg: Config, s: Sys, step: Step)
    requires Ordered(s) && MemInv(cfg, s) && Enabled(cfg, s, step)
    ensures MemInv(cfg, Apply(cfg, s, step))
  {
    hide Ordered, MemInv, SameMemory;
    if step.Commit? {
      CommitMem(cfg, s, step.put, step.input, step.now);
    } else if step.Reap? {
      ReapMem(cfg, s, step.now);
    } else {
      MemFrame(cfg, s, step);
      SameMem(cfg, s, Apply(cfg, s, step));
    }
  }

  // ---- memory ahead of the pending deletes ----

  /** A new item outlives every pending delete: its own clock reading may be older than theirs by up to the ttl. */
  ghost predicate Prompt(cfg: Config, s: Sys, step: Step) {
    step.Commit? && !IsDuplicate(cfg, s.hub, step.input) ==> forall t | t in s.deletes :: t <= step.now + cfg.ttl
  }

  ghost predicate PromptRun(cfg: Config, s: Sys, steps: seq<Step>)
    decreases |steps|
  {
    steps == [] ||
    (Enabled(cfg, s, steps[0]) && Prompt(cfg, s, steps[0]) && PromptRun(cfg, Apply(cfg, s, steps[0]), steps[1..]))
  }

  lemma CommitBehind(cfg: Config, s: Sys, p: nat, input: PutInput, now: nat)
    requires 0 < cfg.maxHistory && Behind(s) && !IsDuplicate(cfg, s.hub, input)
    ensures Behind(AfterPut(cfg, s, p, input, now)) <==> forall t | t in s.deletes :: t <= now + cfg.ttl
  {
    var item, s' := NewClip(cfg, s.hub, input, now), AfterPut(cfg, s, p, input, now);
    TakeOf(item, s.hub.history, cfg.maxHistory);
    assert s'.hub.history[0] == item && item in s'.hub.history;
  }

  /** Exactly the Prompt steps keep memory ahead of the pending deletes, whatever the ttl of older items was. */
  lemma StepBehind(cfg: Config, s: Sys, step: Step)
    requires 0 < cfg.maxHistory && Behind(s) && Enabled(cfg, s, step)
    ensures Behind(Apply(cfg, s, step)) <==> Prompt(cfg, s, step)
  {
    if step.Commit? {
      if !IsDuplicate(cfg, s.hub, step.input) { CommitBehind(cfg, s, step.put, step.input, step.now); }
    } else if step.Reap? {
      UnexpiredMembers(s.hub.history, step.now);
    } else {
      MemFrame(cfg, s, step);
      FewerBehind(s, Apply(cfg, s, step));
    }
  }

  lemma FewerBehind(s: Sys, s': Sys)
    requires Behind(s) && SameMemory(s, s')
    ensures Behind(s')
  {
    assert forall t | t in s'.deletes :: t in s.deletes;
  }

  lemma StepDeletes(cfg: Config, s: Sys, step: Step)
    requires (forall t | t in s.deletes :: t <= s.clock) && Enabled(cfg, s, step)
    ensures forall t | t in Apply(cfg, s, step).deletes :: t <= Apply(cfg, s, step).clock
  {
    if !step.Commit? && !step.Reap? {
      MemFrame(cfg, s, step);
      assert forall t | t in Apply(cfg, s, step).deletes :: t in s.deletes;
    }
  }

  /** On a clock that never steps back every run is prompt. */
  lemma {:induction false} TimelyIsPrompt(cfg: Config, s: Sys, steps: seq<Step>)
    requires (forall t | t in s.deletes :: t <= s.clock) && Timely(cfg, s, steps)
    ensures PromptRun(cfg, s, steps)
    decreases |steps|
  {
    if steps != [] {
      StepDeletes(cfg, s, steps[0]);
      TimelyIsPrompt(cfg, Apply(cfg, s, steps[0]), steps[1..]);
      hide Apply, Enabled;
    }
  }

  // ---- expiry ----

  /** Kept by every step taken on time. */
  lemma StepExpiry(cfg: Config, s: Sys, step: Step)
    requires 0 < cfg.maxHistory && ExpiryInv(cfg, s) && Enabled(cfg, s, step) && OnTime(s, step)
    ensures ExpiryInv(cfg, Apply(cfg, s, step))
  {
    hide ExpiryInv, SameMemory;
    if step.Commit? {
      CommitExpiry(cfg, s, step.put, step.input, step.now);
    } else if step.Reap? {
      ReapExpiry(cfg, s, step.now);
    } else {
      MemFrame(cfg, s, step);
      SameExpiry(cfg, s, Apply(cfg, s, step));
    }
  }
}
