/** What each critical section of the hub does to `current`, `history` and `seq`, as functions on values. */
module HubSpec {
  import opened Clips

  const DEFAULT_HISTORY: nat := 50
  const DEFAULT_TTL: nat := 86_400_000_000_000   // a day in nanoseconds
  const QUEUE_CAPACITY: nat := 16

  /** `digest` stands for SHA-256 in hex: an arbitrary function of the payload bytes. */
  datatype Config = Config(maxHistory: nat, ttl: nat, digest: Bytes -> string)

  datatype PutInput = PutInput(mime: string, content: Bytes, data: Bytes, source: string)

  datatype HubState = HubState(current: Option<Clip>, history: seq<Clip>, seqNo: nat)

  function Payload(input: PutInput): Bytes {
    if IsText(input.mime) then input.content else input.data
  }

  predicate IsDuplicate(cfg: Config, h: HubState, input: PutInput) {
    h.current.Some? && h.current.value.hash == cfg.digest(Payload(input)) && h.current.value.mime == input.mime
  }

  function NewClip(cfg: Config, h: HubState, input: PutInput, now: nat): Clip {
    Clip(h.seqNo + 1, input.mime, input.content, input.data, cfg.digest(Payload(input)),
         input.source, now, now + cfg.ttl)
  }

  function AfterCommit(cfg: Config, h: HubState, item: Clip): HubState {
    HubState(Some(item), Take([item] + h.history, cfg.maxHistory), item.seqNo)
  }

  function AfterReap(h: HubState, now: nat): HubState {
    var current := if h.current.Some? && now > h.current.value.expiresAt then None else h.current;
    HubState(current, Unexpired(h.history, now), h.seqNo)
  }

  function AfterClear(h: HubState): HubState {
    HubState(None, [], h.seqNo)
  }

  /** The state `New` builds from what the store hands back. */
  function Loaded(seqNo: nat, items: seq<Clip>): HubState {
    HubState(if items == [] then None else Some(items[0]), items, seqNo)
  }

  /** The in-memory answer of `GetBySeq`: `current` first, then the history in order. */
  function Remembered(h: HubState, n: nat): Option<Clip> {
    if h.current.Some? && h.current.value.seqNo == n then h.current else FirstNumbered(h.history, n)
  }

  function FirstNumbered(l: seq<Clip>, n: nat): (r: Option<Clip>)
    ensures r.Some? ==> r.value in l && r.value.seqNo == n
    ensures r.None? ==> forall x | x in l :: x.seqNo != n
  {
    if l == [] then None
    else if l[0].seqNo == n then Some(l[0])
    else
      assert l == [l[0]] + l[1..];
      FirstNumbered(l[1..], n)
  }

  /** The repeat test spelled out: same MIME type, and the digest of the payload that this type selects. */
  lemma RepeatsExactly(cfg: Config, h: HubState, input: PutInput)
    ensures IsDuplicate(cfg, h, input)
            <==> h.current.Some? && h.current.value.mime == input.mime
                 && h.current.value.hash == cfg.digest(if "text/" <= input.mime then input.content else input.data)
  {
  }

  // ---- the invariant of the in-memory state ----

  /** Whatever the clock does: newest first, bounded, not ahead of the counter, and `current` the newest item or nil. */
  ghost predicate Sane(cfg: Config, h: HubState) {
    && Descending(h.history)
    && |h.history| <= cfg.maxHistory
    && (forall i | 0 <= i < |h.history| :: h.history[i].seqNo <= h.seqNo)
    && (h.current.Some? ==> h.history != [] && h.current.value == h.history[0])
  }

  /** With a clock that never steps back: expiry falls along the history too, and `current` is nil only with it. */
  ghost predicate Tidy(cfg: Config, h: HubState) {
    && Descending(h.history)
    && |h.history| <= cfg.maxHistory
    && (forall x | x in h.history :: x.seqNo <= h.seqNo)
    && h.current == (if h.history == [] then None else Some(h.history[0]))
    && ExpiryFalls(h.history)
  }

  /** A lookup by number finds every item of the history, and nothing else. */
  lemma RememberedExactly(cfg: Config, h: HubState)
    requires Sane(cfg, h)
    ensures forall x | x in h.history :: Remembered(h, x.seqNo) == Some(x)
    ensures forall n: nat :: Remembered(h, n).None? <==> forall x | x in h.history :: x.seqNo != n
    ensures forall n: nat :: Remembered(h, n).Some? ==>
              Remembered(h, n).value in h.history && Remembered(h, n).value.seqNo == n
  {
    assert h.current.Some? ==> h.current.value in h.history;
    forall x | x in h.history ensures Remembered(h, x.seqNo) == Some(x) {
      var y := Remembered(h, x.seqNo).value;
      var i :| 0 <= i < |h.history| && h.history[i] == x;
      var j :| 0 <= j < |h.history| && h.history[j] == y;
      assert !(i < j) && !(j < i);
    }
  }

  lemma CommitKeepsSane(cfg: Config, h: HubState, item: Clip)
    requires Sane(cfg, h) && 0 < cfg.maxHistory && item.seqNo == h.seqNo + 1
    ensures Sane(cfg, AfterCommit(cfg, h, item))
  {
    var l := [item] + h.history;
    assert forall i | 0 < i < |l| :: l[i] == h.history[i - 1];
  }

  lemma ReapKeepsSane(cfg: Config, h: HubState, now: nat)
    requires Sane(cfg, h)
    ensures Sane(cfg, AfterReap(h, now))
  {
    UnexpiredDescending(h.history, now);
    UnexpiredMembers(h.history, now);
    var kept := Unexpired(h.history, now);
    forall i | 0 <= i < |kept| ensures kept[i].seqNo <= h.seqNo {
      assert kept[i] in h.history;
    }
    if h.history != [] { UnexpiredHead(h.history, now); }
  }

  /** If the newest item has not expired, it heads what is kept. */
  lemma {:induction false} UnexpiredHead(l: seq<Clip>, now: nat)
    requires l != []
    ensures now <= l[0].expiresAt ==> Unexpired(l, now) != [] && Unexpired(l, now)[0] == l[0]
  {
    if |l| > 1 {
      UnexpiredHead(l[..|l| - 1], now);
    } else {
      assert Unexpired(l[..0], now) == [];
    }
  }

  /** A commit puts the item in front and pushes the oldest one out of a full history. */
  lemma CommitExactly(cfg: Config, h: HubState, item: Clip)
    requires 0 < cfg.maxHistory
    ensures var h' := AfterCommit(cfg, h, item);
            && h'.current == Some(item) && h'.seqNo == item.seqNo && h'.history != [] && h'.history[0] == item
            && |h'.history| == (if |h.history| < cfg.maxHistory then |h.history| + 1 else cfg.maxHistory)
            && forall i | 0 < i < |h'.history| :: h'.history[i] == h.history[i - 1]
  {
  }

  /** At any clock a reap drops exactly what has expired before it, and `current` with its item. */
  lemma ReapExactly(cfg: Config, h: HubState, now: nat)
    requires Sane(cfg, h)
    ensures var h' := AfterReap(h, now);
            && Descending(h'.history) && h'.seqNo == h.seqNo
            && (forall x :: x in h'.history <==> x in h.history && now <= x.expiresAt)
            && h'.current == if h.current.Some? && now <= h.current.value.expiresAt then h.current else None
  {
    UnexpiredDescending(h.history, now);
    UnexpiredMembers(h.history, now);
  }

  /** No two neighbours carry both the same hash and the same MIME type. */
  ghost predicate NoTwins(l: seq<Clip>) {
    forall i | 0 < i < |l| :: l[i - 1].hash != l[i].hash || l[i - 1].mime != l[i].mime
  }

  lemma PrependAndCut(x: Clip, l: seq<Clip>, n: nat)
    requires Descending(l) && ExpiryFalls(l)
    requires forall y | y in l :: y.seqNo < x.seqNo && y.expiresAt <= x.expiresAt
    ensures var r := Take([x] + l, n);
            Descending(r) && ExpiryFalls(r) && forall y | y in r :: y == x || y in l
  {
    assert forall i | 0 <= i < |l| :: l[i] in l;
    var whole := [x] + l;
    assert Descending(whole) && ExpiryFalls(whole);
    forall y | y in Take(whole, n) ensures y == x || y in l {
      assert y in whole;
    }
  }

  lemma CommitKeepsTidy(cfg: Config, h: HubState, input: PutInput, now: nat)
    requires Tidy(cfg, h) && 0 < cfg.maxHistory && !IsDuplicate(cfg, h, input)
    requires forall x | x in h.history :: x.expiresAt <= now + cfg.ttl
    ensures var h' := AfterCommit(cfg, h, NewClip(cfg, h, input, now));
            Tidy(cfg, h') && (NoTwins(h.history) ==> NoTwins(h'.history))
  {
    var item := NewClip(cfg, h, input, now);
    PrependAndCut(item, h.history, cfg.maxHistory);
    var r := Take([item] + h.history, cfg.maxHistory);
    if NoTwins(h.history) {
      forall i | 0 < i < |r| ensures r[i - 1].hash != r[i].hash || r[i - 1].mime != r[i].mime {
        assert r[i] == h.history[i - 1];
        assert i > 1 ==> r[i - 1] == h.history[i - 2];
      }
    }
  }

  lemma KeptPrefix(l: seq<Clip>, now: nat) returns (kept: seq<Clip>)
    requires Descending(l) && ExpiryFalls(l)
    ensures kept == Unexpired(l, now) && kept <= l
    ensures kept == [] <==> l == [] || l[0].expiresAt < now
    ensures Descending(kept) && ExpiryFalls(kept) && (NoTwins(l) ==> NoTwins(kept))
  {
    kept := Unexpired(l, now);
    UnexpiredIsPrefix(l, now);
    assert kept == l[..|kept|];
  }

  /** A reap keeps exactly a prefix of the history, and drops `current` only together with all of it. */
  lemma ReapKeepsTidy(cfg: Config, h: HubState, now: nat)
    requires Tidy(cfg, h)
    ensures var h' := AfterReap(h, now);
            && Tidy(cfg, h')
            && h'.history <= h.history
            && (forall x | x in h.history :: x in h'.history <==> now <= x.expiresAt)
            && (NoTwins(h.history) ==> NoTwins(h'.history))
  {
    hide Unexpired, Descending, ExpiryFalls, NoTwins;
    UnexpiredMembers(h.history, now);
    var kept := KeptPrefix(h.history, now);
    assert kept == [] || kept[0] == h.history[0];
  }
}
