/** The agent that drives the monitor: one tick of its poll loop, remote updates, and the bootstrap at the start. */
module DesktopAgent {
  import opened Clips
  import opened Monitor
  import opened HubSpec
  import Fleet

  /** The privacy decision on a content. */
  datatype Decision = Pass | Blocked(clear: bool)

  /** What the surroundings answer during one tick. */
  datatype Answers = Answers(reading: Reading, decision: Decision, cleared: bool, send: Fleet.SendOutcome)

  /** After a failed request: the wait runs out, or the context is cancelled before it or during it. */
  datatype Pause = RunsOut | CancelledBefore | CancelledDuring

  /** What the hub answers to one request for the current clip. */
  datatype Fetch = NoClip | Clip(item: Clips.Clip, written: bool, readBack: Reading) | FetchError(pause: Pause)

  const MAX_RETRIES: nat := 5

  /** The bootstrap waits are 0.5, 1, 2, 4 and 5 seconds. */
  lemma RetryWaits()
    ensures MAX_RETRIES == 5
    ensures [RetryWait(0), RetryWait(1), RetryWait(2), RetryWait(3), RetryWait(4)] == [500, 1000, 2000, 4000, 5000]
  {
    assert RetryWait(2) == 2000;
  }

  /** The k-th bootstrap wait in milliseconds. */
  function RetryWait(k: nat): nat {
    if k == 0 then 500 else if 2 * RetryWait(k - 1) > 5000 then 5000 else 2 * RetryWait(k - 1)
  }

  /** `itemToContent`. */
  function ContentOf(item: Clips.Clip): Content {
    Content(item.mime, if IsText(item.mime) then item.content else item.data)
  }

  /** What `sendToHub` puts for a content. */
  function Outbound(ct: Content, nodeName: string): PutInput {
    if IsText(ct.mime) then PutInput(ct.mime, ct.data, [], nodeName) else PutInput(ct.mime, [], ct.data, nodeName)
  }

  /**
   What one agent sends is what another applies, through whatever hub: the content comes back from the clip the hub
   makes of it, and the key recorded for the clip is the clip's own hash and MIME type.
   */
  lemma SentIsApplied(cfg: Config, h: HubState, ct: Content, nodeName: string, now: nat)
    ensures var clip := NewClip(cfg, h, Outbound(ct, nodeName), now);
            && ContentOf(clip) == ct && clip.source == nodeName
            && KeyOf(cfg.digest, ct) == Key(clip.hash, clip.mime)
  {
  }

  /** The same for a clip from any client. */
  lemma AppliedIsRecorded(cfg: Config, h: HubState, input: PutInput, now: nat)
    ensures var clip := NewClip(cfg, h, input, now);
            && ContentOf(clip) == Content(input.mime, if "text/" <= input.mime then input.content else input.data)
            && KeyOf(cfg.digest, ContentOf(clip)) == Key(clip.hash, clip.mime)
  {
  }

  /** The hub the fleet sees is the hub: a send commits exactly when the hub takes a number for it. */
  lemma FleetPutIsHubPut(cfg: Config, h: HubState, f: Fleet.Fleet, ct: Content, nodeName: string, now: nat)
    requires f.current == if h.current.Some? then Some(Key(h.current.value.hash, h.current.value.mime)) else None
    ensures var input := Outbound(ct, nodeName);
            var f' := Fleet.AfterPut(cfg.digest, f, ct);
            if IsDuplicate(cfg, h, input) then f' == f
            else
              var clip := NewClip(cfg, h, input, now);
              f' == f.(commits := f.commits + 1, current := Some(Key(clip.hash, clip.mime)))
  {
  }

  /** The keys after one tick. */
  function AfterTick(digest: Digest, k: Keys, a: Answers): Keys {
    var polled := AfterPoll(digest, k, a.reading);
    if !PollOutcome(digest, k, a.reading).NewContent? then polled
    else if a.decision.Blocked? then (if a.decision.clear && a.cleared then START else AfterHandled(polled))
    else if a.send.Accepted? then AfterHandled(polled)
    else polled
  }

  /** What has been sent with success, or blocked and left alone, is not offered by the next tick that reads it. */
  lemma TickSettles(digest: Digest, k: Keys, a: Answers, b: Answers)
    requires a.reading.Got? && b.reading == a.reading && a.reading.content.data != []
    requires if a.decision.Blocked? then !a.decision.clear || !a.cleared else a.send.Accepted?
    ensures Outgoing(digest, AfterTick(digest, k, a), b) == None
    ensures AfterTick(digest, k, a).lastSeen == Key(digest(a.reading.content.data), a.reading.content.mime)
  {
  }

  /** What was not accepted is offered again. */
  lemma TickRetries(digest: Digest, k: Keys, a: Answers, b: Answers)
    requires b.reading == a.reading && a.decision.Pass? && b.decision.Pass? && !a.send.Accepted?
    ensures Outgoing(digest, AfterTick(digest, k, a), b) == Outgoing(digest, k, a)
  {
  }

  /** What one tick puts to the hub. */
  function Outgoing(digest: Digest, k: Keys, a: Answers): Option<Content> {
    var r := PollOutcome(digest, k, a.reading);
    if r.NewContent? && a.decision.Pass? then Some(r.content) else None
  }

  class Agent {
    const nodeName: string
    const monitor: ClipboardMonitor
    var paused: bool
    var bootstrapped: bool

    constructor (nodeName: string, digest: Digest)
      ensures !paused && !bootstrapped && fresh(monitor) && monitor.State() == START && monitor.digest == digest
      ensures this.nodeName == nodeName
    {
      this.nodeName := nodeName;
      monitor := new ClipboardMonitor(digest);
      paused, bootstrapped := false, false;
    }

    /** `sendToHub`: text goes as content, anything else as data, under this node's name. */
    method SendToHub(ct: Content) returns (put: PutInput)
      ensures put == Outbound(ct, nodeName)
      ensures put.mime == ct.mime && put.source == nodeName
      ensures if "text/" <= ct.mime then put.content == ct.data && put.data == []
              else put.data == ct.data && put.content == []
    {
      if IsText(ct.mime) {
        put := PutInput(ct.mime, ct.data, [], nodeName);
      } else {
        put := PutInput(ct.mime, [], ct.data, nodeName);
      }
    }

    /** One tick of the poll loop: nothing happens while paused or before the bootstrap. */
    method Tick(a: Answers) returns (offered: Option<Content>, put: Option<PutInput>)
      modifies monitor
      ensures paused || !bootstrapped ==> offered == None && monitor.State() == old(monitor.State())
      ensures !paused && bootstrapped ==>
                && offered == Outgoing(monitor.digest, old(monitor.State()), a)
                && monitor.State() == AfterTick(monitor.digest, old(monitor.State()), a)
      ensures offered.Some? ==> a.decision.Pass? && a.reading == Got(offered.value) && offered.value.data != []
      ensures put == if offered.Some? then Some(Outbound(offered.value, nodeName)) else None
    {
      put := None;
      if paused || !bootstrapped {
        return None, None;
      }
      var result := monitor.Poll(a.reading);
      if !result.NewContent? {
        return None, None;
      }
      if a.decision.Blocked? {
        if a.decision.clear {
          var ok := monitor.ClearLocal(a.cleared);
          if !ok {
            monitor.MarkHandled();
          }
        } else {
          monitor.MarkHandled();
        }
        return None, None;
      }
      var payload := SendToHub(result.content);
      if a.send.Accepted? {
        monitor.MarkHandled();
      }
      offered, put := Some(result.content), Some(payload);
    }

    /** An update from the stream: ignored while paused, and when this node was its source. */
    method ApplyRemote(item: Clips.Clip, written: bool, readBack: Reading)
      modifies monitor
      ensures monitor.State() ==
              if paused || item.source == nodeName then old(monitor.State())
              else AfterApply(monitor.digest, old(monitor.State()), ContentOf(item), written, readBack)
      ensures !paused && item.source != nodeName && !written ==>
                && monitor.lastWrittenHash == monitor.digest(if "text/" <= item.mime then item.content else item.data)
                && monitor.lastWrittenMime == item.mime
    {
      if paused || item.source == nodeName {
        return;
      }
      var _ := monitor.ApplyRemote(ContentOf(item), written, readBack);
    }

    /**
     Up to five requests for the hub's current clip, waiting twice as long after each error, until an answer comes or
     the context is cancelled. Only an answer is acted on; in any case the poll loop may start.
     */
    method Bootstrap(fetches: seq<Fetch>) returns (failed: nat, waits: seq<nat>)
      requires |fetches| == 5
      modifies this, monitor
      ensures bootstrapped && paused == old(paused)
      ensures failed <= 5 && (forall k | 0 <= k < failed :: fetches[k] == FetchError(RunsOut))
      ensures failed < 5 ==> fetches[failed] != FetchError(RunsOut)
      ensures |waits| == failed + if failed < 5 && fetches[failed] == FetchError(CancelledDuring) then 1 else 0
      ensures forall k | 0 <= k < |waits| :: waits[k] == [500, 1000, 2000, 4000, 5000][k]
      ensures failed < 5 && fetches[failed].Clip? && !paused && fetches[failed].item.source != nodeName
              && !fetches[failed].written ==>
                var item := fetches[failed].item;
                && monitor.lastWrittenHash == monitor.digest(if "text/" <= item.mime then item.content else item.data)
                && monitor.lastWrittenMime == item.mime
      ensures monitor.State() ==
              if failed == 5 || !fetches[failed].Clip? || paused || fetches[failed].item.source == nodeName
              then old(monitor.State())
              else AfterApply(monitor.digest, old(monitor.State()), ContentOf(fetches[failed].item),
                              fetches[failed].written, fetches[failed].readBack)
    {
      RetryWaits();
      var backoff := 500;
      waits := [];
      for attempt := 0 to MAX_RETRIES
        invariant |waits| == attempt && backoff == RetryWait(attempt) && paused == old(paused)
        invariant forall k | 0 <= k < attempt :: fetches[k] == FetchError(RunsOut)
        invariant forall k | 0 <= k < |waits| :: waits[k] == RetryWait(k)
        invariant monitor.State() == old(monitor.State())
      {
        match fetches[attempt] {
          case NoClip =>
            bootstrapped := true;
            return attempt, waits;
          case Clip(item, written, readBack) =>
            ApplyRemote(item, written, readBack);
            bootstrapped := true;
            return attempt, waits;
          case FetchError(pause) =>
            if pause.CancelledBefore? {
              bootstrapped := true;
              return attempt, waits;
            }
            waits := waits + [backoff];
            if pause.CancelledDuring? {
              bootstrapped := true;
              return attempt, waits;
            }
            backoff := if backoff * 2 < 5000 then backoff * 2 else 5000;
        }
      }
      bootstrapped := true;
      failed := MAX_RETRIES;
    }
  }

  // ---- a tick is a run of the fleet's actions ----

  /** The fleet actions one tick of agent `id` stands for. */
  function TickActions(digest: Digest, id: nat, g: Fleet.Agent, a: Answers): seq<Fleet.Action> {
    if !PollOutcome(digest, g.keys, a.reading).NewContent? then [Fleet.Poll(id, a.reading.Got?)]
    else if a.decision.Blocked? then
      [Fleet.Poll(id, true), if a.decision.clear && a.cleared then Fleet.BlockAndClear(id) else Fleet.Block(id)]
    else if a.send.Accepted? then [Fleet.Poll(id, true), Fleet.Send(id, Fleet.Accepted), Fleet.Mark(id)]
    else [Fleet.Poll(id, true), Fleet.Send(id, a.send)]
  }

  /** The hub after a send, of nothing or of one content. */
  function AfterSending(digest: Digest, f: Fleet.Fleet, sent: Option<Content>, outcome: Fleet.SendOutcome)
    : Fleet.Fleet
  {
    if sent.None? || outcome.Rejected? then f else Fleet.AfterPut(digest, f, sent.value)
  }

  /**
   With nothing in between, the actions leave the agent with the keys one tick leaves, whether or not the clipboard
   could be read, and the hub is put exactly what the tick sends, unless the send is rejected.
   */
  lemma TickIsFleetRun(digest: Digest, f: Fleet.Fleet, id: nat, a: Answers) returns (f': Fleet.Fleet)
    requires id in f.agents && f.agents[id].loop == Fleet.Idle
    requires a.reading == Failed || a.reading == Got(f.agents[id].clip)
    ensures Fleet.Goes(digest, f, TickActions(digest, id, f.agents[id], a), f')
    ensures id in f'.agents && f'.agents[id].loop == Fleet.Idle
    ensures f'.agents[id].keys == AfterTick(digest, f.agents[id].keys, a)
    ensures var hub := AfterSending(digest, f, Outgoing(digest, f.agents[id].keys, a), a.send);
            f'.commits == hub.commits && f'.current == hub.current
  {
    var actions := TickActions(digest, id, f.agents[id], a);
    f' := Fleet.After(digest, f, actions[0]);
    Fleet.GoesOn(digest, f, [], f, actions[0]);
    assert [] + [actions[0]] == actions[..1];
    if |actions| > 1 {
      Fleet.GoesOn(digest, f, actions[..1], f', actions[1]);
      f' := Fleet.After(digest, f', actions[1]);
      assert actions[..1] + [actions[1]] == actions[..2];
      if |actions| > 2 {
        Fleet.GoesOn(digest, f, actions[..2], f', actions[2]);
        f' := Fleet.After(digest, f', actions[2]);
        assert actions[..2] + [actions[2]] == actions[..3];
      }
    }
    assert actions[..|actions|] == actions;
  }
}
