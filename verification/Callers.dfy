/**
 The hub among callers that share the heap with it: they keep every array they ever made, were handed, or took off a
 channel, and overwrite them whenever they like. All they can observe is what a hub of plain values would show them.
 */
module Callers {
  import opened Clips
  import opened HubSpec
  import opened Tables
  import opened Items
  import opened HubClass
  import opened Paging
  import TableStore

  /** Arrays and channels are named by their place in the order they came to the callers; a wrong place does nothing. */
  datatype Request =
    | Make(bytes: Bytes)
    | Write(which: nat, at: nat, value: Byte)
    | Put(mime: string, content: Bytes, payload: Option<nat>, source: string, now: nat, saveOk: bool)
    | Get
    | History(limit: int)
    | Since(after: nat)
    | Lookup(n: nat)
    | Page(limit: int, before: nat, readOk: bool)
    | Clear(deleteOk: bool)
    | Reap(now: nat)
    | Expire(before: nat, zone: TableStore.Zone, ok: bool)   // the late delete a reap has started
    | Subscribe
    | Unsubscribe(channel: nat)
    | Receive(channel: nat)

  // ---- the hub of plain values ----

  /** All that hub and callers hold, without a heap: nothing is shared, so nothing can be changed from elsewhere. */
  datatype View = View(
    model: HubState,
    table: Option<Table>,      // None without a store
    bytes: seq<Bytes>,         // what each of the callers' arrays holds
    queues: seq<seq<Clip>>,    // what waits in each channel ever handed out
    live: seq<bool>)           // whether the channel is still subscribed

  /** The payload a `Put` passes is what its array holds at that moment. */
  function PayloadOf(v: View, payload: Option<nat>): Bytes {
    if payload.Some? && payload.value < |v.bytes| then v.bytes[payload.value] else []
  }

  function InputOf(v: View, r: Request): PutInput
    requires r.Put?
  {
    PutInput(r.mime, r.content, PayloadOf(v, r.payload), r.source)
  }

  /** The items a request hands out. */
  ghost function Answered(cfg: Config, v: View, r: Request): seq<Clip> {
    match r
    case Put(_, _, _, _, now, _) =>
      if IsDuplicate(cfg, v.model, InputOf(v, r)) then [v.model.current.value]
      else [NewClip(cfg, v.model, InputOf(v, r), now)]
    case Get => Listed(v.model.current)
    case History(limit) => if limit <= 0 then v.model.history else Take(v.model.history, limit)
    case Since(after) => OldestFirst(v.model.history, after)
    case Lookup(n) =>
      if Remembered(v.model, n).Some? || v.table.None? then Listed(Remembered(v.model, n))
      else Listed(LoadItem(v.table.value, n))
    case Page(limit, before, readOk) =>
      if v.table.None? then PageOf(v.model.history, PageLimit(limit), before).items
      else if readOk then PageOf(NewestFirst(v.table.value.rows), PageLimit(limit), before).items
      else []
    case Receive(k) => if k < |v.queues| && v.queues[k] != [] then [v.queues[k][0]] else []
    case _ => []
  }

  /** What a request answers besides items. */
  datatype Outcome = Done | Stored | Repeated | Failed | Paged(nextCursor: string, hasMore: bool)

  ghost function OutcomeOf(cfg: Config, v: View, r: Request): Outcome {
    match r
    case Put(_, _, _, _, _, _) => if IsDuplicate(cfg, v.model, InputOf(v, r)) then Repeated else Stored
    case Page(limit, before, readOk) =>
      if v.table.Some? && !readOk then Failed
      else
        var page := PageOf(if v.table.None? then v.model.history else NewestFirst(v.table.value.rows),
                           PageLimit(limit), before);
        Paged(page.nextCursor, page.hasMore)
    case Clear(ok) => if v.table.Some? && !ok then Failed else Done
    case _ => Done
  }

  datatype Answer = Answer(clips: seq<Clip>, outcome: Outcome)

  function Listed(x: Option<Clip>): seq<Clip> {
    if x.Some? then [x.value] else []
  }

  function PageLimit(limit: int): nat {
    if limit <= 0 then DEFAULT_HISTORY else limit
  }

  /** What a request changes, but for the arrays of what it hands out. */
  ghost function Changed(cfg: Config, v: View, r: Request): View {
    match r
    case Make(bytes) => v.(bytes := v.bytes + [bytes])
    case Write(which, at, value) =>
      if which < |v.bytes| && at < |v.bytes[which]|
      then v.(bytes := v.bytes[which := v.bytes[which][at := value]]) else v
    case Put(_, _, _, _, now, saveOk) =>
      if IsDuplicate(cfg, v.model, InputOf(v, r)) then v
      else
        var item := NewClip(cfg, v.model, InputOf(v, r), now);
        v.(model := AfterCommit(cfg, v.model, item), queues := SentToAll(v.queues, v.live, item),
           table := if v.table.Some? && saveOk then Some(AfterSave(v.table.value, item)) else v.table)
    case Clear(ok) =>
      if v.table.None? then v.(model := AfterClear(v.model))
      else if ok then v.(model := AfterClear(v.model), table := Some(AfterDeleteAll(v.table.value)))
      else v
    case Reap(now) => v.(model := AfterReap(v.model, now))
    case Expire(before, zone, ok) =>
      if v.table.Some? && ok then v.(table := Some(TableStore.AfterTextExpiry(v.table.value, before, zone))) else v
    case Subscribe => v.(queues := v.queues + [[]], live := v.live + [true])
    case Unsubscribe(k) => if k < |v.live| then v.(live := v.live[k := false]) else v
    case Receive(k) =>
      if k < |v.queues| && v.queues[k] != [] then v.(queues := v.queues[k := v.queues[k][1..]]) else v
    case _ => v
  }

  function SentToAll(queues: seq<seq<Clip>>, live: seq<bool>, item: Clip): seq<seq<Clip>> {
    seq(|queues|, k requires 0 <= k < |queues| =>
      if k < |live| && live[k] && |queues[k]| < QUEUE_CAPACITY then queues[k] + [item] else queues[k])
  }

  /** Whatever is handed out comes with arrays of its own, one for each payload that is not empty. */
  function Handed(v: View, clips: seq<Clip>): View {
    v.(bytes := v.bytes + Payloads(clips))
  }

  function Payloads(clips: seq<Clip>): seq<Bytes> {
    if clips == [] then []
    else
      var n := |clips| - 1;
      Payloads(clips[..n]) + (if clips[n].data == [] then [] else [clips[n].data])
  }

  ghost function After(cfg: Config, v: View, r: Request): View {
    Handed(Changed(cfg, v, r), Answered(cfg, v, r))
  }

  ghost function AfterAll(cfg: Config, v: View, rs: seq<Request>): View {
    if rs == [] then v else After(cfg, AfterAll(cfg, v, rs[..|rs| - 1]), rs[|rs| - 1])
  }

  ghost function AnswerTo(cfg: Config, v: View, r: Request): Answer {
    Answer(Answered(cfg, v, r), OutcomeOf(cfg, v, r))
  }

  ghost function AllAnswered(cfg: Config, v: View, rs: seq<Request>): seq<Answer> {
    if rs == [] then []
    else
      var n := |rs| - 1;
      AllAnswered(cfg, v, rs[..n]) + [AnswerTo(cfg, AfterAll(cfg, v, rs[..n]), rs[n])]
  }

  /** What a `Put` answers tells whether a number was taken; a new clip waits wherever there was room among 16. */
  lemma PutAnswers(cfg: Config, v: View, r: Request)
    requires r.Put?
    ensures var v', a := After(cfg, v, r), AnswerTo(cfg, v, r);
            && |a.clips| == 1 && v'.model.current == Some(a.clips[0]) && |v'.queues| == |v.queues|
            && (a.outcome == Stored <==> v'.model.seqNo == v.model.seqNo + 1)
            && (a.outcome == Repeated <==> v'.model == v.model && v'.queues == v.queues && v'.table == v.table)
            && (a.outcome == Stored ==> a.clips[0].seqNo == v.model.seqNo + 1 && a.clips[0].source == r.source)
            && forall k | 0 <= k < |v.queues| ::
                 v'.queues[k] == v.queues[k] + if a.outcome == Stored && k < |v.live| && v.live[k] && |v.queues[k]| < 16
                                               then a.clips else []
  {
  }

  /** The same but for what the callers' arrays at the places `ks` hold. */
  ghost predicate Agree(a: View, b: View, ks: set<nat>) {
    && a.(bytes := []) == b.(bytes := []) && |a.bytes| == |b.bytes|
    && (forall k | k in ks :: k < |a.bytes|)
    && (forall k | 0 <= k < |a.bytes| && k !in ks :: a.bytes[k] == b.bytes[k])
  }

  /** The request passes none of these arrays to a `Put`. */
  predicate Avoids(r: Request, ks: set<nat>) {
    r.Put? && r.payload.Some? ==> r.payload.value !in ks
  }

  lemma AnswerKeeps(cfg: Config, a: View, b: View, r: Request, ks: set<nat>)
    requires Agree(a, b, ks) && Avoids(r, ks)
    ensures AnswerTo(cfg, a, r) == AnswerTo(cfg, b, r) && Agree(After(cfg, a, r), After(cfg, b, r), ks)
  {
    if r.Put? {
      assert InputOf(a, r) == InputOf(b, r);
    }
    assert a == b.(bytes := a.bytes);
    ChangeKeeps(cfg, a, b, r, ks);
    HandingKeeps(Changed(cfg, a, r), Changed(cfg, b, r), Answered(cfg, a, r), ks);
  }

  lemma ChangeKeeps(cfg: Config, a: View, b: View, r: Request, ks: set<nat>)
    requires Agree(a, b, ks) && Avoids(r, ks)
    ensures Agree(Changed(cfg, a, r), Changed(cfg, b, r), ks)
  {
    if r.Put? {
      assert InputOf(a, r) == InputOf(b, r);
    }
    assert a == b.(bytes := a.bytes);
  }

  lemma HandingKeeps(a: View, b: View, clips: seq<Clip>, ks: set<nat>)
    requires Agree(a, b, ks)
    ensures Agree(Handed(a, clips), Handed(b, clips), ks)
  {
    assert a == b.(bytes := a.bytes);
  }

  /**
   Whatever callers have written to some of their arrays, all later answers are the same, and so is everything else they
   can come to see, as long as these very arrays are not passed to a `Put`.
   */
  lemma {:induction false} AnswersKeep(cfg: Config, a: View, b: View, rs: seq<Request>, ks: set<nat>)
    requires Agree(a, b, ks) && forall r | r in rs :: Avoids(r, ks)
    ensures AllAnswered(cfg, a, rs) == AllAnswered(cfg, b, rs)
    ensures Agree(AfterAll(cfg, a, rs), AfterAll(cfg, b, rs), ks)
  {
    hide Agree, Avoids, After, AnswerTo;
    if rs != [] {
      var n := |rs| - 1;
      assert forall r | r in rs[..n] :: r in rs;
      assert rs[n] in rs;
      AnswersKeep(cfg, a, b, rs[..n], ks);
      AnswerKeeps(cfg, AfterAll(cfg, a, rs[..n]), AfterAll(cfg, b, rs[..n]), rs[n], ks);
    }
  }

  // ---- the heap that shows it ----

  /** What callers hold: every array and channel that has come to them, in order. */
  datatype Callers = Callers(arrays: seq<array<Byte>>, channels: seq<Subscriber>)

  ghost predicate NoRepeats(arrays: seq<array<Byte>>) {
    forall i, j | 0 <= i < j < |arrays| :: arrays[i] != arrays[j]
  }

  ghost predicate BytesShow(arrays: seq<array<Byte>>, bytes: seq<Bytes>)
    reads arrays
  {
    |bytes| == |arrays| && forall i | 0 <= i < |arrays| :: arrays[i][..] == bytes[i]
  }

  ghost predicate QueuesShow(channels: seq<Subscriber>, queues: seq<seq<Clip>>)
    reads channels, set k, j | 0 <= k < |channels| && 0 <= j < |channels[k].queue| :: channels[k].queue[j].data
  {
    |queues| == |channels| && forall k | 0 <= k < |channels| :: Shows(channels[k].queue, queues[k])
  }

  ghost predicate LiveShow(channels: seq<Subscriber>, subs: seq<Subscriber>, live: seq<bool>) {
    |live| == |channels| && forall k | 0 <= k < |channels| :: live[k] <==> channels[k] in subs
  }

  /** What the hub may write to, what waits on its channels, and what the callers have. */
  ghost function World(h: Hub, c: Callers): set<object?>
    reads h, h.Channels
  {
    {h, h.store} + h.Repr + Reach(h.Channels) + set a | a in c.arrays
  }

  /** The callers' arrays are all different, and none is reachable from the hub or its channels. */
  ghost predicate Separate(h: Hub, c: Callers)
    reads h, h.Channels
  {
    NoRepeats(c.arrays) && forall a | a in c.arrays :: a !in h.Repr && a !in Reach(h.Channels)
  }

  /** Hub and callers together show `v`. */
  ghost predicate Ready(h: Hub, c: Callers, v: View)
    reads h, h.Repr, h.Channels, h.store, c.arrays, c.channels
    reads set k, j | 0 <= k < |c.channels| && 0 <= j < |c.channels[k].queue| :: c.channels[k].queue[j].data
  {
    && h.Valid() && (h.store != null ==> Keyed(h.store.rows)) && c.channels == h.Channels && Separate(h, c)
    && h.Model == v.model && v.table == (if h.store == null then None else Some(h.store.Contents()))
    && BytesShow(c.arrays, v.bytes) && QueuesShow(c.channels, v.queues) && LiveShow(c.channels, h.subs, v.live)
  }

  // ---- handing out ----

  lemma PayloadsAppend(clips: seq<Clip>, x: Clip)
    ensures Payloads(clips + [x]) == Payloads(clips) + (if x.data == [] then [] else [x.data])
  {
    assert (clips + [x])[..|clips|] == clips;
  }

  /** The arrays of items handed out, but for those of no length, in which there is nothing to overwrite. */
  method Gather(items: seq<Item>, ghost clips: seq<Clip>) returns (list: seq<array<Byte>>)
    requires Shows(items, clips) && Apart(items)
    ensures BytesShow(list, Payloads(clips)) && NoRepeats(list) && forall a | a in list :: a in AllArrays(items)
  {
    list := [];
    for i := 0 to |items|
      invariant BytesShow(list, Payloads(clips[..i])) && NoRepeats(list)
      invariant forall a | a in list :: exists j :: 0 <= j < i && items[j].data == a
    {
      assert clips[..i + 1] == clips[..i] + [clips[i]];
      PayloadsAppend(clips[..i], clips[i]);
      assert Val(items[i]) == clips[i];
      if items[i].data != null && items[i].data.Length > 0 {
        assert items[i].data !in list;
        list := list + [items[i].data];
      }
    }
    assert clips[..|items|] == clips;
  }

  lemma BytesJoin(a: seq<array<Byte>>, x: seq<Bytes>, b: seq<array<Byte>>, y: seq<Bytes>)
    requires BytesShow(a, x) && BytesShow(b, y)
    ensures BytesShow(a + b, x + y)
  {
  }

  lemma NoRepeatsJoin(a: seq<array<Byte>>, b: seq<array<Byte>>)
    requires NoRepeats(a) && NoRepeats(b) && forall x | x in b :: x !in a
    ensures NoRepeats(a + b)
  {
    var l := a + b;
    forall i, j | 0 <= i < j < |l| ensures l[i] != l[j] {
      if i < |a| <= j {
        assert l[i] in a && l[j] in b;
      }
    }
  }

  /** Arrays nobody else has become the callers'. */
  lemma Adopted(h: Hub, c: Callers, v: View, more: seq<array<Byte>>, bytes: seq<Bytes>)
    requires Ready(h, c, v) && BytesShow(more, bytes) && NoRepeats(more)
    requires forall a | a in more :: a !in h.Repr && a !in Reach(h.Channels) && a !in c.arrays
    ensures Ready(h, c.(arrays := c.arrays + more), v.(bytes := v.bytes + bytes))
    ensures World(h, c.(arrays := c.arrays + more)) == World(h, c) + set a | a in more
  {
    NoRepeatsJoin(c.arrays, more);
    BytesJoin(c.arrays, v.bytes, more, bytes);
    hide NoRepeats, BytesShow, Reach, LiveShow, QueuesShow, Fits, Linked;
    var all := c.arrays + more;
    assert forall a | a in all :: a in c.arrays || a in more;
  }

  /** Items on arrays nobody else has are handed out. */
  method HandOut(h: Hub, c: Callers, ghost v: View, items: seq<Item>, ghost clips: seq<Clip>) returns (c': Callers)
    requires Ready(h, c, v) && Shows(items, clips) && Apart(items)
    requires forall a | a in AllArrays(items) :: a !in h.Repr && a !in Reach(h.Channels) && a !in c.arrays
    ensures Ready(h, c', Handed(v, clips)) && World(h, c') <= World(h, c) + AllArrays(items)
    ensures c.arrays <= c'.arrays && c'.channels == c.channels
  {
    hide Apart, AllArrays, Reach, LiveShow, NoRepeats, BytesShow;
    var more := Gather(items, clips);
    Adopted(h, c, v, more, Payloads(clips));
    c' := c.(arrays := c.arrays + more);
  }

  /** ... or one item. */
  method HandOne(h: Hub, c: Callers, ghost v: View, item: Item) returns (c': Callers)
    requires Ready(h, c, v) && Arrays(item) !! h.Repr && Arrays(item) !! Reach(h.Channels)
    requires forall a | a in c.arrays :: a !in Arrays(item)
    ensures Ready(h, c', Handed(v, [Val(item)])) && World(h, c') <= World(h, c) + Arrays(item)
    ensures c.arrays <= c'.arrays && c'.channels == c.channels
  {
    hide Ready, Reach, World;
    ArraysOfOne(item);
    c' := HandOut(h, c, v, [item], [Val(item)]);
  }

  lemma HandedNone(v: View)
    ensures Handed(v, []) == v
  {
    assert v.bytes + [] == v.bytes;
  }

  lemma ArraysOfOne(item: Item)
    ensures AllArrays([item]) == Arrays(item) && Apart([item]) && Shows([item], [Val(item)])
  {
    assert [item][0] == item;
  }

  // ---- requests ----

  lemma SaveKeepsKeyed(t: Table, x: Clip)
    requires Keyed(t.rows)
    ensures Keyed(AfterSave(t, x).rows)
  {
  }

  lemma SentShows(q: seq<Item>, clips: seq<Clip>, copy: Item)
    requires Shows(q, clips)
    ensures Shows(Sent(q, copy), if |clips| < QUEUE_CAPACITY then clips + [Val(copy)] else clips)
  {
  }

  ghost predicate AllShow(qs: seq<seq<Item>>, queues: seq<seq<Clip>>)
    reads set k, j | 0 <= k < |qs| && 0 <= j < |qs[k]| :: qs[k][j].data
  {
    |qs| == |queues| && forall k | 0 <= k < |qs| :: Shows(qs[k], queues[k])
  }

  lemma QueuesWere(channels: seq<Subscriber>, queues: seq<seq<Clip>>) returns (was: seq<seq<Item>>)
    requires QueuesShow(channels, queues)
    ensures was == Queues(channels) && AllShow(was, queues)
  {
    was := Queues(channels);
  }

  /** Each subscribed channel was sent its copy of `x`, the others nothing. */
  ghost predicate SentFrom(channels: seq<Subscriber>, subs: seq<Subscriber>, was: seq<seq<Item>>, copies: seq<Item>,
                           x: Clip)
    reads channels, set i | 0 <= i < |copies| :: copies[i].data
  {
    && |was| == |channels| && |copies| == |subs| && Clones(copies, x)
    && (forall k, i | 0 <= k < |channels| && 0 <= i < |subs| && subs[i] == channels[k] ::
          channels[k].queue == Sent(was[k], copies[i]))
    && (forall k | 0 <= k < |channels| && channels[k] !in subs :: channels[k].queue == was[k])
  }

  /** What the channels show after a `Put` that was new, or was not. */
  lemma QueuesNow(channels: seq<Subscriber>, subs: seq<Subscriber>, was: seq<seq<Item>>, copies: seq<Item>,
                  queues: seq<seq<Clip>>, live: seq<bool>, x: Clip)
    requires AllShow(was, queues) && LiveShow(channels, subs, live)
    ensures was == Queues(channels) ==> QueuesShow(channels, queues)
    ensures SentFrom(channels, subs, was, copies, x) ==> QueuesShow(channels, SentToAll(queues, live, x))
  {
    if was == Queues(channels) {
      assert forall k | 0 <= k < |channels| :: channels[k].queue == was[k];
    }
    if SentFrom(channels, subs, was, copies, x) {
      forall k | 0 <= k < |channels| ensures Shows(channels[k].queue, SentToAll(queues, live, x)[k]) {
        if channels[k] in subs {
          var i :| 0 <= i < |subs| && subs[i] == channels[k];
          assert Val(copies[i]) == x;
          SentShows(was[k], queues[k], copies[i]);
        }
      }
    }
  }

  /** The hub in order, and the callers' arrays as they were. */
  ghost predicate InOrder(h: Hub, c: Callers, v: View)
    reads World(h, c)
  {
    && h.Valid() && (h.store != null ==> Keyed(h.store.rows)) && c.channels == h.Channels && Separate(h, c)
    && BytesShow(c.arrays, v.bytes) && LiveShow(c.channels, h.subs, v.live)
  }

  /** `Put` on the hub, with its fan-out read off all channels. */
  method PutSent(h: Hub, input: RawInput, now: nat, saveOk: bool)
    returns (item: Item, isNew: bool, ghost was: seq<seq<Item>>, ghost copies: seq<Item>)
    requires h.Valid()
    modifies h, h.subs, h.store
    ensures h.Valid() && fresh(h.Repr - old(h.Repr)) && h.subs == old(h.subs) && h.Channels == old(h.Channels)
    ensures Reach(h.Channels) <= old(Reach(h.Channels)) + AllArrays(copies) && fresh(AllArrays(copies))
    ensures isNew <==> !IsDuplicate(h.Cfg(), old(h.Model), old(InputVal(input)))
    ensures !isNew ==> h.Model == old(h.Model) && Val(item) == h.Model.current.value
    ensures isNew ==> Val(item) == NewClip(h.Cfg(), old(h.Model), old(InputVal(input)), now)
                      && h.Model == AfterCommit(h.Cfg(), old(h.Model), Val(item))
    ensures fresh(Arrays(item)) && Arrays(item) !! h.Repr && Arrays(item) !! Reach(h.Channels)
    ensures h.store != null ==>
              h.store.Contents() ==
              if isNew && saveOk then AfterSave(old(h.store.Contents()), Val(item)) else old(h.store.Contents())
    ensures was == old(Queues(h.Channels))
    ensures if isNew then SentFrom(h.Channels, h.subs, was, copies, Val(item)) else was == Queues(h.Channels)
  {
    hide Fits, Linked, Reach, AfterCommit, NewClip, AfterSave, Clones, IsDuplicate;
    was := Queues(h.Channels);
    item, isNew, copies := h.Put(input, now, saveOk);
  }

  /** ... with the payload its array holds now. */
  method PutHub(h: Hub, c: Callers, ghost v: View, r: Request)
    returns (item: Item, isNew: bool, ghost was: seq<seq<Item>>, ghost copies: seq<Item>)
    requires Ready(h, c, v) && r.Put?
    modifies h, h.subs, h.store
    ensures InOrder(h, c, v) && fresh(World(h, c) - old(World(h, c)))
    ensures isNew <==> !IsDuplicate(h.Cfg(), v.model, InputOf(v, r))
    ensures h.Model == if isNew then AfterCommit(h.Cfg(), v.model, Val(item)) else v.model
    ensures [Val(item)] == Answered(h.Cfg(), v, r)
    ensures fresh(Arrays(item)) && Arrays(item) !! h.Repr && Arrays(item) !! Reach(h.Channels)
    ensures forall a | a in c.arrays :: a !in Arrays(item)
    ensures h.store != null ==>
              v.table.Some? && h.store.Contents() ==
                               if isNew && r.saveOk then AfterSave(v.table.value, Val(item)) else v.table.value
    ensures AllShow(was, v.queues)
    ensures if isNew then SentFrom(c.channels, h.subs, was, copies, Val(item)) else was == Queues(c.channels)
  {
    hide Fits, Linked, Reach, AfterCommit, NewClip, AfterSave, Keyed, Clones;
    hide QueuesShow, LiveShow, NoRepeats, IsDuplicate, SentFrom;
    var _ := QueuesWere(c.channels, v.queues);
    var data: array?<Byte> :=
      if r.payload.Some? && r.payload.value < |c.arrays| then c.arrays[r.payload.value] else null;
    item, isNew, was, copies := PutSent(h, RawInput(r.mime, r.content, data, r.source), r.now, r.saveOk);
    if h.store != null { SaveKeepsKeyed(old(h.store.Contents()), Val(item)); }
  }

  /** One request served: hub and callers show the next view, the answer is the right one, and nothing is taken away. */
  twostate predicate Served(h: Hub, c: Callers, v: View, r: Request, new c': Callers, new items: seq<Item>)
    reads World(h, c'), c'.channels
    reads set k, j | 0 <= k < |c'.channels| && 0 <= j < |c'.channels[k].queue| :: c'.channels[k].queue[j].data
    reads set i | 0 <= i < |items| :: items[i].data
  {
    && Ready(h, c', After(h.Cfg(), v, r)) && Shows(items, Answered(h.Cfg(), v, r))
    && c.arrays <= c'.arrays && c.channels <= c'.channels && fresh(World(h, c') - old(World(h, c)))
  }

  /** What `Put` leaves behind shows the next view, but for what is handed out. */
  lemma PutReady(h: Hub, c: Callers, v: View, r: Request, x: Clip, isNew: bool, was: seq<seq<Item>>, copies: seq<Item>)
    requires r.Put? && InOrder(h, c, v) && (isNew <==> !IsDuplicate(h.Cfg(), v.model, InputOf(v, r)))
    requires h.Model == (if isNew then AfterCommit(h.Cfg(), v.model, x) else v.model)
    requires v.table.Some? == (h.store != null)
    requires [x] == Answered(h.Cfg(), v, r)
    requires h.store != null ==>
               h.store.Contents() == if isNew && r.saveOk then AfterSave(v.table.value, x) else v.table.value
    requires AllShow(was, v.queues)
    requires if isNew then SentFrom(c.channels, h.subs, was, copies, x) else was == Queues(c.channels)
    ensures Ready(h, c, Changed(h.Cfg(), v, r))
  {
    hide AfterCommit, NewClip, AfterSave, IsDuplicate, SentToAll, Fits, Linked, Reach, Keyed;
    hide QueuesShow, AllShow, LiveShow, SentFrom, BytesShow, Separate;
    QueuesNow(c.channels, h.subs, was, copies, v.queues, v.live, x);
  }

  method PutOnce(h: Hub, c: Callers, ghost v: View, r: Request) returns (item: Item, isNew: bool)
    requires Ready(h, c, v) && r.Put?
    modifies h, h.subs, h.store
    ensures Ready(h, c, Changed(h.Cfg(), v, r)) && [Val(item)] == Answered(h.Cfg(), v, r)
    ensures isNew <==> !IsDuplicate(h.Cfg(), v.model, InputOf(v, r))
    ensures fresh(World(h, c) - old(World(h, c)))
    ensures fresh(Arrays(item)) && Arrays(item) !! h.Repr && Arrays(item) !! Reach(h.Channels)
    ensures forall a | a in c.arrays :: a !in Arrays(item)
  {
    TableShown(h, c, v);
    hide *;
    var put, new', was, copies := PutHub(h, c, v, r);
    PutReady(h, c, v, r, Val(put), new', was, copies);
    item, isNew := put, new';
  }

  method DoPut(h: Hub, c: Callers, ghost v: View, r: Request)
    returns (c': Callers, items: seq<Item>, outcome: Outcome)
    requires Ready(h, c, v) && r.Put?
    modifies h, h.subs, h.store
    ensures Served(h, c, v, r, c', items) && outcome == OutcomeOf(h.Cfg(), v, r)
  {
    hide Ready, Changed, Answered, Reach, World, Arrays;
    var item, isNew := PutOnce(h, c, v, r);
    c' := HandOne(h, c, Changed(h.Cfg(), v, r), item);
    items, outcome := [item], if isNew then Stored else Repeated;
  }

  lemma TableShown(h: Hub, c: Callers, v: View)
    requires Ready(h, c, v)
    ensures v.table.Some? == (h.store != null)
  {
  }

  /** A read: the items it finds, copied to arrays of their own. */
  method Found(h: Hub, c: Callers, ghost v: View, r: Request) returns (items: seq<Item>, outcome: Outcome)
    requires Ready(h, c, v) && (r.Get? || r.History? || r.Since? || r.Lookup? || r.Page?)
    ensures Shows(items, Answered(h.Cfg(), v, r)) && Apart(items) && fresh(AllArrays(items))
    ensures outcome == OutcomeOf(h.Cfg(), v, r)
  {
    hide Fits, Linked, Keyed, NewestFirst, PageOf, OldestFirst, Remembered, QueuesShow, BytesShow, LiveShow, Separate;
    items, outcome := [], Done;
    match r {
      case Get =>
        var item := h.Get();
        if item.Some? { items := ListOne(item.value); }
      case History(limit) => items := h.History(limit);
      case Since(after) => items := h.Since(after);
      case Lookup(n) =>
        var item := h.GetBySeq(n);
        if item.Some? { items := ListOne(item.value); }
      case Page(limit, before, readOk) =>
        var ok, page, next, hasMore := h.HistoryPage(limit, before, readOk);
        if ok {
          items, outcome := page, Paged(next, hasMore);
        } else {
          outcome := Failed;
        }
    }
  }

  method ListOne(item: Item) returns (items: seq<Item>)
    ensures Shows(items, [Val(item)]) && Apart(items) && AllArrays(items) == Arrays(item)
  {
    ArraysOfOne(item);
    items := [item];
  }

  method Search(h: Hub, c: Callers, ghost v: View, r: Request) returns (items: seq<Item>, outcome: Outcome)
    requires Ready(h, c, v) && (r.Get? || r.History? || r.Since? || r.Lookup? || r.Page?)
    ensures Ready(h, c, v) && World(h, c) == old(World(h, c)) && outcome == OutcomeOf(h.Cfg(), v, r)
    ensures Shows(items, Answered(h.Cfg(), v, r)) && Apart(items) && fresh(AllArrays(items))
    ensures forall a | a in AllArrays(items) :: a !in h.Repr && a !in Reach(h.Channels) && a !in c.arrays
  {
    hide Fits, Linked, Keyed, Answered, OutcomeOf;
    items, outcome := Found(h, c, v, r);
  }

  method DoRead(h: Hub, c: Callers, ghost v: View, r: Request)
    returns (c': Callers, items: seq<Item>, outcome: Outcome)
    requires Ready(h, c, v) && (r.Get? || r.History? || r.Since? || r.Lookup? || r.Page?)
    ensures Served(h, c, v, r, c', items) && outcome == OutcomeOf(h.Cfg(), v, r)
  {
    hide Ready, Reach, World, AllArrays, Apart, Answered, Payloads, OutcomeOf;
    items, outcome := Search(h, c, v, r);
    c' := HandOut(h, c, v, items, Answered(h.Cfg(), v, r));
  }

  /** The world after a request that hands nothing out. */
  lemma NothingHanded(cfg: Config, v: View, r: Request)
    requires Answered(cfg, v, r) == []
    ensures After(cfg, v, r) == Changed(cfg, v, r) && Shows([], Answered(cfg, v, r))
  {
    HandedNone(Changed(cfg, v, r));
  }

  method DoMake(h: Hub, c: Callers, ghost v: View, r: Request) returns (c': Callers)
    requires Ready(h, c, v) && r.Make?
    ensures Served(h, c, v, r, c', [])
  {
    hide Fits, Linked, BytesShow, NoRepeats, LiveShow;
    NothingHanded(h.Cfg(), v, r);
    var bytes := r.bytes;
    var a := new Byte[|bytes|](i requires 0 <= i < |bytes| => bytes[i]);
    OneArray(a, bytes);
    Adopted(h, c, v, [a], [bytes]);
    c' := c.(arrays := c.arrays + [a]);
  }

  lemma OneArray(a: array<Byte>, bytes: Bytes)
    requires a[..] == bytes
    ensures BytesShow([a], [bytes]) && NoRepeats([a])
  {
  }

  /** Whatever array a caller has, it may overwrite. */
  method DoWrite(h: Hub, c: Callers, ghost v: View, r: Request)
    requires Ready(h, c, v) && r.Write?
    modifies c.arrays
    ensures Served(h, c, v, r, c, [])
  {
    hide Fits, Own, LiveShow;
    NothingHanded(h.Cfg(), v, r);
    if r.which < |c.arrays| && r.at < c.arrays[r.which].Length {
      CallerWrites(h, c.arrays[r.which], r.at, r.value);
    }
  }

  method DoClear(h: Hub, c: Callers, ghost v: View, r: Request) returns (outcome: Outcome)
    requires Ready(h, c, v) && r.Clear?
    modifies h, h.store
    ensures Served(h, c, v, r, c, []) && outcome == OutcomeOf(h.Cfg(), v, r)
  {
    hide Fits, Linked, Reach;
    NothingHanded(h.Cfg(), v, r);
    var ok := h.Clear(r.deleteOk);
    outcome := if ok then Done else Failed;
  }

  method DoReap(h: Hub, c: Callers, ghost v: View, r: Request)
    requires Ready(h, c, v) && r.Reap?
    modifies h, h.Repr
    ensures Served(h, c, v, r, c, [])
  {
    NothingHanded(h.Cfg(), v, r);
    var _ := h.ReapExpired(r.now);
  }

  method DoExpire(h: Hub, c: Callers, ghost v: View, r: Request)
    requires Ready(h, c, v) && r.Expire?
    modifies h.store
    ensures Served(h, c, v, r, c, [])
  {
    hide Fits, Linked, Reach, TableStore.AfterTextExpiry;
    NothingHanded(h.Cfg(), v, r);
    if h.store != null {
      ExpiryKeepsKeyed(h.store.Contents(), r.before, r.zone);
      h.store.DeleteExpired(r.before, r.zone, r.ok);
    }
  }

  lemma ExpiryKeepsKeyed(t: Table, before: nat, zone: TableStore.Zone)
    requires Keyed(t.rows)
    ensures Keyed(TableStore.AfterTextExpiry(t, before, zone).rows)
  {
  }

  method DoSubscribe(h: Hub, c: Callers, ghost v: View, r: Request) returns (c': Callers)
    requires Ready(h, c, v) && r.Subscribe?
    modifies h
    ensures Served(h, c, v, r, c', [])
  {
    hide Fits, Linked, Reach, Keyed;
    NothingHanded(h.Cfg(), v, r);
    var sub := h.Subscribe();
    c' := c.(channels := c.channels + [sub]);
  }

  method DoUnsubscribe(h: Hub, c: Callers, ghost v: View, r: Request)
    requires Ready(h, c, v) && r.Unsubscribe?
    modifies h
    ensures Served(h, c, v, r, c, [])
  {
    hide Fits, Own, Keyed;
    NothingHanded(h.Cfg(), v, r);
    if r.channel < |c.channels| {
      h.Unsubscribe(c.channels[r.channel]);
    }
  }

  /** What is taken off a channel is the callers' from then on. */
  method ReceiveOnce(h: Hub, c: Callers, ghost v: View, r: Request) returns (item: Item)
    requires Ready(h, c, v) && r.Receive? && r.channel < |c.channels| && c.channels[r.channel].queue != []
    modifies h.Channels
    ensures Ready(h, c, Changed(h.Cfg(), v, r)) && [Val(item)] == Answered(h.Cfg(), v, r)
    ensures Arrays(item) !! h.Repr && Arrays(item) !! Reach(h.Channels)
    ensures forall a | a in c.arrays :: a !in Arrays(item)
    ensures World(h, c) + Arrays(item) <= old(World(h, c))
  {
    hide Fits, Own, Reach, Keyed;
    assert Val(c.channels[r.channel].queue[0]) == v.queues[r.channel][0];
    item := h.Receive(c.channels[r.channel]);
  }

  method DoTake(h: Hub, c: Callers, ghost v: View, r: Request) returns (c': Callers, items: seq<Item>)
    requires Ready(h, c, v) && r.Receive? && r.channel < |c.channels| && c.channels[r.channel].queue != []
    modifies h.Channels
    ensures Served(h, c, v, r, c', items)
  {
    hide Ready, Changed, Answered, Reach, World, Arrays;
    var item := ReceiveOnce(h, c, v, r);
    c' := HandOne(h, c, Changed(h.Cfg(), v, r), item);
    items := [item];
  }

  method DoReceive(h: Hub, c: Callers, ghost v: View, r: Request) returns (c': Callers, items: seq<Item>)
    requires Ready(h, c, v) && r.Receive?
    modifies h.Channels
    ensures Served(h, c, v, r, c', items)
  {
    if r.channel < |c.channels| && c.channels[r.channel].queue != [] {
      hide *;
      c', items := DoTake(h, c, v, r);
    } else {
      ChannelShown(h, c, v, r);
      NothingHanded(h.Cfg(), v, r);
      hide Ready, World;
      c', items := c, [];
    }
  }

  lemma ChannelShown(h: Hub, c: Callers, v: View, r: Request)
    requires Ready(h, c, v) && r.Receive?
    ensures r.channel >= |c.channels| || c.channels[r.channel].queue == [] ==>
              Answered(h.Cfg(), v, r) == [] && Changed(h.Cfg(), v, r) == v
  {
  }

  /** Whatever a request may write to is part of the world. */
  lemma WorldHolds(h: Hub, c: Callers, v: View)
    requires Ready(h, c, v)
    ensures h in World(h, c) && h.store in World(h, c) && h.Repr <= World(h, c)
    ensures forall s | s in h.subs || s in h.Channels :: s in World(h, c)
    ensures forall a | a in c.arrays :: a in World(h, c)
  {
  }

  /** One request, whatever it is. */
  method Serve(h: Hub, c: Callers, ghost v: View, r: Request)
    returns (c': Callers, items: seq<Item>, outcome: Outcome)
    requires Ready(h, c, v)
    modifies World(h, c)
    ensures Served(h, c, v, r, c', items) && outcome == OutcomeOf(h.Cfg(), v, r)
  {
    WorldHolds(h, c, v);
    hide Ready, Served, World;
    c', items, outcome := c, [], Done;
    match r {
      case Make(_) => c' := DoMake(h, c, v, r);
      case Write(_, _, _) => DoWrite(h, c, v, r);
      case Put(_, _, _, _, _, _) => c', items, outcome := DoPut(h, c, v, r);
      case Clear(_) => outcome := DoClear(h, c, v, r);
      case Reap(_) => DoReap(h, c, v, r);
      case Expire(_, _, _) => DoExpire(h, c, v, r);
      case Subscribe => c' := DoSubscribe(h, c, v, r);
      case Unsubscribe(_) => DoUnsubscribe(h, c, v, r);
      case Receive(_) => c', items := DoReceive(h, c, v, r);
      case _ => c', items, outcome := DoRead(h, c, v, r);
    }
  }

  /** A new hub, over a store or without one, before it has any callers. */
  method Open(cfgHistory: int, cfgTtl: int, digest: Bytes -> string, store: TableStore.Store?)
    returns (h: Hub, c: Callers)
    requires store != null ==> Sound(store.Contents())
    ensures h.Cfg() == Config(if cfgHistory <= 0 then DEFAULT_HISTORY else cfgHistory,
                              if cfgTtl <= 0 then DEFAULT_TTL else cfgTtl, digest)
    ensures store == null ==> Ready(h, c, View(HubState(None, [], 0), None, [], [], []))
    ensures store != null ==>
              var t := store.Contents();
              var items := Take(NewestFirst(t.rows), h.maxHistory);
              Ready(h, c, View(Loaded(LoadSeq(t), items), Some(t), [], [], []))
  {
    hide Fits, Linked, Loaded, NewestFirst, LoadSeq;
    h := new Hub(cfgHistory, cfgTtl, digest, store);
    c := Callers([], []);
  }

  /** What a caller reads off the items it is handed. */
  function Values(items: seq<Item>): seq<Clip>
    reads set i | 0 <= i < |items| :: items[i].data
  {
    if items == [] then [] else Values(items[..|items| - 1]) + [Val(items[|items| - 1])]
  }

  lemma {:induction false} ValuesShown(items: seq<Item>, clips: seq<Clip>)
    requires Shows(items, clips)
    ensures Values(items) == clips
  {
    if items != [] {
      var n := |items| - 1;
      ValuesShown(items[..n], clips[..n]);
      assert clips == clips[..n] + [clips[n]];
    }
  }

  /**
   Any requests in any order, callers overwriting their arrays in between: every answer is the one the hub of plain
   values gives, and in the end hub, table, channels and all the callers' arrays hold what it says.
   */
  method ServeAll(h: Hub, c: Callers, ghost v: View, requests: seq<Request>)
    returns (c': Callers, answers: seq<Answer>)
    requires Ready(h, c, v)
    modifies World(h, c)
    ensures Ready(h, c', AfterAll(h.Cfg(), v, requests)) && answers == AllAnswered(h.Cfg(), v, requests)
    ensures c.arrays <= c'.arrays && c.channels <= c'.channels
  {
    hide Ready, After, Answered, OutcomeOf, World;
    c', answers := c, [];
    for i := 0 to |requests|
      invariant Ready(h, c', AfterAll(h.Cfg(), v, requests[..i])) && fresh(World(h, c') - old(World(h, c)))
      invariant answers == AllAnswered(h.Cfg(), v, requests[..i])
      invariant c.arrays <= c'.arrays && c.channels <= c'.channels
    {
      ghost var now := AfterAll(h.Cfg(), v, requests[..i]);
      assert requests[..i + 1][..i] == requests[..i];
      var items, outcome;
      c', items, outcome := Serve(h, c', now, requests[i]);
      ValuesShown(items, Answered(h.Cfg(), now, requests[i]));
      answers := answers + [Answer(Values(items), outcome)];
    }
    assert requests[..|requests|] == requests;
  }
}
