/**
 The hub as the source lays it out: a slice of items over a backing array, a pointer to the current item that may
 point into that array, subscriber channels and a store. One thread: publishing follows its commit at once.
 `Model` is the abstract value; Valid ties every byte reachable from the fields to it.
 */
module HubClass {
  import opened Clips
  import opened HubSpec
  import opened Tables
  import opened Items
  import opened TableStore
  import opened Cursors
  import opened Paging

  datatype RawInput = RawInput(mime: string, content: Bytes, data: array?<Byte>, source: string)

  function InputVal(input: RawInput): PutInput
    reads input.data
  {
    PutInput(input.mime, input.content, if input.data == null then [] else input.data[..], input.source)
  }

  lemma InputValIs(input: RawInput)
    ensures var v := InputVal(input);
            v.mime == input.mime && v.content == input.content && v.source == input.source
            && v.data == if input.data == null then [] else input.data[..]
  {
  }

  /** The item carries what the input says, byte for byte. */
  predicate Records(item: Item, v: PutInput, number: nat, hash: string, created: nat, expires: nat)
    reads item.data
  {
    && item.seqNo == number && item.mime == v.mime && item.content == v.content && item.source == v.source
    && item.hash == hash && item.createdAt == created && item.expiresAt == expires
    && (if item.data == null then [] else item.data[..]) == v.data
  }

  lemma NewRecords(cfg: Config, m: HubState, v: PutInput, now: nat, item: Item)
    requires Val(item) == NewClip(cfg, m, v, now)
    ensures Records(item, v, m.seqNo + 1, item.hash, now, now + cfg.ttl)
    ensures item.hash == cfg.digest(if "text/" <= v.mime then v.content else v.data)
  {
  }

  class ItemBox {
    var item: Item

    constructor (item: Item)
      ensures this.item == item
    {
      this.item := item;
    }
  }

  class Subscriber {
    var queue: seq<Item>

    constructor ()
      ensures queue == []
    {
      queue := [];
    }

    /** The non-blocking send: dropped when 16 items wait. */
    method TrySend(item: Item)
      modifies this
      ensures queue == Sent(old(queue), item)
      ensures queue == if |old(queue)| < 16 then old(queue) + [item] else old(queue)
    {
      if |queue| < QUEUE_CAPACITY {
        queue := queue + [item];
      }
    }

    /** The reader's side: takes the oldest waiting item. */
    method Receive() returns (item: Item)
      requires queue != []
      modifies this
      ensures item == old(queue)[0] && queue == old(queue)[1..]
    {
      item, queue := queue[0], queue[1..];
    }
  }

  /** The non-blocking send of `copy` on a channel that holds `before`. */
  function Sent(before: seq<Item>, copy: Item): seq<Item> {
    if |before| < QUEUE_CAPACITY then before + [copy] else before
  }

  /** Every item shows the clip, and no two share an array. */
  ghost predicate Clones(copies: seq<Item>, clip: Clip)
    reads set i | 0 <= i < |copies| :: copies[i].data
  {
    (forall i | 0 <= i < |copies| :: Val(copies[i]) == clip) && Apart(copies)
  }

  lemma NoClones(clip: Clip)
    ensures Clones([], clip) && AllArrays([]) == {}
  {
  }

  lemma OneMoreClone(copies: seq<Item>, copy: Item, clip: Clip)
    requires Clones(copies, clip) && Val(copy) == clip && Arrays(copy) !! AllArrays(copies)
    ensures Clones(copies + [copy], clip)
  {
    ApartAppend(copies, copy);
  }

  ghost predicate Distinct(list: seq<Subscriber>) {
    forall i, j | 0 <= i < j < |list| :: list[i] != list[j]
  }

  // ---- what waits in the channels ----

  ghost function Queues(list: seq<Subscriber>): seq<seq<Item>>
    reads list
  {
    seq(|list|, i requires 0 <= i < |list| reads list => list[i].queue)
  }

  /** The arrays of everything that waits. */
  ghost function Held(qs: seq<seq<Item>>): set<object> {
    set i, j | 0 <= i < |qs| && 0 <= j < |qs[i]| && qs[i][j].data != null :: qs[i][j].data
  }

  /** No two waiting items share an array, on one channel or on two. */
  ghost predicate Own(qs: seq<seq<Item>>) {
    && (forall i | 0 <= i < |qs| :: Apart(qs[i]))
    && (forall i, j | 0 <= i < j < |qs| :: AllArrays(qs[i]) !! AllArrays(qs[j]))
  }

  lemma HeldBy(qs: seq<seq<Item>>, i: nat)
    requires i < |qs|
    ensures AllArrays(qs[i]) <= Held(qs)
  {
    forall o | o in AllArrays(qs[i]) ensures o in Held(qs) {
      var j :| 0 <= j < |qs[i]| && qs[i][j].data == o;
    }
  }

  lemma HeldFrom(qs: seq<seq<Item>>, o: object)
    requires o in Held(qs)
    ensures exists i :: 0 <= i < |qs| && o in AllArrays(qs[i])
  {
    var i, j :| 0 <= i < |qs| && 0 <= j < |qs[i]| && qs[i][j].data == o;
    assert o in AllArrays(qs[i]);
  }

  /** Replacing one queue by a part of it and arrays nobody holds. */
  lemma OwnReplaced(qs: seq<seq<Item>>, i: nat, q: seq<Item>, more: set<object>)
    requires Own(qs) && i < |qs| && Apart(q) && AllArrays(q) <= AllArrays(qs[i]) + more && more !! Held(qs)
    ensures Own(qs[i := q]) && Held(qs[i := q]) <= Held(qs) + more
  {
    var qs' := qs[i := q];
    HeldBy(qs, i);
    forall j | 0 <= j < |qs| && j != i ensures AllArrays(qs[j]) !! AllArrays(q) {
      HeldBy(qs, j);
    }
    forall o | o in Held(qs') ensures o in Held(qs) + more {
      HeldFrom(qs', o);
      var j :| 0 <= j < |qs'| && o in AllArrays(qs'[j]);
      if j != i { HeldBy(qs, j); }
    }
  }

  lemma OwnSent(qs: seq<seq<Item>>, i: nat, copy: Item)
    requires Own(qs) && i < |qs| && Arrays(copy) !! Held(qs)
    ensures Own(qs[i := Sent(qs[i], copy)]) && Held(qs[i := Sent(qs[i], copy)]) <= Held(qs) + Arrays(copy)
  {
    HeldBy(qs, i);
    AllArraysAppend(qs[i], copy);
    ApartAppend(qs[i], copy);
    OwnReplaced(qs, i, Sent(qs[i], copy), Arrays(copy));
  }

  /** What has been taken off a channel shares no array with what still waits anywhere. */
  lemma OwnReceived(qs: seq<seq<Item>>, i: nat)
    requires Own(qs) && i < |qs| && qs[i] != []
    ensures var qs' := qs[i := qs[i][1..]];
            Own(qs') && Held(qs') <= Held(qs) && Arrays(qs[i][0]) <= Held(qs) && Arrays(qs[i][0]) !! Held(qs')
  {
    var first, rest := qs[i][0], qs[i][1..];
    SliceArrays(qs[i], 1, |qs[i]|);
    assert qs[i][1..|qs[i]|] == rest;
    OwnReplaced(qs, i, rest, {});
    HeldBy(qs, i);
    ArraysWithin(qs[i], 0);
    var qs' := qs[i := rest];
    forall o | o in Held(qs') ensures o !in Arrays(first) {
      HeldFrom(qs', o);
      var j :| 0 <= j < |qs'| && o in AllArrays(qs'[j]);
      if j == i {
        var k :| 0 <= k < |rest| && rest[k].data == o;
        assert qs[i][k + 1].data == o;
      }
    }
  }

  lemma OwnNew(qs: seq<seq<Item>>)
    requires Own(qs)
    ensures Own(qs + [[]]) && Held(qs + [[]]) == Held(qs)
  {
    var qs' := qs + [[]];
    assert forall i | 0 <= i < |qs| :: qs'[i] == qs[i];
    assert AllArrays(qs'[|qs|]) == {};
  }

  /** The channels and the arrays of what waits in them. */
  ghost function Reach(channels: seq<Subscriber>): set<object>
    reads channels
  {
    (set s | s in channels) + Held(Queues(channels))
  }

  /** Every subscriber is on record, waiting items share no array, and nothing of either is reachable from the hub. */
  ghost predicate Linked(list: seq<Subscriber>, channels: seq<Subscriber>, r: set<object?>)
    reads channels
  {
    && Distinct(list) && Distinct(channels) && (forall s | s in list :: s in channels)
    && Own(Queues(channels)) && Reach(channels) !! r
  }

  lemma LinkedNone(r: set<object?>)
    ensures Linked([], [], r)
  {
  }

  lemma LinkedOutside(list: seq<Subscriber>, channels: seq<Subscriber>, r: set<object?>)
    requires Linked(list, channels, r)
    ensures Distinct(list) && forall s | s in channels || s in list :: s !in r
  {
  }

  lemma LinkedMore(list: seq<Subscriber>, channels: seq<Subscriber>, r: set<object?>, more: set<object?>)
    requires Linked(list, channels, r) && Reach(channels) !! more
    ensures Linked(list, channels, r + more)
  {
  }

  lemma LinkedNew(list: seq<Subscriber>, channels: seq<Subscriber>, r: set<object?>, sub: Subscriber)
    requires Linked(list, channels, r) && sub !in channels && sub !in r && sub.queue == []
    ensures Linked(list + [sub], channels + [sub], r) && Reach(channels + [sub]) == Reach(channels) + {sub}
  {
    assert Queues(channels + [sub]) == Queues(channels) + [[]];
    OwnNew(Queues(channels));
  }

  /** `current`: nil, a box of its own, or the first slot of the history's backing array, as `New` leaves it. */
  datatype Pointer = Nil | Boxed(box: ItemBox) | FirstSlot

  /** The first `n` slots show the history of `m`, with everything reached in `r`. */
  ghost predicate SlotsShow(cfg: Config, slots: array<Item>, n: nat, number: nat, m: HubState, r: set<object?>)
    reads r
  {
    && 0 < cfg.maxHistory && slots in r && n <= slots.Length
    && AllArrays(slots[..n]) <= r && Shows(slots[..n], m.history)
    && number == m.seqNo
    && Sane(cfg, m)
  }

  /** ... and `p` points to its current item. */
  ghost predicate Fits(cfg: Config, p: Pointer, slots: array<Item>, n: nat, number: nat, m: HubState, r: set<object?>)
    reads r
  {
    match p
    case Nil => SlotsShow(cfg, slots, n, number, m, r) && m.current == None
    case Boxed(box) =>
      SlotsShow(cfg, slots, n, number, m, r) && box in r && Arrays(box.item) <= r && m.current == Some(Val(box.item))
    case FirstSlot => SlotsShow(cfg, slots, n, number, m, r) && m.history != [] && m.current == Some(m.history[0])
  }

  class Hub {
    const maxHistory: nat
    const ttl: nat
    const digest: Bytes -> string
    const store: Store?
    var current: Pointer
    var backing: array<Item>
    var len: nat
    var seqNo: nat
    var publishedSeq: nat
    var subs: seq<Subscriber>   // the keys of the source's map; the order in which channels are served does not matter
    ghost var Model: HubState
    ghost var Repr: set<object?>
    ghost var Channels: seq<Subscriber>   // every channel ever handed out

    ghost function Cfg(): Config {
      Config(maxHistory, ttl, digest)
    }

    ghost predicate Valid()
      reads this, Repr, Channels
    {
      Intact() && publishedSeq == seqNo
    }

    /** Valid, up to publishing the last commit. Repr: the backing array, the box of `current`, all payload arrays. */
    ghost predicate Intact()
      reads this, Repr, Channels
    {
      && len <= backing.Length && Fits(Cfg(), current, backing, len, seqNo, Model, Repr)
      && Linked(subs, Channels, Repr) && store !in Repr && this !in Repr
    }

    constructor (cfgHistory: int, cfgTtl: int, digest: Bytes -> string, store: Store?)
      requires store != null ==> Sound(store.Contents())
      ensures Valid() && fresh(Repr) && this.store == store && this.digest == digest && subs == Channels == []
      ensures maxHistory == (if cfgHistory <= 0 then 50 else cfgHistory)
      ensures ttl == (if cfgTtl <= 0 then 24 * 3600 * 1_000_000_000 else cfgTtl)
      ensures store == null ==> Model == HubState(None, [], 0)
      ensures store != null ==>
                Model == Loaded(LoadSeq(store.Contents()), Take(NewestFirst(store.Contents().rows), maxHistory))
    {
      maxHistory := if cfgHistory <= 0 then DEFAULT_HISTORY else cfgHistory;
      ttl := if cfgTtl <= 0 then DEFAULT_TTL else cfgTtl;
      this.digest := digest;
      this.store := store;
      current, len, seqNo, publishedSeq, subs := Nil, 0, 0, 0, [];
      backing := new Item[0];
      Model, Channels := HubState(None, [], 0), [];
      new;
      Repr := {backing};
      if store != null {
        Load(store);
      }
    }

    static method SlotsFor(items: seq<Item>) returns (slots: array<Item>)
      ensures fresh(slots) && slots[..] == items
    {
      slots := new Item[|items|](i requires 0 <= i < |items| => items[i]);
    }

    /** All fields of the history at once, for a state they fit. */
    method Install(p: Pointer, slots: array<Item>, n: nat, number: nat, ghost m: HubState, ghost r: set<object?>)
      requires n <= slots.Length && Fits(Cfg(), p, slots, n, number, m, r)
      requires Linked(subs, Channels, r) && store !in r && this !in r
      modifies this`current, this`backing, this`len, this`seqNo, this`Model, this`Repr
      ensures Intact() && Model == m && Repr == r
      ensures current == p && backing == slots && seqNo == number
    {
      hide Fits, Linked;
      current, backing, len, seqNo := p, slots, n, number;
      Model, Repr := m, r;
    }

    /** The part of `New` that takes over what the store holds. */
    method Load(from: Store)
      requires from == store && Sound(from.Contents()) && 0 < maxHistory && subs == Channels == []
      modifies this
      ensures Valid() && fresh(Repr) && subs == Channels == []
      ensures Model == Loaded(LoadSeq(from.Contents()), Take(NewestFirst(from.Contents().rows), maxHistory))
    {
      hide Fits, Linked, Loaded, NewestFirst, MaxKey, Keyed;
      var n, items := from.LoadState(maxHistory);
      publishedSeq := n;
      var slots := SlotsFor(items);
      var first := if |items| > 0 then FirstSlot else Nil;
      ghost var all: set<object?> := {slots} + AllArrays(items);
      LoadedFits(Cfg(), from.Contents(), items, slots, all);
      assert this !in all && store !in all;
      LinkedNone(all);
      Install(first, slots, |items|, n, Loaded(n, Take(NewestFirst(from.Contents().rows), maxHistory)), all);
    }

    /** The item `current` points to. */
    method Current() returns (item: Item)
      requires Valid() && Model.current.Some?
      ensures Val(item) == Model.current.value && Arrays(item) <= Repr
    {
      match current
      case Boxed(box) => item := box.item;
      case FirstSlot => item := backing[0];
    }

    /** `append([]ClipItem{item}, history...)`: a new backing array with `item` in front. */
    method Prepend(item: Item, ghost known: set<object>) returns (longer: array<Item>)
      requires len <= backing.Length
      ensures fresh(longer) && longer !in known && longer[..] == [item] + backing[..len]
    {
      longer := new Item[len + 1](_ => item);
      for i := 0 to len
        invariant longer[0] == item && forall j | 0 < j <= i :: longer[j] == backing[j - 1]
      {
        longer[i + 1] := backing[i];
      }
    }

    /** A copy for a caller, on an array that neither the hub nor any channel reaches. */
    method Copy(item: Item) returns (copy: Item)
      requires Intact()
      ensures Val(copy) == Val(item) && fresh(Arrays(copy)) && Arrays(copy) !! Reach(Channels) && Arrays(copy) !! Repr
    {
      copy := CloneItem(item);
    }

    /** The new item with a payload of its own. */
    method NewItem(input: RawInput, hash: string, now: nat) returns (item: Item)
      requires Valid() && hash == digest(Payload(InputVal(input)))
      ensures Val(item) == NewClip(Cfg(), Model, InputVal(input), now) && fresh(Arrays(item))
      ensures item.seqNo == seqNo + 1 && Arrays(item) !! Reach(Channels)
    {
      var data := CloneBytes(input.data);
      item := Item(seqNo + 1, input.mime, input.content, data, hash, input.source, now, now + ttl);
    }

    static method Boxing(item: Item, ghost known: set<object>) returns (box: ItemBox)
      ensures fresh(box) && box !in known && box.item == item
    {
      box := new ItemBox(item);
    }

    /** The part of `Put` under the lock: put the item first, cut the history, point `current` at it. */
    method Commit(item: Item)
      requires Valid() && item.seqNo == seqNo + 1 && Arrays(item) !! Reach(Channels)
      modifies this
      ensures Intact() && Repr == old(Repr) + {backing} + Arrays(item) + BoxOf(current)
      ensures subs == old(subs) && Channels == old(Channels)
      ensures fresh(backing) && fresh(BoxOf(current)) && publishedSeq == old(publishedSeq)
      ensures Model == AfterCommit(Cfg(), old(Model), Val(item)) && seqNo == item.seqNo
    {
      hide Fits, Sane, AfterCommit, Linked, Reach;
      ghost var reached := Reach(Channels);
      var box := Boxing(item, reached);
      var longer := Prepend(item, reached);
      var kept := if len + 1 > maxHistory then maxHistory else len + 1;
      ghost var m := AfterCommit(Cfg(), Model, Val(item));
      ghost var all := Repr + {longer, box} + Arrays(item);
      NewestFits(Cfg(), item, box, longer, kept, backing, len, current, seqNo, Model, Repr);
      LinkedMore(subs, Channels, Repr, {longer, box} + Arrays(item));
      assert Repr + ({longer, box} + Arrays(item)) == all;
      Install(Boxed(box), longer, kept, item.seqNo, m, all);
    }

    /** Fan-out of one item: every channel is offered a clone of its own. */
    method FanOut(list: seq<Subscriber>, item: Item, ghost channels: seq<Subscriber>, ghost r: set<object?>)
      returns (ghost copies: seq<Item>)
      requires Linked(list, channels, r)
      modifies list
      ensures Linked(list, channels, r) && Reach(channels) <= old(Reach(channels)) + AllArrays(copies)
      ensures |copies| == |list| && Clones(copies, Val(item)) && fresh(AllArrays(copies))
      ensures forall i | 0 <= i < |list| :: list[i].queue == Sent(old(list[i].queue), copies[i])
    {
      hide Clones, Reach, Linked, AllArrays;
      LinkedOutside(list, channels, r);
      copies := [];
      NoClones(Val(item));
      for i := 0 to |list|
        invariant Linked(list, channels, r) && Reach(channels) <= old(Reach(channels)) + AllArrays(copies)
        invariant |copies| == i && Clones(copies, Val(item)) && forall o | o in AllArrays(copies) :: fresh(o)
        invariant forall j | 0 <= j < i :: list[j].queue == Sent(old(list[j].queue), copies[j])
        invariant forall j | i <= j < |list| :: list[j].queue == old(list[j].queue)
      {
        copies := SendClone(list[i], item, list, channels, r, copies);
      }
    }

    /** One more clone, offered to one channel. */
    method SendClone(sub: Subscriber, item: Item, ghost list: seq<Subscriber>, ghost channels: seq<Subscriber>,
                     ghost r: set<object?>, ghost before: seq<Item>)
      returns (ghost copies: seq<Item>)
      requires Linked(list, channels, r) && sub in list && Clones(before, Val(item))
      modifies sub
      ensures Linked(list, channels, r) && Reach(channels) <= old(Reach(channels)) + AllArrays(copies)
      ensures |copies| == |before| + 1 && before <= copies && Clones(copies, Val(item))
      ensures AllArrays(before) <= AllArrays(copies)
      ensures forall o | o in AllArrays(copies) :: o in AllArrays(before) || fresh(o)
      ensures sub.queue == Sent(old(sub.queue), copies[|before|])
    {
      hide Clones;
      ghost var qs, known := Queues(channels), AllArrays(before);
      ghost var i :| 0 <= i < |channels| && channels[i] == sub;
      ghost var held := Held(qs);
      var clone := CloneItem(item);
      OwnSent(qs, i, clone);
      AllArraysAppend(before, clone);
      OneMoreClone(before, clone, Val(item));
      copies := before + [clone];
      sub.TrySend(clone);
      assert Queues(channels) == qs[i := Sent(qs[i], clone)];
    }

    /** Publishing on one's turn: fan-out, save, and the counter moves on. */
    method Publish(item: Item, saveOk: bool) returns (ghost copies: seq<Item>)
      requires Intact() && publishedSeq + 1 == item.seqNo == seqNo && Arrays(item) <= Repr
      modifies this`publishedSeq, subs, store
      ensures Valid() && Reach(Channels) <= old(Reach(Channels)) + AllArrays(copies)
      ensures |copies| == |subs| && Clones(copies, Val(item)) && fresh(AllArrays(copies))
      ensures forall i | 0 <= i < |subs| :: subs[i].queue == Sent(old(subs[i].queue), copies[i])
      ensures store != null ==>
                store.Contents() ==
                if saveOk then AfterSave(old(store.Contents()), Val(item)) else old(store.Contents())
    {
      hide Fits, Linked, Reach, AllArrays;
      LinkedOutside(subs, Channels, Repr);
      copies := FanOut(subs, item, Channels, Repr);
      if store != null {
        var _ := store.SaveItem(item, saveOk);
      }
      publishedSeq := item.seqNo;
    }

    /** The payload's hash, and whether the input repeats the current clip. */
    method Repeats(input: RawInput) returns (hash: string, repeats: bool)
      requires Valid()
      ensures hash == digest(Payload(InputVal(input)))
      ensures hash == digest(if "text/" <= input.mime then input.content
                             else if input.data == null then [] else input.data[..])
      ensures repeats <==> IsDuplicate(Cfg(), Model, InputVal(input))
      ensures repeats <==> Model.current.Some? && Model.current.value.mime == input.mime
                           && Model.current.value.hash == hash
    {
      var payload := if IsText(input.mime) then input.content else if input.data == null then [] else input.data[..];
      hash := digest(payload);
      repeats := false;
      if current != Nil {
        var cur := Current();
        repeats := cur.hash == hash && cur.mime == input.mime;
      }
    }

    /** The rest of `Put` for an item that is new: it becomes current, is published, and the caller gets a copy. */
    method PutNew(own: Item, saveOk: bool) returns (item: Item, ghost copies: seq<Item>)
      requires Valid() && own.seqNo == seqNo + 1 && Arrays(own) !! Reach(Channels)
      modifies this, subs, store
      ensures Valid() && fresh(Repr - old(Repr) - Arrays(own)) && subs == old(subs) && Channels == old(Channels)
      ensures Reach(Channels) <= old(Reach(Channels)) + AllArrays(copies)
      ensures Val(item) == Val(own) && Model == AfterCommit(Cfg(), old(Model), Val(own))
      ensures fresh(Arrays(item)) && Arrays(item) !! Repr && Arrays(item) !! Reach(Channels)
      ensures |copies| == |subs| && Clones(copies, Val(own)) && fresh(AllArrays(copies))
              && AllArrays(copies) !! Repr && AllArrays(copies) !! Arrays(item)
      ensures forall i | 0 <= i < |subs| :: subs[i].queue == Sent(old(subs[i].queue), copies[i])
      ensures store != null ==>
                store.Contents() == if saveOk then AfterSave(old(store.Contents()), Val(own)) else old(store.Contents())
    {
      hide Fits, Own, Reach, Distinct, Clones, AfterCommit, Sane, AfterSave;
      Commit(own);
      copies := Publish(own, saveOk);
      item := Copy(own);
    }

    method Put(input: RawInput, now: nat, saveOk: bool) returns (item: Item, isNew: bool, ghost copies: seq<Item>)
      requires Valid()
      modifies this, subs, store
      ensures Valid() && fresh(Repr - old(Repr)) && subs == old(subs) && Channels == old(Channels)
      ensures Reach(Channels) <= old(Reach(Channels)) + AllArrays(copies)
      ensures isNew <==> !IsDuplicate(Cfg(), old(Model), old(InputVal(input)))
      ensures isNew <==> old(Model.current.None?) || old(Model.current.value.mime) != input.mime
                         || old(Model.current.value.hash) !=
                            digest(if "text/" <= input.mime then input.content
                                   else if input.data == null then [] else old(input.data[..]))
      ensures isNew ==> Records(item, old(InputVal(input)), old(Model.seqNo) + 1, item.hash, now, now + ttl)
                        && item.hash == digest(if "text/" <= input.mime then input.content
                                               else if input.data == null then [] else old(input.data[..]))
      ensures !isNew ==> Model == old(Model) && Val(item) == Model.current.value
      ensures isNew ==> Val(item) == NewClip(Cfg(), old(Model), old(InputVal(input)), now)
                        && Model == AfterCommit(Cfg(), old(Model), Val(item))
      ensures fresh(Arrays(item)) && Arrays(item) !! Repr && Arrays(item) !! Reach(Channels)
      ensures fresh(AllArrays(copies)) && AllArrays(copies) !! Repr && AllArrays(copies) !! Arrays(item)
      ensures isNew ==> |copies| == |subs| && Clones(copies, Val(item))
      ensures isNew ==> forall i | 0 <= i < |subs| :: subs[i].queue == Sent(old(subs[i].queue), copies[i])
      ensures !isNew ==> forall s | s in Channels :: s.queue == old(s.queue)
      ensures store != null ==>
                store.Contents() ==
                if isNew && saveOk then AfterSave(old(store.Contents()), Val(item)) else old(store.Contents())
    {
      hide Fits, Linked, Reach, Clones, Sane, AfterCommit, NewClip, AfterSave, Records, InputVal, IsDuplicate;
      var hash, repeats := Repeats(input);
      copies, isNew := [], !repeats;
      if repeats {
        var cur := Current();
        item := Copy(cur);
        assert AllArrays(copies) == {};
      } else {
        var own := NewItem(input, hash, now);
        item, copies := PutNew(own, saveOk);
        NewRecords(Cfg(), old(Model), old(InputVal(input)), now, item);
      }
    }

    // ---- reading ----

    /** The current item, as a copy. */
    method Get() returns (item: Option<Item>)
      requires Valid()
      ensures item.Some? <==> Model.current.Some?
      ensures item.Some? ==> Val(item.value) == Model.current.value && fresh(Arrays(item.value))
    {
      if current == Nil {
        return None;
      }
      var cur := Current();
      var copy := CloneItem(cur);
      item := Some(copy);
    }

    /** The newest `limit` items, all of them for a limit out of range. */
    method History(limit: int) returns (items: seq<Item>)
      requires Valid()
      ensures Shows(items, if limit <= 0 then Model.history else Take(Model.history, limit))
      ensures Apart(items) && fresh(AllArrays(items))
    {
      var n := if limit <= 0 || limit > len then len else limit;
      ShowsSlice(backing[..len], Model.history, 0, n);
      assert backing[..len][0..n] == backing[..n];
      items := CloneItems(backing[..n], Model.history[..n]);
    }

    /** Everything above `after`, oldest first: the scan from the end of the history. */
    method Since(after: nat) returns (items: seq<Item>)
      requires Valid()
      ensures Shows(items, OldestFirst(Model.history, after))
      ensures Apart(items) && fresh(AllArrays(items))
    {
      hide Sane;
      items := [];
      var i := len;
      while i > 0
        invariant 0 <= i <= len
        invariant Shows(items, OldestFirst(Model.history[i..], after)) && Apart(items) && fresh(AllArrays(items))
      {
        i := i - 1;
        assert Model.history[i..][1..] == Model.history[i + 1..];
        assert Val(backing[..len][i]) == Model.history[i];
        if backing[i].seqNo > after {
          var copy := CloneItem(backing[i]);
          ShowsAppend(items, OldestFirst(Model.history[i + 1..], after), copy);
          AllArraysAppend(items, copy);
          ApartAppend(items, copy);
          items := items + [copy];
        }
      }
      assert Model.history[0..] == Model.history;
    }

    /** Memory: the current item before the history. */
    method Recall(n: nat) returns (item: Option<Item>)
      requires Valid()
      ensures Remembered(Model, n) == if item.Some? then Some(Val(item.value)) else None
      ensures item.Some? ==> fresh(Arrays(item.value))
    {
      hide Sane, Linked, Reach;
      if current != Nil {
        var cur := Current();
        if cur.seqNo == n {
          var copy := CloneItem(cur);
          return Some(copy);
        }
      }
      for i := 0 to len
        invariant FirstNumbered(Model.history, n) == FirstNumbered(Model.history[i..], n)
      {
        assert Val(backing[..len][i]) == Model.history[i];
        assert Model.history[i..][1..] == Model.history[i + 1..];
        if backing[i].seqNo == n {
          var copy := CloneItem(backing[i]);
          return Some(copy);
        }
      }
      item := None;
    }

    /** Memory first, then the store. */
    method GetBySeq(n: nat) returns (item: Option<Item>)
      requires Valid()
      ensures item.Some? ==> fresh(Arrays(item.value))
      ensures var found := Remembered(Model, n);
              if found.Some? then item.Some? && Val(item.value) == found.value
              else if store == null then item.None?
              else (item.Some? <==> n in store.rows) && (item.Some? ==> Val(item.value) == store.rows[n])
      ensures forall x | x in Model.history && x.seqNo == n :: item.Some? && Val(item.value) == x
      ensures (forall x | x in Model.history :: x.seqNo != n) ==>
                if store == null then item.None?
                else (item.Some? <==> n in store.rows) && (item.Some? ==> Val(item.value) == store.rows[n])
    {
      RememberedExactly(Cfg(), Model);
      hide Fits, Linked, Sane;
      item := Recall(n);
      if item.None? && store != null {
        item := store.LoadItem(n);
      }
    }

    /** The scan for the first item below the cursor: where a page from memory starts. */
    method PageStart(before: nat) returns (start: nat)
      requires Valid()
      ensures start <= len && Below(Model.history, before) == Model.history[start..]
    {
      hide Sane;
      start := 0;
      if before > 0 {
        start := len;
        for i := 0 to len
          invariant start == len
          invariant forall j | 0 <= j < i :: Model.history[j].seqNo >= before
        {
          assert Val(backing[..len][i]) == Model.history[i];
          if backing[i].seqNo < before {
            start := i;
            break;
          }
        }
      }
      SaneDescends(Cfg(), Model);
      BelowFrom(Model.history, before, start);
    }

    /** ... and at most `limit` items from there. */
    method HistoryPageFromMemory(limit: nat, before: nat) returns (items: seq<Item>)
      requires Valid()
      ensures Shows(items, Select(Model.history, limit, before))
      ensures Apart(items) && fresh(AllArrays(items))
    {
      hide Sane, Below;
      var start := PageStart(before);
      if start >= len {
        return [];
      }
      var end := if start + limit > len then len else start + limit;
      ShowsSlice(backing[..len], Model.history, start, end);
      assert backing[..len][start..end] == backing[start..end];
      items := CloneItems(backing[start..end], Model.history[start..end]);
      assert Model.history[start..end] == Take(Model.history[start..], limit);
    }

    /** One page: the store's when there is one, the memory's otherwise. `readOk` is the outcome of the query. */
    method HistoryPage(limit: int, before: nat, readOk: bool)
      returns (ok: bool, items: seq<Item>, nextCursor: string, hasMore: bool)
      requires Valid() && (store != null ==> Keyed(store.rows))
      ensures ok <==> store == null || readOk
      ensures ok ==>
                var n := if limit <= 0 then 50 else limit;
                var page := PageOf(if store == null then Model.history else NewestFirst(store.rows), n, before);
                && Shows(items, page.items) && nextCursor == page.nextCursor && hasMore == page.hasMore
                && Apart(items) && fresh(AllArrays(items))
    {
      hide Fits, Linked, NewestFirst, Keyed, Apart, Select;
      var n := if limit <= 0 then DEFAULT_HISTORY else limit;
      ghost var l := if store == null then Model.history else NewestFirst(store.rows);
      if store != null {
        if !readOk {
          return false, [], "", false;
        }
        items := store.HistoryPage(n + 1, before);
      } else {
        items := HistoryPageFromMemory(n + 1, before);
      }
      ok, hasMore, nextCursor := true, |items| > n, "";
      if hasMore {
        FirstItems(items, Select(l, n + 1, before), n);
        items := items[..n];
        nextCursor := FormatUint(items[n - 1].seqNo);
      }
      // the source clones once more; the arrays are already the caller's own
    }

    // ---- clearing and reaping ----

    method Clear(deleteOk: bool) returns (ok: bool)
      requires Valid()
      modifies this, store
      ensures Valid() && subs == old(subs) && Channels == old(Channels) && Repr == old(Repr)
      ensures ok <==> store == null || deleteOk
      ensures Model == if ok then AfterClear(old(Model)) else old(Model)
      ensures store != null ==>
                store.Contents() == if ok then AfterDeleteAll(old(store.Contents())) else old(store.Contents())
    {
      hide Fits, Linked, AfterClear, AfterDeleteAll;
      if store != null {
        var done := store.DeleteAll(deleteOk);
        if !done {
          return false;
        }
      }
      ClearedFits(Cfg(), current, backing, len, seqNo, Model, Repr);
      Install(Nil, backing, 0, seqNo, AfterClear(Model), Repr);
      ok := true;
    }

    /**
     Drops what has expired: `current` first, then the history compacted in place, over the very array `current` may
     point into. `due` is the delete in the store that is started to run later, by DeleteExpired.
     */
    method ReapExpired(now: nat) returns (due: Option<nat>)
      requires Valid()
      modifies this, backing
      ensures Valid() && subs == old(subs) && Channels == old(Channels) && Repr == old(Repr) && backing == old(backing)
      ensures due == if store == null then None else Some(now)
      ensures Model == AfterReap(old(Model), now)
    {
      hide SlotsShow, Linked, AfterReap, Sane, KeptItems;
      var p := current;
      if current != Nil {
        var cur := Current();
        if now > cur.expiresAt {
          p := Nil;
        }
      }
      ghost var was := backing[..len];
      SlotsOf(Cfg(), backing, len, seqNo, Model, Repr);
      var kept := Compact(now);
      ReapFits(Cfg(), p, backing, was, kept, seqNo, Model, now, Repr);
      Install(p, backing, kept, seqNo, AfterReap(Model, now), Repr);
      due := if store == null then None else Some(now);
    }

    /** `kept := h.history[:0]` and the appends to it: overwrites the array with its own unexpired items, in order. */
    method Compact(now: nat) returns (kept: nat)
      requires len <= backing.Length
      modifies backing
      ensures kept <= len && backing[..kept] == KeptItems(old(backing[..len]), now)
    {
      ghost var was := backing[..len];
      kept := 0;
      for i := 0 to len
        invariant kept <= i && backing[i..len] == was[i..]
        invariant backing[..kept] == KeptItems(was[..i], now)
      {
        var item := backing[i];
        assert item == backing[i..len][0] == was[i];
        assert was[..i + 1][..i] == was[..i];
        if now <= item.expiresAt {
          ghost var before := backing[..kept];
          backing[kept] := item;
          kept := kept + 1;
          assert backing[..kept] == before + [item];
        }
        assert was[i + 1..] == was[i..][1..];
      }
      assert was[..len] == was;
    }

    // ---- subscribers ----

    method Subscribe() returns (sub: Subscriber)
      requires Valid()
      modifies this
      ensures Valid() && fresh(sub) && sub.queue == [] && subs == old(subs) + [sub] && Channels == old(Channels) + [sub]
      ensures Model == old(Model) && Repr == old(Repr) && Reach(Channels) == old(Reach(Channels)) + {sub}
    {
      hide Fits, Linked;
      sub := new Subscriber();
      LinkedNew(subs, Channels, Repr, sub);
      subs := subs + [sub];
      Channels := Channels + [sub];
    }

    method Unsubscribe(sub: Subscriber)
      requires Valid()
      modifies this
      ensures Valid() && sub !in subs && Model == old(Model) && Repr == old(Repr) && Channels == old(Channels)
      ensures forall s | s in subs :: s in old(subs)
      ensures forall s | s in old(subs) && s != sub :: s in subs
    {
      WithoutDistinct(subs, sub);
      subs := Without(subs, sub);
    }

    /** A reader, subscribed still or not, takes the oldest item off its channel: it is then the reader's alone. */
    method Receive(sub: Subscriber) returns (item: Item)
      requires Valid() && sub in Channels && sub.queue != []
      modifies sub
      ensures Valid() && item == old(sub.queue)[0] && sub.queue == old(sub.queue)[1..]
      ensures Arrays(item) !! Repr && Arrays(item) !! Reach(Channels)
      ensures Reach(Channels) + Arrays(item) <= old(Reach(Channels))
    {
      hide Fits, Own;
      ghost var qs := Queues(Channels);
      ghost var i :| 0 <= i < |Channels| && Channels[i] == sub;
      OwnReceived(qs, i);
      item := sub.Receive();
      assert Queues(Channels) == qs[i := qs[i][1..]];
    }
  }

  function Without(list: seq<Subscriber>, sub: Subscriber): (r: seq<Subscriber>)
    ensures forall s | s in r :: s in list && s != sub
    ensures forall s | s in list && s != sub :: s in r
  {
    if list == [] then []
    else
      assert list == [list[0]] + list[1..];
      if list[0] == sub then Without(list[1..], sub) else [list[0]] + Without(list[1..], sub)
  }

  lemma {:induction false} WithoutDistinct(list: seq<Subscriber>, sub: Subscriber)
    requires Distinct(list)
    ensures Distinct(Without(list, sub))
  {
    if list != [] {
      WithoutDistinct(list[1..], sub);
      var r := Without(list[1..], sub);
      assert forall i | 0 <= i < |r| :: r[i] in list[1..];
    }
  }

  // ---- compaction against the filter on values ----

  /** The items the reaper keeps. */
  function KeptItems(items: seq<Item>, now: nat): seq<Item> {
    if items == [] then []
    else
      var n := |items| - 1;
      if now <= items[n].expiresAt then KeptItems(items[..n], now) + [items[n]] else KeptItems(items[..n], now)
  }

  /** They show what the filter on values keeps, and reach nothing new. */
  lemma {:induction false} KeptShow(items: seq<Item>, clips: seq<Clip>, now: nat)
    requires Shows(items, clips)
    ensures Shows(KeptItems(items, now), Unexpired(clips, now))
    ensures AllArrays(KeptItems(items, now)) <= AllArrays(items)
  {
    if items != [] {
      var n := |items| - 1;
      KeptShow(items[..n], clips[..n], now);
      assert items == items[..n] + [items[n]];
      AllArraysAppend(items[..n], items[n]);
      AllArraysAppend(KeptItems(items[..n], now), items[n]);
      ShowsAppend(KeptItems(items[..n], now), Unexpired(clips[..n], now), items[n]);
    }
  }

  /** The facts a reap starts from; `current` has already been dropped if it had expired. */
  lemma SlotsOf(cfg: Config, slots: array<Item>, n: nat, number: nat, m: HubState, r: set<object?>)
    requires SlotsShow(cfg, slots, n, number, m, r)
    ensures n <= slots.Length && Shows(slots[..n], m.history) && AllArrays(slots[..n]) <= r
            && slots in r && number == m.seqNo && Sane(cfg, m) && 0 < cfg.maxHistory
  {
  }

  /** After compaction the same pointer, unless it was dropped, still shows the current item. */
  lemma ReapFits(cfg: Config, p: Pointer, slots: array<Item>, was: seq<Item>, kept: nat, number: nat,
                 m: HubState, now: nat, r: set<object?>)
    requires Shows(was, m.history) && AllArrays(was) <= r && slots in r && number == m.seqNo && Sane(cfg, m)
    requires 0 < cfg.maxHistory && kept <= slots.Length && slots[..kept] == KeptItems(was, now)
    requires p == Nil ==> m.current == None || now > m.current.value.expiresAt
    requires p != Nil ==> m.current.Some? && now <= m.current.value.expiresAt
    requires p.Boxed? ==> p.box in r && Arrays(p.box.item) <= r && m.current == Some(Val(p.box.item))
    ensures Fits(cfg, p, slots, kept, number, AfterReap(m, now), r)
  {
    KeptShow(was, m.history, now);
    ReapKeepsSane(cfg, m, now);
    if p != Nil {
      UnexpiredHead(m.history, now);
    }
  }

  lemma ClearedFits(cfg: Config, p: Pointer, slots: array<Item>, n: nat, number: nat, m: HubState, r: set<object?>)
    requires Fits(cfg, p, slots, n, number, m, r)
    ensures Fits(cfg, Nil, slots, 0, number, AfterClear(m), r)
  {
  }

  lemma FirstItems(items: seq<Item>, clips: seq<Clip>, n: nat)
    requires Shows(items, clips) && Apart(items) && 0 < n <= |items|
    ensures Shows(items[..n], clips[..n]) && Apart(items[..n]) && AllArrays(items[..n]) <= AllArrays(items)
    ensures items[n - 1].seqNo == clips[n - 1].seqNo
  {
    ShowsSlice(items, clips, 0, n);
    assert items[0..n] == items[..n] && clips[0..n] == clips[..n];
    assert Val(items[n - 1]) == clips[n - 1];
    SliceArrays(items, 0, n);
  }

  lemma SaneDescends(cfg: Config, m: HubState)
    requires Sane(cfg, m)
    ensures Descending(m.history)
  {
  }

  /** The first index below the bound splits a newest-first list where `Below` does. */
  lemma {:induction false} BelowFrom(l: seq<Clip>, before: nat, start: nat)
    requires Descending(l) && start <= |l|
    requires before == 0 ==> start == 0
    requires before > 0 ==> forall j | 0 <= j < start :: l[j].seqNo >= before
    requires before > 0 && start < |l| ==> l[start].seqNo < before
    ensures Below(l, before) == l[start..]
  {
    if l != [] {
      if start == 0 {
        if |l| > 1 { BelowFrom(l[1..], before, 0); }
      } else {
        BelowFrom(l[1..], before, start - 1);
      }
    }
  }

  /**
   Ownership: an array neither in Repr nor on a channel, such as every array a caller has passed in or been handed, can
   be overwritten at will; the hub goes on showing the same Model, and what waits for its readers is what was sent.
   */
  method CallerWrites(h: Hub, data: array<Byte>, at: nat, value: Byte)
    requires h.Valid() && data !in h.Repr && data !in Reach(h.Channels) && at < data.Length
    modifies data
    ensures h.Valid() && h.Model == old(h.Model) && data[..] == old(data[..])[at := value]
    ensures forall s | s in h.Channels :: s.queue == old(s.queue)
    ensures forall s, j | s in h.Channels && 0 <= j < |s.queue| :: Val(s.queue[j]) == old(Val(s.queue[j]))
  {
    hide Fits, Own;
    ghost var qs := Queues(h.Channels);
    forall s, j | s in h.Channels && 0 <= j < |s.queue| ensures s.queue[j].data != data {
      var i :| 0 <= i < |h.Channels| && h.Channels[i] == s;
      assert qs[i] == s.queue;
    }
    data[at] := value;
  }

  /** A new item in front of what is shown, cut to `n`. */
  lemma NewestShown(item: Item, items: seq<Item>, clips: seq<Clip>, n: nat)
    requires Shows(items, clips) && n <= |items| + 1
    ensures Shows(([item] + items)[..n], ([Val(item)] + clips)[..n])
    ensures AllArrays(([item] + items)[..n]) <= Arrays(item) + AllArrays(items)
  {
    var more := [item] + items;
    ShowsPrepend(item, items, clips);
    ShowsSlice(more, [Val(item)] + clips, 0, n);
    SliceArrays(more, 0, n);
    forall o | o in AllArrays(more) ensures o in Arrays(item) + AllArrays(items) {
      var i :| 0 <= i < |more| && more[i].data == o;
      assert i > 0 ==> more[i] == items[i - 1];
    }
  }

  /** Putting a new item in front, cut to maxHistory, with `current` boxed. */
  lemma NewestFits(cfg: Config, item: Item, box: ItemBox, longer: array<Item>, kept: nat,
                   slots: array<Item>, n: nat, p: Pointer, number: nat, m: HubState, r: set<object?>)
    requires Fits(cfg, p, slots, n, number, m, r) && box.item == item && item.seqNo == number + 1
    requires longer[..] == [item] + slots[..n] && kept == if n + 1 > cfg.maxHistory then cfg.maxHistory else n + 1
    ensures n <= slots.Length && AfterCommit(cfg, m, Val(item)).current == Some(Val(item))
    ensures Fits(cfg, Boxed(box), longer, kept, item.seqNo, AfterCommit(cfg, m, Val(item)),
                 r + {longer, box} + Arrays(item))
  {
    var clip := Val(item);
    CommitKeepsSane(cfg, m, clip);
    NewestShown(item, slots[..n], m.history, kept);
    assert longer[..kept] == ([item] + slots[..n])[..kept];
    assert Take([clip] + m.history, cfg.maxHistory) == ([clip] + m.history)[..kept];
  }

  /** What the store hands back, in a new backing array with `current` at its first slot. */
  lemma LoadedFits(cfg: Config, t: Table, items: seq<Item>, slots: array<Item>, r: set<object?>)
    requires Sound(t) && 0 < cfg.maxHistory && slots[..] == items && slots in r && AllArrays(items) <= r
    requires Shows(items, Take(NewestFirst(t.rows), cfg.maxHistory))
    ensures var m := Loaded(LoadSeq(t), Take(NewestFirst(t.rows), cfg.maxHistory));
            Fits(cfg, if |items| > 0 then FirstSlot else Nil, slots, |items|, LoadSeq(t), m, r)
  {
    LoadedIsSane(t, cfg);
    assert slots[..|items|] == items;
  }

  ghost function BoxOf(p: Pointer): set<object> {
    if p.Boxed? then {p.box} else {}
  }

  lemma LoadedIsSane(t: Table, cfg: Config)
    requires Sound(t)
    ensures Sane(cfg, Loaded(LoadSeq(t), Take(NewestFirst(t.rows), cfg.maxHistory)))
  {
    NewestFirstLists(t.rows);
    var l := NewestFirst(t.rows);
    forall i | 0 <= i < |l| ensures l[i].seqNo <= LoadSeq(t) {
      assert l[i] in l;
    }
  }
}
