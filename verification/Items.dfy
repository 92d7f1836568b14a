/** Clip items as the hub holds them: the binary payload is a byte array behind a reference. */
module Items {
  import opened Clips

  datatype Item = Item(seqNo: nat, mime: string, content: Bytes, data: array?<Byte>, hash: string,
                       source: string, createdAt: nat, expiresAt: nat)

  /** The value an item has now; a nil and an empty payload are the same. */
  function Val(i: Item): Clip
    reads i.data
  {
    Clip(i.seqNo, i.mime, i.content, if i.data == null then [] else i.data[..], i.hash,
         i.source, i.createdAt, i.expiresAt)
  }

  /** `items` show the values `clips`. */
  ghost predicate Shows(items: seq<Item>, clips: seq<Clip>)
    reads set i | 0 <= i < |items| :: items[i].data
  {
    |items| == |clips| && forall i | 0 <= i < |items| :: Val(items[i]) == clips[i]
  }

  /** No two of the items share a payload array. */
  ghost predicate Apart(items: seq<Item>) {
    forall i, j | 0 <= i < j < |items| :: items[i].data != null ==> items[i].data != items[j].data
  }

  ghost function Arrays(i: Item): set<object> {
    if i.data == null then {} else {i.data}
  }

  ghost function AllArrays(items: seq<Item>): set<object> {
    set i | 0 <= i < |items| && items[i].data != null :: items[i].data
  }

  lemma ShowsAppend(items: seq<Item>, clips: seq<Clip>, item: Item)
    requires Shows(items, clips)
    ensures Shows(items + [item], clips + [Val(item)])
  {
  }

  lemma ShowsPrepend(item: Item, items: seq<Item>, clips: seq<Clip>)
    requires Shows(items, clips)
    ensures Shows([item] + items, [Val(item)] + clips)
  {
  }

  lemma ShowsSlice(items: seq<Item>, clips: seq<Clip>, lo: nat, hi: nat)
    requires Shows(items, clips) && lo <= hi <= |items|
    ensures Shows(items[lo..hi], clips[lo..hi])
  {
  }

  lemma ArraysWithin(items: seq<Item>, i: nat)
    requires i < |items|
    ensures Arrays(items[i]) <= AllArrays(items)
  {
  }

  lemma SliceArrays(items: seq<Item>, lo: nat, hi: nat)
    requires lo <= hi <= |items|
    ensures AllArrays(items[lo..hi]) <= AllArrays(items)
  {
    forall o | o in AllArrays(items[lo..hi]) ensures o in AllArrays(items) {
      var i :| 0 <= i < hi - lo && items[lo..hi][i].data == o;
      assert items[lo + i].data == o;
    }
  }

  lemma ApartAppend(items: seq<Item>, item: Item)
    requires Apart(items) && Arrays(item) !! AllArrays(items)
    ensures Apart(items + [item])
  {
    forall i, j | 0 <= i < j <= |items| && (items + [item])[i].data != null
      ensures (items + [item])[i].data != (items + [item])[j].data
    {
      if j == |items| { ArraysWithin(items, i); }
    }
  }

  method CloneBytes(data: array?<Byte>) returns (copy: array?<Byte>)
    ensures copy != null ==> fresh(copy) && data != null && copy[..] == data[..]
    ensures copy == null ==> data == null || data[..] == []
  {
    if data == null || data.Length == 0 {
      return null;
    }
    copy := new Byte[data.Length](i requires 0 <= i < data.Length reads data => data[i]);
  }

  method CloneItem(item: Item) returns (copy: Item)
    ensures Val(copy) == Val(item) && fresh(Arrays(copy))
  {
    var data := CloneBytes(item.data);
    copy := item.(data := data);
  }

  lemma NoItems()
    ensures Shows([], []) && Apart([]) && AllArrays([]) == {}
  {
  }

  /** One more item on an array of its own. */
  lemma OneMore(items: seq<Item>, clips: seq<Clip>, item: Item)
    requires Shows(items, clips) && Apart(items) && Arrays(item) !! AllArrays(items)
    ensures Shows(items + [item], clips + [Val(item)]) && Apart(items + [item])
    ensures AllArrays(items + [item]) == AllArrays(items) + Arrays(item)
  {
    ShowsAppend(items, clips, item);
    ApartAppend(items, item);
    AllArraysAppend(items, item);
  }

  lemma AllArraysAppend(items: seq<Item>, item: Item)
    ensures AllArrays(items + [item]) == AllArrays(items) + Arrays(item)
  {
    var more := items + [item];
    assert forall i | 0 <= i < |items| :: more[i] == items[i];
    assert more[|items|] == item;
  }

  /** `cloneClipItems`: equal values, and arrays of its own for each item. */
  method CloneItems(items: seq<Item>, ghost clips: seq<Clip>) returns (copies: seq<Item>)
    requires Shows(items, clips)
    ensures Shows(copies, clips) && Apart(copies) && fresh(AllArrays(copies))
  {
    copies := [];
    for i := 0 to |items|
      invariant Shows(copies, clips[..i]) && Apart(copies) && fresh(AllArrays(copies)) && i <= |clips|
    {
      var copy := CloneItem(items[i]);
      OneMore(copies, clips[..i], copy);
      assert Val(copy) == clips[i];
      assert clips[..i] + [clips[i]] == clips[..i + 1];
      copies := copies + [copy];
    }
  }

  /** One more row read. */
  method MaterializeNext(items: seq<Item>, ghost clips: seq<Clip>, clip: Clip) returns (more: seq<Item>)
    requires Shows(items, clips) && Apart(items)
    ensures Shows(more, clips + [clip]) && Apart(more) && |more| == |items| + 1
    ensures forall o | o in AllArrays(more) :: o in AllArrays(items) || fresh(o)
  {
    ghost var known := AllArrays(items);
    var item := Materialize(clip);
    OneMore(items, clips, item);
    more := items + [item];
  }

  /** A row read from the table becomes an item with an array of its own. */
  method Materialize(clip: Clip) returns (item: Item)
    ensures Val(item) == clip && fresh(Arrays(item))
  {
    var data: array?<Byte> := null;
    if clip.data != [] {
      data := new Byte[|clip.data|](i requires 0 <= i < |clip.data| => clip.data[i]);
      assert data[..] == clip.data;
    }
    item := Item(clip.seqNo, clip.mime, clip.content, data, clip.hash, clip.source, clip.createdAt, clip.expiresAt);
  }
}
