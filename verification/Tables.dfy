/** The persistent table of clips: rows keyed by sequence number and the AUTOINCREMENT high-water mark. */
module Tables {
  import opened Clips

  /** `mark` is the table's entry in `sqlite_sequence`, absent until the first insert. */
  datatype Table = Table(rows: map<nat, Clip>, mark: Option<nat>)

  const EMPTY_TABLE := Table(map[], None)

  function Max(a: nat, b: nat): nat {
    if a < b then b else a
  }

  ghost predicate KeysAtMost(rows: map<nat, Clip>, n: nat) {
    forall k | k in rows :: k <= n
  }

  /** The greatest key, or 0 in an empty table (`COALESCE(MAX(seq), 0)`). */
  ghost function MaxKey(rows: map<nat, Clip>): (m: nat)
    ensures KeysAtMost(rows, m)
    ensures rows != map[] ==> m in rows
    decreases |rows|
  {
    if rows == map[] then 0
    else
      var k :| k in rows;
      var rest := rows - {k};
      assert rest.Keys == rows.Keys - {k};
      var m := MaxKey(rest);
      assert forall j | j in rows :: j == k || j in rest;
      if m < k then k else m
  }

  lemma MaxKeyIs(rows: map<nat, Clip>, m: nat)
    requires m in rows && KeysAtMost(rows, m)
    ensures MaxKey(rows) == m
  {
    assert MaxKey(rows) in rows;
  }

  ghost predicate Keyed(rows: map<nat, Clip>) {
    forall k | k in rows :: rows[k].seqNo == k
  }

  ghost function LoadSeq(t: Table): nat {
    match t.mark
    case Some(m) => m
    case None => MaxKey(t.rows)
  }

  /** What the hub keeps true of its table: rows sit under their own number, at or below the mark. */
  ghost predicate Sound(t: Table) {
    && Keyed(t.rows)
    && (t.mark.Some? || t.rows == map[])
    && KeysAtMost(t.rows, LoadSeq(t))
  }

  // ---- operations ----

  /** `INSERT OR REPLACE` under an explicit key, or an AUTOINCREMENT insert for key 0. */
  ghost function AfterSave(t: Table, item: Clip): Table {
    var key := SaveKey(t, item);
    Table(t.rows[key := item.(seqNo := key)], Some(Max(LoadSeq(t), key)))
  }

  ghost function SaveKey(t: Table, item: Clip): nat {
    if item.seqNo == 0 then LoadSeq(t) + 1 else item.seqNo
  }

  ghost function AfterExpiry(t: Table, before: nat): Table {
    t.(rows := LiveRows(t.rows, before))
  }

  ghost function LiveRows(rows: map<nat, Clip>, before: nat): map<nat, Clip> {
    map k | k in rows && before <= rows[k].expiresAt :: rows[k]
  }

  function AfterDeleteAll(t: Table): Table {
    t.(rows := map[])
  }

  function LoadItem(t: Table, key: nat): Option<Clip> {
    if key in t.rows then Some(t.rows[key]) else None
  }

  /** `ORDER BY seq DESC`. */
  ghost function NewestFirst(rows: map<nat, Clip>): (l: seq<Clip>)
    decreases |rows|
  {
    if rows == map[] then []
    else
      var m := MaxKey(rows);
      assert (rows - {m}).Keys == rows.Keys - {m};
      [rows[m]] + NewestFirst(rows - {m})
  }

  /** `l` lists exactly the rows, newest first. */
  ghost predicate Lists(l: seq<Clip>, rows: map<nat, Clip>) {
    && Descending(l)
    && (forall x | x in l :: x.seqNo in rows && rows[x.seqNo] == x)
    && (forall k | k in rows :: rows[k] in l)
  }

  lemma ListsPrepend(l: seq<Clip>, rows: map<nat, Clip>, m: nat)
    requires Keyed(rows) && m in rows && KeysAtMost(rows, m)
    requires Lists(l, rows - {m})
    ensures Lists([rows[m]] + l, rows)
  {
    var r := [rows[m]] + l;
    assert forall i | 0 <= i < |l| :: l[i] in l;
    forall k | k in rows ensures rows[k] in r {
      if k != m { assert k in rows - {m}; }
    }
  }

  lemma {:induction false} NewestFirstLists(rows: map<nat, Clip>)
    requires Keyed(rows)
    ensures Lists(NewestFirst(rows), rows)
    decreases |rows|
  {
    if rows != map[] {
      var m := MaxKey(rows);
      assert (rows - {m}).Keys == rows.Keys - {m};
      NewestFirstLists(rows - {m});
      ListsPrepend(NewestFirst(rows - {m}), rows, m);
    }
  }

  /** A newest-first listing is determined by its contents. */
  lemma {:induction false} ListsUnique(a: seq<Clip>, b: seq<Clip>, rows: map<nat, Clip>)
    requires Keyed(rows) && Lists(a, rows) && Lists(b, rows)
    ensures a == b
    decreases |rows|
  {
    hide Lists;
    if rows == map[] {
      ListsNothing(a);
      ListsNothing(b);
    } else {
      var m := MaxKey(rows);
      assert (rows - {m}).Keys == rows.Keys - {m};
      ListsTail(a, rows, m);
      ListsTail(b, rows, m);
      ListsUnique(a[1..], b[1..], rows - {m});
    }
  }

  lemma ListsNothing(l: seq<Clip>)
    requires Lists(l, map[])
    ensures l == []
  {
    if 0 < |l| { Member(l, 0); }
  }

  lemma Member(l: seq<Clip>, i: nat)
    requires i < |l|
    ensures l[i] in l
  {
  }

  lemma ListsTail(l: seq<Clip>, rows: map<nat, Clip>, m: nat)
    requires Keyed(rows) && m in rows && KeysAtMost(rows, m) && Lists(l, rows)
    ensures l != [] && l[0] == rows[m] && Lists(l[1..], rows - {m})
  {
    ListsHead(l, rows, m);
    var tail := l[1..];
    forall x | x in tail ensures x.seqNo in rows - {m} && (rows - {m})[x.seqNo] == x {
      var i :| 0 < i < |l| && l[i] == x;
      assert x in l;
    }
    forall k | k in rows - {m} ensures (rows - {m})[k] in tail {
      var x := rows[k];
      assert x in l;
      var i :| 0 <= i < |l| && l[i] == x;
      assert i != 0;
      assert tail[i - 1] == x;
    }
  }

  lemma ListsHead(l: seq<Clip>, rows: map<nat, Clip>, m: nat)
    requires Keyed(rows) && m in rows && KeysAtMost(rows, m) && Lists(l, rows)
    ensures l != [] && l[0] == rows[m]
  {
    var i :| 0 <= i < |l| && l[i] == rows[m];
    assert l[0] in l;
  }

  lemma NewestFirstAdd(rows: map<nat, Clip>, x: Clip)
    requires Keyed(rows) && forall k | k in rows :: k < x.seqNo
    ensures NewestFirst(rows[x.seqNo := x]) == [x] + NewestFirst(rows)
  {
    var more := rows[x.seqNo := x];
    NewestFirstLists(rows);
    NewestFirstLists(more);
    assert more - {x.seqNo} == rows;
    ListsPrepend(NewestFirst(rows), more, x.seqNo);
    ListsUnique(NewestFirst(more), [x] + NewestFirst(rows), more);
  }

  /** Deleting expired rows and then listing is listing and then filtering. */
  lemma NewestFirstExpire(rows: map<nat, Clip>, before: nat)
    requires Keyed(rows)
    ensures NewestFirst(LiveRows(rows, before)) == Unexpired(NewestFirst(rows), before)
  {
    hide NewestFirst, Unexpired;
    NewestFirstLists(rows);
    NewestFirstLists(LiveRows(rows, before));
    UnexpiredMembers(NewestFirst(rows), before);
    UnexpiredDescending(NewestFirst(rows), before);
    ListsUnique(NewestFirst(LiveRows(rows, before)), Unexpired(NewestFirst(rows), before), LiveRows(rows, before));
  }

  /** Later rows expire no earlier: what one ttl and a clock that never steps back give. */
  ghost predicate ExpiryRises(rows: map<nat, Clip>) {
    forall j, k | j in rows && k in rows && j < k :: rows[j].expiresAt <= rows[k].expiresAt
  }

  lemma NewestFirstExpiry(rows: map<nat, Clip>)
    requires Keyed(rows) && ExpiryRises(rows)
    ensures ExpiryFalls(NewestFirst(rows))
  {
    NewestFirstLists(rows);
    var l := NewestFirst(rows);
    assert forall i | 0 <= i < |l| :: l[i] in l;
  }
}
