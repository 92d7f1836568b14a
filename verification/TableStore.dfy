/** The store over the clips table. SQL statements are their effect on the table; I/O outcomes are parameters. */
module TableStore {
  import opened Clips
  import opened Tables
  import opened Items
  import opened Paging
  import T = Timestamps

  class Store {
    var rows: map<nat, Clip>
    var mark: Option<nat>

    ghost function Contents(): Table
      reads this
    {
      Table(rows, mark)
    }

    constructor ()
      ensures Contents() == EMPTY_TABLE
    {
      rows, mark := map[], None;
    }

    /** The entry of sqlite_sequence, or the greatest key when there is none. */
    method LoadSeq() returns (n: nat)
      ensures n == Tables.LoadSeq(Contents())
      ensures mark.Some? ==> n == mark.value
      ensures mark.None? ==> (forall k | k in rows :: k <= n) && (if rows == map[] then n == 0 else n in rows)
    {
      match mark
      case Some(m) => return m;
      case None => n := Newest(rows);
    }

    /** The greatest key among `left`, 0 if there is none. */
    static method Newest(left: map<nat, Clip>) returns (m: nat)
      ensures m == MaxKey(left)
    {
      m := 0;
      var keys := left.Keys;
      while keys != {}
        invariant keys <= left.Keys
        invariant forall k | k in left && k !in keys :: k <= m
        invariant m in left || (m == 0 && keys == left.Keys)
        decreases |keys|
      {
        var k :| k in keys;
        keys := keys - {k};
        if k > m || m !in left {
          m := k;
        }
      }
      if left != map[] {
        MaxKeyIs(left, m);
      }
    }

    /** `INSERT OR REPLACE`; for number 0 an insert under the next AUTOINCREMENT key. A failure changes nothing. */
    method SaveItem(item: Item, ok: bool) returns (key: nat)
      modifies this
      ensures Contents() == if ok then AfterSave(old(Contents()), old(Val(item))) else old(Contents())
      ensures ok ==> key == SaveKey(old(Contents()), old(Val(item)))
      ensures ok ==> key == if item.seqNo > 0 then item.seqNo else Tables.LoadSeq(old(Contents())) + 1
      ensures ok ==> rows == old(rows)[key := old(Val(item)).(seqNo := key)]
      ensures ok ==> var last := Tables.LoadSeq(old(Contents())); mark == Some(if key > last then key else last)
    {
      key := item.seqNo;
      if !ok {
        return;
      }
      var last := LoadSeq();
      if key == 0 {
        key := last + 1;
      }
      rows := rows[key := Val(item).(seqNo := key)];
      mark := Some(Max(last, key));
    }

    /** `DELETE ... WHERE expires_at < ?`, on stamps printed in one zone. */
    method DeleteExpired(before: nat, z: Zone, ok: bool)
      modifies this
      ensures Contents() == if ok then AfterTextExpiry(old(Contents()), before, z) else old(Contents())
    {
      if ok {
        rows := map k | k in rows && !T.TextLess(Printed(z, rows[k].expiresAt), Printed(z, before)) :: rows[k];
      }
    }

    /** The mark stays, so later keys stay above everything deleted. */
    method DeleteAll(ok: bool) returns (done: bool)
      modifies this
      ensures done == ok
      ensures Contents() == if ok then AfterDeleteAll(old(Contents())) else old(Contents())
      ensures ok ==> rows == map[] && mark == old(mark)
    {
      if ok {
        rows := map[];
      }
      done := ok;
    }

    method LoadItem(key: nat) returns (item: Option<Item>)
      ensures item.Some? <==> key in rows
      ensures item.Some? ==> Val(item.value) == rows[key] && fresh(Arrays(item.value))
    {
      if key !in rows {
        return None;
      }
      var loaded := Materialize(rows[key]);
      item := Some(loaded);
    }

    /** The scan loop over `[WHERE seq < before] ORDER BY seq DESC LIMIT limit`; before == 0 is no bound. */
    method HistoryPage(limit: nat, before: nat) returns (items: seq<Item>)
      requires Keyed(rows)
      ensures Shows(items, Select(NewestFirst(rows), limit, before))
      ensures Apart(items) && fresh(AllArrays(items))
    {
      hide Apart, AllArrays, NewestFirst;
      NoItems();
      items := [];
      var left: map<nat, Clip> := map k: nat | k in rows && (before == 0 || k < before) :: rows[k];
      BelowRows(rows, before);
      ghost var all, shown := NewestFirst(left), [];
      while |items| < limit && left != map[]
        invariant Keyed(left) && shown + NewestFirst(left) == all && |items| == |shown| <= limit
        invariant Shows(items, shown) && Apart(items) && forall o | o in AllArrays(items) :: fresh(o)
        decreases |left|
      {
        var m := Newest(left);
        ScanStep(shown, left, m);
        items := MaterializeNext(items, shown, left[m]);
        shown := shown + [left[m]];
        left := left - {m};
      }
      ScanDone(shown, left, limit);
    }

    /** The sequence number and the newest `maxHistory` rows. */
    method LoadState(maxHistory: nat) returns (seqNo: nat, items: seq<Item>)
      requires Keyed(rows)
      ensures seqNo == Tables.LoadSeq(Contents())
      ensures Shows(items, Take(NewestFirst(rows), maxHistory))
      ensures Apart(items) && fresh(AllArrays(items))
    {
      seqNo := LoadSeq();
      BelowAll(NewestFirst(rows));
      items := HistoryPage(maxHistory, 0);
    }
  }

  // ---- the delete by text against the delete by instant ----

  /** The zone stamps are printed in: its offset in minutes, and the civil time there of an instant. */
  datatype Zone = Zone(offset: int, civil: nat -> T.Stamp)

  function Printed(z: Zone, instant: nat): string {
    T.Text(z.civil(instant), z.offset)
  }

  ghost function AfterTextExpiry(t: Table, before: nat, z: Zone): Table {
    t.(rows := map k | k in t.rows && !T.TextLess(Printed(z, t.rows[k].expiresAt), Printed(z, before)) :: t.rows[k])
  }

  /** The civil time is a date with a four-digit year, and that of the instant. */
  ghost predicate Tells(z: Zone, instant: nat) {
    T.Valid(z.civil(instant)) && T.Instant(z.civil(instant), z.offset) == instant
  }

  /** Every stamp of the statement is the right civil time. */
  ghost predicate TellsAll(z: Zone, t: Table, before: nat) {
    Tells(z, before) && forall k | k in t.rows :: Tells(z, t.rows[k].expiresAt)
  }

  lemma ExpiredByText(z: Zone, expires: nat, before: nat)
    requires Tells(z, expires) && Tells(z, before)
    ensures (T.TextLess(Printed(z, expires), Printed(z, before)) <==> expires < before)
            <==> z.offset != 0 || !T.Ambiguous(z.civil(expires), z.civil(before))
  {
    if z.offset != 0 {
      T.NumericOffsetExact(z.civil(expires), z.civil(before), z.offset);
    } else {
      T.UtcExactUnlessAmbiguous(z.civil(expires), z.civil(before));
    }
  }

  /**
   The statement leaves what a delete by instant leaves if and only if stamps carry a numeric offset or no row's stamp
   shares its second with the bound while one printed fraction is a proper prefix of the other.
   */
  lemma DeleteExpiredExact(t: Table, before: nat, z: Zone)
    requires TellsAll(z, t, before)
    ensures AfterTextExpiry(t, before, z) == AfterExpiry(t, before)
            <==> z.offset != 0 || forall k | k in t.rows :: !T.Ambiguous(z.civil(t.rows[k].expiresAt), z.civil(before))
  {
    hide T.TextLess, T.Ambiguous, T.Text, T.Instant, T.Valid;
    var byText, byInstant := AfterTextExpiry(t, before, z).rows, AfterExpiry(t, before).rows;
    forall k | k in t.rows
      ensures (k in byText <==> k in byInstant)
              <==> z.offset != 0 || !T.Ambiguous(z.civil(t.rows[k].expiresAt), z.civil(before))
    {
      ExpiredByText(z, t.rows[k].expiresAt, before);
    }
    if byText != byInstant {
      assert exists k :: k in t.rows && !(k in byText <==> k in byInstant);
    }
  }

  /** Scanning one more row moves it from the rest of the listing to what has been shown. */
  lemma ScanStep(shown: seq<Clip>, left: map<nat, Clip>, m: nat)
    requires Keyed(left) && left != map[] && m == MaxKey(left)
    ensures m in left && Keyed(left - {m}) && |left - {m}| < |left|
    ensures shown + NewestFirst(left) == (shown + [left[m]]) + NewestFirst(left - {m})
  {
    assert (left - {m}).Keys == left.Keys - {m};
    MoveOver(shown, left[m], NewestFirst(left - {m}));
  }

  lemma MoveOver(shown: seq<Clip>, x: Clip, rest: seq<Clip>)
    ensures shown + ([x] + rest) == (shown + [x]) + rest
  {
  }

  lemma ScanDone(shown: seq<Clip>, left: map<nat, Clip>, limit: nat)
    requires |shown| <= limit && (|shown| == limit || left == map[])
    ensures shown == Take(shown + NewestFirst(left), limit)
  {
  }

  /** Selecting rows below a bound and listing them is listing and then cutting. */
  lemma BelowRows(rows: map<nat, Clip>, before: nat)
    requires Keyed(rows)
    ensures var left := map k: nat | k in rows && (before == 0 || k < before) :: rows[k];
            NewestFirst(left) == Below(NewestFirst(rows), before)
  {
    var left := map k: nat | k in rows && (before == 0 || k < before) :: rows[k];
    NewestFirstLists(rows);
    NewestFirstLists(left);
    BelowLists(NewestFirst(rows), rows, left, before);
    ListsUnique(NewestFirst(left), Below(NewestFirst(rows), before), left);
  }

  lemma BelowLists(l: seq<Clip>, rows: map<nat, Clip>, left: map<nat, Clip>, before: nat)
    requires Lists(l, rows) && Keyed(rows) && left == map k: nat | k in rows && (before == 0 || k < before) :: rows[k]
    ensures Lists(Below(l, before), left)
  {
    BelowDescending(l, before);
    BelowMembers(l, before);
  }
}
