/** History pages and the walk that follows their cursors while the history changes underneath. */
module Paging {
  import opened Clips
  import opened HubSpec
  import opened Tables
  import opened Protocol
  import opened Turnstile
  import opened Memory
  import opened Delivery
  import opened Persistence
  import opened Streams
  import opened Cursors

  datatype Page = Page(items: seq<Clip>, nextCursor: string, hasMore: bool)

  /** `WHERE seq < before ORDER BY seq DESC LIMIT limit` over a newest-first listing; before == 0 is no bound. */
  function Select(l: seq<Clip>, limit: nat, before: nat): seq<Clip> {
    Take(Below(l, before), limit)
  }

  /** `HistoryPage`: one item more than asked for is fetched to learn whether there is more. */
  function PageOf(l: seq<Clip>, limit: nat, before: nat): Page
    requires 0 < limit
  {
    var got := Select(l, limit + 1, before);
    if |got| > limit then Page(got[..limit], FormatUint(got[limit - 1].seqNo), true) else Page(got, "", false)
  }

  lemma {:induction false} BelowDescending(l: seq<Clip>, n: nat)
    requires Descending(l)
    ensures Descending(Below(l, n))
  {
    if l != [] {
      BelowDescending(l[1..], n);
      BelowMembers(l[1..], n);
      var r := Below(l[1..], n);
      assert forall i | 0 <= i < |r| :: r[i] in l[1..];
    }
  }

  /** What a page holds: the newest `limit` items below the bound; below its last item lies everything it left out. */
  lemma PageFacts(l: seq<Clip>, limit: nat, before: nat)
    requires 0 < limit && Descending(l)
    ensures var p := PageOf(l, limit, before);
            && Descending(p.items)
            && (forall x | x in p.items :: x in l && (before == 0 || x.seqNo < before))
            && |p.items| <= limit
            && (p.hasMore ==> |p.items| == limit && p.nextCursor == FormatUint(p.items[limit - 1].seqNo))
            && (!p.hasMore ==> p.nextCursor == "")
            && (p.hasMore <==> exists x | x in l :: (before == 0 || x.seqNo < before) && x !in p.items)
            && (forall x | x in l && (before == 0 || x.seqNo < before) ::
                  x in p.items || (p.hasMore && x.seqNo < p.items[|p.items| - 1].seqNo))
  {
    var below := Below(l, before);
    BelowDescending(l, before);
    BelowMembers(l, before);
    var p := PageOf(l, limit, before);
    assert p.items == below[..|p.items|];
    forall x | x in below && x !in p.items ensures p.hasMore && x.seqNo < p.items[|p.items| - 1].seqNo {
      var i :| 0 <= i < |below| && below[i] == x;
      assert i >= |p.items|;
    }
  }

  // ---- the walk ----

  /** A listing at one moment, and a number nothing stored so far exceeds. */
  datatype Shelf = Shelf(list: seq<Clip>, top: nat)

  ghost predicate Proper(s: Shelf) {
    && Descending(s.list)
    && (forall x | x in s.list :: 0 < x.seqNo <= s.top && x.seqNo < UINT64_LIMIT)
  }

  /** Between two moments items may go, and new ones come only above everything seen before. */
  ghost predicate Grows(s: Shelf, s': Shelf) {
    && s.top <= s'.top
    && (forall x | x in s'.list :: x in s.list || x.seqNo > s.top)
  }

  ghost predicate Evolving(shelves: seq<Shelf>) {
    && (forall i | 0 <= i < |shelves| :: Proper(shelves[i]))
    && (forall i | 0 < i < |shelves| :: Grows(shelves[i - 1], shelves[i]))
  }

  /** `x` is on the shelf at every page. */
  ghost predicate Stays(shelves: seq<Shelf>, x: Clip) {
    forall i | 0 <= i < |shelves| :: x in shelves[i].list
  }

  /** The pages a reader gets who asks with `cursor` on the first shelf and then follows NextCursor, so far. */
  ghost predicate Follows(shelves: seq<Shelf>, limit: nat, cursor: string, pages: seq<Page>)
    requires 0 < limit
    decreases |pages|
  {
    && |pages| == |shelves| > 0
    && var q := ParseOptionalUint(cursor);
    && q.Accepted?
    && pages[0] == PageOf(shelves[0].list, limit, q.value)
    && (|pages| == 1 || (pages[0].hasMore && Follows(shelves[1..], limit, pages[0].nextCursor, pages[1..])))
  }

  /** ... and to the end. */
  ghost predicate Walks(shelves: seq<Shelf>, limit: nat, cursor: string, pages: seq<Page>)
    requires 0 < limit
  {
    Follows(shelves, limit, cursor, pages) && !pages[|pages| - 1].hasMore
  }

  function AllItems(pages: seq<Page>): seq<Clip> {
    if pages == [] then [] else pages[0].items + AllItems(pages[1..])
  }

  /** The cursor a page hands out is accepted, as the number of its last item. */
  lemma CursorAccepted(s: Shelf, limit: nat, before: nat)
    requires 0 < limit && Proper(s) && PageOf(s.list, limit, before).hasMore
    ensures var p := PageOf(s.list, limit, before);
            p.items != [] && ParseOptionalUint(p.nextCursor) == Accepted(p.items[|p.items| - 1].seqNo)
  {
    PageFacts(s.list, limit, before);
    var p := PageOf(s.list, limit, before);
    assert p.items[limit - 1] in p.items;
    CursorRoundTrip(p.items[limit - 1].seqNo);
  }

  lemma JoinDescending(a: seq<Clip>, b: seq<Clip>)
    requires Descending(a) && Descending(b)
    requires a != [] ==> forall x | x in b :: x.seqNo < a[|a| - 1].seqNo
    ensures Descending(a + b)
  {
    forall i, j | 0 <= i < j < |a + b| ensures (a + b)[i].seqNo > (a + b)[j].seqNo {
      if i < |a| <= j {
        assert (a + b)[j] in b;
      }
    }
  }

  /** What a walk over `shelves` starting below `before` must return. */
  ghost predicate Complete(shelves: seq<Shelf>, before: nat, all: seq<Clip>)
    requires shelves != []
  {
    && Descending(all)
    && (forall x | x in all :: x in shelves[0].list && (before == 0 || x.seqNo < before))
    && (forall x | Stays(shelves, x) && (before == 0 || x.seqNo < before) :: x in all)
  }

  lemma WalkStep(shelves: seq<Shelf>, limit: nat, before: nat, p: Page, rest: seq<Clip>)
    requires 0 < limit && |shelves| > 1 && Evolving(shelves) && p == PageOf(shelves[0].list, limit, before) && p.hasMore
    requires p.items != [] && Complete(shelves[1..], p.items[|p.items| - 1].seqNo, rest)
    ensures Complete(shelves, before, p.items + rest)
  {
    PageFacts(shelves[0].list, limit, before);
    var last := p.items[|p.items| - 1];
    assert last in p.items && last in shelves[0].list;
    assert 0 < last.seqNo;
    assert Grows(shelves[0], shelves[1]);
    forall x | x in rest ensures x in shelves[0].list && x.seqNo < last.seqNo {
      assert x in shelves[1].list;
    }
    JoinDescending(p.items, rest);
    forall x | Stays(shelves, x) && (before == 0 || x.seqNo < before) ensures x in p.items + rest {
      assert x in shelves[0].list;
      if x !in p.items {
        assert Stays(shelves[1..], x);
      }
    }
  }

  /**
   A walk, with items stored and deleted between its pages: strictly falling numbers, every item that stayed on the
   shelf throughout, each once, and nothing that was stored after the first page was read.
   */
  lemma {:induction false} WalkFrom(shelves: seq<Shelf>, limit: nat, cursor: string, pages: seq<Page>)
    requires 0 < limit && Evolving(shelves) && Walks(shelves, limit, cursor, pages)
    ensures Complete(shelves, ParseOptionalUint(cursor).value, AllItems(pages))
    decreases |pages|
  {
    var before := ParseOptionalUint(cursor).value;
    var p := pages[0];
    if |pages| == 1 {
      PageFacts(shelves[0].list, limit, before);
      assert AllItems(pages) == p.items by { assert AllItems(pages[1..]) == []; }
      assert forall x | Stays(shelves, x) :: x in shelves[0].list;
    } else {
      CursorAccepted(shelves[0], limit, before);
      EvolvingTail(shelves);
      WalkFrom(shelves[1..], limit, p.nextCursor, pages[1..]);
      WalkStep(shelves, limit, before, p, AllItems(pages[1..]));
    }
  }

  lemma EvolvingTail(shelves: seq<Shelf>)
    requires Evolving(shelves) && |shelves| > 1
    ensures Evolving(shelves[1..])
  {
    var tail := shelves[1..];
    forall i | 0 < i < |tail| ensures Grows(tail[i - 1], tail[i]) {
      assert Grows(shelves[i], shelves[i + 1]);
    }
  }

  // ---- a walk comes to an end ----

  lemma {:induction false} FewerBelow(a: seq<Clip>, b: seq<Clip>)
    requires Descending(a) && Descending(b) && forall x | x in a :: x in b
    ensures |a| <= |b|
  {
    if a != [] {
      var n := |a| - 1;
      assert a[n] in b;
      var i :| 0 <= i < |b| && b[i] == a[n];
      forall x | x in a[..n] ensures x in b[..i] {
        var j :| 0 <= j < n && a[j] == x;
        assert a[j] in a;
        var k :| 0 <= k < |b| && b[k] == a[j];
        assert k < i;
        assert b[..i][k] == x;
      }
      FewerBelow(a[..n], b[..i]);
    }
  }

  /** What a page leaves for the next one, on whatever the shelf has become by then. */
  lemma PageConsumes(s: Shelf, s': Shelf, limit: nat, before: nat)
    requires 0 < limit && Proper(s) && Proper(s') && Grows(s, s') && PageOf(s.list, limit, before).hasMore
    ensures var cursor := CursorOf(PageOf(s.list, limit, before));
            && 0 < cursor && (before > 0 ==> cursor < before)
            && limit + |Below(s'.list, cursor)| <= |Below(s.list, before)|
    ensures limit < |Below(s.list, before)|
  {
    var below, cursor := Below(s.list, before), CursorOf(PageOf(s.list, limit, before));
    CursorIs(s, limit, before);
    hide PageOf, CursorOf, Below;
    BelowMembers(s.list, before);
    BelowDescending(s.list, before);
    assert below[limit - 1] in below;
    BelowMembers(s'.list, cursor);
    BelowDescending(s'.list, cursor);
    BehindCursor(below, limit);
    FewerBelow(Below(s'.list, cursor), below[limit..]);
  }

  lemma CursorIs(s: Shelf, limit: nat, before: nat)
    requires 0 < limit && Proper(s) && PageOf(s.list, limit, before).hasMore
    ensures limit < |Below(s.list, before)|
    ensures CursorOf(PageOf(s.list, limit, before)) == Below(s.list, before)[limit - 1].seqNo
  {
    hide ParseOptionalUint;
    CursorAccepted(s, limit, before);
  }

  lemma BehindCursor(below: seq<Clip>, limit: nat)
    requires 0 < limit < |below| && Descending(below)
    ensures Descending(below[limit..])
    ensures forall x | x in below && x.seqNo < below[limit - 1].seqNo :: x in below[limit..]
  {
    forall x | x in below && x.seqNo < below[limit - 1].seqNo ensures x in below[limit..] {
      var i :| 0 <= i < |below| && below[i] == x;
      assert below[limit..][i - limit] == x;
    }
  }

  /** The number a page's NextCursor is read back as; 0 for none. */
  function CursorOf(p: Page): nat {
    match ParseOptionalUint(p.nextCursor)
    case Accepted(n) => n
    case BadRequest => 0
  }

  lemma StepEvolves(shelves: seq<Shelf>)
    requires Evolving(shelves) && |shelves| > 1
    ensures Proper(shelves[0]) && Proper(shelves[1]) && Grows(shelves[0], shelves[1]) && Evolving(shelves[1..])
  {
    assert Grows(shelves[0], shelves[1]);
    EvolvingTail(shelves);
  }

  /** One more page of `limit` items, and at least as many fewer are left. */
  lemma OneMorePage(pages: nat, limit: nat, left: nat, n: nat)
    requires pages * limit < left && limit + left <= n
    ensures (pages + 1) * limit < n
  {
    assert (pages + 1) * limit == pages * limit + limit;
  }

  /**
   However long a reader keeps following cursors: as long as the last page announces more, all pages so far together
   are shorter than what was listed below the start. So every walk comes to an end, after no more pages than that
   listing fills (one, if it is empty), however many items are stored in the meantime.
   */
  lemma {:induction false} WalkEnds(shelves: seq<Shelf>, limit: nat, cursor: string, pages: seq<Page>)
    requires 0 < limit && Evolving(shelves) && Follows(shelves, limit, cursor, pages)
    ensures var n := |Below(shelves[0].list, ParseOptionalUint(cursor).value)|;
            (pages[|pages| - 1].hasMore ==> |pages| * limit < n) && (|pages| > 1 ==> (|pages| - 1) * limit < n)
    ensures var before := ParseOptionalUint(cursor).value;
            pages[0].hasMore ==> 0 < CursorOf(pages[0]) && (before > 0 ==> CursorOf(pages[0]) < before)
    decreases |pages|
  {
    hide PageOf, Below, Evolving, Proper, Grows, ParseOptionalUint;
    var before := ParseOptionalUint(cursor).value;
    var n := |Below(shelves[0].list, before)|;
    if |pages| > 1 {
      StepEvolves(shelves);
      CursorOfPage(shelves[0], limit, before);
      PageConsumes(shelves[0], shelves[1], limit, before);
      WalkEnds(shelves[1..], limit, pages[0].nextCursor, pages[1..]);
      var left := |Below(shelves[1].list, CursorOf(pages[0]))|;
      assert pages[1..][|pages| - 2] == pages[|pages| - 1];
      if pages[|pages| - 1].hasMore { OneMorePage(|pages| - 1, limit, left, n); }
      if |pages| > 2 { OneMorePage(|pages| - 2, limit, left, n); }
    } else if pages[0].hasMore {
      FirstPageFills(shelves, limit, before);
    }
  }

  lemma FirstPageFills(shelves: seq<Shelf>, limit: nat, before: nat)
    requires 0 < limit && Evolving(shelves) && shelves != [] && PageOf(shelves[0].list, limit, before).hasMore
    ensures limit < |Below(shelves[0].list, before)|
    ensures var cursor := CursorOf(PageOf(shelves[0].list, limit, before));
            0 < cursor && (before > 0 ==> cursor < before)
  {
    GrowsItself(shelves[0]);
    PageConsumes(shelves[0], shelves[0], limit, before);
  }

  lemma CursorOfPage(s: Shelf, limit: nat, before: nat)
    requires 0 < limit && Proper(s) && PageOf(s.list, limit, before).hasMore
    ensures var p := PageOf(s.list, limit, before);
            ParseOptionalUint(p.nextCursor).Accepted? && CursorOf(p) == ParseOptionalUint(p.nextCursor).value
  {
    CursorAccepted(s, limit, before);
  }

  /** ... and the cursors fall from page to page. */
  lemma {:induction false} CursorsFall(shelves: seq<Shelf>, limit: nat, cursor: string, pages: seq<Page>, i: nat)
    requires 0 < limit && Evolving(shelves) && Follows(shelves, limit, cursor, pages)
    requires i + 1 < |pages| && pages[i + 1].hasMore
    ensures 0 < CursorOf(pages[i + 1]) < CursorOf(pages[i])
    decreases i
  {
    hide PageOf, Below, Evolving, Proper, Grows, ParseOptionalUint;
    StepEvolves(shelves);
    var before := ParseOptionalUint(cursor).value;
    if i > 0 {
      CursorsFall(shelves[1..], limit, pages[0].nextCursor, pages[1..], i - 1);
    } else {
      CursorOfPage(shelves[0], limit, before);
      PageConsumes(shelves[0], shelves[1], limit, before);
      GrowsItself(shelves[1]);
      PageConsumes(shelves[1], shelves[1], limit, CursorOf(pages[0]));
    }
  }

  lemma GrowsItself(s: Shelf)
    ensures Grows(s, s)
  {
  }

  // ---- both histories of the hub are such shelves ----

  ghost function TableShelf(s: Sys): Shelf {
    Shelf(NewestFirst(s.table.rows), LoadSeq(s.table))
  }

  function MemoryShelf(s: Sys): Shelf {
    Shelf(s.hub.history, s.hub.seqNo)
  }

  /** Every step of the hub lets the table and the memory change only in the way a walk can follow. */
  lemma StepGrows(cfg: Config, s: Sys, step: Step)
    requires Inv(cfg, s) && Enabled(cfg, s, step)
    ensures Grows(TableShelf(s), TableShelf(Apply(cfg, s, step)))
    ensures Grows(MemoryShelf(s), MemoryShelf(Apply(cfg, s, step)))
  {
    var s' := Apply(cfg, s, step);
    StepInv(cfg, s, step);
    NewestFirstLists(s.table.rows);
    NewestFirstLists(s'.table.rows);
    RowsGrow(cfg, s, step);
    MemoryGrows(cfg, s, step);
  }

  lemma RowsGrow(cfg: Config, s: Sys, step: Step)
    requires Inv(cfg, s) && Enabled(cfg, s, step)
    ensures var s' := Apply(cfg, s, step);
            && LoadSeq(s.table) <= LoadSeq(s'.table)
            && forall k | k in s'.table.rows ::
                 k > LoadSeq(s.table) || (k in s.table.rows && s.table.rows[k] == s'.table.rows[k])
  {
    if step.Save? {
      SaveIsFresh(s);
      SaveTable(cfg, s, step.ok);
    } else {
      TableFrame(cfg, s, step);
      LoadableFewer(s.table, Apply(cfg, s, step).table);
    }
  }

  lemma CommitGrows(cfg: Config, s: Sys, p: nat, input: PutInput, now: nat)
    ensures Grows(MemoryShelf(s), MemoryShelf(AfterPut(cfg, s, p, input, now)))
  {
    TakeOf(NewClip(cfg, s.hub, input, now), s.hub.history, cfg.maxHistory);
  }

  lemma MemoryGrows(cfg: Config, s: Sys, step: Step)
    requires Inv(cfg, s) && Enabled(cfg, s, step)
    ensures Grows(MemoryShelf(s), MemoryShelf(Apply(cfg, s, step)))
  {
    hide Inv;
    if step.Commit? {
      CommitGrows(cfg, s, step.put, step.input, step.now);
    } else if step.Reap? {
      UnexpiredMembers(s.hub.history, step.now);
    } else {
      MemFrame(cfg, s, step);
    }
  }

  /** The listing `HistoryPage` pages through: the table when there is a store, the memory otherwise. */
  ghost function PagedShelf(s: Sys, stored: bool): Shelf {
    if stored then TableShelf(s) else MemoryShelf(s)
  }

  lemma ShelfProper(cfg: Config, s: Sys, stored: bool)
    requires Inv(cfg, s) && s.hub.seqNo < UINT64_LIMIT
    ensures Proper(PagedShelf(s, stored))
  {
    NewestFirstLists(s.table.rows);
  }

  lemma {:induction false} RunGrows(cfg: Config, s: Sys, steps: seq<Step>, s': Sys, stored: bool)
    requires Inv(cfg, s) && Runs(cfg, s, steps, s')
    ensures Grows(PagedShelf(s, stored), PagedShelf(s', stored))
    decreases |steps|
  {
    hide Inv;
    if steps != [] {
      StepGrows(cfg, s, steps[0]);
      StepInv(cfg, s, steps[0]);
      RunGrows(cfg, Apply(cfg, s, steps[0]), steps[1..], s', stored);
    }
  }

  /** `states[i]` is the hub when page i is read; between two pages it runs any steps at all. */
  ghost predicate Visits(cfg: Config, states: seq<Sys>, between: seq<seq<Step>>) {
    && |states| == |between| + 1
    && forall i | 0 <= i < |between| :: Runs(cfg, states[i], between[i], states[i + 1])
  }

  lemma {:induction false} VisitsInv(cfg: Config, states: seq<Sys>, between: seq<seq<Step>>, i: nat)
    requires Visits(cfg, states, between) && Inv(cfg, states[0]) && i < |states|
    ensures Inv(cfg, states[i])
  {
    if i > 0 {
      VisitsInv(cfg, states, between, i - 1);
      assert Runs(cfg, states[i - 1], between[i - 1], states[i]);
      RunInv(cfg, states[i - 1], between[i - 1], states[i]);
    }
  }

  lemma VisitShelf(cfg: Config, states: seq<Sys>, between: seq<seq<Step>>, stored: bool, i: nat)
    requires Visits(cfg, states, between) && Inv(cfg, states[0]) && i < |states|
    requires states[i].hub.seqNo < UINT64_LIMIT
    ensures Proper(PagedShelf(states[i], stored))
    ensures i > 0 ==> Grows(PagedShelf(states[i - 1], stored), PagedShelf(states[i], stored))
  {
    hide Inv, Proper, Grows;
    VisitsInv(cfg, states, between, i);
    ShelfProper(cfg, states[i], stored);
    if i > 0 {
      VisitsInv(cfg, states, between, i - 1);
      assert Runs(cfg, states[i - 1], between[i - 1], states[i]);
      RunGrows(cfg, states[i - 1], between[i - 1], states[i], stored);
    }
  }

  /** The walk over a running hub: see WalkEnds, and for a walk that has ended WalkFrom. */
  lemma HubWalk(cfg: Config, states: seq<Sys>, between: seq<seq<Step>>, stored: bool, limit: nat, pages: seq<Page>)
    requires 0 < limit && Visits(cfg, states, between) && Inv(cfg, states[0])
    requires forall i | 0 <= i < |states| :: states[i].hub.seqNo < UINT64_LIMIT
    requires Follows(seq(|states|, i requires 0 <= i < |states| => PagedShelf(states[i], stored)), limit, "", pages)
    ensures pages[|pages| - 1].hasMore ==> |pages| * limit < |PagedShelf(states[0], stored).list|
    ensures |pages| == 1 || (|pages| - 1) * limit < |PagedShelf(states[0], stored).list|
    ensures !pages[|pages| - 1].hasMore ==> Descending(AllItems(pages))
    ensures !pages[|pages| - 1].hasMore ==> forall x | x in AllItems(pages) :: x in PagedShelf(states[0], stored).list
    ensures !pages[|pages| - 1].hasMore ==>
              forall x: Clip | (forall i | 0 <= i < |states| :: x in PagedShelf(states[i], stored).list) ::
                x in AllItems(pages)
  {
    hide Inv, PagedShelf, Runs;
    var shelves := seq(|states|, i requires 0 <= i < |states| => PagedShelf(states[i], stored));
    forall i | 0 <= i < |shelves| ensures Proper(shelves[i]) && (i > 0 ==> Grows(shelves[i - 1], shelves[i])) {
      VisitShelf(cfg, states, between, stored, i);
    }
    WalkEnds(shelves, limit, "", pages);
    BelowAll(shelves[0].list);
    if !pages[|pages| - 1].hasMore {
      WalkFrom(shelves, limit, "", pages);
      forall x: Clip | (forall i | 0 <= i < |states| :: x in PagedShelf(states[i], stored).list)
        ensures x in AllItems(pages)
      {
        assert Stays(shelves, x);
      }
    }
  }
}
