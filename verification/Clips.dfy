/** Clipboard items as values, and the list functions the rest of the project is stated with. */
module Clips {

  datatype Option<+T> = None | Some(value: T)

  newtype Byte = x: int | 0 <= x < 256

  type Bytes = seq<Byte>

  /** One clipboard entry. `seqNo` is the source's `Seq`; times are instants in nanoseconds. */
  datatype Clip = Clip(seqNo: nat, mime: string, content: Bytes, data: Bytes, hash: string,
                       source: string, createdAt: nat, expiresAt: nat)

  predicate IsText(mime: string) {
    "text/" <= mime
  }

  // ---- orders on lists of clips ----

  ghost predicate Descending(l: seq<Clip>) {
    forall i, j | 0 <= i < j < |l| :: l[i].seqNo > l[j].seqNo
  }

  ghost predicate Ascending(l: seq<Clip>) {
    forall i, j | 0 <= i < j < |l| :: l[i].seqNo < l[j].seqNo
  }

  /** Newest first, items expire no later than the ones before them. */
  ghost predicate ExpiryFalls(l: seq<Clip>) {
    forall i, j | 0 <= i < j < |l| :: l[j].expiresAt <= l[i].expiresAt
  }

  /** The sequence numbers are exactly `from + 1`, `from + 2`, ... */
  ghost predicate CountsUpFrom(l: seq<Clip>, from: nat) {
    forall i | 0 <= i < |l| :: l[i].seqNo == from + 1 + i
  }

  lemma AscendingAppend(l: seq<Clip>, x: Clip)
    requires Ascending(l) && forall y | y in l :: y.seqNo < x.seqNo
    ensures Ascending(l + [x])
  {
    assert forall i | 0 <= i < |l| :: l[i] in l;
  }

  lemma CountsAppend(l: seq<Clip>, x: Clip, from: nat)
    requires CountsUpFrom(l, from) && x.seqNo == from + 1 + |l|
    ensures CountsUpFrom(l + [x], from)
  {
  }

  // ---- list functions ----

  function Take(l: seq<Clip>, n: nat): seq<Clip> {
    if |l| <= n then l else l[..n]
  }

  lemma TakeIs(l: seq<Clip>, n: nat)
    ensures Take(l, n) <= l && |Take(l, n)| == if |l| < n then |l| else n
  {
  }

  /** What is left of `l` when everything that expired before `now` is dropped. */
  function Unexpired(l: seq<Clip>, now: nat): seq<Clip> {
    if l == [] then []
    else if now <= l[|l| - 1].expiresAt then Unexpired(l[..|l| - 1], now) + [l[|l| - 1]]
    else Unexpired(l[..|l| - 1], now)
  }

  /** The items numbered above `n`, order kept. */
  function Above(l: seq<Clip>, n: nat): seq<Clip> {
    if l == [] then []
    else if l[|l| - 1].seqNo > n then Above(l[..|l| - 1], n) + [l[|l| - 1]]
    else Above(l[..|l| - 1], n)
  }

  /** The items numbered below `n`, order kept; `n == 0` stands for "no bound". */
  function Below(l: seq<Clip>, n: nat): seq<Clip> {
    if l == [] then []
    else if n == 0 || l[0].seqNo < n then [l[0]] + Below(l[1..], n)
    else Below(l[1..], n)
  }

  /** A newest-first list turned round and cut to what lies above `after`. */
  function OldestFirst(l: seq<Clip>, after: nat): seq<Clip> {
    if l == [] then []
    else if l[0].seqNo > after then OldestFirst(l[1..], after) + [l[0]]
    else OldestFirst(l[1..], after)
  }

  lemma {:induction false} UnexpiredMembers(l: seq<Clip>, now: nat)
    ensures |Unexpired(l, now)| <= |l|
    ensures forall x :: x in Unexpired(l, now) <==> x in l && now <= x.expiresAt
  {
    if l != [] {
      UnexpiredMembers(l[..|l| - 1], now);
      assert l == l[..|l| - 1] + [l[|l| - 1]];
    }
  }

  lemma {:induction false} AboveMembers(l: seq<Clip>, n: nat)
    ensures forall x :: x in Above(l, n) <==> x in l && x.seqNo > n
  {
    if l != [] {
      AboveMembers(l[..|l| - 1], n);
      assert l == l[..|l| - 1] + [l[|l| - 1]];
    }
  }

  lemma {:induction false} BelowMembers(l: seq<Clip>, n: nat)
    ensures forall x :: x in Below(l, n) <==> x in l && (n == 0 || x.seqNo < n)
  {
    if l != [] {
      BelowMembers(l[1..], n);
      assert l == [l[0]] + l[1..];
    }
  }

  lemma {:induction false} BelowAll(l: seq<Clip>)
    ensures Below(l, 0) == l
  {
    if l != [] { BelowAll(l[1..]); }
  }

  lemma {:induction false} OldestFirstMembers(l: seq<Clip>, after: nat)
    ensures forall x :: x in OldestFirst(l, after) <==> x in l && x.seqNo > after
  {
    if l != [] {
      OldestFirstMembers(l[1..], after);
      assert l == [l[0]] + l[1..];
    }
  }

  lemma UnexpiredAppend(l: seq<Clip>, x: Clip, now: nat)
    ensures Unexpired(l + [x], now) == if now <= x.expiresAt then Unexpired(l, now) + [x] else Unexpired(l, now)
  {
    assert (l + [x])[..|l|] == l;
  }

  lemma {:induction false} UnexpiredJoin(a: seq<Clip>, b: seq<Clip>, now: nat)
    ensures Unexpired(a + b, now) == Unexpired(a, now) + Unexpired(b, now)
    decreases b
  {
    if b == [] {
      assert a + b == a;
    } else {
      var init, x := b[..|b| - 1], b[|b| - 1];
      UnexpiredJoin(a, init, now);
      assert b == init + [x] && a + b == (a + init) + [x];
      UnexpiredAppend(a + init, x, now);
      UnexpiredAppend(init, x, now);
    }
  }

  lemma {:induction false} NoneExpired(l: seq<Clip>, now: nat)
    requires forall i | 0 <= i < |l| :: now <= l[i].expiresAt
    ensures Unexpired(l, now) == l
  {
    if l != [] {
      NoneExpired(l[..|l| - 1], now);
      assert l == l[..|l| - 1] + [l[|l| - 1]];
    }
  }

  lemma AboveAppend(l: seq<Clip>, x: Clip, n: nat)
    ensures Above(l + [x], n) == if x.seqNo > n then Above(l, n) + [x] else Above(l, n)
  {
    assert (l + [x])[..|l|] == l;
  }

  lemma {:induction false} AboveAll(l: seq<Clip>)
    ensures (forall x | x in l :: 0 < x.seqNo) ==> Above(l, 0) == l
  {
    if l != [] {
      assert l == l[..|l| - 1] + [l[|l| - 1]];
      AboveAll(l[..|l| - 1]);
    }
  }

  lemma {:induction false} AboveAscending(l: seq<Clip>, n: nat)
    requires Ascending(l)
    ensures Ascending(Above(l, n))
  {
    if l != [] {
      var l' := l[..|l| - 1];
      AboveAscending(l', n);
      AboveMembers(l', n);
      assert forall i | 0 <= i < |Above(l', n)| :: Above(l', n)[i] in l';
    }
  }

  lemma {:induction false} UnexpiredDescending(l: seq<Clip>, now: nat)
    requires Descending(l)
    ensures Descending(Unexpired(l, now))
  {
    if l != [] {
      var l' := l[..|l| - 1];
      UnexpiredDescending(l', now);
      UnexpiredMembers(l', now);
      assert forall i | 0 <= i < |Unexpired(l', now)| :: Unexpired(l', now)[i] in l';
    }
  }

  lemma CountsConcat(a: seq<Clip>, b: seq<Clip>, from: nat)
    requires CountsUpFrom(a, from) && CountsUpFrom(b, from + |a|)
    ensures CountsUpFrom(a + b, from)
  {
  }

  lemma {:induction false} OldestFirstAscending(l: seq<Clip>, after: nat)
    requires Descending(l)
    ensures Ascending(OldestFirst(l, after))
  {
    if l != [] {
      OldestFirstAscending(l[1..], after);
      OldestFirstMembers(l[1..], after);
      var r := OldestFirst(l[1..], after);
      assert forall i | 0 <= i < |r| :: r[i] in l[1..];
    }
  }

  ghost predicate Has(l: seq<Clip>, n: nat) {
    exists x :: x in l && x.seqNo == n
  }

  /** Every number in (lo, hi] occurs in `l`. */
  ghost predicate Covers(l: seq<Clip>, lo: nat, hi: nat) {
    forall n | lo < n <= hi :: Has(l, n)
  }

  /** A covering newest-first list, turned round, counts lo+1, lo+2, ..., hi with nothing missing. */
  lemma {:induction false} CoveredReplay(l: seq<Clip>, lo: nat, hi: nat)
    requires Descending(l) && Covers(l, lo, hi)
    requires forall x | x in l :: x.seqNo <= hi
    ensures CountsUpFrom(OldestFirst(l, lo), lo)
    ensures |OldestFirst(l, lo)| == if lo <= hi then hi - lo else 0
  {
    OldestFirstMembers(l, lo);
    if lo < hi {
      assert Has(l, hi);
      assert l[0].seqNo == hi;
      assert l == [l[0]] + l[1..];
      forall n | lo < n <= hi - 1 ensures Has(l[1..], n) {
        assert Has(l, n);
      }
      CoveredReplay(l[1..], lo, hi - 1);
    } else if OldestFirst(l, lo) != [] {
      assert OldestFirst(l, lo)[0] in OldestFirst(l, lo);
      assert false;
    }
  }

  lemma CoversInit(l: seq<Clip>, from: nat)
    requires Ascending(l) && |l| > 1 && Covers(l, from, l[|l| - 1].seqNo)
    ensures Covers(l[..|l| - 1], from, l[|l| - 2].seqNo)
  {
    var init := l[..|l| - 1];
    forall m | from < m <= l[|l| - 2].seqNo ensures Has(init, m) {
      assert Has(l, m);
      var i :| 0 <= i < |l| && l[i].seqNo == m;
      assert init[i] in init;
    }
  }

  lemma LastCounts(l: seq<Clip>, from: nat)
    requires l != [] && Ascending(l) && CountsUpFrom(l[..|l| - 1], from)
    requires from < l[|l| - 1].seqNo && Covers(l, from, l[|l| - 1].seqNo)
    ensures l[|l| - 1].seqNo == from + |l|
  {
    var n := |l| - 1;
    assert n > 0 ==> l[..n][n - 1].seqNo < l[n].seqNo;
    assert forall j | 0 <= j < n :: l[j] == l[..n][j] && l[j].seqNo < from + |l|;
    assert Has(l, from + |l|);
  }

  /** An ascending list above `from` that leaves out no number up to its last counts on from `from`. */
  lemma {:induction false} AscendingCounts(l: seq<Clip>, from: nat)
    requires Ascending(l) && forall x | x in l :: from < x.seqNo
    requires l != [] ==> Covers(l, from, l[|l| - 1].seqNo)
    ensures CountsUpFrom(l, from)
  {
    hide Covers;
    if l != [] {
      var n := |l| - 1;
      if n > 0 { CoversInit(l, from); }
      AscendingCounts(l[..n], from);
      LastCounts(l, from);
      assert l[..n] + [l[n]] == l;
      CountsAppend(l[..n], l[n], from);
    }
  }

  lemma {:induction false} CountsOnce(l: seq<Clip>, from: nat, x: Clip)
    requires CountsUpFrom(l, from)
    ensures multiset(l)[x] <= 1
  {
    if l != [] {
      var init, last := l[..|l| - 1], l[|l| - 1];
      assert l == init + [last];
      CountsOnce(init, from, x);
      if x == last {
        assert x !in init;
      }
    }
  }

  // ---- filtering by expiry when expiry falls ----

  /** Along a list whose expiry falls, an expiry filter keeps exactly a prefix. */
  lemma {:induction false} UnexpiredIsPrefix(l: seq<Clip>, now: nat)
    requires ExpiryFalls(l)
    ensures Unexpired(l, now) <= l
    ensures |Unexpired(l, now)| < |l| ==> l[|Unexpired(l, now)|].expiresAt < now
    ensures forall i | 0 <= i < |Unexpired(l, now)| :: now <= l[i].expiresAt
  {
    if l != [] {
      var n := |l| - 1;
      UnexpiredIsPrefix(l[..n], now);
      if now <= l[n].expiresAt {
        assert |Unexpired(l[..n], now)| == n;
        assert Unexpired(l, now) == l;
      }
    }
  }

  /** ... and so it commutes with cutting the list to a length. */
  lemma TakeUnexpired(l: seq<Clip>, n: nat, now: nat)
    requires ExpiryFalls(l)
    ensures Unexpired(Take(l, n), now) == Take(Unexpired(l, now), n)
  {
    UnexpiredIsPrefix(l, now);
    UnexpiredIsPrefix(Take(l, n), now);
    var whole, cut := Unexpired(l, now), Unexpired(Take(l, n), now);
    assert Take(l, n) == l[..|Take(l, n)|];
    assert |cut| == |Take(whole, n)|;
  }
}
