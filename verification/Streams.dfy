/** What the stream handshake guarantees over whole runs, for one connection and across reconnects. */
module Streams {
  import opened Clips
  import opened HubSpec
  import opened Tables
  import opened Protocol
  import opened Turnstile
  import opened Memory
  import opened Delivery
  import opened Persistence

  // ---- one connection, read off its invariant ----

  /** The live part: in order, above the replay, and out of what was offered. */
  lemma LiveAscending(c: Conn)
    requires ChannelOk(c)
    ensures var live := Above(c.taken, c.upTo);
            Ascending(live) && forall x | x in live :: x in c.offered && c.upTo < x.seqNo && c.joined < x.seqNo
  {
    AboveMembers(c.taken, c.upTo);
    assert Ascending(c.taken) by {
      assert forall i | 0 <= i < |c.taken| :: c.taken[i] == AcceptedBy(c)[i];
    }
    AboveAscending(c.taken, c.upTo);
    forall x | x in Above(c.taken, c.upTo) ensures x in c.offered && c.joined < x.seqNo {
      assert x in AcceptedBy(c);
      InOffered(c, x);
    }
  }

  lemma SentAscending(c: Conn)
    requires ChannelOk(c) && SentOk(c)
    ensures Ascending(c.sent)
    ensures forall x | x in c.sent :: x in c.replay || x in c.offered
    ensures forall x | x in c.sent :: 0 < x.seqNo
    ensures Guarded(c) && c.since.Some? ==> forall x | x in c.sent :: c.since.value < x.seqNo
  {
    hide ChannelOk;
    if c.phase.Streaming? {
      var n := c.phase.next;
      var first, live := c.replay[..n], Above(c.taken, c.upTo);
      LiveAscending(c);
      assert forall i | 0 <= i < |live| :: live[i] in live;
      assert forall x | x in first :: x in c.replay;
      assert forall i | 0 <= i < n :: first[i].seqNo <= c.upTo;
      if Guarded(c) && c.since.Some? && n == |c.replay| > 0 {
        assert c.replay[n - 1] in c.replay;
      }
    }
  }

  /** Behind an empty replay a connection starts with the first item published after its subscription. */
  lemma FirstSent(c: Conn)
    requires ChannelOk(c) && SentOk(c) && c.replay == [] && c.sent != []
    ensures c.sent[0].seqNo == c.joined + 1
  {
    LiveAscending(c);
    AboveAll(c.taken);
    assert forall x | x in c.taken :: x in AcceptedBy(c);
    forall x | x in c.taken ensures 0 < x.seqNo { InOffered(c, x); }
    assert c.sent[0] == AcceptedBy(c)[0] == c.offered[0];
  }

  /**
   Exactly when everything sent lies above since_seq, whatever was dropped and however much the history held:
   if the subscription was not behind since_seq, or the replay was not empty, or nothing has been sent.
   */
  lemma SentAboveSince(c: Conn)
    requires ChannelOk(c) && SentOk(c) && c.since.Some?
    ensures (forall x | x in c.sent :: c.since.value < x.seqNo) <==> Guarded(c) || c.sent == []
  {
    SentAscending(c);
    if !Guarded(c) && c.sent != [] {
      FirstSent(c);
      assert c.sent[0] in c.sent;
    }
  }

  /** Something was dropped that the replay had not sent, and something behind it has been sent since. */
  ghost predicate Skips(c: Conn) {
    exists x, y :: x in c.lost && y in c.sent && StartOf(c) + |c.replay| < x.seqNo < y.seqNo
  }

  lemma AcceptedOrLost(c: Conn, x: Clip, y: Clip)
    requires ChannelOk(c) && x in AcceptedBy(c) && y in c.lost
    ensures x.seqNo != y.seqNo
  {
    InOffered(c, x);
    InOffered(c, y);
    CountsOnce(c.offered, c.joined, x);
    assert multiset(c.offered)[x] == multiset(AcceptedBy(c))[x] + multiset(c.lost)[x];
  }

  /** What was offered before something received is received too, unless it was dropped. */
  lemma TakenOrLost(c: Conn, y: Clip, m: nat)
    requires ChannelOk(c) && y in c.taken && c.joined < m <= y.seqNo
    ensures Has(c.taken, m) || Has(c.lost, m)
  {
    assert y in AcceptedBy(c);
    InOffered(c, y);
    var x := c.offered[m - c.joined - 1];
    assert x in c.offered && x.seqNo == m;
    assert x in multiset(AcceptedBy(c)) + multiset(c.lost);
    if x !in c.lost {
      var i :| 0 <= i < |AcceptedBy(c)| && AcceptedBy(c)[i] == x;
      var j :| 0 <= j < |c.taken| && c.taken[j] == y;
      assert AcceptedBy(c)[j] == y;
      assert i <= j;
      assert c.taken[i] == x;
    }
  }

  /** The live part counts on from the replay if the subscription does, and nothing is skipped. */
  lemma LiveCountsOn(c: Conn)
    requires ChannelOk(c) && SentOk(c) && c.phase == Streaming(|c.replay|)
    requires CountsUpFrom(c.replay, StartOf(c)) && c.joined <= StartOf(c) + |c.replay|
    requires Guarded(c) && !Skips(c)
    ensures CountsUpFrom(Above(c.taken, c.upTo), StartOf(c) + |c.replay|)
  {
    var live, from := Above(c.taken, c.upTo), StartOf(c) + |c.replay|;
    LiveAscending(c);
    AboveMembers(c.taken, c.upTo);
    if live != [] {
      var last := live[|live| - 1];
      assert last in live && last in c.sent && last in AcceptedBy(c);
      forall m | from < m <= last.seqNo ensures Has(live, m) {
        TakenOrLost(c, last, m);
        forall x | x in c.lost ensures x.seqNo != m {
          AcceptedOrLost(c, last, x);
        }
        var x :| x in c.taken && x.seqNo == m;
        assert x in live;
      }
    }
    AscendingCounts(live, from);
  }

  lemma SkipsNothing(c: Conn)
    requires ChannelOk(c) && SentOk(c) && c.phase.Streaming?
    requires CountsUpFrom(c.sent, StartOf(c))
    ensures !Skips(c)
  {
    var n := c.phase.next;
    forall x, y | x in c.lost && y in c.sent && StartOf(c) + |c.replay| < x.seqNo < y.seqNo ensures false {
      var i := x.seqNo - StartOf(c) - 1;
      assert c.sent[i].seqNo == x.seqNo;
      var z := Above(c.taken, c.upTo)[i - n];
      assert c.sent[i] == z;
      AboveMembers(c.taken, c.upTo);
      assert z in Above(c.taken, c.upTo);
      assert z in AcceptedBy(c);
      AcceptedOrLost(c, z, x);
    }
  }

  /** The live part follows on from the replay: nothing was published in between, nothing is sent twice or lost. */
  ghost predicate FollowsOn(c: Conn) {
    c.joined <= StartOf(c) + |c.replay| && Guarded(c) && !Skips(c)
  }

  lemma FollowedOn(c: Conn)
    requires ChannelOk(c) && SentOk(c) && c.phase.Streaming?
    requires CountsUpFrom(c.sent, StartOf(c)) && c.phase.next < |c.sent|
    ensures FollowsOn(c)
  {
    var n, live := c.phase.next, Above(c.taken, c.upTo);
    assert c.sent[n] == live[0] && c.sent[n] in c.sent;
    assert forall x | x in c.sent :: StartOf(c) < x.seqNo;
    LiveAscending(c);
    if c.since.Some? { SentAboveSince(c); }
    SkipsNothing(c);
    assert live[0] in live;
  }

  lemma UnskippedCounts(c: Conn)
    requires ChannelOk(c) && SentOk(c) && c.phase == Streaming(|c.replay|)
    requires CountsUpFrom(c.replay, StartOf(c)) && FollowsOn(c)
    ensures CountsUpFrom(c.sent, StartOf(c))
  {
    hide ChannelOk, Skips, Guarded, Ascending;
    LiveCountsOn(c);
    assert c.replay[..|c.replay|] == c.replay;
    CountsConcat(c.replay, Above(c.taken, c.upTo), StartOf(c));
  }

  /**
   Exactly when the stream is gap-free, whatever was dropped, cleared, evicted or expired. What has been sent counts
   on from since_seq, or without one from the subscription, if and only if the part of the replay that has been sent
   does, and, once anything live has been sent, the live part FollowsOn.
   */
  lemma SentCountsExactly(c: Conn)
    requires ChannelOk(c) && SentOk(c) && c.phase.Streaming?
    ensures c.phase.next <= |c.replay|
    ensures CountsUpFrom(c.sent, StartOf(c))
            <==> CountsUpFrom(c.replay[..c.phase.next], StartOf(c)) && (|c.sent| == c.phase.next || FollowsOn(c))
  {
    SentParts(c);
    hide ChannelOk, SentOk, FollowsOn;
    var n := c.phase.next;
    if |c.sent| == n {
      assert c.sent == c.replay[..n];
    } else {
      assert c.replay[..n] == c.replay;
      if CountsUpFrom(c.sent, StartOf(c)) {
        FollowedOn(c);
        assert forall i | 0 <= i < n :: c.replay[i] == c.sent[i];
      }
      if CountsUpFrom(c.replay, StartOf(c)) && FollowsOn(c) {
        UnskippedCounts(c);
      }
    }
  }

  lemma SentParts(c: Conn)
    requires SentOk(c) && c.phase.Streaming?
    ensures c.phase.next <= |c.replay| && c.phase.next <= |c.sent| && c.sent[..c.phase.next] == c.replay[..c.phase.next]
    ensures |c.sent| > c.phase.next ==> c.phase == Streaming(|c.replay|)
  {
  }

  /** A history that covers the gap at the read leaves only the guard and the drops to decide. */
  lemma CoveredCounts(c: Conn)
    requires ChannelOk(c) && SentOk(c) && c.phase.Streaming? && c.covered
    ensures CountsUpFrom(c.sent, StartOf(c)) <==> c.sent == [] || (Guarded(c) && !Skips(c))
  {
    SentCountsExactly(c);
    SentParts(c);
    if |c.sent| == c.phase.next {
      assert c.sent == c.replay[..c.phase.next];
      SkipsNothing(c);
    }
  }

  /** Without since_seq there is no replay: only drops decide. */
  lemma LiveCounts(c: Conn)
    requires ChannelOk(c) && SentOk(c) && c.phase.Streaming? && c.since.None?
    ensures CountsUpFrom(c.sent, c.joined) <==> forall x, y | x in c.lost && y in c.sent :: y.seqNo < x.seqNo
  {
    SentCountsExactly(c);
    LiveAscending(c);
    forall x, y | x in c.lost && y in c.sent ensures c.joined < x.seqNo && x.seqNo != y.seqNo {
      InOffered(c, x);
      AboveMembers(c.taken, c.upTo);
      assert y in AcceptedBy(c);
      AcceptedOrLost(c, y, x);
    }
  }

  /** What an emptied channel leaves of what was offered: the live items above the replay that were not dropped. */
  lemma LiveHas(c: Conn, n: nat)
    requires ChannelOk(c) && c.queue == []
    ensures Has(Above(c.taken, c.upTo), n)
            <==> c.upTo < n && c.joined < n <= c.joined + |c.offered| && !Has(c.lost, n)
  {
    hide Above;
    AboveMembers(c.taken, c.upTo);
    assert AcceptedBy(c) == c.taken;
    if Has(Above(c.taken, c.upTo), n) {
      var x :| x in Above(c.taken, c.upTo) && x.seqNo == n;
      InOffered(c, x);
      forall y | y in c.lost ensures y.seqNo != n {
        AcceptedOrLost(c, x, y);
      }
    }
    if c.upTo < n && c.joined < n <= c.joined + |c.offered| && !Has(c.lost, n) {
      var x := c.offered[n - c.joined - 1];
      assert x in c.offered && x in multiset(AcceptedBy(c)) + multiset(c.lost);
      assert x in Above(c.taken, c.upTo);
    }
  }

  /**
   Exactly what a handler has sent that has finished its replay and emptied its queue: the replay, and of what was
   offered since, everything above the replay but the drops. What lies below the replay's last number without being in
   the replay, cleared or evicted before it was read, is never sent, even if it waited in the channel.
   */
  lemma CaughtUp(c: Conn)
    requires ChannelOk(c) && SentOk(c) && c.phase == Streaming(|c.replay|) && c.queue == []
    ensures forall n: nat :: Has(c.sent, n)
                        <==> Has(c.replay, n)
                             || (c.upTo < n && c.joined < n <= c.joined + |c.offered| && !Has(c.lost, n))
  {
    hide ChannelOk;
    var live := Above(c.taken, c.upTo);
    assert c.replay[..|c.replay|] == c.replay;
    forall n: nat ensures Has(c.sent, n) <==> Has(c.replay, n) || Has(live, n) {
      HasJoin(c.replay, live, n);
    }
    forall n: nat
      ensures Has(live, n) <==> c.upTo < n && c.joined < n <= c.joined + |c.offered| && !Has(c.lost, n)
    {
      LiveHas(c, n);
    }
  }

  lemma HasJoin(a: seq<Clip>, b: seq<Clip>, n: nat)
    ensures Has(a + b, n) <==> Has(a, n) || Has(b, n)
  {
    assert forall x :: x in a + b <==> x in a || x in b;
  }

  /** Covered, guarded and without a drop it has sent everything from since_seq to the last item offered. */
  lemma NothingHeldBack(c: Conn)
    requires ChannelOk(c) && SentOk(c) && c.phase == Streaming(|c.replay|) && c.queue == []
    requires c.covered && c.lost == [] && Guarded(c)
    ensures CountsUpFrom(c.sent, StartOf(c)) && StartOf(c) + |c.sent| >= c.joined + |c.offered|
  {
    CoveredCounts(c);
    CaughtUp(c);
    var m := c.joined + |c.offered|;
    if StartOf(c) + |c.replay| < m {
      assert !Has(c.lost, m) && Has(c.sent, m);
    }
  }

  // ---- the client ----

  /** Received in strictly increasing order, all above where the client started. */
  ghost predicate InOrder(cl: Client) {
    Ascending(cl.received) && forall x | x in cl.received :: cl.start < x.seqNo
  }

  /**
   The reconnecting client: its cursor, its place in the connection, the order of what it received, which is kept
   exactly as long as every connection it read from was Guarded, and the count, as long as every item was NextInLine.
   */
  ghost predicate ClientInv(s: Sys) {
    var cl := s.client;
    && (cl.received == [] ==> cl.lastSeq == cl.start)
    && (cl.received != [] ==> cl.lastSeq == cl.received[|cl.received| - 1].seqNo && cl.lastSeq > 0)
    && (cl.received != [] ==> cl.received[0].seqNo > 0)
    && (cl.guarded <==> InOrder(cl))
    && (cl.whole <==> CountsUpFrom(cl.received, FirstBelow(cl)))
    && (cl.conn.Some? ==>
          && cl.conn.value in s.conns
          && cl.read <= |s.conns[cl.conn.value].sent|
          && Resumes(cl, s.conns[cl.conn.value]))
  }

  /** The number just below the first item received: where the client started, if it started anywhere. */
  function FirstBelow(cl: Client): nat {
    if cl.start > 0 || cl.received == [] || cl.received[0].seqNo == 0 then cl.start else cl.received[0].seqNo - 1
  }

  ghost predicate Resumes(cl: Client, c: Conn)
    requires cl.read <= |c.sent|
  {
    if cl.read > 0 then cl.lastSeq == c.sent[cl.read - 1].seqNo && (cl.guarded ==> Guarded(c))
    else c.since == SinceSeq(cl.lastSeq)
  }

  /** One more item keeps the order exactly if it lies above the cursor. */
  lemma OrderGrows(cl: Client, cl': Client, item: Clip)
    requires cl.received != [] ==> cl.lastSeq == cl.received[|cl.received| - 1].seqNo
    requires cl.received == [] ==> cl.lastSeq == cl.start
    requires cl'.received == cl.received + [item] && cl'.start == cl.start
    ensures InOrder(cl') <==> InOrder(cl) && cl.lastSeq < item.seqNo
  {
    var l, l' := cl.received, cl'.received;
    assert forall i | 0 <= i < |l| :: l'[i] == l[i] && l[i] in l && l'[i] in l';
    assert l'[|l|] == item && item in l';
    assert forall x | x in l' :: x in l || x == item;
  }

  /** ... and the count exactly if it carries the next number. */
  lemma CountGrows(cl: Client, cl': Client, item: Clip)
    requires cl.received != [] ==> cl.lastSeq == cl.received[|cl.received| - 1].seqNo && cl.lastSeq > 0
    requires cl.received == [] ==> cl.lastSeq == cl.start
    requires cl'.received == cl.received + [item] && cl'.start == cl.start && item.seqNo > 0
    ensures CountsUpFrom(cl'.received, FirstBelow(cl'))
            <==> CountsUpFrom(cl.received, FirstBelow(cl)) && (cl.lastSeq > 0 ==> item.seqNo == cl.lastSeq + 1)
  {
    var l, l' := cl.received, cl'.received;
    if l == [] {
      assert l' == [item] && l'[0] == item;
      assert CountsUpFrom(l', FirstBelow(cl')) <==> l'[0].seqNo == FirstBelow(cl') + 1;
    } else {
      assert FirstBelow(cl') == FirstBelow(cl);
      hide FirstBelow;
      CountsMore(l, item, FirstBelow(cl));
    }
  }

  lemma CountsMore(l: seq<Clip>, x: Clip, from: nat)
    requires l != []
    ensures CountsUpFrom(l + [x], from) <==> CountsUpFrom(l, from) && x.seqNo == l[|l| - 1].seqNo + 1
  {
    var l' := l + [x];
    assert forall i | 0 <= i < |l| :: l'[i] == l[i];
    assert l'[|l|] == x;
  }

  /** The k-th item sent on a connection continues from `cursor`: its since_seq, or the item before. */
  ghost predicate CursorAt(c: Conn, k: nat, cursor: nat)
    requires k < |c.sent|
  {
    if k == 0 then c.since == Some(cursor) else c.sent[k - 1].seqNo == cursor
  }

  /** In the replay the next item carries the next number exactly if the replay has it. */
  lemma NextReplayed(c: Conn, k: nat, cursor: nat)
    requires SentOk(c) && c.phase.Streaming? && k < |c.sent| && k < |c.replay| && CursorAt(c, k, cursor)
    ensures c.sent[k].seqNo == cursor + 1 <==> Has(c.replay, cursor + 1)
  {
    SentParts(c);
    assert k < c.phase.next;
    assert c.sent[k] == c.sent[..c.phase.next][k] == c.replay[k];
    assert k > 0 ==> c.sent[k - 1] == c.sent[..c.phase.next][k - 1] == c.replay[k - 1];
    assert c.replay[k] in c.replay;
    if Has(c.replay, cursor + 1) {
      var i :| 0 <= i < |c.replay| && c.replay[i].seqNo == cursor + 1;
      assert c.replay[i] in c.replay;
    }
  }

  /** Live it does exactly if the connection was there in time and nothing was dropped in between. */
  lemma NextLive(c: Conn, k: nat, cursor: nat)
    requires ChannelOk(c) && SentOk(c) && c.phase == Streaming(|c.replay|) && |c.replay| <= k < |c.sent|
    requires CursorAt(c, k, cursor)
    ensures c.sent[k].seqNo == cursor + 1 <==> NextInLine(c, k, cursor)
  {
    hide ChannelOk, SentOk, Ascending, Above;
    var item := c.sent[k];
    var live := LiveSent(c);
    assert item == live[k - |c.replay|] && item in live;
    CursorReached(c, k, cursor);
    SentAscending(c);
    if NextInLine(c, k, cursor) {
      NumberTaken(c, item, cursor + 1);
      var x :| x in c.taken && x.seqNo == cursor + 1;
      assert x in live;
      var i :| 0 <= i < |live| && live[i] == x;
      SentOnce(c, cursor, k, |c.replay| + i);
    }
  }

  /** In an ascending list an item right above the cursor cannot come after one that is above it too. */
  lemma SentOnce(c: Conn, cursor: nat, k: nat, j: nat)
    requires Ascending(c.sent) && k < |c.sent| && j < |c.sent| && CursorAt(c, k, cursor)
    requires c.sent[j].seqNo == cursor + 1 && cursor < c.sent[k].seqNo
    ensures c.sent[k].seqNo == cursor + 1
  {
  }

  /** The live part of what has been sent. */
  lemma LiveSent(c: Conn) returns (live: seq<Clip>)
    requires ChannelOk(c) && SentOk(c) && c.phase == Streaming(|c.replay|)
    ensures live == Above(c.taken, c.upTo) && c.sent == c.replay + live
    ensures forall x :: x in live <==> x in c.taken && c.upTo < x.seqNo
    ensures forall x | x in live :: c.joined < x.seqNo
  {
    live := Above(c.taken, c.upTo);
    assert c.replay[..|c.replay|] == c.replay;
    LiveAscending(c);
    AboveMembers(c.taken, c.upTo);
  }

  lemma CursorReached(c: Conn, k: nat, cursor: nat)
    requires ChannelOk(c) && SentOk(c) && c.phase == Streaming(|c.replay|) && |c.replay| <= k < |c.sent|
    requires CursorAt(c, k, cursor)
    ensures c.upTo <= cursor
  {
    SentAscending(c);
    assert c.replay[..|c.replay|] == c.replay;
    assert |c.replay| > 0 ==> c.sent[|c.replay| - 1] == c.replay[|c.replay| - 1];
  }

  /** A number at or below something received, above the subscription and not dropped below it, has been received. */
  lemma NumberTaken(c: Conn, y: Clip, m: nat)
    requires ChannelOk(c) && y in c.taken && c.joined < m <= y.seqNo
    requires forall x | x in c.lost :: x.seqNo < m || y.seqNo <= x.seqNo
    ensures Has(c.taken, m)
  {
    TakenOrLost(c, y, m);
    assert y in AcceptedBy(c);
    forall x | x in c.lost ensures x.seqNo != m {
      AcceptedOrLost(c, y, x);
    }
  }

  lemma SentPhase(c: Conn)
    requires SentOk(c) && c.sent != []
    ensures c.phase.Streaming? && (|c.sent| > |c.replay| ==> c.phase == Streaming(|c.replay|))
  {
    SentParts(c);
  }

  /** The next item on the wire lies above the cursor exactly if the connection is Guarded. */
  lemma NextItem(cl: Client, c: Conn)
    requires ChannelOk(c) && SentOk(c) && cl.read < |c.sent| && Resumes(cl, c)
    ensures 0 < c.sent[cl.read].seqNo
    ensures cl.guarded ==> (cl.lastSeq < c.sent[cl.read].seqNo <==> Guarded(c))
    ensures cl.lastSeq > 0 ==> (c.sent[cl.read].seqNo == cl.lastSeq + 1 <==> NextInLine(c, cl.read, cl.lastSeq))
  {
    SentPhase(c);
    hide ChannelOk, SentOk, NextInLine;
    SentAscending(c);
    assert c.sent[cl.read] in c.sent;
    if !Guarded(c) && cl.read == 0 { FirstSent(c); }
    if cl.lastSeq > 0 {
      assert CursorAt(c, cl.read, cl.lastSeq);
      if cl.read < |c.replay| {
        NextReplayed(c, cl.read, cl.lastSeq);
      } else {
        NextLive(c, cl.read, cl.lastSeq);
      }
    }
  }

  lemma ReceiveKeeps(s: Sys, c: Conn)
    requires ClientInv(s) && s.client.conn.Some? && c == s.conns[s.client.conn.value]
    requires ChannelOk(c) && SentOk(c) && s.client.read < |c.sent|
    ensures ClientInv(s.(client := AfterReceive(s.client, c)))
  {
    hide ChannelOk, SentOk, InOrder, Guarded, CountsUpFrom, FirstBelow;
    NextItem(s.client, c);
    OrderGrows(s.client, AfterReceive(s.client, c), c.sent[s.client.read]);
    CountGrows(s.client, AfterReceive(s.client, c), c.sent[s.client.read]);
  }

  lemma ReceiveClient(s: Sys)
    requires ClientInv(s) && DeliveryInv(s) && s.client.conn.Some?
    requires s.client.read < |s.conns[s.client.conn.value].sent|
    ensures ClientInv(s.(client := AfterReceive(s.client, s.conns[s.client.conn.value])))
  {
    ConnIsOk(s, s.client.conn.value);
    ReceiveKeeps(s, s.conns[s.client.conn.value]);
  }

  /** A connection only ever sends more, and once Guarded it stays so. */
  ghost predicate Extends(c: Conn, c': Conn) {
    c'.since == c.since && c'.joined == c.joined && c.sent <= c'.sent && (Guarded(c) ==> Guarded(c'))
  }

  lemma HubExtends(cfg: Config, s: Sys, step: Step, id: nat)
    requires Enabled(cfg, s, step) && !IsConnStep(step) && id in s.conns
    ensures id in Apply(cfg, s, step).conns && Extends(s.conns[id], Apply(cfg, s, step).conns[id])
  {
    HubStepFrame(cfg, s, step);
  }

  lemma UntouchedExtends(cfg: Config, s: Sys, step: Step, id: nat)
    requires Enabled(cfg, s, step) && IsConnStep(step) && !Touches(step, id) && id in s.conns
    ensures id in Apply(cfg, s, step).conns && Extends(s.conns[id], Apply(cfg, s, step).conns[id])
  {
    UntouchedConn(cfg, s, step, id);
    hide Apply, Enabled, Touches, IsConnStep;
    var c, c' := s.conns[id], Apply(cfg, s, step).conns[id];
    assert c' == c.(open := c'.open, serving := c'.serving);
  }

  lemma ReadExtends(s: Sys, id: nat)
    requires id in s.conns && s.conns[id].phase.Subscribed? && SentOk(s.conns[id])
    ensures id in AfterRead(s, id).conns && Extends(s.conns[id], AfterRead(s, id).conns[id])
  {
    hide OldestFirst, Covers;
  }

  lemma WriteExtends(s: Sys, id: nat)
    requires id in s.conns
    ensures s.conns[id].phase.Streaming? && s.conns[id].phase.next < |s.conns[id].replay| ==>
              id in AfterReplay(s, id).conns && Extends(s.conns[id], AfterReplay(s, id).conns[id])
    ensures s.conns[id].queue != [] ==>
              id in AfterForward(s, id).conns && Extends(s.conns[id], AfterForward(s, id).conns[id])
  {
  }

  lemma ConnExtends(cfg: Config, s: Sys, step: Step, id: nat)
    requires Enabled(cfg, s, step) && id in s.conns && SentOk(s.conns[id])
    ensures id in Apply(cfg, s, step).conns && Extends(s.conns[id], Apply(cfg, s, step).conns[id])
  {
    hide SentOk, Extends, AfterRead, AfterReplay, AfterForward, AfterPut, AfterDeliver, AfterEnter, AfterAdvance;
    if !IsConnStep(step) {
      HubExtends(cfg, s, step, id);
    } else if !Touches(step, id) {
      UntouchedExtends(cfg, s, step, id);
    } else if step.Read? {
      ReadExtends(s, id);
    } else {
      WriteExtends(s, id);
    }
  }

  /** Steps of the hub and the handlers leave the client where it is. */
  lemma ClientFrame(cfg: Config, s: Sys, step: Step)
    requires Enabled(cfg, s, step) && !step.Dial? && !step.Receive? && !step.HangUp?
    ensures Apply(cfg, s, step).client == s.client
  {
  }

  lemma ConnIsOk(s: Sys, id: nat)
    requires DeliveryInv(s) && id in s.conns
    ensures ChannelOk(s.conns[id]) && SentOk(s.conns[id])
  {
    assert ConnOk(s, id);
  }

  /** The client's own steps but receiving: it opens a connection at its cursor, or lets one go. */
  lemma DialClient(cfg: Config, s: Sys, step: Step)
    requires ClientInv(s) && Enabled(cfg, s, step) && (step.Dial? || step.HangUp?)
    ensures ClientInv(Apply(cfg, s, step))
  {
  }

  lemma ExtendedClient(s: Sys, s': Sys)
    requires ClientInv(s) && s'.client == s.client
    requires s.client.conn.Some? ==>
               s.client.conn.value in s'.conns
               && Extends(s.conns[s.client.conn.value], s'.conns[s.client.conn.value])
    ensures ClientInv(s')
  {
  }

  lemma OtherClient(cfg: Config, s: Sys, step: Step)
    requires ClientInv(s) && DeliveryInv(s) && Enabled(cfg, s, step) && !step.Receive?
    ensures ClientInv(Apply(cfg, s, step))
  {
    if step.Dial? || step.HangUp? {
      DialClient(cfg, s, step);
    } else {
      ClientFrame(cfg, s, step);
      if s.client.conn.Some? {
        ConnIsOk(s, s.client.conn.value);
        ConnExtends(cfg, s, step, s.client.conn.value);
      }
      ExtendedClient(s, Apply(cfg, s, step));
    }
  }

  /** Without since_seq nothing that was published before the subscription is sent. */
  lemma SentLive(c: Conn)
    requires ChannelOk(c) && SentOk(c) && c.since.None?
    ensures forall x | x in c.sent :: c.joined < x.seqNo
  {
    if c.phase.Streaming? {
      LiveAscending(c);
      assert c.replay[..c.phase.next] == [];
    }
  }

  // ---- every reachable state ----

  /** Whatever the clock and the ttl were. */
  ghost predicate Inv(cfg: Config, s: Sys) {
    && Ordered(s) && SnapshotInv(s) && MemInv(cfg, s) && DeliveryInv(s) && TableInv(s) && ClientInv(s)
  }

  /** ... and what a clock that never steps back and one ttl add. */
  ghost predicate TimedInv(cfg: Config, s: Sys) {
    Inv(cfg, s) && ExpiryInv(cfg, s) && StoreInv(cfg, s) && Coherent(s)
  }

  lemma StepInv(cfg: Config, s: Sys, step: Step)
    requires Inv(cfg, s) && Enabled(cfg, s, step)
    ensures Inv(cfg, Apply(cfg, s, step))
  {
    hide Ordered, SnapshotInv, MemInv, DeliveryInv, TableInv, ClientInv;
    StepOrdered(cfg, s, step);
    StepSnapshot(cfg, s, step);
    StepMem(cfg, s, step);
    StepDelivery(cfg, s, step);
    StepTable(cfg, s, step);
    if step.Receive? { ReceiveStep(cfg, s); } else { OtherClient(cfg, s, step); }
  }

  lemma ReceiveStep(cfg: Config, s: Sys)
    requires ClientInv(s) && DeliveryInv(s) && Enabled(cfg, s, Receive)
    ensures ClientInv(Apply(cfg, s, Receive))
  {
    ReceiveClient(s);
  }

  lemma StepTimed(cfg: Config, s: Sys, step: Step)
    requires TimedInv(cfg, s) && Enabled(cfg, s, step) && OnTime(s, step)
    ensures TimedInv(cfg, Apply(cfg, s, step))
  {
    StepInv(cfg, s, step);
    StepExpiry(cfg, s, step);
    StepStore(cfg, s, step);
    StepCoherent(cfg, s, step);
  }

  /** No connection, no publisher, and a client that has received nothing. */
  lemma BootStreams(cfg: Config, t: Table, clock: nat, lastSeq: nat)
    ensures var s := Boot(cfg, t, clock, lastSeq); SnapshotInv(s) && DeliveryInv(s) && ClientInv(s)
  {
    hide LoadSeq, NewestFirst;
  }

  lemma BootInv(cfg: Config, t: Table, clock: nat, lastSeq: nat)
    requires 0 < cfg.maxHistory && Loadable(t)
    ensures Inv(cfg, Boot(cfg, t, clock, lastSeq))
  {
    hide Boot, Loadable, Ordered, SnapshotInv, MemInv, DeliveryInv, TableInv, ClientInv;
    BootStreams(cfg, t, clock, lastSeq);
    BootOrdered(cfg, t, clock, lastSeq);
    BootMem(cfg, t, clock, lastSeq);
    BootTable(cfg, t, clock, lastSeq);
  }

  lemma BootTimed(cfg: Config, t: Table, clock: nat, lastSeq: nat)
    requires 0 < cfg.maxHistory && Left(cfg, t, clock)
    ensures TimedInv(cfg, Boot(cfg, t, clock, lastSeq))
  {
    hide Boot, Inv, ExpiryInv, StoreInv, Coherent;
    BootInv(cfg, t, clock, lastSeq);
    BootExpiry(cfg, t, clock, lastSeq);
    BootStore(cfg, t, clock, lastSeq);
    BootCoherent(cfg, t, clock, lastSeq);
  }

  lemma {:induction false} RunInv(cfg: Config, s: Sys, steps: seq<Step>, s': Sys)
    requires Inv(cfg, s) && Runs(cfg, s, steps, s')
    ensures Inv(cfg, s')
    decreases |steps|
  {
    hide Inv;
    if steps != [] {
      StepInv(cfg, s, steps[0]);
      RunInv(cfg, Apply(cfg, s, steps[0]), steps[1..], s');
    }
  }

  lemma {:induction false} RunCoherent(cfg: Config, s: Sys, steps: seq<Step>, s': Sys)
    requires Inv(cfg, s) && Behind(s) && Coherent(s) && Runs(cfg, s, steps, s') && PromptRun(cfg, s, steps)
    ensures Behind(s') && Coherent(s')
    decreases |steps|
  {
    if steps != [] {
      StepInv(cfg, s, steps[0]);
      StepBehind(cfg, s, steps[0]);
      StepCoherent(cfg, s, steps[0]);
      hide Inv, Behind, Coherent, Prompt, Apply, Enabled;
      RunCoherent(cfg, Apply(cfg, s, steps[0]), steps[1..], s');
    }
  }

  lemma {:induction false} RunTimed(cfg: Config, s: Sys, steps: seq<Step>, s': Sys)
    requires TimedInv(cfg, s) && Runs(cfg, s, steps, s') && Timely(cfg, s, steps)
    ensures TimedInv(cfg, s')
    decreases |steps|
  {
    hide TimedInv;
    if steps != [] {
      StepTimed(cfg, s, steps[0]);
      RunTimed(cfg, Apply(cfg, s, steps[0]), steps[1..], s');
    }
  }
}
