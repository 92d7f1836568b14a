/** The two ends of the stream: the handler's catch-up and live loops, and the reconnecting client. */
module Endpoints {
  import opened Clips
  import opened Protocol

  /** The greatest number in `l`, at least `floor`. */
  function Highest(l: seq<Clip>, floor: nat): nat {
    if l == [] then floor
    else
      var n := Highest(l[..|l| - 1], floor);
      if l[|l| - 1].seqNo > n then l[|l| - 1].seqNo else n
  }

  lemma {:induction false} HighestOfAscending(l: seq<Clip>)
    requires Ascending(l)
    ensures Highest(l, 0) == if l == [] then 0 else l[|l| - 1].seqNo
  {
    if |l| > 1 {
      HighestOfAscending(l[..|l| - 1]);
    } else if |l| == 1 {
      assert l[..0] == [];
    }
  }

  class StreamHandler {
    var replayedUpTo: nat
    var sent: seq<Clip>

    constructor ()
      ensures replayedUpTo == 0 && sent == []
    {
      replayedUpTo, sent := 0, [];
    }

    /** Sends what was missed; the connection takes `writable` more messages and then fails. */
    method CatchUp(missed: seq<Clip>, writable: nat) returns (ok: bool)
      modifies this
      ensures ok <==> |missed| <= writable
      ensures sent == old(sent) + Take(missed, writable)
      ensures replayedUpTo == Highest(Take(missed, writable), old(replayedUpTo))
    {
      for i := 0 to |missed|
        invariant i <= writable && sent == old(sent) + missed[..i]
        invariant replayedUpTo == Highest(missed[..i], old(replayedUpTo))
      {
        if i == writable {
          return false;
        }
        sent := sent + [missed[i]];
        assert missed[..i + 1][..i] == missed[..i];
        if missed[i].seqNo > replayedUpTo {
          replayedUpTo := missed[i].seqNo;
        }
      }
      assert missed[..|missed|] == missed;
      ok := true;
    }

    /** The live loop over what the channel hands out, skipping what the replay covered, up to a failed write. */
    method Forward(received: seq<Clip>, writable: nat) returns (ok: bool)
      modifies this
      ensures replayedUpTo == old(replayedUpTo)
      ensures ok <==> |Above(received, replayedUpTo)| <= writable
      ensures sent == old(sent) + Take(Above(received, replayedUpTo), writable)
    {
      var left: nat := writable;
      for i := 0 to |received|
        invariant replayedUpTo == old(replayedUpTo) && left + |Above(received[..i], replayedUpTo)| == writable
        invariant sent == old(sent) + Above(received[..i], replayedUpTo)
      {
        assert received[..i + 1] == received[..i] + [received[i]];
        AboveAppend(received[..i], received[i], replayedUpTo);
        if received[i].seqNo <= replayedUpTo {
          continue;
        }
        if left == 0 {
          AbovePrefix(received, i + 1, replayedUpTo);
          return false;
        }
        sent, left := sent + [received[i]], left - 1;
      }
      assert received[..|received|] == received;
      ok := true;
    }

    /**
     Replay, then live, on a socket that takes `writable` messages and then fails: what goes out is the beginning of
     what is due, in that order.
     */
    method Serve(missed: seq<Clip>, received: seq<Clip>, writable: nat) returns (ok: bool)
      requires sent == [] && replayedUpTo == 0 && Ascending(missed)
      modifies this
      ensures sent == Take(Due(missed, received), writable)
      ensures ok <==> |Due(missed, received)| <= writable
    {
      ok := CatchUp(missed, writable);
      if !ok {
        return;
      }
      HighestOfAscending(missed);
      ok := Forward(received, writable - |missed|);
    }
  }

  lemma {:induction false} AbovePrefix(l: seq<Clip>, k: nat, n: nat)
    requires k <= |l|
    ensures Above(l[..k], n) <= Above(l, n)
  {
    if k < |l| {
      assert l[..|l| - 1][..k] == l[..k];
      AbovePrefix(l[..|l| - 1], k, n);
    } else {
      assert l[..k] == l;
    }
  }

  /** What a connection owes: what was missed, and what is received live above it. */
  function Due(missed: seq<Clip>, received: seq<Clip>): seq<Clip> {
    missed + Above(received, if missed == [] then 0 else missed[|missed| - 1].seqNo)
  }

  /** Whatever part of it the replay and the channel both brought, each number is due once and in order. */
  lemma DueOnce(missed: seq<Clip>, received: seq<Clip>)
    requires Ascending(missed) && Ascending(received)
    ensures Ascending(Due(missed, received))
    ensures forall x :: x in Due(missed, received) <==>
                        x in missed || (x in received && x.seqNo > 0 && forall y | y in missed :: y.seqNo < x.seqNo)
  {
    var n := if missed == [] then 0 else missed[|missed| - 1].seqNo;
    var live := Above(received, n);
    AboveAscending(received, n);
    AboveMembers(received, n);
    assert forall i | 0 <= i < |live| :: live[i] in live;
    assert forall i | 0 <= i < |missed| :: missed[i] in missed;
  }

  // ---- the client ----

  datatype Message = Update(item: Clip) | Other

  /** One attempt: the dial fails, or messages come until the connection breaks. */
  datatype Attempt = Refused | Open(messages: seq<Message>)

  function Updates(messages: seq<Message>): seq<Clip> {
    if messages == [] then []
    else
      var n := |messages| - 1;
      Updates(messages[..n]) + (if messages[n].Update? then [messages[n].item] else [])
  }

  function Delivered(attempts: seq<Attempt>): seq<Clip> {
    if attempts == [] then []
    else
      var n := |attempts| - 1;
      Delivered(attempts[..n]) + (if attempts[n].Open? then Updates(attempts[n].messages) else [])
  }

  /** Every update in the order of the messages, and nothing else: what joining, updates and other messages give. */
  lemma {:induction false} UpdatesJoin(a: seq<Message>, b: seq<Message>)
    ensures Updates(a + b) == Updates(a) + Updates(b)
    ensures forall x: Clip :: Updates([Update(x)]) == [x]
    ensures Updates([Other]) == [] && Updates([]) == []
  {
    assert forall x: Clip :: [Update(x)][..0] == [];
    assert [Other][..0] == [];
    if b == [] {
      assert a + b == a;
    } else {
      var n := |b| - 1;
      UpdatesJoin(a, b[..n]);
      assert (a + b)[..|a + b| - 1] == a + b[..n];
    }
  }

  /** ... attempt by attempt, with nothing from a dial that failed. */
  lemma {:induction false} DeliveredJoin(a: seq<Attempt>, b: seq<Attempt>)
    ensures Delivered(a + b) == Delivered(a) + Delivered(b)
    ensures forall ms: seq<Message> :: Delivered([Open(ms)]) == Updates(ms)
    ensures Delivered([Refused]) == [] && Delivered([]) == []
  {
    hide Updates;
    forall ms: seq<Message> ensures Delivered([Open(ms)]) == Updates(ms) {
      assert Delivered([Open(ms)][..0]) == [];
    }
    assert Delivered([Refused][..0]) == [];
    if b == [] {
      assert a + b == a;
    } else {
      var n := |b| - 1;
      DeliveredJoin(a, b[..n]);
      assert (a + b)[..|a + b| - 1] == a + b[..n];
    }
  }

  function LastOf(l: seq<Clip>, start: nat): nat {
    if l == [] then start else l[|l| - 1].seqNo
  }

  /** The k-th wait in seconds: doubling from one to sixty. */
  function Backoff(k: nat): nat {
    if k == 0 then 1 else if 2 * Backoff(k - 1) > 60 then 60 else 2 * Backoff(k - 1)
  }

  /** The since_seq of each request: the last number delivered over all attempts before it. */
  function Requests(attempts: seq<Attempt>, start: nat): (r: seq<Option<nat>>)
    ensures |r| == |attempts|
  {
    if attempts == [] then []
    else
      var n := |attempts| - 1;
      Requests(attempts[..n], start) + [SinceSeq(LastOf(Delivered(attempts[..n]), start))]
  }

  function Waits(k: nat): seq<nat> {
    if k == 0 then [] else Waits(k - 1) + [Backoff(k - 1)]
  }

  lemma {:induction false} RequestAt(attempts: seq<Attempt>, start: nat, k: nat)
    requires k < |attempts|
    ensures Requests(attempts, start)[k] == SinceSeq(LastOf(Delivered(attempts[..k]), start))
  {
    var n := |attempts| - 1;
    if n > 0 {
      RequestAt(attempts[..n], start, if k < n then k else 0);
      if k < n { assert attempts[..n][..k] == attempts[..k]; }
    }
  }

  lemma {:induction false} DeliveredPrefix(attempts: seq<Attempt>, k: nat)
    requires k <= |attempts|
    ensures Delivered(attempts[..k]) <= Delivered(attempts)
  {
    if k < |attempts| {
      assert attempts[..|attempts| - 1][..k] == attempts[..k];
      DeliveredPrefix(attempts[..|attempts| - 1], k);
    } else {
      assert attempts[..k] == attempts;
    }
  }

  /** If all deliveries ascend from above the start, request k parts them into what was had and what is to come. */
  lemma RequestParts(attempts: seq<Attempt>, start: nat, k: nat)
    requires k < |attempts| && Ascending(Delivered(attempts))
    requires forall x | x in Delivered(attempts) :: start < x.seqNo
    ensures var had, all := |Delivered(attempts[..k])|, Delivered(attempts);
            var since := match Requests(attempts, start)[k] case Some(n) => n case None => 0;
            && had <= |all|
            && (forall i | 0 <= i < had :: all[i].seqNo <= since)
            && (forall i | had <= i < |all| :: since < all[i].seqNo)
  {
    RequestAt(attempts, start, k);
    DeliveredPrefix(attempts, k);
    var all := Delivered(attempts);
    assert forall i | 0 <= i < |all| :: all[i] in all;
  }

  /** The waits are 1, 2, 4, 8, 16 and 32 seconds and then a minute each, never starting over. */
  lemma {:induction false} WaitAt(n: nat, k: nat)
    requires k < n
    ensures |Waits(n)| == n && Waits(n)[k] == if k < 6 then [1, 2, 4, 8, 16, 32][k] else 60
  {
    BackoffAt(k);
    if n > 1 {
      WaitAt(n - 1, if k < n - 1 then k else 0);
    }
  }

  lemma {:induction false} BackoffAt(k: nat)
    ensures Backoff(k) == if k < 6 then [1, 2, 4, 8, 16, 32][k] else 60
  {
    if k > 0 { BackoffAt(k - 1); }
  }

  /** One more attempt: its updates, its wait, and a request from what was delivered before it. */
  lemma AttemptAdds(attempts: seq<Attempt>, start: nat, k: nat)
    requires k < |attempts|
    ensures var had, a := Delivered(attempts[..k]), attempts[k];
            && Delivered(attempts[..k + 1]) == had + (if a.Open? then Updates(a.messages) else [])
            && Requests(attempts[..k + 1], start) == Requests(attempts[..k], start) + [SinceSeq(LastOf(had, start))]
            && Waits(k + 1) == Waits(k) + [Backoff(k)]
  {
    hide Updates, LastOf, Backoff;
    assert attempts[..k + 1][..k] == attempts[..k];
  }

  lemma NoAttempts(start: nat)
    ensures Delivered([]) == [] && Requests([], start) == [] && Waits(0) == []
  {
  }

  class WSClient {
    var lastSeq: nat

    constructor ()
      ensures lastSeq == 0
    {
      lastSeq := 0;
    }

    /** One `connect`: it always ends in an error, having delivered every update it read. */
    method Connect(attempt: Attempt) returns (since: Option<nat>, delivered: seq<Clip>)
      modifies this
      ensures since == SinceSeq(old(lastSeq))
      ensures since.None? <==> old(lastSeq) == 0
      ensures since.Some? ==> since.value == old(lastSeq)
      ensures delivered == if attempt.Open? then Updates(attempt.messages) else []
      ensures lastSeq == LastOf(delivered, old(lastSeq))
      ensures lastSeq == if delivered == [] then old(lastSeq) else delivered[|delivered| - 1].seqNo
    {
      since, delivered := if lastSeq > 0 then Some(lastSeq) else None, [];
      if attempt.Refused? {
        return;
      }
      var messages := attempt.messages;
      for i := 0 to |messages|
        invariant delivered == Updates(messages[..i]) && lastSeq == LastOf(delivered, old(lastSeq))
      {
        assert messages[..i + 1][..i] == messages[..i];
        if messages[i].Update? {
          lastSeq := messages[i].item.seqNo;
          delivered := delivered + [messages[i].item];
        }
      }
      assert messages[..|messages|] == messages;
    }

    /** `Run` over a list of attempts, until it is cancelled. */
    method Run(attempts: seq<Attempt>) returns (requests: seq<Option<nat>>, waits: seq<nat>, delivered: seq<Clip>)
      modifies this
      ensures delivered == Delivered(attempts) && lastSeq == LastOf(delivered, old(lastSeq))
      ensures requests == Requests(attempts, old(lastSeq)) && waits == Waits(|attempts|)
    {
      hide Updates, Delivered, Requests, Waits;
      NoAttempts(lastSeq);
      requests, waits, delivered := [], [], [];
      var backoff := 1;
      for i := 0 to |attempts|
        invariant delivered == Delivered(attempts[..i]) && lastSeq == LastOf(delivered, old(lastSeq))
        invariant requests == Requests(attempts[..i], old(lastSeq)) && waits == Waits(i) && backoff == Backoff(i)
      {
        var since, more := Connect(attempts[i]);
        AttemptAdds(attempts, old(lastSeq), i);
        requests, waits, delivered := requests + [since], waits + [backoff], delivered + more;
        backoff := if backoff * 2 < 60 then backoff * 2 else 60;
      }
      assert attempts[..|attempts|] == attempts;
    }
  }
}
