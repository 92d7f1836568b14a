/** The agent's clipboard monitor: what each call does to its three keys, and the class that does it. */
module Monitor {
  import opened Clips

  datatype Content = Content(mime: string, data: Bytes)

  const NOTHING := Content("", [])

  predicate IsEmpty(ct: Content) {
    ct.data == []
  }

  /** A content hash with its MIME type; the monitor starts with empty strings. */
  datatype Key = Key(hash: string, mime: string)

  const NO_KEY := Key("", "")

  datatype Keys = Keys(lastWritten: Key, lastSeen: Key, pending: Key)

  const START := Keys(NO_KEY, NO_KEY, NO_KEY)

  /** What a read of the system clipboard brings. */
  datatype Reading = Failed | Got(content: Content)

  datatype PollResult = NoChange | OwnWrite | NewContent(content: Content) | PollError

  type Digest = Bytes -> string

  function KeyOf(digest: Digest, ct: Content): Key {
    Key(digest(ct.data), ct.mime)
  }

  // ---- the calls, as functions on the keys ----

  function PollOutcome(digest: Digest, k: Keys, r: Reading): PollResult {
    if r.Failed? then PollError
    else if IsEmpty(r.content) || KeyOf(digest, r.content) == k.lastSeen then NoChange
    else if KeyOf(digest, r.content) == k.lastWritten then OwnWrite
    else NewContent(r.content)
  }

  function AfterPoll(digest: Digest, k: Keys, r: Reading): Keys {
    match PollOutcome(digest, k, r)
    case OwnWrite => k.(lastSeen := k.lastWritten)
    case NewContent(ct) => k.(pending := KeyOf(digest, ct))
    case _ => k
  }

  function AfterHandled(k: Keys): Keys {
    k.(lastSeen := k.pending)
  }

  /** `ApplyRemote`: a failed write leaves the clip marked as written; a good read-back overrides both keys. */
  function AfterApply(digest: Digest, k: Keys, ct: Content, written: bool, readBack: Reading): Keys {
    var key := KeyOf(digest, ct);
    if !written then k.(lastWritten := key)
    else if readBack.Got? && !IsEmpty(readBack.content) then
      var back := KeyOf(digest, readBack.content);
      k.(lastWritten := back, lastSeen := back)
    else k.(lastWritten := key, lastSeen := key)
  }

  /** The remembered keys hide `ct` from the next poll. */
  predicate Hidden(digest: Digest, k: Keys, ct: Content) {
    IsEmpty(ct) || KeyOf(digest, ct) == k.lastSeen || KeyOf(digest, ct) == k.lastWritten
  }

  /** A poll offers exactly what is not hidden, and after the offer is handled, that content is hidden. */
  lemma OfferedOnceHandled(digest: Digest, k: Keys, ct: Content)
    ensures PollOutcome(digest, k, Got(ct)).NewContent? <==> !Hidden(digest, k, ct)
    ensures var offered := AfterPoll(digest, k, Got(ct));
            PollOutcome(digest, k, Got(ct)).NewContent?
            ==> PollOutcome(digest, offered, Got(ct)) == NewContent(ct)
                && PollOutcome(digest, AfterHandled(offered), Got(ct)) == NoChange
  {
  }

  /**
   A poll that recognises what is on the clipboard, as seen or as its own write, commits it as seen: polled again it is
   no change, whatever has been written or has failed to be written since.
   */
  lemma RecognisedIsSeen(digest: Digest, k: Keys, ct: Content, written: Key)
    requires ct.data != [] && !PollOutcome(digest, k, Got(ct)).NewContent?
    ensures var polled := AfterPoll(digest, k, Got(ct));
            && polled.lastSeen == Key(digest(ct.data), ct.mime)
            && polled.lastWritten == k.lastWritten && polled.pending == k.pending
            && PollOutcome(digest, polled.(lastWritten := written), Got(ct)) == NoChange
  {
  }

  /** Whatever the platform made of a remote clip, if it can be read back it is not offered at the next poll. */
  lemma AppliedIsHidden(digest: Digest, k: Keys, ct: Content, stored: Content)
    requires !IsEmpty(stored)
    ensures PollOutcome(digest, AfterApply(digest, k, ct, true, Got(stored)), Got(stored)) == NoChange
    ensures PollOutcome(digest, AfterHandled(AfterApply(digest, k, ct, true, Got(stored))), Got(stored))
            in {NoChange, OwnWrite}
  {
  }

  /**
   When the write fails, or succeeds and cannot be read back, exactly this decides whether the next poll offers what is
   on the clipboard: it is other content than was to be written, and not what was last seen before a failed write.
   */
  lemma FaultyApplyOffers(digest: Digest, k: Keys, ct: Content, written: bool, stored: Content)
    ensures PollOutcome(digest, AfterApply(digest, k, ct, written, Failed), Got(stored)).NewContent?
            <==> !IsEmpty(stored) && KeyOf(digest, stored) != KeyOf(digest, ct)
                 && (written || KeyOf(digest, stored) != k.lastSeen)
  {
  }

  // ---- the class ----

  class ClipboardMonitor {
    const digest: Digest
    var lastWrittenHash: string
    var lastWrittenMime: string
    var lastSeenHash: string
    var lastSeenMime: string
    var pendingHash: string
    var pendingMime: string

    function State(): Keys
      reads this
    {
      Keys(Key(lastWrittenHash, lastWrittenMime), Key(lastSeenHash, lastSeenMime), Key(pendingHash, pendingMime))
    }

    constructor (digest: Digest)
      ensures State() == START && this.digest == digest
      ensures lastWrittenHash == lastSeenHash == pendingHash == lastWrittenMime == lastSeenMime == pendingMime == ""
    {
      this.digest := digest;
      lastWrittenHash, lastWrittenMime := "", "";
      lastSeenHash, lastSeenMime := "", "";
      pendingHash, pendingMime := "", "";
    }

    /** `reading` is what ReadBest returns at this moment. */
    method Poll(reading: Reading) returns (result: PollResult)
      modifies this
      ensures result == PollOutcome(digest, old(State()), reading)
      ensures State() == AfterPoll(digest, old(State()), reading)
      ensures result.PollError? <==> reading.Failed?
      ensures reading.Got? && reading.content.data != [] && !result.NewContent? ==>
                lastSeenHash == digest(reading.content.data) && lastSeenMime == reading.content.mime
      ensures result.NewContent? ==>
                && reading == Got(result.content) && result.content.data != []
                && pendingHash == digest(result.content.data) && pendingMime == result.content.mime
                && lastSeenHash == old(lastSeenHash) && lastSeenMime == old(lastSeenMime)
      ensures lastWrittenHash == old(lastWrittenHash) && lastWrittenMime == old(lastWrittenMime)
    {
      if reading.Failed? {
        return PollError;
      }
      var ct := reading.content;
      if IsEmpty(ct) {
        return NoChange;
      }
      var hash := digest(ct.data);
      if hash == lastSeenHash && ct.mime == lastSeenMime {
        return NoChange;
      }
      if hash == lastWrittenHash && ct.mime == lastWrittenMime {
        lastSeenHash, lastSeenMime := hash, ct.mime;
        return OwnWrite;
      }
      pendingHash, pendingMime := hash, ct.mime;
      result := NewContent(ct);
    }

    /** Also `MarkSent`. */
    method MarkHandled()
      modifies this
      ensures State() == AfterHandled(old(State()))
      ensures lastSeenHash == old(pendingHash) && lastSeenMime == old(pendingMime)
      ensures pendingHash == old(pendingHash) && pendingMime == old(pendingMime)
      ensures lastWrittenHash == old(lastWrittenHash) && lastWrittenMime == old(lastWrittenMime)
    {
      lastSeenHash := pendingHash;
      lastSeenMime := pendingMime;
    }

    /** `written` and `readBack` are the answers of the system clipboard to Write and to the read-back. */
    method ApplyRemote(ct: Content, written: bool, readBack: Reading) returns (ok: bool)
      modifies this
      ensures ok == written
      ensures State() == AfterApply(digest, old(State()), ct, written, readBack)
      ensures !written ==>
                lastWrittenHash == digest(ct.data) && lastWrittenMime == ct.mime
                && lastSeenHash == old(lastSeenHash) && lastSeenMime == old(lastSeenMime)
      ensures written ==>
                lastSeenHash == lastWrittenHash && lastSeenMime == lastWrittenMime
                && if readBack.Got? && readBack.content.data != []
                   then lastSeenHash == digest(readBack.content.data) && lastSeenMime == readBack.content.mime
                   else lastSeenHash == digest(ct.data) && lastSeenMime == ct.mime
      ensures pendingHash == old(pendingHash) && pendingMime == old(pendingMime)
    {
      var hash := digest(ct.data);
      lastWrittenHash, lastWrittenMime := hash, ct.mime;
      if !written {
        return false;
      }
      if readBack.Got? && !IsEmpty(readBack.content) {
        var readBackHash := digest(readBack.content.data);
        lastSeenHash, lastSeenMime := readBackHash, readBack.content.mime;
        lastWrittenHash, lastWrittenMime := readBackHash, readBack.content.mime;
      } else {
        lastSeenHash, lastSeenMime := hash, ct.mime;
      }
      ok := true;
    }

    /** `cleared` is the answer of the system clipboard to Clear. */
    method ClearLocal(cleared: bool) returns (ok: bool)
      modifies this
      ensures ok == cleared
      ensures State() == if cleared then START else old(State())
      ensures cleared ==> lastWrittenHash == lastSeenHash == pendingHash == ""
                          && lastWrittenMime == lastSeenMime == pendingMime == ""
    {
      if !cleared {
        return false;
      }
      lastWrittenHash, lastWrittenMime := "", "";
      lastSeenHash, lastSeenMime := "", "";
      pendingHash, pendingMime := "", "";
      ok := true;
    }
  }
}
