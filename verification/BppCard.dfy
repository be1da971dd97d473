/**
 * The card side of a Bound Profile Package download: the card session, and the
 * writer that cuts one segment into numbered blocks.
 */
module BppCard {
  import opened Bytes

  const BLOCK_BYTES := 120
  const MAX_SEGMENT_BYTES := 30 * 1024
  const MAX_CARD_SEGMENT_BYTES := MAX_SEGMENT_BYTES

  datatype Status = Ok | InvalidArg | InvalidState | InvalidSize | InvalidResponse | CardFailure

  datatype CardEvent =
    | Begin
    | Block(data: seq<byte>, last: bool, number: nat)

  /** Where block `n` of a segment starts. */
  function Cut(n: nat): nat { 120 * n }

  /** The first `n` full blocks of a segment, none of them flagged as last. */
  function FullBlocks(segment: seq<byte>, n: nat): (r: seq<CardEvent>)
    requires Cut(n) <= |segment|
    ensures |r| == n
  {
    if n == 0 then []
    else FullBlocks(segment, n - 1) + [Block(segment[Cut(n - 1)..Cut(n)], false, n - 1)]
  }

  /** How many full blocks precede the last block, which is never empty. */
  function LeadingBlocks(size: nat): (n: nat)
    ensures size > 0 ==> Cut(n) < size <= Cut(n + 1)
    ensures Cut(n) <= size
  {
    if size == 0 then 0 else (size - 1) / 120
  }

  /** Everything the card is handed for one complete segment. */
  function SegmentEvents(segment: seq<byte>): seq<CardEvent> {
    var n := LeadingBlocks(|segment|);
    [Begin] + FullBlocks(segment, n) + [Block(segment[Cut(n)..], true, n)]
  }

  /** Everything the card is handed for a list of complete segments. */
  function Transcript(segments: seq<seq<byte>>): seq<CardEvent> {
    if segments == [] then []
    else Transcript(segments[..|segments| - 1]) + SegmentEvents(segments[|segments| - 1])
  }

  function Plus(bytes: seq<byte>, e: CardEvent): seq<byte> {
    match e case Begin => bytes case Block(d, _, _) => bytes + d
  }

  /** The bytes in a card log, in the order in which the card was handed them. */
  function Payload(log: seq<CardEvent>): seq<byte> {
    if log == [] then []
    else Plus(Payload(log[..|log| - 1]), log[|log| - 1])
  }

  lemma PayloadSnoc(log: seq<CardEvent>, e: CardEvent)
    ensures Payload(log + [e]) == Plus(Payload(log), e)
  {
    assert (log + [e])[..|log|] == log;
  }

  lemma {:induction false} PayloadAppend(a: seq<CardEvent>, b: seq<CardEvent>)
    ensures Payload(a + b) == Payload(a) + Payload(b)
  {
    if b == [] {
      assert a + b == a;
    } else {
      var front, e := b[..|b| - 1], b[|b| - 1];
      PayloadAppend(a, front);
      PayloadSnoc(a + front, e);
      PayloadSnoc(front, e);
      assert b == front + [e] && a + b == a + front + [e];
    }
  }

  lemma {:induction false} FullBlocksPayload(segment: seq<byte>, n: nat)
    requires Cut(n) <= |segment|
    ensures Payload(FullBlocks(segment, n)) == segment[..Cut(n)]
  {
    if n > 0 {
      FullBlocksPayload(segment, n - 1);
      var b := FullBlocks(segment, n);
      assert b[..|b| - 1] == FullBlocks(segment, n - 1);
      assert segment[..Cut(n)]
          == segment[..Cut(n - 1)] + segment[Cut(n - 1)..Cut(n)];
    }
  }

  /** More bytes at the end of a segment do not change the blocks already cut. */
  lemma {:induction false} FullBlocksExtend(segment: seq<byte>, more: seq<byte>, n: nat)
    requires Cut(n) <= |segment|
    ensures FullBlocks(segment + more, n) == FullBlocks(segment, n)
  {
    if n > 0 {
      FullBlocksExtend(segment, more, n - 1);
      assert (segment + more)[Cut(n - 1)..Cut(n)]
          == segment[Cut(n - 1)..Cut(n)];
    }
  }

  lemma PayloadOfBegin(log: seq<CardEvent>)
    ensures Payload([Begin] + log) == Payload(log)
  {
    PayloadSnoc([], Begin);
    PayloadAppend([Begin], log);
    assert [] + [Begin] == [Begin];
  }

  /** Putting the blocks of a segment together gives the segment back. */
  lemma SegmentPayload(segment: seq<byte>)
    ensures Payload(SegmentEvents(segment)) == segment
  {
    var n := LeadingBlocks(|segment|);
    var full, tail := FullBlocks(segment, n), segment[Cut(n)..];
    PayloadSnoc([Begin] + full, Block(tail, true, n));
    PayloadOfBegin(full);
    FullBlocksPayload(segment, n);
    assert segment == segment[..Cut(n)] + tail;
  }

  lemma {:induction false} TranscriptPayload(segments: seq<seq<byte>>)
    ensures Payload(Transcript(segments)) == Flat(segments)
  {
    if segments != [] {
      var front, last := segments[..|segments| - 1], segments[|segments| - 1];
      TranscriptPayload(front);
      SegmentPayload(last);
      PayloadAppend(Transcript(front), SegmentEvents(last));
      FlatSnoc(front, last);
      assert segments == front + [last];
    }
  }

  lemma ClosedSegmentPayload(segments: seq<seq<byte>>, segment: seq<byte>)
    ensures Payload(Transcript(segments) + SegmentEvents(segment)) == Flat(segments) + segment
  {
    TranscriptPayload(segments);
    PayloadAppend(Transcript(segments), SegmentEvents(segment));
    SegmentPayload(segment);
  }

  lemma OpenSegmentPayload(segments: seq<seq<byte>>, segment: seq<byte>, n: nat)
    requires Cut(n) <= |segment|
    ensures Payload(Transcript(segments) + [Begin] + FullBlocks(segment, n)) <= Flat(segments) + segment
  {
    var start, full := Transcript(segments) + [Begin], FullBlocks(segment, n);
    assert Payload(start) == Flat(segments) by {
      TranscriptPayload(segments);
      PayloadSnoc(Transcript(segments), Begin);
    }
    assert Payload(start + full) == Payload(start) + segment[..Cut(n)] by {
      PayloadAppend(start, full);
      FullBlocksPayload(segment, n);
    }
    PrefixWithin(Flat(segments), segment, Cut(n));
  }

  /** How many segments a card log has begun. */
  function Begins(log: seq<CardEvent>): nat {
    if log == [] then 0 else Begins(log[..|log| - 1]) + if log[|log| - 1].Begin? then 1 else 0
  }

  lemma {:induction false} BeginsAppend(a: seq<CardEvent>, b: seq<CardEvent>)
    ensures Begins(a + b) == Begins(a) + Begins(b)
  {
    if b == [] {
      assert a + b == a;
    } else {
      BeginsAppend(a, b[..|b| - 1]);
      assert (a + b)[..|a + b| - 1] == a + b[..|b| - 1];
    }
  }

  lemma {:induction false} NoBeginInBlocks(segment: seq<byte>, n: nat)
    requires Cut(n) <= |segment|
    ensures Begins(FullBlocks(segment, n)) == 0
  {
    if n > 0 {
      NoBeginInBlocks(segment, n - 1);
      BeginsAppend(FullBlocks(segment, n - 1), [Block(segment[Cut(n - 1)..Cut(n)], false, n - 1)]);
    }
  }

  lemma BeginsOnce(segment: seq<byte>, n: nat)
    requires Cut(n) <= |segment|
    ensures Begins([Begin] + FullBlocks(segment, n)) == 1
    ensures Begins(SegmentEvents(segment)) == 1
  {
    BeginsAppend([Begin], FullBlocks(segment, n));
    NoBeginInBlocks(segment, n);
    var k := LeadingBlocks(|segment|);
    BeginsAppend([Begin], FullBlocks(segment, k));
    NoBeginInBlocks(segment, k);
    BeginsAppend([Begin] + FullBlocks(segment, k), [Block(segment[Cut(k)..], true, k)]);
  }

  lemma {:induction false} TranscriptBegins(segments: seq<seq<byte>>)
    ensures Begins(Transcript(segments)) == |segments|
  {
    if segments != [] {
      var front, last := segments[..|segments| - 1], segments[|segments| - 1];
      TranscriptBegins(front);
      BeginsOnce(last, 0);
      BeginsAppend(Transcript(front), SegmentEvents(last));
    }
  }

  lemma {:induction false} FullBlocksAt(segment: seq<byte>, n: nat, i: nat)
    requires Cut(n) <= |segment| && i < n
    ensures FullBlocks(segment, n)[i] == Block(segment[Cut(i)..Cut(i + 1)], false, i)
  {
    if i < n - 1 { FullBlocksAt(segment, n - 1, i); }
  }

  /**
   * What the card can rely on in the blocks of one segment: full blocks numbered
   * from 0 in order, and one last block that is flagged, not empty, and at most full.
   */
  predicate WellCut(e: seq<CardEvent>) {
    && 2 <= |e| <= 257 && e[0] == Begin
    && (forall i :: 1 <= i < |e| ==> e[i].Block? && e[i].number == i - 1 && e[i].number <= 0xFF)
    && (forall i :: 1 <= i < |e| - 1 ==> !e[i].last && |e[i].data| == BLOCK_BYTES)
    && e[|e| - 1].last && 0 < |e[|e| - 1].data| <= BLOCK_BYTES
  }

  /** Segments that the card can be handed in numbered blocks. */
  predicate Fitted(segments: seq<seq<byte>>) {
    forall s | s in segments :: 0 < |s| <= MAX_CARD_SEGMENT_BYTES
  }

  /** Every one of these segments is handed over in good blocks. */
  predicate InBlocks(segments: seq<seq<byte>>) { forall s | s in segments :: WellCut(SegmentEvents(s)) }

  lemma FittedSnoc(segments: seq<seq<byte>>, segment: seq<byte>)
    requires Fitted(segments) && 0 < |segment| <= MAX_CARD_SEGMENT_BYTES
    ensures Fitted(segments + [segment])
  {
  }

  lemma BlocksWellFormed(segments: seq<seq<byte>>)
    requires Fitted(segments)
    ensures InBlocks(segments)
  {
    forall s | s in segments ensures WellCut(SegmentEvents(s)) {
      SegmentWellCut(s);
    }
  }

  lemma SegmentWellCut(segment: seq<byte>)
    requires 0 < |segment| <= MAX_CARD_SEGMENT_BYTES
    ensures WellCut(SegmentEvents(segment))
  {
    var e := SegmentEvents(segment);
    var n := LeadingBlocks(|segment|);
    assert Cut(n) < |segment| <= Cut(n + 1);
    forall i | 1 <= i < |e| - 1
      ensures e[i].Block? && !e[i].last && |e[i].data| == BLOCK_BYTES && e[i].number == i - 1 {
      FullBlocksAt(segment, n, i - 1);
    }
  }

  lemma TranscriptSnoc(segments: seq<seq<byte>>, segment: seq<byte>)
    ensures Transcript(segments + [segment]) == Transcript(segments) + SegmentEvents(segment)
  {
    assert (segments + [segment])[..|segments|] == segments;
  }

  /** What the card has been handed of the segment that it was last told to begin. */
  function LastPart(log: seq<CardEvent>): seq<byte> {
    if log == [] then []
    else match log[|log| - 1]
      case Begin => []
      case Block(data, _, _) => LastPart(log[..|log| - 1]) + data
  }

  lemma {:induction false} LastPartBlocks(log: seq<CardEvent>, segment: seq<byte>, n: nat)
    requires Cut(n) <= |segment|
    ensures LastPart(log + [Begin] + FullBlocks(segment, n)) == segment[..Cut(n)]
  {
    var all := log + [Begin] + FullBlocks(segment, n);
    if n == 0 {
      assert all == log + [Begin];
    } else {
      LastPartBlocks(log, segment, n - 1);
      assert all[..|all| - 1] == log + [Begin] + FullBlocks(segment, n - 1);
      assert segment[..Cut(n)] == segment[..Cut(n - 1)] + segment[Cut(n - 1)..Cut(n)];
    }
  }

  lemma LastPartClosed(log: seq<CardEvent>, segment: seq<byte>)
    ensures LastPart(log + SegmentEvents(segment)) == segment
  {
    var n := LeadingBlocks(|segment|);
    var all := log + SegmentEvents(segment);
    LastPartBlocks(log, segment, n);
    assert all[..|all| - 1] == log + [Begin] + FullBlocks(segment, n);
    assert segment == segment[..Cut(n)] + segment[Cut(n)..];
  }

  lemma LastPartTranscript(segments: seq<seq<byte>>)
    ensures LastPart(Transcript(segments)) == if segments == [] then [] else segments[|segments| - 1]
  {
    if segments != [] {
      LastPartClosed(Transcript(segments[..|segments| - 1]), segments[|segments| - 1]);
    }
  }

  /** Nothing but empty answers. */
  function Silence(n: nat): (r: seq<seq<byte>>)
    ensures |r| == n
  {
    seq(n, _ => [])
  }

  lemma StillSilent(n: nat)
    ensures Silence(n) + [[]] == Silence(n + 1)
  {
  }

  /**
   * The card, seen through its session. A call can fail at any time, and a reply can
   * hold any bytes; `log` is what the card has been handed, `faulty` says that a call has
   * failed or has answered a block that was not the last one of its segment, `answers`
   * counts the last blocks that were answered, and `replies` holds what each entry of the
   * log was answered with.
   */
  class CardSession {
    ghost var log: seq<CardEvent>
    ghost var replies: seq<seq<byte>>
    ghost var faulty: bool
    ghost var answers: nat

    /** Nothing that it has been handed was answered with data. */
    ghost predicate Silent()
      reads this
    {
      replies == Silence(|log|)
    }

    /** Its latest answer is the only one. */
    ghost predicate Answered(response: seq<byte>)
      reads this
    {
      log != [] && replies == Silence(|log| - 1) + [response]
    }

    constructor ()
      ensures log == [] && replies == [] && !faulty && answers == 0
    {
      log, replies, faulty, answers := [], [], false, 0;
    }

    method BeginSegment() returns (ok: bool)
      modifies this
      ensures log == (if ok then old(log) + [Begin] else old(log))
      ensures replies == (if ok then old(replies) + [[]] else old(replies))
      ensures faulty == (old(faulty) || !ok) && answers == old(answers)
    {
      ok := *;
      if ok { log, replies := log + [Begin], replies + [[]]; } else { faulty := true; }
    }

    method WriteBlock(data: seq<byte>, last: bool, number: nat) returns (ok: bool, response: seq<byte>)
      modifies this
      ensures log == old(log) + [Block(data, last, number)] && replies == old(replies) + [response]
      ensures faulty == (old(faulty) || !ok || (!last && response != []))
      ensures answers == old(answers) + if last && response != [] then 1 else 0
    {
      ok, response := *, *;
      log, replies := log + [Block(data, last, number)], replies + [response];
      if !ok || (!last && response != []) { faulty := true; }
      if last && response != [] { answers := answers + 1; }
    }
  }

  /** Cuts the bytes of one segment into blocks of at most 120 bytes. */
  class SegmentWriter {
    const session: CardSession
    const pending: array<byte>
    var pendingSize: nat
    var segmentBytes: nat
    var blockNumber: nat
    var active: bool
    var lastResponse: seq<byte>

    /** The bytes written to the open segment, and the card log from before it. */
    ghost var segment: seq<byte>
    ghost var before: seq<CardEvent>
    /** Full blocks of the open segment handed to the card. */
    ghost var sent: nat

    /** What the log says about the open segment; it also holds after a failed call. */
    ghost predicate Logged()
      reads this, session
    {
      if active then
        && Cut(sent) <= |segment| <= MAX_CARD_SEGMENT_BYTES
        && session.log == before + [Begin] + FullBlocks(segment, sent)
      else
        segment == [] && session.log == before
    }

    /** What the log says at any time, also after a call that failed. */
    ghost predicate Traced()
      reads this, session
    {
      Logged() || (active && segment != [] && session.log == before + SegmentEvents(segment))
    }

    /** The card has been handed the complete segments, and no more than a start of the open one. */
    lemma TracedPayload(segments: seq<seq<byte>>)
      requires Traced() && before == Transcript(segments)
      ensures Payload(session.log) <= Flat(segments) + segment
    {
      if !Logged() {
        ClosedSegmentPayload(segments, segment);
      } else if active {
        OpenSegmentPayload(segments, segment, sent);
      } else {
        TranscriptPayload(segments);
      }
    }

    /** How much the card has been handed while a segment is open. */
    lemma SentLength(segments: seq<seq<byte>>)
      requires Logged() && active && before == Transcript(segments)
      ensures |Payload(session.log)| == |Flat(segments)| + Cut(sent)
    {
      hide Payload, Transcript, FullBlocks, Flat;
      TranscriptPayload(segments);
      PayloadSnoc(before, Begin);
      PayloadAppend(before + [Begin], FullBlocks(segment, sent));
      FullBlocksPayload(segment, sent);
    }

    /** Of the latest segment, the card has been handed a start. */
    lemma TracedLastPart(segments: seq<seq<byte>>)
      requires Traced() && before == Transcript(segments)
      ensures LastPart(session.log) <= segment || (segments != [] && LastPart(session.log) == segments[|segments| - 1])
    {
      if !Logged() {
        LastPartClosed(before, segment);
      } else if active {
        LastPartBlocks(before, segment, sent);
      } else {
        LastPartTranscript(segments);
      }
    }

    /** The log begins one segment for each complete one, and one for the open one. */
    lemma TracedBegins(segments: seq<seq<byte>>)
      requires Traced() && before == Transcript(segments)
      ensures Begins(session.log) == |segments| + if active then 1 else 0
    {
      hide Begins, Transcript, FullBlocks, SegmentEvents;
      TranscriptBegins(segments);
      if !Logged() {
        BeginsOnce(segment, 0);
        BeginsAppend(before, SegmentEvents(segment));
      } else if active {
        BeginsOnce(segment, sent);
        BeginsAppend(before, [Begin] + FullBlocks(segment, sent));
        assert before + [Begin] + FullBlocks(segment, sent) == before + ([Begin] + FullBlocks(segment, sent));
      }
    }

    /** The pending bytes are the end of the open segment that no block holds yet. */
    ghost predicate Buffered()
      reads this, session, pending
    {
      && pending.Length == BLOCK_BYTES
      && pendingSize <= BLOCK_BYTES
      && Logged() && session.Silent()
      && (active ==>
        && blockNumber == sent
        && Cut(sent) + pendingSize == |segment|
        && (sent > 0 ==> pendingSize > 0)
        && pending[..pendingSize] == segment[Cut(sent)..])
    }

    ghost predicate Valid()
      reads this, session, pending
    {
      && Buffered()
      && segmentBytes == |segment|
      && (!active ==> pendingSize == blockNumber == 0)
    }

    /** The segment that was open has been handed over whole. */
    ghost predicate Closed()
      reads this, session
    {
      !active && segment == [] && before == session.log
    }

    lemma BytesCounted()
      requires Valid()
      ensures segmentBytes == |segment|
    {
    }

    /** With no open segment, the card has been handed the closed segments and nothing else. */
    lemma NothingOpen()
      requires Valid() && !active
      ensures session.log == before
    {
    }

    constructor (session: CardSession)
      requires session.Silent()
      ensures Valid() && !active && this.session == session && before == session.log && fresh(pending)
    {
      this.session := session;
      pending := new byte[BLOCK_BYTES](_ => 0);
      pendingSize, segmentBytes, blockNumber := 0, 0, 0;
      active := false;
      lastResponse := [];
      segment, before, sent := [], session.log, 0;
    }

    method Start() returns (status: Status)
      requires Valid() && !active
      modifies this, session
      ensures status == Ok || status == CardFailure
      ensures Valid() && before == old(before) && session.log[..|before|] == before
      ensures status == Ok ==> active && segment == [] && session.faulty == old(session.faulty)
      ensures status == CardFailure ==> !active && session.faulty
      ensures session.answers == old(session.answers)
    {
      pendingSize, segmentBytes, blockNumber := 0, 0, 0;
      StillSilent(|session.log|);
      var ok := session.BeginSegment();
      if !ok { return CardFailure; }
      active := true;
      segment, sent := [], 0;
      return Ok;
    }

    /** Makes room by handing a full pending block to the card. */
    method MakeRoom() returns (status: Status)
      requires Buffered() && active && |segment| < MAX_CARD_SEGMENT_BYTES
      modifies this`pendingSize, this`blockNumber, this`lastResponse, this`sent, session
      ensures Logged() && status in {Ok, InvalidResponse, CardFailure}
      ensures status == Ok ==>
        && pendingSize < BLOCK_BYTES && blockNumber == sent
        && Cut(sent) + pendingSize == |segment|
        && pending[..pendingSize] == segment[Cut(sent)..]
        && session.faulty == old(session.faulty) && session.Silent()
      ensures status != Ok ==> session.faulty
      ensures session.answers == old(session.answers)
    {
      if pendingSize < BLOCK_BYTES { return Ok; }
      assert pending[..pendingSize] == segment[Cut(sent)..Cut(sent + 1)];
      status := Flush(false);
      sent := sent + 1;
    }

    /** Hands the last pending bytes to the card. */
    method FlushLast() returns (status: Status)
      requires Valid() && active && pendingSize > 0
      modifies this, session
      ensures active && segment == old(segment) && before == old(before)
      ensures session.log == before + SegmentEvents(segment)
      ensures status == Ok || status == CardFailure
      ensures status == Ok ==> session.faulty == old(session.faulty)
      ensures status == CardFailure ==> session.faulty
      ensures status == Ok ==> session.answers == old(session.answers) + if lastResponse != [] then 1 else 0
      ensures status == Ok ==> session.Answered(lastResponse)
      ensures old(session.answers) <= session.answers
    {
      assert sent == LeadingBlocks(|segment|);
      assert pending[..pendingSize] == segment[Cut(sent)..];
      status := Flush(true);
    }

    /** Hands the pending bytes to the card as one block. */
    method Flush(last: bool) returns (status: Status)
      requires pending.Length == BLOCK_BYTES && 0 < pendingSize <= BLOCK_BYTES && blockNumber <= 0xFF
      requires session.Silent()
      modifies this`pendingSize, this`blockNumber, this`lastResponse, session
      ensures session.log == old(session.log) + [Block(old(pending[..pendingSize]), last, old(blockNumber))]
      ensures status in {Ok, InvalidResponse, CardFailure} && (last ==> status != InvalidResponse)
      ensures status == Ok ==>
        pendingSize == 0 && blockNumber == old(blockNumber) + 1 && session.faulty == old(session.faulty)
      ensures status != Ok ==> session.faulty
      ensures status == Ok && last ==> session.answers == old(session.answers) + if lastResponse != [] then 1 else 0
      ensures status == Ok ==> if last then session.Answered(lastResponse) else session.Silent()
      ensures if last then old(session.answers) <= session.answers else session.answers == old(session.answers)
    {
      var ok, response := session.WriteBlock(pending[..pendingSize], last, blockNumber);
      StillSilent(|session.log| - 1);
      if !ok { return CardFailure; }
      if !last && response != [] { return InvalidResponse; }
      if last { lastResponse := response; }
      pendingSize := 0;
      blockNumber := blockNumber + 1;
      return Ok;
    }

    /** Copies as many bytes as fit into the pending block. */
    method Fill(data: seq<byte>) returns (copied: nat)
      requires pending.Length == BLOCK_BYTES && pendingSize < BLOCK_BYTES && data != []
      modifies this`pendingSize, pending
      ensures 0 < copied <= |data| && pendingSize == old(pendingSize) + copied <= BLOCK_BYTES
      ensures copied == |data| || pendingSize == BLOCK_BYTES
      ensures pending[..pendingSize] == old(pending[..pendingSize]) + data[..copied]
    {
      var room := BLOCK_BYTES - pendingSize;
      copied := if |data| < room then |data| else room;
      forall j | 0 <= j < copied {
        pending[pendingSize + j] := data[j];
      }
      pendingSize := pendingSize + copied;
    }

    /** Moves the next bytes of a longer write into the open segment. */
    method Push(data: seq<byte>) returns (status: Status, copied: nat)
      requires Buffered() && active && data != [] && |segment| + |data| <= MAX_CARD_SEGMENT_BYTES
      modifies this, session, pending
      ensures active && Logged() && before == old(before) && segmentBytes == old(segmentBytes)
      ensures status in {Ok, InvalidResponse, CardFailure} && copied <= |data|
      ensures segment == old(segment) + data[..copied]
      ensures status == Ok ==> Buffered() && copied > 0 && session.faulty == old(session.faulty)
      ensures status != Ok ==> session.faulty && copied == 0
      ensures session.answers == old(session.answers)
    {
      hide FullBlocks;
      status := MakeRoom();
      if status != Ok { return status, 0; }
      ghost var filled, was := pendingSize, segment;
      copied := Fill(data);
      FullBlocksExtend(was, data[..copied], sent);
      segment := was + data[..copied];
      assert segment[Cut(sent)..] == was[Cut(sent)..] + data[..copied];
    }

    /**
     * Adds bytes to the open segment. A full block leaves only when more bytes follow
     * it, so the last block is still here when the segment is finished.
     */
    method Write(data: seq<byte>) returns (status: Status)
      requires Valid() && active
      modifies this, session, pending
      ensures active && Logged() && before == old(before)
      ensures status in {Ok, InvalidSize, InvalidResponse, CardFailure}
      ensures status == InvalidSize <==> |old(segment)| + |data| > MAX_CARD_SEGMENT_BYTES
      ensures old(segment) <= segment <= old(segment) + data
      ensures data != [] ==> Cut(sent) < |old(segment)| + |data|
      ensures status == Ok ==> Valid() && segment == old(segment) + data
      ensures status == InvalidSize ==> Valid() && segment == old(segment) && session.log == old(session.log)
      ensures if status == Ok || status == InvalidSize then session.faulty == old(session.faulty) else session.faulty
      ensures session.answers == old(session.answers)
    {
      if |data| > MAX_SEGMENT_BYTES || segmentBytes > MAX_SEGMENT_BYTES - |data| {
        return InvalidSize;
      }
      ghost var start := segment;
      segmentBytes := segmentBytes + |data|;
      var at := 0;
      while at < |data|
        invariant 0 <= at <= |data|
        invariant active && before == old(before) && Buffered()
        invariant segment == start + data[..at] && segmentBytes == |start| + |data|
        invariant session.faulty == old(session.faulty) && session.answers == old(session.answers)
      {
        ghost var was := segment;
        var pushed, copied := Push(data[at..]);
        assert segment == was + data[at..][..copied];
        AppendMore(start, data, at, copied);
        at := at + copied;
        if pushed != Ok { return pushed; }
      }
      return Ok;
    }

    /** Hands the last block of the open segment to the card, and closes the segment. */
    method Finish() returns (status: Status, response: seq<byte>)
      requires Valid()
      modifies this, session, pending
      ensures before == (if status == Ok then session.log else old(before))
      ensures status == InvalidState <==> !old(active) || old(segment) == []
      ensures status == InvalidState ==> Valid() && active == old(active) && segment == old(segment)
      ensures status == InvalidState ==> session.log == old(session.log)
      ensures status in {Ok, InvalidState, CardFailure}
      ensures status != InvalidState ==> session.log == old(before) + SegmentEvents(old(segment))
      ensures status == Ok ==> Closed() && session.Answered(response) && session.faulty == old(session.faulty)
      ensures status == Ok && response == [] ==> Valid()
      ensures status == CardFailure ==> session.faulty && active && segment == old(segment) != []
      ensures status == Ok ==> session.answers == old(session.answers) + if response != [] then 1 else 0
      ensures old(session.answers) <= session.answers && (old(session.faulty) ==> session.faulty)
    {
      response := [];
      if !active || segmentBytes == 0 || pendingSize == 0 { return InvalidState, []; }
      status := FlushLast();
      if status != Ok { return status, []; }
      response := lastResponse;
      StillSilent(|session.log| - 1);
      active := false;
      pendingSize, segmentBytes, blockNumber := 0, 0, 0;
      segment, before := [], session.log;
    }
  }
}
