/** Flushing the pending notifications of a card: what is posted, what is removed, and what is reported. */
module NotificationFlush {
  import opened Bytes
  import opened ConfigTypes
  import opened Tlv
  import opened Notifications
  import opened NotificationSend

  datatype Status = Flushed | CardFailed | ProtocolFailed | StillPending

  /** The reader of one notification, taken as given: its sequence number and the host of its server. */
  type Reader = seq<byte> -> Option<(u32, text)>

  // ----- the list -----

  /** The entries that fill the bytes from `pos` to `end` exactly. */
  function Entries(data: seq<byte>, pos: nat, end: nat): (r: Option<seq<Span>>)
    requires pos <= end <= |data|
    decreases end - pos
  {
    if pos == end then Some([]) else
      match SpanAt(data, pos, end)
      case None => None
      case Some(span) =>
        match Entries(data, span.End(), end)
        case None => None
        case Some(rest) => Some([span] + rest)
  }

  function PendingOf(data: seq<byte>, span: Span, read: Reader): Option<Pending>
    requires span.offset <= span.End() <= |data|
  {
    match read(data[span.offset..span.End()])
    case None => None
    case Some(r) => Some(Pending(span.offset, span.EncodedLength(), r.0, r.1))
  }

  /** What a list of entries is read as, unless one of them cannot be read. */
  function ReadAll(data: seq<byte>, spans: seq<Span>, read: Reader): Option<seq<Pending>>
    requires forall s | s in spans :: s.offset <= s.End() <= |data|
  {
    if spans == [] then Some([]) else
      match PendingOf(data, spans[0], read)
      case None => None
      case Some(p) =>
        match ReadAll(data, spans[1..], read)
        case None => None
        case Some(rest) => Some([p] + rest)
  }

  lemma {:induction false} EntriesWithin(data: seq<byte>, pos: nat, end: nat)
    requires pos <= end <= |data|
    ensures var e := Entries(data, pos, end); e.Some? ==> forall s | s in e.value :: s.offset <= s.End() <= |data|
    decreases end - pos
  {
    hide Boundaries;
    if pos < end {
      match SpanAt(data, pos, end)
      case None =>
      case Some(span) => EntriesWithin(data, span.End(), end);
    }
  }

  /** The notifications in the list, if it is a list of so many that all can be read. */
  function Listed(data: seq<byte>, offset: nat, end: nat, read: Reader): Option<seq<Pending>>
    requires offset <= end <= |data|
  {
    if offset < end && |data| > RESPONSE_MAX then None else
      match Entries(data, offset, end)
      case None => None
      case Some(spans) =>
        EntriesWithin(data, offset, end);
        if |spans| > MAX_PENDING then None else ReadAll(data, spans, read)
  }

  /** The first pass only counts, so that nothing is started on a list that is too long. */
  method CountEntries(data: seq<byte>, offset: nat, end: nat) returns (ok: bool)
    requires offset <= end <= |data|
    ensures ok <==> (offset == end || |data| <= RESPONSE_MAX) && Entries(data, offset, end).Some?
                    && |Entries(data, offset, end).value| <= MAX_PENDING
  {
    hide SpanAt;
    var count, position := 0, offset;
    ghost var done: seq<Span> := [];
    ghost var all := Entries(data, offset, end);
    assert all.Some? ==> [] + all.value == all.value;
    while position < end
      invariant offset <= position <= end && count == |done| <= MAX_PENDING
      invariant (position > offset ==> |data| <= RESPONSE_MAX)
      invariant all == Joined(done, Entries(data, position, end))
      decreases end - position
    {
      count := count + 1;
      EntriesStep(data, position, end);
      if count > MAX_PENDING {
        JoinedLength(done, Entries(data, position, end));
        return false;
      }
      var got, span, next := ParseTlvSpan(data, end, position);
      if !got { return false; }
      JoinedOn(done, span, Entries(data, next, end));
      done := done + [span];
      position := next;
    }
    ok := true;
  }

  function Joined<T>(front: seq<T>, rest: Option<seq<T>>): Option<seq<T>> {
    match rest case None => None case Some(r) => Some(front + r)
  }

  lemma JoinedOn<T>(front: seq<T>, x: T, rest: Option<seq<T>>)
    ensures Joined(front + [x], rest) == Joined(front, Joined([x], rest))
  {
    if rest.Some? { assert front + [x] + rest.value == front + ([x] + rest.value); }
  }

  lemma JoinedLength<T>(front: seq<T>, rest: Option<seq<T>>)
    requires rest.Some? ==> rest.value != []
    ensures Joined(front, rest).Some? ==> |Joined(front, rest).value| > |front|
  {
  }

  lemma EntriesStep(data: seq<byte>, pos: nat, end: nat)
    requires pos < end <= |data|
    ensures var s := SpanAt(data, pos, end);
            match s case None => Entries(data, pos, end) == None
                    case Some(span) => pos < span.End() <= end && span.offset == pos
                                       && Entries(data, pos, end) == Joined([span], Entries(data, span.End(), end))
    ensures Entries(data, pos, end).Some? ==> Entries(data, pos, end).value != []
  {
    hide Boundaries;
  }

  /** The second pass reads every entry. */
  method ReadEntries(data: seq<byte>, offset: nat, end: nat, read: Reader) returns (ok: bool, ns: seq<Pending>)
    requires offset <= end <= |data| && (offset == end || |data| <= RESPONSE_MAX) && Entries(data, offset, end).Some?
    ensures EntriesRead(data, offset, end, read) == if ok then Some(ns) else None
  {
    hide SpanAt;
    ok, ns := true, [];
    var position := offset;
    ghost var all := EntriesRead(data, offset, end, read);
    assert all.Some? ==> [] + all.value == all.value;
    while position < end
      invariant offset <= position <= end && Entries(data, position, end).Some?
      invariant all == Joined(ns, EntriesRead(data, position, end, read))
      decreases end - position
    {
      EntriesStep(data, position, end);
      EntriesReadStep(data, position, end, read);
      var got, span, next := ParseTlvSpan(data, end, position);
      if !got { assert false; }
      var entry := read(data[span.offset..span.offset + span.EncodedLength()]);
      if entry.None? { return false, ns; }
      var p := Pending(span.offset, span.EncodedLength(), entry.value.0, entry.value.1);
      JoinedOn(ns, p, EntriesRead(data, next, end, read));
      ns := ns + [p];
      position := next;
    }
    assert EntriesRead(data, position, end, read) == Some([]);
    assert ns + [] == ns;
  }

  function EntriesRead(data: seq<byte>, pos: nat, end: nat, read: Reader): Option<seq<Pending>>
    requires pos <= end <= |data| && Entries(data, pos, end).Some?
  {
    EntriesWithin(data, pos, end);
    ReadAll(data, Entries(data, pos, end).value, read)
  }

  lemma EntriesReadStep(data: seq<byte>, pos: nat, end: nat, read: Reader)
    requires pos < end <= |data| && Entries(data, pos, end).Some?
    ensures var span := SpanAt(data, pos, end);
            && span.Some? && pos == span.value.offset <= span.value.End() <= end
            && Entries(data, span.value.End(), end).Some?
            && EntriesRead(data, pos, end, read) ==
               match PendingOf(data, span.value, read)
               case None => None
               case Some(p) => Joined([p], EntriesRead(data, span.value.End(), end, read))
  {
    hide SpanAt;
    EntriesStep(data, pos, end);
  }

  // ----- repeated keys -----

  /** Two entries have the same host and sequence number. */
  predicate HasRepeat(s: seq<Pending>) { exists i, j | 0 <= i < j < |s| :: SameKey(s[i], s[j]) }

  lemma TwoPlaces(s: seq<Pending>, x: Pending)
    requires multiset(s)[x] >= 2
    ensures exists i, j | 0 <= i < j < |s| :: s[i] == x && s[j] == x
  {
    var i :| 0 <= i < |s| && s[i] == x;
    assert s == s[..i] + [x] + s[i + 1..];
    if x in s[..i] {
      var j :| 0 <= j < i && s[..i][j] == x;
      assert s[j] == x;
    } else {
      assert multiset(s[..i])[x] == 0 && multiset(s[i + 1..])[x] >= 1;
      var j :| 0 <= j < |s| - i - 1 && s[i + 1..][j] == x;
      assert s[i + 1 + j] == x;
    }
  }

  lemma RepeatOfPermutation(s: seq<Pending>, t: seq<Pending>)
    requires multiset(s) == multiset(t) && HasRepeat(s)
    ensures HasRepeat(t)
  {
    hide SameKey;
    var i, j :| 0 <= i < j < |s| && SameKey(s[i], s[j]);
    var x, y := s[i], s[j];
    if x == y {
      CountedTwice(s, i, j);
      TwoPlaces(t, x);
    } else {
      PlaceIn(s, t, i);
      PlaceIn(s, t, j);
      var k :| 0 <= k < |t| && t[k] == x;
      var l :| 0 <= l < |t| && t[l] == y;
      SameKeyBothWays(x, y);
      assert SameKey(t[k], t[l]) && SameKey(t[l], t[k]);
    }
  }

  lemma CountedTwice(s: seq<Pending>, i: nat, j: nat)
    requires i < j < |s| && s[i] == s[j]
    ensures multiset(s)[s[i]] >= 2
  {
    assert s == s[..j] + s[j..];
    assert s[..j][i] == s[i] && s[j..][0] == s[j];
    assert s[i] in multiset(s[..j]) && s[i] in multiset(s[j..]);
  }

  lemma PlaceIn(s: seq<Pending>, t: seq<Pending>, i: nat)
    requires multiset(s) == multiset(t) && i < |s|
    ensures exists k | 0 <= k < |t| :: t[k] == s[i]
  {
    assert s[i] in multiset(t);
  }

  lemma SameKeyBothWays(x: Pending, y: Pending)
    ensures SameKey(x, y) == SameKey(y, x)
  {
    hide Folded;
  }

  /** In a sorted list a repetition stands side by side. */
  lemma RepeatIsAdjacent(s: seq<Pending>)
    requires Sorted(s) && forall i | 0 < i < |s| :: !SameKey(s[i - 1], s[i])
    ensures !HasRepeat(s)
  {
    hide Before, SameKey;
    forall i, j | 0 <= i < j < |s| ensures !SameKey(s[i], s[j]) {
      BeforeIsOrder(s[i], s[i + 1], s[j]);
      if j > i + 1 {
        BeforeIsOrder(s[j], s[i + 1], s[i]);
        BeforeIsOrder(s[i], s[j], s[i]);
        BeforeSame(s[i], s[j], s[i + 1]);
      }
    }
  }

  method FindRepeat(s: seq<Pending>) returns (found: bool)
    requires Sorted(s)
    ensures found == HasRepeat(s)
  {
    hide Before, Folded;
    var index := 1;
    while index < |s|
      invariant index >= 1 && forall i | 0 < i < index && i < |s| :: !SameKey(s[i - 1], s[i])
    {
      if s[index - 1].sequence == s[index].sequence {
        var order := CompareAsciiCi(s[index - 1].address, s[index].address);
        if order == 0 { return true; }
      }
      index := index + 1;
    }
    RepeatIsAdjacent(s);
    return false;
  }

  // ----- posting and removing -----

  datatype Try = Skipped | Tried(delivery: Delivery)

  /** Every notification is somewhere in the list that the card returned. */
  predicate AllWithin(w: World, ns: seq<Pending>) { forall p | p in ns :: p.offset + p.length <= |w.data| }

  function LogOf(w: World, ns: seq<Pending>, tries: seq<Try>): seq<Event>
    requires |tries| <= |ns| && AllWithin(w, ns)
  {
    if tries == [] then [] else
      var last := |tries| - 1;
      LogOf(w, ns, tries[..last]) + if tries[last].Skipped? then [] else EventsOf(w, ns[last], last)
  }

  predicate Fails(ns: seq<Pending>, tries: seq<Try>, j: nat, host: text)
    requires j < |tries| <= |ns|
  {
    SameHost(ns[j].address, host) && tries[j] != Tried(Delivered)
  }

  /** Every entry is tried unless an earlier one of its host was not delivered; other hosts do not matter. */
  predicate TriesOk(ns: seq<Pending>, tries: seq<Try>)
    requires |tries| <= |ns|
  {
    forall i | 0 <= i < |tries| :: tries[i].Skipped? <==> exists j | 0 <= j < i :: Fails(ns, tries, j, ns[i].address)
  }

  predicate AsGiven(w: World, ns: seq<Pending>, tries: seq<Try>)
    requires |tries| <= |ns| && AllWithin(w, ns)
  {
    forall i | 0 <= i < |tries| :: tries[i].Tried? ==> tries[i].delivery == DeliveryOf(w, ns[i], i)
  }

  /** The current host has been left with something pending. */
  predicate HostPending(ns: seq<Pending>, tries: seq<Try>, host: text)
    requires |tries| <= |ns|
  {
    exists i | 0 <= i < |tries| :: Fails(ns, tries, i, host)
  }

  lemma SameHostJoins(a: text, b: text, c: text)
    ensures SameHost(a, b) == SameHost(b, a) && (SameHost(a, b) ==> SameHost(a, c) == SameHost(b, c))
  {
  }

  /** In a sorted list nothing after the end of a host's group is of that host. */
  lemma GroupEnds(ns: seq<Pending>, begin: nat, end: nat)
    requires Sorted(ns) && begin < end < |ns| && !SameHost(ns[begin].address, ns[end].address)
    ensures forall i, j | 0 <= i <= begin && end <= j < |ns| :: !SameHost(ns[i].address, ns[j].address)
  {
    hide Less, Folded;
    forall i, j | 0 <= i <= begin && end <= j < |ns| ensures !SameHost(ns[i].address, ns[j].address) {
      var a, b, c, d := ns[i], ns[begin], ns[end], ns[j];
      assert !Before(c, b) && (i < begin ==> !Before(b, a)) && (end < j ==> !Before(d, c));
      LessIsTotal(Folded(b.address), Folded(c.address));
      LessIsTotal(Folded(a.address), Folded(b.address));
      LessIsTotal(Folded(c.address), Folded(d.address));
      LessIsOrder(Folded(a.address), Folded(b.address), Folded(c.address));
      LessIsOrder(Folded(a.address), Folded(c.address), Folded(d.address));
      LessIsOrder(Folded(b.address), Folded(c.address), Folded(d.address));
      LessIsOrder(Folded(a.address), Folded(a.address), Folded(a.address));
    }
  }

  /** Where the group that starts at `begin` ends. */
  method GroupEnd(ns: seq<Pending>, begin: nat) returns (end: nat)
    requires Sorted(ns) && begin < |ns|
    ensures begin < end <= |ns| && forall i | begin <= i < end :: SameHost(ns[begin].address, ns[i].address)
    ensures forall i, j | 0 <= i <= begin && end <= j < |ns| :: !SameHost(ns[i].address, ns[j].address)
  {
    hide Less, Folded;
    end := begin + 1;
    while end < |ns|
      invariant begin < end <= |ns| && forall i | begin <= i < end :: SameHost(ns[begin].address, ns[i].address)
    {
      var order := CompareAsciiCi(ns[begin].address, ns[end].address);
      if order != 0 {
        GroupEnds(ns, begin, end);
        return;
      }
      end := end + 1;
    }
  }

  lemma TriesOn(w: World, ns: seq<Pending>, tries: seq<Try>, t: Try)
    requires |tries| < |ns| && AllWithin(w, ns) && TriesOk(ns, tries) && AsGiven(w, ns, tries)
    requires t == Skipped || t == Tried(DeliveryOf(w, ns[|tries|], |tries|))
    requires t.Skipped? <==> exists j | 0 <= j < |tries| :: Fails(ns, tries, j, ns[|tries|].address)
    ensures TriesOk(ns, tries + [t]) && AsGiven(w, ns, tries + [t])
    ensures LogOf(w, ns, tries + [t])
         == LogOf(w, ns, tries) + if t.Skipped? then [] else EventsOf(w, ns[|tries|], |tries|)
  {
    hide SameHost, DeliveryOf, EventsOf;
    var more := tries + [t];
    assert more[..|tries|] == tries;
    forall i | 0 <= i < |more| ensures more[i].Skipped? <==>
      exists j | 0 <= j < i :: Fails(ns, more, j, ns[i].address) {
      forall j | 0 <= j < i ensures Fails(ns, more, j, ns[i].address) == Fails(ns, tries, j, ns[i].address) {}
      if i < |tries| {
        assert tries[i].Skipped? <==> exists j | 0 <= j < i :: Fails(ns, tries, j, ns[i].address);
      }
    }
  }

  /** Each entry is posted and then removed, in order, until one is not delivered. */
  method FlushGroup(outside: Outside, w: World, ns: seq<Pending>, begin: nat, end: nat, ghost start: seq<Event>,
    ghost before: seq<Try>)
    returns (failed: bool, ghost tries: seq<Try>)
    requires begin < end <= |ns| && |before| == begin && AllWithin(w, ns) && TriesOk(ns, before)
    requires AsGiven(w, ns, before)
    requires forall i | begin <= i < end :: SameHost(ns[begin].address, ns[i].address)
    requires forall i, j | 0 <= i < begin <= j < end :: !SameHost(ns[i].address, ns[j].address)
    requires outside.log == start + LogOf(w, ns, before)
    modifies outside
    ensures |tries| == end && before <= tries && TriesOk(ns, tries) && AsGiven(w, ns, tries)
    ensures outside.log == start + LogOf(w, ns, tries)
    ensures failed <==> exists i | begin <= i < end :: tries[i] != Tried(Delivered)
  {
    hide SameHost, LogOf, TriesOk, AsGiven, DeliveryOf, EventsOf, AllWithin;
    failed, tries := false, before;
    var index := begin;
    while index < end
      invariant begin <= index <= end && |tries| == index && before <= tries && TriesOk(ns, tries)
      invariant AsGiven(w, ns, tries)
      invariant outside.log == start + LogOf(w, ns, tries)
      invariant forall i | begin <= i < index :: tries[i] == Tried(Delivered)
    {
      OneWithin(w, ns, index);
      ghost var t := Tried(DeliveryOf(w, ns[index], index));
      NoneFailed(ns, before, tries, begin, end);
      TriesOn(w, ns, tries, t);
      var ok := Notify(outside, w, ns[index], index);
      assert start + LogOf(w, ns, tries) + EventsOf(w, ns[index], index)
          == start + (LogOf(w, ns, tries) + EventsOf(w, ns[index], index));
      tries := tries + [t];
      if !ok {
        failed := true;
        tries := SkipRest(w, ns, begin, end, index, tries);
        return;
      }
      index := index + 1;
    }
  }

  lemma OneWithin(w: World, ns: seq<Pending>, i: nat)
    requires AllWithin(w, ns) && i < |ns|
    ensures ns[i].offset + ns[i].length <= |w.data|
  {
  }

  lemma NoneFailed(ns: seq<Pending>, before: seq<Try>, tries: seq<Try>, begin: nat, end: nat)
    requires begin <= |tries| < end <= |ns| && |before| == begin && before <= tries
    requires forall i, j | 0 <= i < begin <= j < end :: !SameHost(ns[i].address, ns[j].address)
    requires forall i | begin <= i < |tries| :: tries[i] == Tried(Delivered)
    ensures !exists j | 0 <= j < |tries| :: Fails(ns, tries, j, ns[|tries|].address)
  {
    hide SameHost;
  }

  /** The entries of the group that are left are not tried. */
  ghost method SkipRest(w: World, ns: seq<Pending>, begin: nat, end: nat, failing: nat,
    before: seq<Try>) returns (tries: seq<Try>)
    requires begin <= failing < end <= |ns| && |before| == failing + 1
    requires AllWithin(w, ns) && TriesOk(ns, before) && AsGiven(w, ns, before) && before[failing] != Tried(Delivered)
    requires forall i | begin <= i < end :: SameHost(ns[begin].address, ns[i].address)
    ensures |tries| == end && before <= tries && TriesOk(ns, tries) && AsGiven(w, ns, tries)
    ensures LogOf(w, ns, tries) == LogOf(w, ns, before)
  {
    hide SameHost, LogOf, TriesOk, AsGiven, AllWithin;
    tries := before;
    while |tries| < end
      invariant failing < |tries| <= end && before <= tries && TriesOk(ns, tries) && AsGiven(w, ns, tries)
      invariant LogOf(w, ns, tries) == LogOf(w, ns, before)
    {
      SameHostJoins(ns[begin].address, ns[failing].address, ns[|tries|].address);
      assert Fails(ns, tries, failing, ns[|tries|].address);
      OneWithin(w, ns, |tries|);
      TriesOn(w, ns, tries, Skipped);
      tries := tries + [Skipped];
    }
  }

  /** The groups of all hosts, one after the other: the failure of one does not keep the next from being tried. */
  method FlushAll(outside: Outside, w: World, ns: seq<Pending>, host: text) returns (pending: bool,
    ghost tries: seq<Try>)
    requires Sorted(ns) && AllWithin(w, ns)
    modifies outside
    ensures |tries| == |ns| && TriesOk(ns, tries) && AsGiven(w, ns, tries)
    ensures outside.log == old(outside.log) + LogOf(w, ns, tries)
    ensures pending <==> HostPending(ns, tries, host)
  {
    hide SameHost, Folded, Less, Sorted, AllWithin, EventsOf, DeliveryOf;
    pending, tries := false, [];
    var begin := 0;
    ghost var start := outside.log;
    assert start + [] == start;
    while begin < |ns|
      invariant 0 <= begin <= |ns| && |tries| == begin && TriesOk(ns, tries) && AsGiven(w, ns, tries)
      invariant outside.log == start + LogOf(w, ns, tries)
      invariant forall i, j | 0 <= i < begin <= j < |ns| :: !SameHost(ns[i].address, ns[j].address)
      invariant pending <==> HostPending(ns, tries, host)
      decreases |ns| - begin
    {
      var end := GroupEnd(ns, begin);
      ghost var before := tries;
      var failed;
      failed, tries := FlushGroup(outside, w, ns, begin, end, start, before);
      var order := CompareAsciiCi(ns[begin].address, host);
      GroupPending(ns, before, tries, begin, end, host, failed);
      if failed && order == 0 { pending := true; }
      NextGroup(ns, begin, end);
      begin := end;
    }
  }

  lemma NextGroup(ns: seq<Pending>, begin: nat, end: nat)
    requires begin < end <= |ns| && forall i | begin <= i < end :: SameHost(ns[begin].address, ns[i].address)
    requires forall i, j | 0 <= i <= begin && end <= j < |ns| :: !SameHost(ns[i].address, ns[j].address)
    ensures forall i, j | 0 <= i < end <= j < |ns| :: !SameHost(ns[i].address, ns[j].address)
  {
    hide SameHost;
    forall i, j | 0 <= i < end <= j < |ns| ensures !SameHost(ns[i].address, ns[j].address) {
      if i > begin { SameHostJoins(ns[begin].address, ns[i].address, ns[j].address); }
    }
  }

  lemma GroupPending(ns: seq<Pending>, before: seq<Try>, tries: seq<Try>, begin: nat, end: nat, host: text,
    failed: bool)
    requires begin < end == |tries| <= |ns| && |before| == begin && before <= tries
    requires forall i | begin <= i < end :: SameHost(ns[begin].address, ns[i].address)
    requires failed <==> exists i | begin <= i < end :: tries[i] != Tried(Delivered)
    ensures HostPending(ns, tries, host) <==>
      HostPending(ns, before, host) || (failed && SameHost(ns[begin].address, host))
  {
    hide SameHost;
    forall i | 0 <= i < begin ensures Fails(ns, tries, i, host) == Fails(ns, before, i, host) {}
    forall i | begin <= i < end ensures Fails(ns, tries, i, host) <==>
      SameHost(ns[begin].address, host) && tries[i] != Tried(Delivered) {
      SameHostJoins(ns[begin].address, ns[i].address, host);
    }
  }

  /** What has been removed of a host is the start of its group. */
  lemma RemovedIsPrefix(ns: seq<Pending>, tries: seq<Try>, i: nat, j: nat)
    requires |tries| == |ns| && TriesOk(ns, tries) && j < i < |ns|
    requires tries[i] == Tried(Delivered) && SameHost(ns[j].address, ns[i].address)
    ensures tries[j] == Tried(Delivered)
  {
    hide SameHost;
    assert !Fails(ns, tries, j, ns[i].address);
  }

  /** A host is tried whatever becomes of the others. */
  lemma FirstIsTried(ns: seq<Pending>, tries: seq<Try>, i: nat)
    requires |tries| == |ns| && TriesOk(ns, tries) && i < |ns|
    requires forall j | 0 <= j < i :: !SameHost(ns[j].address, ns[i].address)
    ensures tries[i].Tried?
  {
    hide SameHost;
  }

  /** Every removal comes directly after the acknowledged post of the same notification to its own server. */
  lemma {:induction false} RemovedAfterAcknowledged(w: World, ns: seq<Pending>, tries: seq<Try>,
    k: nat) returns (i: nat)
    requires |tries| <= |ns| && AllWithin(w, ns) && k < |LogOf(w, ns, tries)| && LogOf(w, ns, tries)[k].RemovalTried?
    ensures i < |tries| && tries[i].Tried? && BodyOf(w, ns[i]).Some? && k > 0
    ensures LogOf(w, ns, tries)[k - 1] == Posted(ns[i].address, BodyOf(w, ns[i]).value, true)
    ensures LogOf(w, ns, tries)[k] == RemovalTried(ns[i].sequence, w.answers(i).removed)
  {
    hide BodyOf;
    var last := |tries| - 1;
    var front := LogOf(w, ns, tries[..last]);
    if k < |front| { i := RemovedAfterAcknowledged(w, ns, tries[..last], k); } else { i := last; }
  }

  /** Nothing is removed but right behind an acknowledged post. */
  lemma {:induction false} LogIsOrderly(w: World, ns: seq<Pending>, tries: seq<Try>)
    requires |tries| <= |ns| && AllWithin(w, ns)
    ensures Orderly(LogOf(w, ns, tries))
  {
    hide Orderly, EventsOf;
    if tries == [] {
      NothingIsOrderly();
    } else {
      var last := |tries| - 1;
      LogIsOrderly(w, ns, tries[..last]);
      if tries[last].Tried? { OrderlyOn(LogOf(w, ns, tries[..last]), w, ns[last], last); }
      assert LogOf(w, ns, tries[..last]) + [] == LogOf(w, ns, tries[..last]);
    }
  }

  /** An entry counts as delivered if and only if it has been posted, that was acknowledged, and it has been removed. */
  lemma DeliveredMeans(w: World, p: Pending, i: nat)
    requires p.offset + p.length <= |w.data|
    ensures DeliveryOf(w, p, i) == Delivered <==> InFull(w, p, i)
  {
    hide BodyOf;
    if BodyOf(w, p).Some? {
      var e := EventsOf(w, p, i);
      assert e[0] == Posted(p.address, BodyOf(w, p).value, w.answers(i).acknowledged);
      assert w.answers(i).acknowledged ==> e[1] == RemovalTried(p.sequence, w.answers(i).removed);
    }
  }

  predicate InFull(w: World, p: Pending, i: nat)
    requires p.offset + p.length <= |w.data|
  {
    && BodyOf(w, p).Some?
    && EventsOf(w, p, i) == [Posted(p.address, BodyOf(w, p).value, true), RemovalTried(p.sequence, true)]
  }

  /** What counts as delivered stands in the log: its post with the acknowledgement, and its removal. */
  lemma {:induction false} DeliveredInLog(w: World, ns: seq<Pending>, tries: seq<Try>, i: nat) returns (k: nat)
    requires |tries| <= |ns| && AllWithin(w, ns) && AsGiven(w, ns, tries) && i < |tries| && tries[i] == Tried(Delivered)
    ensures BodyOf(w, ns[i]).Some? && 0 < k < |LogOf(w, ns, tries)|
    ensures LogOf(w, ns, tries)[k - 1] == Posted(ns[i].address, BodyOf(w, ns[i]).value, true)
    ensures LogOf(w, ns, tries)[k] == RemovalTried(ns[i].sequence, true)
  {
    hide BodyOf, EventsOf, DeliveryOf;
    var last := |tries| - 1;
    var front := LogOf(w, ns, tries[..last]);
    OneWithin(w, ns, i);
    DeliveredMeans(w, ns[i], i);
    if i < last {
      k := DeliveredInLog(w, ns, tries[..last], i);
    } else {
      k := |front| + 1;
    }
  }

  lemma NothingIsOrderly()
    ensures Orderly([])
  {
  }

  lemma {:induction false} ReadWithin(data: seq<byte>, spans: seq<Span>, read: Reader)
    requires forall s | s in spans :: s.offset <= s.End() <= |data|
    ensures ReadAll(data, spans, read).Some? ==>
      forall p | p in ReadAll(data, spans, read).value :: p.offset + p.length <= |data|
  {
    if spans != [] { ReadWithin(data, spans[1..], read); }
  }

  lemma ListedWithin(w: World, offset: nat, end: nat, read: Reader)
    requires offset <= end <= |w.data| && Listed(w.data, offset, end, read).Some?
    ensures AllWithin(w, Listed(w.data, offset, end, read).value)
  {
    hide Entries, ReadAll;
    EntriesWithin(w.data, offset, end);
    ReadWithin(w.data, Entries(w.data, offset, end).value, read);
  }

  /** In a sorted list without repetition the sequence numbers of a host ascend. */
  lemma SequencesAscend(ns: seq<Pending>, i: nat, j: nat)
    requires Sorted(ns) && !HasRepeat(ns) && i < j < |ns| && SameHost(ns[i].address, ns[j].address)
    ensures ns[i].sequence < ns[j].sequence
  {
    hide Less, Folded;
    LessIsOrder(Folded(ns[i].address), Folded(ns[i].address), Folded(ns[i].address));
    assert !SameKey(ns[i], ns[j]) && !Before(ns[j], ns[i]);
    SameHostJoins(ns[i].address, ns[j].address, ns[i].address);
  }

  // ----- the whole flush -----

  /**
   * No server is contacted unless every entry can be read and no host has a sequence number twice. Then all are
   * tried in order, nothing is removed but right after it was acknowledged, and success is reported exactly if
   * nothing of the current host is left.
   */
  method RecoverNotifications(outside: Outside, retrieved: bool, w: World, offset: nat, length: nat, host: text,
    read: Reader)
    returns (status: Status, ghost ns: seq<Pending>, ghost tries: seq<Try>)
    modifies outside
    ensures status == CardFailed <==> !retrieved
    ensures status in {CardFailed, ProtocolFailed} ==> outside.log == old(outside.log)
    ensures retrieved ==>
      && (status == ProtocolFailed <==>
        offset + length > |w.data| || Listed(w.data, offset, offset + length, read).None?
        || HasRepeat(Listed(w.data, offset, offset + length, read).value))
      && (status in {Flushed, StillPending} ==>
        && multiset(ns) == multiset(Listed(w.data, offset, offset + length, read).value)
        && Sorted(ns) && !HasRepeat(ns) && AllWithin(w, ns)
        && |tries| == |ns| && TriesOk(ns, tries) && AsGiven(w, ns, tries)
        && outside.log == old(outside.log) + LogOf(w, ns, tries) && Orderly(LogOf(w, ns, tries))
        && (status == StillPending <==> HostPending(ns, tries, host)))
  {
    hide Sorted, HasRepeat, TriesOk, AsGiven, LogOf, HostPending, Entries, ReadAll, AllWithin, Orderly;
    ns, tries := [], [];
    if !retrieved { return CardFailed, ns, tries; }
    if offset > |w.data| || length > |w.data| - offset { return ProtocolFailed, ns, tries; }
    var end := offset + length;
    var counted := CountEntries(w.data, offset, end);
    if !counted { return ProtocolFailed, ns, tries; }
    var got, list := ReadEntries(w.data, offset, end, read);
    if !got { return ProtocolFailed, ns, tries; }
    ListedWithin(w, offset, end, read);
    var notifications := new Pending[|list|](i requires 0 <= i < |list| => list[i]);
    assert notifications[..] == list;
    SortInPlace(notifications);
    var sorted := notifications[..];
    SameWithin(w, list, sorted);
    var repeated := FindRepeat(sorted);
    if HasRepeat(sorted) { RepeatOfPermutation(sorted, list); }
    if HasRepeat(list) { RepeatOfPermutation(list, sorted); }
    if repeated { return ProtocolFailed, ns, tries; }
    ns := sorted;
    var pending;
    pending, tries := FlushAll(outside, w, sorted, host);
    LogIsOrderly(w, ns, tries);
    status := if pending then StillPending else Flushed;
  }

  lemma SameWithin(w: World, a: seq<Pending>, b: seq<Pending>)
    requires AllWithin(w, a) && multiset(a) == multiset(b)
    ensures AllWithin(w, b)
  {
    forall p | p in b ensures p.offset + p.length <= |w.data| {
      assert p in multiset(b);
      assert p in a;
    }
  }
}
