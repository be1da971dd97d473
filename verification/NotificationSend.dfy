/**
 * Sending one pending notification: it is posted to its server, and
 * removed from the card once that has acknowledged it.
 */
module NotificationSend {
  import opened Bytes
  import opened ConfigTypes
  import opened Notifications

  const MAX_JSON_BYTES := 24 * 1024

  /** How bytes are encoded as text, taken as given; it can fail. */
  type Encoder = seq<byte> -> Option<text>

  /** What becomes of the post and of the removal of one notification, if it comes to them. */
  datatype Answer = Answer(acknowledged: bool, removed: bool)

  datatype Event = Posted(address: text, body: text, acknowledged: bool) | RemovalTried(sequence: u32, removed: bool)

  /** The list as the card returned it, and everything that is not decided here. */
  datatype World = World(data: seq<byte>, encode: Encoder, answers: nat -> Answer)

  /** The servers and the card: what they have been asked for, in order. */
  class Outside {
    var log: seq<Event>

    constructor ()
      ensures log == []
    {
      log := [];
    }

    method Post(address: text, body: text, answer: Answer) returns (ok: bool)
      modifies this
      ensures log == old(log) + [Posted(address, body, answer.acknowledged)] && ok == answer.acknowledged
    {
      log := log + [Posted(address, body, answer.acknowledged)];
      return answer.acknowledged;
    }

    method Remove(sequence: u32, answer: Answer) returns (ok: bool)
      modifies this
      ensures log == old(log) + [RemovalTried(sequence, answer.removed)] && ok == answer.removed
    {
      log := log + [RemovalTried(sequence, answer.removed)];
      return answer.removed;
    }
  }

  // ----- the request -----

  const QUOTE: text := Ascii("\"")

  function FieldName(): text { Ascii("pendingNotification") }

  function Request(name: text, value: text): text {
    Ascii("{") + QUOTE + name + Ascii("\":\"") + value + QUOTE + Ascii("}")
  }

  predicate RequestFits(name: text, value: text) { 2 + |name| + |value| + 6 <= MAX_JSON_BYTES }

  /** `make_request`, with one field. */
  method MakeRequest(name: text, value: text) returns (request: Option<text>)
    ensures request == if RequestFits(name, value) then Some(Request(name, value)) else None
  {
    var size := 2;
    size := size + |name| + |value| + 6;
    if size > MAX_JSON_BYTES { return None; }
    var json := Ascii("{");
    if |json| > 1 { json := json + Ascii(","); }
    json := json + QUOTE;
    json := json + name;
    json := json + Ascii("\":\"");
    json := json + value;
    json := json + QUOTE;
    return Some(json + Ascii("}"));
  }

  // ----- one notification -----

  /** How far one notification gets. */
  datatype Delivery = NotSent | NotAcknowledged | NotRemoved | Delivered

  function BytesOf(w: World, p: Pending): seq<byte>
    requires p.offset + p.length <= |w.data|
  {
    w.data[p.offset..p.offset + p.length]
  }

  /** The body of its post, unless there is none. */
  function BodyOf(w: World, p: Pending): Option<text>
    requires p.offset + p.length <= |w.data|
  {
    match w.encode(BytesOf(w, p))
    case None => None
    case Some(value) => if RequestFits(FieldName(), value) then Some(Request(FieldName(), value)) else None
  }

  function DeliveryOf(w: World, p: Pending, i: nat): Delivery
    requires p.offset + p.length <= |w.data|
  {
    if BodyOf(w, p).None? then NotSent
    else if !w.answers(i).acknowledged then NotAcknowledged
    else if !w.answers(i).removed then NotRemoved
    else Delivered
  }

  function EventsOf(w: World, p: Pending, i: nat): seq<Event>
    requires p.offset + p.length <= |w.data|
  {
    match BodyOf(w, p)
    case None => []
    case Some(body) =>
      [Posted(p.address, body, w.answers(i).acknowledged)]
      + if w.answers(i).acknowledged then [RemovalTried(p.sequence, w.answers(i).removed)] else []
  }

  /** The notification at place `i`: a step that fails is the last one. */
  method Notify(outside: Outside, w: World, p: Pending, i: nat) returns (ok: bool)
    requires p.offset + p.length <= |w.data|
    modifies outside
    ensures outside.log == old(outside.log) + EventsOf(w, p, i)
    ensures ok <==> DeliveryOf(w, p, i) == Delivered
  {
    var value := w.encode(w.data[p.offset..p.offset + p.length]);
    if value.None? { return false; }
    var request := MakeRequest(FieldName(), value.value);
    if request.None? { return false; }
    var answer := w.answers(i);
    var posted := outside.Post(p.address, request.value, answer);
    if !posted { return false; }
    // Only an acknowledged notification is removed; any other one stays on the card for the next time.
    ok := outside.Remove(p.sequence, answer);
  }

  // ----- the order of the log -----

  /** Every removal comes directly after an acknowledged post. */
  predicate Orderly(log: seq<Event>) {
    forall k | 0 <= k < |log| && log[k].RemovalTried? :: k > 0 && log[k - 1].Posted? && log[k - 1].acknowledged
  }

  lemma OrderlyOn(log: seq<Event>, w: World, p: Pending, i: nat)
    requires Orderly(log) && p.offset + p.length <= |w.data|
    ensures Orderly(log + EventsOf(w, p, i))
  {
    hide BodyOf;
    var all := log + EventsOf(w, p, i);
    forall k | 0 <= k < |all| && all[k].RemovalTried? ensures k > 0 && all[k - 1].Posted? && all[k - 1].acknowledged {
      if k < |log| { assert log[k].RemovalTried?; }
    }
  }
}
