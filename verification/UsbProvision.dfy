/**
 * Provisioning over the USB recovery link. The task that serves the link and the worker that stores
 * credentials share a few variables; they are steps of one machine, interleaved in any way.
 */
module UsbProvision {
  import opened Bytes
  import opened ConfigTypes
  import opened UsbFrames
  import Wire = ConfigWire

  const MAX_WIFI_SSID_BYTES := 31
  const MAX_WIFI_PASSWORD_BYTES := 63

  datatype Status = Ok | InvalidArg | NotFound | InvalidState | Timeout | NoMem | Busy | NotReady | Internal

  datatype Credentials = Credentials(ssid: text, password: text)

  // ----- credentials -----

  predicate Printable(b: byte) { 0x20 <= b <= 0x7E }

  predicate CredentialsValid(c: Credentials) {
    && 0 < |c.ssid| <= MAX_WIFI_SSID_BYTES && NoNul(c.ssid)
    && (c.password == [] || 8 <= |c.password| <= MAX_WIFI_PASSWORD_BYTES)
    && forall i | 0 <= i < |c.password| :: Printable(c.password[i])
  }

  function EncodeCredentials(c: Credentials): seq<byte>
    requires CredentialsValid(c)
  {
    [|c.ssid|, |c.password|] + c.ssid + c.password
  }

  function ParseCredentials(payload: seq<byte>, offset: nat): (r: Option<Credentials>) {
    if |payload| < offset + 2 then None else
      var n, m := payload[offset], payload[offset + 1];
      if n == 0 || n > MAX_WIFI_SSID_BYTES || (m != 0 && m < 8) || m > MAX_WIFI_PASSWORD_BYTES
        || offset + 2 + n + m != |payload| then None
      else
        var c := Credentials(payload[offset + 2..offset + 2 + n], payload[offset + 2 + n..]);
        if 0 in c.ssid || exists i | 0 <= i < |c.password| :: !Printable(c.password[i]) then None else Some(c)
  }

  /** A payload is read as credentials exactly when it is those credentials, written after what comes before. */
  lemma CredentialsRead(payload: seq<byte>, offset: nat, c: Credentials)
    ensures ParseCredentials(payload, offset) == Some(c)
       <==> CredentialsValid(c) && offset <= |payload| && payload[offset..] == EncodeCredentials(c)
  {
    if CredentialsValid(c) && offset <= |payload| && payload[offset..] == EncodeCredentials(c) {
      var s := payload[offset..];
      assert payload[offset] == s[0] && payload[offset + 1] == s[1];
      assert payload[offset + 2..offset + 2 + |c.ssid|] == s[2..2 + |c.ssid|] == c.ssid;
      assert payload[offset + 2 + |c.ssid|..] == s[2 + |c.ssid|..] == c.password;
    }
    if ParseCredentials(payload, offset) == Some(c) {
      var s, n := payload[offset..], payload[offset];
      assert s == [s[0], s[1]] + s[2..2 + n] + s[2 + n..];
      assert c.ssid == s[2..2 + n] && c.password == s[2 + n..];
    }
  }

  // ----- the machine -----

  datatype Request = Request(nonce: nat, credentials: Credentials)

  datatype Progress = Idle | Pending | SetupStarted | Failed

  datatype Connection = Unknown | Starting | GaveUp

  /** Where the task that serves the link is. */
  datatype UsbTask =
    | Listening
    | AsyncEntered(nonce: nat, payload: seq<byte>)
    | AsyncParsing(nonce: nat, payload: seq<byte>)
    | AsyncCommitting(request: Request)
    | LegacyEntered(payload: seq<byte>)
    | LegacyParsing(payload: seq<byte>)
    | LegacySaving(credentials: Credentials)
    | LegacyConnecting(credentials: Credentials)
    | Replying(status: Status, notify: bool)
    | Notifying

  datatype Worker =
    | NoWorker
    | Taking
    | Woken
    | Saving(request: Request)
    | Connecting(request: Request)
    | Finishing(request: Request, error: Option<Status>)

  /** The shared variables and the frame in hand, and everything that has been done so far. */
  datatype State = State(
    usb: UsbTask, worker: Worker,
    request: Option<Request>, nonce: nat, progress: Progress, connection: Connection, error: Status,
    notifications: nat, frame: Frame,
    accepted: seq<Request>, executed: seq<Request>, outcomes: seq<Option<Status>>,
    saved: seq<Credentials>, connected: seq<Credentials>)

  const START := State(Listening, NoWorker, None, 0, Idle, Unknown, Ok, 0, Frame(0, 0, []), [], [], [], [], [])

  /** What the environment decides for a step. */
  datatype Action =
    | Arrive(frame: Frame)
    | UsbStep(memory: bool, error: Option<Status>)
    | WorkerStep(error: Option<Status>)

  /** What `map_error` makes of a call that has failed. */
  predicate ErrorOk(e: Option<Status>) { e.Some? ==> e.value !in {Ok, Busy, NotReady} }

  function ReadNonce(payload: seq<byte>): nat
    requires |payload| >= 8
  {
    Wire.FromLittle(payload[..8])
  }

  function Received(s: State, f: Frame): State
    requires s.usb.Listening?
  {
    if f.command == WIFI_PROVISION then s.(frame := f, usb := LegacyEntered(f.payload))
    else if f.command == WIFI_PROVISION_ASYNC then
      if |f.payload| < 10 || ReadNonce(f.payload) == 0 then s.(frame := f, usb := Replying(InvalidArg, false))
      else s.(frame := f, usb := AsyncEntered(ReadNonce(f.payload), f.payload))
    else s
  }

  /** The first look at the shared variables: a retry of the latest request is answered, not taken. */
  function AfterLook(s: State): State
    requires s.usb.AsyncEntered?
  {
    if s.progress == Pending then s.(usb := Replying(if s.nonce == s.usb.nonce then Ok else Busy, false))
    else if s.progress in {SetupStarted, Failed} && s.nonce == s.usb.nonce then
      s.(usb := Replying(if s.progress == SetupStarted then Ok else s.error, false))
    else s.(usb := AsyncParsing(s.usb.nonce, s.usb.payload))
  }

  function AfterParse(s: State, memory: bool): State
    requires s.usb.AsyncParsing?
  {
    if !memory then s.(usb := Replying(NoMem, false)) else
      match ParseCredentials(s.usb.payload, 8)
      case None => s.(usb := Replying(InvalidArg, false))
      case Some(c) => s.(usb := AsyncCommitting(Request(s.usb.nonce, c)))
  }

  /** The second look, which takes the request. */
  function AfterCommit(s: State, memory: bool): State
    requires s.usb.AsyncCommitting?
  {
    var r := s.usb.request;
    if s.progress == Pending then s.(usb := Replying(if s.nonce == r.nonce then Ok else Busy, false))
    else if s.worker == NoWorker && !memory then s.(usb := Replying(NoMem, false))
    else s.(
      usb := Replying(Ok, true), worker := if s.worker == NoWorker then Taking else s.worker,
      request := Some(r), nonce := r.nonce, progress := Pending, connection := Starting, error := Ok,
      accepted := s.accepted + [r])
  }

  function AfterUsb(s: State, memory: bool, error: Option<Status>): State
    requires !s.usb.Listening?
  {
    match s.usb
    case AsyncEntered(_, _) => AfterLook(s)
    case AsyncParsing(_, _) => AfterParse(s, memory)
    case AsyncCommitting(_) => AfterCommit(s, memory)
    case LegacyEntered(payload) =>
      s.(usb := if s.progress == Pending then Replying(Busy, false) else LegacyParsing(payload))
    case LegacyParsing(payload) =>
      (match ParseCredentials(payload, 0)
       case None => s.(usb := Replying(InvalidArg, false))
       case Some(c) => s.(usb := LegacySaving(c)))
    case LegacySaving(c) =>
      (match error
       case None => s.(usb := LegacyConnecting(c), saved := s.saved + [c])
       case Some(e) => s.(usb := Replying(e, false)))
    case LegacyConnecting(c) =>
      (match error
       case None => s.(usb := Replying(Ok, false), connected := s.connected + [c])
       case Some(e) => s.(usb := Replying(e, false)))
    case Replying(_, notify) => s.(usb := if notify then Notifying else Listening)
    case Notifying => s.(usb := Listening, notifications := s.notifications + 1)
    case Listening => s
  }

  function AfterWorker(s: State, error: Option<Status>): State {
    match s.worker
    case NoWorker => s
    case Taking => if s.notifications == 0 then s else s.(worker := Woken, notifications := 0)
    case Woken =>
      (match s.request
       case None => s.(worker := Taking)
       case Some(r) => s.(worker := Saving(r), executed := s.executed + [r]))
    case Saving(r) =>
      (match error
       case None => s.(worker := Connecting(r), saved := s.saved + [r.credentials])
       case Some(e) => s.(worker := Finishing(r, Some(e))))
    case Connecting(r) =>
      s.(worker := Finishing(r, error), connected := s.connected + if error.None? then [r.credentials] else [])
    case Finishing(r, e) =>
      s.(worker := Taking, request := None,
         progress := if e.None? then SetupStarted else Failed,
         connection := if e.None? then Starting else GaveUp,
         error := if e.None? then Ok else e.value,
         outcomes := s.outcomes + [e])
  }

  predicate Enabled(s: State, a: Action) {
    match a
    case Arrive(_) => s.usb.Listening?
    case UsbStep(_, error) => !s.usb.Listening? && ErrorOk(error)
    case WorkerStep(error) => ErrorOk(error)
  }

  function Step(s: State, a: Action): State
    requires Enabled(s, a)
  {
    match a
    case Arrive(f) => Received(s, f)
    case UsbStep(memory, error) => AfterUsb(s, memory, error)
    case WorkerStep(error) => AfterWorker(s, error)
  }

  // ----- what every interleaving keeps -----

  /** The worker is at work on a request. */
  predicate Executing(w: Worker) { w.Saving? || w.Connecting? || w.Finishing? }

  function Latest(s: seq<Request>): Request
    requires s != []
  {
    s[|s| - 1]
  }

  predicate NoncesDiffer(s: seq<Request>) {
    (forall i | 0 <= i < |s| :: s[i].nonce != 0) && forall i | 0 < i < |s| :: s[i - 1].nonce != s[i].nonce
  }

  /** A request is stored exactly while one is pending, and it is the one that was accepted last. */
  predicate StoredOk(s: State) {
    && (s.request.Some? <==> s.progress == Pending)
    && (s.progress == Idle <==> s.accepted == [])
    && (s.accepted != [] ==> s.nonce == Latest(s.accepted).nonce)
    && (s.request.Some? ==> s.accepted != [] && s.request.value == Latest(s.accepted))
    && NoncesDiffer(s.accepted)
  }

  /** Every accepted request has been executed once, but for the one that is pending. */
  predicate ExecutedOk(s: State) {
    && (Executing(s.worker) ==> s.request == Some(s.worker.request) && s.executed == s.accepted)
    && (!Executing(s.worker) && s.progress == Pending ==>
      s.request.Some? && s.accepted == s.executed + [s.request.value])
    && (s.progress != Pending ==> s.executed == s.accepted)
    && |s.outcomes| == |s.executed| - (if Executing(s.worker) then 1 else 0)
  }

  /** What a status query would be told is how the latest request ended. */
  predicate ReportOk(s: State) {
    && (s.progress in {SetupStarted, Failed} ==>
      s.outcomes != [] && |s.outcomes| == |s.accepted| && ErrorOk(s.outcomes[|s.outcomes| - 1]))
    && (s.progress == SetupStarted ==>
      s.outcomes[|s.outcomes| - 1] == None && s.error == Ok && s.connection == Starting)
    && (s.progress == Failed ==>
      s.outcomes[|s.outcomes| - 1] == Some(s.error) && s.error != Ok && s.connection == GaveUp)
    && (s.progress == Pending ==> s.error == Ok && s.connection == Starting)
    && (s.worker.Finishing? ==> ErrorOk(s.worker.error))
  }

  /** How many wake-ups are on their way to the worker. */
  function WakeUps(s: State): nat {
    s.notifications + (if s.usb == Notifying || (s.usb.Replying? && s.usb.notify) then 1 else 0)
      + (if s.worker == Woken then 1 else 0)
  }

  /** No wake-up is lost, and none is given twice. */
  predicate WakeOk(s: State) {
    && WakeUps(s) == (if s.progress == Pending && !Executing(s.worker) then 1 else 0)
    && (s.worker == NoWorker ==> s.progress == Idle)
  }

  /**
   * Past its look at the shared variables the link's task knows that
   * nothing is pending, as it is the one that makes it so.
   */
  predicate UsbOk(s: State) {
    && (s.usb.AsyncEntered? ==> s.usb.nonce != 0)
    && (s.usb.AsyncParsing? ==>
      s.progress != Pending && s.usb.nonce != 0 && (s.accepted != [] ==> s.usb.nonce != s.nonce))
    && (s.usb.AsyncCommitting? ==>
      s.progress != Pending && s.usb.request.nonce != 0 && (s.accepted != [] ==> s.usb.request.nonce != s.nonce))
    && (s.usb.LegacyParsing? || s.usb.LegacySaving? || s.usb.LegacyConnecting? ==> s.progress != Pending)
  }

  /** A request for credentials under a nonce, and how long it must be at least. */
  predicate Asks(f: Frame) { f.command == WIFI_PROVISION_ASYNC && |f.payload| >= 10 && ReadNonce(f.payload) != 0 }

  /** What the link's task works on is what the frame in hand says. */
  predicate FrameOk(s: State) {
    match s.usb
    case AsyncEntered(n, p) => Asks(s.frame) && p == s.frame.payload && n == ReadNonce(p)
    case AsyncParsing(n, p) => Asks(s.frame) && p == s.frame.payload && n == ReadNonce(p)
    case AsyncCommitting(r) => Asks(s.frame) && Asked(s.frame) == Some(r)
    case LegacyEntered(p) => s.frame.command == WIFI_PROVISION && p == s.frame.payload
    case LegacyParsing(p) => s.frame.command == WIFI_PROVISION && p == s.frame.payload
    case LegacySaving(c) => s.frame.command == WIFI_PROVISION && ParseCredentials(s.frame.payload, 0) == Some(c)
    case LegacyConnecting(c) => s.frame.command == WIFI_PROVISION && ParseCredentials(s.frame.payload, 0) == Some(c)
    case _ => true
  }

  /** The request in a frame, if its credentials can be read. */
  function Asked(f: Frame): Option<Request>
    requires Asks(f)
  {
    match ParseCredentials(f.payload, 8)
    case None => None
    case Some(c) => Some(Request(ReadNonce(f.payload), c))
  }

  predicate Last(s: seq<Credentials>, c: Credentials) { s != [] && s[|s| - 1] == c }

  /** Behind a save that went well, and behind a connection that did, nobody else comes in between. */
  predicate DoneOk(s: State) {
    && (s.usb.LegacyConnecting? ==> Last(s.saved, s.usb.credentials))
    && (s.worker.Connecting? ==> Last(s.saved, s.worker.request.credentials))
    && (s.worker.Finishing? && s.worker.error.None? ==>
      Last(s.saved, s.worker.request.credentials) && Last(s.connected, s.worker.request.credentials))
  }

  predicate Inv(s: State) {
    StoredOk(s) && ExecutedOk(s) && ReportOk(s) && WakeOk(s) && UsbOk(s) && FrameOk(s) && DoneOk(s)
  }

  lemma Starts()
    ensures Inv(START)
  {
  }

  lemma CommitKeeps(s: State, memory: bool)
    requires Inv(s) && s.usb.AsyncCommitting?
    ensures Inv(AfterCommit(s, memory))
  {
  }

  /** The link's task, but for the step that takes a request, leaves the variables that it shares alone. */
  lemma UsbAside(s: State, t: State)
    requires t == s.(usb := t.usb, frame := t.frame, notifications := t.notifications, saved := t.saved,
      connected := t.connected)
    ensures StoredOk(t) == StoredOk(s) && ExecutedOk(t) == ExecutedOk(s) && ReportOk(t) == ReportOk(s)
  {
    hide NoncesDiffer, Executing;
  }

  lemma UsbKeeps(s: State, memory: bool, error: Option<Status>)
    requires Inv(s) && !s.usb.Listening? && ErrorOk(error)
    ensures Inv(AfterUsb(s, memory, error))
  {
    hide ParseCredentials, StoredOk, ExecutedOk, ReportOk, AfterCommit;
    if s.usb.AsyncCommitting? {
      CommitKeeps(s, memory);
    } else {
      assert s.usb.AsyncEntered? && s.progress == Idle ==> s.accepted == [] by { IdleIsFresh(s); }
      UsbAside(s, AfterUsb(s, memory, error));
      if LegacyAtWork(s.usb) { LegacyAlone(s); }
    }
  }

  lemma IdleIsFresh(s: State)
    requires StoredOk(s)
    ensures s.progress == Idle <==> s.accepted == []
  {
    hide NoncesDiffer;
  }

  predicate LegacyAtWork(u: UsbTask) { u.LegacySaving? || u.LegacyConnecting? }

  /** The worker saves nothing while the link's task does. */
  lemma LegacyAlone(s: State)
    requires StoredOk(s) && ExecutedOk(s) && UsbOk(s) && LegacyAtWork(s.usb)
    ensures !Executing(s.worker)
  {
    hide NoncesDiffer;
  }

  lemma WorkerKeeps(s: State, error: Option<Status>)
    requires Inv(s) && ErrorOk(error)
    ensures Inv(AfterWorker(s, error))
  {
  }

  lemma StepKeeps(s: State, a: Action)
    requires Inv(s) && Enabled(s, a)
    ensures Inv(Step(s, a))
  {
    hide AfterUsb, AfterWorker, StoredOk, ExecutedOk, ReportOk, Wire.FromLittle;
    match a
    case Arrive(f) => ArriveKeeps(s, f);
    case UsbStep(memory, error) => UsbKeeps(s, memory, error);
    case WorkerStep(error) => WorkerKeeps(s, error);
  }

  lemma ArriveKeeps(s: State, f: Frame)
    requires Inv(s) && s.usb.Listening?
    ensures Inv(Received(s, f))
  {
    hide Wire.FromLittle, StoredOk, ExecutedOk, ReportOk;
    UsbAside(s, Received(s, f));
  }

  // ----- runs -----

  /** A run: each step is one that is enabled. */
  predicate Run(s: State, actions: seq<Action>)
    decreases |actions|
  {
    actions == [] || (Enabled(s, actions[0]) && Run(Step(s, actions[0]), actions[1..]))
  }

  function After(s: State, actions: seq<Action>): State
    requires Run(s, actions)
    decreases |actions|
  {
    if actions == [] then s else After(Step(s, actions[0]), actions[1..])
  }

  lemma {:induction false} RunKeeps(s: State, actions: seq<Action>)
    requires Inv(s) && Run(s, actions)
    ensures Inv(After(s, actions))
    decreases |actions|
  {
    hide Inv, Enabled, Step;
    if actions != [] {
      StepKeeps(s, actions[0]);
      RunKeeps(Step(s, actions[0]), actions[1..]);
    }
  }

  /**
   * In every run a request is stored exactly while the state is pending,
   * and accepted requests are executed once each, in order.
   */
  lemma ExecutedOnce(actions: seq<Action>)
    requires Run(START, actions)
    ensures var s := After(START, actions);
            && (s.request.Some? <==> s.progress == Pending)
            && s.executed <= s.accepted && |s.accepted| <= |s.executed| + 1
            && (s.progress != Pending ==> s.executed == s.accepted && |s.outcomes| == |s.accepted|)
            && NoncesDiffer(s.accepted)
  {
    hide Run, After, NoncesDiffer;
    Starts();
    RunKeeps(START, actions);
  }

  /** In every run the link's own saves and those of the worker exclude each other. */
  lemma SavesExclude(actions: seq<Action>)
    requires Run(START, actions)
    ensures var s := After(START, actions); !(LegacyAtWork(s.usb) && Executing(s.worker))
  {
    hide Run, After, NoncesDiffer;
    Starts();
    RunKeeps(START, actions);
  }

  /** The check that is made again when a request is taken never finds another one pending. */
  lemma SecondLookAgrees(actions: seq<Action>)
    requires Run(START, actions) && After(START, actions).usb.AsyncCommitting?
    ensures After(START, actions).progress != Pending
  {
    hide Run, After, NoncesDiffer;
    Starts();
    RunKeeps(START, actions);
  }

  /** A retry of the latest request is answered with how that one stands, and changes nothing else. */
  lemma RetryAnswered(s: State, memory: bool, error: Option<Status>)
    requires Inv(s) && s.usb.AsyncEntered? && s.accepted != [] && s.usb.nonce == Latest(s.accepted).nonce
    ensures AfterUsb(s, memory, error) == s.(usb := Replying(if s.progress == Failed then s.error else Ok, false))
    ensures s.progress == Failed ==> s.outcomes[|s.outcomes| - 1] == Some(s.error)
  {
    hide NoncesDiffer;
  }

  /** The step from `s` to `t` answers the frame in hand. */
  predicate Answers(s: State, t: State) { !s.usb.Replying? && t.usb.Replying? }

  /** A request under the nonce of the latest one, which has been executed. */
  predicate Repeated(s: State, f: Frame)
    requires Asks(f)
  {
    s.progress in {SetupStarted, Failed} && s.nonce == ReadNonce(f.payload)
  }

  /**
   * What an asynchronous request is answered. Ok: one with its nonce is the latest that has been accepted, and it has
   * not failed. Busy: another one is pending. It is accepted, as it was asked for, exactly with the answer Ok that
   * wakes the worker.
   */
  predicate RightAnswer(s: State, t: State, memory: bool)
    requires t.usb.Replying?
  {
    var f, st := t.frame, t.usb.status;
    && (st == Ok ==> (Asks(f) && t.accepted != [] && Latest(t.accepted).nonce == ReadNonce(f.payload)
      && t.progress in {Pending, SetupStarted}))
    && (st == Busy <==>
      Asks(f) && s.progress == Pending && s.accepted != [] && Latest(s.accepted).nonce != ReadNonce(f.payload))
    && (st == InvalidArg <==>
      || !Asks(f)
      || (Repeated(s, f) && s.progress == Failed && s.error == InvalidArg)
      || (!Repeated(s, f) && s.progress != Pending && Asked(f).None? && memory))
    && (t.accepted != s.accepted <==> st == Ok && t.usb.notify)
    && (t.accepted != s.accepted ==> Asks(f) && Asked(f).Some? && t.accepted == s.accepted + [Asked(f).value])
    && (st in {Ok, Busy, InvalidArg} || (st == NoMem && !memory)
      || (Asks(f) && Repeated(s, f) && s.progress == Failed && st == s.error))
  }

  lemma StepAnswers(s: State, memory: bool, error: Option<Status>)
    requires Inv(s) && !s.usb.Listening? && ErrorOk(error) && s.frame.command == WIFI_PROVISION_ASYNC
    requires Answers(s, AfterUsb(s, memory, error))
    ensures RightAnswer(s, AfterUsb(s, memory, error), memory)
  {
    hide NoncesDiffer, ExecutedOk, WakeOk, ParseCredentials, ReadNonce, RightAnswer, DoneOk;
    if s.usb.AsyncEntered? {
      LookAnswers(s);
    } else if s.usb.AsyncParsing? {
      ParseAnswers(s, memory);
    } else {
      assert s.usb.AsyncCommitting?;
      CommitAnswers(s, memory);
    }
  }

  lemma LookAnswers(s: State)
    requires Inv(s) && s.usb.AsyncEntered? && AfterLook(s).usb.Replying?
    ensures RightAnswer(s, AfterLook(s), true) && RightAnswer(s, AfterLook(s), false)
  {
    hide NoncesDiffer, ExecutedOk, WakeOk, ParseCredentials, ReadNonce, DoneOk;
  }

  lemma ParseAnswers(s: State, memory: bool)
    requires Inv(s) && s.usb.AsyncParsing? && AfterParse(s, memory).usb.Replying?
    ensures RightAnswer(s, AfterParse(s, memory), memory)
  {
    hide NoncesDiffer, ExecutedOk, WakeOk, ParseCredentials, ReadNonce, DoneOk, ReportOk;
  }

  lemma CommitAnswers(s: State, memory: bool)
    requires Inv(s) && s.usb.AsyncCommitting?
    ensures AfterCommit(s, memory).usb.Replying? && RightAnswer(s, AfterCommit(s, memory), memory)
  {
    hide NoncesDiffer, ExecutedOk, WakeOk, ParseCredentials, ReadNonce, DoneOk, ReportOk;
  }

  /** Every answer to an asynchronous request, in every run. */
  lemma RequestAnswered(actions: seq<Action>, a: Action)
    requires Run(START, actions) && Enabled(After(START, actions), a)
    requires var s := After(START, actions); Answers(s, Step(s, a)) && Step(s, a).frame.command == WIFI_PROVISION_ASYNC
    ensures RightAnswer(After(START, actions), Step(After(START, actions), a), !a.UsbStep? || a.memory)
  {
    hide Run, After, Inv, AfterUsb, RightAnswer, ReadNonce;
    Starts();
    RunKeeps(START, actions);
    var s := After(START, actions);
    if a.UsbStep? {
      FrameStays(s, a.memory, a.error);
      StepAnswers(s, a.memory, a.error);
    } else {
      FirstLook(s, a);
    }
  }

  lemma FrameStays(s: State, memory: bool, error: Option<Status>)
    requires !s.usb.Listening?
    ensures AfterUsb(s, memory, error).frame == s.frame
  {
    hide ParseCredentials;
  }

  /** A frame that is answered as soon as it comes. */
  lemma FirstLook(s: State, a: Action)
    requires Enabled(s, a) && !a.UsbStep? && Answers(s, Step(s, a)) && Step(s, a).frame.command == WIFI_PROVISION_ASYNC
    ensures RightAnswer(s, Step(s, a), true)
  {
    hide ReadNonce;
  }

  /**
   * In every run, what the link's own provisioning is answered: Ok only when exactly these credentials have been saved
   * and connected with, and Busy only because a request is pending. It accepts nothing.
   */
  lemma LegacyAnswered(actions: seq<Action>, a: Action)
    requires Run(START, actions) && Enabled(After(START, actions), a)
    requires var s := After(START, actions); Answers(s, Step(s, a)) && Step(s, a).frame.command == WIFI_PROVISION
    ensures var s := After(START, actions);
            var t := Step(s, a);
            var c := ParseCredentials(t.frame.payload, 0);
            && t.accepted == s.accepted
            && (t.usb.status == Ok ==>
              c.Some? && Last(t.saved, c.value) && t.connected == s.connected + [c.value])
            && (t.usb.status == Busy <==> s.progress == Pending)
            && (c.None? ==> t.usb.status in {Busy, InvalidArg})
  {
    hide Run, After, NoncesDiffer, ExecutedOk, ReportOk, WakeOk, ParseCredentials;
    Starts();
    RunKeeps(START, actions);
  }

  /** In every run, a request is reported as set up only behind a save of its credentials and a connection with them. */
  lemma SetUpMeansDone(actions: seq<Action>, a: Action)
    requires Run(START, actions) && Enabled(After(START, actions), a)
    requires After(START, actions).progress != SetupStarted && Step(After(START, actions), a).progress == SetupStarted
    ensures var t := Step(After(START, actions), a);
            && t.accepted != [] && Last(t.saved, Latest(t.accepted).credentials)
            && Last(t.connected, Latest(t.accepted).credentials)
  {
    hide Run, After, NoncesDiffer, ReportOk, WakeOk, UsbOk, FrameOk, ParseCredentials, ReadNonce;
    Starts();
    RunKeeps(START, actions);
  }

  /** How many steps the link's task still has to make for the frame in hand. */
  function Stages(u: UsbTask): nat {
    match u
    case Listening => 0
    case Notifying => 1
    case Replying(_, _) => 2
    case AsyncCommitting(_) => 3
    case AsyncParsing(_, _) => 4
    case AsyncEntered(_, _) => 5
    case LegacyConnecting(_) => 3
    case LegacySaving(_) => 4
    case LegacyParsing(_) => 5
    case LegacyEntered(_) => 6
  }

  /** Every request is answered: each step of the link's task leads towards the answer, and none leads past it. */
  lemma EveryOneIsAnswered(s: State, a: Action)
    requires Enabled(s, a)
    ensures a.UsbStep? ==> Stages(Step(s, a).usb) < Stages(s.usb)
    ensures Stages(s.usb) > 2 ==> Stages(Step(s, a).usb) >= 2 && Step(s, a).frame == s.frame
    ensures a.WorkerStep? ==> Step(s, a).usb == s.usb
    ensures a.Arrive? && a.frame.command in {WIFI_PROVISION, WIFI_PROVISION_ASYNC} ==>
      Stages(Step(s, a).usb) >= 2 && Step(s, a).frame == a.frame
  {
    hide ParseCredentials, ReadNonce;
  }

  /** What a status query for a nonce is answered; nothing is known of any but the latest request. */
  function StatusOf(s: State, nonce: nat): Option<(Progress, Status, Connection)> {
    if s.progress == Idle || s.nonce != nonce then None else Some((s.progress, s.error, s.connection))
  }

  /** A status is that of the latest request, and says how its execution ended once it has ended. */
  lemma StatusTells(s: State, nonce: nat)
    requires Inv(s) && StatusOf(s, nonce).Some?
    ensures s.accepted != [] && Latest(s.accepted).nonce == nonce
    ensures var r := StatusOf(s, nonce).value;
            && (r.0 == Pending <==> |s.outcomes| < |s.accepted|)
            && (r.0 == SetupStarted ==> s.outcomes[|s.accepted| - 1] == None && r.2 == Starting)
            && (r.0 == Failed ==> s.outcomes[|s.accepted| - 1] == Some(r.1) && r.1 != Ok && r.2 == GaveUp)
  {
    hide NoncesDiffer;
  }

  // ----- a pending request gets done -----

  /** The steps that still have to be made for the pending request. */
  function Remaining(s: State): nat {
    if s.progress != Pending then 0
    else if s.worker.Finishing? then 1
    else if s.worker.Connecting? then 2
    else if s.worker.Saving? then 3
    else if s.worker.Woken? then 4
    else if s.notifications > 0 then 5
    else if s.usb.Notifying? then 6
    else 7
  }

  /** It is the worker's turn. */
  predicate WorkersTurn(s: State) {
    Executing(s.worker) || s.worker.Woken? || (s.worker.Taking? && s.notifications > 0)
  }

  /**
   * While a request is pending one of the two tasks can move towards
   * its end, and no step of the other leads away from it.
   */
  lemma PendingMoves(s: State, a: Action)
    requires Inv(s) && s.progress == Pending && Enabled(s, a)
    ensures WorkersTurn(s) || s.usb.Notifying? || (s.usb.Replying? && s.usb.notify)
    ensures Remaining(Step(s, a)) <= Remaining(s)
    ensures a.WorkerStep? && WorkersTurn(s) ==> Remaining(Step(s, a)) < Remaining(s)
    ensures a.UsbStep? && !WorkersTurn(s) ==> Remaining(Step(s, a)) < Remaining(s)
  {
    hide NoncesDiffer, ParseCredentials, Wire.FromLittle, ReportOk;
  }
}
