/**
 * A modem at the end of a line that cannot be relied on: a command may take effect or not, whatever is
 * reported. Only a well-formed answer to a query is true, and only a confirmed closing or switching has happened.
 */
module ModemLine {
  import opened Bytes

  /** The values of one runtime parameter. */
  datatype Value = Value(first: byte, second: Option<byte>)

  datatype Parameter = Cid | Encoding | Autofree | Ssl

  datatype Config = Config(cid: Value, encoding: Value, autofree: Value, ssl: Value)

  function Get(c: Config, p: Parameter): Value {
    match p case Cid => c.cid case Encoding => c.encoding case Autofree => c.autofree case Ssl => c.ssl
  }

  function With(c: Config, p: Parameter, v: Value): Config {
    match p
    case Cid => c.(cid := v)
    case Encoding => c.(encoding := v)
    case Autofree => c.(autofree := v)
    case Ssl => c.(ssl := v)
  }

  datatype Socket = Initial | Connecting | Connected | Closed

  /** A data context: its access point, and the whole of it in the form in which it can be set again. */
  datatype Profile = Profile(apn: string, canonical: string)

  datatype Modem = Modem(config: Config, socket: Socket, active: set<byte>, profiles: map<byte, Profile>)

  datatype Command =
    | QueryState
    | CloseSocket
    | OpenSocket
    | QueryConfig(parameter: Parameter)
    | SetConfig(parameter: Parameter, value: Value)
    | QueryContexts
    | SetApn(cid: byte, apn: string)
    | SetProfile(cid: byte, canonical: string)
    | QueryActive
    | Activate(cid: byte, on: bool)

  datatype Result = CmdOk | ModemError | Failed | Timeout | OpenFailed

  datatype Reply =
    | Oversize
    | Malformed
    | Done
    | StateIs(socket: Socket)
    | CloseIs(result: u32, confirm: bool)
    | ConfigIs(value: Value)
    | ContextsAre(profiles: map<byte, Profile>)
    | ActiveAre(cids: set<byte>)

  datatype Answer = Answer(result: Result, reply: Reply, next: Modem)

  /** The socket may change by itself, but not once there is none. */
  predicate Drifts(from: Socket, to: Socket) { from == Initial ==> to == Initial }

  /** What a command can do at most. */
  predicate Effect(c: Command, s: Modem, t: Modem) {
    match c
    case CloseSocket => t == s.(socket := t.socket)
    case OpenSocket => t == s.(socket := t.socket)
    case SetConfig(p, _) => t == s.(config := With(s.config, p, Get(t.config, p)), socket := t.socket)
      && Drifts(s.socket, t.socket)
    case SetApn(cid, _) => t == s.(profiles := t.profiles, socket := t.socket)
      && t.profiles - {cid} == s.profiles - {cid} && Drifts(s.socket, t.socket)
    case SetProfile(cid, _) => t == s.(profiles := t.profiles, socket := t.socket)
      && t.profiles - {cid} == s.profiles - {cid} && Drifts(s.socket, t.socket)
    case Activate(cid, _) => t == s.(active := t.active, socket := t.socket) && t.active - {cid} == s.active - {cid}
      && Drifts(s.socket, t.socket)
    case _ => t == s.(socket := t.socket) && Drifts(s.socket, t.socket)
  }

  /** What a reported success says of the modem. */
  predicate Truthful(c: Command, reply: Reply, t: Modem) {
    match c
    case QueryState => reply.StateIs? ==> reply.socket == t.socket
    case CloseSocket => reply == CloseIs(0, false) ==> t.socket == Initial
    case QueryConfig(p) => reply.ConfigIs? ==> reply.value == Get(t.config, p)
    case QueryContexts => reply.ContextsAre? ==> reply.profiles == t.profiles
    case QueryActive => reply.ActiveAre? ==> reply.cids == t.active
    case Activate(cid, on) => reply.Done? ==> (cid in t.active) == on
    case _ => true
  }

  predicate Honest(c: Command, s: Modem, a: Answer) {
    Effect(c, s, a.next) && (a.result == CmdOk ==> Truthful(c, a.reply, a.next))
  }

  datatype Stage =
    | InitialState | RuntimeSnapshot | PdpApn | RuntimeConfig | SocketOpen | ConnectedState
    | TlsSetup | TlsHandshake | RequestWrite | ResponseRead

  datatype Outcome = RunOk | CommandFailed | TimedOut | ResponseFailed | CleanupFailed

  /** How the exchange over the connected socket ended. */
  datatype Exchange = ExchangeFailed(stage: Stage, fallback: Outcome) | Exchanged(httpStatus: int)

  /** A success is any 2xx status. */
  predicate Succeeded(e: Exchange) { e.Exchanged? && 200 <= e.httpStatus <= 299 }

  predicate ExchangeOk(e: Exchange) {
    e.ExchangeFailed? ==> e.stage in {SocketOpen, TlsSetup, TlsHandshake, RequestWrite, ResponseRead}
                          && e.fallback in {CommandFailed, TimedOut, ResponseFailed}
  }

  /** What happens on the line, and when time is up: all of it given beforehand, and any of it possible. */
  datatype Fate = Fate(answers: (nat, Command, Modem) -> Answer, late: nat -> bool, confirmed: nat -> Result,
                       exchange: nat -> Exchange, socketAfter: nat -> Socket)

  ghost predicate HonestFate(f: Fate) {
    && (forall n: nat, c: Command, s: Modem :: Honest(c, s, f.answers(n, c, s)))
    && (forall n: nat :: ExchangeOk(f.exchange(n)))
  }

  /** A modem that does what it is told, and says so; a socket that is being opened is open when it is asked for. */
  predicate Willing(c: Command, s: Modem, a: Answer) {
    && a.result == CmdOk
    && match c
       case QueryState =>
         a.next == s.(socket := if s.socket == Connecting then Connected else s.socket)
           && a.reply == StateIs(a.next.socket)
       case CloseSocket => a.next == s.(socket := Initial) && a.reply.CloseIs? && a.reply.result == 0
       case OpenSocket =>
         a.next == s.(socket := a.next.socket) && a.next.socket in {Connecting, Connected} && a.reply == Done
       case QueryConfig(p) => a.next == s && a.reply == ConfigIs(Get(s.config, p))
       case SetConfig(p, v) => a.next == s.(config := With(s.config, p, v)) && a.reply == Done
       case QueryContexts => a.next == s && a.reply == ContextsAre(s.profiles)
       case SetApn(cid, apn) =>
         cid in a.next.profiles && a.next.profiles[cid].apn == apn
         && a.next == s.(profiles := s.profiles[cid := a.next.profiles[cid]]) && a.reply == Done
       case SetProfile(cid, canonical) =>
         cid in a.next.profiles && a.next.profiles[cid].canonical == canonical
         && a.next == s.(profiles := s.profiles[cid := a.next.profiles[cid]]) && a.reply == Done
       case QueryActive => a.next == s && a.reply == ActiveAre(s.active)
       case Activate(cid, on) =>
         a.next == s.(active := if on then s.active + {cid} else s.active - {cid}) && a.reply == Done
  }

  /** Such a modem, in time, and a server that answers with success. */
  ghost predicate WillingFate(f: Fate) {
    && (forall n: nat, c: Command, s: Modem :: Willing(c, s, f.answers(n, c, s)))
    && (forall n: nat :: !f.late(n) && f.confirmed(n) == CmdOk)
    && (forall n: nat :: Succeeded(f.exchange(n)))
  }

  /** An exchange, and the modem as it was when it began. */
  datatype Talked = Talked(modem: Modem, exchange: Exchange)

  class Line {
    const fate: Fate
    var modem: Modem
    var step: nat
    ghost var talks: seq<Talked>

    constructor (fate: Fate, modem: Modem)
      ensures this.fate == fate && this.modem == modem && step == 0 && talks == []
    {
      this.fate, this.modem, step, talks := fate, modem, 0, [];
    }

    method Send(c: Command) returns (result: Result, reply: Reply)
      requires HonestFate(fate)
      modifies this`modem, this`step
      ensures step == old(step) + 1
      ensures fate.answers(old(step), c, old(modem)) == Answer(result, reply, modem)
      ensures Effect(c, old(modem), modem) && (result == CmdOk ==> Truthful(c, reply, modem))
    {
      var a := fate.answers(step, c, modem);
      assert Honest(c, modem, a);
      step, modem := step + 1, a.next;
      return a.result, a.reply;
    }

    /** Is the time up? */
    method Late() returns (late: bool)
      modifies this`step
      ensures step == old(step) + 1 && late == fate.late(old(step))
    {
      late := fate.late(step);
      step := step + 1;
    }

    method ConfirmOpen() returns (result: Result)
      modifies this`step
      ensures step == old(step) + 1 && result == fate.confirmed(old(step))
    {
      result := fate.confirmed(step);
      step := step + 1;
    }

    /** The exchange leaves the socket in any state. */
    method Talk() returns (e: Exchange)
      requires HonestFate(fate)
      modifies this
      ensures step == old(step) + 1 && ExchangeOk(e) && modem == old(modem).(socket := modem.socket)
      ensures talks == old(talks) + [Talked(old(modem), e)] && e == fate.exchange(old(step))
    {
      e := fate.exchange(step);
      talks := talks + [Talked(modem, e)];
      modem := modem.(socket := fate.socketAfter(step));
      step := step + 1;
    }
  }

  lemma EffectOnOthers(c: Command, s: Modem, t: Modem)
    requires Effect(c, s, t)
    ensures !c.SetConfig? ==> t.config == s.config
    ensures c.SetConfig? ==> forall p :: p != c.parameter ==> Get(t.config, p) == Get(s.config, p)
    ensures !c.Activate? ==> t.active == s.active
    ensures c.Activate? ==> t.active - {c.cid} == s.active - {c.cid}
    ensures !c.SetApn? && !c.SetProfile? ==> t.profiles == s.profiles
    ensures c.SetApn? || c.SetProfile? ==> t.profiles - {c.cid} == s.profiles - {c.cid}
    ensures !c.CloseSocket? && !c.OpenSocket? && s.socket == Initial ==> t.socket == Initial
  {
  }
}
