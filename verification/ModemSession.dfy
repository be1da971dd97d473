/**
 * One request over a socket of the modem: what the session changes on the modem it notes down first,
 * and undoes in the end, whatever has failed.
 */
module ModemSession {
  import opened Bytes
  import opened ModemLine

  const POLL_MAX_QUERIES := 21

  datatype Request = Request(apn: string, apnBuilds: bool, dataEnabled: bool)

  /** What part of the cleanup failed first. */
  datatype Part = SocketClose | SslRestore | AutofreeRestore | EncodingRestore | PdpDeactivate | PdpProfileRestore

  datatype FailureStage = NoStage | At(stage: Stage) | HttpStatus | ResponseStatus | Cleanup

  class Session {
    const line: Line
    const request: Request

    var snapshot: Config
    var cid: byte
    var pdpActivated: bool
    var profileChanged: bool
    var originalProfile: string
    var maybeOpen: bool
    var cleanupDone: bool
    var cleanupOk: bool
    var touchedEncoding: bool
    var touchedAutofree: bool
    var touchedSsl: bool
    var timedOut: bool
    var openFailed: bool

    var ok: bool
    var failureStage: FailureStage
    var cleanupFailure: Option<Part>
    var requiresReset: bool

    /** The modem as the session found it, how its first stage ended, and how often it has been cleaned up. */
    ghost const before: Modem
    ghost var settled: bool
    ghost var socketThen: Socket
    ghost var cleanups: nat

    constructor (line: Line, request: Request)
      ensures this.line == line && this.request == request && before == line.modem && Fresh() && cleanups == 0
    {
      this.line, this.request, before := line, request, line.modem;
      var nothing := Value(0, None);
      snapshot, cid := Config(nothing, nothing, nothing, nothing), 0;
      pdpActivated, profileChanged, originalProfile, maybeOpen := false, false, "", false;
      cleanupDone, cleanupOk, touchedEncoding, touchedAutofree, touchedSsl := false, true, false, false, false;
      timedOut, openFailed, ok, failureStage, cleanupFailure, requiresReset := false, false, false, NoStage, None,
        false;
      cleanups, settled, socketThen := 0, false, Initial;
    }

    predicate Fresh()
      reads this
    {
      && !pdpActivated && !profileChanged && !maybeOpen && !cleanupDone && cleanupOk
      && !touchedEncoding && !touchedAutofree && !touchedSsl && !timedOut && !openFailed
      && !ok && failureStage == NoStage && cleanupFailure == None && !requiresReset
    }

    // ----- commands -----

    method Command(c: Command, cleanup: bool) returns (sent: bool, result: Result, reply: Reply)
      requires HonestFate(line.fate)
      modifies line`modem, line`step, this`timedOut, this`openFailed
      ensures Effect(c, old(line.modem), line.modem)
      ensures WillingFate(line.fate) ==> sent && Willing(c, old(line.modem), Answer(result, reply, line.modem))
      ensures sent ==> result == CmdOk && reply != Oversize && Truthful(c, reply, line.modem)
      ensures Traced(line.fate, c, cleanup, old(line.step), old(line.modem), sent, Answer(result, reply, line.modem),
        line.step)
    {
      if !cleanup {
        var late := line.Late();
        if late {
          EffectNone(c, line.modem);
          return false, Failed, Malformed;
        }
      }
      result, reply := line.Send(c);
      if result == Timeout { timedOut := true; }
      if result == OpenFailed { openFailed := true; }
      sent := result == CmdOk && reply != Oversize;
    }

    /** What the session has noted down of what it may have changed. */
    function Noted(): Notes
      reads this
    {
      Notes(touchedEncoding, touchedAutofree, touchedSsl, snapshot, pdpActivated, profileChanged, cid, originalProfile,
        maybeOpen)
    }

    // ----- the stages -----

    method QueryInitial() returns (good: bool)
      requires HonestFate(line.fate)
      modifies line`modem, line`step, this`timedOut, this`openFailed
      ensures Effect(QueryState, old(line.modem), line.modem) && (good ==> line.modem.socket == Initial)
      ensures WillingFate(line.fate) && old(line.modem.socket) == Initial ==> good
    {
      hide Traced, WillingFate;
      var sent, result, reply := Command(QueryState, false);
      return sent && reply == StateIs(Initial);
    }

    /** A socket left over from before is closed. If that fails nothing of it is noted: there is nothing to undo. */
    method EnsureInitialState() returns (good: bool)
      requires HonestFate(line.fate)
      modifies line`modem, line`step, this`timedOut, this`openFailed
      ensures line.modem == old(line.modem).(socket := line.modem.socket)
      ensures good ==> line.modem.socket == Initial
      ensures old(line.modem.socket) == Initial ==> line.modem.socket == Initial
      ensures Stuck(line.fate, old(line.step), old(line.modem)) ==> !good && line.modem.socket != Initial
      ensures WillingFate(line.fate) ==> good
    {
      hide WillingFate;
      var sent, result, reply := Command(QueryState, false);
      if !sent || !reply.StateIs? { return false; }
      if reply.socket == Initial { return true; }
      if reply.socket != Connected && reply.socket != Closed { return false; }
      sent, result, reply := Command(CloseSocket, true);
      if !sent || !reply.CloseIs? || reply.result != 0 { return false; }
      good := QueryInitial();
    }

    method Query(p: Parameter) returns (good: bool, value: Value)
      requires HonestFate(line.fate)
      modifies line`modem, line`step, this`timedOut, this`openFailed
      ensures Effect(QueryConfig(p), old(line.modem), line.modem) && (good ==> value == Get(line.modem.config, p))
      ensures WillingFate(line.fate) ==> good && line.modem == old(line.modem)
    {
      hide Traced, WillingFate;
      var sent, result, reply := Command(QueryConfig(p), false);
      if !sent || !reply.ConfigIs? { return false, Value(0, None); }
      return true, reply.value;
    }

    method SnapshotConfig() returns (good: bool)
      requires HonestFate(line.fate)
      modifies line`modem, line`step, this`timedOut, this`openFailed, this`snapshot, this`cid
      ensures line.modem == old(line.modem).(socket := line.modem.socket)
      ensures old(line.modem.socket) == Initial ==> line.modem.socket == Initial
      ensures good ==> snapshot == line.modem.config && cid == snapshot.cid.first && Plausible(snapshot)
      ensures WillingFate(line.fate) && Plausible(old(line.modem.config)) ==> good && line.modem == old(line.modem)
    {
      hide Traced, WillingFate;
      var got, value := Query(Cid);
      if !got { return false; }
      snapshot := snapshot.(cid := value);
      cid := value.first;
      if value.second.Some? || cid == 0 || cid > 16 { return false; }
      got, value := Query(Encoding);
      if !got { return false; }
      snapshot := snapshot.(encoding := value);
      if value.second.None? || value.first > 1 || value.second.value > 1 { return false; }
      got, value := Query(Autofree);
      if !got { return false; }
      snapshot := snapshot.(autofree := value);
      if value.second.Some? || value.first > 1 { return false; }
      got, value := Query(Ssl);
      if !got { return false; }
      snapshot := snapshot.(ssl := value);
      good := value.first <= 1;
    }

    method ReadPdp() returns (good: bool, active: bool, current: Profile)
      requires HonestFate(line.fate)
      modifies line`modem, line`step, this`timedOut, this`openFailed
      ensures line.modem == old(line.modem).(socket := line.modem.socket)
      ensures old(line.modem.socket) == Initial ==> line.modem.socket == Initial
      ensures good ==>
        cid in line.modem.profiles && current == line.modem.profiles[cid] && active == (cid in line.modem.active)
      ensures WillingFate(line.fate) && cid in old(line.modem.profiles) ==> good && line.modem == old(line.modem)
    {
      hide Traced, WillingFate;
      active, current := false, Profile("", "");
      var sent, result, reply := Command(QueryContexts, false);
      if !sent || !reply.ContextsAre? || cid !in reply.profiles { return false, active, current; }
      current := reply.profiles[cid];
      sent, result, reply := Command(QueryActive, false);
      if !sent || !reply.ActiveAre? { return false, active, current; }
      return true, cid in reply.cids, current;
    }

    method ChangeApn(current: Profile) returns (good: bool)
      requires HonestFate(line.fate) && !profileChanged && Kept(before, Noted(), line.modem)
      requires cid in line.modem.profiles && current == line.modem.profiles[cid] && current.canonical != ""
      modifies line`modem, line`step, this`timedOut, this`openFailed, this`profileChanged, this`originalProfile
      ensures Kept(before, Noted(), line.modem) && (old(line.modem.socket) == Initial ==> line.modem.socket == Initial)
      ensures line.modem.active == old(line.modem.active) && line.modem.config == old(line.modem.config)
      ensures Restorable() && (good ==> cid in line.modem.profiles && line.modem.profiles[cid].apn == request.apn)
      ensures WillingFate(line.fate) ==> good
    {
      hide Kept, Effect, Traced, WillingFate;
      ghost var n, m := Noted(), line.modem;
      originalProfile := current.canonical;
      profileChanged := true;
      ProfileNoted(before, n, Noted(), m);
      var sent, result, reply := Command(SetApn(cid, request.apn), false);
      EffectOnOthers(SetApn(cid, request.apn), m, line.modem);
      ProfileAside(before, Noted(), m, line.modem, SetApn(cid, request.apn));
      if !sent || !reply.Done? { return false; }
      m := line.modem;
      sent, result, reply := Command(QueryContexts, false);
      QueryAside(QueryContexts, m, line.modem);
      SocketAside(before, Noted(), m, line.modem);
      return sent && reply.ContextsAre? && cid in reply.profiles && reply.profiles[cid].apn == request.apn;
    }

    method ActivatePdp() returns (good: bool)
      requires HonestFate(line.fate) && !pdpActivated && Kept(before, Noted(), line.modem) && cid !in line.modem.active
      modifies line`modem, line`step, this`timedOut, this`openFailed, this`pdpActivated
      ensures Kept(before, Noted(), line.modem) && (old(line.modem.socket) == Initial ==> line.modem.socket == Initial)
      ensures line.modem.profiles == old(line.modem.profiles) && line.modem.config == old(line.modem.config)
      ensures (good ==> cid in line.modem.active) && (WillingFate(line.fate) ==> good)
    {
      hide Kept, Traced, WillingFate;
      ghost var n, m := Noted(), line.modem;
      pdpActivated := true;
      ActiveNoted(before, n, Noted(), m);
      var sent, result, reply := Command(Activate(cid, true), false);
      ActiveAside(before, Noted(), m, line.modem, true);
      return sent && reply.Done?;
    }

    /** A live context is never rewritten, and one that cannot be set again as it was is not changed. */
    method PreparePdp() returns (good: bool)
      requires HonestFate(line.fate) && !pdpActivated && !profileChanged && Kept(before, Noted(), line.modem)
      modifies line`modem, line`step, this`timedOut, this`openFailed, this`pdpActivated, this`profileChanged,
        this`originalProfile
      ensures Kept(before, Noted(), line.modem) && (old(line.modem.socket) == Initial ==> line.modem.socket == Initial)
      ensures line.modem.config == old(line.modem.config)
      ensures Restorable() && (good ==> OnContext(line.modem, cid, request.apn))
      ensures WillingFate(line.fate) && Workable(old(line.modem), cid, request) ==> good
    {
      hide Kept, Traced, WillingFate;
      ghost var m := line.modem;
      var read, active, current := ReadPdp();
      SocketAside(before, Noted(), m, line.modem);
      if !read { return false; }
      if request.apn != "" && !request.apnBuilds { return false; }
      if request.apn != "" && request.apn != current.apn {
        if active || current.canonical == "" { return false; }
        var changed := ChangeApn(current);
        if !changed { return false; }
      }
      if active { return true; }
      good := ActivatePdp();
    }

    method SetAndVerify(p: Parameter, value: Value) returns (good: bool)
      requires HonestFate(line.fate)
      modifies line`modem, line`step, this`timedOut, this`openFailed
      ensures line.modem == old(line.modem).(config := With(old(line.modem.config), p, Get(line.modem.config, p)),
        socket := line.modem.socket)
      ensures old(line.modem.socket) == Initial ==> line.modem.socket == Initial
      ensures good ==> Get(line.modem.config, p) == value
      ensures WillingFate(line.fate) ==> good
    {
      hide Traced, WillingFate;
      var sent, result, reply := Command(SetConfig(p, value), false);
      if !sent || !reply.Done? { return false; }
      var got, now := Query(p);
      return got && now == value;
    }

    method ApplyRuntimeConfig() returns (good: bool)
      requires HonestFate(line.fate) && !touchedEncoding && !touchedAutofree && !touchedSsl
      requires Kept(before, Noted(), line.modem) && snapshot == before.config
      modifies line`modem, line`step, this`timedOut, this`openFailed, this`touchedEncoding, this`touchedAutofree,
        this`touchedSsl
      ensures Kept(before, Noted(), line.modem) && (old(line.modem.socket) == Initial ==> line.modem.socket == Initial)
      ensures line.modem == old(line.modem).(config := line.modem.config, socket := line.modem.socket)
      ensures line.modem.config.cid == old(line.modem.config.cid)
      ensures (good ==> Configured(line.modem.config)) && (WillingFate(line.fate) ==> good)
    {
      hide Traced, WillingFate;
      touchedEncoding := true;
      good := SetAndVerify(Encoding, Value(1, Some(1)));
      if !good { return; }
      touchedAutofree := true;
      good := SetAndVerify(Autofree, Value(1, None));
      if !good { return; }
      touchedSsl := true;
      good := SetAndVerify(Ssl, Value(0, Some(0)));
    }

    method OpenSocketStage() returns (good: bool)
      requires HonestFate(line.fate)
      modifies line`modem, line`step, this`timedOut, this`openFailed, this`maybeOpen
      ensures maybeOpen && line.modem == old(line.modem).(socket := line.modem.socket)
      ensures WillingFate(line.fate) ==> good && line.modem.socket in {Connecting, Connected}
    {
      hide Traced, WillingFate;
      maybeOpen := true;
      var sent, result, reply := Command(OpenSocket, false);
      return sent && reply.Done?;
    }

    method WaitForConnected() returns (good: bool)
      requires HonestFate(line.fate)
      modifies line`modem, line`step, this`timedOut, this`openFailed
      ensures line.modem == old(line.modem).(socket := line.modem.socket) && (good ==> line.modem.socket == Connected)
      ensures WillingFate(line.fate) && old(line.modem.socket) in {Connecting, Connected} ==> good
    {
      hide Traced;
      for query := 0 to POLL_MAX_QUERIES
        invariant line.modem == old(line.modem).(socket := line.modem.socket)
        invariant WillingFate(line.fate) && old(line.modem.socket) in {Connecting, Connected} ==>
          query == 0 && line.modem == old(line.modem)
      {
        var over := line.Late();
        if over { break; }
        var sent, result, reply := Command(QueryState, false);
        if !sent || !reply.StateIs? { return false; }
        if reply.socket == Connected {
          var confirmed := line.ConfirmOpen();
          if confirmed == Timeout { timedOut := true; }
          if confirmed == OpenFailed { openFailed := true; }
          return confirmed == CmdOk;
        }
        if reply.socket == Closed { return false; }
        over := line.Late();
        if over { break; }
      }
      timedOut := true;
      return false;
    }

    // ----- undoing -----

    method RecordCleanupFailure(part: Part, reset: bool)
      modifies this`cleanupOk, this`cleanupFailure, this`requiresReset
      ensures !cleanupOk && requiresReset == (old(requiresReset) || reset)
      ensures cleanupFailure == if old(cleanupFailure).None? then Some(part) else old(cleanupFailure)
    {
      cleanupOk := false;
      if cleanupFailure.None? { cleanupFailure := Some(part); }
      if reset { requiresReset := true; }
    }

    ghost predicate RecordsOk()
      reads this`cleanupOk, this`cleanupFailure, this`requiresReset
    {
      (cleanupOk <==> cleanupFailure.None?) && (requiresReset ==> !cleanupOk)
    }

    method CloseAtEnd()
      requires HonestFate(line.fate) && RecordsOk()
      modifies line`modem, line`step, this`timedOut, this`openFailed, this`cleanupOk, this`cleanupFailure,
        this`requiresReset
      ensures line.modem == old(line.modem).(socket := line.modem.socket) && RecordsOk()
      ensures cleanupOk ==> old(cleanupOk) && line.modem.socket == Initial
      ensures !cleanupOk ==> !old(cleanupOk) || requiresReset
      ensures WillingFate(line.fate) ==> cleanupOk == old(cleanupOk)
    {
      hide Traced, WillingFate;
      var sent, result, reply := Command(CloseSocket, true);
      if !sent || !reply.CloseIs? || reply.result != 0 {
        RecordCleanupFailure(SocketClose, true);
      } else if reply.confirm {
        sent, result, reply := Command(QueryState, true);
        if !sent || reply != StateIs(Initial) { RecordCleanupFailure(SocketClose, true); }
      }
    }

    /** Sets a parameter back, and reads it to see that it took. */
    method RestoreConfig(p: Parameter, value: Value, part: Part)
      requires HonestFate(line.fate) && RecordsOk()
      modifies line`modem, line`step, this`timedOut, this`openFailed, this`cleanupOk, this`cleanupFailure,
        this`requiresReset
      ensures line.modem == old(line.modem).(config := With(old(line.modem.config), p, Get(line.modem.config, p)),
        socket := line.modem.socket)
      ensures old(line.modem.socket) == Initial ==> line.modem.socket == Initial
      ensures RecordsOk() && (cleanupOk ==> old(cleanupOk) && Get(line.modem.config, p) == value)
      ensures WillingFate(line.fate) ==> cleanupOk == old(cleanupOk)
    {
      hide Traced, WillingFate;
      var sent, result, reply := Command(SetConfig(p, value), true);
      if !sent || !reply.Done? {
        RecordCleanupFailure(part, false);
        return;
      }
      sent, result, reply := Command(QueryConfig(p), true);
      if !sent || reply != ConfigIs(value) { RecordCleanupFailure(part, false); }
    }

    method RestoreRuntimeConfig()
      requires HonestFate(line.fate) && RecordsOk() && Kept(before, Noted(), line.modem)
      modifies line`modem, line`step, this`timedOut, this`openFailed, this`cleanupOk, this`cleanupFailure,
        this`requiresReset
      ensures Kept(before, Noted(), line.modem) && RecordsOk()
      ensures old(line.modem.socket) == Initial ==> line.modem.socket == Initial
      ensures cleanupOk ==> old(cleanupOk) && line.modem.config == before.config
      ensures !touchedEncoding && !touchedAutofree && !touchedSsl ==>
        line.modem == old(line.modem) && cleanupOk == old(cleanupOk)
      ensures WillingFate(line.fate) ==> cleanupOk == old(cleanupOk)
      ensures SameContexts(line.modem, old(line.modem))
    {
      hide Traced, WillingFate;
      if touchedSsl { RestoreConfig(Ssl, snapshot.ssl, SslRestore); }
      if touchedAutofree { RestoreConfig(Autofree, snapshot.autofree, AutofreeRestore); }
      if touchedEncoding { RestoreConfig(Encoding, snapshot.encoding, EncodingRestore); }
    }

    method Deactivate()
      requires HonestFate(line.fate) && RecordsOk() && Kept(before, Noted(), line.modem) && pdpActivated
      modifies line`modem, line`step, this`timedOut, this`openFailed, this`cleanupOk, this`cleanupFailure,
        this`requiresReset
      ensures Kept(before, Noted(), line.modem) && RecordsOk() && line.modem.config == old(line.modem.config)
      ensures old(line.modem.socket) == Initial ==> line.modem.socket == Initial
      ensures cleanupOk ==> old(cleanupOk) && cid !in line.modem.active
      ensures WillingFate(line.fate) ==> cleanupOk == old(cleanupOk)
    {
      hide Kept, Traced, WillingFate;
      ghost var m := line.modem;
      var sent, result, reply := Command(Activate(cid, false), true);
      ActiveAside(before, Noted(), m, line.modem, false);
      if !sent { RecordCleanupFailure(PdpDeactivate, false); }
      if cleanupOk && !reply.Done? { RecordCleanupFailure(PdpDeactivate, false); }
    }

    /** A command of the cleanup about a context, and what it leaves of the notes. */
    method CommandAboutPdp(c: Command) returns (sent: bool, reply: Reply)
      requires HonestFate(line.fate) && Kept(before, Noted(), line.modem)
      requires c == QueryContexts || (profileChanged && c.SetProfile? && c.cid == cid)
      modifies line`modem, line`step, this`timedOut, this`openFailed
      ensures Kept(before, Noted(), line.modem) && line.modem.config == old(line.modem.config)
      ensures line.modem.active == old(line.modem.active)
      ensures (old(line.modem.socket) == Initial ==> line.modem.socket == Initial)
      ensures sent ==> Truthful(c, reply, line.modem)
      ensures WillingFate(line.fate) ==> sent && Willing(c, old(line.modem), Answer(CmdOk, reply, line.modem))
    {
      hide Kept, Effect, Traced, WillingFate;
      ghost var m := line.modem;
      var result;
      sent, result, reply := Command(c, true);
      EffectOnOthers(c, m, line.modem);
      if c.SetProfile? {
        ProfileAside(before, Noted(), m, line.modem, c);
      } else {
        QueryAside(c, m, line.modem);
        SocketAside(before, Noted(), m, line.modem);
      }
    }

    method RestoreProfile()
      requires HonestFate(line.fate) && RecordsOk() && Kept(before, Noted(), line.modem) && profileChanged
      modifies line`modem, line`step, this`timedOut, this`openFailed, this`cleanupOk, this`cleanupFailure,
        this`requiresReset
      ensures Kept(before, Noted(), line.modem) && RecordsOk() && line.modem.config == old(line.modem.config)
      ensures line.modem.active == old(line.modem.active)
      ensures old(line.modem.socket) == Initial ==> line.modem.socket == Initial
      ensures cleanupOk ==>
        old(cleanupOk) && cid in line.modem.profiles && line.modem.profiles[cid].canonical == originalProfile
      ensures WillingFate(line.fate) && originalProfile != "" ==> cleanupOk == old(cleanupOk)
    {
      hide Kept, WillingFate;
      if originalProfile == "" {
        RecordCleanupFailure(PdpProfileRestore, false);
        return;
      }
      var sent, reply := CommandAboutPdp(SetProfile(cid, originalProfile));
      if !sent || !reply.Done? {
        RecordCleanupFailure(PdpProfileRestore, false);
        return;
      }
      sent, reply := CommandAboutPdp(QueryContexts);
      if !sent || !reply.ContextsAre? || cid !in reply.profiles || reply.profiles[cid].canonical != originalProfile {
        RecordCleanupFailure(PdpProfileRestore, false);
      }
    }

    method RestorePdp()
      requires HonestFate(line.fate) && RecordsOk() && Kept(before, Noted(), line.modem)
      modifies line`modem, line`step, this`timedOut, this`openFailed, this`cleanupOk, this`cleanupFailure,
        this`requiresReset
      ensures Kept(before, Noted(), line.modem) && RecordsOk() && line.modem.config == old(line.modem.config)
      ensures old(line.modem.socket) == Initial ==> line.modem.socket == Initial
      ensures cleanupOk ==> old(cleanupOk)
      ensures cleanupOk && pdpActivated && !request.dataEnabled ==> cid !in line.modem.active
      ensures cleanupOk && profileChanged && !request.dataEnabled ==>
        cid in line.modem.profiles && line.modem.profiles[cid].canonical == originalProfile
      ensures (!pdpActivated && !profileChanged) || request.dataEnabled ==>
        line.modem == old(line.modem) && cleanupOk == old(cleanupOk)
      ensures WillingFate(line.fate) && Restorable() ==> cleanupOk == old(cleanupOk)
    {
      hide Kept, Traced, WillingFate;
      if pdpActivated && !request.dataEnabled { Deactivate(); }
      if profileChanged && !request.dataEnabled { RestoreProfile(); }
    }

    /** Undoes everything that is noted, once. */
    method Cleanup()
      requires HonestFate(line.fate) && RecordsOk() && Kept(before, Noted(), line.modem)
      modifies line`modem, line`step, this`timedOut, this`openFailed, this`cleanupOk, this`cleanupFailure,
        this`requiresReset,
        this`cleanupDone, this`cleanups
      ensures cleanupDone && cleanups == old(cleanups) + (if old(cleanupDone) then 0 else 1) && RecordsOk()
      ensures old(cleanupDone) ==>
        line.modem == old(line.modem) && cleanupOk == old(cleanupOk) && cleanupFailure == old(cleanupFailure)
      ensures !old(cleanupDone) && cleanupOk ==> Undone(before, line.modem, request.dataEnabled)
      ensures !old(cleanupDone) && cleanupOk && (maybeOpen || old(line.modem.socket) == Initial) ==>
        line.modem.socket == Initial
      ensures !old(cleanupDone) && !maybeOpen && !Touched() ==>
        cleanupOk == old(cleanupOk) && line.modem == old(line.modem)
      ensures request.dataEnabled ==> SameContexts(line.modem, old(line.modem))
      ensures WillingFate(line.fate) && Restorable() ==> cleanupOk == old(cleanupOk)
    {
      hide Kept, Traced, WillingFate;
      if cleanupDone { return; }
      cleanupDone := true;
      cleanups := cleanups + 1;
      ghost var m := line.modem;
      if maybeOpen {
        CloseAtEnd();
        SocketAside(before, Noted(), m, line.modem);
      }
      RestoreRuntimeConfig();
      RestorePdp();
      KeptUndone(before, Noted(), line.modem, request.dataEnabled, cleanupOk);
    }

    method Finish(outcome: Outcome) returns (r: Outcome)
      requires HonestFate(line.fate) && RecordsOk() && Kept(before, Noted(), line.modem) && !cleanupDone && cleanupOk
      requires (outcome == RunOk <==> ok) && (outcome == RunOk <==> failureStage == NoStage) && outcome != CleanupFailed
      modifies line`modem, line`step, this`timedOut, this`openFailed, this`cleanupOk, this`cleanupFailure,
        this`requiresReset,
        this`cleanupDone,
        this`cleanups, this`ok, this`failureStage
      ensures cleanupDone && cleanups == old(cleanups) + 1 && Reported(r)
      ensures r != CleanupFailed ==> r == outcome && Undone(before, line.modem, request.dataEnabled)
      ensures failureStage == if r == CleanupFailed && old(failureStage) == NoStage then FailureStage.Cleanup
        else old(failureStage)
      ensures r != CleanupFailed && (maybeOpen || old(line.modem.socket) == Initial) ==> line.modem.socket == Initial
      ensures !maybeOpen && !Touched() ==> r == outcome && line.modem == old(line.modem)
      ensures WillingFate(line.fate) && Restorable() ==> r == outcome
      ensures request.dataEnabled ==> SameContexts(line.modem, old(line.modem))
    {
      hide Kept, Undone, WillingFate;
      Cleanup();
      if !cleanupOk {
        ok := false;
        if outcome == RunOk || failureStage == NoStage { failureStage := FailureStage.Cleanup; }
        return CleanupFailed;
      }
      return outcome;
    }

    /** What the caller is told agrees with itself. */
    ghost predicate Reported(r: Outcome)
      reads this
    {
      && (ok <==> r == RunOk) && (failureStage == NoStage <==> r == RunOk)
      && (cleanupFailure.Some? <==> r == CleanupFailed) && (requiresReset ==> r == CleanupFailed)
    }

    method Fail(stage: FailureStage, fallback: Outcome) returns (r: Outcome)
      requires HonestFate(line.fate) && RecordsOk() && Kept(before, Noted(), line.modem) && !cleanupDone && cleanupOk
      requires !ok && stage != NoStage && failureStage == NoStage && fallback !in {RunOk, CleanupFailed}
      modifies line`modem, line`step, this`timedOut, this`openFailed, this`cleanupOk, this`cleanupFailure,
        this`requiresReset,
        this`cleanupDone,
        this`cleanups, this`ok, this`failureStage
      ensures cleanupDone && cleanups == old(cleanups) + 1 && Reported(r) && r in {fallback, TimedOut, CleanupFailed}
      ensures failureStage == stage && (r != CleanupFailed ==> Undone(before, line.modem, request.dataEnabled))
      ensures r != CleanupFailed && (maybeOpen || old(line.modem.socket) == Initial) ==> line.modem.socket == Initial
      ensures !maybeOpen && !Touched() ==> r != CleanupFailed && line.modem == old(line.modem)
    {
      hide Kept, Undone, WillingFate;
      failureStage := stage;
      var late := timedOut;
      if !late { late := line.Late(); }
      r := Finish(if late then TimedOut else fallback);
    }

    /** Whether the exchange was a success is for the status to say. */
    method Conclude(talked: Exchange) returns (r: Outcome)
      requires HonestFate(line.fate) && RecordsOk() && Kept(before, Noted(), line.modem) && !cleanupDone && cleanupOk
      requires maybeOpen
      requires !ok && failureStage == NoStage && ExchangeOk(talked)
      modifies line`modem, line`step, this`timedOut, this`openFailed, this`cleanupOk, this`cleanupFailure,
        this`requiresReset,
        this`cleanupDone,
        this`cleanups, this`ok, this`failureStage
      ensures cleanupDone && cleanups == old(cleanups) + 1 && Reported(r)
      ensures r != CleanupFailed ==> Undone(before, line.modem, request.dataEnabled) && line.modem.socket == Initial
      ensures failureStage != At(InitialState)
      ensures r == RunOk ==> Succeeded(talked)
      ensures WillingFate(line.fate) && Restorable() && Succeeded(talked) ==> r == RunOk
      ensures r == RunOk && request.dataEnabled ==> SameContexts(line.modem, old(line.modem))
    {
      hide Kept, Undone, RecordsOk, Reported, HonestFate, WillingFate;
      match talked {
        case ExchangeFailed(stage, fallback) =>
          r := Fail(At(stage), fallback);
        case Exchanged(status) =>
          if !(100 <= status <= 599) {
            failureStage := ResponseStatus;
            r := Finish(ResponseFailed);
          } else if !(200 <= status <= 299) {
            r := Fail(HttpStatus, ResponseFailed);
          } else {
            ok := true;
            r := Finish(RunOk);
          }
      }
    }

    /** The exchange, once the socket may be open. */
    method RunConnected() returns (r: Outcome)
      requires HonestFate(line.fate) && RecordsOk() && Kept(before, Noted(), line.modem) && !cleanupDone && cleanupOk
      requires maybeOpen
      requires !ok && failureStage == NoStage && Prepared(line.modem, before, request.apn)
      modifies line, this`timedOut, this`openFailed, this`cleanupOk, this`cleanupFailure, this`requiresReset,
        this`cleanupDone,
        this`cleanups, this`ok, this`failureStage
      ensures cleanupDone && cleanups == old(cleanups) + 1 && Reported(r)
      ensures r != CleanupFailed ==> Undone(before, line.modem, request.dataEnabled) && line.modem.socket == Initial
      ensures failureStage != At(InitialState)
      ensures r == RunOk && request.dataEnabled ==> SameContexts(line.modem, old(line.modem))
      ensures OneTalk(old(line.talks), line.talks, before, request.apn, r)
      ensures WillingFate(line.fate) && Restorable() && old(line.modem.socket) in {Connecting, Connected} ==> r == RunOk
    {
      hide Kept, Undone, RecordsOk, Reported, HonestFate, ExchangeOk, WillingFate, Prepared, OneTalk;
      ghost var m := line.modem;
      var connected := WaitForConnected();
      SocketAside(before, Noted(), m, line.modem);
      PreparedAside(m, line.modem, before, request.apn);
      NoTalk(line.talks, before, request.apn);
      if !connected {
        r := Fail(At(if openFailed then SocketOpen else ConnectedState), CommandFailed);
        return;
      }
      r := RunExchange();
    }

    /** The exchange itself, over the connected socket. */
    method RunExchange() returns (r: Outcome)
      requires HonestFate(line.fate) && RecordsOk() && Kept(before, Noted(), line.modem) && !cleanupDone && cleanupOk
      requires maybeOpen && !ok && failureStage == NoStage
      requires Prepared(line.modem, before, request.apn) && line.modem.socket == Connected
      modifies line, this`timedOut, this`openFailed, this`cleanupOk, this`cleanupFailure, this`requiresReset,
        this`cleanupDone,
        this`cleanups, this`ok, this`failureStage
      ensures cleanupDone && cleanups == old(cleanups) + 1 && Reported(r)
      ensures r != CleanupFailed ==> Undone(before, line.modem, request.dataEnabled) && line.modem.socket == Initial
      ensures failureStage != At(InitialState)
      ensures r == RunOk && request.dataEnabled ==> SameContexts(line.modem, old(line.modem))
      ensures OneTalk(old(line.talks), line.talks, before, request.apn, r)
      ensures WillingFate(line.fate) && Restorable() ==> r == RunOk
    {
      hide Kept, Undone, RecordsOk, Reported, HonestFate, ExchangeOk, WillingFate, Prepared, OneTalk, Succeeded;
      ghost var m, was := line.modem, line.talks;
      if WillingFate(line.fate) { WillingTalk(line.fate, line.step); }
      var talked := line.Talk();
      OneMoreTalk(was, m, talked, before, request.apn);
      SocketAside(before, Noted(), m, line.modem);
      r := Conclude(talked);
    }

    /** The runtime parameters and the connection. */
    method RunPrepared() returns (r: Outcome)
      requires HonestFate(line.fate) && RecordsOk() && Kept(before, Noted(), line.modem) && line.modem.socket == Initial
      requires !maybeOpen && !cleanupDone && cleanupOk && !ok && failureStage == NoStage && snapshot == before.config
      requires !touchedEncoding && !touchedAutofree && !touchedSsl
      requires cid == before.config.cid.first && Plausible(before.config) && OnContext(line.modem, cid, request.apn)
      modifies line, this`timedOut, this`openFailed, this`cleanupOk, this`cleanupFailure, this`requiresReset,
        this`cleanupDone,
        this`cleanups, this`ok, this`failureStage, this`touchedEncoding, this`touchedAutofree, this`touchedSsl,
        this`maybeOpen
      ensures cleanupDone && cleanups == old(cleanups) + 1 && Reported(r)
      ensures r != CleanupFailed ==> Undone(before, line.modem, request.dataEnabled) && line.modem.socket == Initial
      ensures failureStage != At(InitialState)
      ensures r == RunOk && request.dataEnabled ==> OnContext(line.modem, before.config.cid.first, request.apn)
      ensures OneTalk(old(line.talks), line.talks, before, request.apn, r)
      ensures WillingFate(line.fate) && Restorable() ==> r == RunOk
    {
      hide Kept, Undone, RecordsOk, Reported, HonestFate, WillingFate;
      var good := ApplyRuntimeConfig();
      if !good {
        r := Fail(At(RuntimeConfig), CommandFailed);
        return;
      }
      ghost var m, n := line.modem, Noted();
      good := OpenSocketStage();
      OpenNoted(before, n, Noted(), m, line.modem);
      if !good {
        r := Fail(At(SocketOpen), CommandFailed);
        return;
      }
      r := RunConnected();
    }

    /** Everything after the first stage: the socket is known to be closed by now. */
    method RunSettled() returns (r: Outcome)
      requires HonestFate(line.fate) && RecordsOk() && line.modem.socket == Initial
      requires !pdpActivated && !profileChanged && !maybeOpen && !cleanupDone && cleanupOk && !ok
      requires failureStage == NoStage
      requires !touchedEncoding && !touchedAutofree && !touchedSsl && line.modem == before.(socket := Initial)
      modifies line, this
      ensures cleanupDone && cleanups == old(cleanups) + 1 && Reported(r)
      ensures r != CleanupFailed ==> Undone(before, line.modem, request.dataEnabled) && line.modem.socket == Initial
      ensures failureStage != At(InitialState) && settled == old(settled) && socketThen == old(socketThen)
      ensures r == RunOk && request.dataEnabled ==> OnContext(line.modem, before.config.cid.first, request.apn)
      ensures OneTalk(old(line.talks), line.talks, before, request.apn, r)
      ensures WillingFate(line.fate) && MaySucceed(before, request) ==> r == RunOk
    {
      hide Kept, Undone, RecordsOk, Reported, HonestFate, WillingFate, OneTalk, OnContext, Plausible, Workable;
      NoTalk(line.talks, before, request.apn);
      WorkableAside(before, line.modem, request);
      var good := SnapshotConfig();
      NothingNoted(before, Noted(), line.modem);
      if !good {
        r := Fail(At(RuntimeSnapshot), CommandFailed);
        return;
      }
      good := PreparePdp();
      if !good {
        r := Fail(At(PdpApn), CommandFailed);
        return;
      }
      r := RunPrepared();
    }

    /**
     * A session that does not report a failed cleanup has undone what it did. It ends with the socket closed,
     * whatever happens on the line, if and only if it starts with the socket in its initial state: this method
     * gives the one half, `StaleSocketStays` the other. The socket that can stay is one left over from before,
     * when the first stage fails and there is nothing noted to undo.
     *
     * There is at most one exchange. It takes place over a connected socket, on an active context with the access
     * point that was asked for and with the parameters that it needs, and success means that it went well; where data
     * is enabled, the context then stays. On a modem that does what it is told, and where nothing is in the way, the
     * session succeeds.
     */
    method Run() returns (r: Outcome)
      requires HonestFate(line.fate) && Fresh() && cleanups == 0 && before == line.modem
      modifies line, this
      ensures cleanupDone && cleanups == 1 && Reported(r)
      ensures r != CleanupFailed ==> Undone(before, line.modem, request.dataEnabled)
      ensures r != CleanupFailed && before.socket == Initial ==> line.modem.socket == Initial
      ensures r != CleanupFailed && line.modem.socket != Initial <==> !settled && socketThen != Initial
      ensures !settled ==>
        failureStage == At(InitialState) && r in {CommandFailed, TimedOut}
        && line.modem == before.(socket := socketThen)
      ensures before.socket == Initial ==> socketThen == Initial
      ensures Stuck(line.fate, old(line.step), before) ==> !settled && socketThen != Initial
      ensures r == RunOk && request.dataEnabled ==> OnContext(line.modem, before.config.cid.first, request.apn)
      ensures OneTalk(old(line.talks), line.talks, before, request.apn, r)
      ensures WillingFate(line.fate) && MaySucceed(before, request) ==> r == RunOk
    {
      hide Kept, Undone, Stuck, Reported, HonestFate, WillingFate;
      NothingNoted(before, Noted(), line.modem);
      var good := EnsureInitialState();
      settled, socketThen := good, line.modem.socket;
      NothingNoted(before, Noted(), line.modem);
      if !good {
        r := Fail(At(InitialState), CommandFailed);
        return;
      }
      r := RunSettled();
    }

    /** The destructor finds the cleanup done. */
    method Destroy()
      requires HonestFate(line.fate) && RecordsOk() && Kept(before, Noted(), line.modem) && cleanupDone
      modifies line`modem, line`step, this`timedOut, this`openFailed, this`cleanupOk, this`cleanupFailure,
        this`requiresReset,
        this`cleanupDone, this`cleanups
      ensures cleanups == old(cleanups) && line.modem == old(line.modem)
    {
      Cleanup();
    }

    /** A profile that is changed can be set again. */
    predicate Restorable()
      reads this
    {
      profileChanged ==> originalProfile != ""
    }

    predicate Touched()
      reads this
    {
      touchedEncoding || touchedAutofree || touchedSsl || pdpActivated || profileChanged
    }
  }

  datatype Notes = Notes(touchedEncoding: bool, touchedAutofree: bool, touchedSsl: bool, snapshot: Config,
                         pdpActivated: bool, profileChanged: bool, cid: byte, originalProfile: string, maybeOpen: bool)

  /** The ranges that a snapshot is checked for. */
  predicate Plausible(c: Config) {
    && c.cid.second.None? && 1 <= c.cid.first <= 16
    && c.encoding.first <= 1 && c.encoding.second.Some? && c.encoding.second.value <= 1
    && c.autofree.first <= 1 && c.autofree.second.None? && c.ssl.first <= 1
  }

  /** The context is there as it is asked for, or it may be changed to that. */
  predicate Workable(m: Modem, cid: byte, request: Request) {
    cid in m.profiles
      && (request.apn == "" || (request.apnBuilds
        && (m.profiles[cid].apn == request.apn || (cid !in m.active && m.profiles[cid].canonical != ""))))
  }

  predicate MaySucceed(m: Modem, request: Request) { Plausible(m.config) && Workable(m, m.config.cid.first, request) }

  /** The context is active and has the access point that is asked for. */
  predicate OnContext(m: Modem, cid: byte, apn: string) {
    cid in m.active && cid in m.profiles && (apn != "" ==> m.profiles[cid].apn == apn)
  }

  /** The contexts, and which of them are active, are the same. */
  predicate SameContexts(m: Modem, n: Modem) { m.active == n.active && m.profiles == n.profiles }

  /** Both directions in hexadecimal, nothing freed early, and no TLS of the modem's own. */
  predicate Configured(c: Config) {
    c.encoding == Value(1, Some(1)) && c.autofree == Value(1, None) && c.ssl == Value(0, Some(0))
  }

  predicate Prepared(m: Modem, before: Modem, apn: string) {
    && m.config.cid == before.config.cid && 1 <= m.config.cid.first <= 16
    && OnContext(m, m.config.cid.first, apn) && Configured(m.config)
  }

  /** At most one exchange has come to the log, in the right place; a success is one that the server has confirmed. */
  ghost predicate OneTalk(was: seq<Talked>, now: seq<Talked>, before: Modem, apn: string, r: Outcome) {
    if now == was then r != RunOk else
      && |now| == |was| + 1 && now[..|was|] == was
      && Prepared(now[|was|].modem, before, apn) && now[|was|].modem.socket == Connected
      && (r == RunOk ==> Succeeded(now[|was|].exchange))
  }

  lemma NoTalk(was: seq<Talked>, before: Modem, apn: string)
    ensures forall r :: r != RunOk ==> OneTalk(was, was, before, apn, r)
  {
  }

  lemma OneMoreTalk(was: seq<Talked>, m: Modem, talked: Exchange, before: Modem, apn: string)
    requires Prepared(m, before, apn) && m.socket == Connected
    ensures forall r :: (r == RunOk ==> Succeeded(talked)) ==> OneTalk(was, was + [Talked(m, talked)], before, apn, r)
  {
  }

  lemma WorkableAside(m: Modem, now: Modem, request: Request)
    requires now == m.(socket := now.socket)
    ensures forall cid :: Workable(now, cid, request) == Workable(m, cid, request)
  {
  }

  lemma PreparedAside(m: Modem, now: Modem, before: Modem, apn: string)
    requires now == m.(socket := now.socket)
    ensures Prepared(now, before, apn) == Prepared(m, before, apn)
  {
  }

  lemma WillingTalk(f: Fate, n: nat)
    requires WillingFate(f)
    ensures Succeeded(f.exchange(n))
  {
  }

  /** Which of the answers that are given beforehand a command got. */
  ghost predicate Traced(f: Fate, c: Command, cleanup: bool, step: nat, m: Modem, sent: bool, a: Answer, next: nat) {
    if !cleanup && f.late(step) then !sent && a.next == m
    else
      var n := if cleanup then step else step + 1;
      f.answers(n, c, m) == a && next == n + 1 && (sent <==> a.result == CmdOk && a.reply != Oversize)
  }

  /**
   * A stale socket that the modem reports, and that is still
   * connecting, or that a close command which fails leaves there.
   */
  ghost predicate Stuck(f: Fate, n: nat, m: Modem) {
    var a := f.answers(n + 1, QueryState, m);
    var b := f.answers(n + 2, CloseSocket, a.next);
    && !f.late(n) && a.result == CmdOk
    && (|| (a.reply == StateIs(Connecting) && a.next.socket != Initial)
        || (a.reply in {StateIs(Connected), StateIs(Closed)} && b.result != CmdOk && b.next.socket != Initial))
  }

  lemma EffectNone(c: Command, s: Modem)
    ensures Effect(c, s, s)
  {
  }

  // ----- what the notes cover -----

  /** Whatever is not noted as changed is as it was before, and what is noted suffices to undo the rest. */
  predicate Kept(before: Modem, n: Notes, now: Modem) {
    && now.config.cid == before.config.cid
    && (n.touchedEncoding || now.config.encoding == before.config.encoding)
    && (n.touchedAutofree || now.config.autofree == before.config.autofree)
    && (n.touchedSsl || now.config.ssl == before.config.ssl)
    && (n.touchedEncoding || n.touchedAutofree || n.touchedSsl ==> n.snapshot == before.config)
    && now.active - {n.cid} == before.active - {n.cid}
    && (if n.pdpActivated then n.cid !in before.active else now.active == before.active)
    && now.profiles - {n.cid} == before.profiles - {n.cid}
    && (if n.profileChanged then n.cid in before.profiles && n.originalProfile == before.profiles[n.cid].canonical
        else now.profiles == before.profiles)
  }

  lemma NothingNoted(before: Modem, n: Notes, now: Modem)
    requires !n.touchedEncoding && !n.touchedAutofree && !n.touchedSsl && !n.pdpActivated && !n.profileChanged
    requires now == before.(socket := now.socket)
    ensures Kept(before, n, now)
  {
  }

  lemma OpenNoted(before: Modem, n: Notes, next: Notes, m: Modem, now: Modem)
    requires Kept(before, n, m) && next == n.(maybeOpen := true) && now == m.(socket := now.socket)
    ensures Kept(before, next, now)
  {
  }

  lemma QueryAside(c: Command, m: Modem, now: Modem)
    requires Effect(c, m, now) && c in {QueryContexts, QueryActive, QueryState}
    ensures now == m.(socket := now.socket) && (m.socket == Initial ==> now.socket == Initial)
  {
  }

  lemma SocketAside(before: Modem, n: Notes, m: Modem, now: Modem)
    requires Kept(before, n, m) && now == m.(socket := now.socket)
    ensures Kept(before, n, now)
  {
  }

  lemma ProfileNoted(before: Modem, n: Notes, next: Notes, now: Modem)
    requires Kept(before, n, now) && !n.profileChanged && n.cid in now.profiles
    requires next == n.(profileChanged := true, originalProfile := now.profiles[n.cid].canonical)
    ensures Kept(before, next, now)
  {
  }

  lemma ProfileAside(before: Modem, n: Notes, m: Modem, now: Modem, c: Command)
    requires Kept(before, n, m) && n.profileChanged && (c.SetApn? || c.SetProfile?) && c.cid == n.cid
    requires Effect(c, m, now)
    ensures Kept(before, n, now)
  {
  }

  lemma ActiveNoted(before: Modem, n: Notes, next: Notes, now: Modem)
    requires Kept(before, n, now) && !n.pdpActivated && n.cid !in now.active && next == n.(pdpActivated := true)
    ensures Kept(before, next, now)
  {
  }

  lemma ActiveAside(before: Modem, n: Notes, m: Modem, now: Modem, on: bool)
    requires Kept(before, n, m) && n.pdpActivated && Effect(Activate(n.cid, on), m, now)
    ensures Kept(before, n, now)
  {
  }

  /** The same contexts, each of them the same when set again. */
  predicate SameProfiles(a: map<byte, Profile>, b: map<byte, Profile>) {
    a.Keys == b.Keys && forall c | c in a :: a[c].canonical == b[c].canonical
  }

  /**
   * The runtime parameters are as before, and where data is disabled so are the contexts and which of them are active.
   */
  predicate Undone(before: Modem, now: Modem, dataEnabled: bool) {
    now.config == before.config
      && (!dataEnabled ==> now.active == before.active && SameProfiles(before.profiles, now.profiles))
  }

  lemma KeptUndone(before: Modem, n: Notes, now: Modem, dataEnabled: bool, ok: bool)
    requires Kept(before, n, now) && (ok ==> now.config == before.config)
    requires ok && n.pdpActivated && !dataEnabled ==> n.cid !in now.active
    requires ok && n.profileChanged && !dataEnabled ==>
      n.cid in now.profiles && now.profiles[n.cid].canonical == n.originalProfile
    ensures ok ==> Undone(before, now, dataEnabled)
  {
    if ok && !dataEnabled {
      if n.pdpActivated {
        assert now.active == now.active - {n.cid} && before.active == before.active - {n.cid};
      }
      if n.profileChanged {
        var a, b := before.profiles, now.profiles;
        assert a.Keys == (a - {n.cid}).Keys + {n.cid} && b.Keys == (b - {n.cid}).Keys + {n.cid};
        forall c | c in a ensures a[c].canonical == b[c].canonical {
          if c != n.cid { assert (a - {n.cid})[c] == (b - {n.cid})[c]; }
        }
      }
    }
  }

  /** A modem on which closing a stale socket fails. */
  function StubbornAnswer(n: nat, c: Command, m: Modem): Answer {
    if c == QueryState then Answer(CmdOk, StateIs(m.socket), m) else Answer(Failed, Malformed, m)
  }

  function Stubborn(): Fate {
    Fate(StubbornAnswer, (n: nat) => false, (n: nat) => Failed, (n: nat) => Exchanged(200), (n: nat) => Closed)
  }

  /**
   * From any other state of the socket there is an honest modem on which a
   * run reports no failed cleanup and the socket is still there.
   */
  method StaleSocketStays(modem: Modem, request: Request) returns (line: Line, r: Outcome)
    requires modem.socket != Initial
    ensures r != CleanupFailed && line.modem.socket != Initial
  {
    var f := Stubborn();
    forall n: nat, c: Command, m: Modem ensures Honest(c, m, f.answers(n, c, m)) { EffectNone(c, m); }
    assert HonestFate(f);
    line := new Line(f, modem);
    var session := new Session(line, request);
    assert Stuck(f, 0, modem);
    r := session.Run();
  }

  /** A modem that does what it is told. */
  function WillingAnswer(n: nat, c: Command, m: Modem): Answer {
    match c
    case QueryState =>
      var t := m.(socket := if m.socket == Connecting then Connected else m.socket);
      Answer(CmdOk, StateIs(t.socket), t)
    case CloseSocket => Answer(CmdOk, CloseIs(0, false), m.(socket := Initial))
    case OpenSocket => Answer(CmdOk, Done, m.(socket := Connecting))
    case QueryConfig(p) => Answer(CmdOk, ConfigIs(Get(m.config, p)), m)
    case SetConfig(p, v) => Answer(CmdOk, Done, m.(config := With(m.config, p, v)))
    case QueryContexts => Answer(CmdOk, ContextsAre(m.profiles), m)
    case SetApn(cid, apn) => Answer(CmdOk, Done, m.(profiles := m.profiles[cid := Profile(apn, apn)]))
    case SetProfile(cid, canonical) =>
      Answer(CmdOk, Done, m.(profiles := m.profiles[cid := Profile(canonical, canonical)]))
    case QueryActive => Answer(CmdOk, ActiveAre(m.active), m)
    case Activate(cid, on) =>
      Answer(CmdOk, Done, m.(active := if on then m.active + {cid} else m.active - {cid}))
  }

  lemma WillingIsHonest(n: nat, c: Command, m: Modem)
    ensures Willing(c, m, WillingAnswer(n, c, m)) && Honest(c, m, WillingAnswer(n, c, m))
  {
    var a := WillingAnswer(n, c, m);
    if c.SetApn? || c.SetProfile? { assert a.next.profiles - {c.cid} == m.profiles - {c.cid}; }
    if c.Activate? { assert a.next.active - {c.cid} == m.active - {c.cid}; }
  }

  /** On such a modem every session succeeds that nothing is in the way of, whatever state the socket is in. */
  method WillingSucceeds(modem: Modem, request: Request) returns (line: Line, r: Outcome)
    requires MaySucceed(modem, request)
    ensures r == RunOk && line.modem.socket == Initial && line.modem.config == modem.config
  {
    var f := Fate(WillingAnswer, (n: nat) => false, (n: nat) => CmdOk, (n: nat) => Exchanged(200), (n: nat) => Closed);
    forall n: nat, c: Command, m: Modem ensures Willing(c, m, f.answers(n, c, m)) && Honest(c, m, f.answers(n, c, m)) {
      WillingIsHonest(n, c, m);
    }
    assert HonestFate(f) && WillingFate(f);
    line := new Line(f, modem);
    var session := new Session(line, request);
    r := session.Run();
  }
}
