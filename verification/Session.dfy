/** Clones of one console as interleaved threads: what each holds, what it waits for, and what
    one step of it does to the shared session. */
module Session {
  import opened Basics

  datatype Lock = ReconnectGate | ReadGate | Main | Meters | Writer | Reader | Firmware

  /** How far a reconnect has replaced the session. Only the reconnecting thread moves it. */
  datatype Phase =
    | Steady
    | Dialed
    | Flagged
    | WriterSwapped
    | ReaderSwapped
    | Cleared
    | Bumped
    | Untainted

  /** A bulk batch that reached the transport. */
  datatype Entry = Entry(startedUnder: nat, session: nat, tainted: bool, reconnecting: bool)

  /** Sessions are numbered in the order their handshakes succeeded. `unread` says which
      sessions the received bytes and responses that are still queued came from; `timedOut`, the
      sessions a capture was given up on, and `log` are history. */
  datatype Shared = Shared(
    generation: nat,
    reconnecting: bool,
    tainted: bool,
    writer: nat,
    reader: nat,
    unread: set<nat>,
    sessions: nat,
    phase: Phase,
    timedOut: set<nat>,
    log: seq<Entry>)

  // ---------- threads ----------

  datatype RStep =
    | WaitGate(seen: nat)
    | HasGate(seen: nat)
    | Dial
    | WaitSignal(session: nat)
    | Signal(session: nat)
    | WaitReaders(session: nat)
    | WaitMain(session: nat)
    | WaitWriter(session: nat)
    | WaitReader(session: nat)
    | SwapWriter(session: nat)
    | SwapReader(session: nat)
    | Clear
    | WaitMeters
    | StopMeters
    | WaitFirmware
    | NoteFirmware
    | WaitFinish
    | Bump
    | Untaint
    | FlagDown
    | LeaveReaders
    | LeaveGate

  /** Inside one operation that holds the read gate. */
  datatype GStep =
    | AtGate
    | Holding
    | AtRequest
    | Request
    | AtMain
    | InMain
    | AtKeepAlive
    | KeepAlive
    | AtSocket
    | Receive
    | AtTaint
    | Taint

  datatype BStep =
    | Next
    | AtWriter
    | CheckTaint
    | CheckFlag
    | CheckGeneration
    | WriteBatch

  datatype Pc =
    | Idle
    | Reconnect(r: RStep)
    | WaitSweep
    | Sweep
    /** A read, an attended get or a capture; `sweep` if a whole dump holds the reconnect gate
        around it. `kept` are the sessions of responses it has set aside, `capture` the session
        a capture was started on. */
    | Gated(sweep: bool, kept: set<nat>, capture: Option<nat>, g: GStep)
    | Bulk(seen: nat, b: BStep)
    | WaitSend
    | Send
    | WaitKeep(meters: bool)
    | Keep(meters: bool)
    | WaitKeepSend(meters: bool)
    | KeepSend(meters: bool)
    | WaitVersion
    | Version

  function HeldIn(r: RStep): set<Lock> {
    match r
    case WaitGate(_) => {}
    case HasGate(_) => {ReconnectGate}
    case Dial => {ReconnectGate}
    case WaitSignal(_) => {ReconnectGate}
    case Signal(_) => {ReconnectGate, Writer}
    case WaitReaders(_) => {ReconnectGate}
    case WaitMain(_) => {ReconnectGate, ReadGate}
    case WaitWriter(_) => {ReconnectGate, ReadGate, Main}
    case WaitReader(_) => {ReconnectGate, ReadGate, Main, Writer}
    case SwapWriter(_) => {ReconnectGate, ReadGate, Main, Writer, Reader}
    case SwapReader(_) => {ReconnectGate, ReadGate, Main, Writer, Reader}
    case Clear => {ReconnectGate, ReadGate, Main, Writer, Reader}
    case WaitMeters => {ReconnectGate, ReadGate}
    case StopMeters => {ReconnectGate, ReadGate, Meters}
    case WaitFirmware => {ReconnectGate, ReadGate}
    case NoteFirmware => {ReconnectGate, ReadGate, Firmware}
    case WaitFinish => {ReconnectGate, ReadGate}
    case Bump => {ReconnectGate, ReadGate, Writer}
    case Untaint => {ReconnectGate, ReadGate, Writer}
    case FlagDown => {ReconnectGate, ReadGate, Writer}
    case LeaveReaders => {ReconnectGate, ReadGate}
    case LeaveGate => {ReconnectGate}
  }

  function HeldGated(g: GStep): set<Lock> {
    match g
    case AtGate => {}
    case Holding => {ReadGate}
    case AtRequest => {ReadGate}
    case Request => {ReadGate, Writer}
    case AtMain => {ReadGate}
    case InMain => {ReadGate, Main}
    case AtKeepAlive => {ReadGate, Main}
    case KeepAlive => {ReadGate, Main, Writer}
    case AtSocket => {ReadGate, Main}
    case Receive => {ReadGate, Main, Reader}
    case AtTaint => {ReadGate, Main}
    case Taint => {ReadGate, Main, Writer}
  }

  function Held(pc: Pc): set<Lock> {
    match pc
    case Idle => {}
    case Reconnect(r) => HeldIn(r)
    case WaitSweep => {}
    case Sweep => {ReconnectGate}
    case Gated(sweep, _, _, g) => HeldGated(g) + (if sweep then {ReconnectGate} else {})
    case Bulk(_, b) => if b.Next? || b.AtWriter? then {} else {Writer}
    case WaitSend => {}
    case Send => {Writer}
    case WaitKeep(_) => {}
    case Keep(meters) => {if meters then Meters else Main}
    case WaitKeepSend(meters) => {if meters then Meters else Main}
    case KeepSend(meters) => {if meters then Meters else Main, Writer}
    case WaitVersion => {}
    case Version => {Firmware}
  }

  /** The lock a thread is waiting for, and where it goes on once it has it. */
  function Wants(pc: Pc): Option<(Lock, Pc)> {
    match pc
    case Idle => None
    case Reconnect(r) => WantsIn(r)
    case WaitSweep => Some((ReconnectGate, Sweep))
    case Sweep => None
    case Gated(_, _, _, g) =>
      (match g
       case AtGate => Some((ReadGate, pc.(g := Holding)))
       case AtRequest => Some((Writer, pc.(g := Request)))
       case AtMain => Some((Main, pc.(g := InMain)))
       case AtKeepAlive => Some((Writer, pc.(g := KeepAlive)))
       case AtSocket => Some((Reader, pc.(g := Receive)))
       case AtTaint => Some((Writer, pc.(g := Taint)))
       case _ => None)
    case Bulk(_, b) => if b.AtWriter? then Some((Writer, pc.(b := CheckTaint))) else None
    case WaitSend => Some((Writer, Send))
    case Send => None
    case WaitKeep(meters) => Some((if meters then Meters else Main, Keep(meters)))
    case Keep(_) => None
    case WaitKeepSend(meters) => Some((Writer, KeepSend(meters)))
    case KeepSend(_) => None
    case WaitVersion => Some((Firmware, Version))
    case Version => None
  }

  function WantsIn(r: RStep): Option<(Lock, Pc)> {
    match r
    case WaitGate(seen) => Some((ReconnectGate, Reconnect(HasGate(seen))))
    case WaitSignal(session) => Some((Writer, Reconnect(Signal(session))))
    case WaitReaders(session) => Some((ReadGate, Reconnect(WaitMain(session))))
    case WaitMain(session) => Some((Main, Reconnect(WaitWriter(session))))
    case WaitWriter(session) => Some((Writer, Reconnect(WaitReader(session))))
    case WaitReader(session) => Some((Reader, Reconnect(SwapWriter(session))))
    case WaitMeters => Some((Meters, Reconnect(StopMeters)))
    case WaitFirmware => Some((Firmware, Reconnect(NoteFirmware)))
    case WaitFinish => Some((Writer, Reconnect(Bump)))
    case _ => None
  }

  // ---------- steps of a thread that is not waiting ----------

  /** A reconnect, one atomic access at a time. */
  predicate ReconnectActs(s: Shared, r: RStep, s': Shared, pc': Pc) {
    match r
    case HasGate(seen) =>
      s' == s && pc' == Reconnect(if s.generation != seen then LeaveGate else Dial)
    case Dial =>
      || (s' == s && (pc' == Reconnect(Dial) || pc' == Reconnect(LeaveGate)))
      || (s' == s.(sessions := s.sessions + 1, phase := Dialed)
          && pc' == Reconnect(WaitSignal(s.sessions + 1)))
    case Signal(session) =>
      s' == s.(reconnecting := true, phase := Flagged) && pc' == Reconnect(WaitReaders(session))
    case SwapWriter(session) =>
      s' == s.(writer := session, phase := WriterSwapped) && pc' == Reconnect(SwapReader(session))
    case SwapReader(session) =>
      s' == s.(reader := session, phase := ReaderSwapped) && pc' == Reconnect(Clear)
    case Clear =>
      s' == s.(unread := {}, phase := Cleared) && pc' == Reconnect(WaitMeters)
    case StopMeters =>
      s' == s && (pc' == Reconnect(WaitFirmware) || pc' == Reconnect(WaitFinish))
    case NoteFirmware =>
      s' == s && pc' == Reconnect(WaitFinish)
    case Bump =>
      s' == s.(generation := s.generation + 1, phase := Bumped) && pc' == Reconnect(Untaint)
    case Untaint =>
      s' == s.(tainted := false, phase := Untainted) && pc' == Reconnect(FlagDown)
    case FlagDown =>
      s' == s.(reconnecting := false, phase := Steady) && pc' == Reconnect(LeaveReaders)
    case LeaveReaders =>
      s' == s && pc' == Reconnect(LeaveGate)
    case LeaveGate =>
      s' == s && pc' == Idle
    case _ => false
  }

  /** Under the read gate. Inside `main`, queued bytes and responses may be taken, put back or
      dropped in any way. */
  predicate GatedActs(s: Shared, pc: Pc, s': Shared, pc': Pc)
    requires pc.Gated?
  {
    match pc.g
    case Holding =>
      s' == s && (pc' == (if pc.sweep then Sweep else Idle)
                  || pc' == pc.(g := AtRequest) || pc' == pc.(g := AtMain))
    case Request => s' == s && pc' == pc.(g := Holding)
    case InMain =>
      || (s' == s && (pc' == pc.(g := Holding) || pc' == pc.(g := AtKeepAlive) || pc' == pc.(g := AtSocket)))
      || (s' == s && pc.capture == None && pc' == pc.(capture := Some(s.reader)))
      || (s' == s && pc.capture.Some? && pc' == pc.(capture := None))
      || (s' == s.(timedOut := s.timedOut + OptionSet(pc.capture))
          && pc.capture.Some? && pc' == pc.(g := AtTaint))
      || (&& s' == s.(unread := s'.unread) && pc' == pc.(kept := if pc'.Gated? then pc'.kept else {})
          && s'.unread <= s.unread + pc.kept && pc'.kept <= s.unread + pc.kept)
    case KeepAlive => s' == s && pc' == pc.(g := InMain)
    case Receive => s' == s.(unread := s.unread + {s.reader}) && pc' == pc.(g := InMain)
    case Taint => s' == s.(tainted := true) && pc' == pc.(g := Holding, capture := None)
    case _ => false
  }

  function OptionSet(o: Option<nat>): set<nat> {
    if o.Some? then {o.value} else {}
  }

  /** One flush of a bulk write: three separate loads, then the write, all under the writer. */
  predicate BulkActs(s: Shared, seen: nat, b: BStep, s': Shared, pc': Pc) {
    match b
    case Next => s' == s && (pc' == Idle || pc' == Bulk(seen, AtWriter))
    case CheckTaint => s' == s && pc' == Bulk(seen, if s.tainted then Next else CheckFlag)
    case CheckFlag => s' == s && pc' == Bulk(seen, if s.reconnecting then Next else CheckGeneration)
    case CheckGeneration => s' == s && pc' == Bulk(seen, if s.generation != seen then Next else WriteBatch)
    case WriteBatch =>
      s' == s.(log := s.log + [Entry(seen, s.writer, s.tainted, s.reconnecting)])
      && pc' == Bulk(seen, Next)
    case AtWriter => false
  }

  predicate Acts(s: Shared, pc: Pc, s': Shared, pc': Pc) {
    match pc
    case Idle =>
      s' == s && (pc' == Reconnect(WaitGate(s.generation)) || pc' == WaitSweep
                  || pc' == Gated(false, {}, None, AtGate) || pc' == Bulk(s.generation, Next)
                  || pc' == WaitSend || pc' == WaitKeep(true) || pc' == WaitKeep(false)
                  || pc' == WaitVersion)
    case Reconnect(r) => ReconnectActs(s, r, s', pc')
    case WaitSweep => false
    case Sweep => s' == s && (pc' == Idle || pc' == Gated(true, {}, None, AtGate))
    case Gated(_, _, _, _) => GatedActs(s, pc, s', pc')
    case Bulk(seen, b) => BulkActs(s, seen, b, s', pc')
    case WaitSend => false
    case Send => s' == s && pc' == Idle
    case WaitKeep(_) => false
    case Keep(meters) => s' == s && (pc' == Idle || pc' == WaitKeepSend(meters))
    case WaitKeepSend(_) => false
    case KeepSend(_) => s' == s && pc' == Idle
    case WaitVersion => false
    case Version => s' == s && pc' == Idle
  }

  // ---------- the whole system ----------

  datatype System = System(shared: Shared, threads: seq<Pc>)

  predicate Free(threads: seq<Pc>, lock: Lock) {
    forall u :: 0 <= u < |threads| ==> lock !in Held(threads[u])
  }

  predicate Step(a: System, t: nat, b: System) {
    && t < |a.threads| == |b.threads|
    && b.threads == a.threads[t := b.threads[t]]
    && match Wants(a.threads[t])
       case Some((lock, next)) =>
         Free(a.threads, lock) && b.threads[t] == next && b.shared == a.shared
       case None => Acts(a.shared, a.threads[t], b.shared, b.threads[t])
  }

  /** A fresh console with any number of clones. */
  predicate Initial(s: System) {
    && s.shared == Shared(0, false, false, 0, 0, {}, 0, Steady, {}, [])
    && forall t :: 0 <= t < |s.threads| ==> s.threads[t] == Idle
  }

  ghost predicate Reaches(a: System, b: System, steps: nat)
    decreases steps
  {
    if steps == 0 then a == b
    else exists mid: System, t: nat :: Reaches(a, mid, steps - 1) && Step(mid, t, b)
  }
}
