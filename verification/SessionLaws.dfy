/** What every run of the clones keeps: the session fence, and no lock cycle. */
module SessionLaws {
  import opened Basics
  import opened Session

  // ---------- the invariant ----------

  predicate Early(p: Phase) {
    p.Steady? || p.Dialed? || p.Flagged?
  }

  function PhaseOf(r: RStep): Phase {
    match r
    case WaitGate(_) => Steady
    case HasGate(_) => Steady
    case Dial => Steady
    case WaitSignal(_) => Dialed
    case Signal(_) => Dialed
    case WaitReaders(_) => Flagged
    case WaitMain(_) => Flagged
    case WaitWriter(_) => Flagged
    case WaitReader(_) => Flagged
    case SwapWriter(_) => Flagged
    case SwapReader(_) => WriterSwapped
    case Clear => ReaderSwapped
    case WaitMeters => Cleared
    case StopMeters => Cleared
    case WaitFirmware => Cleared
    case NoteFirmware => Cleared
    case WaitFinish => Cleared
    case Bump => Cleared
    case Untaint => Bumped
    case FlagDown => Untainted
    case LeaveReaders => Steady
    case LeaveGate => Steady
  }

  function NewSession(r: RStep): Option<nat> {
    match r
    case WaitSignal(session) => Some(session)
    case Signal(session) => Some(session)
    case WaitReaders(session) => Some(session)
    case WaitMain(session) => Some(session)
    case WaitWriter(session) => Some(session)
    case WaitReader(session) => Some(session)
    case SwapWriter(session) => Some(session)
    case SwapReader(session) => Some(session)
    case _ => None
  }

  /** What holds of the shared session whatever the threads do. */
  predicate SharedOk(s: Shared) {
    && (s.reconnecting <==> !s.phase.Steady? && !s.phase.Dialed?)
    && s.sessions == (if s.phase in {Steady, Bumped, Untainted} then s.generation else s.generation + 1)
    && s.writer == (if Early(s.phase) then s.generation else s.sessions)
    && s.reader == (if Early(s.phase) || s.phase.WriterSwapped? then s.generation else s.sessions)
    && s.unread <= {if s.phase.ReaderSwapped? then s.generation else s.reader}
    && (s.tainted ==>
          !s.phase.Untainted?
          && (if s.phase.Bumped? then s.generation - 1 else s.generation) in s.timedOut)
    && (s.phase in {Bumped, Untainted} ==> s.generation > 0)
    && (forall n <- s.timedOut :: if s.phase in {Bumped, Untainted} then n < s.generation else n <= s.generation)
    && (forall e <- s.log ::
          e.session == e.startedUnder && !e.tainted && !e.reconnecting && e.startedUnder <= s.generation)
  }

  predicate ReconnectOk(s: Shared, r: RStep) {
    && (ReconnectGate in HeldIn(r) ==> s.phase == PhaseOf(r))
    && (NewSession(r).Some? ==> NewSession(r).value == s.sessions)
  }

  /** What a thread may rely on where it is. */
  predicate LocalOk(s: Shared, pc: Pc) {
    match pc
    case Reconnect(r) => ReconnectOk(s, r)
    case Sweep => s.phase.Steady?
    case Gated(sweep, kept, capture, g) =>
      && (sweep ==> s.phase.Steady?)
      && (g.AtGate? ==> kept == {} && capture == None)
      && (ReadGate in HeldGated(g) ==> Early(s.phase) && kept <= {s.reader} && OptionSet(capture) <= {s.reader})
      && (g.AtTaint? || g.Taint? ==> capture.Some? && capture.value in s.timedOut)
    case Bulk(seen, b) =>
      && seen <= s.generation
      && (b.CheckFlag? || b.CheckGeneration? || b.WriteBatch? ==> !s.tainted)
      && (b.CheckGeneration? || b.WriteBatch? ==> !s.reconnecting)
      && (b.WriteBatch? ==> s.generation == seen)
    case _ => true
  }

  ghost predicate Exclusive(threads: seq<Pc>) {
    forall t, u :: 0 <= t < |threads| && 0 <= u < |threads| && t != u ==> Held(threads[t]) !! Held(threads[u])
  }

  /** A session that is not steady is some thread's reconnect. */
  ghost predicate Anchored(s: System) {
    s.shared.phase.Steady? || exists t :: 0 <= t < |s.threads| && ReconnectGate in Held(s.threads[t])
  }

  /** On its way to the fence: a capture on session `n` timed out and has yet to taint. */
  predicate Pending(pc: Pc, n: nat) {
    pc.Gated? && (pc.g.AtTaint? || pc.g.Taint?) && pc.capture == Some(n)
  }

  /** A session a capture was given up on is tainted, or a thread is on its way to taint it, or
      it has been replaced. */
  ghost predicate Raised(s: System) {
    forall n :: n in s.shared.timedOut ==>
      n < s.shared.generation || s.shared.tainted
      || exists t :: 0 <= t < |s.threads| && Pending(s.threads[t], n)
  }

  ghost predicate Inv(s: System) {
    && SharedOk(s.shared)
    && Exclusive(s.threads)
    && Anchored(s)
    && Raised(s)
    && forall t :: 0 <= t < |s.threads| ==> LocalOk(s.shared, s.threads[t])
  }

  // ---------- one step ----------

  /** What a step may change, by the locks its thread holds. */
  predicate Respects(held: set<Lock>, s: Shared, s': Shared) {
    && s.generation <= s'.generation
    && (ReconnectGate !in held ==> s'.phase == s.phase && s'.sessions == s.sessions)
    && (Writer !in held ==>
          s'.tainted == s.tainted && s'.reconnecting == s.reconnecting
          && s'.generation == s.generation && s'.writer == s.writer && s'.log == s.log)
    && (Reader !in held || ReadGate !in held ==> s'.reader == s.reader)
    && (Main !in held ==> s'.unread == s.unread)
    && (ReadGate !in held && Early(s.phase) ==> Early(s'.phase))
    && s.timedOut <= s'.timedOut
  }

  lemma ReconnectKeepsShared(s: Shared, r: RStep, s': Shared, pc': Pc)
    requires SharedOk(s) && LocalOk(s, Reconnect(r)) && ReconnectActs(s, r, s', pc')
    ensures SharedOk(s')
  {
  }

  lemma ReconnectKeepsLocal(s: Shared, r: RStep, s': Shared, pc': Pc)
    requires LocalOk(s, Reconnect(r)) && ReconnectActs(s, r, s', pc')
    ensures LocalOk(s', pc')
  {
    assert pc'.Reconnect? || pc'.Idle?;
  }

  lemma ReconnectRespects(s: Shared, r: RStep, s': Shared, pc': Pc)
    requires LocalOk(s, Reconnect(r)) && ReconnectActs(s, r, s', pc')
    ensures Respects(HeldIn(r), s, s')
    ensures Held(pc') <= HeldIn(r)
    ensures s'.phase == s.phase || ReconnectGate in Held(pc')
    ensures ReconnectGate in Held(pc') || pc'.Idle?
  {
  }

  lemma GatedKeepsShared(s: Shared, pc: Pc, s': Shared, pc': Pc)
    requires pc.Gated? && SharedOk(s) && LocalOk(s, pc) && GatedActs(s, pc, s', pc')
    ensures SharedOk(s')
  {
    hide LocalOk;
    GatedFacts(s, pc, s', pc');
  }

  lemma GatedFacts(s: Shared, pc: Pc, s': Shared, pc': Pc)
    requires pc.Gated? && LocalOk(s, pc) && GatedActs(s, pc, s', pc')
    ensures Early(s.phase) && pc.kept <= {s.reader}
    ensures pc.capture.Some? ==> pc.capture == Some(s.reader)
    ensures pc.g.Taint? ==> pc.capture.Some? && pc.capture.value in s.timedOut
  {
    assert pc.capture.Some? ==> pc.capture.value in OptionSet(pc.capture);
  }

  lemma GatedKeepsLocal(s: Shared, pc: Pc, s': Shared, pc': Pc)
    requires pc.Gated? && SharedOk(s) && LocalOk(s, pc) && GatedActs(s, pc, s', pc')
    ensures LocalOk(s', pc')
  {
    assert !s.phase.ReaderSwapped?;
    assert s.unread <= {s.reader};
    hide SharedOk;
  }

  lemma GatedRespects(s: Shared, pc: Pc, s': Shared, pc': Pc)
    requires pc.Gated? && GatedActs(s, pc, s', pc')
    ensures Respects(Held(pc), s, s')
    ensures Held(pc') <= Held(pc) && (pc.sweep ==> ReconnectGate in Held(pc'))
  {
  }

  lemma BulkKeeps(s: Shared, seen: nat, b: BStep, s': Shared, pc': Pc)
    requires SharedOk(s) && LocalOk(s, Bulk(seen, b)) && BulkActs(s, seen, b, s', pc')
    ensures SharedOk(s') && LocalOk(s', pc')
    ensures Respects(Held(Bulk(seen, b)), s, s')
    ensures Held(pc') <= Held(Bulk(seen, b))
  {
  }

  lemma ActsKeep(s: Shared, pc: Pc, s': Shared, pc': Pc)
    requires SharedOk(s) && LocalOk(s, pc) && Acts(s, pc, s', pc') && Wants(pc).None?
    ensures SharedOk(s') && LocalOk(s', pc')
    ensures Respects(Held(pc), s, s')
    ensures Held(pc') <= Held(pc)
    ensures ReconnectGate in Held(pc) ==> s'.phase.Steady? || ReconnectGate in Held(pc')
  {
    match pc {
      case Reconnect(r) =>
        ReconnectKeepsShared(s, r, s', pc');
        ReconnectKeepsLocal(s, r, s', pc');
        ReconnectRespects(s, r, s', pc');
      case Gated(_, _, _, _) =>
        GatedKeepsShared(s, pc, s', pc');
        GatedKeepsLocal(s, pc, s', pc');
        GatedRespects(s, pc, s', pc');
      case Bulk(seen, b) => BulkKeeps(s, seen, b, s', pc');
      case _ =>
    }
  }

  /** A thread that holds other locks cannot upset what this one relies on. */
  lemma Undisturbed(s: Shared, s': Shared, acting: set<Lock>, pc: Pc)
    requires SharedOk(s) && SharedOk(s') && LocalOk(s, pc)
    requires Respects(acting, s, s') && acting !! Held(pc)
    ensures LocalOk(s', pc)
  {
  }

  lemma AcquireReconnect(s: Shared, r: RStep)
    requires WantsIn(r).Some? && LocalOk(s, Reconnect(r))
    requires WantsIn(r).value.0 == ReconnectGate ==> s.phase.Steady?
    ensures var (lock, next) := WantsIn(r).value;
            LocalOk(s, next) && Held(next) == HeldIn(r) + {lock}
  {
  }

  lemma AcquireGated(s: Shared, pc: Pc)
    requires pc.Gated? && Wants(pc).Some? && LocalOk(s, pc)
    requires Wants(pc).value.0 == ReadGate ==> Early(s.phase)
    ensures var (lock, next) := Wants(pc).value;
            LocalOk(s, next) && Held(next) == Held(pc) + {lock}
  {
  }

  lemma AcquireKeeps(s: Shared, pc: Pc)
    requires Wants(pc).Some? && LocalOk(s, pc)
    requires Wants(pc).value.0 == ReadGate ==> Early(s.phase)
    requires Wants(pc).value.0 == ReconnectGate ==> s.phase.Steady?
    ensures var (lock, next) := Wants(pc).value;
            LocalOk(s, next) && Held(next) == Held(pc) + {lock}
  {
    if pc.Reconnect? {
      AcquireReconnect(s, pc.r);
    } else if pc.Gated? {
      AcquireGated(s, pc);
    }
  }

  /** While nobody holds a gate, no reconnect is under way behind it. */
  lemma GatesGuard(s: System)
    requires Inv(s)
    ensures Free(s.threads, ReconnectGate) ==> s.shared.phase.Steady?
    ensures Free(s.threads, ReadGate) ==> Early(s.shared.phase)
  {
    hide SharedOk, Exclusive, Raised;
    if !s.shared.phase.Steady? {
      var t :| 0 <= t < |s.threads| && ReconnectGate in Held(s.threads[t]);
      HolderReconnects(s.shared, s.threads[t]);
    }
  }

  lemma HolderReconnects(s: Shared, pc: Pc)
    requires LocalOk(s, pc) && ReconnectGate in Held(pc) && !s.phase.Steady?
    ensures pc.Reconnect? && PhaseOf(pc.r) == s.phase
    ensures ReadGate in Held(pc) || Early(s.phase)
  {
  }

  lemma StepKeeps(a: System, t: nat, b: System)
    requires Inv(a) && Step(a, t, b)
    ensures Inv(b)
  {
    hide SharedOk, LocalOk, Respects, Acts, Raised;
    var pc, pc' := a.threads[t], b.threads[t];
    GatesGuard(a);
    match Wants(pc) {
      case Some((lock, next)) =>
        AcquireKeeps(a.shared, pc);
        forall u | 0 <= u < |b.threads| && u != t ensures Held(b.threads[u]) !! Held(pc') {
          assert b.threads[u] == a.threads[u];
        }
      case None =>
        ActsKeep(a.shared, pc, b.shared, pc');
        forall u | 0 <= u < |b.threads| && u != t
          ensures Held(b.threads[u]) !! Held(pc') && LocalOk(b.shared, b.threads[u])
        {
          assert b.threads[u] == a.threads[u];
          Undisturbed(a.shared, b.shared, Held(pc), a.threads[u]);
        }
    }
    AnchorKept(a, t, b);
    StaysRaised(a, t, b);
  }

  /** What a step does to the taint of session `n`. */
  lemma ActsRaise(s: Shared, pc: Pc, s': Shared, pc': Pc, n: nat)
    requires SharedOk(s) && LocalOk(s, pc) && Acts(s, pc, s', pc') && n in s'.timedOut
    ensures n !in s.timedOut ==> Pending(pc', n)
    ensures Pending(pc, n) && Wants(pc).None? ==> s'.tainted
    ensures s.tainted ==> s'.tainted || n < s'.generation
    ensures s.generation <= s'.generation
  {
    hide SharedOk, LocalOk;
    if pc.Reconnect? {
      TaintLifted(s, pc.r, s', pc', n);
    }
  }

  lemma TaintLifted(s: Shared, r: RStep, s': Shared, pc': Pc, n: nat)
    requires SharedOk(s) && LocalOk(s, Reconnect(r)) && ReconnectActs(s, r, s', pc') && n in s'.timedOut
    ensures s'.timedOut == s.timedOut && s.generation <= s'.generation
    ensures s.tainted ==> s'.tainted || n < s'.generation
  {
  }

  lemma StaysRaised(a: System, t: nat, b: System)
    requires Inv(a) && Step(a, t, b)
    ensures Raised(b)
  {
    hide SharedOk, LocalOk, Exclusive, Anchored, Acts;
    var pc, pc' := a.threads[t], b.threads[t];
    forall n | n in b.shared.timedOut
      ensures n < b.shared.generation || b.shared.tainted
              || exists u :: 0 <= u < |b.threads| && Pending(b.threads[u], n)
    {
      if Wants(pc).Some? {
        StillPending(pc, n);
      } else {
        ActsRaise(a.shared, pc, b.shared, pc', n);
      }
      if n in a.shared.timedOut && n >= a.shared.generation && !a.shared.tainted {
        var u :| 0 <= u < |a.threads| && Pending(a.threads[u], n);
        assert u != t ==> Pending(b.threads[u], n);
        assert u == t && Wants(pc).Some? ==> Pending(b.threads[t], n);
      }
    }
  }

  lemma StillPending(pc: Pc, n: nat)
    requires Wants(pc).Some?
    ensures Pending(pc, n) ==> Pending(Wants(pc).value.1, n)
  {
  }

  lemma AnchorKept(a: System, t: nat, b: System)
    requires Inv(a) && Step(a, t, b)
    ensures Anchored(b)
  {
    hide SharedOk, LocalOk, Respects, Acts, Exclusive, Raised;
    var pc, pc' := a.threads[t], b.threads[t];
    if Wants(pc).Some? {
      AcquireHolds(pc);
    } else {
      ActsKeep(a.shared, pc, b.shared, pc');
      PhaseMoves(a.shared, b.shared, Held(pc));
    }
    if !b.shared.phase.Steady? && ReconnectGate !in Held(pc') {
      var u :| 0 <= u < |a.threads| && ReconnectGate in Held(a.threads[u]);
      assert b.threads[u] == a.threads[u];
    }
  }

  lemma AcquireHolds(pc: Pc)
    requires Wants(pc).Some?
    ensures var (lock, next) := Wants(pc).value; Held(next) == Held(pc) + {lock}
  {
  }

  lemma PhaseMoves(s: Shared, s': Shared, held: set<Lock>)
    requires Respects(held, s, s')
    ensures s'.phase == s.phase || ReconnectGate in held
  {
  }

  /** The invariant holds in every reachable state of any number of clones. */
  lemma {:induction false} EveryRunKeeps(a: System, b: System, steps: nat)
    requires Inv(a) && Reaches(a, b, steps)
    ensures Inv(b)
    decreases steps
  {
    hide Inv, Step;
    if steps > 0 {
      var mid: System, t: nat :| Reaches(a, mid, steps - 1) && Step(mid, t, b);
      EveryRunKeeps(a, mid, steps - 1);
      StepKeeps(mid, t, b);
    }
  }

  lemma InitialInv(s: System)
    requires Initial(s)
    ensures Inv(s)
  {
  }

  // ---------- the session fence ----------

  /** In every reachable state: while no reconnect is announced, writer and reader belong to the
      session numbered `generation`; every bulk batch went to the session it was started under,
      while it was neither tainted nor being replaced; and the stream is tainted only if a
      capture timed out on the current session, and always then, unless the capturing thread is
      still on its way to taint it. */
  lemma SessionFence(a: System, b: System, steps: nat)
    requires Initial(a) && Reaches(a, b, steps)
    ensures !b.shared.reconnecting ==>
              b.shared.writer == b.shared.reader == b.shared.generation
              && b.shared.unread <= {b.shared.generation}
              && (b.shared.tainted ==> b.shared.generation in b.shared.timedOut)
              && (b.shared.generation in b.shared.timedOut ==>
                    b.shared.tainted
                    || exists t :: 0 <= t < |b.threads| && Pending(b.threads[t], b.shared.generation))
    ensures forall e <- b.shared.log ::
              e.session == e.startedUnder && !e.tainted && !e.reconnecting
  {
    InitialInv(a);
    EveryRunKeeps(a, b, steps);
  }

  /** Whoever holds the read gate to read sees only the current session: everything queued, and
      everything it has set aside, came from the current reader, which cannot change under it. */
  lemma NothingCrosses(a: System, b: System, steps: nat, t: nat)
    requires Initial(a) && Reaches(a, b, steps)
    requires t < |b.threads| && b.threads[t].Gated? && ReadGate in Held(b.threads[t])
    ensures b.shared.unread + b.threads[t].kept <= {b.shared.reader}
    ensures b.shared.reader == b.shared.writer == b.shared.generation
    ensures b.threads[t].capture.Some? ==> b.threads[t].capture.value == b.shared.reader
  {
    InitialInv(a);
    EveryRunKeeps(a, b, steps);
    var pc := b.threads[t];
    assert LocalOk(b.shared, pc);
    assert ReadGate in HeldGated(pc.g);
    assert pc.capture.Some? ==> pc.capture.value in OptionSet(pc.capture);
  }

  /** A reconnect is announced exactly while some thread is between its two announcements. */
  lemma AnnouncedByOne(a: System, b: System, steps: nat)
    requires Initial(a) && Reaches(a, b, steps)
    ensures b.shared.reconnecting <==>
              exists t :: 0 <= t < |b.threads| && InWindow(b.threads[t])
  {
    InitialInv(a);
    EveryRunKeeps(a, b, steps);
    hide Exclusive;
    if b.shared.reconnecting {
      var t :| 0 <= t < |b.threads| && ReconnectGate in Held(b.threads[t]);
      assert LocalOk(b.shared, b.threads[t]);
      HolderReconnects(b.shared, b.threads[t]);
      WindowIsPhase(b.threads[t].r);
    }
    if t :| 0 <= t < |b.threads| && InWindow(b.threads[t]) {
      assert LocalOk(b.shared, b.threads[t]);
      WindowIsPhase(b.threads[t].r);
    }
  }

  predicate InWindow(pc: Pc) {
    && pc.Reconnect?
    && !pc.r.WaitGate? && !pc.r.HasGate? && !pc.r.Dial? && !pc.r.WaitSignal? && !pc.r.Signal?
    && !pc.r.LeaveReaders? && !pc.r.LeaveGate?
  }

  lemma WindowIsPhase(r: RStep)
    ensures InWindow(Reconnect(r)) <==> !PhaseOf(r).Steady? && !PhaseOf(r).Dialed?
    ensures InWindow(Reconnect(r)) ==> ReconnectGate in HeldIn(r)
  {
  }

  /** After a taint: nothing more is written in bulk to that session. */
  predicate FencedOff(s: Shared, session: nat, since: nat) {
    && since <= |s.log|
    && (forall i :: since <= i < |s.log| ==> s.log[i].session > session)
    && (s.generation > session || (s.generation == session && s.tainted && !s.phase.Bumped?))
  }

  lemma FenceStep(a: System, t: nat, b: System, session: nat, since: nat)
    requires Inv(a) && Step(a, t, b) && FencedOff(a.shared, session, since)
    ensures FencedOff(b.shared, session, since)
  {
    hide Exclusive, Anchored, Raised;
    var pc := a.threads[t];
    assert LocalOk(a.shared, pc);
    if Wants(pc).None? {
      FenceActs(a.shared, pc, b.shared, b.threads[t], session, since);
    }
  }

  lemma FenceActs(s: Shared, pc: Pc, s': Shared, pc': Pc, session: nat, since: nat)
    requires SharedOk(s) && LocalOk(s, pc) && Acts(s, pc, s', pc') && FencedOff(s, session, since)
    ensures FencedOff(s', session, since)
  {
    if pc.Reconnect? {
      hide SharedOk;
    } else if pc.Gated? {
      hide SharedOk, LocalOk;
    }
  }

  lemma {:induction false} StaysFenced(a: System, b: System, steps: nat, session: nat)
    requires Inv(a) && Reaches(a, b, steps) && FencedOff(a.shared, session, |a.shared.log|)
    ensures FencedOff(b.shared, session, |a.shared.log|)
    decreases steps
  {
    hide Step, Inv, FencedOff;
    if steps > 0 {
      var mid: System, t: nat :| Reaches(a, mid, steps - 1) && Step(mid, t, b);
      EveryRunKeeps(a, mid, steps - 1);
      StaysFenced(a, mid, steps - 1, session);
      FenceStep(mid, t, b, session, |a.shared.log|);
    }
  }

  /** A capture on session `n` timed out, and no capturing thread has still to raise the fence. */
  ghost predicate Settled(s: System, n: nat) {
    n in s.shared.timedOut && forall t :: 0 <= t < |s.threads| ==> !Pending(s.threads[t], n)
  }

  /** In every run from a fresh console: once the thread whose capture timed out on a session has
      gone past its last step, no bulk batch reaches that session again. */
  lemma TaintFence(start: System, a: System, b: System, before: nat, steps: nat, n: nat)
    requires Initial(start) && Reaches(start, a, before) && Reaches(a, b, steps) && Settled(a, n)
    ensures |a.shared.log| <= |b.shared.log|
    ensures forall i :: |a.shared.log| <= i < |b.shared.log| ==> b.shared.log[i].session != n
  {
    InitialInv(start);
    EveryRunKeeps(start, a, before);
    hide Reaches, Exclusive, Anchored, LocalOk;
    assert FencedOff(a.shared, n, |a.shared.log|);
    StaysFenced(a, b, steps, n);
  }

  // ---------- what is not refused ----------

  lemma {:induction false} ReachesFirst(a: System, t: nat, mid: System, b: System, steps: nat)
    requires Step(a, t, mid) && Reaches(mid, b, steps)
    ensures Reaches(a, b, steps + 1)
    decreases steps
  {
    hide Step;
    if steps == 0 {
      assert Reaches(a, a, 0);
    } else {
      var last: System, u: nat :| Reaches(mid, last, steps - 1) && Step(last, u, b);
      ReachesFirst(a, t, mid, last, steps - 1);
    }
  }

  /** A flush on a healthy session is never refused: with the writer lock held, every step of the
      thread leads on, and the fourth writes the batch to the session it was started under. */
  lemma HealthyFlush(s: Shared, seen: nat)
    requires SharedOk(s) && !s.tainted && !s.reconnecting && s.generation == seen
    ensures forall s', pc' :: BulkActs(s, seen, CheckTaint, s', pc') ==> s' == s && pc' == Bulk(seen, CheckFlag)
    ensures forall s', pc' :: BulkActs(s, seen, CheckFlag, s', pc') ==> s' == s && pc' == Bulk(seen, CheckGeneration)
    ensures forall s', pc' :: BulkActs(s, seen, CheckGeneration, s', pc') ==> s' == s && pc' == Bulk(seen, WriteBatch)
    ensures forall s', pc' :: BulkActs(s, seen, WriteBatch, s', pc') ==>
              s'.log == s.log + [Entry(seen, seen, false, false)] && pc' == Bulk(seen, Next)
  {
  }

  predicate OthersIdle(threads: seq<Pc>, t: nat) {
    forall u :: 0 <= u < |threads| && u != t ==> Held(threads[u]) == {}
  }

  /** The outcome of a reconnecting thread's step in which all goes well. */
  function Forward(s: Shared, r: RStep): (Shared, Pc) {
    match r
    case HasGate(seen) => (s, Reconnect(if s.generation != seen then LeaveGate else Dial))
    case Dial => (s.(sessions := s.sessions + 1, phase := Dialed), Reconnect(WaitSignal(s.sessions + 1)))
    case Signal(n) => (s.(reconnecting := true, phase := Flagged), Reconnect(WaitReaders(n)))
    case SwapWriter(n) => (s.(writer := n, phase := WriterSwapped), Reconnect(SwapReader(n)))
    case SwapReader(n) => (s.(reader := n, phase := ReaderSwapped), Reconnect(Clear))
    case Clear => (s.(unread := {}, phase := Cleared), Reconnect(WaitMeters))
    case StopMeters => (s, Reconnect(WaitFinish))
    case NoteFirmware => (s, Reconnect(WaitFinish))
    case Bump => (s.(generation := s.generation + 1, phase := Bumped), Reconnect(Untaint))
    case Untaint => (s.(tainted := false, phase := Untainted), Reconnect(FlagDown))
    case FlagDown => (s.(reconnecting := false, phase := Steady), Reconnect(LeaveReaders))
    case LeaveReaders => (s, Reconnect(LeaveGate))
    case LeaveGate => (s, Idle)
    case _ => if WantsIn(r).Some? then (s, WantsIn(r).value.1) else (s, Idle)
  }

  function Remaining(r: RStep): nat {
    match r
    case WaitGate(_) => 22
    case HasGate(_) => 21
    case Dial => 20
    case WaitSignal(_) => 19
    case Signal(_) => 18
    case WaitReaders(_) => 17
    case WaitMain(_) => 16
    case WaitWriter(_) => 15
    case WaitReader(_) => 14
    case SwapWriter(_) => 13
    case SwapReader(_) => 12
    case Clear => 11
    case WaitMeters => 10
    case StopMeters => 9
    case WaitFirmware => 8
    case NoteFirmware => 7
    case WaitFinish => 6
    case Bump => 5
    case Untaint => 4
    case FlagDown => 3
    case LeaveReaders => 2
    case LeaveGate => 1
  }

  /** Whether the generation has still to be raised. */
  predicate BeforeBump(r: RStep) {
    Remaining(r) >= 5
  }

  lemma ForwardActs(s: Shared, r: RStep)
    ensures WantsIn(r).None? ==> ReconnectActs(s, r, Forward(s, r).0, Forward(s, r).1)
    ensures WantsIn(r).Some? ==> Forward(s, r) == (s, WantsIn(r).value.1) && WantsIn(r).value.0 !in HeldIn(r)
    ensures var next := Forward(s, r).1;
            next == Idle || (next.Reconnect? && Remaining(next.r) < Remaining(r))
    ensures r.LeaveGate? <==> Forward(s, r).1 == Idle
  {
  }

  lemma ForwardLeads(s: Shared, r: RStep)
    requires !r.LeaveGate? && !(r.HasGate? && r.seen != s.generation) && !(r.WaitGate? && r.seen != s.generation)
    requires Remaining(r) <= 3 ==> !s.tainted
    requires Remaining(r) <= 2 ==> !s.reconnecting
    ensures var (s', next) := Forward(s, r);
            && next.Reconnect?
            && s'.generation + (if BeforeBump(next.r) then 1 else 0) == s.generation + (if BeforeBump(r) then 1 else 0)
            && (Remaining(next.r) <= 3 ==> !s'.tainted) && (Remaining(next.r) <= 2 ==> !s'.reconnecting)
            && !(next.r.HasGate? && next.r.seen != s'.generation)
  {
  }

  /** A reconnect that is not kept waiting and whose handshake succeeds completes: it raises the
      generation by one, lifts the taint and the announcement, and leaves every lock. */
  lemma {:induction false} ReconnectCompletes(a: System, t: nat) returns (b: System, steps: nat)
    requires t < |a.threads| && a.threads[t].Reconnect? && OthersIdle(a.threads, t)
    requires var r := a.threads[t].r;
             && ((r.WaitGate? || r.HasGate?) ==> r.seen == a.shared.generation)
             && (Remaining(r) <= 3 ==> !a.shared.tainted) && (Remaining(r) <= 2 ==> !a.shared.reconnecting)
    ensures Reaches(a, b, steps) && b.threads == a.threads[t := Idle]
    ensures b.shared.generation == a.shared.generation + (if BeforeBump(a.threads[t].r) then 1 else 0)
    ensures !b.shared.tainted && !b.shared.reconnecting
    decreases Remaining(a.threads[t].r)
  {
    hide Reaches, Forward, ReconnectActs;
    var r := a.threads[t].r;
    var (s', next) := Forward(a.shared, r);
    var mid := System(s', a.threads[t := next]);
    ForwardActs(a.shared, r);
    assert Step(a, t, mid);
    if r.LeaveGate? {
      b, steps := mid, 1;
      LastStep(a.shared);
      OneStep(a, t, mid);
    } else {
      ForwardLeads(a.shared, r);
      var k;
      b, k := ReconnectCompletes(mid, t);
      steps := k + 1;
      ReachesFirst(a, t, mid, b, k);
      assert a.threads[t := next][t := Idle] == a.threads[t := Idle];
    }
  }

  lemma LastStep(s: Shared)
    ensures Forward(s, LeaveGate) == (s, Idle)
  {
  }

  lemma OneStep(a: System, t: nat, b: System)
    requires Step(a, t, b)
    ensures Reaches(a, b, 1)
  {
    assert Reaches(a, a, 0);
  }

  /** A capture that times out, undisturbed, raises the fence: three more steps, and the session
      is tainted and nobody has still to taint it. */
  lemma CaptureRaisesFence(a: System, t: nat) returns (b: System)
    requires Inv(a) && t < |a.threads| && OthersIdle(a.threads, t)
    requires a.threads[t].Gated? && a.threads[t].g.InMain? && a.threads[t].capture.Some?
    ensures Reaches(a, b, 3) && b.shared.tainted && Settled(b, a.threads[t].capture.value)
  {
    hide Inv, Reaches;
    var pc := a.threads[t];
    var n := pc.capture.value;
    var gone := a.shared.(timedOut := a.shared.timedOut + {n});
    var one := System(gone, a.threads[t := pc.(g := AtTaint)]);
    var two := System(gone, one.threads[t := pc.(g := Taint)]);
    b := System(gone.(tainted := true), two.threads[t := pc.(g := Holding, capture := None)]);
    assert Step(a, t, one);
    assert Free(one.threads, Writer);
    assert Step(one, t, two) && Step(two, t, b);
    OneStep(two, t, b);
    ReachesFirst(one, t, two, b, 1);
    ReachesFirst(a, t, one, b, 2);
    forall u | 0 <= u < |b.threads| ensures !Pending(b.threads[u], n) {
      assert u != t ==> Held(a.threads[u]) == {};
    }
  }

  // ---------- locks ----------

  function Rank(lock: Lock): nat {
    match lock
    case ReconnectGate => 0
    case ReadGate => 1
    case Main => 2
    case Meters => 2
    case Writer => 3
    case Reader => 4
    case Firmware => 5
  }

  /** Every operation takes its locks in rising order. */
  lemma RisingOrder(pc: Pc)
    requires Wants(pc).Some?
    ensures forall held <- Held(pc) :: Rank(held) < Rank(Wants(pc).value.0)
  {
  }

  predicate WaitsFor(s: System, t: nat, u: nat) {
    && t < |s.threads| && u < |s.threads|
    && Wants(s.threads[t]).Some? && Wants(s.threads[t]).value.0 in Held(s.threads[u])
  }

  /** Threads that wait one for the next, in a row. */
  predicate Chain(s: System, ts: seq<nat>) {
    forall i :: 0 <= i < |ts| - 1 ==> WaitsFor(s, ts[i], ts[i + 1])
  }

  /** The rank of what a thread waits for; above all ranks if it does not wait. */
  function WantedRank(s: System, t: nat): nat {
    if t < |s.threads| && Wants(s.threads[t]).Some? then Rank(Wants(s.threads[t]).value.0) else 6
  }

  lemma {:induction false} ChainRises(s: System, ts: seq<nat>)
    requires |ts| >= 2 && Chain(s, ts)
    ensures WantedRank(s, ts[0]) < WantedRank(s, ts[|ts| - 1])
    decreases |ts|
  {
    hide Held, Wants;
    assert WaitsFor(s, ts[0], ts[1]);
    if Wants(s.threads[ts[1]]).Some? {
      RisingOrder(s.threads[ts[1]]);
    }
    if |ts| > 2 {
      assert WaitsFor(s, ts[1], ts[2]);
      assert forall i :: 0 <= i < |ts[1..]| - 1 ==> WaitsFor(s, ts[1..][i], ts[1..][i + 1]) by {
        forall i | 0 <= i < |ts[1..]| - 1 ensures WaitsFor(s, ts[1..][i], ts[1..][i + 1]) {
          assert WaitsFor(s, ts[i + 1], ts[i + 1 + 1]);
        }
      }
      ChainRises(s, ts[1..]);
    }
  }

  /** No state whatever has a cycle of threads each waiting for the next. */
  lemma NoLockCycle(s: System, ts: seq<nat>)
    requires |ts| >= 2 && Chain(s, ts)
    ensures ts[0] != ts[|ts| - 1]
  {
    ChainRises(s, ts);
    assert WaitsFor(s, ts[0], ts[1]);
  }

  ghost predicate CanStep(s: System, t: nat) {
    exists b :: Step(s, t, b)
  }

  lemma ReconnectTotal(s: Shared, r: RStep)
    requires WantsIn(r).None?
    ensures exists s', pc' :: ReconnectActs(s, r, s', pc')
  {
    match r
    case HasGate(seen) => assert ReconnectActs(s, r, s, Reconnect(if s.generation != seen then LeaveGate else Dial));
    case Dial => assert ReconnectActs(s, r, s, Reconnect(Dial));
    case Signal(n) =>
      assert ReconnectActs(s, r, s.(reconnecting := true, phase := Flagged), Reconnect(WaitReaders(n)));
    case SwapWriter(n) =>
      assert ReconnectActs(s, r, s.(writer := n, phase := WriterSwapped), Reconnect(SwapReader(n)));
    case SwapReader(n) =>
      assert ReconnectActs(s, r, s.(reader := n, phase := ReaderSwapped), Reconnect(Clear));
    case Clear => assert ReconnectActs(s, r, s.(unread := {}, phase := Cleared), Reconnect(WaitMeters));
    case StopMeters => assert ReconnectActs(s, r, s, Reconnect(WaitFinish));
    case NoteFirmware => assert ReconnectActs(s, r, s, Reconnect(WaitFinish));
    case Bump =>
      assert ReconnectActs(s, r, s.(generation := s.generation + 1, phase := Bumped), Reconnect(Untaint));
    case Untaint => assert ReconnectActs(s, r, s.(tainted := false, phase := Untainted), Reconnect(FlagDown));
    case FlagDown => assert ReconnectActs(s, r, s.(reconnecting := false, phase := Steady), Reconnect(LeaveReaders));
    case LeaveReaders => assert ReconnectActs(s, r, s, Reconnect(LeaveGate));
    case LeaveGate => assert ReconnectActs(s, r, s, Idle);
  }

  lemma GatedTotal(s: Shared, pc: Pc)
    requires pc.Gated? && Wants(pc).None?
    ensures exists s', pc' :: GatedActs(s, pc, s', pc')
  {
    match pc.g
    case Holding => assert GatedActs(s, pc, s, pc.(g := AtMain));
    case Request => assert GatedActs(s, pc, s, pc.(g := Holding));
    case InMain => assert GatedActs(s, pc, s, pc.(g := Holding));
    case KeepAlive => assert GatedActs(s, pc, s, pc.(g := InMain));
    case Receive => assert GatedActs(s, pc, s.(unread := s.unread + {s.reader}), pc.(g := InMain));
    case Taint =>
      assert GatedActs(s, pc, s.(tainted := true), pc.(g := Holding, capture := None));
  }

  lemma BulkTotal(s: Shared, seen: nat, b: BStep)
    requires !b.AtWriter?
    ensures exists s', pc' :: BulkActs(s, seen, b, s', pc')
  {
    match b
    case Next => assert BulkActs(s, seen, b, s, Idle);
    case CheckTaint => assert BulkActs(s, seen, b, s, Bulk(seen, if s.tainted then Next else CheckFlag));
    case CheckFlag =>
      assert BulkActs(s, seen, b, s, Bulk(seen, if s.reconnecting then Next else CheckGeneration));
    case CheckGeneration =>
      assert BulkActs(s, seen, b, s, Bulk(seen, if s.generation != seen then Next else WriteBatch));
    case WriteBatch =>
      assert BulkActs(s, seen, b, s.(log := s.log + [Entry(seen, s.writer, s.tainted, s.reconnecting)]),
                      Bulk(seen, Next));
  }

  lemma ActsTotal(s: Shared, pc: Pc)
    requires Wants(pc).None?
    ensures exists s', pc' :: Acts(s, pc, s', pc')
  {
    match pc {
      case Reconnect(r) =>
        ReconnectTotal(s, r);
        var s', pc' :| ReconnectActs(s, r, s', pc');
        assert Acts(s, pc, s', pc');
      case Gated(_, _, _, _) =>
        GatedTotal(s, pc);
        var s', pc' :| GatedActs(s, pc, s', pc');
        assert Acts(s, pc, s', pc');
      case Bulk(seen, b) =>
        BulkTotal(s, seen, b);
        var s', pc' :| BulkActs(s, seen, b, s', pc');
        assert Acts(s, pc, s', pc');
      case Idle => assert Acts(s, pc, s, WaitSend);
      case Sweep => assert Acts(s, pc, s, Idle);
      case Send => assert Acts(s, pc, s, Idle);
      case Keep(_) => assert Acts(s, pc, s, Idle);
      case KeepSend(_) => assert Acts(s, pc, s, Idle);
      case Version => assert Acts(s, pc, s, Idle);
    }
  }

  lemma NotWaitingCanStep(s: System, t: nat)
    requires t < |s.threads| && Wants(s.threads[t]).None?
    ensures CanStep(s, t)
  {
    var pc := s.threads[t];
    ActsTotal(s.shared, pc);
    var s', pc' :| Acts(s.shared, pc, s', pc');
    assert Step(s, t, System(s', s.threads[t := pc']));
  }

  /** No deadlock: following any thread's wait ends at a thread that can go on. */
  lemma {:induction false} SomeoneCanStep(s: System, t: nat) returns (u: nat)
    requires t < |s.threads|
    ensures u < |s.threads| && CanStep(s, u)
    decreases if Wants(s.threads[t]).Some? then 6 - Rank(Wants(s.threads[t]).value.0) else 0
  {
    hide Held, Wants, Acts;
    if Wants(s.threads[t]).None? {
      NotWaitingCanStep(s, t);
      return t;
    }
    var lock, next := Wants(s.threads[t]).value.0, Wants(s.threads[t]).value.1;
    if Free(s.threads, lock) {
      assert Step(s, t, System(s.shared, s.threads[t := next]));
      return t;
    }
    var v :| 0 <= v < |s.threads| && lock in Held(s.threads[v]);
    if Wants(s.threads[v]).Some? {
      RisingOrder(s.threads[v]);
    }
    u := SomeoneCanStep(s, v);
  }
}
