/** The console reader's state as values: what reading some bytes does to it, and what a read
    that is cut short leaves behind. */
module ReadState {
  import opened Basics
  import opened Framing
  import opened Tokens
  import opened Definitions
  import opened Responses
  import opened Reader
  import opened Attended

  const MAX_NATIVE_RESPONSE_BYTES: nat := 16 * 1024 * 1024

  /** `captured` is what the read in progress has taken so far; `tap` is an active capture. */
  datatype View = View(
    future: Future,
    captured: seq<Byte>,
    tap: Option<seq<Byte>>,
    deadline: bool,
    tainted: bool,
    troubles: seq<Trouble>)

  /** What can go wrong around a reader: the line fails, a reconnect is announced, a deadline
      passes. */
  datatype Trouble = LineFault | ReconnectSeen | DeadlineSeen

  function ErrorOf<T>(r: Result<T>): Option<Error> {
    if r.Err? then Some(r.error) else None
  }

  /** Between `a` and `b` an operation ended with the error `e`, or none: nothing went wrong
      unless the error says so, and then what it says did go wrong. */
  predicate Blames(a: seq<Trouble>, b: seq<Trouble>, e: Option<Error>) {
    && a <= b
    && match e
       case None => b == a
       case Some(error) =>
         match error
         case Io => LineFault in b[|a|..]
         case Reconnecting => ReconnectSeen in b[|a|..]
         case Timeout => DeadlineSeen in b[|a|..]
         case ConnectionError => b == a
         case InvalidData => b == a
         case InvalidInput => false
  }

  /** Each trouble is blamed on its own error, and none needs none. */
  lemma BlamesOne(a: seq<Trouble>)
    ensures Blames(a, a + [LineFault], Some(Io))
    ensures Blames(a, a + [DeadlineSeen], Some(Timeout))
    ensures Blames(a, a, None) && Blames(a, a, Some(ConnectionError))
  {
  }

  /** `tap` after `bytes` more have passed. */
  function Teed(tap: Option<seq<Byte>>, bytes: seq<Byte>): Option<seq<Byte>> {
    if tap.Some? then Some(tap.value + bytes) else None
  }

  /** From `a` to `b`, exactly `bytes` were read. */
  predicate Took(a: View, b: View, bytes: seq<Byte>) {
    && a.future.stream == bytes + b.future.stream
    && b == a.(future := a.future.(stream := b.future.stream),
               captured := a.captured + bytes,
               tap := Teed(a.tap, bytes))
    && (|a.captured| <= MAX_NATIVE_RESPONSE_BYTES ==> |b.captured| <= MAX_NATIVE_RESPONSE_BYTES)
  }

  function Taps(v: View): seq<Byte> {
    if v.tap.Some? then v.tap.value else []
  }

  /** The capture has no room left. */
  predicate TapFull(v: View) {
    |Taps(v)| >= MAX_NATIVE_RESPONSE_BYTES
  }

  /** From `a` to `b`, a read was cut short. A timeout loses nothing: what was read is captured. */
  predicate Cut(a: View, b: View, e: Error) {
    && b.future.pending == a.future.pending
    && b.deadline == a.deadline && b.tainted == a.tainted
    && (a.tap.None? ==> b.tap.None?)
    && Blames(a.troubles, b.troubles, Some(e))
    && |Taps(b)| + |b.future.stream| <= |Taps(a)| + |a.future.stream|
    && (e == Timeout ==>
          a.deadline && a.captured <= b.captured
          && b.captured + b.future.stream == a.captured + a.future.stream)
  }

  /** A read of `n` bytes was cut short. Malformed data is then reported only for lack of room,
      here or in the tap; the connection ends only where there are not `n` bytes to come. */
  predicate Failed(a: View, b: View, e: Error, n: nat) {
    && Cut(a, b, e)
    && (e == InvalidData && !TapFull(b) ==>
          Full(a, b) && |b.captured| < |a.captured| + n)
    && (e == ConnectionError ==> |a.future.stream| < n)
  }

  predicate Full(a: View, b: View) {
    && a.captured <= b.captured <= a.captured + a.future.stream
    && |b.captured| >= MAX_NATIVE_RESPONSE_BYTES
  }

  /** What was captured between `a` and `b`. */
  function Between(a: View, b: View): seq<Byte>
    requires a.captured <= b.captured
  {
    b.captured[|a.captured|..]
  }

  /** With `front` just read, a response was refused: unless a tap is full it is unacceptable, or
      there is no room for the rest of it. The connection ends only before a whole response. */
  predicate Refused(front: seq<Byte>, a: View, b: View, e: Error) {
    && (e == InvalidData && !TapFull(b) ==>
          || ParseResponse(a.future.node, front + a.future.stream).Bad?
          || (Full(a, b) && ParseResponse(a.future.node, front + Between(a, b)).Need?))
    && (e == ConnectionError ==> ParseResponse(a.future.node, front + a.future.stream).Need?)
  }

  /** From `a` to `b`, whole navigation tokens `bytes` were read. */
  predicate Strode(a: View, b: View, bytes: seq<Byte>) {
    && Navigate(a.future.node, bytes) == Some(b.future.node)
    && Took(At(a, b.future.node), b, bytes)
  }

  function At(a: View, node: Int32): View {
    a.(future := a.future.(node := node))
  }

  /** What one read does to everything still to come. A timeout changes nothing; malformed
      data is reported only when the stream holds some, or more than there is room for. */
  predicate ReadFrom(f: Future, g: Future, r: Result<WingResponse>) {
    match r
    case Ok(response) => NextResponse(f) == Some((response, g))
    case Err(e) =>
      && g.pending == f.pending
      && (e == Timeout ==> g == f)
      && (e == InvalidData ==> f.pending == [] && MayReject(f, MAX_NATIVE_RESPONSE_BYTES))
  }

  /** Nothing is queued, and everything the peer will ever send holds no whole response. */
  predicate AtEnd(f: Future) {
    f.pending == [] && ParseResponse(f.node, f.stream).Need?
  }

  /** The same with a tap, which sees exactly the bytes a delivered response took. Unless the
      stream is tainted, a connection error means that it has ended. */
  predicate TappedRead(a: View, b: View, r: Result<WingResponse>) {
    && b.deadline == a.deadline && b.tainted == a.tainted
    && Blames(a.troubles, b.troubles, ErrorOf(r))
    && (a.tainted ==> r == Err(ConnectionError) && b == a)
    && (a.tap.None? ==> ReadFrom(a.future, b.future, r) && b.tap.None?)
    && (r == Err(InvalidData) ==>
          && |Taps(b)| + |b.future.stream| <= |Taps(a)| + |a.future.stream|
          && (TapFull(b) || (a.future.pending == [] && MayReject(a.future, MAX_NATIVE_RESPONSE_BYTES))))
    && (r.Ok? && a.future.pending == [] ==>
          |a.future.stream| <= |b.future.stream| + MAX_NATIVE_RESPONSE_BYTES)
    && (r == Err(Timeout) ==> b.future == a.future && a.deadline)
    && (r.Err? ==> b.future.pending == a.future.pending)
    && (r == Err(ConnectionError) && !a.tainted ==> AtEnd(a.future))
    && (r.Ok? ==>
          && NextResponse(a.future) == Some((r.value, b.future))
          && (a.tap.Some? ==>
                b.tap.Some? && b.tap.value + b.future.stream == a.tap.value + a.future.stream))
  }

  /** A read can answer: a response is queued, or the next one is there and not too long. */
  predicate Deliverable(f: Future) {
    f.pending != []
    || (NextResponse(f).Some? && !MayReject(f, MAX_NATIVE_RESPONSE_BYTES))
  }

  /** What a caller may rely on: a tainted stream is refused; otherwise, if nothing goes wrong
      around the reader, it answers exactly when it can. */
  predicate Answers(a: View, b: View, r: Result<WingResponse>) {
    && Blames(a.troubles, b.troubles, ErrorOf(r))
    && (a.tainted ==> r == Err(ConnectionError) && b.future == a.future)
    && (r == Err(ConnectionError) && !a.tainted ==> AtEnd(a.future))
    && (!a.tainted && b.troubles == a.troubles ==> (r.Ok? <==> Deliverable(a.future)))
  }

  lemma ReadAnswers(a: View, b: View, r: Result<WingResponse>)
    requires TappedRead(a, b, r) && a.tap.None?
    ensures Answers(a, b, r)
  {
  }

  lemma AnswersUnset(a: View, start: View, end: View, b: View, r: Result<WingResponse>)
    requires Answers(start, end, r)
    requires start == a.(deadline := start.deadline) && b == end.(deadline := b.deadline)
    ensures Answers(a, b, r)
  {
  }

  function Unqueued(v: View): View {
    v.(future := v.future.(pending := []))
  }

  /** An operation from `a` to `b` during which `seen` was read accounts for how it ended. */
  ghost predicate Accounts(a: View, b: View, e: Option<Error>, seen: seq<WingResponse>) {
    && Blames(a.troubles, b.troubles, e)
    && (a.tainted ==> e == Some(ConnectionError) && b.future.node == a.future.node
                      && b.future.stream == a.future.stream && seen == [])
    && (e == Some(ConnectionError) && !a.tainted ==> Ended(a.future, seen))
  }

  /** After `seen` there is no further response. */
  ghost predicate Ended(f: Future, seen: seq<WingResponse>) {
    exists h: Future :: Delivers(f, seen, h) && AtEnd(h)
  }

  lemma ReadEnded(a: View, b: View, h: Future, seen: seq<WingResponse>, e: Error)
    requires Delivers(a.future, seen, h) && Blames(a.troubles, b.troubles, Some(e))
    requires e == ConnectionError && !a.tainted ==> AtEnd(h)
    requires a.tainted ==> e == ConnectionError && seen == [] && b.future == h
    ensures Accounts(a, b, Some(e), seen)
  {
  }

  /** A capture cannot go on: there are more bytes than it has room for, or after `seen` comes
      something unacceptable. */
  ghost predicate Unreadable(f: Future, seen: seq<WingResponse>) {
    || |f.stream| >= MAX_NATIVE_RESPONSE_BYTES
    || exists h: Future :: Delivers(f.(pending := []), seen, h) && MayReject(h, MAX_NATIVE_RESPONSE_BYTES)
  }

  lemma NotSent(a: View, b: View, e: Error)
    requires e == if a.tainted then ConnectionError else Io
    requires b.future.node == a.future.node && b.future.stream == a.future.stream
    requires b.troubles == a.troubles + if e == Io then [LineFault] else []
    ensures Accounts(a, b, Some(e), [])
  {
    assert e == Io ==> b.troubles[|a.troubles|..] == [LineFault];
  }

  /** A get that ends without an answer, though nothing went wrong around it and the stream is
      good, was not answered: no upcoming response matches, or one is unacceptable, or there are
      too many others. */
  lemma UnansweredGet(matches: WingResponse -> bool, a: View, b: View, seen: seq<WingResponse>,
                      r: Result<(WingResponse, seq<WingResponse>)>)
    requires AttendedFrom(matches, a.future, b.future, seen, r) && Accounts(a, b, ErrorOf(r), seen)
    requires !a.tainted && b.troubles == a.troubles && r.Err?
    ensures r == Err(InvalidData) || r == Err(ConnectionError)
    ensures r == Err(ConnectionError) ==> forall x <- Upcoming(a.future).0 :: !matches(x)
  {
    if r == Err(ConnectionError) {
      var h: Future :| Delivers(a.future, seen, h) && AtEnd(h);
      DeliversUpcoming(a.future, seen, h);
      assert Upcoming(h).0 == [];
    }
  }

  function Queued(rs: seq<WingResponse>, f: Future): Future {
    f.(pending := rs + f.pending)
  }

  /** An attended request from `f` to `g`, which saw `seen` go by: a match is what the stream
      delivers next after responses that do not match, and a timeout gives all of them back. Any
      other failure drops them. */
  ghost predicate AttendedFrom(matches: WingResponse -> bool, f: Future, g: Future, seen: seq<WingResponse>,
                               r: Result<(WingResponse, seq<WingResponse>)>)
  {
    && (forall b <- seen :: !matches(b))
    && match r
       case Ok((m, buffered)) =>
         && matches(m) && seen == buffered && |buffered| <= MAX_ATTENDED_BUFFERED
         && Delivers(f, buffered + [m], g)
       case Err(e) =>
         exists h: Future :: Delivers(f, seen, h)
           && (e == Timeout ==> g == Queued(seen, h))
           && (e != Timeout ==> g.pending == h.pending)
           && (e == InvalidData ==>
                 |seen| > MAX_ATTENDED_BUFFERED
                 || (h.pending == [] && MayReject(h, MAX_NATIVE_RESPONSE_BYTES)))
  }

  lemma DeliversNothing(f: Future)
    ensures Delivers(f, [], f)
  {
  }

  /** Whatever an attended request returns, no response is lost: a match and the responses
      handed back with it were the next ones, and after a timeout all are still to come. */
  lemma AttendedConserves(matches: WingResponse -> bool, f: Future, g: Future, seen: seq<WingResponse>,
                          r: Result<(WingResponse, seq<WingResponse>)>)
    requires AttendedFrom(matches, f, g, seen, r)
    ensures r.Ok? ==> Upcoming(f) == (r.value.1 + [r.value.0] + Upcoming(g).0, Upcoming(g).1)
    ensures r == Err(Timeout) ==> Upcoming(g) == Upcoming(f)
  {
    match r
    case Ok((m, buffered)) => DeliversUpcoming(f, buffered + [m], g);
    case Err(e) =>
      if e == Timeout {
        var h: Future :| Delivers(f, seen, h) && g == Queued(seen, h);
        DeliversUpcoming(f, seen, h);
        RequeueIsUpcoming(seen, h);
      }
  }

  /** Draining a subtree's definitions from `f` to `g` saw `seen` go by and set `buffered` aside. */
  ghost predicate DrainedFrom(root: Int32, f: Future, g: Future, seen: seq<WingResponse>,
                              r: Result<seq<NodeDef>>, buffered: seq<WingResponse>)
  {
    && EndsOnlyBefore(root, seen)
    && match r
       case Ok(defs) =>
         Delivers(f, seen + [End], g) && (defs, buffered) == Split(root, seen) && defs != []
       case Err(e) =>
         exists h: Future :: Delivers(f, seen, h) && g.pending == h.pending
           && buffered <= Split(root, seen).1
           && (e != InvalidData ==> buffered == Split(root, seen).1)
           && (e == Timeout ==> g == h)
           && (e == InvalidData ==>
                 |Split(root, seen).1| > MAX_ATTENDED_BUFFERED
                 || (h.pending == [] && MayReject(h, MAX_NATIVE_RESPONSE_BYTES)))
  }

  /** A subtree request from `f` to `g`. Only newly read responses are looked at; those that do
      not belong go behind the older queue. After a timeout the definitions read are gone. */
  ghost predicate FetchedFrom(root: Int32, f: Future, g: Future, seen: seq<WingResponse>,
                              r: Result<seq<NodeDef>>)
  {
    var (mine, others) := Split(root, seen);
    && EndsOnlyBefore(root, seen)
    && match r
       case Ok(defs) =>
         defs == mine && defs != []
         && exists h: Future :: Delivers(f.(pending := []), seen + [End], h)
                                && g == Queued(f.pending + others, h)
       case Err(e) =>
         f.pending <= g.pending <= f.pending + others
         && (e != InvalidData ==> g.pending == f.pending + others)
         && exists h: Future :: Delivers(f.(pending := []), seen, h)
              && (e == Timeout ==> g == Queued(f.pending + others, h))
              && (e == InvalidData ==>
                    |others| > MAX_ATTENDED_BUFFERED || MayReject(h, MAX_NATIVE_RESPONSE_BYTES))
  }

  lemma {:induction false} EmptyQueueStays(f: Future, rs: seq<WingResponse>, g: Future)
    requires Delivers(f, rs, g) && f.pending == []
    ensures g.pending == []
    decreases |rs|
  {
    if rs != [] {
      EmptyQueueStays(NextResponse(f).value.1, rs[1..], g);
    }
  }

  lemma NothingFetched(root: Int32, f: Future, e: Error)
    requires e != InvalidData && e != Timeout
    ensures FetchedFrom(root, f, Queued(f.pending, f.(pending := [])), [], Err(e))
  {
    assert f.pending + [] == f.pending;
    DeliversNothing(f.(pending := []));
  }

  lemma FetchedBehindQueue(root: Int32, f: Future, end: Future, seen: seq<WingResponse>,
                           r: Result<seq<NodeDef>>, buffered: seq<WingResponse>)
    requires DrainedFrom(root, f.(pending := []), end, seen, r, buffered)
    ensures FetchedFrom(root, f, Queued(f.pending + buffered, end), seen, r)
  {
    hide Split, EndsOnlyBefore, MayReject;
    var start := f.(pending := []);
    match r
    case Ok(defs) => EmptyQueueStays(start, seen + [End], end);
    case Err(e) =>
      var h: Future :| Delivers(start, seen, h) && end.pending == h.pending
           && (e == Timeout ==> end == h)
           && (e == InvalidData ==>
                 |Split(root, seen).1| > MAX_ATTENDED_BUFFERED
                 || (h.pending == [] && MayReject(h, MAX_NATIVE_RESPONSE_BYTES)));
      EmptyQueueStays(start, seen, h);
  }

  /** A subtree request takes out the end marker and the definitions that lead up to its root,
      no more and no less: the rest is still to come, in order, the older queue first. */
  lemma FetchConserves(root: Int32, f: Future, g: Future, seen: seq<WingResponse>,
                       r: Result<seq<NodeDef>>)
    requires FetchedFrom(root, f, g, seen, r) && (r.Ok? || r.error == Timeout)
    ensures exists later, end ::
              && Upcoming(f) == (f.pending + (seen + (if r.Ok? then [End] else []) + later), end)
              && Upcoming(g) == (f.pending + Others(root, seen, |seen|) + later, end)
    ensures Merges(Wrapped(LeadingUp(root, seen, |seen|)), Others(root, seen, |seen|), seen)
    ensures r.Ok? ==> r.value == LeadingUp(root, seen, |seen|)
    ensures r.Ok? ==> forall i :: 0 <= i < |r.value| ==> Reaches(root, r.value, i)
  {
    hide Split, LeadingUp, Others;
    SplitIsLeadingUp(root, seen, |seen|);
    assert seen[..|seen|] == seen;
    var others := Split(root, seen).1;
    var start := f.(pending := []);
    var read := seen + if r.Ok? then [End] else [];
    assert seen + [] == seen;
    var h: Future :| Delivers(start, read, h) && g == Queued(f.pending + others, h);
    EmptyQueueStays(start, read, h);
    DeliversUpcoming(start, read, h);
    RequeueIsUpcoming(f.pending, start);
    assert f.pending + [] == f.pending;
    RequeueIsUpcoming(f.pending + others, h);
    SplitConserves(root, seen);
    if r.Ok? {
      forall i | 0 <= i < |r.value| ensures Reaches(root, r.value, i) {
        LinkedReaches(root, r.value, i);
      }
    }
  }

  /** A raw capture from `f` to `g`: it ends with the first end marker, and its bytes are those
      of the responses that went by. The older queue is kept. */
  ghost predicate CapturedFrom(f: Future, g: Future, seen: seq<WingResponse>, r: Result<seq<Byte>>) {
    && End !in seen
    && (r.Ok? ==>
          exists h: Future :: Delivers(f.(pending := []), seen + [End], h)
            && g == Queued(f.pending, h) && r.value + h.stream == f.stream)
    && (r.Err? ==> g.pending == f.pending)
    && (r == Err(Timeout) ==>
          exists h: Future :: Delivers(f.(pending := []), seen, h) && g == Queued(f.pending, h))
  }

  ghost predicate DrainedCapture(f: Future, b: View, seen: seq<WingResponse>, r: Result<()>) {
    && End !in seen
    && (r.Ok? ==> Delivers(f, seen + [End], b.future) && Taps(b) + b.future.stream == f.stream)
    && (r == Err(Timeout) ==> Delivers(f, seen, b.future))
  }

  lemma NothingCaptured(f: Future, e: Error)
    requires e != Timeout
    ensures CapturedFrom(f, f, [], Err(e))
  {
  }

  lemma CapturedBehindQueue(f: Future, end: View, seen: seq<WingResponse>, done: Result<()>, captured: seq<Byte>)
    requires DrainedCapture(f.(pending := []), end, seen, done)
    requires end.future.pending == [] && captured == Taps(end)
    ensures CapturedFrom(f, Queued(f.pending, end.future), seen,
                         if done.Err? then Err(done.error) else Ok(captured))
  {
    assert f.pending + [] == f.pending;
  }

  /** The captured bytes, taken alone, hold exactly the responses that went by. */
  lemma CaptureStandsAlone(f: Future, g: Future, seen: seq<WingResponse>, r: Result<seq<Byte>>)
    requires CapturedFrom(f, g, seen, r) && r.Ok?
    ensures exists node :: Delivers(Future([], f.node, r.value), seen + [End], Future([], node, []))
  {
    hide MayReject;
    var h: Future :| Delivers(f.(pending := []), seen + [End], h)
      && g == Queued(f.pending, h) && r.value + h.stream == f.stream;
    EmptyQueueStays(f.(pending := []), seen + [End], h);
    DeliveredAlone(f.node, r.value, h.stream, seen + [End], h.node);
  }

  lemma {:induction false} DeliveredAlone(node: Int32, own: seq<Byte>, rest: seq<Byte>,
                                          rs: seq<WingResponse>, last: Int32)
    requires Delivers(Future([], node, own + rest), rs, Future([], last, rest))
    ensures Delivers(Future([], node, own), rs, Future([], last, []))
    decreases |rs|
  {
    hide ParseResponse;
    if rs == [] {
      assert |own + rest| == |rest|;
      assert own == [];
    } else {
      var all := own + rest;
      var p := ParseResponse(node, all);
      var later := Future([], p.node, all[p.size..]);
      DeliversShrinks(later, rs[1..], Future([], last, rest));
      assert p.size <= |own|;
      ParseExact(node, all);
      assert all[..p.size] + own[p.size..] == own;
      ParseStable(node, all[..p.size], own[p.size..]);
      assert all[p.size..] == own[p.size..] + rest;
      DeliveredAlone(p.node, own[p.size..], rest, rs[1..], last);
    }
  }

  lemma {:induction false} DeliversShrinks(f: Future, rs: seq<WingResponse>, g: Future)
    requires Delivers(f, rs, g)
    ensures |g.stream| <= |f.stream|
    decreases |rs|
  {
    if rs != [] {
      DeliversShrinks(NextResponse(f).value.1, rs[1..], g);
    }
  }

  // ---------- reads one after the other ----------

  lemma TookNothing(a: View)
    ensures Took(a, a, [])
  {
    assert [] + a.future.stream == a.future.stream && a.captured + [] == a.captured;
    assert a.tap.Some? ==> a.tap.value + [] == a.tap.value;
  }

  lemma TookTwice(a: View, b: View, c: View, x: seq<Byte>, y: seq<Byte>)
    requires Took(a, b, x) && Took(b, c, y)
    ensures Took(a, c, x + y)
  {
    assert x + (y + c.future.stream) == (x + y) + c.future.stream;
    assert a.captured + x + y == a.captured + (x + y);
    assert a.tap.Some? ==> a.tap.value + x + y == a.tap.value + (x + y);
  }

  lemma CutAfter(a: View, b: View, c: View, x: seq<Byte>, e: Error)
    requires Took(a, b, x) && Cut(b, c, e)
    ensures Cut(a, c, e)
  {
    assert (a.captured + x) + b.future.stream == a.captured + (x + b.future.stream);
  }

  lemma TookFails(a: View, b: View, x: seq<Byte>)
    requires Took(a, b, x)
    ensures Cut(a, b, InvalidData)
  {
  }

  lemma FullAfter(a: View, b: View, c: View, x: seq<Byte>)
    requires Took(a, b, x) && Full(b, c)
    ensures Full(a, c) && Between(a, c) == x + Between(b, c)
  {
    assert (a.captured + x) + b.future.stream == a.captured + (x + b.future.stream);
  }

  lemma FailedAfter(a: View, b: View, c: View, x: seq<Byte>, e: Error, k: nat, n: nat)
    requires Took(a, b, x) && Failed(b, c, e, k) && |x| + k <= n
    ensures Failed(a, c, e, n)
  {
    CutAfter(a, b, c, x, e);
    if e == InvalidData && !TapFull(c) {
      FullAfter(a, b, c, x);
    }
  }

  lemma RefusedAfter(front: seq<Byte>, a: View, b: View, c: View, x: seq<Byte>, e: Error)
    requires Took(a, b, x) && Cut(b, c, e) && Refused(front + x, b, c, e)
    ensures Refused(front, a, c, e)
  {
    assert front + x + b.future.stream == front + a.future.stream;
    if e == InvalidData && !TapFull(c) {
      if Full(b, c) {
        FullAfter(a, b, c, x);
        assert front + x + Between(b, c) == front + Between(a, c);
      }
    }
  }

  lemma RefusedBehind(a: View, b: View, c: View, cmd: Byte, e: Error)
    requires Took(a, b, [cmd]) && Cut(b, c, e) && Refused([cmd], b, c, e)
    ensures Cut(a, c, e) && Refused([], a, c, e)
  {
    assert [] + [cmd] == [cmd];
    CutAfter(a, b, c, [cmd], e);
    RefusedAfter([], a, b, c, [cmd], e);
  }

  lemma RefusedOutright(a: View, b: View, x: seq<Byte>)
    requires Took(a, b, x) && ParseResponse(a.future.node, a.future.stream).Bad?
    ensures Cut(a, b, InvalidData) && Refused([], a, b, InvalidData)
  {
    assert [] + a.future.stream == a.future.stream;
  }

  /** No room before the response is complete. */
  lemma NoRoom(front: seq<Byte>, a: View, b: View, e: Error, n: nat)
    requires Failed(a, b, e, n)
    requires forall part: seq<Byte> :: part <= a.future.stream && |part| < n ==>
               ParseResponse(a.future.node, front + part).Need?
    ensures Refused(front, a, b, e)
  {
    hide ParseResponse;
    if e == InvalidData && !TapFull(b) {
      assert Between(a, b) <= a.future.stream;
    }
  }

  lemma StrodeNothing(a: View)
    ensures Strode(a, a, [])
  {
    TookNothing(a);
  }

  lemma StrodeTwice(a: View, b: View, c: View, x: seq<Byte>, y: seq<Byte>)
    requires Strode(a, b, x) && Strode(b, c, y)
    ensures Strode(a, c, x + y)
  {
    hide Navigate;
    NavigateConcat(a.future.node, x, y);
    TookTwice(At(a, c.future.node), At(b, c.future.node), c, x, y);
  }

  lemma StrodeThenCut(a: View, b: View, c: View, x: seq<Byte>, e: Error)
    requires Strode(a, b, x) && Cut(b, c, e)
    ensures Cut(a, c, e)
  {
    CutAfter(At(a, b.future.node), b, c, x, e);
  }

  /** A token refused after some navigation makes the read as a whole refusable. */
  lemma StrodeThenRefused(a: View, b: View, c: View, x: seq<Byte>, e: Error)
    requires Strode(a, b, x) && Refused([], b, c, e)
    requires a.captured == [] && !TapFull(c) && e == InvalidData
    ensures MayReject(a.future, MAX_NATIVE_RESPONSE_BYTES)
  {
    hide ParseResponse;
    var node, ahead := a.future.node, b.future.stream;
    NavigateThenParse(node, x, ahead);
    assert [] + ahead == ahead;
    if !ParseResponse(b.future.node, ahead).Bad? {
      FullAfter(At(a, b.future.node), b, c, x);
      var rest := Between(b, c);
      assert [] + rest == rest;
      NavigateThenParse(node, x, rest);
      assert c.captured == x + rest && (x + ahead)[..|c.captured|] == x + rest;
      NeedMeansLonger(node, x + ahead, |x + rest|);
    }
  }

  lemma StrodeThenEnded(a: View, b: View, c: View, x: seq<Byte>)
    requires Strode(a, b, x) && Refused([], b, c, ConnectionError)
    ensures ParseResponse(a.future.node, a.future.stream).Need?
  {
    hide ParseResponse;
    assert [] + b.future.stream == b.future.stream;
    NavigateThenParse(a.future.node, x, b.future.stream);
  }

  lemma StrodeThenTook(a: View, b: View, c: View, x: seq<Byte>, y: seq<Byte>, r: WingResponse)
    requires Strode(a, b, x) && Took(b, c, y)
    requires ParseResponse(b.future.node, b.future.stream) == Done(r, c.future.node, |y|)
    ensures Took(At(a, c.future.node), c, x + y)
    ensures ParseResponse(a.future.node, a.future.stream) == Done(r, c.future.node, |x + y|)
  {
    hide ParseResponse;
    NavigateThenParse(a.future.node, x, b.future.stream);
    TookTwice(At(a, c.future.node), b, c, x, y);
  }

  /** `end` is where the parser stopped, `after` the state once a timeout is rolled back. */
  lemma ReadIsAtomic(start: View, end: View, after: View, r: Result<WingResponse>, taken: seq<Byte>)
    requires start.future.pending == [] && start.captured == [] && !start.tainted
    requires match r
             case Ok(response) =>
               Took(At(start, end.future.node), end, taken)
               && ParseResponse(start.future.node, start.future.stream)
                  == Done(response, end.future.node, |taken|)
             case Err(e) =>
               Cut(start, end, e)
               && (e == InvalidData && !TapFull(end) ==> MayReject(start.future, MAX_NATIVE_RESPONSE_BYTES))
               && (e == ConnectionError ==> AtEnd(start.future))
    requires after.(captured := end.captured, future := end.future) == end
    requires after.future == if r == Err(Timeout) then
                               Future(end.future.pending, start.future.node, end.captured + end.future.stream)
                             else end.future
    ensures TappedRead(start, after, r)
  {
    hide ParseResponse;
    if r.Ok? {
      assert start.future.stream[|taken|..] == end.future.stream;
      assert start.tap.Some? ==>
          start.tap.value + taken + end.future.stream == start.tap.value + start.future.stream;
    }
  }

  lemma CapturedUnseen(a: View, a': View, b: View, r: Result<WingResponse>)
    requires a' == a.(captured := a'.captured) && TappedRead(a', b, r) && !a.tainted
    ensures TappedRead(a, b, r)
  {
  }

  lemma PendingRead(a: View)
    requires a.future.pending != [] && !a.tainted
    ensures TappedRead(a, a.(future := a.future.(pending := a.future.pending[1..])), Ok(a.future.pending[0]))
  {
  }

  lemma Refusals(a: View)
    ensures a.tainted ==> TappedRead(a, a, Err(ConnectionError))
    ensures !a.tainted ==> TappedRead(a, a.(troubles := a.troubles + [ReconnectSeen]), Err(Reconnecting))
  {
    assert (a.troubles + [ReconnectSeen])[|a.troubles|..] == [ReconnectSeen];
  }

  lemma Renamed(a: View, b: View, e: Error)
    requires TappedRead(a, b, Err(e)) && (e == ConnectionError || e == Io) && !a.tainted
    ensures TappedRead(a, b.(troubles := b.troubles + [ReconnectSeen]), Err(Reconnecting))
  {
    assert (b.troubles + [ReconnectSeen])[|b.troubles|] == ReconnectSeen;
    assert (b.troubles + [ReconnectSeen])[|a.troubles|..] == b.troubles[|a.troubles|..] + [ReconnectSeen];
  }

  // ---------- cut in the middle of a token ----------

  lemma NothingRead(a: View, b: View, e: Error)
    requires Failed(a, b, e, 1)
    ensures Refused([], a, b, e)
  {
    forall part: seq<Byte> | part <= a.future.stream && |part| < 1
      ensures ParseResponse(a.future.node, [] + part).Need?
    {
      assert [] + part == [];
      ParseNothing(a.future.node);
    }
    NoRoom([], a, b, e, 1);
  }

  /** `n` operand bytes, however they begin, are not more than the token takes. */
  lemma OperandCut(cmd: Byte, a: View, b: View, e: Error, n: nat)
    requires cmd < ESCAPE && Failed(a, b, e, n)
    requires forall part: seq<Byte> :: part <= a.future.stream && |part| < n ==> NextToken([cmd] + part).Partial?
    ensures Refused([cmd], a, b, e)
  {
    forall part: seq<Byte> | part <= a.future.stream && |part| < n
      ensures ParseResponse(a.future.node, [cmd] + part).Need?
    {
      PartialNeeds(a.future.node, [cmd] + part);
    }
    NoRoom([cmd], a, b, e, n);
  }

  lemma HeaderCut(a: View, b: View, e: Error, n: nat)
    requires Failed(a, b, e, n)
    requires n <= 2 || (n <= 6 && |a.future.stream| >= 2 && FromBe16(a.future.stream[..2]) == 0)
    ensures Refused([ESCAPE], a, b, e)
  {
    forall part: seq<Byte> | part <= a.future.stream && |part| < n
      ensures ParseResponse(a.future.node, [ESCAPE] + part).Need?
    {
      var s := [ESCAPE] + part;
      if |part| >= 2 {
        assert s[1..3] == part[..2] == a.future.stream[..2];
      }
      ShortDefinition(a.future.node, part);
    }
    NoRoom([ESCAPE], a, b, e, n);
  }

  lemma BodyCut(header: seq<Byte>, a: View, b: View, e: Error, n: nat)
    requires IsHeader(header) && n <= HeaderLength(header) <= MAX_DEFINITION_BYTES
    requires Failed(a, b, e, n)
    ensures Refused([ESCAPE] + header, a, b, e)
  {
    hide ParseResponse;
    forall part: seq<Byte> | part <= a.future.stream && |part| < n
      ensures ParseResponse(a.future.node, [ESCAPE] + header + part).Need?
    {
      assert [ESCAPE] + header + part == [ESCAPE] + (header + part);
      DefinitionBody(a.future.node, header, part);
    }
    NoRoom([ESCAPE] + header, a, b, e, n);
  }

  // ---------- tokens at the front of a stream ----------

  lemma ParseNothing(node: Int32)
    ensures ParseResponse(node, []).Need?
  {
  }

  lemma PartialNeeds(node: Int32, part: seq<Byte>)
    requires part != [] && part[0] < ESCAPE && NextToken(part).Partial?
    ensures ParseResponse(node, part).Need?
  {
  }

  lemma RejectsAt(node: Int32, ahead: seq<Byte>)
    requires ahead != [] && ahead[0] > ESCAPE
    ensures ParseResponse(node, ahead).Bad?
  {
  }

  lemma ShortDefinition(node: Int32, part: seq<Byte>)
    requires DefinitionHeader([ESCAPE] + part).None?
    ensures ParseResponse(node, [ESCAPE] + part).Need?
  {
  }

  /** Once the header is read, the body decides. */
  lemma DefinitionBody(node: Int32, header: seq<Byte>, rest: seq<Byte>)
    requires IsHeader(header)
    ensures var len := HeaderLength(header);
            ParseResponse(node, [ESCAPE] + (header + rest)) ==
            if len > MAX_DEFINITION_BYTES then Bad
            else if |rest| < len then Need
            else if ParseDef(rest[..len]).Err? then Bad
            else Done(Def(ParseDef(rest[..len]).value), node, 1 + |header| + len)
  {
    hide ParseDef;
    var all, len := [ESCAPE] + (header + rest), HeaderLength(header);
    DefinitionHeaderRead(header, rest);
    if |rest| >= len {
      assert all[1 + |header|..1 + |header| + len] == rest[..len];
    }
  }

  lemma NotAValue(t: seq<Byte>)
    requires |t| > 0 && |t| == TokenSize(t) && t[0] < ESCAPE
    ensures t[0] == 0xde ==> Tokenize(t) == Other(0xde)
    ensures t[0] == 0xd7 ==> |t| == 5 && Tokenize(t) == SelectId(FromBeI32(t[1..]))
    ensures 0x40 <= t[0] <= 0x7f || 0xc0 <= t[0] <= 0xcf || t[0] == 0xd2 || t[0] >= 0xd7 ==>
              !IsValue(Tokenize(t)) && (Tokenize(t).SelectId? <==> t[0] == 0xd7)
              && (Tokenize(t) == Other(0xde) <==> t[0] == 0xde)
  {
  }

  /** What a complete token at the front of the stream makes of it. */
  lemma TokenDecides(node: Int32, t: seq<Byte>, rest: seq<Byte>)
    requires |t| > 0 && |t| == TokenSize(t) && t[0] < ESCAPE
    ensures match EffectOf(node, Tokenize(t))
            case Reject => ParseResponse(node, t + rest).Bad?
            case Respond(response) => ParseResponse(node, t + rest) == Done(response, node, |t|)
            case Continue(next) => Navigate(node, t) == Some(next)
  {
    assert t[..|t|] == t && NextToken(t) == Complete(Tokenize(t), |t|);
    assert t[|t|..] == [];
    NextTokenStable(t, rest);
  }

  predicate IsHeader(header: seq<Byte>) {
    || (|header| == 2 && FromBe16(header) != 0)
    || (|header| == 6 && FromBe16(header[..2]) == 0)
  }

  function HeaderLength(header: seq<Byte>): nat
    requires IsHeader(header)
  {
    if |header| == 2 then FromBe16(header) else FromBe32(header[2..])
  }

  lemma DefinitionHeaderRead(header: seq<Byte>, rest: seq<Byte>)
    requires IsHeader(header)
    ensures DefinitionHeader([ESCAPE] + (header + rest)) == Some((1 + |header|, HeaderLength(header)))
  {
    var all := [ESCAPE] + (header + rest);
    assert all[1..3] == header[..2];
    if |header| == 2 {
      assert header[..2] == header;
    } else {
      assert all[3..7] == header[2..];
    }
  }
}
