/** The message pipe between worker threads in quickjs-libc.c: a queue under a mutex, and a system pipe
    whose one byte tells a waiting `select` that the queue is not empty. Posting and handling are
    followed statement by statement, with any number of threads in any interleaving. */
module WorkerChannel {

  type Thread = nat
  type Message = nat

  /** Where a thread is in `js_worker_postMessage` or `handle_posted_message`. */
  datatype Pc =
    | Idle
    | PostLocked(msg: Message)     // holds the mutex, has not looked at the queue yet
    | PostSignalled(msg: Message)  // has written a byte if the queue was empty
    | PostAppended                 // has linked its message
    | HandleReady                  // select has reported the pipe readable
    | HandleLocked                 // holds the mutex, has not looked at the queue yet
    | HandleTaken(msg: Message)    // has unlinked a message
    | HandleDrained(msg: Message)  // has read the byte if that was the last message
    | HandleEmpty                  // found no message

  /** The queue, the bytes in the system pipe, the mutex, the threads; and, for the record, the messages in the
      order they were linked and in the order they were unlinked. */
  datatype State = State(
    queue: seq<Message>, wake: nat, owner: set<Thread>, pcs: map<Thread, Pc>,
    sent: seq<Message>, taken: seq<Message>)

  const START := State([], 0, {}, map[], [], [])

  function PcOf(s: State, t: Thread): Pc {
    if t in s.pcs then s.pcs[t] else Idle
  }

  datatype Event =
    | Lock(t: Thread, msg: Message)       // a post acquires the mutex
    | Signal(t: Thread, written: bool)    // the test for an empty queue, and the one-byte write
    | Append(t: Thread)
    | Select(t: Thread)                   // select finds the pipe readable
    | LockReady(t: Thread)                // the handler acquires the mutex
    | Take(t: Thread)                     // the test for a message, and its unlinking
    | Drain(t: Thread)                    // the test for an empty queue, and the blocking read
    | Unlock(t: Thread)

  /** Which statement can run. The mutex admits one owner; a blocking read needs a byte. */
  predicate Enabled(s: State, e: Event) {
    match e
    case Lock(t, _) => PcOf(s, t).Idle? && s.owner == {}
    case Signal(t, _) => PcOf(s, t).PostLocked?
    case Append(t) => PcOf(s, t).PostSignalled?
    case Select(t) => PcOf(s, t).Idle? && s.wake > 0
    case LockReady(t) => PcOf(s, t).HandleReady? && s.owner == {}
    case Take(t) => PcOf(s, t).HandleLocked?
    case Drain(t) => PcOf(s, t).HandleTaken? && (s.queue == [] ==> s.wake > 0)
    case Unlock(t) => PcOf(s, t).PostAppended? || PcOf(s, t).HandleDrained? || PcOf(s, t).HandleEmpty?
  }

  function At(s: State, t: Thread, pc: Pc): State {
    s.(pcs := s.pcs[t := pc])
  }

  /** What a read of up to sixteen bytes leaves. */
  function Unread(n: nat): nat {
    if n > 16 then n - 16 else 0
  }

  /** One statement. The read takes up to sixteen bytes; a failed write is not repeated. */
  function Next(s: State, e: Event): State
    requires Enabled(s, e)
  {
    match e
    case Lock(t, msg) => At(s, t, PostLocked(msg)).(owner := {t})
    case Signal(t, written) =>
      At(s, t, PostSignalled(PcOf(s, t).msg)).(wake := if s.queue == [] && written then s.wake + 1 else s.wake)
    case Append(t) =>
      var msg := PcOf(s, t).msg;
      At(s, t, PostAppended).(queue := s.queue + [msg], sent := s.sent + [msg])
    case Select(t) => At(s, t, HandleReady)
    case LockReady(t) => At(s, t, HandleLocked).(owner := {t})
    case Take(t) =>
      if s.queue == [] then At(s, t, HandleEmpty)
      else At(s, t, HandleTaken(s.queue[0])).(queue := s.queue[1..], taken := s.taken + [s.queue[0]])
    case Drain(t) =>
      At(s, t, HandleDrained(PcOf(s, t).msg)).(wake := if s.queue == [] then Unread(s.wake) else s.wake)
    case Unlock(t) => At(s, t, Idle).(owner := {})
  }

  // ---------------------------------------------------------------------
  // The invariant
  // ---------------------------------------------------------------------

  predicate Critical(pc: Pc) {
    !pc.Idle? && !pc.HandleReady?
  }

  /** One byte for a queue that is not empty. */
  function Due(queue: seq<Message>): nat {
    if queue == [] then 0 else 1
  }

  /** The bytes in the pipe, by where the owner of the mutex is. */
  predicate WakeAt(s: State, pc: Pc) {
    match pc
    case PostSignalled(_) => s.wake == 1
    case PostAppended => s.wake == 1 && s.queue != []
    case HandleTaken(_) => s.wake == 1
    case HandleEmpty => s.wake == 0 && s.queue == []
    case _ => s.wake == Due(s.queue)
  }

  /** Only the owner is between locking and unlocking. */
  ghost predicate Exclusive(s: State) {
    (forall t: Thread :: Critical(PcOf(s, t)) <==> t in s.owner)
    && forall t: Thread, u: Thread :: t in s.owner && u in s.owner ==> t == u
  }

  /** First in, first out, and nothing twice: what was linked is what was unlinked and then the queue. */
  ghost predicate InOrder(s: State) {
    s.sent == s.taken + s.queue
  }

  ghost predicate WakeExact(s: State) {
    (s.owner == {} ==> s.wake == Due(s.queue))
    && forall t: Thread :: t in s.owner ==> WakeAt(s, PcOf(s, t))
  }

  lemma NextExclusive(s: State, e: Event)
    requires Exclusive(s) && Enabled(s, e)
    ensures Exclusive(Next(s, e))
  {
    var n := Next(s, e);
    assert forall u: Thread :: u != e.t ==> PcOf(n, u) == PcOf(s, u);
    assert Critical(PcOf(s, e.t)) <==> e.t in s.owner;
  }

  lemma NextInOrder(s: State, e: Event)
    requires InOrder(s) && Enabled(s, e)
    ensures InOrder(Next(s, e))
  {
    match e
    case Append(t) => assert s.taken + (s.queue + [PcOf(s, t).msg]) == s.taken + s.queue + [PcOf(s, t).msg];
    case Take(t) =>
      if s.queue != [] { assert s.taken + s.queue == s.taken + [s.queue[0]] + s.queue[1..]; }
    case _ =>
  }

  lemma NextWake(s: State, e: Event)
    requires Exclusive(s) && WakeExact(s) && Enabled(s, e)
    requires e.Signal? && s.queue == [] ==> e.written
    ensures WakeExact(Next(s, e))
  {
    var n := Next(s, e);
    assert PcOf(n, e.t) == n.pcs[e.t];
    assert Critical(PcOf(s, e.t)) <==> e.t in s.owner;
    assert forall u: Thread :: u != e.t ==> PcOf(n, u) == PcOf(s, u);
  }

  // ---------------------------------------------------------------------
  // Every run
  // ---------------------------------------------------------------------

  /** w is reached from s by these statements, in this interleaving. */
  ghost predicate Leads(s: State, events: seq<Event>, w: State)
    decreases |events|
  {
    if events == [] then w == s
    else Enabled(s, events[0]) && Leads(Next(s, events[0]), events[1..], w)
  }

  /** No write fails when a byte is due: whether a failed write matters depends on the queue it meets. */
  predicate Fails(s: State, e: Event) {
    e.Signal? && s.queue == [] && !e.written
  }

  ghost predicate Lossless(s: State, events: seq<Event>)
    decreases |events|
  {
    events == [] || !Enabled(s, events[0]) || (!Fails(s, events[0]) && Lossless(Next(s, events[0]), events[1..]))
  }

  lemma {:induction false} LeadsOrdered(s: State, events: seq<Event>, w: State)
    requires Exclusive(s) && InOrder(s) && Leads(s, events, w)
    ensures Exclusive(w) && InOrder(w)
    decreases |events|
  {
    hide Exclusive, InOrder, Next, Enabled;
    if events != [] {
      NextExclusive(s, events[0]);
      NextInOrder(s, events[0]);
      LeadsOrdered(Next(s, events[0]), events[1..], w);
    }
  }

  lemma StartInvariant()
    ensures Exclusive(START) && InOrder(START) && WakeExact(START)
  {
  }

  /** Mutual exclusion and order in every interleaving, even when writes fail: messages are unlinked first in,
      first out, none twice and none that was not linked. */
  lemma FirstInFirstOut(events: seq<Event>, w: State)
    requires Leads(START, events, w)
    ensures w.sent == w.taken + w.queue
    ensures forall t: Thread, u: Thread :: Critical(PcOf(w, t)) && Critical(PcOf(w, u)) ==> t == u
  {
    StartInvariant();
    LeadsOrdered(START, events, w);
  }

  /** The statement a thread is about to run. */
  function Following(s: State, t: Thread): Event
    requires Critical(PcOf(s, t))
  {
    match PcOf(s, t)
    case PostLocked(_) => Signal(t, true)
    case PostSignalled(_) => Append(t)
    case HandleLocked => Take(t)
    case HandleTaken(_) => Drain(t)
    case _ => Unlock(t)
  }

  // ---------------------------------------------------------------------
  // A failed write. The loop round `write` gives up on every error, since no error number is both EAGAIN
  // and EINTR.
  // ---------------------------------------------------------------------

  /** The byte is missing: the pipe is empty, and the queue is not, unless the owner of the mutex is about to append
      or about to wait for the byte. */
  ghost predicate Lost(s: State) {
    s.wake == 0 && (s.queue == [] ==> exists t: Thread :: t in s.owner && (PcOf(s, t).PostSignalled? || PcOf(s, t).HandleTaken?))
  }

  /** A failed write on an empty queue loses the byte. */
  lemma FailedWriteSticks(s: State, t: Thread)
    requires Exclusive(s) && WakeExact(s) && Enabled(s, Signal(t, false)) && s.queue == []
    ensures Lost(Next(s, Signal(t, false)))
  {
    var n := Next(s, Signal(t, false));
    assert Critical(PcOf(s, t)) && PcOf(n, t).PostSignalled? && t in n.owner;
  }

  /** And no statement brings it back. */
  lemma LostNext(s: State, e: Event)
    requires Exclusive(s) && Lost(s) && Enabled(s, e)
    ensures Lost(Next(s, e))
  {
    var n := Next(s, e);
    assert PcOf(n, e.t) == n.pcs[e.t];
    assert Critical(PcOf(s, e.t)) <==> e.t in s.owner;
    assert forall u: Thread :: u != e.t ==> PcOf(n, u) == PcOf(s, u);
    if n.queue == [] {
      assert s.queue == [] || e.Take?;
      assert e.t in n.owner && (PcOf(n, e.t).PostSignalled? || PcOf(n, e.t).HandleTaken?);
    }
  }

  /** Every run keeps pipe and queue matched until the first lost byte, and never again after it. */
  lemma {:induction false} LeadsWake(s: State, events: seq<Event>, w: State)
    requires Exclusive(s) && (WakeExact(s) || Lost(s)) && Leads(s, events, w)
    ensures WakeExact(s) && Lossless(s, events) ==> WakeExact(w)
    ensures Lost(s) || !Lossless(s, events) ==> Lost(w)
    decreases |events|
  {
    hide Exclusive, WakeExact, Lost, Next, Enabled;
    if events != [] {
      var e, n := events[0], Next(s, events[0]);
      NextExclusive(s, e);
      if Lost(s) { LostNext(s, e); }
      if WakeExact(s) {
        if Fails(s, e) { FailedWriteSticks(s, e.t); } else { NextWake(s, e); }
      }
      LeadsWake(n, events[1..], w);
    }
  }

  /** In every interleaving, whenever the mutex is free: the system pipe holds exactly one byte for a queue that is not
      empty and none otherwise, if and only if no write has failed on an empty queue. */
  lemma WakeMatchesQueue(events: seq<Event>, w: State)
    requires Leads(START, events, w) && w.owner == {}
    ensures w.wake == (if w.queue != [] then 1 else 0) <==> Lossless(START, events)
  {
    StartInvariant();
    LeadsWake(START, events, w);
  }

  /** So no wake-up is lost: a thread at rest finds the pipe readable exactly while a message waits. After a lost byte
      a message waits, and no thread finds the pipe readable. */
  lemma NoLostWakeup(events: seq<Event>, w: State, t: Thread)
    requires Leads(START, events, w) && w.owner == {} && PcOf(w, t).Idle?
    ensures Lossless(START, events) ==> (Enabled(w, Select(t)) <==> w.queue != [])
    ensures !Lossless(START, events) ==> w.queue != [] && !Enabled(w, Select(t))
  {
    StartInvariant();
    LeadsWake(START, events, w);
  }

  /** And the owner of the mutex is never stuck: in particular the blocking read always finds its byte. */
  lemma OwnerNeverBlocks(events: seq<Event>, w: State, t: Thread)
    requires Leads(START, events, w) && Lossless(START, events) && t in w.owner
    ensures Critical(PcOf(w, t)) && Enabled(w, Following(w, t))
  {
    StartInvariant();
    LeadsWake(START, events, w);
    LeadsOrdered(START, events, w);
  }

  /** The threads that may still take a message: those past their select that have not looked at the queue yet. */
  ghost function Eager(s: State): set<Thread> {
    set t | t in s.pcs && (s.pcs[t].HandleReady? || s.pcs[t].HandleLocked?)
  }

  lemma EagerNext(s: State, e: Event)
    requires Lost(s) && Enabled(s, e)
    ensures |Next(s, e).taken| + |Eager(Next(s, e))| <= |s.taken| + |Eager(s)|
  {
    hide Eager, Next;
    assert !e.Select?;
    EagerMoves(s, e);
    TakenNext(s, e);
    Fewer(Eager(Next(s, e)), Eager(s) - if e.Take? then {e.t} else {});
  }

  lemma EagerMoves(s: State, e: Event)
    requires Enabled(s, e) && !e.Select?
    ensures Eager(Next(s, e)) <= Eager(s) - if e.Take? then {e.t} else {}
    ensures e.Take? ==> e.t in Eager(s)
  {
    assert PcOf(Next(s, e), e.t) == Next(s, e).pcs[e.t];
  }

  lemma TakenNext(s: State, e: Event)
    requires Enabled(s, e)
    ensures |Next(s, e).taken| <= |s.taken| + if e.Take? then 1 else 0
  {
  }

  lemma Fewer<T>(a: set<T>, b: set<T>)
    requires a <= b
    ensures |a| <= |b|
  {
    assert b == a + (b - a);
  }

  /** Once the byte is lost no thread ever finds the pipe readable again, and no more messages are ever taken than
      threads were past their select. */
  lemma {:induction false} StuckForever(s: State, events: seq<Event>, w: State)
    requires Exclusive(s) && Lost(s) && Leads(s, events, w)
    ensures |w.taken| <= |s.taken| + |Eager(s)|
    ensures forall t: Thread :: !Enabled(w, Select(t))
    decreases |events|
  {
    hide Exclusive, Next, Eager;
    if events != [] {
      NextExclusive(s, events[0]);
      LostNext(s, events[0]);
      EagerNext(s, events[0]);
      StuckForever(Next(s, events[0]), events[1..], w);
    }
  }

  /** So from the first failed write on an empty queue, in any run. */
  lemma FailedWriteIsFinal(before: seq<Event>, s: State, t: Thread, after: seq<Event>, w: State)
    requires Leads(START, before, s) && Lossless(START, before)
    requires Enabled(s, Signal(t, false)) && s.queue == [] && Leads(Next(s, Signal(t, false)), after, w)
    ensures |w.taken| <= |s.taken| + |Eager(s)|
    ensures forall u: Thread :: !Enabled(w, Select(u))
  {
    hide Exclusive, InOrder, WakeExact, Lost, Leads, Next, Enabled, Eager;
    StartInvariant();
    LeadsOrdered(START, before, s);
    LeadsWake(START, before, s);
    FailedWriteSticks(s, t);
    NextExclusive(s, Signal(t, false));
    SignalKeepsEager(s, t);
    StuckForever(Next(s, Signal(t, false)), after, w);
  }

  lemma SignalKeepsEager(s: State, t: Thread)
    requires Enabled(s, Signal(t, false))
    ensures Eager(Next(s, Signal(t, false))) == Eager(s) && Next(s, Signal(t, false)).taken == s.taken
  {
  }

  /** The state after one post whose write fails. */
  function Unsignalled(msg: Message): State {
    State([msg], 0, {}, map[0 := Idle], [msg], [])
  }

  lemma FailingPost(msg: Message)
    ensures var events := [Lock(0, msg), Signal(0, false), Append(0), Unlock(0)];
            Leads(START, events, Unsignalled(msg)) && !Lossless(START, events)
  {
    var events := [Lock(0, msg), Signal(0, false), Append(0), Unlock(0)];
    var s1 := Next(START, Lock(0, msg));
    var s2 := Next(s1, Signal(0, false));
    var s3 := Next(s2, Append(0));
    assert s3.pcs[0] == PostAppended && s3.queue == [msg] && s3.sent == [msg];
    assert Next(s3, Unlock(0)) == Unsignalled(msg);
    assert events[1..] == [Signal(0, false), Append(0), Unlock(0)];
    assert events[1..][1..] == [Append(0), Unlock(0)];
    assert [Append(0), Unlock(0)][1..] == [Unlock(0)] && [Unlock(0)][1..] == [];
    assert Leads(s3, [Unlock(0)], Unsignalled(msg));
    assert Leads(s2, [Append(0), Unlock(0)], Unsignalled(msg));
    assert Fails(s1, Signal(0, false));
  }

  /** The shortest run with a lost byte: one post whose write fails. Its message waits, and whatever happens then, no
      message is ever taken. */
  lemma OneFailedWrite(msg: Message, after: seq<Event>, w: State)
    ensures var events := [Lock(0, msg), Signal(0, false), Append(0), Unlock(0)];
            Leads(START, events, Unsignalled(msg)) && !Lossless(START, events)
    ensures Leads(Unsignalled(msg), after, w) ==> w.taken == [] && forall t: Thread :: !Enabled(w, Select(t))
  {
    hide Leads, Lossless;
    FailingPost(msg);
    if Leads(Unsignalled(msg), after, w) {
      assert Eager(Unsignalled(msg)) == {};
      StuckForever(Unsignalled(msg), after, w);
    }
  }

  // ---------------------------------------------------------------------
  // The two functions as they run under the mutex
  // ---------------------------------------------------------------------

  class MessagePipe {
    var queue: seq<Message>
    var wake: nat

    ghost predicate Valid()
      reads this
    {
      wake == Due(queue)
    }

    constructor ()
      ensures Valid() && queue == []
    {
      queue, wake := [], 0;
    }

    /** `js_worker_postMessage`, with the outcome of the write. */
    method PostMessage(msg: Message, written: bool)
      requires Valid()
      modifies this
      ensures queue == old(queue) + [msg]
      ensures Valid() <==> old(queue) != [] || written
    {
      if queue == [] {
        if written { wake := wake + 1; }
      }
      queue := queue + [msg];
    }

    /** `handle_posted_message` up to the unlocking. */
    method HandlePostedMessage() returns (handled: bool, msg: Message)
      requires Valid()
      modifies this
      ensures Valid()
      ensures handled <==> old(queue) != []
      ensures if handled then old(queue) == [msg] + queue else queue == []
    {
      if queue == [] { return false, 0; }
      msg := queue[0];
      queue := queue[1..];
      if queue == [] {
        assert wake > 0;  // the read does not block
        wake := Unread(wake);
      }
      handled := true;
    }
  }
}
