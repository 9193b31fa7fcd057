/** Which worker objects of quickjs-libc.c are connected: the object that a constructor call gives its script and the
    object `Worker.parent` of the thread it starts send and receive on the same two pipes, crossed. */
module WorkerLinks {
  import opened RefCounts
  import opened WorkerRefs
  import opened WorkerCounts
  import opened WorkerRuns
  import opened WorkerRuntime

  // ---------------------------------------------------------------------
  // What the fields of one record have to do with each other
  // ---------------------------------------------------------------------

  predicate CallWired(c: Call) {
    && (c.pc == AtObjectSend ==> c.objectRecv == c.send)
    && (c.pc == AtThread ==> c.objectRecv == c.send && c.objectSend == c.recv)
  }

  predicate ThreadWired(s: ThreadState) {
    && (s.pc == AtParentSend ==> s.objectRecv == s.recv)
    && (s.pc == AtParent ==> s.objectRecv == s.recv && s.objectSend == s.send)
  }

  /** A handler listens on the pipe that its object receives on. */
  predicate WorkerWired(d: WorkerData) {
    d.pc == Ready && d.port.Some? ==> d.port == d.recv
  }

  ghost predicate Wired(w: World) {
    && (forall t :: t in w.calls ==> CallWired(w.calls[t]))
    && (forall t :: t in w.threads ==> ThreadWired(w.threads[t]))
    && (forall x :: x in w.workers ==> WorkerWired(w.workers[x]))
  }

  predicate SameRecords(u: World, w: World) {
    u.calls == w.calls && u.threads == w.threads && u.workers == w.workers
  }

  lemma SameWired(w: World, u: World)
    requires Wired(w) && SameRecords(u, w)
    ensures Wired(u)
  {
  }

  lemma CallWired1(w: World, u: World, t: Id, c: Call)
    requires Wired(w) && CallWired(c) && SameRecords(u, SetCall(w, t, c))
    ensures Wired(u)
  {
    hide CallWired, ThreadWired, WorkerWired;
  }

  lemma ThreadWired1(w: World, u: World, t: Id, c: ThreadState)
    requires Wired(w) && ThreadWired(c) && SameRecords(u, SetThread(w, t, c))
    ensures Wired(u)
  {
    hide CallWired, ThreadWired, WorkerWired;
  }

  lemma WorkerWired1(w: World, u: World, x: Id, d: WorkerData)
    requires Wired(w) && WorkerWired(d) && SameRecords(u, SetWorker(w, x, d))
    ensures Wired(u)
  {
    hide CallWired, ThreadWired, WorkerWired;
  }

  /** A record less. */
  lemma LessWired(w: World, u: World)
    requires Wired(w) && u.calls.Keys <= w.calls.Keys && u.threads.Keys <= w.threads.Keys && u.workers.Keys <= w.workers.Keys
    requires forall t :: t in u.calls ==> u.calls[t] == w.calls[t]
    requires forall t :: t in u.threads ==> u.threads[t] == w.threads[t]
    requires forall x :: x in u.workers ==> u.workers[x] == w.workers[x]
    ensures Wired(u)
  {
    hide CallWired, ThreadWired, WorkerWired;
  }

  lemma CallWires(w: World, e: Event)
    requires OfCall(e) && Enabled(w, e) && Wired(w)
    ensures Wired(NextCall(w, e))
  {
    hide FreePipe, Wired, Dupped, Created;
    var c := if e.Construct? then Call(None, None, None, None, AtRecv) else w.calls[e.t];
    if e.CreateThread? {
      CreateWires(w, e.t, e.x, e.ok);
    } else if e.Adopt? {
      AdoptWires(w, e.t);
    } else if e.FreeObjectSend? {
      GoneWires(w, e);
    } else if e.FreeArgRecv? {
      FreeKeepsRecords(SetCall(w, e.t, c.(recv := None, pc := FailAtSend)), c.recv);
      CallWired1(w, NextCall(w, e), e.t, c.(recv := None, pc := FailAtSend));
    } else if e.FreeArgSend? {
      FreeKeepsRecords(SetCall(w, e.t, c.(send := None, pc := FailAtObjectRecv)), c.send);
      CallWired1(w, NextCall(w, e), e.t, c.(send := None, pc := FailAtObjectRecv));
    } else if e.FreeObjectRecv? {
      FreeKeepsRecords(SetCall(w, e.t, c.(objectRecv := None, pc := FailAtObjectSend)), c.objectRecv);
      CallWired1(w, NextCall(w, e), e.t, c.(objectRecv := None, pc := FailAtObjectSend));
    } else {
      StepWires(w, e, c);
    }
  }

  /** The statements that make something. */
  lemma StepWires(w: World, e: Event, c: Call)
    requires OfCall(e) && Enabled(w, e) && Wired(w) && c == if e.Construct? then Call(None, None, None, None, AtRecv) else w.calls[e.t]
    requires e.Construct? || e.MakeRecv? || e.MakeSend? || e.MakeObject? || e.CopySend? || e.CopyRecv?
    ensures Wired(NextCall(w, e))
  {
    hide Wired, NextCall;
    var u := NextCall(w, e);
    if e.CopySend? || e.CopyRecv? { CopyWires(w, e, c); }
    else if e.MakeRecv? || e.MakeSend? { MakeWires(w, e, c); }
    else { PlainWires(w, e, c); }
    CallWired1(w, u, e.t, u.calls[e.t]);
  }

  lemma CopyWires(w: World, e: Event, c: Call)
    requires (e.CopySend? || e.CopyRecv?) && Enabled(w, e) && Wired(w) && c == w.calls[e.t]
    ensures var u := NextCall(w, e); e.t in u.calls && CallWired(u.calls[e.t]) && SameRecords(u, SetCall(w, e.t, u.calls[e.t]))
  {
    hide Wired, Dupped;
    CallOf(w, e.t);
  }

  lemma MakeWires(w: World, e: Event, c: Call)
    requires (e.MakeRecv? || e.MakeSend?) && Enabled(w, e) && c == w.calls[e.t]
    ensures var u := NextCall(w, e); e.t in u.calls && CallWired(u.calls[e.t]) && SameRecords(u, SetCall(w, e.t, u.calls[e.t]))
  {
    hide Created, NextCall;
    if e.MakeRecv? { MakeRecvIs(w, e.t, e.made); } else { MakeSendIs(w, e.t, e.made); }
  }

  lemma MakeRecvIs(w: World, t: Id, made: Option<Pipe>)
    requires Enabled(w, MakeRecv(t, made))
    ensures var c := w.calls[t].(recv := if made.None? then w.calls[t].recv else made, pc := if made.None? then FailAtRecv else AtSend);
      NextCall(w, MakeRecv(t, made)) == if made.None? then SetCall(w, t, c) else NewPipe(SetCall(w, t, c), made.value)
  {
    hide NewPipe;
  }

  lemma MakeSendIs(w: World, t: Id, made: Option<Pipe>)
    requires Enabled(w, MakeSend(t, made))
    ensures var c := w.calls[t].(send := if made.None? then w.calls[t].send else made, pc := if made.None? then FailAtRecv else AtObject);
      NextCall(w, MakeSend(t, made)) == if made.None? then SetCall(w, t, c) else NewPipe(SetCall(w, t, c), made.value)
  {
    hide NewPipe;
  }

  lemma PlainWires(w: World, e: Event, c: Call)
    requires (e.Construct? || e.MakeObject?) && Enabled(w, e) && c == if e.Construct? then Call(None, None, None, None, AtRecv) else w.calls[e.t]
    ensures var u := NextCall(w, e); e.t in u.calls && CallWired(u.calls[e.t]) && SameRecords(u, SetCall(w, e.t, u.calls[e.t]))
  {
  }

  lemma CallOf(w: World, t: Id)
    requires Wired(w) && t in w.calls
    ensures CallWired(w.calls[t])
  {
  }

  lemma CreateWires(w: World, t: Id, x: Id, ok: bool)
    requires Enabled(w, CreateThread(t, x, ok)) && Wired(w)
    ensures Wired(NextCall(w, CreateThread(t, x, ok)))
  {
    hide Wired;
    var c, u := w.calls[t], NextCall(w, CreateThread(t, x, ok));
    CallWired1(w, SetCall(w, t, u.calls[t]), t, u.calls[t]);
    if ok { WorkerWired1(SetCall(w, t, u.calls[t]), u, x, u.workers[x]); }
  }

  lemma AdoptWires(w: World, t: Id)
    requires Enabled(w, Adopt(t)) && Wired(w)
    ensures Wired(NextCall(w, Adopt(t)))
  {
    hide Wired;
    var u := NextCall(w, Adopt(t));
    LessWired(w, w.(calls := w.calls - {t}));
    ThreadWired1(w.(calls := w.calls - {t}), u, t, u.threads[t]);
  }

  /** The statements that free the last pointer of a record, which goes. */
  lemma GoneWires(w: World, e: Event)
    requires Enabled(w, e) && Wired(w) && (e.FreeObjectSend? || e.ExitSend? || e.FinalizePort?)
    ensures Wired(Next(w, e))
  {
    hide Wired, FreePipe;
    match e
    case FreeObjectSend(t) =>
      var v := w.(calls := w.calls - {t});
      LessWired(w, v);
      FreeKeepsRecords(v, w.calls[t].objectSend);
      SameWired(v, Next(w, e));
    case ExitSend(t) =>
      var v := w.(threads := w.threads - {t});
      LessWired(w, v);
      FreeKeepsRecords(v, w.threads[t].send);
      SameWired(v, Next(w, e));
    case FinalizePort(x) =>
      var v := w.(workers := w.workers - {x});
      LessWired(w, v);
      FreeKeepsRecords(v, w.workers[x].port);
      SameWired(v, Next(w, e));
  }

  lemma ThreadWires(w: World, e: Event)
    requires OfThread(e) && Enabled(w, e) && Wired(w)
    ensures Wired(NextThread(w, e))
  {
    hide FreePipe, Wired, Dupped;
    var s, u := w.threads[e.t], NextThread(w, e);
    assert ThreadWired(s) by { ThreadOf(w, e.t); }
    if e.ParentMade? {
      ThreadWired1(w, SetThread(w, e.t, u.threads[e.t]), e.t, u.threads[e.t]);
      WorkerWired1(SetThread(w, e.t, u.threads[e.t]), u, e.x, u.workers[e.x]);
    } else if e.ExitRecv? {
      FreeKeepsRecords(SetThread(w, e.t, s.(recv := None, pc := AtExitSend)), s.recv);
      ThreadWired1(w, u, e.t, s.(recv := None, pc := AtExitSend));
    } else if e.ExitSend? {
      GoneWires(w, e);
    } else {
      ThreadWired1(w, u, e.t, u.threads[e.t]);
    }
  }

  lemma ThreadOf(w: World, t: Id)
    requires Wired(w) && t in w.threads
    ensures ThreadWired(w.threads[t])
  {
  }

  lemma WorkerWires(w: World, e: Event)
    requires OfWorker(e) && Enabled(w, e) && Wired(w)
    ensures Wired(NextWorker(w, e))
  {
    hide FreePipe, Wired, Dupped;
    var d := w.workers[e.x];
    match e
    case SetHandler(x, ok) => if ok { WorkerWired1(w, NextWorker(w, e), x, d.(port := d.recv)); }
    case ClearHandler(x) =>
      FreeKeepsRecords(SetWorker(w, x, d.(port := None)), d.port);
      WorkerWired1(w, NextWorker(w, e), x, d.(port := None));
    case FinalizeRecv(x) =>
      FreeKeepsRecords(SetWorker(w, x, d.(recv := None, pc := AtFinalizeSend)), d.recv);
      WorkerWired1(w, NextWorker(w, e), x, d.(recv := None, pc := AtFinalizeSend));
    case FinalizeSend(x) =>
      FreeKeepsRecords(SetWorker(w, x, d.(send := None, pc := AtFinalizePort)), d.send);
      WorkerWired1(w, NextWorker(w, e), x, d.(send := None, pc := AtFinalizePort));
    case FinalizePort(x) => GoneWires(w, e);
  }

  lemma MessageWires(w: World, e: Event)
    requires !OfCall(e) && !OfThread(e) && !OfWorker(e) && Enabled(w, e)
    ensures SameRecords(NextMessage(w, e), w)
  {
    hide DupEntries, DropEntries, Dupped, Dropped, Created, BuffersOf;
  }

  lemma WiredNext(w: World, e: Event)
    requires Enabled(w, e) && Wired(w)
    ensures Wired(Next(w, e))
  {
    hide Wired, Enabled, NextCall, NextThread, NextWorker, NextMessage;
    if OfCall(e) { CallWires(w, e); }
    else if OfThread(e) { ThreadWires(w, e); }
    else if OfWorker(e) { WorkerWires(w, e); }
    else {
      MessageWires(w, e);
      SameWired(w, Next(w, e));
    }
  }

  lemma StartWired()
    ensures Wired(START)
  {
  }

  lemma {:induction false} WiredRun(v: World, events: seq<Event>, w: World)
    requires Wired(v) && Leads(v, events, w)
    ensures Wired(w)
    decreases |events|
  {
    hide Wired, Enabled, Next;
    if events != [] {
      WiredNext(v, events[0]);
      WiredRun(Next(v, events[0]), events[1..], w);
    }
  }

  // ---------------------------------------------------------------------
  // From the constructor to the thread
  // ---------------------------------------------------------------------

  /** The thread t, not yet running or running, receives on p and sends on q. */
  predicate Receives(w: World, t: Id, p: Pipe, q: Pipe) {
    if t in w.calls then w.calls[t].pc == Handed && w.calls[t].recv == Some(p) && w.calls[t].send == Some(q)
    else t in w.threads && (w.threads[t].pc == AtExitSend || (w.threads[t].recv == Some(p) && w.threads[t].send == Some(q)))
  }

  /** Only the statements of that thread itself concern it. */
  lemma OtherReceives(w: World, u: World, t: Id, p: Pipe, q: Pipe)
    requires Receives(w, t, p, q)
    requires SameAt(u, w, t)
    ensures Receives(u, t, p, q)
  {
  }

  lemma CallReceives(w: World, e: Event, t: Id, p: Pipe, q: Pipe)
    requires OfCall(e) && Enabled(w, e) && Receives(w, t, p, q)
    ensures Receives(NextCall(w, e), t, p, q)
  {
    hide FreePipe, Dupped, Created;
    if e.t == t {
      assert e == Adopt(t) by { OnlyAdopt(w, e, t, p, q); }
    } else {
      OtherCall(w, e, t);
      OtherReceives(w, NextCall(w, e), t, p, q);
    }
  }

  lemma OnlyAdopt(w: World, e: Event, t: Id, p: Pipe, q: Pipe)
    requires OfCall(e) && Enabled(w, e) && Receives(w, t, p, q) && e.t == t
    ensures e == Adopt(t)
  {
  }

  /** The record of t is the same. */
  predicate SameAt(u: World, w: World, t: Id) {
    && (t in u.calls <==> t in w.calls) && (t in w.calls ==> u.calls[t] == w.calls[t])
    && (t in u.threads <==> t in w.threads) && (t in w.threads ==> u.threads[t] == w.threads[t])
  }

  lemma OtherCall(w: World, e: Event, t: Id)
    requires OfCall(e) && Enabled(w, e) && e.t != t
    ensures SameAt(NextCall(w, e), w, t)
  {
    hide NextCall;
    if e.FreeArgRecv? || e.FreeArgSend? || e.FreeObjectRecv? || e.FreeObjectSend? { OtherFreed(w, e, t); }
    else if e.CreateThread? || e.Adopt? || e.MakeObject? || e.Construct? { OtherMoved(w, e, t); }
    else { OtherMade(w, e, t); }
  }

  lemma OtherMoved(w: World, e: Event, t: Id)
    requires (e.CreateThread? || e.Adopt? || e.MakeObject? || e.Construct?) && Enabled(w, e) && e.t != t
    ensures SameAt(NextCall(w, e), w, t)
  {
  }

  lemma OtherMade(w: World, e: Event, t: Id)
    requires (e.MakeRecv? || e.MakeSend? || e.CopySend? || e.CopyRecv?) && Enabled(w, e) && e.t != t
    ensures SameAt(NextCall(w, e), w, t)
  {
    hide Dupped, Created;
  }

  lemma OtherFreed(w: World, e: Event, t: Id)
    requires (e.FreeArgRecv? || e.FreeArgSend? || e.FreeObjectRecv? || e.FreeObjectSend?) && Enabled(w, e) && e.t != t
    ensures SameAt(NextCall(w, e), w, t)
  {
    hide FreePipe;
    var c := w.calls[e.t];
    if e.FreeArgRecv? { FreeKeepsRecords(SetCall(w, e.t, c.(recv := None, pc := FailAtSend)), c.recv); }
    else if e.FreeArgSend? { FreeKeepsRecords(SetCall(w, e.t, c.(send := None, pc := FailAtObjectRecv)), c.send); }
    else if e.FreeObjectRecv? { FreeKeepsRecords(SetCall(w, e.t, c.(objectRecv := None, pc := FailAtObjectSend)), c.objectRecv); }
    else { FreeKeepsRecords(w.(calls := w.calls - {e.t}), c.objectSend); }
  }

  lemma ThreadReceives(w: World, e: Event, t: Id, p: Pipe, q: Pipe)
    requires OfThread(e) && Enabled(w, e) && e != ExitSend(t) && Receives(w, t, p, q)
    ensures Receives(NextThread(w, e), t, p, q)
  {
    hide FreePipe, Dupped, Receives, NextThread;
    ThreadStep(w, e, t);
    if e.t == t {
      OwnReceives(w, NextThread(w, e), t, p, q);
    } else {
      OtherReceives(w, NextThread(w, e), t, p, q);
    }
  }

  predicate EndsOrKeeps(after: ThreadState, before: ThreadState) {
    after.pc == AtExitSend || (after.recv == before.recv && after.send == before.send && before.pc != AtExitSend)
  }

  /** A statement of a thread keeps its pipes until the thread begins to end. */
  lemma ThreadStep(w: World, e: Event, t: Id)
    requires OfThread(e) && Enabled(w, e) && e != ExitSend(t)
    ensures var u := NextThread(w, e);
      && u.calls == w.calls && (t != e.t ==> SameAt(u, w, t))
      && (t == e.t ==> t in u.threads && EndsOrKeeps(u.threads[t], w.threads[t]))
  {
    hide FreePipe, Dupped;
    var s := w.threads[e.t];
    if e.ExitRecv? { FreeKeepsRecords(SetThread(w, e.t, s.(recv := None, pc := AtExitSend)), s.recv); }
    else if e.ExitSend? { FreeKeepsRecords(w.(threads := w.threads - {e.t}), s.send); }
  }

  lemma OwnReceives(w: World, u: World, t: Id, p: Pipe, q: Pipe)
    requires Receives(w, t, p, q) && t in w.threads && t in u.threads && u.calls == w.calls
    requires EndsOrKeeps(u.threads[t], w.threads[t])
    ensures Receives(u, t, p, q)
  {
  }

  lemma WorkerReceives(w: World, e: Event, t: Id, p: Pipe, q: Pipe)
    requires OfWorker(e) && Enabled(w, e) && Receives(w, t, p, q)
    ensures Receives(NextWorker(w, e), t, p, q)
  {
    hide FreePipe, Dupped, Receives;
    var d := w.workers[e.x];
    if e.ClearHandler? { FreeKeepsRecords(SetWorker(w, e.x, d.(port := None)), d.port); }
    else if e.FinalizeRecv? { FreeKeepsRecords(SetWorker(w, e.x, d.(recv := None, pc := AtFinalizeSend)), d.recv); }
    else if e.FinalizeSend? { FreeKeepsRecords(SetWorker(w, e.x, d.(send := None, pc := AtFinalizePort)), d.send); }
    else if e.FinalizePort? { FreeKeepsRecords(w.(workers := w.workers - {e.x}), d.port); }
    OtherReceives(w, NextWorker(w, e), t, p, q);
  }

  lemma {:induction false} StaysReceiving(v: World, events: seq<Event>, w: World, t: Id, p: Pipe, q: Pipe)
    requires Wired(v) && Leads(v, events, w) && Receives(v, t, p, q) && ExitSend(t) !in events
    ensures Receives(w, t, p, q)
    decreases |events|
  {
    hide Wired, Enabled, Receives, NextCall, NextThread, NextWorker, NextMessage;
    if events != [] {
      var e := events[0];
      WiredNext(v, e);
      if OfCall(e) { CallReceives(v, e, t, p, q); }
      else if OfThread(e) { ThreadReceives(v, e, t, p, q); }
      else if OfWorker(e) { WorkerReceives(v, e, t, p, q); }
      else {
        MessageWires(v, e);
        OtherReceives(v, NextMessage(v, e), t, p, q);
      }
      StaysReceiving(Next(v, e), events[1..], w, t, p, q);
    }
  }

  /** In every run: when a constructor call returns its object x and, later in its thread, `Worker.parent` is made as
      object y, then y receives on the pipe that x sends on and sends on the pipe that x receives on. */
  lemma ParentCrossesWorker(events: seq<Event>, w: World, t: Id, x: Id, more: seq<Event>, u: World, y: Id)
    requires Leads(START, events, w) && Enabled(w, CreateThread(t, x, true))
    requires Leads(Next(w, CreateThread(t, x, true)), more, u) && ExitSend(t) !in more && Enabled(u, ParentMade(t, y))
    ensures var v, z := Next(w, CreateThread(t, x, true)), Next(u, ParentMade(t, y));
      && x in v.workers && y in z.workers && v.workers[x].send.Some? && v.workers[x].recv.Some?
      && z.workers[y].recv == v.workers[x].send && z.workers[y].send == v.workers[x].recv
  {
    hide Leads, Valid, Wired, Shapes, Enabled, Next, CallWired, ThreadWired, Receives;
    StartValid();
    LeadsValid(START, events, w);
    StartWired();
    WiredRun(START, events, w);
    var v := Next(w, CreateThread(t, x, true));
    var p, q := Started(w, t, x);
    WiredNext(w, CreateThread(t, x, true));
    StaysReceiving(v, more, u, t, p, q);
    WiredRun(v, more, u);
    NextValid(w, CreateThread(t, x, true));
    LeadsValid(v, more, u);
    ParentStarted(u, t, y, p, q);
  }

  /** The object that the constructor returns, and the thread it hands its arguments to. */
  lemma Started(w: World, t: Id, x: Id) returns (p: Pipe, q: Pipe)
    requires Valid(w) && Wired(w) && Enabled(w, CreateThread(t, x, true))
    ensures var v := Next(w, CreateThread(t, x, true));
      x in v.workers && v.workers[x].send == Some(p) && v.workers[x].recv == Some(q) && Receives(v, t, p, q)
  {
    hide Valid, Wired, Shapes, FreePipe;
    var c := w.calls[t];
    CallOf(w, t);
    assert CallOk(c) by { ShapeOf(w, t); }
    p, q := c.recv.value, c.send.value;
  }

  lemma ShapeOf(w: World, t: Id)
    requires Valid(w)
    ensures t in w.calls ==> CallOk(w.calls[t])
    ensures t in w.threads ==> ThreadOk(w.threads[t]) && t !in w.calls
  {
  }

  lemma ParentStarted(u: World, t: Id, y: Id, p: Pipe, q: Pipe)
    requires Valid(u) && Wired(u) && Receives(u, t, p, q) && Enabled(u, ParentMade(t, y))
    ensures var z := Next(u, ParentMade(t, y)); y in z.workers && z.workers[y].recv == Some(p) && z.workers[y].send == Some(q)
  {
    hide Valid, Wired, Shapes, FreePipe;
    ThreadOf(u, t);
    ShapeOf(u, t);
  }

  /** A message posted through x goes to the end of the queue that y takes its messages from, and the other way. */
  lemma PostedToPeer(events: seq<Event>, w: World, x: Id, y: Id, m: Message, js: seq<Script>)
    requires Leads(START, events, w) && Enabled(w, Post(x, m, js)) && y in w.workers && w.workers[y].pc == Ready
    requires w.workers[y].recv == w.workers[x].send && w.workers[y].port.Some?
    ensures var v, p := Next(w, Post(x, m, js)), w.workers[y].port.value;
      && p in w.queues && p in v.queues && v.queues[p] == w.queues[p] + [m] && v.tabs == w.tabs[m := BuffersOf(w.scripts, js)]
      && Enabled(v, Take(y))
      && (w.queues[p] == [] ==> Next(v, Take(y)).handling == v.handling + {m})
  {
    hide Leads, Valid, PipesValid, BuffersValid, MessagesValid, Wired, DupEntries, DropEntries, Pointer, BuffersOf;
    StartValid();
    LeadsValid(START, events, w);
    StartWired();
    WiredRun(START, events, w);
    assert w.workers[y].port == w.workers[y].recv by { WorkerOf(w, y); }
    assert w.workers[y].port.value in w.queues by { ReceivesLive(w, y); }
  }

  lemma WorkerOf(w: World, x: Id)
    requires Wired(w) && x in w.workers
    ensures WorkerWired(w.workers[x])
  {
  }

  lemma ReceivesLive(w: World, y: Id)
    requires Valid(w) && y in w.workers && w.workers[y].recv.Some?
    ensures w.workers[y].recv.value in w.queues
  {
    hide Valid, PipesValid;
    PipesPart(w);
    LivePipe(w, InWorker(y, Recv));
  }

  // ---------------------------------------------------------------------
  // The table of a message
  // ---------------------------------------------------------------------

  /** Every message of u is one of w, with its table. */
  predicate TablesOf(u: World, w: World) {
    forall m :: m in u.tabs ==> m in w.tabs && u.tabs[m] == w.tabs[m]
  }

  lemma {:induction false} MessagesTables(w: World, ms: seq<Message>)
    ensures TablesOf(FreeMessages(w, ms), w)
    decreases |ms|
  {
    hide DropEntries;
    if ms != [] { MessagesTables(FreeMessage(w, ms[0]), ms[1..]); }
  }

  lemma FreeTables(w: World, q: Option<Pipe>)
    ensures TablesOf(FreePipe(w, q), w)
  {
    hide FreeMessages;
    if q.Some? && q.value in w.queues {
      var u := w.(pipes := Dropped(w.pipes, q.value));
      MessagesTables(Detached(u, q.value), u.queues[q.value]);
    }
  }

  /** No statement changes the table of a message that exists. */
  lemma TablesKept(w: World, e: Event)
    requires Enabled(w, e)
    ensures forall m :: m in Next(w, e).tabs && m in w.tabs ==> Next(w, e).tabs[m] == w.tabs[m]
  {
    hide FreePipe, NextThread, NextWorker, NextCall, NextMessage;
    if OfCall(e) { CallTables(w, e); }
    else if OfThread(e) { ThreadTables(w, e); }
    else if OfWorker(e) { WorkerTables(w, e); }
    else { MessageTables(w, e); }
  }

  lemma CallTables(w: World, e: Event)
    requires OfCall(e) && Enabled(w, e)
    ensures TablesOf(NextCall(w, e), w)
  {
    hide FreePipe, Dupped, Created;
    if e.FreeArgRecv? { FreeTables(SetCall(w, e.t, w.calls[e.t].(recv := None, pc := FailAtSend)), w.calls[e.t].recv); }
    else if e.FreeArgSend? { FreeTables(SetCall(w, e.t, w.calls[e.t].(send := None, pc := FailAtObjectRecv)), w.calls[e.t].send); }
    else if e.FreeObjectRecv? {
      FreeTables(SetCall(w, e.t, w.calls[e.t].(objectRecv := None, pc := FailAtObjectSend)), w.calls[e.t].objectRecv);
    }
    else if e.FreeObjectSend? { FreeTables(w.(calls := w.calls - {e.t}), w.calls[e.t].objectSend); }
  }

  lemma ThreadTables(w: World, e: Event)
    requires OfThread(e) && Enabled(w, e)
    ensures TablesOf(NextThread(w, e), w)
  {
    hide FreePipe, Dupped;
    var s := w.threads[e.t];
    if e.ExitRecv? { FreeTables(SetThread(w, e.t, s.(recv := None, pc := AtExitSend)), s.recv); }
    else if e.ExitSend? { FreeTables(w.(threads := w.threads - {e.t}), s.send); }
  }

  lemma WorkerTables(w: World, e: Event)
    requires OfWorker(e) && Enabled(w, e)
    ensures TablesOf(NextWorker(w, e), w)
  {
    hide FreePipe, Dupped;
    var d := w.workers[e.x];
    if e.ClearHandler? { FreeTables(SetWorker(w, e.x, d.(port := None)), d.port); }
    else if e.FinalizeRecv? { FreeTables(SetWorker(w, e.x, d.(recv := None, pc := AtFinalizeSend)), d.recv); }
    else if e.FinalizeSend? { FreeTables(SetWorker(w, e.x, d.(send := None, pc := AtFinalizePort)), d.send); }
    else if e.FinalizePort? { FreeTables(w.(workers := w.workers - {e.x}), d.port); }
  }

  lemma MessageTables(w: World, e: Event)
    requires !OfCall(e) && !OfThread(e) && !OfWorker(e) && Enabled(w, e)
    ensures forall m :: m in NextMessage(w, e).tabs && m in w.tabs ==> NextMessage(w, e).tabs[m] == w.tabs[m]
  {
    hide DupEntries, DropEntries, Dupped, Dropped, Created, BuffersOf;
  }

  /** A run in which message m exists all the time. */
  ghost predicate Keeps(v: World, events: seq<Event>, w: World, m: Message)
    decreases |events|
  {
    m in v.tabs && if events == [] then w == v else Enabled(v, events[0]) && Keeps(Next(v, events[0]), events[1..], w, m)
  }

  lemma {:induction false} TableStays(v: World, events: seq<Event>, w: World, m: Message)
    requires Keeps(v, events, w, m)
    ensures m in w.tabs && w.tabs[m] == v.tabs[m]
    decreases |events|
  {
    hide Enabled, Next;
    if events != [] {
      TablesKept(v, events[0]);
      TableStays(Next(v, events[0]), events[1..], w, m);
    }
  }

  /** The buffers that a script puts into a message are the ones that the handler's script reads from it, entry by entry. */
  lemma BuffersArrive(w: World, x: Id, m: Message, js: seq<Script>, more: seq<Event>, u: World, j: Script, i: nat)
    requires Enabled(w, Post(x, m, js)) && Keeps(Next(w, Post(x, m, js)), more, u, m) && Enabled(u, ReadBuffer(j, m, i))
    ensures i < |js| && Next(u, ReadBuffer(j, m, i)).scripts == u.scripts[j := w.scripts[js[i]]]
  {
    hide Keeps, Enabled, Next;
    var v := Next(w, Post(x, m, js));
    FirstKept(v, more, u, m);
    PostedTable(w, x, m, js);
    TableStays(v, more, u, m);
    ReadEntry(u, j, m, i);
  }

  lemma PostedTable(w: World, x: Id, m: Message, js: seq<Script>)
    requires Enabled(w, Post(x, m, js)) && m in Next(w, Post(x, m, js)).tabs
    ensures (forall k :: k in js ==> k in w.scripts) && Next(w, Post(x, m, js)).tabs[m] == BuffersOf(w.scripts, js)
  {
    hide DupEntries, BuffersOf;
  }

  lemma ReadEntry(u: World, j: Script, m: Message, i: nat)
    requires Enabled(u, ReadBuffer(j, m, i))
    ensures m in u.tabs && i < |u.tabs[m]| && Next(u, ReadBuffer(j, m, i)).scripts == u.scripts[j := u.tabs[m][i]]
  {
    hide Dupped;
  }

  lemma FirstKept(v: World, events: seq<Event>, w: World, m: Message)
    requires Keeps(v, events, w, m)
    ensures m in v.tabs
  {
  }
}
