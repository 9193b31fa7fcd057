/** The worker functions of quickjs-libc.c as they run: counts, queues, messages and records change in place. Each
    function is tied to the statements of WorkerRefs that it goes through. */
module WorkerRuntime {
  import opened RefCounts
  import opened WorkerRefs
  import opened WorkerCounts
  import opened WorkerRuns

  lemma {:induction false} MessagesKeepRecords(w: World, ms: seq<Message>)
    ensures var u := FreeMessages(w, ms); u.calls == w.calls && u.threads == w.threads && u.workers == w.workers
    decreases |ms|
  {
    if ms != [] { MessagesKeepRecords(FreeMessage(w, ms[0]), ms[1..]); }
  }

  lemma FreeKeepsRecords(w: World, q: Option<Pipe>)
    ensures var u := FreePipe(w, q); u.calls == w.calls && u.threads == w.threads && u.workers == w.workers
  {
    if q.Some? && q.value in w.queues {
      var u := w.(pipes := Dropped(w.pipes, q.value));
      MessagesKeepRecords(Detached(u, q.value), u.queues[q.value]);
    }
  }

  /** One more statement at the end of a run. */
  lemma {:induction false} LeadsOn(v: World, events: seq<Event>, w: World, e: Event)
    requires Leads(v, events, w) && Enabled(w, e)
    ensures Leads(v, events + [e], Next(w, e))
    decreases |events|
  {
    hide Enabled, Next;
    if events == [] {
      assert [] + [e] == [e] && [e][1..] == [];
      assert Leads(Next(v, e), [], Next(v, e));
    } else {
      assert (events + [e])[1..] == events[1..] + [e] && (events + [e])[0] == events[0];
      LeadsOn(Next(v, events[0]), events[1..], w, e);
    }
  }

  lemma {:induction false} LeadsJoin(v: World, front: seq<Event>, w: World, back: seq<Event>, u: World)
    requires Leads(v, front, w) && Leads(w, back, u)
    ensures Leads(v, front + back, u)
    decreases |front|
  {
    hide Enabled, Next;
    if front == [] {
      assert [] + back == back;
    } else {
      assert (front + back)[1..] == front[1..] + back && (front + back)[0] == front[0];
      LeadsJoin(Next(v, front[0]), front[1..], w, back, u);
    }
  }

  lemma LeadsOne(v: World, a: Event)
    requires Enabled(v, a)
    ensures Leads(v, [a], Next(v, a))
  {
    hide Enabled, Next;
    assert [] + [a] == [a];
    LeadsOn(v, [], v, a);
  }

  lemma LeadsTwo(v: World, a: Event, b: Event)
    requires Enabled(v, a) && Enabled(Next(v, a), b)
    ensures Leads(v, [a, b], Next(Next(v, a), b))
  {
    hide Enabled, Next;
    LeadsOne(v, a);
    assert [a] + [b] == [a, b];
    LeadsOn(v, [a], Next(v, a), b);
  }

  lemma LeadsThree(v: World, a: Event, b: Event, c: Event)
    requires Enabled(v, a) && Enabled(Next(v, a), b) && Enabled(Next(Next(v, a), b), c)
    ensures Leads(v, [a, b, c], Next(Next(Next(v, a), b), c))
  {
    hide Enabled, Next;
    assert [] + [a] == [a] && [a] + [b] == [a, b] && [a, b] + [c] == [a, b, c];
    LeadsOn(v, [], v, a);
    LeadsOn(v, [a], Next(v, a), b);
    LeadsOn(v, [a, b], Next(Next(v, a), b), c);
  }

  lemma FinalizeRecvIs(w: World, x: Id)
    requires Enabled(w, FinalizeRecv(x))
    ensures x in w.workers
    ensures Next(w, FinalizeRecv(x)) == FreePipe(SetWorker(w, x, w.workers[x].(recv := None, pc := AtFinalizeSend)), w.workers[x].recv)
  {
  }

  lemma FinalizeSendIs(w: World, x: Id)
    requires x in w.workers && w.workers[x].pc == AtFinalizeSend
    ensures Enabled(w, FinalizeSend(x))
    ensures Next(w, FinalizeSend(x)) == FreePipe(SetWorker(w, x, w.workers[x].(send := None, pc := AtFinalizePort)), w.workers[x].send)
  {
  }

  lemma FinalizePortIs(w: World, x: Id)
    requires x in w.workers && w.workers[x].pc == AtFinalizePort
    ensures Enabled(w, FinalizePort(x))
    ensures Next(w, FinalizePort(x)) == FreePipe(w.(workers := w.workers - {x}), w.workers[x].port)
  {
  }

  // --- the statements of the constructor, as changes of its record

  lemma ConstructIs(w: World, t: Id)
    requires t !in w.calls && t !in w.threads
    ensures Enabled(w, Construct(t)) && Next(w, Construct(t)) == SetCall(w, t, Call(None, None, None, None, AtRecv))
  {
  }

  lemma MakeRecvIs(w: World, t: Id, made: Option<Pipe>)
    requires t in w.calls && w.calls[t].pc == AtRecv && (made.Some? ==> made.value !in w.pipes.live)
    ensures Enabled(w, MakeRecv(t, made))
    ensures made.None? ==> Next(w, MakeRecv(t, made)) == SetCall(w, t, w.calls[t].(pc := FailAtRecv))
    ensures made.Some? ==> Next(w, MakeRecv(t, made)) == NewPipe(SetCall(w, t, w.calls[t].(recv := made, pc := AtSend)), made.value)
  {
  }

  lemma MakeSendIs(w: World, t: Id, made: Option<Pipe>)
    requires t in w.calls && w.calls[t].pc == AtSend && (made.Some? ==> made.value !in w.pipes.live)
    ensures Enabled(w, MakeSend(t, made))
    ensures made.None? ==> Next(w, MakeSend(t, made)) == SetCall(w, t, w.calls[t].(pc := FailAtRecv))
    ensures made.Some? ==> Next(w, MakeSend(t, made)) == NewPipe(SetCall(w, t, w.calls[t].(send := made, pc := AtObject)), made.value)
  {
  }

  lemma MakeObjectIs(w: World, t: Id, ok: bool)
    requires t in w.calls && w.calls[t].pc == AtObject
    ensures Enabled(w, MakeObject(t, ok))
    ensures Next(w, MakeObject(t, ok)) == SetCall(w, t, w.calls[t].(pc := if ok then AtObjectRecv else FailAtRecv))
  {
  }

  lemma CopySendIs(w: World, t: Id)
    requires t in w.calls && w.calls[t].pc == AtObjectRecv
    ensures Enabled(w, CopySend(t))
    ensures Next(w, CopySend(t)) == DupPipe(SetCall(w, t, w.calls[t].(objectRecv := w.calls[t].send, pc := AtObjectSend)), w.calls[t].send)
  {
  }

  lemma CopyRecvIs(w: World, t: Id)
    requires t in w.calls && w.calls[t].pc == AtObjectSend
    ensures Enabled(w, CopyRecv(t))
    ensures Next(w, CopyRecv(t)) == DupPipe(SetCall(w, t, w.calls[t].(objectSend := w.calls[t].recv, pc := AtThread)), w.calls[t].recv)
  {
  }

  lemma CreateThreadIs(w: World, t: Id, x: Id, ok: bool)
    requires t in w.calls && w.calls[t].pc == AtThread && x !in w.workers
    ensures Enabled(w, CreateThread(t, x, ok))
    ensures !ok ==> Next(w, CreateThread(t, x, ok)) == SetCall(w, t, w.calls[t].(pc := FailAtRecv))
    ensures ok ==> Next(w, CreateThread(t, x, ok)) == SetWorker(
      SetCall(w, t, w.calls[t].(objectRecv := None, objectSend := None, pc := Handed)),
      x, WorkerData(w.calls[t].objectRecv, w.calls[t].objectSend, None, Ready))
  {
  }

  lemma FreeArgRecvIs(w: World, t: Id)
    requires t in w.calls && w.calls[t].pc == FailAtRecv
    ensures Enabled(w, FreeArgRecv(t))
    ensures Next(w, FreeArgRecv(t)) == FreePipe(SetCall(w, t, w.calls[t].(recv := None, pc := FailAtSend)), w.calls[t].recv)
  {
  }

  lemma FreeArgSendIs(w: World, t: Id)
    requires t in w.calls && w.calls[t].pc == FailAtSend
    ensures Enabled(w, FreeArgSend(t))
    ensures Next(w, FreeArgSend(t)) == FreePipe(SetCall(w, t, w.calls[t].(send := None, pc := FailAtObjectRecv)), w.calls[t].send)
  {
  }

  lemma FreeObjectRecvIs(w: World, t: Id)
    requires t in w.calls && w.calls[t].pc == FailAtObjectRecv
    ensures Enabled(w, FreeObjectRecv(t))
    ensures Next(w, FreeObjectRecv(t))
      == FreePipe(SetCall(w, t, w.calls[t].(objectRecv := None, pc := FailAtObjectSend)), w.calls[t].objectRecv)
  {
  }

  lemma FreeObjectSendIs(w: World, t: Id)
    requires t in w.calls && w.calls[t].pc == FailAtObjectSend
    ensures Enabled(w, FreeObjectSend(t))
    ensures Next(w, FreeObjectSend(t)) == FreePipe(w.(calls := w.calls - {t}), w.calls[t].objectSend)
  {
  }

  // --- the end of a thread

  lemma ExitRecvIs(w: World, t: Id)
    requires t in w.threads && w.threads[t].pc == Running
    ensures Enabled(w, ExitRecv(t))
    ensures Next(w, ExitRecv(t)) == FreePipe(SetThread(w, t, w.threads[t].(recv := None, pc := AtExitSend)), w.threads[t].recv)
  {
  }

  lemma ExitSendIs(w: World, t: Id)
    requires t in w.threads && w.threads[t].pc == AtExitSend
    ensures Enabled(w, ExitSend(t))
    ensures Next(w, ExitSend(t)) == FreePipe(w.(threads := w.threads - {t}), w.threads[t].send)
  {
  }

  lemma AdoptIs(w: World, t: Id)
    requires t in w.calls && w.calls[t].pc == Handed
    ensures Enabled(w, Adopt(t))
    ensures Next(w, Adopt(t)) == w.(
      calls := w.calls - {t}, threads := w.threads[t := ThreadState(w.calls[t].recv, w.calls[t].send, None, None, Running)])
  {
  }

  lemma SetHandlerIs(w: World, x: Id, memory: bool)
    requires x in w.workers && w.workers[x].pc == Ready && w.workers[x].port.None?
    ensures Enabled(w, SetHandler(x, memory))
    ensures Next(w, SetHandler(x, memory))
      == if memory then DupPipe(SetWorker(w, x, w.workers[x].(port := w.workers[x].recv)), w.workers[x].recv) else w
  {
  }

  lemma PostIs(w: World, x: Id, m: Message, js: seq<Script>)
    requires x in w.workers && w.workers[x].pc == Ready && m !in w.tabs && forall j :: j in js ==> j in w.scripts
    requires w.workers[x].send.Some? && w.workers[x].send.value in w.queues
    ensures Enabled(w, Post(x, m, js))
    ensures var p, bs := w.workers[x].send.value, BuffersOf(w.scripts, js);
      Next(w, Post(x, m, js))
      == w.(buffers := DupEntries(w.buffers, bs, 0), tabs := w.tabs[m := bs], queues := w.queues[p := w.queues[p] + [m]])
  {
  }

  lemma ClearHandlerIs(w: World, x: Id)
    requires x in w.workers && w.workers[x].pc == Ready && w.workers[x].port.Some?
    ensures Enabled(w, ClearHandler(x))
    ensures Next(w, ClearHandler(x)) == FreePipe(SetWorker(w, x, w.workers[x].(port := None)), w.workers[x].port)
  {
  }

  lemma LiveSend(w: World, x: Id)
    requires Valid(w) && x in w.workers && w.workers[x].pc == Ready
    ensures w.workers[x].send.Some? && w.workers[x].send.value in w.queues
  {
    hide PipesValid, BuffersValid, MessagesValid;
    LivePipe(w, InWorker(x, Send));
  }

  /** The statements after the label `fail`. */
  function FailRun(t: Id): seq<Event> {
    [FreeArgRecv(t), FreeArgSend(t), FreeObjectRecv(t), FreeObjectSend(t)]
  }

  /** The statements of the constructor, by the outcomes of its allocations and of `pthread_create`. */
  function ConstructorRun(t: Id, x: Id, recv: Option<Pipe>, send: Option<Pipe>, objectMade: bool, thread: bool): seq<Event> {
    if recv.None? then [Construct(t), MakeRecv(t, recv)] + FailRun(t)
    else if send.None? then [Construct(t), MakeRecv(t, recv), MakeSend(t, send)] + FailRun(t)
    else if !objectMade then [Construct(t), MakeRecv(t, recv), MakeSend(t, send), MakeObject(t, objectMade)] + FailRun(t)
    else
      var run := [Construct(t), MakeRecv(t, recv), MakeSend(t, send), MakeObject(t, objectMade), CopySend(t), CopyRecv(t), CreateThread(t, x, thread)];
      if thread then run else run + FailRun(t)
  }

  lemma RunIs(t: Id, x: Id, recv: Option<Pipe>, send: Option<Pipe>, objectMade: bool, threadMade: bool)
    ensures var first := [Construct(t), MakeRecv(t, recv)] + if recv.Some? then [MakeSend(t, send)] else [];
      var second := if objectMade then [MakeObject(t, true), CopySend(t), CopyRecv(t), CreateThread(t, x, threadMade)] else [MakeObject(t, false)];
      ConstructorRun(t, x, recv, send, objectMade, threadMade)
      == if recv.None? || send.None? then first + FailRun(t)
         else if !objectMade || !threadMade then first + second + FailRun(t)
         else first + second
  {
  }

  /** The counts are determined by the records: two states with the same pointers have the same counts. */
  lemma CountsDetermined(w: World, u: World)
    requires Valid(w) && Valid(u) && u.calls == w.calls && u.threads == w.threads && u.workers == w.workers
    ensures u.pipes == w.pipes && u.queues.Keys == w.queues.Keys
  {
    hide PipeRefs, Shapes, BuffersValid, MessagesValid;
    SamePointers(w, u);
    forall p: Pipe ensures p in u.pipes.live <==> p in w.pipes.live {
      HasHolder(w, p);
      HasHolder(u, p);
    }
    assert u.pipes.live == w.pipes.live;
  }

  lemma HasHolder(w: World, p: Pipe)
    requires Counted(w.pipes, PipeRefs(w))
    ensures p in w.pipes.live <==> exists h :: h in PipeRefs(w) && PipeRefs(w)[h] == p
  {
    hide PipeRefs;
    if p in w.pipes.live {
      assert Holders(PipeRefs(w), p) != {};
      var h :| h in Holders(PipeRefs(w), p);
    }
  }

  class Runtime {
    var calls: map<Id, Call>
    var threads: map<Id, ThreadState>
    var workers: map<Id, WorkerData>
    var pipes: Counts<Pipe>
    var queues: map<Pipe, seq<Message>>
    var scripts: map<Script, Buffer>
    var buffers: Counts<Buffer>
    var tabs: map<Message, seq<Buffer>>
    var handling: set<Message>

    ghost function State(): World
      reads this
    {
      World(calls, threads, workers, pipes, queues, scripts, buffers, tabs, handling)
    }

    constructor ()
      ensures State() == START
    {
      calls, workers := map[], map[];
      threads := map[MAIN := ThreadState(None, None, None, None, Running)];
      pipes, buffers := Counts(map[], false), Counts(map[], false);
      queues, scripts, tabs, handling := map[], map[], map[], {};
    }

    method FreeOneMessage(m: Message)
      requires m in tabs
      modifies this
      ensures State() == FreeMessage(old(State()), m)
    {
      var bs := tabs[m];
      for i := 0 to |bs|
        invariant State() == old(State()).(buffers := buffers)
        invariant DropEntries(buffers, bs, i) == DropEntries(old(buffers), bs, 0)
      {
        buffers := Dropped(buffers, bs[i]);
      }
      tabs := tabs - {m};
      handling := handling - {m};
    }

    /** The queue of a pipe that goes is freed message by message. */
    method FreeMessagePipe(q: Option<Pipe>)
      requires forall p :: p in queues ==> forall m :: m in queues[p] ==> m in tabs
      requires forall p :: p in queues ==> forall i, j :: 0 <= i < j < |queues[p]| ==> queues[p][i] != queues[p][j]
      modifies this
      ensures State() == FreePipe(old(State()), q)
    {
      hide FreeMessage;
      if q.None? { return; }
      var p := q.value;
      pipes := Dropped(pipes, p);
      if p in pipes.live || p !in queues { return; }
      var rest := queues[p];
      queues := queues - {p};
      handling := handling + set m | m in rest;
      ghost var all := FreeMessages(State(), rest);
      while rest != []
        invariant FreeMessages(State(), rest) == all
        invariant forall m :: m in rest ==> m in tabs
        invariant forall i, j :: 0 <= i < j < |rest| ==> rest[i] != rest[j]
        decreases |rest|
      {
        TabsAfter(State(), rest);
        FreeOneMessage(rest[0]);
        rest := rest[1..];
      }
    }

    lemma Queued()
      requires MessagesValid(State())
      ensures forall p :: p in queues ==> forall m :: m in queues[p] ==> m in tabs
      ensures forall p :: p in queues ==> forall i, j :: 0 <= i < j < |queues[p]| ==> queues[p][i] != queues[p][j]
    {
      forall p, m | p in queues && m in queues[p] ensures m in tabs {
        var i: nat :| i < |queues[p]| && queues[p][i] == m;
      }
    }

    /** Frees a pointer whose field has been forgotten: the statement e, begun in world w, is done. */
    method FreeForgotten(q: Option<Pipe>, ghost w: World, ghost e: Event)
      requires Valid(w) && Enabled(w, e) && SameBut(w, State()) && Next(w, e) == FreePipe(State(), q)
      modifies this
      ensures State() == Next(w, e) && Valid(State())
      ensures calls == old(calls) && threads == old(threads) && workers == old(workers)
    {
      hide Valid, Next, Enabled, FreePipe;
      PipesPart(w);
      SameMessages(w, State());
      Queued();
      FreeKeepsRecords(State(), q);
      NextValid(w, e);
      FreeMessagePipe(q);
    }

    method FinalizeField(x: Id, d: WorkerData, q: Option<Pipe>, ghost e: Event)
      requires Valid(State()) && Enabled(State(), e) && x in workers
      requires Next(State(), e) == FreePipe(SetWorker(State(), x, d), q)
      modifies this
      ensures State() == Next(old(State()), e) && Valid(State())
      ensures calls == old(calls) && threads == old(threads) && workers == old(workers)[x := d]
    {
      hide Valid, Next, Enabled, FreePipe;
      ghost var w := State();
      workers := workers[x := d];
      FreeForgotten(q, w, e);
    }

    method CallFree(t: Id, c: Call, q: Option<Pipe>, ghost e: Event)
      requires Valid(State()) && Enabled(State(), e) && t in calls
      requires Next(State(), e) == FreePipe(SetCall(State(), t, c), q)
      modifies this
      ensures State() == Next(old(State()), e) && Valid(State())
      ensures calls == old(calls)[t := c] && threads == old(threads) && workers == old(workers)
    {
      hide Valid, Next, Enabled, FreePipe;
      ghost var w := State();
      calls := calls[t := c];
      FreeForgotten(q, w, e);
    }

    /** After the label `fail` of `js_worker_ctor`: the arguments. */
    method FailArguments(t: Id)
      requires Valid(State()) && t in calls && calls[t].pc == FailAtRecv
      modifies this
      ensures Leads(old(State()), [FreeArgRecv(t), FreeArgSend(t)], State()) && Valid(State())
      ensures calls == old(calls)[t := old(calls[t]).(recv := None, send := None, pc := FailAtObjectRecv)]
      ensures threads == old(threads) && workers == old(workers)
    {
      hide Valid, FreePipe, Next, Enabled, Leads;
      ghost var w := State();
      var c := calls[t];
      FreeArgRecvIs(w, t);
      CallFree(t, c.(recv := None, pc := FailAtSend), c.recv, FreeArgRecv(t));
      ghost var w1 := State();
      FreeArgSendIs(w1, t);
      CallFree(t, c.(recv := None, send := None, pc := FailAtObjectRecv), c.send, FreeArgSend(t));
      LeadsTwo(w, FreeArgRecv(t), FreeArgSend(t));
    }

    /** And the object, whose finalizer runs. */
    method FailObject(t: Id)
      requires Valid(State()) && t in calls && calls[t].pc == FailAtObjectRecv
      modifies this
      ensures Leads(old(State()), [FreeObjectRecv(t), FreeObjectSend(t)], State()) && Valid(State())
      ensures calls == old(calls) - {t} && threads == old(threads) && workers == old(workers)
    {
      hide Valid, FreePipe, Next, Enabled, Leads;
      ghost var w := State();
      var c := calls[t];
      FreeObjectRecvIs(w, t);
      CallFree(t, c.(objectRecv := None, pc := FailAtObjectSend), c.objectRecv, FreeObjectRecv(t));
      ghost var w1 := State();
      FreeObjectSendIs(w1, t);
      calls := calls - {t};
      FreeForgotten(c.objectSend, w1, FreeObjectSend(t));
      LeadsTwo(w, FreeObjectRecv(t), FreeObjectSend(t));
    }

    method Fail(t: Id)
      requires Valid(State()) && t in calls && calls[t].pc == FailAtRecv
      modifies this
      ensures Leads(old(State()), FailRun(t), State()) && Valid(State())
      ensures calls == old(calls) - {t} && threads == old(threads) && workers == old(workers)
    {
      hide Valid, Leads;
      ghost var w := State();
      FailArguments(t);
      ghost var w1 := State();
      FailObject(t);
      LeadsJoin(w, [FreeArgRecv(t), FreeArgSend(t)], w1, [FreeObjectRecv(t), FreeObjectSend(t)], State());
      assert [FreeArgRecv(t), FreeArgSend(t)] + [FreeObjectRecv(t), FreeObjectSend(t)] == FailRun(t);
    }

    /** A statement of the constructor that only sets its record, or makes a pipe besides. */
    method CallMake(t: Id, c: Call, made: Option<Pipe>, ghost e: Event)
      requires Valid(State()) && Enabled(State(), e)
      requires Next(State(), e) == if made.Some? then NewPipe(SetCall(State(), t, c), made.value) else SetCall(State(), t, c)
      modifies this
      ensures State() == Next(old(State()), e) && Valid(State())
      ensures calls == old(calls)[t := c] && threads == old(threads) && workers == old(workers)
      ensures pipes == if made.Some? then Created(old(pipes), made.value) else old(pipes)
    {
      hide Valid, Next, Enabled;
      NextValid(State(), e);
      calls := calls[t := c];
      if made.Some? { pipes, queues := Created(pipes, made.value), queues[made.value := []]; }
    }

    /** A statement of the constructor that copies a pointer. */
    method CallCopy(t: Id, c: Call, q: Option<Pipe>, ghost e: Event)
      requires Valid(State()) && Enabled(State(), e) && Next(State(), e) == DupPipe(SetCall(State(), t, c), q)
      modifies this
      ensures State() == Next(old(State()), e) && Valid(State())
      ensures calls == old(calls)[t := c] && threads == old(threads) && workers == old(workers)
    {
      hide Valid, Next, Enabled;
      NextValid(State(), e);
      calls := calls[t := c];
      pipes := if q.Some? then Dupped(pipes, q.value) else Faulty(pipes);
    }

    /** The arguments with their first pipe. */
    method MakeFirst(t: Id, recv: Option<Pipe>)
      requires Valid(State()) && t !in calls && t !in threads && (recv.Some? ==> recv.value !in pipes.live)
      modifies this
      ensures Leads(old(State()), [Construct(t), MakeRecv(t, recv)], State()) && Valid(State())
      ensures calls == old(calls)[t := Call(recv, None, None, None, if recv.Some? then AtSend else FailAtRecv)]
      ensures threads == old(threads) && workers == old(workers)
      ensures pipes == if recv.Some? then Created(old(pipes), recv.value) else old(pipes)
    {
      hide Valid, Next, Enabled, Leads;
      ghost var w := State();
      ConstructIs(w, t);
      CallMake(t, Call(None, None, None, None, AtRecv), None, Construct(t));
      ghost var w1 := State();
      MakeRecvIs(w1, t, recv);
      CallMake(t, calls[t].(recv := recv, pc := if recv.Some? then AtSend else FailAtRecv), recv, MakeRecv(t, recv));
      LeadsTwo(w, Construct(t), MakeRecv(t, recv));
    }

    /** The object with its two copied pointers, or an exception. */
    method MakeWorker(t: Id, ok: bool)
      requires Valid(State()) && t in calls && calls[t].pc == AtObject
      modifies this
      ensures Leads(old(State()), if ok then [MakeObject(t, ok), CopySend(t), CopyRecv(t)] else [MakeObject(t, ok)], State())
      ensures Valid(State()) && threads == old(threads) && workers == old(workers)
      ensures var c := old(calls[t]); calls == old(calls)[t :=
        if ok then c.(objectRecv := c.send, objectSend := c.recv, pc := AtThread) else c.(pc := FailAtRecv)]
    {
      hide Valid, Next, Enabled, Leads;
      ghost var w := State();
      var c := calls[t];
      MakeObjectIs(w, t, ok);
      CallMake(t, c.(pc := if ok then AtObjectRecv else FailAtRecv), None, MakeObject(t, ok));
      if !ok {
        LeadsOne(w, MakeObject(t, ok));
        return;
      }
      ghost var w1 := State();
      CopySendIs(w1, t);
      CallCopy(t, c.(objectRecv := c.send, pc := AtObjectSend), c.send, CopySend(t));
      ghost var w2 := State();
      CopyRecvIs(w2, t);
      CallCopy(t, c.(objectRecv := c.send, objectSend := c.recv, pc := AtThread), c.recv, CopyRecv(t));
      LeadsThree(w, MakeObject(t, ok), CopySend(t), CopyRecv(t));
    }

    /** `pthread_create`. On success the object is returned and the arguments belong to the new thread. */
    method StartThread(t: Id, x: Id, ok: bool)
      requires Valid(State()) && t in calls && calls[t].pc == AtThread && x !in workers
      modifies this
      ensures Leads(old(State()), [CreateThread(t, x, ok)], State()) && Valid(State()) && threads == old(threads)
      ensures !ok ==> calls == old(calls)[t := old(calls[t]).(pc := FailAtRecv)] && workers == old(workers)
      ensures ok ==> calls == old(calls)[t := old(calls[t]).(objectRecv := None, objectSend := None, pc := Handed)]
      ensures ok ==> workers == old(workers)[x := WorkerData(old(calls[t]).objectRecv, old(calls[t]).objectSend, None, Ready)]
    {
      hide Valid, Next, Enabled, Leads;
      ghost var w := State();
      CreateThreadIs(w, t, x, ok);
      NextValid(w, CreateThread(t, x, ok));
      LeadsOne(w, CreateThread(t, x, ok));
      if ok {
        workers := workers[x := WorkerData(calls[t].objectRecv, calls[t].objectSend, None, Ready)];
        calls := calls[t := calls[t].(objectRecv := None, objectSend := None, pc := Handed)];
      } else {
        calls := calls[t := calls[t].(pc := FailAtRecv)];
      }
    }

    /** The arguments with both pipes. */
    method MakeArguments(t: Id, recv: Option<Pipe>, send: Option<Pipe>) returns (ok: bool, ghost run: seq<Event>)
      requires Valid(State()) && t !in calls && t !in threads
      requires (recv.Some? ==> recv.value !in pipes.live) && (send.Some? ==> send.value !in pipes.live && send != recv)
      modifies this
      ensures Leads(old(State()), run, State()) && Valid(State())
      ensures run == [Construct(t), MakeRecv(t, recv)] + if recv.Some? then [MakeSend(t, send)] else []
      ensures ok == (recv.Some? && send.Some?) && threads == old(threads) && workers == old(workers)
      ensures calls == old(calls)[t := if ok then Call(recv, send, None, None, AtObject) else Call(recv, None, None, None, FailAtRecv)]
    {
      hide Valid, Next, Enabled, Leads;
      ghost var w := State();
      run := [Construct(t), MakeRecv(t, recv)];
      MakeFirst(t, recv);
      if recv.None? { return false, run; }
      ghost var w1 := State();
      MakeSendIs(w1, t, send);
      CallMake(t, calls[t].(send := send, pc := if send.Some? then AtObject else FailAtRecv), send, MakeSend(t, send));
      LeadsOn(w, run, w1, MakeSend(t, send));
      ok, run := send.Some?, run + [MakeSend(t, send)];
    }

    /** The object and the thread. */
    method MakeAndStart(t: Id, x: Id, objectMade: bool, threadMade: bool) returns (ok: bool, ghost run: seq<Event>)
      requires Valid(State()) && t in calls && calls[t].pc == AtObject && x !in workers
      modifies this
      ensures Leads(old(State()), run, State()) && Valid(State())
      ensures run == if objectMade then [MakeObject(t, true), CopySend(t), CopyRecv(t), CreateThread(t, x, threadMade)] else [MakeObject(t, false)]
      ensures ok == (objectMade && threadMade) && threads == old(threads)
      ensures t in calls && calls == old(calls)[t := calls[t]]
      ensures ok ==> calls[t] == old(calls[t]).(objectRecv := None, objectSend := None, pc := Handed)
      ensures ok ==> workers == old(workers)[x := WorkerData(old(calls[t]).send, old(calls[t]).recv, None, Ready)]
      ensures !ok ==> calls[t].pc == FailAtRecv && workers == old(workers)
    {
      hide Valid, Next, Enabled, Leads;
      ghost var w := State();
      MakeWorker(t, objectMade);
      if !objectMade { return false, [MakeObject(t, false)]; }
      ghost var w1 := State();
      StartThread(t, x, threadMade);
      run := [MakeObject(t, true), CopySend(t), CopyRecv(t)];
      LeadsJoin(w, run, w1, [CreateThread(t, x, threadMade)], State());
      ok, run := threadMade, run + [CreateThread(t, x, threadMade)];
    }

    /** `js_worker_ctor`, with the outcomes of its allocations and of `pthread_create`. Whatever fails, all pointers are
        freed again and every count is what it was; else the object's pipes are the thread's, crossed. */
    method Constructor(t: Id, x: Id, recv: Option<Pipe>, send: Option<Pipe>, objectMade: bool, threadMade: bool) returns (ok: bool)
      requires Valid(State()) && t !in calls && t !in threads && x !in workers
      requires (recv.Some? ==> recv.value !in pipes.live) && (send.Some? ==> send.value !in pipes.live && send != recv)
      modifies this
      ensures Leads(old(State()), ConstructorRun(t, x, recv, send, objectMade, threadMade), State()) && Valid(State())
      ensures ok == (recv.Some? && send.Some? && objectMade && threadMade) && threads == old(threads)
      ensures !ok ==> calls == old(calls) && workers == old(workers) && pipes == old(pipes) && queues.Keys == old(queues).Keys
      ensures ok ==> calls == old(calls)[t := Call(recv, send, None, None, Handed)]
      ensures ok ==> workers == old(workers)[x := WorkerData(send, recv, None, Ready)]
    {
      hide Valid, Next, Enabled, Leads, ConstructorRun, FailRun;
      ghost var w := State();
      RunIs(t, x, recv, send, objectMade, threadMade);
      ghost var run;
      ok, run := MakeArguments(t, recv, send);
      if ok {
        ghost var w1 := State();
        ghost var more;
        ok, more := MakeAndStart(t, x, objectMade, threadMade);
        LeadsJoin(w, run, w1, more, State());
        run := run + more;
        assert calls == old(calls)[t := calls[t]];
      }
      if !ok {
        ghost var w2 := State();
        Fail(t);
        LeadsJoin(w, run, w2, FailRun(t), State());
        run := run + FailRun(t);
        assert calls == old(calls);
        CountsDetermined(w, State());
      }
    }

    /** `worker_func`: the pointers of the arguments move to the thread state. */
    method AdoptArguments(t: Id)
      requires Valid(State()) && t in calls && calls[t].pc == Handed
      modifies this
      ensures Enabled(old(State()), Adopt(t)) && State() == Next(old(State()), Adopt(t)) && Valid(State())
    {
      hide Valid, Next, Enabled;
      AdoptIs(State(), t);
      NextValid(State(), Adopt(t));
      var c := calls[t];
      threads := threads[t := ThreadState(c.recv, c.send, None, None, Running)];
      calls := calls - {t};
    }

    method ThreadFree(t: Id, d: ThreadState, q: Option<Pipe>, ghost e: Event)
      requires Valid(State()) && Enabled(State(), e) && t in threads
      requires Next(State(), e) == FreePipe(SetThread(State(), t, d), q)
      modifies this
      ensures State() == Next(old(State()), e) && Valid(State())
      ensures calls == old(calls) && threads == old(threads)[t := d] && workers == old(workers)
    {
      hide Valid, Next, Enabled, FreePipe;
      ghost var w := State();
      threads := threads[t := d];
      FreeForgotten(q, w, e);
    }

    /** The pipes of `js_std_free_handlers`; the main thread has none. */
    method FreeHandlers(t: Id)
      requires Valid(State()) && t in threads && threads[t].pc == Running
      modifies this
      ensures Leads(old(State()), [ExitRecv(t), ExitSend(t)], State()) && Valid(State()) && threads == old(threads) - {t}
    {
      hide Valid, Next, Enabled, Leads, FreePipe;
      ghost var w := State();
      var d := threads[t];
      ExitRecvIs(w, t);
      ThreadFree(t, d.(recv := None, pc := AtExitSend), d.recv, ExitRecv(t));
      ghost var w1 := State();
      ExitSendIs(w1, t);
      threads := threads - {t};
      FreeForgotten(d.send, w1, ExitSend(t));
      LeadsTwo(w, ExitRecv(t), ExitSend(t));
    }

    /** `js_worker_set_onmessage` with a function: it makes a handler unless there is one or no memory for one. */
    method SetOnMessage(x: Id, memory: bool)
      requires Valid(State()) && x in workers && workers[x].pc == Ready
      modifies this
      ensures Valid(State())
      ensures old(workers[x]).port.Some? ==> State() == old(State())
      ensures old(workers[x]).port.None? ==>
        Enabled(old(State()), SetHandler(x, memory)) && State() == Next(old(State()), SetHandler(x, memory))
    {
      hide Valid, Next, Enabled;
      var d := workers[x];
      if d.port.None? {
        SetHandlerIs(State(), x, memory);
        NextValid(State(), SetHandler(x, memory));
        if memory {
          workers := workers[x := d.(port := d.recv)];
          pipes := if d.recv.Some? then Dupped(pipes, d.recv.value) else Faulty(pipes);
        }
      }
    }

    /** `js_worker_set_onmessage` with null, and `js_free_port`. */
    method ClearOnMessage(x: Id)
      requires Valid(State()) && x in workers && workers[x].pc == Ready
      modifies this
      ensures Valid(State())
      ensures old(workers[x]).port.None? ==> State() == old(State())
      ensures old(workers[x]).port.Some? ==>
        Enabled(old(State()), ClearHandler(x)) && State() == Next(old(State()), ClearHandler(x))
    {
      hide Valid, Next, Enabled, FreePipe;
      var d := workers[x];
      if d.port.Some? {
        ClearHandlerIs(State(), x);
        FinalizeField(x, d.(port := None), d.port, ClearHandler(x));
      }
    }

    /** `js_worker_postMessage`: the references for the table are taken before the message is linked. */
    method PostMessage(x: Id, m: Message, js: seq<Script>)
      requires Valid(State()) && x in workers && workers[x].pc == Ready && m !in tabs && forall j :: j in js ==> j in scripts
      modifies this
      ensures Enabled(old(State()), Post(x, m, js)) && State() == Next(old(State()), Post(x, m, js)) && Valid(State())
    {
      hide Valid, Next, Enabled, Dupped;
      ghost var w := State();
      LiveSend(w, x);
      PostIs(w, x, m, js);
      NextValid(w, Post(x, m, js));
      var bs := BuffersOf(scripts, js);
      var p := workers[x].send.value;
      for i := 0 to |bs|
        invariant State() == w.(buffers := buffers)
        invariant DupEntries(buffers, bs, i) == DupEntries(w.buffers, bs, 0)
      {
        buffers := Dupped(buffers, bs[i]);
      }
      tabs := tabs[m := bs];
      queues := queues[p := queues[p] + [m]];
    }

    /** `js_worker_finalizer`. */
    method Finalize(x: Id)
      requires Valid(State()) && Enabled(State(), FinalizeRecv(x))
      modifies this
      ensures Leads(old(State()), [FinalizeRecv(x), FinalizeSend(x), FinalizePort(x)], State()) && Valid(State())
      ensures workers == old(workers) - {x}
    {
      hide Valid, FreePipe, Next, Enabled, Leads;
      ghost var w := State();
      FinalizeRecvIs(w, x);
      var d := workers[x];
      FinalizeField(x, d.(recv := None, pc := AtFinalizeSend), d.recv, FinalizeRecv(x));
      ghost var w1 := State();
      FinalizeSendIs(w1, x);
      FinalizeField(x, d.(recv := None, send := None, pc := AtFinalizePort), d.send, FinalizeSend(x));
      ghost var w2 := State();
      FinalizePortIs(w2, x);
      workers := workers - {x};
      FreeForgotten(d.port, w2, FinalizePort(x));
      LeadsThree(w, FinalizeRecv(x), FinalizeSend(x), FinalizePort(x));
    }
  }

  lemma TabsAfter(w: World, rest: seq<Message>)
    requires rest != [] && rest[0] in w.tabs
    requires forall m :: m in rest ==> m in w.tabs
    requires forall i, j :: 0 <= i < j < |rest| ==> rest[i] != rest[j]
    ensures forall m :: m in rest[1..] ==> m in FreeMessage(w, rest[0]).tabs
  {
    hide DropEntries;
  }
}
