/** Ownership of message pipes and shared buffers in quickjs-libc.c, statement by statement: the constructor of worker
    objects with its failure exits, the thread it starts, `Worker.parent`, message handlers, finalizers and the end of a
    thread hold pipes; scripts and messages hold shared buffers. Any number of threads run in any interleaving. */
module WorkerRefs {
  import opened RefCounts

  type Id = nat
  type Pipe = nat
  type Buffer = nat
  type Message = nat
  type Script = nat

  datatype Option<T> = None | Some(value: T)

  // ---------------------------------------------------------------------
  // The records that hold pointers to pipes
  // ---------------------------------------------------------------------

  /** The next statement of `js_worker_ctor`. */
  datatype CallPc =
    | AtRecv | AtSend | AtObject | AtObjectRecv | AtObjectSend | AtThread
    | Handed                                                  // the new thread owns the arguments
    | FailAtRecv | FailAtSend | FailAtObjectRecv | FailAtObjectSend  // after the label `fail`

  /** A call of the constructor: its WorkerFuncArgs, and the object it makes, which no script knows yet. */
  datatype Call = Call(recv: Option<Pipe>, send: Option<Pipe>,
                       objectRecv: Option<Pipe>, objectSend: Option<Pipe>, pc: CallPc)

  datatype ThreadPc = Running | AtParentRecv | AtParentSend | AtParent | AtExitSend

  /** A JSThreadState, and the object for `Worker.parent` while it is made. The main thread has no pipes. */
  datatype ThreadState = ThreadState(recv: Option<Pipe>, send: Option<Pipe>,
                                     objectRecv: Option<Pipe>, objectSend: Option<Pipe>, pc: ThreadPc)

  datatype WorkerPc = Ready | AtFinalizeSend | AtFinalizePort

  /** A JSWorkerData that a script can reach, with the pipe of its message handler. */
  datatype WorkerData = WorkerData(recv: Option<Pipe>, send: Option<Pipe>, port: Option<Pipe>, pc: WorkerPc)

  /** `tabs` are the messages that exist, with their buffers; those not in a queue are being handled. */
  datatype World = World(
    calls: map<Id, Call>, threads: map<Id, ThreadState>, workers: map<Id, WorkerData>,
    pipes: Counts<Pipe>, queues: map<Pipe, seq<Message>>,
    scripts: map<Script, Buffer>, buffers: Counts<Buffer>, tabs: map<Message, seq<Buffer>>, handling: set<Message>)

  const MAIN: Id := 0

  const START := World(
    map[], map[MAIN := ThreadState(None, None, None, None, Running)], map[],
    Counts(map[], false), map[], map[], Counts(map[], false), map[], {})

  // ---------------------------------------------------------------------
  // Counting
  // ---------------------------------------------------------------------

  function Faulty<T>(c: Counts<T>): Counts<T> { Counts(c.live, true) }

  /** The loop of `js_free_message` over the table, from i on. */
  function DropEntries(c: Counts<Buffer>, bs: seq<Buffer>, i: nat): Counts<Buffer>
    requires i <= |bs|
    decreases |bs| - i
  {
    if i == |bs| then c else DropEntries(Dropped(c, bs[i]), bs, i + 1)
  }

  /** Taking the references for a message's table. */
  function DupEntries(c: Counts<Buffer>, bs: seq<Buffer>, i: nat): Counts<Buffer>
    requires i <= |bs|
    decreases |bs| - i
  {
    if i == |bs| then c else DupEntries(Dupped(c, bs[i]), bs, i + 1)
  }

  /** `js_free_message`. */
  function FreeMessage(w: World, m: Message): World {
    if m !in w.tabs then w.(buffers := Faulty(w.buffers))
    else w.(buffers := DropEntries(w.buffers, w.tabs[m], 0), tabs := w.tabs - {m}, handling := w.handling - {m})
  }

  function FreeMessages(w: World, ms: seq<Message>): World
    decreases |ms|
  {
    if ms == [] then w else FreeMessages(FreeMessage(w, ms[0]), ms[1..])
  }

  /** `js_new_message_pipe`. */
  function NewPipe(w: World, p: Pipe): World {
    w.(pipes := Created(w.pipes, p), queues := w.queues[p := []])
  }

  /** `js_dup_message_pipe`, which must not be given a null pointer. */
  function DupPipe(w: World, q: Option<Pipe>): World {
    w.(pipes := if q.Some? then Dupped(w.pipes, q.value) else Faulty(w.pipes))
  }

  /** A pipe that goes takes its queued messages along: they are in no queue any more and about to be freed. */
  function Detached(w: World, p: Pipe): World
    requires p in w.queues
  {
    w.(queues := w.queues - {p}, handling := w.handling + set m | m in w.queues[p])
  }

  /** `js_free_message_pipe`: the last pointer frees the messages still queued, and the pipe. */
  function FreePipe(w: World, q: Option<Pipe>): World {
    if q.None? then w
    else
      var u := w.(pipes := Dropped(w.pipes, q.value));
      if q.value in u.pipes.live || q.value !in w.queues then u else FreeMessages(Detached(u, q.value), u.queues[q.value])
  }

  // ---------------------------------------------------------------------
  // The statements
  // ---------------------------------------------------------------------

  datatype Event =
    // js_worker_ctor
    | Construct(t: Id)                              // the zeroed WorkerFuncArgs
    | MakeRecv(t: Id, made: Option<Pipe>)           // js_new_message_pipe, or its failure
    | MakeSend(t: Id, made: Option<Pipe>)
    | MakeObject(t: Id, ok: bool)                   // the object and its JSWorkerData, or an exception
    | CopySend(t: Id)                               // recv_pipe = js_dup_message_pipe(args->send_pipe)
    | CopyRecv(t: Id)                               // send_pipe = js_dup_message_pipe(args->recv_pipe)
    | CreateThread(t: Id, x: Id, ok: bool)          // pthread_create; on success the object is returned
    | FreeArgRecv(t: Id) | FreeArgSend(t: Id)       // the label `fail`
    | FreeObjectRecv(t: Id) | FreeObjectSend(t: Id) // JS_FreeValue of the object, if there is one
    // worker_func
    | Adopt(t: Id)                                  // the pointers move to the thread state
    // js_os_init in the worker
    | MakeParent(t: Id, ok: bool)
    | CopyParentRecv(t: Id) | CopyParentSend(t: Id)
    | ParentMade(t: Id, x: Id)
    // js_std_free_handlers
    | ExitRecv(t: Id) | ExitSend(t: Id)
    // js_worker_set_onmessage
    | SetHandler(x: Id, ok: bool)
    | ClearHandler(x: Id)
    // js_worker_finalizer
    | FinalizeRecv(x: Id) | FinalizeSend(x: Id) | FinalizePort(x: Id)
    // js_sab_alloc, js_sab_dup, js_sab_free for script objects
    | NewBuffer(j: Script, b: Buffer)
    | ShareBuffer(j: Script, k: Script)
    | ReadBuffer(j: Script, m: Message, i: nat)     // reading a message takes a reference of its own
    | DropBuffer(j: Script)
    // js_worker_postMessage, handle_posted_message
    | Post(x: Id, m: Message, js: seq<Script>)
    | Take(x: Id)
    | Done(m: Message)

  /** Which statement may run: the one its function has come to, with memory that was free. Scripts reach the objects
      that are not being finalized. */
  predicate Enabled(w: World, e: Event) {
    match e
    case Construct(t) => t !in w.calls && t !in w.threads
    case MakeRecv(t, made) => t in w.calls && w.calls[t].pc == AtRecv && (made.Some? ==> made.value !in w.pipes.live)
    case MakeSend(t, made) => t in w.calls && w.calls[t].pc == AtSend && (made.Some? ==> made.value !in w.pipes.live)
    case MakeObject(t, _) => t in w.calls && w.calls[t].pc == AtObject
    case CopySend(t) => t in w.calls && w.calls[t].pc == AtObjectRecv
    case CopyRecv(t) => t in w.calls && w.calls[t].pc == AtObjectSend
    case CreateThread(t, x, ok) => t in w.calls && w.calls[t].pc == AtThread && (ok ==> x !in w.workers)
    case FreeArgRecv(t) => t in w.calls && w.calls[t].pc == FailAtRecv
    case FreeArgSend(t) => t in w.calls && w.calls[t].pc == FailAtSend
    case FreeObjectRecv(t) => t in w.calls && w.calls[t].pc == FailAtObjectRecv
    case FreeObjectSend(t) => t in w.calls && w.calls[t].pc == FailAtObjectSend
    case Adopt(t) => t in w.calls && w.calls[t].pc == Handed
    case MakeParent(t, _) => t in w.threads && w.threads[t].pc == Running && w.threads[t].recv.Some? && w.threads[t].send.Some?
    case CopyParentRecv(t) => t in w.threads && w.threads[t].pc == AtParentRecv
    case CopyParentSend(t) => t in w.threads && w.threads[t].pc == AtParentSend
    case ParentMade(t, x) => t in w.threads && w.threads[t].pc == AtParent && x !in w.workers
    case ExitRecv(t) => t in w.threads && w.threads[t].pc == Running
    case ExitSend(t) => t in w.threads && w.threads[t].pc == AtExitSend
    case SetHandler(x, _) => x in w.workers && w.workers[x].pc == Ready && w.workers[x].port.None?
    case ClearHandler(x) => x in w.workers && w.workers[x].pc == Ready && w.workers[x].port.Some?
    case FinalizeRecv(x) => x in w.workers && w.workers[x].pc == Ready
    case FinalizeSend(x) => x in w.workers && w.workers[x].pc == AtFinalizeSend
    case FinalizePort(x) => x in w.workers && w.workers[x].pc == AtFinalizePort
    case NewBuffer(j, b) => j !in w.scripts && b !in w.buffers.live
    case ShareBuffer(j, k) => j !in w.scripts && k in w.scripts
    case ReadBuffer(j, m, i) => j !in w.scripts && m in w.handling && m in w.tabs && i < |w.tabs[m]|
    case DropBuffer(j) => j in w.scripts
    case Post(x, m, js) => x in w.workers && w.workers[x].pc == Ready && m !in w.tabs && forall j :: j in js ==> j in w.scripts
    case Take(x) =>
      && x in w.workers && w.workers[x].pc == Ready && w.workers[x].port.Some?
      && (w.workers[x].port.value in w.queues ==> w.queues[w.workers[x].port.value] != [])
    case Done(m) => m in w.handling
  }

  function SetCall(w: World, t: Id, c: Call): World { w.(calls := w.calls[t := c]) }

  function SetThread(w: World, t: Id, s: ThreadState): World { w.(threads := w.threads[t := s]) }

  function SetWorker(w: World, x: Id, d: WorkerData): World { w.(workers := w.workers[x := d]) }

  /** The buffers of these script objects, as `JS_WriteObject2` lists them. */
  function BuffersOf(scripts: map<Script, Buffer>, js: seq<Script>): (bs: seq<Buffer>)
    requires forall j :: j in js ==> j in scripts
    ensures |bs| == |js| && forall i :: 0 <= i < |js| ==> bs[i] == scripts[js[i]]
  {
    seq(|js|, i requires 0 <= i < |js| => scripts[js[i]])
  }

  predicate OfCall(e: Event) {
    e.Construct? || e.MakeRecv? || e.MakeSend? || e.MakeObject? || e.CopySend? || e.CopyRecv? || e.CreateThread?
    || e.FreeArgRecv? || e.FreeArgSend? || e.FreeObjectRecv? || e.FreeObjectSend? || e.Adopt?
  }

  predicate OfThread(e: Event) {
    e.MakeParent? || e.CopyParentRecv? || e.CopyParentSend? || e.ParentMade? || e.ExitRecv? || e.ExitSend?
  }

  predicate OfWorker(e: Event) {
    e.SetHandler? || e.ClearHandler? || e.FinalizeRecv? || e.FinalizeSend? || e.FinalizePort?
  }

  function NextCall(w: World, e: Event): World
    requires OfCall(e) && Enabled(w, e)
  {
    var c := if e.Construct? then Call(None, None, None, None, AtRecv) else w.calls[e.t];
    match e
    case Construct(t) => SetCall(w, t, c)
    case MakeRecv(t, made) =>
      if made.None? then SetCall(w, t, c.(pc := FailAtRecv))
      else NewPipe(SetCall(w, t, c.(recv := made, pc := AtSend)), made.value)
    case MakeSend(t, made) =>
      if made.None? then SetCall(w, t, c.(pc := FailAtRecv))
      else NewPipe(SetCall(w, t, c.(send := made, pc := AtObject)), made.value)
    case MakeObject(t, ok) => SetCall(w, t, c.(pc := if ok then AtObjectRecv else FailAtRecv))
    case CopySend(t) => DupPipe(SetCall(w, t, c.(objectRecv := c.send, pc := AtObjectSend)), c.send)
    case CopyRecv(t) => DupPipe(SetCall(w, t, c.(objectSend := c.recv, pc := AtThread)), c.recv)
    case CreateThread(t, x, ok) =>
      if !ok then SetCall(w, t, c.(pc := FailAtRecv))
      else SetWorker(SetCall(w, t, c.(objectRecv := None, objectSend := None, pc := Handed)),
                     x, WorkerData(c.objectRecv, c.objectSend, None, Ready))
    case FreeArgRecv(t) => FreePipe(SetCall(w, t, c.(recv := None, pc := FailAtSend)), c.recv)
    case FreeArgSend(t) => FreePipe(SetCall(w, t, c.(send := None, pc := FailAtObjectRecv)), c.send)
    case FreeObjectRecv(t) => FreePipe(SetCall(w, t, c.(objectRecv := None, pc := FailAtObjectSend)), c.objectRecv)
    case FreeObjectSend(t) => FreePipe(w.(calls := w.calls - {t}), c.objectSend)
    case Adopt(t) => w.(calls := w.calls - {t}, threads := w.threads[t := ThreadState(c.recv, c.send, None, None, Running)])
  }

  function NextThread(w: World, e: Event): World
    requires OfThread(e) && Enabled(w, e)
  {
    var s := w.threads[e.t];
    match e
    case MakeParent(t, ok) => SetThread(w, t, s.(pc := if ok then AtParentRecv else Running))
    case CopyParentRecv(t) => DupPipe(SetThread(w, t, s.(objectRecv := s.recv, pc := AtParentSend)), s.recv)
    case CopyParentSend(t) => DupPipe(SetThread(w, t, s.(objectSend := s.send, pc := AtParent)), s.send)
    case ParentMade(t, x) =>
      SetWorker(SetThread(w, t, s.(objectRecv := None, objectSend := None, pc := Running)),
                x, WorkerData(s.objectRecv, s.objectSend, None, Ready))
    case ExitRecv(t) => FreePipe(SetThread(w, t, s.(recv := None, pc := AtExitSend)), s.recv)
    case ExitSend(t) => FreePipe(w.(threads := w.threads - {t}), s.send)
  }

  function NextWorker(w: World, e: Event): World
    requires OfWorker(e) && Enabled(w, e)
  {
    var d := w.workers[e.x];
    match e
    case SetHandler(x, ok) => if ok then DupPipe(SetWorker(w, x, d.(port := d.recv)), d.recv) else w
    case ClearHandler(x) => FreePipe(SetWorker(w, x, d.(port := None)), d.port)
    case FinalizeRecv(x) => FreePipe(SetWorker(w, x, d.(recv := None, pc := AtFinalizeSend)), d.recv)
    case FinalizeSend(x) => FreePipe(SetWorker(w, x, d.(send := None, pc := AtFinalizePort)), d.send)
    case FinalizePort(x) => FreePipe(w.(workers := w.workers - {x}), d.port)
  }

  function NextMessage(w: World, e: Event): World
    requires !OfCall(e) && !OfThread(e) && !OfWorker(e) && Enabled(w, e)
  {
    match e
    case NewBuffer(j, b) => w.(scripts := w.scripts[j := b], buffers := Created(w.buffers, b))
    case ShareBuffer(j, k) => w.(scripts := w.scripts[j := w.scripts[k]], buffers := Dupped(w.buffers, w.scripts[k]))
    case ReadBuffer(j, m, i) => w.(scripts := w.scripts[j := w.tabs[m][i]], buffers := Dupped(w.buffers, w.tabs[m][i]))
    case DropBuffer(j) => w.(scripts := w.scripts - {j}, buffers := Dropped(w.buffers, w.scripts[j]))
    case Post(x, m, js) =>
      var p, bs := w.workers[x].send, BuffersOf(w.scripts, js);
      if p.None? || p.value !in w.queues then w.(pipes := Faulty(w.pipes))
      else w.(buffers := DupEntries(w.buffers, bs, 0), tabs := w.tabs[m := bs], queues := w.queues[p.value := w.queues[p.value] + [m]])
    case Take(x) =>
      var p := w.workers[x].port.value;
      if p !in w.queues then w.(pipes := Faulty(w.pipes))
      else w.(queues := w.queues[p := w.queues[p][1..]], handling := w.handling + {w.queues[p][0]})
    case Done(m) => FreeMessage(w, m)
  }

  function Next(w: World, e: Event): World
    requires Enabled(w, e)
  {
    if OfCall(e) then NextCall(w, e)
    else if OfThread(e) then NextThread(w, e)
    else if OfWorker(e) then NextWorker(w, e)
    else NextMessage(w, e)
  }

  ghost predicate Leads(v: World, events: seq<Event>, w: World)
    decreases |events|
  {
    if events == [] then w == v
    else Enabled(v, events[0]) && Leads(Next(v, events[0]), events[1..], w)
  }

  // ---------------------------------------------------------------------
  // Who points to what, computed from the records
  // ---------------------------------------------------------------------

  datatype Slot = Recv | Send | ObjectRecv | ObjectSend | Port

  datatype PipeHolder = InCall(t: Id, s: Slot) | InThread(t: Id, s: Slot) | InWorker(x: Id, s: Slot)

  function CallSlot(c: Call, s: Slot): Option<Pipe> {
    match s
    case Recv => c.recv case Send => c.send case ObjectRecv => c.objectRecv case ObjectSend => c.objectSend case Port => None
  }

  function ThreadSlot(d: ThreadState, s: Slot): Option<Pipe> {
    match s
    case Recv => d.recv case Send => d.send case ObjectRecv => d.objectRecv case ObjectSend => d.objectSend case Port => None
  }

  function WorkerSlot(d: WorkerData, s: Slot): Option<Pipe> {
    match s
    case Recv => d.recv case Send => d.send case Port => d.port case _ => None
  }

  /** The pipe that a field of a record points to. */
  function Pointer(w: World, h: PipeHolder): Option<Pipe> {
    match h
    case InCall(t, s) => if t in w.calls then CallSlot(w.calls[t], s) else None
    case InThread(t, s) => if t in w.threads then ThreadSlot(w.threads[t], s) else None
    case InWorker(x, s) => if x in w.workers then WorkerSlot(w.workers[x], s) else None
  }

  ghost function Fields(w: World): set<PipeHolder> {
    (set t, s: Slot | t in w.calls :: InCall(t, s)) + (set t, s: Slot | t in w.threads :: InThread(t, s))
    + (set x, s: Slot | x in w.workers :: InWorker(x, s))
  }

  ghost function PipeRefs(w: World): map<PipeHolder, Pipe> {
    map h | h in Fields(w) && Pointer(w, h).Some? :: Pointer(w, h).value
  }

  /** The pointers to a shared buffer: a script's object, and each entry of a message's `sab_tab`. */
  datatype BufferHolder = ScriptObject(j: Script) | Entry(m: Message, i: nat)

  function BufferPointer(w: World, h: BufferHolder): Option<Buffer> {
    match h
    case ScriptObject(j) => if j in w.scripts then Some(w.scripts[j]) else None
    case Entry(m, i) => if m in w.tabs && i < |w.tabs[m]| then Some(w.tabs[m][i]) else None
  }

  ghost function BufferFields(w: World): set<BufferHolder> {
    (set j | j in w.scripts :: ScriptObject(j)) + (set m, i: nat | m in w.tabs && i < |w.tabs[m]| :: Entry(m, i))
  }

  ghost function BufferRefs(w: World): map<BufferHolder, Buffer> {
    map h | h in BufferFields(w) && BufferPointer(w, h).Some? :: BufferPointer(w, h).value
  }
}
