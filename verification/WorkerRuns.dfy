/** What every statement of WorkerRefs keeps, and what therefore holds over every run. */
module WorkerRuns {
  import opened RefCounts
  import opened WorkerRefs
  import opened WorkerCounts

  // ---------------------------------------------------------------------
  // One record changes
  // ---------------------------------------------------------------------

  /** The call's record changes in one field at most. */
  lemma CallSet(w: World, t: Id, c: Call, s: Slot)
    requires Shapes(w) && CallOk(c) && t !in w.threads
    requires forall r: Slot :: r != s ==> CallSlot(c, r) == Pointer(w, InCall(t, r))
    ensures Shapes(SetCall(w, t, c)) && OnlyAt(w, SetCall(w, t, c), InCall(t, s))
    ensures Pointer(SetCall(w, t, c), InCall(t, s)) == CallSlot(c, s)
  {
    hide CallOk, ThreadOk, WorkerOk, CallSlot, ThreadSlot, WorkerSlot;
  }

  lemma ThreadSet(w: World, t: Id, d: ThreadState, s: Slot)
    requires Shapes(w) && ThreadOk(d) && t in w.threads
    requires forall r: Slot :: r != s ==> ThreadSlot(d, r) == Pointer(w, InThread(t, r))
    ensures Shapes(SetThread(w, t, d)) && OnlyAt(w, SetThread(w, t, d), InThread(t, s))
    ensures Pointer(SetThread(w, t, d), InThread(t, s)) == ThreadSlot(d, s)
  {
    hide CallOk, ThreadOk, WorkerOk, CallSlot, ThreadSlot, WorkerSlot;
  }

  lemma WorkerSet(w: World, x: Id, d: WorkerData, s: Slot)
    requires Shapes(w) && WorkerOk(d) && x in w.workers
    requires forall r: Slot :: r != s ==> WorkerSlot(d, r) == Pointer(w, InWorker(x, r))
    ensures Shapes(SetWorker(w, x, d)) && OnlyAt(w, SetWorker(w, x, d), InWorker(x, s))
    ensures Pointer(SetWorker(w, x, d), InWorker(x, s)) == WorkerSlot(d, s)
  {
    hide CallOk, ThreadOk, WorkerOk, CallSlot, ThreadSlot, WorkerSlot;
  }

  /** A record goes; at most one of its pointers was left. */
  lemma RecordGone(w: World, v: World, h: PipeHolder)
    requires Shapes(w)
    requires match h
      case InCall(t, s) => v == w.(calls := w.calls - {t}) && forall r: Slot :: r != s ==> Pointer(w, InCall(t, r)).None?
      case InThread(t, s) => v == w.(threads := w.threads - {t}) && forall r: Slot :: r != s ==> Pointer(w, InThread(t, r)).None?
      case InWorker(x, s) => v == w.(workers := w.workers - {x}) && forall r: Slot :: r != s ==> Pointer(w, InWorker(x, r)).None?
    ensures Shapes(v) && OnlyAt(w, v, h) && Pointer(v, h) == None
  {
    hide CallOk, ThreadOk, WorkerOk, CallSlot, ThreadSlot, WorkerSlot;
  }

  lemma CallStep(w: World, t: Id, c: Call)
    requires Valid(w) && CallOk(c) && t !in w.threads
    requires forall r: Slot :: CallSlot(c, r) == Pointer(w, InCall(t, r))
    ensures Valid(SetCall(w, t, c))
  {
    hide PipesValid, BuffersValid, MessagesValid, CallOk, CallSlot, ThreadSlot, WorkerSlot;
    CallSet(w, t, c, Port);
    Untouched(w, SetCall(w, t, c));
  }

  lemma CallMade(w: World, t: Id, c: Call, s: Slot, p: Pipe)
    requires Valid(w) && CallOk(c) && t in w.calls && p !in w.pipes.live
    requires CallSlot(w.calls[t], s) == None && CallSlot(c, s) == Some(p)
    requires forall r: Slot :: r != s ==> CallSlot(c, r) == CallSlot(w.calls[t], r)
    ensures Valid(NewPipe(SetCall(w, t, c), p))
  {
    hide PipesValid, BuffersValid, MessagesValid, CallOk, CallSlot, ThreadSlot, WorkerSlot, NewPipe;
    CallSet(w, t, c, s);
    Allocated(w, SetCall(w, t, c), InCall(t, s), p);
  }

  lemma CallCopied(w: World, t: Id, c: Call, s: Slot, from: Slot)
    requires Valid(w) && CallOk(c) && t in w.calls
    requires CallSlot(w.calls[t], s) == None && CallSlot(w.calls[t], from).Some? && CallSlot(c, s) == CallSlot(w.calls[t], from)
    requires forall r: Slot :: r != s ==> CallSlot(c, r) == CallSlot(w.calls[t], r)
    ensures Valid(DupPipe(SetCall(w, t, c), CallSlot(w.calls[t], from)))
  {
    hide PipesValid, BuffersValid, MessagesValid, CallOk, CallSlot, ThreadSlot, WorkerSlot, DupPipe;
    CallSet(w, t, c, s);
    Copied(w, SetCall(w, t, c), InCall(t, s), InCall(t, from));
  }

  lemma CallFreed(w: World, t: Id, c: Call, s: Slot)
    requires Valid(w) && CallOk(c) && t in w.calls && CallSlot(c, s) == None
    requires forall r: Slot :: r != s ==> CallSlot(c, r) == CallSlot(w.calls[t], r)
    ensures Valid(FreePipe(SetCall(w, t, c), CallSlot(w.calls[t], s)))
  {
    hide PipesValid, BuffersValid, MessagesValid, CallOk, CallSlot, ThreadSlot, WorkerSlot, FreePipe;
    CallSet(w, t, c, s);
    Freed(w, SetCall(w, t, c), InCall(t, s));
  }

  lemma ThreadCopied(w: World, t: Id, d: ThreadState, s: Slot, from: Slot)
    requires Valid(w) && ThreadOk(d) && t in w.threads
    requires ThreadSlot(w.threads[t], s) == None && ThreadSlot(w.threads[t], from).Some? && ThreadSlot(d, s) == ThreadSlot(w.threads[t], from)
    requires forall r: Slot :: r != s ==> ThreadSlot(d, r) == ThreadSlot(w.threads[t], r)
    ensures Valid(DupPipe(SetThread(w, t, d), ThreadSlot(w.threads[t], from)))
  {
    hide PipesValid, BuffersValid, MessagesValid, ThreadOk, CallSlot, ThreadSlot, WorkerSlot, DupPipe;
    ThreadSet(w, t, d, s);
    Copied(w, SetThread(w, t, d), InThread(t, s), InThread(t, from));
  }

  lemma WorkerFreed(w: World, x: Id, d: WorkerData, s: Slot)
    requires Valid(w) && WorkerOk(d) && x in w.workers && WorkerSlot(d, s) == None
    requires forall r: Slot :: r != s ==> WorkerSlot(d, r) == WorkerSlot(w.workers[x], r)
    ensures Valid(FreePipe(SetWorker(w, x, d), WorkerSlot(w.workers[x], s)))
  {
    hide PipesValid, BuffersValid, MessagesValid, WorkerOk, CallSlot, ThreadSlot, WorkerSlot, FreePipe;
    WorkerSet(w, x, d, s);
    Freed(w, SetWorker(w, x, d), InWorker(x, s));
  }

  lemma RecordFreed(w: World, v: World, h: PipeHolder)
    requires Valid(w)
    requires match h
      case InCall(t, s) => v == w.(calls := w.calls - {t}) && forall r: Slot :: r != s ==> Pointer(w, InCall(t, r)).None?
      case InThread(t, s) => v == w.(threads := w.threads - {t}) && forall r: Slot :: r != s ==> Pointer(w, InThread(t, r)).None?
      case InWorker(x, s) => v == w.(workers := w.workers - {x}) && forall r: Slot :: r != s ==> Pointer(w, InWorker(x, r)).None?
    ensures Valid(FreePipe(v, Pointer(w, h)))
  {
    hide PipesValid, BuffersValid, MessagesValid, CallSlot, ThreadSlot, WorkerSlot, FreePipe;
    RecordGone(w, v, h);
    Freed(w, v, h);
  }

  // ---------------------------------------------------------------------
  // js_worker_ctor and worker_func
  // ---------------------------------------------------------------------

  lemma MakeKeeps(w: World, e: Event)
    requires Valid(w) && Enabled(w, e) && (e.Construct? || e.MakeRecv? || e.MakeSend? || e.MakeObject?)
    ensures Valid(NextCall(w, e))
  {
    hide PipesValid, BuffersValid, MessagesValid, NewPipe, ThreadOk, WorkerOk, ThreadSlot, WorkerSlot;
    match e
    case Construct(t) => CallStep(w, t, Call(None, None, None, None, AtRecv));
    case MakeRecv(t, made) =>
      var c := w.calls[t];
      if made.None? { CallStep(w, t, c.(pc := FailAtRecv)); }
      else { CallMade(w, t, c.(recv := made, pc := AtSend), Recv, made.value); }
    case MakeSend(t, made) =>
      var c := w.calls[t];
      if made.None? { CallStep(w, t, c.(pc := FailAtRecv)); }
      else { CallMade(w, t, c.(send := made, pc := AtObject), Send, made.value); }
    case MakeObject(t, ok) => CallStep(w, t, w.calls[t].(pc := if ok then AtObjectRecv else FailAtRecv));
  }

  lemma CopyKeeps(w: World, e: Event)
    requires Valid(w) && Enabled(w, e) && (e.CopySend? || e.CopyRecv?)
    ensures Valid(NextCall(w, e))
  {
    hide PipesValid, BuffersValid, MessagesValid, DupPipe, ThreadOk, WorkerOk, ThreadSlot, WorkerSlot;
    var c := w.calls[e.t];
    match e
    case CopySend(t) => CallCopied(w, t, c.(objectRecv := c.send, pc := AtObjectSend), ObjectRecv, Send);
    case CopyRecv(t) => CallCopied(w, t, c.(objectSend := c.recv, pc := AtThread), ObjectSend, Recv);
  }

  lemma FailKeeps(w: World, e: Event)
    requires Valid(w) && Enabled(w, e) && (e.FreeArgRecv? || e.FreeArgSend? || e.FreeObjectRecv? || e.FreeObjectSend?)
    ensures Valid(NextCall(w, e))
  {
    hide Valid;
    if e.FreeArgRecv? || e.FreeArgSend? { FailArgsKeeps(w, e); } else { FailObjectKeeps(w, e); }
  }

  lemma FailArgsKeeps(w: World, e: Event)
    requires Valid(w) && Enabled(w, e) && (e.FreeArgRecv? || e.FreeArgSend?)
    ensures Valid(NextCall(w, e))
  {
    hide PipesValid, BuffersValid, MessagesValid, FreePipe, ThreadOk, WorkerOk, ThreadSlot, WorkerSlot;
    var c := w.calls[e.t];
    match e
    case FreeArgRecv(t) => CallFreed(w, t, c.(recv := None, pc := FailAtSend), Recv);
    case FreeArgSend(t) => CallFreed(w, t, c.(send := None, pc := FailAtObjectRecv), Send);
  }

  lemma FailObjectKeeps(w: World, e: Event)
    requires Valid(w) && Enabled(w, e) && (e.FreeObjectRecv? || e.FreeObjectSend?)
    ensures Valid(NextCall(w, e))
  {
    hide PipesValid, BuffersValid, MessagesValid, FreePipe, ThreadOk, WorkerOk, ThreadSlot, WorkerSlot;
    var c := w.calls[e.t];
    match e
    case FreeObjectRecv(t) => CallFreed(w, t, c.(objectRecv := None, pc := FailAtObjectSend), ObjectRecv);
    case FreeObjectSend(t) => RecordFreed(w, w.(calls := w.calls - {t}), InCall(t, ObjectSend));
  }

  /** Two pointers at once are copied to other fields and forgotten in the first. */
  lemma TwoMoved(w: World, v: World, h: PipeHolder, k: PipeHolder, h': PipeHolder, k': PipeHolder)
    requires Valid(w) && SameBut(w, v) && Shapes(v)
    requires h != h' && k != k' && h != k' && h' != k && h != k && h' != k'
    requires Pointer(w, h).Some? && Pointer(w, h').Some? && Pointer(w, k).None? && Pointer(w, k').None?
    requires Pointer(v, h).None? && Pointer(v, h').None? && Pointer(v, k) == Pointer(w, h) && Pointer(v, k') == Pointer(w, h')
    requires forall l: PipeHolder :: l != h && l != k && l != h' && l != k' ==> Pointer(v, l) == Pointer(w, l)
    ensures Valid(v)
  {
    hide Counted, Pointer, PipeRefs, BuffersValid, MessagesValid, Shapes;
    var refs := PipeRefs(w);
    RefsAt(w, h); RefsAt(w, k); RefsAt(w, h'); RefsAt(w, k');
    MovedCounted(w.pipes, refs, h, k);
    var once := (refs - {h})[k := refs[h]];
    MovedCounted(w.pipes, once, h', k');
    var twice := (once - {h'})[k' := once[h']];
    forall l: PipeHolder ensures l in PipeRefs(v) <==> l in twice { RefsAt(v, l); RefsAt(w, l); }
    forall l | l in twice ensures PipeRefs(v)[l] == twice[l] { RefsAt(v, l); RefsAt(w, l); }
    assert PipeRefs(v) == twice;
    SameMessages(w, v);
  }

  lemma ObjectHanded(w: World, t: Id, x: Id)
    requires Valid(w) && Enabled(w, CreateThread(t, x, true))
    ensures Valid(NextCall(w, CreateThread(t, x, true)))
  {
    hide PipesValid, BuffersValid, MessagesValid, ThreadOk, ThreadSlot;
    var v := NextCall(w, CreateThread(t, x, true));
    ObjectFields(w, v, t, x);
    ObjectShapes(w, v, t, x);
    hide Shapes;
    TwoMoved(w, v, InCall(t, ObjectRecv), InWorker(x, Recv), InCall(t, ObjectSend), InWorker(x, Send));
  }

  lemma ObjectShapes(w: World, v: World, t: Id, x: Id)
    requires Shapes(w) && Enabled(w, CreateThread(t, x, true)) && v == NextCall(w, CreateThread(t, x, true))
    ensures Shapes(v) && CallOk(w.calls[t])
  {
    hide ThreadOk;
  }

  lemma ObjectFields(w: World, v: World, t: Id, x: Id)
    requires Shapes(w) && Enabled(w, CreateThread(t, x, true)) && v == NextCall(w, CreateThread(t, x, true))
    ensures forall l: PipeHolder ::
      l != InCall(t, ObjectRecv) && l != InCall(t, ObjectSend) && l != InWorker(x, Recv) && l != InWorker(x, Send)
      ==> Pointer(v, l) == Pointer(w, l)
  {
    hide CallOk, ThreadOk, WorkerOk;
    var c := w.calls[t];
    forall l: PipeHolder | l != InCall(t, ObjectRecv) && l != InCall(t, ObjectSend) && l != InWorker(x, Recv) && l != InWorker(x, Send)
      ensures Pointer(v, l) == Pointer(w, l)
    {
      match l
      case InCall(u, s) => if u == t { assert CallSlot(v.calls[t], s) == CallSlot(c, s); }
      case InThread(u, s) =>
      case InWorker(y, s) => if y == x { assert WorkerSlot(v.workers[x], s) == None; }
    }
  }

  lemma CreateKeeps(w: World, t: Id, x: Id, ok: bool)
    requires Valid(w) && Enabled(w, CreateThread(t, x, ok))
    ensures Valid(NextCall(w, CreateThread(t, x, ok)))
  {
    hide PipesValid, BuffersValid, MessagesValid, ThreadSlot, WorkerSlot, ThreadOk, WorkerOk;
    if ok { ObjectHanded(w, t, x); } else { CallStep(w, t, w.calls[t].(pc := FailAtRecv)); }
  }

  lemma AdoptKeeps(w: World, t: Id)
    requires Valid(w) && Enabled(w, Adopt(t))
    ensures Valid(NextCall(w, Adopt(t)))
  {
    hide PipesValid, BuffersValid, MessagesValid, WorkerOk, WorkerSlot;
    var v := NextCall(w, Adopt(t));
    forall l: PipeHolder | l != InCall(t, Recv) && l != InCall(t, Send) && l != InThread(t, Recv) && l != InThread(t, Send)
      ensures Pointer(v, l) == Pointer(w, l)
    {
      match l
      case InCall(u, s) => if u == t { assert CallSlot(w.calls[t], s) == None; }
      case InThread(u, s) => if u == t { assert ThreadSlot(v.threads[t], s) == None; }
      case InWorker(y, s) =>
    }
    TwoMoved(w, v, InCall(t, Recv), InThread(t, Recv), InCall(t, Send), InThread(t, Send));
  }

  // ---------------------------------------------------------------------
  // The worker's thread, worker objects
  // ---------------------------------------------------------------------

  lemma ParentHanded(w: World, t: Id, x: Id)
    requires Valid(w) && Enabled(w, ParentMade(t, x))
    ensures Valid(NextThread(w, ParentMade(t, x)))
  {
    hide PipesValid, BuffersValid, MessagesValid, CallOk, CallSlot;
    var v := NextThread(w, ParentMade(t, x));
    ParentFields(w, v, t, x);
    TwoMoved(w, v, InThread(t, ObjectRecv), InWorker(x, Recv), InThread(t, ObjectSend), InWorker(x, Send));
  }

  lemma ParentFields(w: World, v: World, t: Id, x: Id)
    requires Shapes(w) && Enabled(w, ParentMade(t, x)) && v == NextThread(w, ParentMade(t, x))
    ensures forall l: PipeHolder ::
      l != InThread(t, ObjectRecv) && l != InThread(t, ObjectSend) && l != InWorker(x, Recv) && l != InWorker(x, Send)
      ==> Pointer(v, l) == Pointer(w, l)
  {
    hide CallOk, ThreadOk, WorkerOk;
    var d := w.threads[t];
    forall l: PipeHolder | l != InThread(t, ObjectRecv) && l != InThread(t, ObjectSend) && l != InWorker(x, Recv) && l != InWorker(x, Send)
      ensures Pointer(v, l) == Pointer(w, l)
    {
      match l
      case InCall(u, s) =>
      case InThread(u, s) => if u == t { assert ThreadSlot(v.threads[t], s) == ThreadSlot(d, s); }
      case InWorker(y, s) => if y == x { assert WorkerSlot(v.workers[x], s) == None; }
    }
  }

  lemma ParentKeeps(w: World, e: Event)
    requires Valid(w) && Enabled(w, e) && (e.MakeParent? || e.CopyParentRecv? || e.CopyParentSend?)
    ensures Valid(NextThread(w, e))
  {
    hide PipesValid, BuffersValid, MessagesValid, DupPipe, CallOk, WorkerOk, CallSlot, WorkerSlot;
    var d := w.threads[e.t];
    match e
    case MakeParent(t, ok) =>
      var d' := d.(pc := if ok then AtParentRecv else Running);
      ThreadSet(w, t, d', Port);
      Untouched(w, SetThread(w, t, d'));
    case CopyParentRecv(t) => ThreadCopied(w, t, d.(objectRecv := d.recv, pc := AtParentSend), ObjectRecv, Recv);
    case CopyParentSend(t) => ThreadCopied(w, t, d.(objectSend := d.send, pc := AtParent), ObjectSend, Send);
  }

  lemma ExitKeeps(w: World, e: Event)
    requires Valid(w) && Enabled(w, e) && (e.ExitRecv? || e.ExitSend?)
    ensures Valid(NextThread(w, e))
  {
    hide PipesValid, BuffersValid, MessagesValid, FreePipe, CallOk, WorkerOk, CallSlot, WorkerSlot;
    var d := w.threads[e.t];
    match e
    case ExitRecv(t) =>
      var d' := d.(recv := None, pc := AtExitSend);
      ThreadSet(w, t, d', Recv);
      Freed(w, SetThread(w, t, d'), InThread(t, Recv));
    case ExitSend(t) => RecordFreed(w, w.(threads := w.threads - {t}), InThread(t, Send));
  }

  lemma HandlerKeeps(w: World, e: Event)
    requires Valid(w) && Enabled(w, e) && (e.SetHandler? || e.ClearHandler?)
    ensures Valid(NextWorker(w, e))
  {
    hide PipesValid, BuffersValid, MessagesValid, DupPipe, FreePipe, CallOk, ThreadOk, CallSlot, ThreadSlot;
    var d := w.workers[e.x];
    match e
    case SetHandler(x, ok) =>
      if ok {
        var d' := d.(port := d.recv);
        WorkerSet(w, x, d', Port);
        Copied(w, SetWorker(w, x, d'), InWorker(x, Port), InWorker(x, Recv));
      }
    case ClearHandler(x) => WorkerFreed(w, x, d.(port := None), Port);
  }

  lemma FinalizeKeeps(w: World, e: Event)
    requires Valid(w) && Enabled(w, e) && (e.FinalizeRecv? || e.FinalizeSend? || e.FinalizePort?)
    ensures Valid(NextWorker(w, e))
  {
    hide PipesValid, BuffersValid, MessagesValid, FreePipe, CallOk, ThreadOk, CallSlot, ThreadSlot;
    var d := w.workers[e.x];
    match e
    case FinalizeRecv(x) => WorkerFreed(w, x, d.(recv := None, pc := AtFinalizeSend), Recv);
    case FinalizeSend(x) => WorkerFreed(w, x, d.(send := None, pc := AtFinalizePort), Send);
    case FinalizePort(x) => RecordFreed(w, w.(workers := w.workers - {x}), InWorker(x, Port));
  }

  // ---------------------------------------------------------------------
  // Buffers and messages
  // ---------------------------------------------------------------------

  /** One script object's buffer is set or forgotten. */
  lemma ScriptRefs(w: World, v: World, j: Script)
    requires v == w.(scripts := v.scripts, buffers := v.buffers)
    requires forall k :: k != j ==> (k in v.scripts <==> k in w.scripts) && (k in w.scripts ==> v.scripts[k] == w.scripts[k])
    ensures BufferRefs(v) == if j in v.scripts then BufferRefs(w)[ScriptObject(j) := v.scripts[j]] else BufferRefs(w) - {ScriptObject(j)}
    ensures MessagesValid(w) ==> MessagesValid(v)
  {
    hide BufferRefs;
    var after := if j in v.scripts then BufferRefs(w)[ScriptObject(j) := v.scripts[j]] else BufferRefs(w) - {ScriptObject(j)};
    forall h: BufferHolder ensures h in BufferRefs(v) <==> h in after { BufferRefsAt(w, h); BufferRefsAt(v, h); }
    forall h | h in after ensures BufferRefs(v)[h] == after[h] { BufferRefsAt(w, h); BufferRefsAt(v, h); }
  }

  lemma PipesKept(w: World, v: World)
    requires PipesValid(w) && Shapes(w) && v.calls == w.calls && v.threads == w.threads && v.workers == w.workers
    requires v.pipes == w.pipes && v.queues.Keys == w.queues.Keys
    ensures PipesValid(v) && Shapes(v)
  {
    hide Counted, PipeRefs;
    SamePointers(w, v);
  }

  lemma ScriptStep(w: World, v: World, j: Script)
    requires Valid(w) && v == w.(scripts := v.scripts, buffers := v.buffers)
    requires forall k :: k != j ==> (k in v.scripts <==> k in w.scripts) && (k in w.scripts ==> v.scripts[k] == w.scripts[k])
    requires Counted(v.buffers, if j in v.scripts then BufferRefs(w)[ScriptObject(j) := v.scripts[j]] else BufferRefs(w) - {ScriptObject(j)})
    ensures Valid(v)
  {
    hide Counted, PipesValid, MessagesValid, BufferRefs, Shapes;
    ScriptRefs(w, v, j);
    PipesKept(w, v);
  }

  lemma NewBufferKeeps(w: World, j: Script, b: Buffer)
    requires Valid(w) && Enabled(w, NewBuffer(j, b))
    ensures Valid(NextMessage(w, NewBuffer(j, b)))
  {
    hide Counted, PipesValid, MessagesValid, BufferRefs, Shapes;
    BufferRefsAt(w, ScriptObject(j));
    CreatedCounted(w.buffers, BufferRefs(w), ScriptObject(j), b);
    ScriptStep(w, NextMessage(w, NewBuffer(j, b)), j);
  }

  lemma ScriptGets(w: World, v: World, j: Script, source: BufferHolder)
    requires Valid(w) && j !in w.scripts && BufferPointer(w, source).Some?
    requires var b := BufferPointer(w, source).value; v == w.(scripts := w.scripts[j := b], buffers := Dupped(w.buffers, b))
    ensures Valid(v)
  {
    hide Counted, PipesValid, MessagesValid, BufferRefs, Shapes;
    BufferRefsAt(w, ScriptObject(j));
    LiveBuffer(w, source);
    DuppedCounted(w.buffers, BufferRefs(w), ScriptObject(j), BufferPointer(w, source).value);
    ScriptStep(w, v, j);
  }

  lemma ShareKeeps(w: World, j: Script, k: Script)
    requires Valid(w) && Enabled(w, ShareBuffer(j, k))
    ensures Valid(NextMessage(w, ShareBuffer(j, k)))
  {
    hide Valid;
    ScriptGets(w, NextMessage(w, ShareBuffer(j, k)), j, ScriptObject(k));
  }

  lemma ReadKeeps(w: World, j: Script, m: Message, i: nat)
    requires Valid(w) && Enabled(w, ReadBuffer(j, m, i))
    ensures Valid(NextMessage(w, ReadBuffer(j, m, i)))
  {
    hide Valid;
    ScriptGets(w, NextMessage(w, ReadBuffer(j, m, i)), j, Entry(m, i));
  }

  lemma DropBufferKeeps(w: World, j: Script)
    requires Valid(w) && Enabled(w, DropBuffer(j))
    ensures Valid(NextMessage(w, DropBuffer(j)))
  {
    hide Counted, PipesValid, MessagesValid, BufferRefs, Shapes;
    BufferRefsAt(w, ScriptObject(j));
    DroppedCounted(w.buffers, BufferRefs(w), ScriptObject(j));
    ScriptStep(w, NextMessage(w, DropBuffer(j)), j);
  }

  lemma LiveBuffer(w: World, h: BufferHolder)
    requires BuffersValid(w) && BufferPointer(w, h).Some?
    ensures BufferPointer(w, h).value in w.buffers.live
  {
    BufferRefsAt(w, h);
  }

  lemma LivePipe(w: World, h: PipeHolder)
    requires PipesValid(w) && Pointer(w, h).Some?
    ensures Pointer(w, h).value in w.pipes.live && Pointer(w, h).value in w.queues
  {
    hide Pointer;
    RefsAt(w, h);
  }

  lemma PostKeeps(w: World, x: Id, m: Message, js: seq<Script>)
    requires Valid(w) && Enabled(w, Post(x, m, js))
    ensures Valid(NextMessage(w, Post(x, m, js)))
  {
    hide Counted, PipesValid, MessagesValid, BufferRefs, DupEntries, With;
    var v := NextMessage(w, Post(x, m, js));
    var bs := BuffersOf(w.scripts, js);
    LivePipe(w, InWorker(x, Send));
    var p := w.workers[x].send.value;
    forall i | 0 <= i < |bs| ensures bs[i] in w.buffers.live { LiveBuffer(w, ScriptObject(js[i])); }
    PostedRefs(w, m, bs);
    DupEntriesCounted(w.buffers, BufferRefs(w), m, bs, 0);
    SameBuffers(w.(tabs := w.tabs[m := bs]), v);
    PostedMessages(w, m, bs, p, v);
    PipesKept(w, v);
  }

  lemma TakeKeeps(w: World, x: Id)
    requires Valid(w) && Enabled(w, Take(x))
    ensures Valid(NextMessage(w, Take(x)))
  {
    hide Counted, PipesValid, MessagesValid, BufferRefs;
    var v := NextMessage(w, Take(x));
    LivePipe(w, InWorker(x, Port));
    TakenMessages(w, w.workers[x].port.value, v);
    SameBuffers(w, v);
    PipesKept(w, v);
  }

  lemma DoneKeeps(w: World, m: Message)
    requires Valid(w) && Enabled(w, Done(m))
    ensures Valid(NextMessage(w, Done(m)))
  {
    hide Counted, PipesValid, BuffersValid, MessagesValid, DropEntries;
    FreeMessageValid(w, m);
    PipesKept(w, NextMessage(w, Done(m)));
  }

  // ---------------------------------------------------------------------
  // Every run
  // ---------------------------------------------------------------------

  lemma CallKeeps(w: World, e: Event)
    requires Valid(w) && OfCall(e) && Enabled(w, e)
    ensures Valid(NextCall(w, e))
  {
    hide Valid, Enabled, NextCall;
    match e
    case Construct(_) | MakeRecv(_, _) | MakeSend(_, _) | MakeObject(_, _) => MakeKeeps(w, e);
    case CopySend(_) | CopyRecv(_) => CopyKeeps(w, e);
    case FreeArgRecv(_) | FreeArgSend(_) | FreeObjectRecv(_) | FreeObjectSend(_) => FailKeeps(w, e);
    case CreateThread(t, x, ok) => CreateKeeps(w, t, x, ok);
    case Adopt(t) => AdoptKeeps(w, t);
  }

  lemma ThreadKeeps(w: World, e: Event)
    requires Valid(w) && OfThread(e) && Enabled(w, e)
    ensures Valid(NextThread(w, e))
  {
    hide Valid, Enabled, NextThread;
    match e
    case MakeParent(_, _) | CopyParentRecv(_) | CopyParentSend(_) => ParentKeeps(w, e);
    case ParentMade(t, x) => ParentHanded(w, t, x);
    case ExitRecv(_) | ExitSend(_) => ExitKeeps(w, e);
  }

  lemma WorkerKeeps(w: World, e: Event)
    requires Valid(w) && OfWorker(e) && Enabled(w, e)
    ensures Valid(NextWorker(w, e))
  {
    hide Valid, Enabled, NextWorker;
    match e
    case SetHandler(_, _) | ClearHandler(_) => HandlerKeeps(w, e);
    case FinalizeRecv(_) | FinalizeSend(_) | FinalizePort(_) => FinalizeKeeps(w, e);
  }

  lemma MessageKeeps(w: World, e: Event)
    requires Valid(w) && !OfCall(e) && !OfThread(e) && !OfWorker(e) && Enabled(w, e)
    ensures Valid(NextMessage(w, e))
  {
    hide Valid, Enabled, NextMessage;
    match e
    case NewBuffer(j, b) => NewBufferKeeps(w, j, b);
    case ShareBuffer(j, k) => ShareKeeps(w, j, k);
    case ReadBuffer(j, m, i) => ReadKeeps(w, j, m, i);
    case DropBuffer(j) => DropBufferKeeps(w, j);
    case Post(x, m, js) => PostKeeps(w, x, m, js);
    case Take(x) => TakeKeeps(w, x);
    case Done(m) => DoneKeeps(w, m);
  }

  /** Every statement keeps every count equal to the number of pointers, and touches live objects only. */
  lemma NextValid(w: World, e: Event)
    requires Valid(w) && Enabled(w, e)
    ensures Valid(Next(w, e))
  {
    hide Valid, Enabled, NextCall, NextThread, NextWorker, NextMessage;
    if OfCall(e) { CallKeeps(w, e); }
    else if OfThread(e) { ThreadKeeps(w, e); }
    else if OfWorker(e) { WorkerKeeps(w, e); }
    else { MessageKeeps(w, e); }
  }

  lemma {:induction false} LeadsValid(v: World, events: seq<Event>, w: World)
    requires Valid(v) && Leads(v, events, w)
    ensures Valid(w)
    decreases |events|
  {
    hide Valid, Next, Enabled;
    if events != [] {
      NextValid(v, events[0]);
      LeadsValid(Next(v, events[0]), events[1..], w);
    }
  }

  /** In no run is a pipe or a shared buffer touched that is not live: no count is taken below zero, nothing is freed
      twice, no message goes to a pipe that is gone. */
  lemma NothingDeadIsTouched(events: seq<Event>, w: World)
    requires Leads(START, events, w)
    ensures !w.pipes.fault && !w.buffers.fault
  {
    hide PipeRefs, BufferRefs, Pointer, BufferPointer, Shapes, MessagesValid;
    StartValid();
    LeadsValid(START, events, w);
  }

  /** In every reachable state a live pipe's count is the number of fields that point to it, over the constructor calls,
      the threads and the worker objects with their handlers. */
  lemma PipeCounts(events: seq<Event>, w: World, p: Pipe)
    requires Leads(START, events, w) && p in w.pipes.live
    ensures w.pipes.live[p] == |Holders(PipeRefs(w), p)| > 0 && p in w.queues
    ensures forall h: PipeHolder :: h in Holders(PipeRefs(w), p) <==> Pointer(w, h) == Some(p)
  {
    StartValid();
    LeadsValid(START, events, w);
    forall h: PipeHolder ensures h in Holders(PipeRefs(w), p) <==> Pointer(w, h) == Some(p) { RefsAt(w, h); }
  }

  /** And every field that points to a pipe points to a live one. */
  lemma HeldPipesLive(events: seq<Event>, w: World, h: PipeHolder)
    requires Leads(START, events, w) && Pointer(w, h).Some?
    ensures Pointer(w, h).value in w.pipes.live
  {
    hide Valid, Pointer, PipeRefs;
    StartValid();
    LeadsValid(START, events, w);
    assert PipesValid(w) by { PipesPart(w); }
    LivePipe(w, h);
  }

  lemma PipesPart(w: World)
    requires Valid(w)
    ensures PipesValid(w) && BuffersValid(w) && MessagesValid(w)
  {
  }

  /** A buffer in a message, queued or being handled, is live, and its count includes every one of its entries. */
  lemma BuffersInTransitLive(events: seq<Event>, w: World, m: Message, i: nat)
    requires Leads(START, events, w) && m in w.tabs && i < |w.tabs[m]|
    ensures var b := w.tabs[m][i];
            b in w.buffers.live && Entry(m, i) in Holders(BufferRefs(w), b)
            && w.buffers.live[b] == |Holders(BufferRefs(w), b)|
  {
    hide Valid, PipesValid, BufferRefs, MessagesValid;
    StartValid();
    LeadsValid(START, events, w);
    PipesPart(w);
    BufferRefsAt(w, Entry(m, i));
  }

  /** When the last pointer to a pipe goes, all messages still in its queue are freed with it, and no other. */
  lemma LastPointerFreesQueue(events: seq<Event>, w: World, v: World, h: PipeHolder, p: Pipe)
    requires Leads(START, events, w) && Pointer(w, h) == Some(p)
    requires SameBut(w, v) && Shapes(v) && Pointer(v, h) == None && OnlyAt(w, v, h)
    ensures var u := FreePipe(v, Some(p));
      p in w.queues && (p in u.pipes.live <==> exists k: PipeHolder :: k != h && Pointer(w, k) == Some(p))
      && forall m: Message :: m in u.tabs <==> m in w.tabs && (p in u.pipes.live || m !in w.queues[p])
  {
    hide Counted, Pointer, PipeRefs, BuffersValid, MessagesValid, Shapes, OnlyAt, FreePipe;
    StartValid();
    LeadsValid(START, events, w);
    RefsAt(w, h);
    RefsSet(w, v, h);
    SameMessages(w, v);
    DroppedCounted(w.pipes, PipeRefs(w), h);
    PipeFreed(v, p);
    LivePipe(w, h);
    if k: PipeHolder :| k != h && Pointer(w, k) == Some(p) { RefsAt(w, k); }
    if p in Dropped(w.pipes, p).live {
      var k :| k in PipeRefs(w) && k != h && PipeRefs(w)[k] == p;
      RefsAt(w, k);
      assert Pointer(w, k) == Some(p);
    }
  }

  /** When every constructor call is over, every thread has freed its handlers and every worker object is finalized, no
      pipe is left; and when no message is being handled, no message either, and a buffer lives on only in scripts. */
  lemma NothingLeaks(events: seq<Event>, w: World)
    requires Leads(START, events, w) && w.calls == map[] && w.threads == map[] && w.workers == map[]
    ensures w.pipes.live == map[] && w.queues == map[]
    ensures w.handling == {} ==> w.tabs == map[]
    ensures w.handling == {} ==> forall b :: b in w.buffers.live ==> exists j :: j in w.scripts && w.scripts[j] == b
  {
    hide Valid;
    StartValid();
    LeadsValid(START, events, w);
    PipesPart(w);
    NoPipeLeft(w);
    if w.handling == {} { NoMessageLeft(w); }
  }

  lemma NoPipeLeft(w: World)
    requires PipesValid(w) && w.calls == map[] && w.threads == map[] && w.workers == map[]
    ensures w.pipes.live == map[] && w.queues == map[]
  {
    assert PipeRefs(w) == map[];
    forall p: Pipe ensures Holders(PipeRefs(w), p) == {} { }
    assert w.queues.Keys == {};
  }

  lemma NoMessageLeft(w: World)
    requires BuffersValid(w) && MessagesValid(w) && w.queues == map[] && w.handling == {}
    ensures w.tabs == map[]
    ensures forall b :: b in w.buffers.live ==> exists j :: j in w.scripts && w.scripts[j] == b
  {
    hide BufferRefs;
    assert forall m: Message :: m !in w.tabs;
    assert w.tabs.Keys == {};
    forall b | b in w.buffers.live ensures exists j :: j in w.scripts && w.scripts[j] == b {
      assert Holders(BufferRefs(w), b) != {};
      var h :| h in Holders(BufferRefs(w), b);
      BufferRefsAt(w, h);
      match h
      case ScriptObject(j) =>
      case Entry(m, i) => assert false;
    }
  }
}
