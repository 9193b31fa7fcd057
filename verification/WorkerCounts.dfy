/** In every interleaving of the statements of WorkerRefs each reference count of quickjs-libc.c is the number of
    pointers to its object, and no statement ever touches an object that is not live. */
module WorkerCounts {
  import opened RefCounts
  import opened WorkerRefs

  // ---------------------------------------------------------------------
  // The invariant
  // ---------------------------------------------------------------------

  /** Which pointers a constructor call holds at each of its statements. */
  predicate CallOk(c: Call) {
    var bothArgs := c.recv.Some? && c.send.Some?;
    var noObject := c.objectRecv.None? && c.objectSend.None?;
    match c.pc
    case AtRecv => c.recv.None? && c.send.None? && noObject
    case AtSend => c.recv.Some? && c.send.None? && noObject
    case AtObject => bothArgs && noObject
    case AtObjectRecv => bothArgs && noObject
    case AtObjectSend => bothArgs && c.objectRecv.Some? && c.objectSend.None?
    case AtThread => bothArgs && c.objectRecv.Some? && c.objectSend.Some?
    case Handed => bothArgs && noObject
    case FailAtRecv => true
    case FailAtSend => c.recv.None?
    case FailAtObjectRecv => c.recv.None? && c.send.None?
    case FailAtObjectSend => c.recv.None? && c.send.None? && c.objectRecv.None?
  }

  predicate ThreadOk(s: ThreadState) {
    var bothPipes := s.recv.Some? && s.send.Some?;
    match s.pc
    case Running => s.objectRecv.None? && s.objectSend.None?
    case AtParentRecv => bothPipes && s.objectRecv.None? && s.objectSend.None?
    case AtParentSend => bothPipes && s.objectRecv.Some? && s.objectSend.None?
    case AtParent => bothPipes && s.objectRecv.Some? && s.objectSend.Some?
    case AtExitSend => s.recv.None? && s.objectRecv.None? && s.objectSend.None?
  }

  predicate WorkerOk(d: WorkerData) {
    match d.pc
    case Ready => d.recv.Some? && d.send.Some?
    case AtFinalizeSend => d.recv.None? && d.send.Some?
    case AtFinalizePort => d.recv.None? && d.send.None?
  }

  ghost predicate Shapes(w: World) {
    && (forall t :: t in w.calls ==> t !in w.threads && CallOk(w.calls[t]))
    && (forall t :: t in w.threads ==> ThreadOk(w.threads[t]))
    && (forall x :: x in w.workers ==> WorkerOk(w.workers[x]))
  }

  ghost predicate PipesValid(w: World) {
    Counted(w.pipes, PipeRefs(w)) && w.queues.Keys == w.pipes.live.Keys
  }

  ghost predicate BuffersValid(w: World) {
    Counted(w.buffers, BufferRefs(w))
  }

  /** Messages: each existing one is in one place of one queue, or being handled. */
  ghost predicate MessagesValid(w: World) {
    && (forall m: Message :: m in w.handling ==> m in w.tabs)
    && (forall p: Pipe, i: nat :: p in w.queues && i < |w.queues[p]| ==> w.queues[p][i] in w.tabs && w.queues[p][i] !in w.handling)
    && (forall p: Pipe, i: nat, q: Pipe, j: nat ::
          p in w.queues && q in w.queues && i < |w.queues[p]| && j < |w.queues[q]| && w.queues[p][i] == w.queues[q][j]
          ==> p == q && i == j)
    && (forall m: Message :: m in w.tabs && m !in w.handling ==> exists p: Pipe :: p in w.queues && m in w.queues[p])
  }

  ghost predicate Valid(w: World) {
    Shapes(w) && PipesValid(w) && BuffersValid(w) && MessagesValid(w)
  }

  lemma StartValid()
    ensures Valid(START)
  {
    assert PipeRefs(START) == map[];
    assert BufferRefs(START) == map[];
  }

  // ---------------------------------------------------------------------
  // Computed pointers
  // ---------------------------------------------------------------------

  lemma RefsAt(w: World, h: PipeHolder)
    ensures h in PipeRefs(w) <==> Pointer(w, h).Some?
    ensures h in PipeRefs(w) ==> PipeRefs(w)[h] == Pointer(w, h).value
  {
  }

  lemma SameRefs(w: World, v: World)
    requires forall k: PipeHolder :: Pointer(v, k) == Pointer(w, k)
    ensures PipeRefs(v) == PipeRefs(w)
  {
    hide Pointer, PipeRefs;
    forall k: PipeHolder ensures k in PipeRefs(v) <==> k in PipeRefs(w) { RefsAt(v, k); RefsAt(w, k); }
    forall k | k in PipeRefs(w) ensures PipeRefs(v)[k] == PipeRefs(w)[k] { RefsAt(v, k); RefsAt(w, k); }
  }

  /** One pointer is set or forgotten, and no other changes. */
  ghost predicate OnlyAt(w: World, v: World, h: PipeHolder) {
    forall k: PipeHolder :: k != h ==> Pointer(v, k) == Pointer(w, k)
  }

  lemma RefsSet(w: World, v: World, h: PipeHolder)
    requires OnlyAt(w, v, h)
    ensures PipeRefs(v) == if Pointer(v, h).Some? then PipeRefs(w)[h := Pointer(v, h).value] else PipeRefs(w) - {h}
  {
    hide Pointer, PipeRefs;
    var after := if Pointer(v, h).Some? then PipeRefs(w)[h := Pointer(v, h).value] else PipeRefs(w) - {h};
    forall k: PipeHolder ensures k in PipeRefs(v) <==> k in after { RefsAt(v, k); RefsAt(w, k); }
    forall k | k in after ensures PipeRefs(v)[k] == after[k] { RefsAt(v, k); RefsAt(w, k); }
  }

  /** Only the records differ. */
  predicate SameBut(w: World, v: World) {
    v == w.(calls := v.calls, threads := v.threads, workers := v.workers)
  }

  lemma SameMessages(w: World, v: World)
    requires v == w.(calls := v.calls, threads := v.threads, workers := v.workers, pipes := v.pipes)
    ensures MessagesValid(w) ==> MessagesValid(v)
    ensures BuffersValid(w) ==> BuffersValid(v)
  {
    hide Counted;
    assert forall h: BufferHolder :: BufferPointer(v, h) == BufferPointer(w, h);
    assert BufferRefs(v) == BufferRefs(w);
  }

  // --- the four ways in which a statement changes pointers

  lemma Untouched(w: World, v: World)
    requires Valid(w) && SameBut(w, v) && Shapes(v)
    requires forall k: PipeHolder :: Pointer(v, k) == Pointer(w, k)
    ensures Valid(v)
  {
    hide Counted, Pointer, PipeRefs, BuffersValid, MessagesValid, Shapes;
    SameRefs(w, v);
    SameMessages(w, v);
  }

  lemma Allocated(w: World, v: World, h: PipeHolder, p: Pipe)
    requires Valid(w) && SameBut(w, v) && Shapes(v) && p !in w.pipes.live
    requires Pointer(w, h) == None && Pointer(v, h) == Some(p) && OnlyAt(w, v, h)
    ensures Valid(NewPipe(v, p))
  {
    hide Counted, Pointer, PipeRefs, BuffersValid, MessagesValid, Shapes, OnlyAt;
    RefsSet(w, v, h);
    RefsAt(w, h);
    CreatedCounted(w.pipes, PipeRefs(w), h, p);
    var u := NewPipe(v, p);
    SamePointers(v, u);
    SameMessages(w, v);
    NewQueue(v, p);
  }

  lemma SamePointers(v: World, u: World)
    requires u.calls == v.calls && u.threads == v.threads && u.workers == v.workers
    ensures PipeRefs(u) == PipeRefs(v)
    ensures Shapes(v) ==> Shapes(u)
  {
    assert forall k: PipeHolder :: Pointer(u, k) == Pointer(v, k);
    SameRefs(v, u);
  }

  lemma SameBuffers(v: World, u: World)
    requires u.scripts == v.scripts && u.tabs == v.tabs
    ensures BufferRefs(u) == BufferRefs(v)
  {
    assert forall h: BufferHolder :: BufferPointer(u, h) == BufferPointer(v, h);
  }

  lemma NewQueue(w: World, p: Pipe)
    requires MessagesValid(w) && p !in w.queues
    ensures MessagesValid(NewPipe(w, p))
    ensures BuffersValid(w) ==> BuffersValid(NewPipe(w, p))
  {
    hide Counted, BufferRefs;
    var u := NewPipe(w, p);
    SameBuffers(w, u);
    forall n: Message | n in u.tabs && n !in u.handling ensures exists q: Pipe :: q in u.queues && n in u.queues[q] {
      var q: Pipe :| q in w.queues && n in w.queues[q];
      assert q in u.queues && n in u.queues[q];
    }
  }

  lemma Copied(w: World, v: World, h: PipeHolder, g: PipeHolder)
    requires Valid(w) && SameBut(w, v) && Shapes(v)
    requires Pointer(w, g).Some? && Pointer(w, h) == None && Pointer(v, h) == Pointer(w, g) && OnlyAt(w, v, h)
    ensures Valid(DupPipe(v, Pointer(w, g)))
  {
    hide Counted, Pointer, PipeRefs, BuffersValid, MessagesValid, Shapes, OnlyAt;
    var p := Pointer(w, g).value;
    RefsSet(w, v, h);
    RefsAt(w, h);
    RefsAt(w, g);
    Refers(w.pipes, PipeRefs(w), g);
    DuppedCounted(w.pipes, PipeRefs(w), h, p);
    var u := DupPipe(v, Some(p));
    SamePointers(v, u);
    SameMessages(w, u);
    assert u.pipes.live.Keys == w.pipes.live.Keys;
  }

  lemma Refers<H(!new), T(!new)>(c: Counts<T>, refs: map<H, T>, h: H)
    requires Counted(c, refs) && h in refs
    ensures refs[h] in c.live
  {
  }

  /** A pointer that is forgotten with its count taken down; a null pointer costs nothing. */
  lemma Freed(w: World, v: World, h: PipeHolder)
    requires Valid(w) && SameBut(w, v) && Shapes(v) && Pointer(v, h) == None && OnlyAt(w, v, h)
    ensures Valid(FreePipe(v, Pointer(w, h)))
  {
    hide Counted, Pointer, PipeRefs, BuffersValid, MessagesValid, Shapes, OnlyAt, FreeMessages;
    RefsSet(w, v, h);
    RefsAt(w, h);
    SameMessages(w, v);
    var q := Pointer(w, h);
    if q.None? {
      assert PipeRefs(w) - {h} == PipeRefs(w);
    } else {
      DroppedCounted(w.pipes, PipeRefs(w), h);
      PipeFreed(v, q.value);
    }
  }

  lemma PipeFreed(v: World, p: Pipe)
    requires Shapes(v) && MessagesValid(v) && BuffersValid(v) && v.queues.Keys == v.pipes.live.Keys && p in v.pipes.live
    requires Counted(Dropped(v.pipes, p), PipeRefs(v))
    ensures Valid(FreePipe(v, Some(p)))
    ensures var u := FreePipe(v, Some(p));
      u.calls == v.calls && u.threads == v.threads && u.workers == v.workers && u.pipes == Dropped(v.pipes, p)
      && forall m: Message :: m in u.tabs <==> m in v.tabs && (p in u.pipes.live || m !in v.queues[p])
  {
    hide Counted, PipeRefs, BuffersValid, MessagesValid, Shapes, FreeMessages;
    var u := v.(pipes := Dropped(v.pipes, p));
    SamePointers(v, u);
    SameMessages(v, u);
    if p in u.pipes.live {
      assert u.pipes.live.Keys == v.pipes.live.Keys;
    } else {
      assert u.pipes.live.Keys == v.pipes.live.Keys - {p};
      QueueDistinct(u, p);
      DetachedMessages(u, p);
      var d := Detached(u, p);
      FreeMessagesValid(d, u.queues[p]);
      var r := FreeMessages(d, u.queues[p]);
      SamePointers(u, r);
    }
  }

  lemma QueueDistinct(w: World, p: Pipe)
    requires MessagesValid(w) && p in w.queues
    ensures forall i, j :: 0 <= i < j < |w.queues[p]| ==> w.queues[p][i] != w.queues[p][j]
  {
  }

  lemma OtherQueue(w: World, p: Pipe, q: Pipe, i: nat)
    requires MessagesValid(w) && p in w.queues && q in w.queues && q != p && i < |w.queues[q]|
    ensures w.queues[q][i] !in w.queues[p]
  {
  }

  lemma DetachedMessages(w: World, p: Pipe)
    requires MessagesValid(w) && p in w.queues
    ensures MessagesValid(Detached(w, p))
    ensures BuffersValid(w) ==> BuffersValid(Detached(w, p))
    ensures forall m: Message :: m in w.queues[p] ==> m in Detached(w, p).handling
  {
    hide Counted;
    var u := Detached(w, p);
    SameBuffers(w, u);
    forall m: Message | m in w.queues[p] ensures m in w.tabs {
      var i: nat :| i < |w.queues[p]| && w.queues[p][i] == m;
    }
    forall q: Pipe, i: nat | q in u.queues && i < |u.queues[q]| ensures u.queues[q][i] in u.tabs && u.queues[q][i] !in u.handling {
      OtherQueue(w, p, q, i);
    }
    forall m: Message | m in u.tabs && m !in u.handling ensures exists q: Pipe :: q in u.queues && m in u.queues[q] {
      var q: Pipe :| q in w.queues && m in w.queues[q];
      assert q != p;
      assert q in u.queues && m in u.queues[q];
    }
  }

  // ---------------------------------------------------------------------
  // Messages and their buffers
  // ---------------------------------------------------------------------

  /** The references without those of message m's entries from i on. */
  ghost function Without(refs: map<BufferHolder, Buffer>, m: Message, i: nat): map<BufferHolder, Buffer> {
    map h | h in refs && !(h.Entry? && h.m == m && h.i >= i) :: refs[h]
  }

  ghost predicate EntriesAre(refs: map<BufferHolder, Buffer>, m: Message, bs: seq<Buffer>) {
    && (forall i: nat :: Entry(m, i) in refs <==> i < |bs|)
    && (forall i: nat :: i < |bs| ==> refs[Entry(m, i)] == bs[i])
  }

  ghost predicate EntriesFrom(refs: map<BufferHolder, Buffer>, m: Message, bs: seq<Buffer>, k: nat) {
    && (forall i: nat :: Entry(m, i) in refs <==> k <= i < |bs|)
    && (forall i: nat :: k <= i < |bs| ==> refs[Entry(m, i)] == bs[i])
  }

  lemma {:induction false} DropEntriesCounted(c: Counts<Buffer>, refs: map<BufferHolder, Buffer>, m: Message, bs: seq<Buffer>, k: nat)
    requires k <= |bs| && Counted(c, refs) && EntriesFrom(refs, m, bs, k)
    ensures Counted(DropEntries(c, bs, k), Without(refs, m, 0))
    decreases |bs| - k
  {
    hide Counted, Dropped;
    if k == |bs| {
      assert Without(refs, m, 0) == refs;
    } else {
      DroppedCounted(c, refs, Entry(m, k));
      DropEntriesCounted(Dropped(c, bs[k]), refs - {Entry(m, k)}, m, bs, k + 1);
      assert Without(refs - {Entry(m, k)}, m, 0) == Without(refs, m, 0);
    }
  }

  lemma BufferRefsAt(w: World, h: BufferHolder)
    ensures h in BufferRefs(w) <==> BufferPointer(w, h).Some?
    ensures h in BufferRefs(w) ==> BufferRefs(w)[h] == BufferPointer(w, h).value
  {
  }

  lemma EntriesOf(w: World, m: Message)
    requires m in w.tabs
    ensures EntriesFrom(BufferRefs(w), m, w.tabs[m], 0)
    ensures BufferRefs(w.(tabs := w.tabs - {m})) == Without(BufferRefs(w), m, 0)
  {
    hide BufferRefs;
    var u := w.(tabs := w.tabs - {m});
    forall i: nat ensures Entry(m, i) in BufferRefs(w) <==> i < |w.tabs[m]| { BufferRefsAt(w, Entry(m, i)); }
    forall i: nat | i < |w.tabs[m]| ensures BufferRefs(w)[Entry(m, i)] == w.tabs[m][i] { BufferRefsAt(w, Entry(m, i)); }
    forall h: BufferHolder ensures h in BufferRefs(u) <==> h in Without(BufferRefs(w), m, 0) { BufferRefsAt(w, h); BufferRefsAt(u, h); }
    forall h | h in BufferRefs(u) ensures BufferRefs(u)[h] == Without(BufferRefs(w), m, 0)[h] { BufferRefsAt(w, h); BufferRefsAt(u, h); }
  }

  lemma FreeMessageValid(w: World, m: Message)
    requires BuffersValid(w) && MessagesValid(w) && m in w.handling
    ensures m in w.tabs && BuffersValid(FreeMessage(w, m)) && MessagesValid(FreeMessage(w, m))
  {
    hide Counted, DropEntries, Without, BufferRefs, EntriesFrom;
    EntriesOf(w, m);
    DropEntriesCounted(w.buffers, BufferRefs(w), m, w.tabs[m], 0);
    SameBuffers(w.(tabs := w.tabs - {m}), FreeMessage(w, m));
  }

  /** Freeing distinct messages one after the other. */
  lemma {:induction false} FreeMessagesValid(w: World, ms: seq<Message>)
    requires BuffersValid(w) && MessagesValid(w)
    requires forall i :: 0 <= i < |ms| ==> ms[i] in w.handling
    requires forall i, j :: 0 <= i < j < |ms| ==> ms[i] != ms[j]
    ensures var u := FreeMessages(w, ms);
            BuffersValid(u) && MessagesValid(u) && u.pipes == w.pipes && u.queues == w.queues
            && u.calls == w.calls && u.threads == w.threads && u.workers == w.workers
            && (forall m: Message :: m in u.tabs <==> m in w.tabs && m !in ms)
    decreases |ms|
  {
    hide DropEntries, BuffersValid, MessagesValid;
    if ms != [] {
      var u := FreeMessage(w, ms[0]);
      FreeMessageValid(w, ms[0]);
      assert ms == [ms[0]] + ms[1..];
      forall i | 0 <= i < |ms[1..]| ensures ms[1..][i] in u.handling { assert ms[1..][i] == ms[i + 1]; }
      FreeMessagesValid(u, ms[1..]);
    }
  }

  // --- posting

  /** The references with message m's first k entries. */
  ghost function With(refs: map<BufferHolder, Buffer>, m: Message, bs: seq<Buffer>, k: nat): map<BufferHolder, Buffer>
    requires k <= |bs|
    decreases |bs| - k
  {
    if k == |bs| then refs else With(refs[Entry(m, k) := bs[k]], m, bs, k + 1)
  }

  lemma {:induction false} WithAt(refs: map<BufferHolder, Buffer>, m: Message, bs: seq<Buffer>, k: nat, h: BufferHolder)
    requires k <= |bs|
    ensures h in With(refs, m, bs, k) <==> h in refs || (h.Entry? && h.m == m && k <= h.i < |bs|)
    ensures h in With(refs, m, bs, k) ==>
      With(refs, m, bs, k)[h] == if h.Entry? && h.m == m && k <= h.i < |bs| then bs[h.i] else refs[h]
    decreases |bs| - k
  {
    if k < |bs| { WithAt(refs[Entry(m, k) := bs[k]], m, bs, k + 1, h); }
  }

  lemma {:induction false} DupEntriesCounted(c: Counts<Buffer>, refs: map<BufferHolder, Buffer>, m: Message, bs: seq<Buffer>, k: nat)
    requires k <= |bs| && Counted(c, refs)
    requires forall i: nat :: k <= i ==> Entry(m, i) !in refs
    requires forall i :: 0 <= i < |bs| ==> bs[i] in c.live
    ensures Counted(DupEntries(c, bs, k), With(refs, m, bs, k))
    decreases |bs| - k
  {
    hide Counted;
    if k < |bs| {
      DuppedCounted(c, refs, Entry(m, k), bs[k]);
      DupEntriesCounted(Dupped(c, bs[k]), refs[Entry(m, k) := bs[k]], m, bs, k + 1);
    }
  }

  lemma PostedRefs(w: World, m: Message, bs: seq<Buffer>)
    requires m !in w.tabs
    ensures BufferRefs(w.(tabs := w.tabs[m := bs])) == With(BufferRefs(w), m, bs, 0)
    ensures forall i: nat :: Entry(m, i) !in BufferRefs(w)
  {
    hide BufferRefs, With;
    var u := w.(tabs := w.tabs[m := bs]);
    forall i: nat ensures Entry(m, i) !in BufferRefs(w) { BufferRefsAt(w, Entry(m, i)); }
    forall h: BufferHolder ensures h in BufferRefs(u) <==> h in With(BufferRefs(w), m, bs, 0) {
      BufferRefsAt(w, h); BufferRefsAt(u, h); WithAt(BufferRefs(w), m, bs, 0, h);
    }
    forall h | h in BufferRefs(u) ensures BufferRefs(u)[h] == With(BufferRefs(w), m, bs, 0)[h] {
      BufferRefsAt(w, h); BufferRefsAt(u, h); WithAt(BufferRefs(w), m, bs, 0, h);
    }
  }

  lemma PostedMessages(w: World, m: Message, bs: seq<Buffer>, p: Pipe, u: World)
    requires MessagesValid(w) && m !in w.tabs && p in w.queues
    requires u == w.(buffers := u.buffers, tabs := w.tabs[m := bs], queues := w.queues[p := w.queues[p] + [m]])
    ensures MessagesValid(u)
  {
    forall n: Message | n in u.tabs && n !in u.handling ensures exists q: Pipe :: q in u.queues && n in u.queues[q] {
      if n == m {
        assert u.queues[p][|w.queues[p]|] == m;
      } else {
        var q: Pipe :| q in w.queues && n in w.queues[q];
        assert q in u.queues && n in u.queues[q];
      }
    }
  }

  lemma TakenMessages(w: World, p: Pipe, u: World)
    requires MessagesValid(w) && p in w.queues && w.queues[p] != []
    requires u == w.(queues := w.queues[p := w.queues[p][1..]], handling := w.handling + {w.queues[p][0]})
    ensures MessagesValid(u)
  {
    assert forall i: nat :: i < |u.queues[p]| ==> u.queues[p][i] == w.queues[p][i + 1];
    forall n: Message | n in u.tabs && n !in u.handling ensures exists q: Pipe :: q in u.queues && n in u.queues[q] {
      StillQueued(w, p, u, n);
    }
  }

  lemma StillQueued(w: World, p: Pipe, u: World, n: Message)
    requires MessagesValid(w) && p in w.queues && w.queues[p] != [] && n in w.tabs && n !in w.handling && n != w.queues[p][0]
    requires u.queues == w.queues[p := w.queues[p][1..]]
    ensures exists q: Pipe :: q in u.queues && n in u.queues[q]
  {
    var q: Pipe :| q in w.queues && n in w.queues[q];
    var i :| 0 <= i < |w.queues[q]| && w.queues[q][i] == n;
    if q == p { assert u.queues[p][i - 1] == n; }
    assert n in u.queues[q];
  }
}
