/** Reference counting as quickjs-libc.c does it, once for every kind of object: an object's count goes up
    when a reference is taken and down when one is dropped, and the object is freed when it reaches zero. */
module RefCounts {

  /** The counts of the live objects, and whether any that was not live has been touched. */
  datatype Counts<T> = Counts(live: map<T, nat>, fault: bool)

  /** A new object with its first reference. */
  function Created<T>(c: Counts<T>, t: T): Counts<T> {
    Counts(c.live[t := 1], c.fault)
  }

  /** `atomic_add_int(&ref_count, 1)`. */
  function Dupped<T>(c: Counts<T>, t: T): Counts<T> {
    if t in c.live then Counts(c.live[t := c.live[t] + 1], c.fault) else Counts(c.live, true)
  }

  /** `atomic_add_int(&ref_count, -1)`, and the freeing at zero. */
  function Dropped<T>(c: Counts<T>, t: T): Counts<T> {
    if t !in c.live then Counts(c.live, true)
    else if c.live[t] <= 1 then Counts(c.live - {t}, c.fault)
    else Counts(c.live[t := c.live[t] - 1], c.fault)
  }

  ghost function Holders<H, T>(refs: map<H, T>, t: T): set<H> {
    set h | h in refs && refs[h] == t
  }

  /** Each count is the number of pointers to the object, nothing without a pointer is live, every pointer points to a
      live object, and nothing else was ever touched. */
  ghost predicate Counted<H(!new), T(!new)>(c: Counts<T>, refs: map<H, T>) {
    && !c.fault
    && (forall h :: h in refs ==> refs[h] in c.live)
    && (forall t :: t in c.live ==> c.live[t] > 0 && c.live[t] == |Holders(refs, t)|)
  }

  lemma HoldersAdd<H, T>(refs: map<H, T>, h: H, t: T, u: T)
    requires h !in refs
    ensures Holders(refs[h := t], u) == if u == t then Holders(refs, u) + {h} else Holders(refs, u)
  {
  }

  lemma HoldersRemove<H, T>(refs: map<H, T>, h: H, u: T)
    requires h in refs
    ensures Holders(refs - {h}, u) == if u == refs[h] then Holders(refs, u) - {h} else Holders(refs, u)
    ensures h in Holders(refs, refs[h])
  {
  }

  lemma CreatedCounted<H(!new), T(!new)>(c: Counts<T>, refs: map<H, T>, h: H, t: T)
    requires Counted(c, refs) && h !in refs && t !in c.live
    ensures Counted(Created(c, t), refs[h := t])
  {
    forall u | u in Created(c, t).live ensures Created(c, t).live[u] == |Holders(refs[h := t], u)| {
      HoldersAdd(refs, h, t, u);
      if u == t { assert Holders(refs, t) == {}; }
    }
  }

  lemma DuppedCounted<H(!new), T(!new)>(c: Counts<T>, refs: map<H, T>, h: H, t: T)
    requires Counted(c, refs) && h !in refs && t in c.live
    ensures Counted(Dupped(c, t), refs[h := t])
  {
    forall u | u in c.live ensures Dupped(c, t).live[u] == |Holders(refs[h := t], u)| {
      HoldersAdd(refs, h, t, u);
    }
  }

  /** Dropping a pointer frees the object exactly when no other points to it. */
  lemma DroppedCounted<H(!new), T(!new)>(c: Counts<T>, refs: map<H, T>, h: H)
    requires Counted(c, refs) && h in refs
    ensures refs[h] in c.live && Counted(Dropped(c, refs[h]), refs - {h})
    ensures refs[h] in Dropped(c, refs[h]).live <==> exists k :: k in refs && k != h && refs[k] == refs[h]
  {
    var t := refs[h];
    var after := Dropped(c, t);
    HoldersRemove(refs, h, t);
    forall u | u in after.live ensures after.live[u] > 0 && after.live[u] == |Holders(refs - {h}, u)| {
      HoldersRemove(refs, h, u);
    }
    if c.live[t] <= 1 {
      OnlyHolder(Holders(refs, t), h);
      assert forall k :: k in refs && refs[k] == t ==> k in Holders(refs, t);
    } else {
      OtherHolder(Holders(refs, t), h);
      var k :| k in Holders(refs, t) && k != h;
    }
  }

  /** A pointer that is copied to another place and forgotten in the first needs no counting. */
  lemma MovedCounted<H(!new), T(!new)>(c: Counts<T>, refs: map<H, T>, h: H, k: H)
    requires Counted(c, refs) && h in refs && k !in refs
    ensures Counted(c, (refs - {h})[k := refs[h]])
  {
    var after := (refs - {h})[k := refs[h]];
    forall u | u in c.live ensures c.live[u] == |Holders(after, u)| {
      HoldersRemove(refs, h, u);
      HoldersAdd(refs - {h}, k, refs[h], u);
    }
  }

  lemma OnlyHolder<H>(s: set<H>, h: H)
    requires h in s && |s| <= 1
    ensures s == {h}
  {
    assert |s - {h}| == |s| - 1;
    assert s - {h} == {};
  }

  lemma OtherHolder<H>(s: set<H>, h: H)
    requires h in s && |s| > 1
    ensures exists k :: k in s && k != h
  {
    assert |s - {h}| == |s| - 1;
    var k :| k in s - {h};
  }
}
