/** The per-run lock registry (internal/kernel/api/server.go:590-616).

    A handle is what one request holds between runLock and the end of Unlock.
    Every atomic section is one method: the registry mutex makes RunLock and
    UnregisterHandle atomic, the entry's own mutex makes LockEntryMutex and
    UnlockEntryMutex atomic. Handles step in any order. */
module LockRegistry {
  import opened Text

  /** Waiting: has its reference, not the mutex. Releasing: gave the mutex back,
      still has its reference. */
  datatype Phase = Waiting | Holding | Releasing

  class LockEntry {
    var references: int
    var holder: Option<nat>

    constructor ()
      ensures references == 0 && holder == None
    {
      references, holder := 0, None;
    }
  }

  datatype Handle = Handle(key: string, entry: LockEntry, phase: Phase)

  /** The fields of an entry. */
  datatype Cell = Cell(references: int, holder: Option<nat>)

  /** A step some thread takes next. */
  datatype Step = Acquire(key: string) | Lock(h: nat) | UnlockMutex(h: nat) | Unregister(h: nat)

  function HandlesOf(handles: map<nat, Handle>, key: string): set<nat> {
    set h <- handles | handles[h].key == key
  }

  /** References count the outstanding handles of a key, and a key has an entry
      exactly while it has some. */
  ghost predicate Counted(cells: map<string, Cell>, handles: map<nat, Handle>) {
    && (forall h <- handles :: handles[h].key in cells)
    && (forall k <- cells :: cells[k].references == |HandlesOf(handles, k)| && cells[k].references > 0)
  }

  /** An entry's mutex is held exactly by its one holding handle. */
  ghost predicate Owned(cells: map<string, Cell>, handles: map<nat, Handle>) {
    && (forall k <- cells :: cells[k].holder.Some? ==>
          var h := cells[k].holder.value;
          h in handles && handles[h].key == k && handles[h].phase.Holding?)
    && (forall h <- handles :: handles[h].key in cells && handles[h].phase.Holding? ==>
          cells[handles[h].key].holder == Some(h))
  }

  ghost predicate Coherent(cells: map<string, Cell>, handles: map<nat, Handle>) {
    Counted(cells, handles) && Owned(cells, handles)
  }

  lemma CountAcquired(cells: map<string, Cell>, handles: map<nat, Handle>, h: nat, handle: Handle, cell: Cell)
    requires Counted(cells, handles) && h !in handles
    requires cell.references == if handle.key in cells then cells[handle.key].references + 1 else 1
    ensures Counted(cells[handle.key := cell], handles[h := handle])
  {
    var after := handles[h := handle];
    assert HandlesOf(after, handle.key) == HandlesOf(handles, handle.key) + {h};
    if handle.key !in cells { assert HandlesOf(handles, handle.key) == {}; }
    forall k | k != handle.key ensures HandlesOf(after, k) == HandlesOf(handles, k) {}
  }

  lemma Acquired(cells: map<string, Cell>, handles: map<nat, Handle>, h: nat, handle: Handle, cell: Cell)
    requires Coherent(cells, handles) && h !in handles && handle.phase.Waiting?
    requires cell == if handle.key in cells
                     then cells[handle.key].(references := cells[handle.key].references + 1) else Cell(1, None)
    ensures Coherent(cells[handle.key := cell], handles[h := handle])
  {
    hide HandlesOf;
    CountAcquired(cells, handles, h, handle, cell);
  }

  lemma Rephased(cells: map<string, Cell>, handles: map<nat, Handle>, h: nat, phase: Phase)
    requires Coherent(cells, handles) && h in handles
    requires phase.Holding? ==> cells[handles[h].key].holder.None?
    requires phase.Releasing? ==> handles[h].phase.Holding?
    requires !phase.Waiting?
    ensures var key := handles[h].key;
            var holder := if phase.Holding? then Some(h) else None;
            Coherent(cells[key := cells[key].(holder := holder)], handles[h := handles[h].(phase := phase)])
  {
    forall k ensures HandlesOf(handles[h := handles[h].(phase := phase)], k) == HandlesOf(handles, k) {}
  }

  lemma CountReleased(cells: map<string, Cell>, handles: map<nat, Handle>, h: nat)
    requires Counted(cells, handles) && h in handles
    ensures var key := handles[h].key;
            var left := cells[key].references - 1;
            && (left == 0 <==> HandlesOf(handles - {h}, key) == {})
            && (left == 0 <==> forall g <- handles - {h} :: handles[g].key != key)
            && Counted(if left == 0 then cells - {key} else cells[key := cells[key].(references := left)],
                       handles - {h})
  {
    var key, after := handles[h].key, handles - {h};
    assert HandlesOf(handles, key) == HandlesOf(after, key) + {h};
    forall k | k != key ensures HandlesOf(after, k) == HandlesOf(handles, k) {}
    assert forall g <- after :: g in HandlesOf(after, after[g].key);
    if cells[key].references > 1 {
      var g :| g in HandlesOf(after, key);
      assert handles[g].key == key;
    }
  }

  lemma Released(cells: map<string, Cell>, handles: map<nat, Handle>, h: nat)
    requires Coherent(cells, handles) && h in handles && handles[h].phase.Releasing?
    ensures var key := handles[h].key;
            var left := cells[key].references - 1;
            && (left == 0 <==> HandlesOf(handles - {h}, key) == {})
            && (left == 0 <==> forall g <- handles - {h} :: handles[g].key != key)
            && Coherent(if left == 0 then cells - {key} else cells[key := cells[key].(references := left)],
                        handles - {h})
  {
    hide HandlesOf;
    CountReleased(cells, handles, h);
  }

  class Registry {
    var locks: map<string, LockEntry>
    var handles: map<nat, Handle>
    var next: nat

    ghost function Cells(): map<string, Cell>
      reads this, locks.Values
    {
      map k <- locks :: Cell(locks[k].references, locks[k].holder)
    }

    /** Every handle's entry is the one the map holds under its key. */
    ghost predicate Registered()
      reads this
    {
      && (forall h <- handles :: h < next && handles[h].key in locks && locks[handles[h].key] == handles[h].entry)
      && (forall k, l :: k in locks && l in locks && k != l ==> locks[k] != locks[l])
    }

    ghost predicate Valid()
      reads this, locks.Values
    {
      Registered() && Coherent(Cells(), handles)
    }

    constructor ()
      ensures Valid() && handles == map[] && locks == map[]
    {
      locks, handles, next := map[], map[], 0;
    }

    /** The entry runLock finds or installs. */
    method EntryFor(key: string) returns (entry: LockEntry)
      requires Registered()
      modifies this`locks
      ensures Registered() && key in locks && locks[key] == entry
      ensures key in old(locks) ==> entry == old(locks)[key] && locks == old(locks)
      ensures key !in old(locks) ==> fresh(entry) && locks == old(locks)[key := entry]
                                     && entry.references == 0 && entry.holder == None
    {
      if key in locks { return locks[key]; }
      entry := new LockEntry();
      locks := locks[key := entry];
    }

    /** runLock */
    method RunLock(key: string) returns (h: nat)
      requires Valid()
      modifies this, locks.Values
      ensures Valid() && h !in old(handles)
      ensures h in handles && handles == old(handles)[h := Handle(key, handles[h].entry, Waiting)]
      ensures key in old(locks) ==> handles[h].entry == old(locks)[key] && locks == old(locks)
      ensures key !in old(locks) ==> fresh(handles[h].entry) && locks == old(locks)[key := handles[h].entry]
    {
      hide Coherent;
      ghost var cells := Cells();
      var entry := EntryFor(key);
      entry.references := entry.references + 1;
      h := next;
      Acquired(cells, handles, h, Handle(key, entry, Waiting), Cell(entry.references, entry.holder));
      handles := handles[h := Handle(key, entry, Waiting)];
      next := next + 1;
      assert Cells() == cells[key := Cell(entry.references, entry.holder)];
    }

    /** resourceLock.Lock: possible only while the entry's mutex is free. */
    method LockEntryMutex(h: nat)
      requires Valid() && h in handles && handles[h].phase.Waiting? && handles[h].entry.holder.None?
      modifies this, handles[h].entry
      ensures Valid() && locks == old(locks)
      ensures handles == old(handles)[h := old(handles)[h].(phase := Holding)]
    {
      hide Coherent;
      ghost var cells, key := Cells(), handles[h].key;
      Rephased(cells, handles, h, Holding);
      handles[h].entry.holder := Some(h);
      handles := handles[h := handles[h].(phase := Holding)];
      assert Cells() == cells[key := Cell(cells[key].references, Some(h))];
    }

    /** The first half of resourceLock.Unlock. */
    method UnlockEntryMutex(h: nat)
      requires Valid() && h in handles && handles[h].phase.Holding?
      modifies this, handles[h].entry
      ensures Valid() && locks == old(locks)
      ensures handles == old(handles)[h := old(handles)[h].(phase := Releasing)]
    {
      hide Coherent;
      ghost var cells, key := Cells(), handles[h].key;
      Rephased(cells, handles, h, Releasing);
      handles[h].entry.holder := None;
      handles := handles[h := handles[h].(phase := Releasing)];
      assert Cells() == cells[key := Cell(cells[key].references, None)];
    }

    /** The second half, under the registry mutex. The identity test never fails,
        so the key leaves the map exactly with its last reference. */
    method UnregisterHandle(h: nat) returns (identical: bool)
      requires Valid() && h in handles && handles[h].phase.Releasing?
      modifies this, handles[h].entry
      ensures Valid() && identical
      ensures handles == old(handles) - {h}
      ensures var key := old(handles)[h].key;
              locks == if HandlesOf(handles, key) == {} then old(locks) - {key} else old(locks)
    {
      hide Coherent, HandlesOf;
      var key, entry := handles[h].key, handles[h].entry;
      ghost var cells := Cells();
      Released(cells, handles, h);
      entry.references := entry.references - 1;
      identical := key in locks && locks[key] == entry;
      assert identical;
      handles := handles - {h};
      if entry.references == 0 && identical {
        locks := locks - {key};
        assert Cells() == cells - {key};
      } else {
        assert Cells() == cells[key := cells[key].(references := entry.references)];
      }
    }

    /** Every interleaving: whatever order the enabled steps come in, the
        registry stays consistent. */
    method RunSchedule(schedule: seq<Step>)
      requires Valid()
      modifies this, locks.Values
      ensures Valid()
    {
      for i := 0 to |schedule|
        invariant Valid()
        invariant fresh(locks.Values - old(locks.Values))
      {
        match schedule[i] {
          case Acquire(key) => var _ := RunLock(key);
          case Lock(h) =>
            if h in handles && handles[h].phase.Waiting? && handles[h].entry.holder.None? {
              LockEntryMutex(h);
            }
          case UnlockMutex(h) =>
            if h in handles && handles[h].phase.Holding? { UnlockEntryMutex(h); }
          case Unregister(h) =>
            if h in handles && handles[h].phase.Releasing? { var _ := UnregisterHandle(h); }
        }
      }
    }

    /** What consistency gives: one entry per key, at most one holder per key,
        reference counts, and an empty map once every handle is gone. */
    lemma Consistent()
      requires Valid()
      ensures forall g, h | g in handles && h in handles && handles[g].key == handles[h].key ::
                && handles[g].entry == handles[h].entry
                && (handles[g].phase.Holding? && handles[h].phase.Holding? ==> g == h)
      ensures forall k :: k in locks <==> exists h :: h in handles && handles[h].key == k
      ensures forall k <- locks :: locks[k].references == |HandlesOf(handles, k)|
      ensures handles == map[] ==> locks == map[]
    {
      assert forall k <- locks :: k in Cells() && Cells()[k] == Cell(locks[k].references, locks[k].holder);
      forall k | k in locks ensures exists h :: h in handles && handles[h].key == k {
        var h :| h in HandlesOf(handles, k);
        assert handles[h].key == k;
      }
    }

    /** A waiting handle can take its mutex or is behind a handle that can give
        it back: no step order can wedge a key. */
    lemma NeverStuck(h: nat)
      requires Valid() && h in handles && handles[h].phase.Waiting?
      ensures handles[h].entry.holder.None? ||
              exists g <- handles :: handles[g].key == handles[h].key && handles[g].phase.Holding?
    {
      if handles[h].entry.holder.Some? {
        assert Cells()[handles[h].key].holder == handles[h].entry.holder;
      }
    }
  }
}
