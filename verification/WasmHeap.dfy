/** The worker's object heap: a slab whose free slots are chained through the same array. */
module WasmHeap {
  /** The JavaScript values a slot can hold. */
  datatype Value = Undefined | Null | Boolean(b: bool) | Number(n: nat) | Object(id: nat)

  const RESERVED_SIZE := 128
  const FIRST_FREE := 132

  datatype Slab = Slab(heap: seq<Value>, next: nat)

  function Holes(n: nat): (vs: seq<Value>)
    ensures |vs| == n
    ensures forall i :: 0 <= i < n ==> vs[i] == Undefined
  {
    if n == 0 then [] else Holes(n - 1) + [Undefined]
  }

  function Initial(): Slab {
    Slab(Holes(RESERVED_SIZE) + [Undefined, Null, Boolean(true), Boolean(false)], FIRST_FREE)
  }

  /** Reading past the end gives `undefined`. */
  function Read(heap: seq<Value>, i: nat): Value {
    if i < |heap| then heap[i] else Undefined
  }

  /** Writing past the end extends the array with holes. */
  function Write(heap: seq<Value>, i: nat, v: Value): seq<Value> {
    if i < |heap| then heap[i := v] else heap + Holes(i - |heap|) + [v]
  }

  function Grown(s: Slab): seq<Value> {
    if s.next == |s.heap| then s.heap + [Number(|s.heap| + 1)] else s.heap
  }

  function Added(s: Slab, obj: Value): Slab
    requires Read(Grown(s), s.next).Number?
  {
    Slab(Grown(s)[s.next := obj], Read(Grown(s), s.next).n)
  }

  function Dropped(s: Slab, idx: nat): Slab {
    if idx < FIRST_FREE then s else Slab(Write(s.heap, idx, Number(s.next)), idx)
  }

  // ---------------------------------------------------------------- the free chain

  /** Following links from `start` visits exactly `chain` and arrives at the array's length. */
  ghost predicate IsChain(heap: seq<Value>, start: nat, chain: seq<nat>)
    decreases |chain|
  {
    if chain == [] then start == |heap|
    else start == chain[0] < |heap| && heap[start].Number? && IsChain(heap, heap[start].n, chain[1..])
  }

  /** Following links from `start` visits `path` and arrives at `goal`. */
  ghost predicate Leads(heap: seq<Value>, start: nat, path: seq<nat>, goal: nat)
    decreases |path|
  {
    if path == [] then start == goal
    else start == path[0] < |heap| && heap[start].Number? && Leads(heap, heap[start].n, path[1..], goal)
  }

  lemma {:induction false} ChainIsUnique(heap: seq<Value>, start: nat, a: seq<nat>, b: seq<nat>)
    requires IsChain(heap, start, a) && IsChain(heap, start, b)
    ensures a == b
    decreases |a|
  {
    if a != [] && b != [] {
      ChainIsUnique(heap, heap[start].n, a[1..], b[1..]);
      assert a == [a[0]] + a[1..] && b == [b[0]] + b[1..];
    }
  }

  lemma {:induction false} ChainAt(heap: seq<Value>, start: nat, chain: seq<nat>, i: nat)
    requires IsChain(heap, start, chain) && i < |chain|
    ensures IsChain(heap, chain[i], chain[i..]) && Leads(heap, start, chain[..i], chain[i])
    decreases |chain|
  {
    if i > 0 {
      ChainAt(heap, heap[start].n, chain[1..], i - 1);
      assert chain[1..][i - 1..] == chain[i..];
      assert chain[..i][1..] == chain[1..][..i - 1];
    }
  }

  /** What follows the `i`-th free slot: the next one, or the length of the array. */
  ghost function AfterFree(chain: seq<nat>, length: nat, i: nat): nat
    requires i < |chain|
  {
    if i + 1 < |chain| then chain[i + 1] else length
  }

  /** Each free slot holds the index of the next one, the last of them the length of the array. */
  lemma LinkAt(heap: seq<Value>, start: nat, chain: seq<nat>, i: nat)
    requires IsChain(heap, start, chain) && i < |chain|
    ensures Read(heap, chain[i]) == Number(AfterFree(chain, |heap|, i))
  {
    ChainAt(heap, start, chain, i);
    var rest := chain[i..];
    assert rest[0] == chain[i] && (|rest| > 1 ==> rest[1..][0] == chain[i + 1]);
  }

  /** A chain that reaches the end cannot have passed through a slot twice. */
  lemma ChainIsAcyclic(heap: seq<Value>, start: nat, chain: seq<nat>)
    requires IsChain(heap, start, chain)
    ensures forall i, j :: 0 <= i < j < |chain| ==> chain[i] != chain[j]
  {
    forall i, j | 0 <= i < j < |chain|
      ensures chain[i] != chain[j]
    {
      ChainAt(heap, start, chain, i);
      ChainAt(heap, start, chain, j);
      if chain[i] == chain[j] {
        ChainIsUnique(heap, chain[i], chain[i..], chain[j..]);
        assert false;
      }
    }
  }

  /** A chain starting where `path` starts runs through it. */
  lemma {:induction false} ChainThrough(heap: seq<Value>, start: nat, path: seq<nat>, goal: nat, chain: seq<nat>)
    requires Leads(heap, start, path, goal) && IsChain(heap, start, chain)
    ensures |path| <= |chain| && IsChain(heap, goal, chain[|path|..])
    decreases |path|
  {
    if path == [] {
      assert chain[0..] == chain;
    } else {
      ChainThrough(heap, heap[start].n, path[1..], goal, chain[1..]);
      assert chain[1..][|path| - 1..] == chain[|path|..];
    }
  }

  lemma {:induction false} LeadsUnaffected(heap: seq<Value>, heap': seq<Value>, start: nat, path: seq<nat>, goal: nat)
    requires Leads(heap, start, path, goal) && |heap| <= |heap'|
    requires forall i :: 0 <= i < |path| ==> path[i] < |heap| && heap'[path[i]] == heap[path[i]]
    ensures Leads(heap', start, path, goal)
    decreases |path|
  {
    if path != [] {
      assert heap'[path[0]] == heap[path[0]];
      forall i | 0 <= i < |path[1..]|
        ensures path[1..][i] < |heap| && heap'[path[1..][i]] == heap[path[1..][i]]
      {
        assert path[1..][i] == path[i + 1];
      }
      LeadsUnaffected(heap, heap', heap[start].n, path[1..], goal);
    }
  }

  lemma {:induction false} ChainIsPath(heap: seq<Value>, start: nat, chain: seq<nat>)
    ensures IsChain(heap, start, chain) <==> Leads(heap, start, chain, |heap|)
    decreases |chain|
  {
    if chain != [] && start < |heap| && heap[start].Number? {
      ChainIsPath(heap, heap[start].n, chain[1..]);
    }
  }

  // ---------------------------------------------------------------- refinement of a map

  ghost predicate WellFormed(s: Slab, chain: seq<nat>) {
    FIRST_FREE <= |s.heap| && s.heap[..FIRST_FREE] == Initial().heap &&
    IsChain(s.heap, s.next, chain) && InSlab(s, chain)
  }

  ghost predicate InSlab(s: Slab, chain: seq<nat>) {
    forall i :: 0 <= i < |chain| ==> FIRST_FREE <= chain[i] < |s.heap|
  }

  ghost function Live(s: Slab, chain: seq<nat>): set<nat> {
    set i | FIRST_FREE <= i < |s.heap| && i !in chain
  }

  /** The map a slab stands for. */
  ghost function Objects(s: Slab, chain: seq<nat>): map<nat, Value> {
    map i | i in Live(s, chain) :: Read(s.heap, i)
  }

  ghost function ChainAfterAdd(chain: seq<nat>): seq<nat> {
    if chain == [] then [] else chain[1..]
  }

  /** The reserved part: `undefined` everywhere but for null, true and false at 129, 130 and 131. */
  lemma ReservedValues(i: nat)
    ensures |Initial().heap| == 132 && Initial().next == 132
    ensures i < 132 ==> Reserved(i, Initial().heap[i])
  {
  }

  predicate Reserved(i: nat, v: Value) {
    && (i <= 128 ==> v == Undefined)
    && (i == 129 ==> v == Null)
    && (i == 130 ==> v == Boolean(true))
    && (i == 131 ==> v == Boolean(false))
  }

  lemma InitialIsEmpty()
    ensures WellFormed(Initial(), []) && Objects(Initial(), []) == map[]
  {
    assert Initial().heap[..FIRST_FREE] == Initial().heap;
  }

  lemma NextIsFree(s: Slab, chain: seq<nat>)
    requires WellFormed(s, chain)
    ensures FIRST_FREE <= s.next <= |s.heap| && s.next !in Live(s, chain)
    ensures Read(Grown(s), s.next).Number?
  {
    if chain != [] { assert chain[0] in chain; }
  }

  /** A changed slot outside the chain leaves the chain alone. */
  lemma ChainUnaffected(heap: seq<Value>, start: nat, chain: seq<nat>, i: nat, v: Value)
    requires IsChain(heap, start, chain) && i < |heap| && i !in chain
    requires forall k :: 0 <= k < |chain| ==> chain[k] < |heap|
    ensures IsChain(heap[i := v], start, chain)
  {
    ChainIsPath(heap, start, chain);
    LeadsUnaffected(heap, heap[i := v], start, chain, |heap|);
    ChainIsPath(heap[i := v], start, chain);
  }

  /** `addObject` returns a slot that was not live and not reserved, and changes nothing else. */
  lemma AddRefines(s: Slab, chain: seq<nat>, obj: Value)
    requires WellFormed(s, chain)
    ensures Read(Grown(s), s.next).Number?
    ensures s.next >= FIRST_FREE && s.next !in Live(s, chain)
    ensures WellFormed(Added(s, obj), ChainAfterAdd(chain))
    ensures Objects(Added(s, obj), ChainAfterAdd(chain)) == Objects(s, chain)[s.next := obj]
  {
    NextIsFree(s, chain);
    var s', chain' := Added(s, obj), ChainAfterAdd(chain);
    if chain == [] {
      assert s'.heap == s.heap + [obj];
    } else {
      ChainIsAcyclic(s.heap, s.next, chain);
      assert forall k :: 0 <= k < |chain'| ==> chain'[k] == chain[k + 1];
      ChainUnaffected(s.heap, s.heap[s.next].n, chain', s.next, obj);
      assert forall i :: i in chain <==> i == chain[0] || i in chain';
    }
    assert s'.heap[..FIRST_FREE] == s.heap[..FIRST_FREE];
    AddedObjects(s, chain, obj);
  }

  lemma AddedObjects(s: Slab, chain: seq<nat>, obj: Value)
    requires WellFormed(s, chain)
    requires Read(Grown(s), s.next).Number?
    ensures Objects(Added(s, obj), ChainAfterAdd(chain)) == Objects(s, chain)[s.next := obj]
  {
    var s', chain' := Added(s, obj), ChainAfterAdd(chain);
    if chain == [] {
      assert s'.heap == s.heap + [obj];
      assert Live(s', chain') == Live(s, chain) + {s.next};
    } else {
      ChainIsAcyclic(s.heap, s.next, chain);
      assert chain == [s.next] + chain';
      assert chain[0] in chain;
      assert s.next !in chain';
      assert Live(s', chain') == Live(s, chain) + {s.next};
    }
  }

  /** Dropping a live index removes exactly that entry and puts the slot at the front of the free chain. */
  lemma DropRefines(s: Slab, chain: seq<nat>, idx: nat)
    requires WellFormed(s, chain) && idx in Live(s, chain)
    ensures WellFormed(Dropped(s, idx), [idx] + chain)
    ensures Objects(Dropped(s, idx), [idx] + chain) == Objects(s, chain) - {idx}
  {
    var s', chain' := Dropped(s, idx), [idx] + chain;
    ChainUnaffected(s.heap, s.next, chain, idx, Number(s.next));
    assert chain'[1..] == chain;
    assert s'.heap[..FIRST_FREE] == s.heap[..FIRST_FREE];
    assert Live(s', chain') == Live(s, chain) - {idx};
  }

  /** A second drop of a free slot closes the chain into a cycle: no chain reaches the end any more. */
  lemma FreeDropMakesCycle(s: Slab, chain: seq<nat>, idx: nat, chain': seq<nat>)
    requires WellFormed(s, chain) && idx in chain && idx >= FIRST_FREE
    ensures !IsChain(Dropped(s, idx).heap, idx, chain')
  {
    var heap' := Dropped(s, idx).heap;
    var i :| 0 <= i < |chain| && chain[i] == idx;
    ChainIsAcyclic(s.heap, s.next, chain);
    ChainAt(s.heap, s.next, chain, i);
    var path := chain[..i];
    forall k | 0 <= k < |path|
      ensures path[k] < |s.heap| && heap'[path[k]] == s.heap[path[k]]
    {
      assert path[k] == chain[k] != chain[i];
    }
    LeadsUnaffected(s.heap, heap', s.next, path, idx);
    if IsChain(heap', idx, chain') {
      ChainThrough(heap', s.next, path, idx, chain'[1..]);
      ChainIsUnique(heap', idx, chain', chain'[1..][|path|..]);
      assert false;
    }
  }

  /** Dropping an index past the end leaves the chain pointing at a hole or at itself. */
  lemma FarDropLosesChain(s: Slab, chain: seq<nat>, idx: nat, chain': seq<nat>)
    requires WellFormed(s, chain) && idx >= |s.heap|
    ensures !IsChain(Dropped(s, idx).heap, idx, chain')
  {
    var heap' := Dropped(s, idx).heap;
    ChainIsPath(s.heap, s.next, chain);
    LeadsUnaffected(s.heap, heap', s.next, chain, |s.heap|);
    assert heap'[idx] == Number(s.next) && (idx > |s.heap| ==> heap'[|s.heap|] == Undefined);
    if IsChain(heap', idx, chain') {
      ChainThrough(heap', s.next, chain, |s.heap|, chain'[1..]);
      var rest := chain'[1..][|chain|..];
      if idx == |s.heap| {
        ChainIsUnique(heap', idx, chain', rest);
      }
      assert false;
    }
  }

  /** The caller's obligation, exactly: a drop keeps the slab well formed if and only if the index is reserved or
      live. */
  lemma DropSafeExactly(s: Slab, chain: seq<nat>, idx: nat)
    requires WellFormed(s, chain)
    ensures (exists chain' :: WellFormed(Dropped(s, idx), chain')) <==> idx < FIRST_FREE || idx in Live(s, chain)
  {
    if idx < FIRST_FREE {
      assert WellFormed(Dropped(s, idx), chain);
    } else if idx in Live(s, chain) {
      DropRefines(s, chain, idx);
    } else {
      forall chain' | WellFormed(Dropped(s, idx), chain')
        ensures false
      {
        if idx in chain {
          FreeDropMakesCycle(s, chain, idx, chain');
        } else {
          FarDropLosesChain(s, chain, idx, chain');
        }
      }
    }
  }

  // ---------------------------------------------------------------- reuse is last in, first out

  function DropAll(s: Slab, idxs: seq<nat>): Slab {
    if idxs == [] then s else Dropped(DropAll(s, idxs[..|idxs| - 1]), idxs[|idxs| - 1])
  }

  function Reversed(idxs: seq<nat>): (r: seq<nat>)
    ensures |r| == |idxs|
  {
    if idxs == [] then [] else [idxs[|idxs| - 1]] + Reversed(idxs[..|idxs| - 1])
  }

  /** Different live indices. */
  ghost predicate Droppable(s: Slab, chain: seq<nat>, idxs: seq<nat>) {
    (forall i :: 0 <= i < |idxs| ==> idxs[i] in Live(s, chain)) &&
    (forall i, j :: 0 <= i < j < |idxs| ==> idxs[i] != idxs[j])
  }

  function Elements(idxs: seq<nat>): set<nat> { set i | i in idxs }

  /** `s'` is `s` with `idxs` dropped: its free chain is `chain'` and the other entries are as they were. */
  ghost predicate Without(s: Slab, chain: seq<nat>, idxs: seq<nat>, s': Slab, chain': seq<nat>) {
    WellFormed(s', chain') && Objects(s', chain') == Objects(s, chain) - Elements(idxs)
  }

  lemma {:induction false} DropsStackUp(s: Slab, chain: seq<nat>, idxs: seq<nat>)
    requires WellFormed(s, chain) && Droppable(s, chain, idxs)
    ensures Without(s, chain, idxs, DropAll(s, idxs), Reversed(idxs) + chain)
  {
    if idxs == [] {
      assert [] + chain == chain;
    } else {
      var front, last := idxs[..|idxs| - 1], idxs[|idxs| - 1];
      DropsStackUp(s, chain, front);
      DropOneMore(s, chain, front, last, DropAll(s, front), Reversed(front) + chain);
      assert [last] + (Reversed(front) + chain) == Reversed(idxs) + chain;
      assert front + [last] == idxs;
    }
  }

  lemma DropOneMore(s: Slab, chain: seq<nat>, front: seq<nat>, last: nat, s': Slab, chain': seq<nat>)
    requires Without(s, chain, front, s', chain') && last in Live(s, chain) && last !in front
    ensures Without(s, chain, front + [last], Dropped(s', last), [last] + chain')
  {
    StillLive(s, chain, s', chain', front, last);
    DropRefines(s', chain', last);
    ElementsSnoc(front, last);
    RemoveTwice(Objects(s, chain), Elements(front), last);
  }

  lemma StillLive(s: Slab, chain: seq<nat>, s': Slab, chain': seq<nat>, front: seq<nat>, last: nat)
    requires Objects(s', chain') == Objects(s, chain) - Elements(front)
    requires last in Live(s, chain) && last !in front
    ensures last in Live(s', chain')
  {
    assert last in Objects(s, chain) && last !in Elements(front);
    assert last in Objects(s', chain');
  }

  lemma ElementsSnoc(front: seq<nat>, last: nat)
    ensures Elements(front + [last]) == Elements(front) + {last}
  {
  }

  lemma RemoveTwice(m: map<nat, Value>, removed: set<nat>, k: nat)
    ensures m - removed - {k} == m - (removed + {k})
  {
  }

  /** Adding `objs` in turn returns `idxs` in turn and ends in `s'`. */
  ghost predicate HandsOut(s: Slab, objs: seq<Value>, idxs: seq<nat>, s': Slab)
    decreases |objs|
  {
    if objs == [] then idxs == [] && s' == s
    else
      idxs != [] && idxs[0] == s.next && Read(Grown(s), s.next).Number? &&
      HandsOut(Added(s, objs[0]), objs[1..], idxs[1..], s')
  }

  /** The map after `objs` are put at `idxs`, one after the other. */
  function Assigned(m: map<nat, Value>, idxs: seq<nat>, objs: seq<Value>): map<nat, Value>
    requires |idxs| == |objs|
    decreases |objs|
  {
    if objs == [] then m else Assigned(m[idxs[0] := objs[0]], idxs[1..], objs[1..])
  }

  /** While there are free slots, they are handed out in chain order, each gets its object and the array does not
      grow. */
  lemma {:induction false} AddsFollowChain(s: Slab, chain: seq<nat>, objs: seq<Value>) returns (s': Slab)
    requires WellFormed(s, chain) && |objs| <= |chain|
    ensures HandsOut(s, objs, chain[..|objs|], s')
    ensures WellFormed(s', chain[|objs|..]) && |s'.heap| == |s.heap|
    ensures Objects(s', chain[|objs|..]) == Assigned(Objects(s, chain), chain[..|objs|], objs)
    decreases |objs|
  {
    if objs == [] {
      s' := s;
      assert chain[0..] == chain;
    } else {
      AddRefines(s, chain, objs[0]);
      s' := AddsFollowChain(Added(s, objs[0]), chain[1..], objs[1..]);
      assert chain[1..][..|objs| - 1] == chain[..|objs|][1..];
      assert chain[1..][|objs| - 1..] == chain[|objs|..];
    }
  }

  /** Drop different live indices and add as many objects: the indices come back in reverse order with the new objects,
      every other entry is as it was, the array has not grown and the other free slots are as they were. */
  lemma ReuseIsLastInFirstOut(s: Slab, chain: seq<nat>, idxs: seq<nat>, objs: seq<Value>) returns (s': Slab)
    requires WellFormed(s, chain) && Droppable(s, chain, idxs) && |objs| == |idxs|
    ensures HandsOut(DropAll(s, idxs), objs, Reversed(idxs), s')
    ensures WellFormed(s', chain) && |s'.heap| == |s.heap|
    ensures Objects(s', chain) == Assigned(Objects(s, chain) - Elements(idxs), Reversed(idxs), objs)
  {
    DropsStackUp(s, chain, idxs);
    DropsKeepLength(s, chain, idxs);
    var chain' := Reversed(idxs) + chain;
    s' := AddsFollowChain(DropAll(s, idxs), chain', objs);
    assert chain'[..|objs|] == Reversed(idxs) && chain'[|objs|..] == chain;
  }

  lemma {:induction false} DropsKeepLength(s: Slab, chain: seq<nat>, idxs: seq<nat>)
    requires Droppable(s, chain, idxs)
    ensures |DropAll(s, idxs).heap| == |s.heap|
  {
    if idxs != [] {
      DropsKeepLength(s, chain, idxs[..|idxs| - 1]);
      assert idxs[|idxs| - 1] in Live(s, chain);
    }
  }

  // ---------------------------------------------------------------- what a second drop does

  /** Additions follow a path of links, overwrite its slots and leave the others alone. */
  lemma {:induction false} AddsFollowPath(s: Slab, path: seq<nat>, goal: nat, objs: seq<Value>) returns (s': Slab)
    requires Leads(s.heap, s.next, path, goal) && |objs| == |path|
    requires forall i, j :: 0 <= i < j < |path| ==> path[i] != path[j]
    ensures HandsOut(s, objs, path, s') && s'.next == goal && |s'.heap| == |s.heap|
    ensures forall k :: 0 <= k < |s.heap| && k !in path ==> s'.heap[k] == s.heap[k]
    decreases |path|
  {
    if path == [] {
      s' := s;
    } else {
      PathInHeap(s.heap, s.next, path, goal);
      var s1 := Added(s, objs[0]);
      assert forall i :: 0 <= i < |path| - 1 ==> path[1..][i] == path[i + 1];
      LeadsUnaffected(s.heap, s1.heap, s1.next, path[1..], goal);
      s' := AddsFollowPath(s1, path[1..], goal, objs[1..]);
      assert path == [path[0]] + path[1..];
    }
  }

  lemma {:induction false} PathInHeap(heap: seq<Value>, start: nat, path: seq<nat>, goal: nat)
    requires Leads(heap, start, path, goal)
    ensures forall i :: 0 <= i < |path| ==> path[i] < |heap|
    decreases |path|
  {
    if path != [] {
      PathInHeap(heap, heap[start].n, path[1..], goal);
      assert forall i :: 1 <= i < |path| ==> path[i] == path[1..][i - 1];
    }
  }

  /** The harm of a second drop, wherever the slot is in the chain: the first addition takes the slot, the next ones
      take the slots before it in the chain, and the one after them is given the same slot again, with the first object
      still in it. */
  lemma SecondDropSharesSlot(s: Slab, chain: seq<nat>, i: nat, objs: seq<Value>) returns (s': Slab)
    requires WellFormed(s, chain) && i < |chain| && |objs| == i + 1
    ensures HandsOut(Dropped(s, chain[i]), objs, [chain[i]] + chain[..i], s')
    ensures s'.next == chain[i] < |s'.heap| && s'.heap[chain[i]] == objs[0]
  {
    var idx, path := chain[i], chain[..i];
    ChainIsAcyclic(s.heap, s.next, chain);
    ChainAt(s.heap, s.next, chain, i);
    var s1 := Slab(s.heap[idx := objs[0]], s.next);
    assert Added(Dropped(s, idx), objs[0]) == s1;
    LeadsUnaffected(s.heap, s1.heap, s.next, path, idx);
    s' := AddsFollowPath(s1, path, idx, objs[1..]);
    assert ([idx] + path)[1..] == path;
  }

  // ---------------------------------------------------------------- the object

  class WasmBindgenHeap {
    var heap: seq<Value>
    var heapNext: nat
    ghost var free: seq<nat>

    function Contents(): Slab
      reads this
    {
      Slab(heap, heapNext)
    }

    ghost predicate Valid()
      reads this
    {
      WellFormed(Contents(), free)
    }

    ghost function Entries(): map<nat, Value>
      reads this
    {
      Objects(Contents(), free)
    }

    constructor ()
      ensures Valid() && Entries() == map[]
    {
      heap := Holes(RESERVED_SIZE) + [Undefined, Null, Boolean(true), Boolean(false)];
      heapNext := FIRST_FREE;
      free := [];
      InitialIsEmpty();
    }

    method AddObject(obj: Value) returns (idx: nat)
      requires Valid()
      modifies this
      ensures Valid()
      ensures idx >= FIRST_FREE && idx !in old(Entries())
      ensures Entries() == old(Entries())[idx := obj]
    {
      AddRefines(Contents(), free, obj);
      if heapNext == |heap| {
        heap := heap + [Number(|heap| + 1)];
      }
      idx := heapNext;
      heapNext := heap[idx].n;
      heap := heap[idx := obj];
      free := ChainAfterAdd(free);
    }

    method GetObject(idx: nat) returns (obj: Value)
      requires Valid()
      ensures obj == Read(heap, idx)
      ensures idx in Entries() ==> obj == Entries()[idx]
      ensures idx < FIRST_FREE ==> Reserved(idx, obj)
      ensures idx >= |heap| ==> obj == Undefined
      ensures forall i :: 0 <= i < |free| && free[i] == idx ==> obj == Number(AfterFree(free, |heap|, i))
    {
      obj := Read(heap, idx);
      ReservedValues(idx);
      forall i | 0 <= i < |free| && free[i] == idx
        ensures obj == Number(AfterFree(free, |heap|, i))
      {
        LinkAt(heap, heapNext, free, i);
      }
      assert idx < FIRST_FREE ==> heap[idx] == heap[..FIRST_FREE][idx];
    }

    /** Any index may be passed; the slab survives exactly when it is reserved or live. */
    method DropObject(idx: nat)
      requires Valid()
      modifies this
      ensures idx < FIRST_FREE ==> Contents() == old(Contents()) && free == old(free)
      ensures idx in old(Entries()) ==> Valid() && Entries() == old(Entries()) - {idx}
      ensures Contents() == Dropped(old(Contents()), idx)
      ensures (exists chain :: WellFormed(Contents(), chain)) <==> idx < FIRST_FREE || idx in old(Entries())
    {
      DropSafeExactly(Contents(), free, idx);
      ghost var after := Dropped(Contents(), idx);
      if idx < FIRST_FREE {
        return;
      }
      if idx in Live(Contents(), free) {
        DropRefines(Contents(), free, idx);
      }
      heap := Write(heap, idx, Number(heapNext));
      heapNext := idx;
      free := [idx] + free;
      assert Contents() == after;
    }

    method TakeObject(idx: nat) returns (obj: Value)
      requires Valid()
      modifies this
      ensures idx in old(Entries()) ==> Valid() && obj == old(Entries())[idx] && Entries() == old(Entries()) - {idx}
      ensures idx < FIRST_FREE ==> Contents() == old(Contents()) && free == old(free) && Reserved(idx, obj)
      ensures obj == Read(old(heap), idx) && Contents() == Dropped(old(Contents()), idx)
      ensures (exists chain :: WellFormed(Contents(), chain)) <==> idx < FIRST_FREE || idx in old(Entries())
    {
      obj := GetObject(idx);
      DropObject(idx);
    }
  }
}
