/** The lock-free bump allocator: word arithmetic, the machine of interleaved threads, the retry loop. */
module Allocator {
  import opened Words
  import opened Common

  // ---------------------------------------------------------------- word arithmetic

  /** A heap of `size` bytes at `base`: 0x10000 in one allocator, the linker's heap base in the other. */
  datatype Heap = Heap(base: u32, size: u32) {
    predicate InAddressSpace() { base + size < TWO32 }
  }

  const HALF := 0x8000_0000

  /** A memory layout: the alignment is a power of two, and size and alignment stay within `isize`. */
  datatype Layout = Layout(size: u32, shift: nat) {
    predicate Valid() { shift <= 31 && size + Pow2(shift) <= HALF }
  }

  /** The low 32 bits of a sum of two words. */
  function Wrap(x: nat): (w: u32)
    requires x < 2 * TWO32
  {
    if x < TWO32 then x else x - TWO32
  }

  function Plus(a: u32, b: u32): u32 { Wrap(a + b) }

  function Minus(a: u32, b: u32): u32 { if a >= b then a - b else a - b + TWO32 }

  lemma {:induction false} Pow2Bounds(k: nat, n: nat)
    requires k <= n
    ensures Pow2(k) <= Pow2(n)
    ensures Pow2(n) % Pow2(k) == 0
  {
    if k < n {
      Pow2Bounds(k, n - 1);
      DoubleMultiple(Pow2(n - 1), Pow2(k));
    }
  }

  lemma DoubleMultiple(x: nat, p: nat)
    requires p > 0 && x % p == 0
    ensures (2 * x) % p == 0
  {
    ModUnique(2 * x, p, 2 * (x / p), 0);
  }

  function Align(l: Layout): (a: u32)
    requires l.Valid()
    ensures 0 < a == Pow2(l.shift) <= HALF
  {
    Pow2(l.shift)
  }

  /** The mask expression, in wrapping 32-bit arithmetic. */
  function AlignedWord(h: Heap, head: u32, l: Layout): u32
    requires l.Valid()
  {
    WordSizes();
    And(Minus(Plus(Plus(h.base, head), Align(l)), 1), Not(Align(l) - 1, 32), 32)
  }

  /** One computation of the loop body: null, or the address and the head to swap in. */
  function Attempt(h: Heap, head: u32, l: Layout): Option<(u32, u32)>
    requires l.Valid()
  {
    var aligned := AlignedWord(h, head, l);
    var newHead := Plus(Minus(aligned, h.base), l.size);
    if newHead > h.size then None else Some((aligned, newHead))
  }

  /** The least multiple of `a` not below `x`. */
  function RoundUp(x: nat, a: nat): (r: nat)
    requires a > 0
    ensures x <= r < x + a && r % a == 0
  {
    RoundedIsMultiple(x + a - 1, a);
    x + a - 1 - (x + a - 1) % a
  }

  lemma RoundedIsMultiple(y: nat, a: nat)
    requires a > 0
    ensures 0 <= y % a < a && y % a <= y
    ensures (y - y % a) % a == 0
  {
    var q := y / a;
    assert y == q * a + y % a;
    ModUnique(q * a, a, q, 0);
  }

  lemma RoundUpIsLeast(x: nat, a: nat, m: nat)
    requires a > 0 && m % a == 0 && m >= x
    ensures RoundUp(x, a) <= m
  {
    var r := RoundUp(x, a);
    if m < r {
      MultiplesApart(m, r, a);
      assert false;
    }
  }

  lemma MultiplesApart(m: nat, r: nat, a: nat)
    requires a > 0 && m % a == 0 && r % a == 0 && m < r
    ensures m + a <= r
  {
    var j, q := m / a, r / a;
    assert m == a * j && r == a * q;
    if q < j + 1 {
      MulMonotone(a, q, j);
      assert false;
    }
    MulMonotone(a, j + 1, q);
    assert a * (j + 1) == m + a;
  }

  /** The request served in unbounded arithmetic. */
  function Fit(h: Heap, head: nat, l: Layout): Option<(nat, nat)>
    requires l.Valid()
  {
    var aligned := RoundUp(h.base + head, Align(l));
    var newHead := aligned - h.base + l.size;
    if newHead > h.size then None else Some((aligned, newHead))
  }

  /** The mask expression is the rounded address, up to the word size. */
  lemma MaskIsRoundUp(h: Heap, head: u32, l: Layout)
    requires l.Valid() && h.base + head < TWO32
    ensures AlignedWord(h, head, l) == Wrap(RoundUp(h.base + head, Align(l)))
  {
    MaskRoundsWord(h, head, l);
    AlignmentDividesWord(l);
    RoundDownWraps(h.base + head + Align(l) - 1, Align(l));
  }

  lemma AlignmentDividesWord(l: Layout)
    requires l.Valid()
    ensures TWO32 % Align(l) == 0
  {
    WordSizes();
    Pow2Bounds(l.shift, 32);
  }

  lemma MaskRoundsWord(h: Heap, head: u32, l: Layout)
    requires l.Valid() && h.base + head < TWO32
    ensures var x := Wrap(h.base + head + Align(l) - 1); AlignedWord(h, head, l) == x - x % Align(l)
  {
    WordSizes();
    var x := Wrap(h.base + head + Align(l) - 1);
    assert x == Minus(Plus(Plus(h.base, head), Align(l)), 1);
    MaskRoundsDown(x, l.shift, 32);
  }

  lemma RoundDownWraps(y: nat, a: nat)
    requires 0 < a && TWO32 % a == 0 && y < 2 * TWO32
    ensures 0 <= y % a <= y && Wrap(y - y % a) == Wrap(y) - Wrap(y) % a
  {
    RoundedIsMultiple(y, a);
    if y >= TWO32 {
      var x := y - TWO32;
      ModDropsMultiple(y, TWO32, a);
      RoundedIsMultiple(x, a);
      assert y - y % a == TWO32 + (x - x % a);
    }
  }

  /** Rounding down commutes with dropping a multiple of the alignment. */
  lemma ModDropsMultiple(y: nat, m: nat, a: nat)
    requires a > 0 && m % a == 0 && y >= m
    ensures (y - m) % a == y % a
  {
    var q, j, r := m / a, y / a, y % a;
    assert m == a * q && y == a * j + r;
    if j < q {
      MulMonotone(a, j + 1, q);
      assert false;
    }
    assert a * (j - q) == a * j - a * q;
    ModUnique(y - m, a, j - q, r);
  }

  /** With at most half the address space of heap, wrapping arithmetic serves exactly what unbounded would. */
  lemma AttemptIsFit(h: Heap, head: u32, l: Layout)
    requires h.InAddressSpace() && head <= h.size && l.Valid() && h.size <= HALF
    ensures Attempt(h, head, l) == Fit(h, head, l)
  {
    MaskIsRoundUp(h, head, l);
  }

  /** With base and heap in the lower half, exactly one case lets an intermediate sum wrap: the address is 2^31 and so
      is the alignment. A request of at least one byte never meets it, and the result is right even there. */
  lemma IntermediateSumsExactly(h: Heap, head: u32, l: Layout)
    requires h.base + h.size <= HALF && head <= h.size && l.Valid()
    ensures h.base + head < TWO32
    ensures h.base + head + Align(l) < TWO32 <==> !(h.base + head == HALF && Align(l) == HALF)
    ensures l.size > 0 ==> h.base + head + Align(l) < TWO32
    ensures h.base + head + Align(l) - 1 < TWO32
    ensures RoundUp(h.base + head, Align(l)) - h.base + l.size < TWO32
    ensures AlignedWord(h, head, l) == RoundUp(h.base + head, Align(l))
  {
    MaskIsRoundUp(h, head, l);
  }

  /** The failing case: a full heap that ends at 2^31, asked for zero bytes aligned to 2^31. */
  lemma AlignmentSumWraps()
    ensures var h, l := Heap(0x10000, HALF - 0x10000), Layout(0, 31);
      h.base + h.size <= HALF && l.Valid() && h.base + h.size + Align(l) == TWO32 &&
      Plus(Plus(h.base, h.size), Align(l)) == 0
  {
    WordSizes();
    assert Pow2(32) == 2 * Pow2(31);
  }

  ghost predicate ServesFaithfully(h: Heap) {
    forall head: u32, l: Layout :: head <= h.size && l.Valid() ==> Attempt(h, head, l) == Fit(h, head, l)
  }

  /** The exact bound: a heap is served faithfully at every head and layout if and only if it is at most 2^31 bytes. */
  lemma FaithfulExactlyUpToHalf(h: Heap)
    requires h.InAddressSpace()
    ensures ServesFaithfully(h) <==> h.size <= HALF
  {
    if h.size <= HALF {
      forall head: u32, l: Layout | head <= h.size && l.Valid()
        ensures Attempt(h, head, l) == Fit(h, head, l)
      {
        AttemptIsFit(h, head, l);
      }
    } else {
      HeadRunsBackwards(h);
    }
  }

  /** Past 2^31 bytes the new head wraps: this request is granted although it does not fit, and the head returns
      to 0. */
  lemma HeadRunsBackwards(h: Heap)
    requires h.InAddressSpace() && h.size > HALF
    ensures Layout(HALF - 1, 0).Valid()
    ensures Attempt(h, HALF + 1, Layout(HALF - 1, 0)) == Some((h.base + HALF + 1, 0))
    ensures Fit(h, HALF + 1, Layout(HALF - 1, 0)) == None
  {
    var l := Layout(HALF - 1, 0);
    MaskIsRoundUp(h, HALF + 1, l);
    assert Align(l) == 1;
  }

  // ---------------------------------------------------------------- sequential service

  datatype Served = Served(head: nat, addresses: seq<nat>)

  /** Requests served one after another, each of which fits. */
  ghost predicate Fits(h: Heap, ls: seq<Layout>)
    decreases |ls|, 0
  {
    ls == [] ||
    (var prior := ls[..|ls| - 1];
     Fits(h, prior) && ls[|ls| - 1].Valid() && Fit(h, Serve(h, prior).head, ls[|ls| - 1]).Some?)
  }

  ghost function Serve(h: Heap, ls: seq<Layout>): (s: Served)
    requires Fits(h, ls)
    ensures |s.addresses| == |ls| && s.head <= h.size
    decreases |ls|, 1
  {
    if ls == [] then Served(0, [])
    else
      var prior := Serve(h, ls[..|ls| - 1]);
      var got := Fit(h, prior.head, ls[|ls| - 1]).value;
      Served(got.1, prior.addresses + [got.0])
  }

  lemma ServeSnoc(h: Heap, ls: seq<Layout>, l: Layout)
    requires Fits(h, ls) && l.Valid() && Fit(h, Serve(h, ls).head, l).Some?
    ensures Fits(h, ls + [l])
    ensures var got := Fit(h, Serve(h, ls).head, l).value;
      Serve(h, ls + [l]) == Served(got.1, Serve(h, ls).addresses + [got.0])
  {
    assert (ls + [l])[..|ls|] == ls;
  }

  function Sizes(ls: seq<Layout>): nat {
    if ls == [] then 0 else Sizes(ls[..|ls| - 1]) + ls[|ls| - 1].size
  }

  /** Every region served is aligned, inside the used part of the heap, and clear of every other one. */
  lemma {:induction false} RegionsAreSound(h: Heap, ls: seq<Layout>)
    requires Fits(h, ls)
    ensures forall i :: 0 <= i < |ls| ==> Sound(h, ls, i)
    ensures forall i, j :: 0 <= i < j < |ls| ==> Serve(h, ls).addresses[i] + ls[i].size <= Serve(h, ls).addresses[j]
    ensures Sizes(ls) <= Serve(h, ls).head
  {
    if ls != [] {
      var prior, l := ls[..|ls| - 1], ls[|ls| - 1];
      RegionsAreSound(h, prior);
      forall i | 0 <= i < |ls|
        ensures Sound(h, ls, i)
      {
        if i < |prior| { assert Sound(h, prior, i); }
      }
      forall i, j | 0 <= i < j < |ls|
        ensures Serve(h, ls).addresses[i] + ls[i].size <= Serve(h, ls).addresses[j]
      {
        assert Sound(h, prior, i);
      }
    }
  }

  ghost predicate Sound(h: Heap, ls: seq<Layout>, i: nat)
    requires Fits(h, ls) && i < |ls|
  {
    var s := Serve(h, ls);
    ls[i].Valid() && s.addresses[i] % Align(ls[i]) == 0 &&
    h.base <= s.addresses[i] && s.addresses[i] + ls[i].size <= h.base + s.head
  }

  /** A request that does not fit at some head does not fit at any later one. */
  lemma RefusalIsMonotone(h: Heap, early: nat, late: nat, l: Layout)
    requires l.Valid() && early <= late && Fit(h, early, l).None?
    ensures Fit(h, late, l).None?
  {
    RoundUpIsLeast(h.base + early, Align(l), RoundUp(h.base + late, Align(l)));
  }

  // ---------------------------------------------------------------- interleaved threads

  /** Where a thread stands in the loop: about to load, or holding a loaded head. Absent threads are not allocating. */
  datatype Pc = Loading(layout: Layout) | Loaded(layout: Layout, seen: u32)

  /** `history` is every value the head has had, oldest first; `claims` the successful swaps, oldest first. */
  datatype Machine = Machine(history: seq<u32>, threads: map<nat, Pc>, claims: seq<Claim>, refusals: seq<Refusal>)
  datatype Claim = Claim(thread: nat, layout: Layout, address: u32)
  datatype Refusal = Refusal(thread: nat, layout: Layout, head: u32)

  function Head(m: Machine): u32
    requires m.history != []
  {
    m.history[|m.history| - 1]
  }

  datatype Move =
    | Call(thread: nat, layout: Layout)
    | Load(thread: nat, age: nat)    // a relaxed load: any value the head has ever had
    | Refuse(thread: nat)            // does not fit: return null
    | Swap(thread: nat)              // the compare-and-swap succeeds: return the address
    | Retry(thread: nat)             // the compare-and-swap fails, for whatever reason

  ghost predicate Enabled(h: Heap, m: Machine, e: Move) {
    m.history != [] &&
    match e
    case Call(t, l) => t !in m.threads && l.Valid()
    case Load(t, age) => t in m.threads && m.threads[t].Loading? && age < |m.history|
    case Refuse(t) => Holding(m, t) && Attempt(h, m.threads[t].seen, m.threads[t].layout).None?
    case Swap(t) =>
      Holding(m, t) && Attempt(h, m.threads[t].seen, m.threads[t].layout).Some? && Head(m) == m.threads[t].seen
    case Retry(t) => Holding(m, t) && Attempt(h, m.threads[t].seen, m.threads[t].layout).Some?
  }

  ghost predicate Holding(m: Machine, t: nat) {
    t in m.threads && m.threads[t].Loaded? && m.threads[t].layout.Valid()
  }

  ghost function Next(h: Heap, m: Machine, e: Move): Machine
    requires Enabled(h, m, e)
  {
    match e
    case Call(t, l) => m.(threads := m.threads[t := Loading(l)])
    case Load(t, age) => m.(threads := m.threads[t := Loaded(m.threads[t].layout, m.history[age])])
    case Refuse(t) =>
      m.(threads := m.threads - {t}, refusals := m.refusals + [Refusal(t, m.threads[t].layout, Head(m))])
    case Swap(t) =>
      var got := Attempt(h, m.threads[t].seen, m.threads[t].layout).value;
      m.(history := m.history + [got.1], threads := m.threads - {t},
         claims := m.claims + [Claim(t, m.threads[t].layout, got.0)])
    case Retry(t) => m.(threads := m.threads[t := Loading(m.threads[t].layout)])
  }

  const START := Machine([0], map[], [], [])

  ghost predicate Legal(h: Heap, es: seq<Move>)
    decreases |es|, 0
  {
    es == [] || (Legal(h, es[..|es| - 1]) && Enabled(h, Run(h, es[..|es| - 1]), es[|es| - 1]))
  }

  ghost function Run(h: Heap, es: seq<Move>): Machine
    requires Legal(h, es)
    decreases |es|, 1
  {
    if es == [] then START else Next(h, Run(h, es[..|es| - 1]), es[|es| - 1])
  }

  function Layouts(cs: seq<Claim>): (ls: seq<Layout>)
    ensures |ls| == |cs|
  {
    seq(|cs|, i requires 0 <= i < |cs| => cs[i].layout)
  }

  function Addresses(cs: seq<Claim>): (a: seq<nat>)
    ensures |a| == |cs|
  {
    seq(|cs|, i requires 0 <= i < |cs| => cs[i].address)
  }

  ghost predicate Rising(history: seq<u32>) {
    forall i, j :: 0 <= i <= j < |history| ==> history[i] <= history[j]
  }

  ghost predicate PcOk(m: Machine, pc: Pc)
    requires m.history != []
  {
    pc.layout.Valid() && (pc.Loaded? ==> pc.seen <= Head(m))
  }

  /** What every interleaving keeps. */
  ghost predicate Safe(h: Heap, m: Machine) {
    m.history != [] && Rising(m.history) && m.history[0] == 0 && Head(m) <= h.size &&
    (forall t :: t in m.threads ==> PcOk(m, m.threads[t])) &&
    Linear(h, m) &&
    (forall i :: 0 <= i < |m.refusals| ==> Refused(h, m.refusals[i]))
  }

  /** The claims are what sequential service of the same requests, in claim order, would have returned. */
  ghost predicate Linear(h: Heap, m: Machine)
    requires m.history != []
  {
    Fits(h, Layouts(m.claims)) && Serve(h, Layouts(m.claims)) == Served(Head(m), Addresses(m.claims))
  }

  ghost predicate Refused(h: Heap, r: Refusal) {
    r.layout.Valid() && Fit(h, r.head, r.layout).None?
  }

  lemma SwapKeepsLinear(h: Heap, m: Machine, t: nat)
    requires h.InAddressSpace() && h.size <= HALF && Safe(h, m) && Enabled(h, m, Swap(t))
    ensures Linear(h, Next(h, m, Swap(t)))
    ensures Head(m) <= Head(Next(h, m, Swap(t))) <= h.size
  {
    var l := m.threads[t].layout;
    AttemptIsFit(h, Head(m), l);
    var got := Attempt(h, Head(m), l).value;
    FitGrows(h, Head(m), l, got);
    ServeSnoc(h, Layouts(m.claims), l);
    ClaimsSnoc(m.claims, Claim(t, l, got.0));
  }

  lemma FitGrows(h: Heap, head: nat, l: Layout, got: (nat, nat))
    requires l.Valid() && Fit(h, head, l) == Some(got)
    ensures head <= got.1 <= h.size
  {
  }

  lemma ClaimsSnoc(cs: seq<Claim>, c: Claim)
    ensures Layouts(cs + [c]) == Layouts(cs) + [c.layout] && Addresses(cs + [c]) == Addresses(cs) + [c.address]
  {
  }

  lemma RefuseIsJustified(h: Heap, m: Machine, t: nat)
    requires h.InAddressSpace() && h.size <= HALF && Safe(h, m) && Enabled(h, m, Refuse(t))
    ensures Fit(h, Head(m), m.threads[t].layout).None?
  {
    var seen, l := m.threads[t].seen, m.threads[t].layout;
    assert PcOk(m, m.threads[t]);
    AttemptIsFit(h, seen, l);
    RefusalIsMonotone(h, seen, Head(m), l);
  }

  lemma NextKeepsSafe(h: Heap, m: Machine, e: Move)
    requires h.InAddressSpace() && h.size <= HALF && Safe(h, m) && Enabled(h, m, e)
    ensures Safe(h, Next(h, m, e))
  {
    var m' := Next(h, m, e);
    match e
    case Call(t, l) =>
    case Load(t, age) => assert m.history[age] <= Head(m); assert PcOk(m, m.threads[t]);
    case Refuse(t) => RefuseIsJustified(h, m, t);
    case Swap(t) => SwapKeepsLinear(h, m, t); SwapKeepsThreads(h, m, t);
    case Retry(t) => assert PcOk(m, m.threads[t]);
  }

  lemma SwapKeepsThreads(h: Heap, m: Machine, t: nat)
    requires Safe(h, m) && Enabled(h, m, Swap(t)) && Head(m) <= Head(Next(h, m, Swap(t)))
    ensures var m' := Next(h, m, Swap(t)); Rising(m'.history) && forall u :: u in m'.threads ==> PcOk(m', m'.threads[u])
  {
    var m' := Next(h, m, Swap(t));
    forall u | u in m'.threads
      ensures PcOk(m', m'.threads[u])
    {
      assert PcOk(m, m.threads[u]);
    }
  }

  lemma {:induction false} RunIsSafe(h: Heap, es: seq<Move>)
    requires h.InAddressSpace() && h.size <= HALF && Legal(h, es)
    ensures Safe(h, Run(h, es))
  {
    if es == [] {
      assert Layouts([]) == [] && Addresses([]) == [];
    } else {
      RunIsSafe(h, es[..|es| - 1]);
      NextKeepsSafe(h, Run(h, es[..|es| - 1]), es[|es| - 1]);
    }
  }

  predicate AlignedInside(h: Heap, c: Claim) {
    c.layout.Valid() && c.address % Align(c.layout) == 0 &&
    h.base <= c.address && c.address + c.layout.size <= h.base + h.size
  }

  predicate Disjoint(a: Claim, b: Claim) {
    a.address + a.layout.size <= b.address || b.address + b.layout.size <= a.address
  }

  ghost predicate ClaimsSound(h: Heap, cs: seq<Claim>) {
    (forall i :: 0 <= i < |cs| ==> AlignedInside(h, cs[i])) &&
    (forall i, j :: 0 <= i < j < |cs| ==> Disjoint(cs[i], cs[j])) &&
    Sizes(Layouts(cs)) <= h.size
  }

  lemma SafeClaimsAreSound(h: Heap, m: Machine)
    requires Safe(h, m)
    ensures ClaimsSound(h, m.claims)
  {
    var cs, ls, addresses := m.claims, Layouts(m.claims), Addresses(m.claims);
    assert Serve(h, ls).addresses == addresses;
    RegionsAreSound(h, ls);
    forall i | 0 <= i < |cs|
      ensures AlignedInside(h, cs[i])
    {
      assert Sound(h, ls, i);
      assert addresses[i] == cs[i].address && ls[i] == cs[i].layout;
    }
    forall i, j | 0 <= i < j < |cs|
      ensures Disjoint(cs[i], cs[j])
    {
      assert addresses[i] == cs[i].address && addresses[j] == cs[j].address && ls[i] == cs[i].layout;
    }
  }

  /** The allocator's promise, for every interleaving of any number of threads. */
  lemma AllocationsAreSound(h: Heap, es: seq<Move>)
    requires h.InAddressSpace() && h.size <= HALF && Legal(h, es)
    ensures ClaimsSound(h, Run(h, es).claims)
  {
    RunIsSafe(h, es);
    SafeClaimsAreSound(h, Run(h, es));
  }

  /** The head never falls, whatever the threads do between two points of a run. */
  lemma {:induction false} HistoryExtends(h: Heap, es: seq<Move>, n: nat)
    requires Legal(h, es) && n <= |es|
    ensures Legal(h, es[..n]) && Run(h, es[..n]).history <= Run(h, es).history
  {
    if n < |es| {
      HistoryExtends(h, es[..|es| - 1], n);
      assert es[..|es| - 1][..n] == es[..n];
    } else {
      assert es[..n] == es;
    }
  }

  lemma HeadNeverFalls(h: Heap, es: seq<Move>, n: nat)
    requires h.InAddressSpace() && h.size <= HALF && Legal(h, es) && n <= |es|
    ensures Legal(h, es[..n]) && Run(h, es[..n]).history != [] && Run(h, es).history != []
    ensures Head(Run(h, es[..n])) <= Head(Run(h, es)) <= h.size
  {
    HistoryExtends(h, es, n);
    RunIsSafe(h, es[..n]);
    RunIsSafe(h, es);
    var now, past := Run(h, es).history, Run(h, es[..n]).history;
    assert now[|past| - 1] == past[|past| - 1];
  }

  // ---------------------------------------------------------------- the bound is exact for runs

  lemma LegalSnoc(h: Heap, es: seq<Move>, e: Move)
    requires Legal(h, es) && Enabled(h, Run(h, es), e)
    ensures Legal(h, es + [e]) && Run(h, es + [e]) == Next(h, Run(h, es), e)
  {
    assert (es + [e])[..|es|] == es;
  }

  /** One undisturbed call: thread 0 loads the current head and its swap succeeds. */
  lemma CallSucceeds(h: Heap, es: seq<Move>, l: Layout, got: (u32, u32)) returns (es': seq<Move>)
    requires Legal(h, es) && Run(h, es).history != [] && 0 !in Run(h, es).threads && l.Valid()
    requires Attempt(h, Head(Run(h, es)), l) == Some(got)
    ensures Legal(h, es') && 0 !in Run(h, es').threads
    ensures Run(h, es').history == Run(h, es).history + [got.1]
    ensures Run(h, es').claims == Run(h, es).claims + [Claim(0, l, got.0)]
  {
    es' := CallAndLoad(h, es, l);
    LegalSnoc(h, es', Swap(0));
    es' := es' + [Swap(0)];
  }

  lemma CallAndLoad(h: Heap, es: seq<Move>, l: Layout) returns (es': seq<Move>)
    requires Legal(h, es) && Run(h, es).history != [] && 0 !in Run(h, es).threads && l.Valid()
    ensures Legal(h, es')
    ensures Run(h, es') == Run(h, es).(threads := Run(h, es).threads[0 := Loaded(l, Head(Run(h, es)))])
  {
    var m := Run(h, es);
    LegalSnoc(h, es, Call(0, l));
    LegalSnoc(h, es + [Call(0, l)], Load(0, |m.history| - 1));
    es' := es + [Call(0, l)] + [Load(0, |m.history| - 1)];
    assert m.threads[0 := Loading(l)][0 := Loaded(l, Head(m))] == m.threads[0 := Loaded(l, Head(m))];
  }

  /** Past 2^31 bytes a single thread reaches the wrap: three calls take the head to 2^31 - 1, 2^31 + 1 and back to 0,
      and the last region reaches past the heap. */
  lemma RunsBackwards(h: Heap) returns (es: seq<Move>)
    requires h.InAddressSpace() && h.size > HALF
    ensures Legal(h, es) && Run(h, es).history == [0, HALF - 1, HALF + 1, 0]
    ensures !ClaimsSound(h, Run(h, es).claims)
  {
    es := PastHalf(h);
    HeadRunsBackwards(h);
    es := CallSucceeds(h, es, Layout(HALF - 1, 0), (h.base + HALF + 1, 0));
    assert !AlignedInside(h, Run(h, es).claims[2]);
  }

  lemma PastHalf(h: Heap) returns (es: seq<Move>)
    requires h.InAddressSpace() && h.size > HALF
    ensures Legal(h, es) && Run(h, es).history == [0, HALF - 1, HALF + 1]
    ensures 0 !in Run(h, es).threads && |Run(h, es).claims| == 2
  {
    var half, two := Layout(HALF - 1, 0), Layout(2, 0);
    assert half.Valid() && two.Valid();
    BytesFromHead(h, 0, half);
    es := CallSucceeds(h, [], half, (h.base, HALF - 1));
    BytesFromHead(h, HALF - 1, two);
    es := CallSucceeds(h, es, two, (h.base + HALF - 1, HALF + 1));
  }

  lemma BytesFromHead(h: Heap, head: u32, l: Layout)
    requires h.InAddressSpace() && l.Valid() && l.shift == 0 && head + l.size <= h.size
    ensures Attempt(h, head, l) == Some((h.base + head, head + l.size))
  {
    ByteAligned(h, head, l);
    AttemptAt(h, head, l, h.base + head);
  }

  lemma ByteAligned(h: Heap, head: u32, l: Layout)
    requires l.Valid() && l.shift == 0 && h.base + head < TWO32
    ensures AlignedWord(h, head, l) == h.base + head
  {
    MaskIsRoundUp(h, head, l);
    RoundUpToByte(h.base + head);
  }

  lemma AttemptAt(h: Heap, head: u32, l: Layout, aligned: u32)
    requires l.Valid() && AlignedWord(h, head, l) == aligned >= h.base && aligned - h.base + l.size <= h.size
    ensures Attempt(h, head, l) == Some((aligned, aligned - h.base + l.size))
  {
  }

  lemma RoundUpToByte(x: nat)
    ensures RoundUp(x, 1) == x
  {
  }

  /** The allocator keeps its promise on every run if and only if the heap has at most 2^31 bytes. */
  lemma SoundExactlyUpToHalf(h: Heap)
    requires h.InAddressSpace()
    ensures (forall es :: Legal(h, es) ==> ClaimsSound(h, Run(h, es).claims)) <==> h.size <= HALF
  {
    if h.size <= HALF {
      forall es | Legal(h, es)
        ensures ClaimsSound(h, Run(h, es).claims)
      {
        AllocationsAreSound(h, es);
      }
    } else {
      var es := RunsBackwards(h);
    }
  }

  // ---------------------------------------------------------------- bounded retries

  /** Thread `t` loads the current head, and its swaps fail only because the head moved. */
  ghost predicate Fair(m: Machine, e: Move, t: nat) {
    m.history != [] &&
    (e.thread == t && e.Load? ==> e.age == |m.history| - 1) &&
    (e == Retry(t) ==> Holding(m, t) && Head(m) != m.threads[t].seen)
  }

  ghost predicate FairTo(h: Heap, es: seq<Move>, t: nat)
    requires Legal(h, es)
  {
    es == [] || (FairTo(h, es[..|es| - 1], t) && Fair(Run(h, es[..|es| - 1]), es[|es| - 1], t))
  }

  function Retries(es: seq<Move>, t: nat): nat {
    if es == [] then 0 else Retries(es[..|es| - 1], t) + (if es[|es| - 1] == Retry(t) then 1 else 0)
  }

  /** Failed swaps are paid for by growth of the head. */
  lemma {:induction false} RetriesArePaid(h: Heap, es: seq<Move>, t: nat)
    requires h.InAddressSpace() && h.size <= HALF && Legal(h, es) && FairTo(h, es, t)
    ensures Run(h, es).history != []
    ensures Retries(es, t) <= (if Holding(Run(h, es), t) then Run(h, es).threads[t].seen else Head(Run(h, es)))
  {
    RunIsSafe(h, es);
    if es != [] {
      var prior, e := es[..|es| - 1], es[|es| - 1];
      RetriesArePaid(h, prior, t);
      RunIsSafe(h, prior);
      var m := Run(h, prior);
      if e.Swap? { SwapKeepsLinear(h, m, e.thread); }
      if Holding(m, t) { assert PcOk(m, m.threads[t]); }
    }
  }

  /** Whatever the other threads do, all calls of a thread that is treated fairly fail at most SIZE swaps together:
      one call makes at most SIZE + 1 attempts. */
  lemma AttemptsAreBounded(h: Heap, es: seq<Move>, t: nat)
    requires h.InAddressSpace() && h.size <= HALF && Legal(h, es) && FairTo(h, es, t)
    ensures Retries(es, t) <= h.size
  {
    RetriesArePaid(h, es, t);
    RunIsSafe(h, es);
    var m := Run(h, es);
    if Holding(m, t) { assert PcOk(m, m.threads[t]); }
  }

  // ---------------------------------------------------------------- the retry loop

  /** What happens around one attempt: how many values back its load is, what other threads ask for between the
      load and the swap, and whether the weak swap fails for no reason. */
  datatype Round = Round(age: nat, rivals: seq<Layout>, spurious: bool) {
    predicate Valid() { forall i :: 0 <= i < |rivals| ==> rivals[i].Valid() }

    /** Stale load or spurious failure. */
    predicate Disturbed() { age > 0 || spurious }
  }

  datatype Turn = Again | Null | Address(address: u32)

  function Disturbances(rounds: seq<Round>): nat {
    if rounds == [] then 0
    else Disturbances(rounds[..|rounds| - 1]) + (if rounds[|rounds| - 1].Disturbed() then 1 else 0)
  }

  /** The allocator object. The atomic head is kept with every value it has had, since a relaxed load may return any. */
  class BumpAllocator {
    const heap: Heap
    var history: seq<u32>
    ghost var served: seq<Layout>

    ghost predicate Valid()
      reads this
    {
      heap.InAddressSpace() && heap.size <= HALF && history != [] && Rising(history) &&
      Fits(heap, served) && history[|history| - 1] == Serve(heap, served).head
    }

    function Current(): u32
      requires history != []
      reads this
    {
      history[|history| - 1]
    }

    constructor (heap: Heap)
      requires heap.InAddressSpace() && heap.size <= HALF
      ensures Valid() && this.heap == heap && served == [] && Current() == 0
    {
      this.heap, history, served := heap, [0], [];
    }

    method Load(age: nat) returns (seen: u32)
      requires Valid()
      ensures seen <= Current() && (age == 0 ==> seen == Current())
    {
      seen := if age < |history| then history[|history| - 1 - age] else history[0];
    }

    /** What other threads do meanwhile: claim those of `ls` that fit. */
    method Interfere(ls: seq<Layout>)
      requires Valid() && forall i :: 0 <= i < |ls| ==> ls[i].Valid()
      modifies this
      ensures Valid() && old(served) <= served && old(Current()) <= Current()
      ensures ls == [] ==> Current() == old(Current())
    {
      for i := 0 to |ls|
        invariant Valid() && old(served) <= served && old(Current()) <= Current()
        invariant i == 0 ==> Current() == old(Current())
      {
        AttemptIsFit(heap, Current(), ls[i]);
        match Attempt(heap, Current(), ls[i])
        case None =>
        case Some(got) => Claim(ls[i], got);
      }
    }

    method Claim(l: Layout, got: (u32, u32))
      requires Valid() && l.Valid() && Attempt(heap, Current(), l) == Some(got)
      modifies this
      ensures Valid() && served == old(served) + [l] && history == old(history) + [got.1] && old(Current()) <= Current()
      ensures Serve(heap, served).addresses[|served| - 1] == got.0
    {
      AttemptIsFit(heap, Current(), l);
      ServeSnoc(heap, served, l);
      history, served := history + [got.1], served + [l];
    }

    /** The weak swap: succeeds exactly when the head is still `expected` and it does not fail spuriously. */
    method CompareExchangeWeak(expected: u32, l: Layout, got: (u32, u32), spurious: bool) returns (ok: bool)
      requires Valid() && l.Valid() && Attempt(heap, expected, l) == Some(got)
      modifies this
      ensures Valid() && ok == (!spurious && old(Current()) == expected) && old(Current()) <= Current()
      ensures !ok ==> history == old(history) && served == old(served)
      ensures ok ==> served == old(served) + [l] && history == old(history) + [got.1]
      ensures ok ==> Serve(heap, served).addresses[|served| - 1] == got.0
    {
      ok := !spurious && Current() == expected;
      if ok {
        Claim(l, got);
      }
    }

    /** The address is the one sequential service gives `l`, the last request served. */
    ghost predicate Returned(l: Layout, address: u32)
      requires Valid()
      reads this
    {
      served != [] && served[|served| - 1] == l && Serve(heap, served).addresses[|served| - 1] == address
    }

    /** What a turn makes of the head it saw; even from a stale head, null is right. */
    method Propose(seen: u32, l: Layout) returns (got: Option<(u32, u32)>)
      requires Valid() && l.Valid() && seen <= Current()
      ensures got == Attempt(heap, seen, l)
      ensures got.None? ==> Fit(heap, Current(), l).None?
    {
      AttemptIsFit(heap, seen, l);
      got := Attempt(heap, seen, l);
      if got.None? {
        RefusalIsMonotone(heap, seen, Current(), l);
      }
    }

    /** One turn of the loop. A turn that must be repeated was disturbed, or the head has grown since it began. */
    method AllocOnce(l: Layout, round: Round) returns (turn: Turn)
      requires Valid() && l.Valid() && round.Valid()
      modifies this
      ensures Valid() && old(served) <= served && old(Current()) <= Current()
      ensures turn.Again? ==> round.Disturbed() || (old(Current()) < Current() && round.rivals != [])
      ensures turn.Null? ==> Fit(heap, Current(), l).None?
      ensures turn.Address? ==> |served| > |old(served)| && Returned(l, turn.address)
    {
      var seen := Load(round.age);
      var got := Propose(seen, l);
      if got.None? {
        return Null;
      }
      Interfere(round.rivals);
      var ok := CompareExchangeWeak(seen, l, got.value, round.spurious);
      turn := if ok then Address(got.value.0) else Again;
    }

    /** `rounds` is what happens around each attempt, undisturbed once they run out. An address is the one sequential
        service gives the last request served; null means that the request does not fit at the head the call leaves.
        Every failed attempt is paid for by growth of the head or by a disturbance. */
    method Alloc(l: Layout, rounds: seq<Round>) returns (ptr: Option<u32>, ghost attempts: nat)
      requires Valid() && l.Valid()
      requires forall i :: 0 <= i < |rounds| ==> rounds[i].Valid()
      modifies this
      ensures Valid() && old(served) <= served && old(Current()) <= Current()
      ensures attempts <= Disturbances(rounds) + heap.size - old(Current()) + 1 && attempts <= |rounds| + 1
      ensures ptr.Some? ==> |served| > |old(served)| && Returned(l, ptr.value)
      ensures ptr.None? ==> Fit(heap, Current(), l).None?
    {
      attempts := 0;
      var i := 0;
      while true
        invariant 0 <= i <= |rounds| && attempts == i
        invariant Valid() && old(served) <= served && old(Current()) <= Current()
        invariant attempts <= Disturbances(rounds[..i]) + Current() - old(Current())
        decreases |rounds| - i
      {
        DisturbancesGrow(rounds, i);
        attempts := attempts + 1;
        var turn := AllocOnce(l, if i < |rounds| then rounds[i] else Round(0, [], false));
        if turn.Null? {
          return None, attempts;
        }
        if turn.Address? {
          return Some(turn.address), attempts;
        }
        DisturbancesStep(rounds, i);
        i := i + 1;
      }
    }
  }

  lemma DisturbancesStep(rounds: seq<Round>, i: nat)
    requires i < |rounds|
    ensures Disturbances(rounds[..i + 1]) == Disturbances(rounds[..i]) + (if rounds[i].Disturbed() then 1 else 0)
  {
    assert rounds[..i + 1][..i] == rounds[..i];
  }

  lemma {:induction false} DisturbancesGrow(rounds: seq<Round>, i: nat)
    requires i <= |rounds|
    ensures Disturbances(rounds[..i]) <= Disturbances(rounds)
    decreases |rounds| - i
  {
    if i < |rounds| {
      DisturbancesStep(rounds, i);
      DisturbancesGrow(rounds, i + 1);
    } else {
      assert rounds[..i] == rounds;
    }
  }
}
