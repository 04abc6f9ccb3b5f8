/** The telemetry snapshot: one writer bumps a 32-bit sequence counter to odd, overwrites the shared cells
    and bumps it to even; one reader copies the cells between two loads of the counter and starts over
    unless both are equal and even. Steps of the two interleave arbitrarily, one memory access at a time,
    under sequential consistency. */
module Seqlock {
  import opened Bytes

  const WORD: nat := 0x1_0000_0000
  const HALF: nat := 0x8000_0000

  /** One store of the writer to a shared cell. */
  datatype Store<T> = Store(at: nat, value: T)

  function Put<T>(cells: seq<T>, s: Store<T>): (r: seq<T>)
    ensures |r| == |cells|
  {
    if s.at < |cells| then cells[s.at := s.value] else cells
  }

  function Applied<T>(cells: seq<T>, stores: seq<Store<T>>): (r: seq<T>)
    ensures |r| == |cells|
  {
    if stores == [] then cells
    else Put(Applied(cells, stores[..|stores| - 1]), stores[|stores| - 1])
  }

  /** What the cells hold after k whole publications: a matter of the writer's program alone. */
  function Contents<T>(initial: seq<T>, program: seq<seq<Store<T>>>, k: nat): (r: seq<T>)
    requires k <= |program|
    ensures |r| == |initial|
  {
    if k == 0 then initial else Applied(Contents(initial, program, k - 1), program[k - 1])
  }

  datatype Phase<T> =
    | Start
    | Copying(before: nat, from: nat, copied: seq<T>)
    | Testing(before: nat, from: nat, upto: nat, whole: bool, copied: seq<T>)

  /** A completed snapshot_read: what it returned, and how many publications were complete at its first
      and at its second load of the counter. */
  datatype Read<T> = Read(copy: seq<T>, from: nat, upto: nat)

  datatype State<T> = State(
    initial: seq<T>,
    program: seq<seq<Store<T>>>,   // the publications to make, each as its stores in order
    counter: nat,
    cells: seq<T>,
    writing: bool,
    stored: nat,                   // stores made in the publication under way
    completed: nat,
    phase: Phase<T>,
    after: nat,                    // the reader's local variable, initially anything
    returned: seq<Read<T>>)

  datatype Step =
    | WriterStep               // the next access of snapshot_publish, or of the next call of it
    | LoadBefore
    | CopyCell
    | LoadAfter
    | TestLoop(garbage: nat)   // the do-while condition; the next call's `after` starts as garbage

  /** The unbounded number of counter stores so far. */
  function Stores<T>(s: State<T>): nat {
    2 * s.completed + if s.writing then 1 else 0
  }

  function Bump(counter: nat): nat {
    (counter + 1) % WORD
  }

  function WriterNext<T>(s: State<T>): State<T> {
    if s.completed >= |s.program| then s
    else if !s.writing then s.(counter := Bump(s.counter), writing := true, stored := 0)
    else if s.stored < |s.program[s.completed]| then
      s.(cells := Put(s.cells, s.program[s.completed][s.stored]), stored := s.stored + 1)
    else s.(counter := Bump(s.counter), writing := false, completed := s.completed + 1)
  }

  /** One memory access; a step that is not enabled changes nothing. */
  function Next<T>(s: State<T>, step: Step): State<T> {
    match step
    case WriterStep => WriterNext(s)
    case LoadBefore =>
      if !s.phase.Start? then s
      else if s.counter % 2 != 0 then s.(phase := Testing(s.counter, s.completed, s.completed, false, []))
      else s.(phase := Copying(s.counter, s.completed, []))
    case CopyCell =>
      if s.phase.Copying? && |s.phase.copied| < |s.cells|
      then s.(phase := Copying(s.phase.before, s.phase.from, s.phase.copied + [s.cells[|s.phase.copied|]])) else s
    case LoadAfter =>
      if s.phase.Copying? && |s.phase.copied| == |s.cells|
      then s.(after := s.counter, phase := Testing(s.phase.before, s.phase.from, s.completed, true, s.phase.copied)) else s
    case TestLoop(garbage) =>
      if !s.phase.Testing? then s
      else if s.phase.before != s.after || s.after % 2 != 0 then s.(phase := Start)
      else s.(phase := Start, after := garbage, returned := s.returned + [Read(s.phase.copied, s.phase.from, s.phase.upto)])
  }

  function Initial<T>(initial: seq<T>, program: seq<seq<Store<T>>>, after: nat): State<T> {
    State(initial, program, 0, initial, false, 0, 0, Start, after, [])
  }

  function Run<T>(s: State<T>, steps: seq<Step>): State<T> {
    if steps == [] then s else Next(Run(s, steps[..|steps| - 1]), steps[|steps| - 1])
  }

  // ----- the invariant

  /** Whatever the reader does, the cells are what the writer's program has made of them so far. */
  ghost predicate WriterSound<T>(s: State<T>) {
    && s.completed <= |s.program|
    && s.counter == Stores(s) % WORD
    && |s.cells| == |s.initial|
    && (!s.writing ==> s.cells == Contents(s.initial, s.program, s.completed))
    && (s.writing ==>
          && s.completed < |s.program| && s.stored <= |s.program[s.completed]|
          && s.cells == Applied(Contents(s.initial, s.program, s.completed), s.program[s.completed][..s.stored]))
  }

  /** As long as no store to the counter followed the first load, what was copied is what the cells hold;
      a whole copy that was stable at the second load is what they held. */
  ghost predicate ReaderSound<T>(s: State<T>)
    requires s.completed <= |s.program|
  {
    match s.phase
    case Start => true
    case Copying(before, from, copied) =>
      && from <= s.completed && before == (2 * from) % WORD
      && |copied| <= |s.cells|
      && (Stores(s) == 2 * from ==> copied == s.cells[..|copied|])
    case Testing(before, from, upto, whole, copied) =>
      && from <= upto <= s.completed
      && (!whole ==> before % 2 == 1)
      && (whole ==>
            && before == (2 * from) % WORD
            && (s.after == (2 * upto) % WORD || s.after == (2 * upto + 1) % WORD)
            && (s.after == (2 * upto) % WORD && upto == from ==> copied == Contents(s.initial, s.program, from)))
  }

  ghost predicate ReadOk<T>(s: State<T>, r: Read<T>) {
    && r.from <= r.upto <= s.completed <= |s.program|
    && (r.upto - r.from < HALF ==> r.upto == r.from && r.copy == Contents(s.initial, s.program, r.from))
  }

  ghost predicate ReadsSound<T>(s: State<T>) {
    && (forall i :: 0 <= i < |s.returned| ==> ReadOk(s, s.returned[i]))
    && (forall i, j :: 0 <= i < j < |s.returned| ==> s.returned[i].upto <= s.returned[j].from)
    && (forall i :: 0 <= i < |s.returned| && !s.phase.Start? ==> s.returned[i].upto <= s.phase.from)
  }

  ghost predicate Inv<T>(s: State<T>) {
    WriterSound(s) && ReaderSound(s) && ReadsSound(s)
  }

  /** The counter comes back to the same even value only after a multiple of 2^31 publications. */
  lemma SameCounter(from: nat, upto: nat, w: nat)
    requires from <= upto < from + HALF && w <= 1
    requires (2 * upto + w) % WORD == (2 * from) % WORD
    ensures upto == from && w == 0
  {
  }

  lemma ParityOfCounter(n: nat)
    ensures (2 * n) % WORD % 2 == 0 && (2 * n + 1) % WORD % 2 == 1
  {
    var q := n / HALF;
    var r := n - q * HALF;
    ModOf(2 * n, WORD, q, 2 * r);
    ModOf(2 * n + 1, WORD, q, 2 * r + 1);
  }

  lemma BumpStores(n: nat)
    ensures Bump(n % WORD) == (n + 1) % WORD
  {
    var q, r := n / WORD, n % WORD;
    if r + 1 == WORD {
      ModOf(n + 1, WORD, q + 1, 0);
    } else {
      ModOf(n + 1, WORD, q, r + 1);
    }
  }

  lemma WriterKeeps<T>(s: State<T>)
    requires WriterSound(s)
    ensures WriterSound(WriterNext(s))
  {
    hide Put;
    if s.completed < |s.program| {
      BumpStores(Stores(s));
      hide Bump;
      var stores := s.program[s.completed];
      if !s.writing {
        assert stores[..0] == [];
      } else if s.stored < |stores| {
        assert stores[..s.stored + 1][..s.stored] == stores[..s.stored];
      } else {
        assert stores[..s.stored] == stores;
      }
    }
  }

  lemma WriteKeeps<T>(s: State<T>)
    requires Inv(s)
    ensures Inv(Next(s, WriterStep))
  {
    WriterKeeps(s);
    hide WriterSound, Bump, Put, Contents, Applied;
    Bounds(s);
    var t := WriterNext(s);
    assert t.returned == s.returned && t.phase == s.phase && s.completed <= t.completed <= |t.program|;
    assert forall r: Read<T> :: ReadOk(s, r) ==> ReadOk(t, r);
  }

  lemma Bounds<T>(s: State<T>)
    requires WriterSound(s)
    ensures s.completed <= |s.program| && |s.cells| == |s.initial|
    ensures s.writing ==> s.completed < |s.program|
  {
  }

  lemma ReaderSteps<T>(s: State<T>, step: Step)
    requires Inv(s) && (step.LoadBefore? || step.CopyCell? || step.LoadAfter?)
    ensures Inv(Next(s, step))
  {
    ParityOfCounter(s.completed);
    hide Contents, Applied;
  }

  lemma TestSteps<T>(s: State<T>, garbage: nat)
    requires Inv(s)
    ensures Inv(Next(s, TestLoop(garbage)))
  {
    hide Contents, Applied;
    if s.phase.Testing? && s.phase.before == s.after && s.after % 2 == 0 {
      var from, upto := s.phase.from, s.phase.upto;
      ParityOfCounter(upto);
      if upto - from < HALF {
        SameCounter(from, upto, 0);
      }
    }
  }

  /** Every interleaving keeps the invariant. */
  lemma {:induction false} RunKeeps<T>(s: State<T>, steps: seq<Step>)
    requires Inv(s)
    ensures Inv(Run(s, steps))
    ensures Run(s, steps).initial == s.initial && Run(s, steps).program == s.program
  {
    if steps != [] {
      RunKeeps(s, steps[..|steps| - 1]);
      var before, step := Run(s, steps[..|steps| - 1]), steps[|steps| - 1];
      hide Inv, Put, Bump;
      match step
      case WriterStep => WriteKeeps(before);
      case TestLoop(g) => TestSteps(before, g);
      case _ => ReaderSteps(before, step);
    }
  }

  /** Safety: whatever the writer's program and however the two interleave, a read between whose two loads
      fewer than 2^31 publications completed returns exactly what one whole number of publications left in
      the cells, the one complete at both loads; and reads never go back. */
  lemma ReadsAreWhole<T>(initial: seq<T>, program: seq<seq<Store<T>>>, after: nat, steps: seq<Step>, i: nat)
    requires i < |Run(Initial(initial, program, after), steps).returned|
    ensures var s := Run(Initial(initial, program, after), steps);
            var r := s.returned[i];
            && r.from <= r.upto <= s.completed <= |program|
            && (r.upto - r.from < HALF ==> r.upto == r.from && r.copy == Contents(initial, program, r.from))
            && (forall j :: i < j < |s.returned| ==> r.upto <= s.returned[j].from)
  {
    var s0 := Initial(initial, program, after);
    RunKeeps(s0, steps);
    hide Run, Contents, WriterSound, ReaderSound;
    assert ReadOk(Run(s0, steps), Run(s0, steps).returned[i]);
  }

  // ----- the odd counter

  /** However the writer goes on in between, a read that met an odd counter starts over, whatever value the
      variable it then tests holds. */
  lemma OddNeverLeaves<T>(s: State<T>, n: nat, garbage: nat)
    requires Inv(s) && s.phase.Start? && s.writing
    ensures var t := Next(Run(Next(s, LoadBefore), Writes(n)), TestLoop(garbage));
            t.phase.Start? && t.returned == s.returned
  {
    ParityOfCounter(s.completed);
    WritesLeaveReader(Next(s, LoadBefore), n);
  }

  function Writes(n: nat): (w: seq<Step>)
    ensures |w| == n
  {
    seq(n, _ => WriterStep)
  }

  lemma {:induction false} WritesLeaveReader<T>(s: State<T>, n: nat)
    ensures var t := Run(s, Writes(n));
            t.phase == s.phase && t.after == s.after && t.returned == s.returned
  {
    if n > 0 {
      WritesLeaveReader(s, n - 1);
      assert Writes(n)[..n - 1] == Writes(n - 1);
      hide Put, Bump;
    }
  }

  // ----- the bound is exact

  lemma {:induction false} RunConcat<T>(s: State<T>, a: seq<Step>, b: seq<Step>)
    ensures Run(s, a + b) == Run(Run(s, a), b)
  {
    hide Next;
    if b == [] {
      assert a + b == a;
    } else {
      var b' := b[..|b| - 1];
      RunConcat(s, a, b');
      assert (a + b)[..|a + b| - 1] == a + b';
    }
  }

  lemma RunOne<T>(s: State<T>, step: Step)
    ensures Run(s, [step]) == Next(s, step)
  {
    assert [step][..0] == [];
    assert Run(s, []) == s;
  }

  lemma WriteOneMore<T>(s: State<T>, n: nat)
    ensures Run(s, Writes(n + 1)) == WriterNext(Run(s, Writes(n)))
  {
    assert Writes(n + 1)[..n] == Writes(n);
  }

  const ONES: seq<Store<int>> := [Store(0, 1), Store(1, 1)]

  function Repeated(k: nat): (p: seq<seq<Store<int>>>)
    ensures |p| == k && forall i :: 0 <= i < k ==> p[i] == ONES
  {
    seq(k, _ => ONES)
  }

  /** One whole publication of ones into two cells takes four accesses. */
  lemma OnePublication(s: State<int>)
    requires !s.writing && s.completed < |s.program| && s.program[s.completed] == ONES && |s.cells| == 2
    ensures Run(s, Writes(4))
         == s.(counter := Bump(Bump(s.counter)), cells := [1, 1], stored := 2, completed := s.completed + 1)
  {
    hide Run, Bump;
    WriteOneMore(s, 0);
    WriteOneMore(s, 1);
    WriteOneMore(s, 2);
    WriteOneMore(s, 3);
    assert Run(s, Writes(0)) == s by {
      assert Writes(0) == [];
      RunNothing(s);
    }
    assert s.cells[0 := 1][1 := 1] == [1, 1];
  }

  lemma RunNothing<T>(s: State<T>)
    ensures Run(s, []) == s
  {
  }

  /** The state after k whole publications of ones. */
  function Grown(s: State<int>, k: nat): State<int> {
    if k == 0 then s
    else s.(counter := (s.counter + 2 * k) % WORD, cells := [1, 1], stored := 2, completed := s.completed + k)
  }

  lemma TwoMore(c: nat, k: nat)
    requires c < WORD && k > 0
    ensures Bump(Bump((c + 2 * (k - 1)) % WORD)) == (c + 2 * k) % WORD
  {
    BumpStores(c + 2 * (k - 1));
    BumpStores(c + 2 * (k - 1) + 1);
  }

  lemma {:induction false} PublishedTimes(s: State<int>, k: nat)
    requires !s.writing && s.completed + k <= |s.program| && |s.cells| == 2 && s.counter < WORD
    requires forall i :: s.completed <= i < s.completed + k ==> s.program[i] == ONES
    ensures Run(s, Writes(4 * k)) == Grown(s, k)
  {
    hide Run, Bump, Grown, Writes;
    if k == 0 {
      NothingWritten(s);
    } else {
      PublishedTimes(s, k - 1);
      SplitWrites(4 * (k - 1), 4);
      RunConcat(s, Writes(4 * (k - 1)), Writes(4));
      GrownMore(s, k);
      OnePublication(Grown(s, k - 1));
    }
  }

  lemma NothingWritten(s: State<int>)
    ensures Run(s, Writes(0)) == s == Grown(s, 0)
  {
    assert Writes(0) == [];
  }

  lemma SplitWrites(m: nat, n: nat)
    ensures Writes(m + n) == Writes(m) + Writes(n)
  {
  }

  lemma GrownMore(s: State<int>, k: nat)
    requires k > 0 && s.counter < WORD && |s.cells| == 2
    ensures var g := Grown(s, k - 1);
            && g.writing == s.writing && g.completed == s.completed + k - 1 && g.program == s.program && |g.cells| == 2
            && Grown(s, k) == g.(counter := Bump(Bump(g.counter)), cells := [1, 1], stored := 2, completed := g.completed + 1)
  {
    TwoMore(s.counter, k);
    hide Bump;
    if k == 1 {
      ModOf(s.counter, WORD, 0, s.counter);
    }
  }

  /** The reader copies its first cell, n publications of ones follow, and it goes on. */
  function CaughtOut(n: nat): seq<Step> {
    ([LoadBefore, CopyCell] + Writes(4 * n)) + [CopyCell, LoadAfter, TestLoop(0)]
  }

  lemma CaughtOutRun(n: nat)
    requires n > 0 && (2 * n) % WORD == 0
    ensures Run(Initial([0, 0], Repeated(n), 0), CaughtOut(n)).returned == [Read([0, 1], 0, n)]
  {
    hide Run;
    var s0: State<int> := Initial([0, 0], Repeated(n), 0);
    RunConcat(s0, [LoadBefore, CopyCell] + Writes(4 * n), [CopyCell, LoadAfter, TestLoop(0)]);
    RunConcat(s0, [LoadBefore, CopyCell], Writes(4 * n));
    RunTwo(s0, LoadBefore, CopyCell);
    var s1 := Next(Next(s0, LoadBefore), CopyCell);
    assert s1.phase == Copying(0, 0, [0]);
    PublishedTimes(s1, n);
    var s2 := Run(s1, Writes(4 * n));
    assert s2.counter == 0 && s2.cells == [1, 1] && s2.phase == Copying(0, 0, [0]) && s2.completed == n;
    CaughtOutEnd(s2, n);
  }

  lemma CaughtOutEnd(s: State<int>, n: nat)
    requires s.completed == n && s.counter == 0 && s.cells == [1, 1] && s.returned == []
    requires s.phase == Copying(0, 0, [0])
    ensures Run(s, [CopyCell, LoadAfter, TestLoop(0)]).returned == [Read([0, 1], 0, n)]
  {
    assert [CopyCell, LoadAfter] + [TestLoop(0)] == [CopyCell, LoadAfter, TestLoop(0)];
    RunConcat(s, [CopyCell, LoadAfter], [TestLoop(0)]);
    RunTwo(s, CopyCell, LoadAfter);
    var t := Next(Next(s, CopyCell), LoadAfter);
    RunOne(t, TestLoop(0));
    hide Run;
    assert [0] + [s.cells[1]] == [0, 1];
    assert t.phase == Testing(0, 0, n, true, [0, 1]) && t.after == 0;
    assert s.returned + [Read([0, 1], 0, n)] == [Read([0, 1], 0, n)];
  }

  lemma RunTwo<T>(s: State<T>, a: Step, b: Step)
    ensures Run(s, [a, b]) == Next(Next(s, a), b)
  {
    RunConcat(s, [a], [b]);
    RunOne(s, a);
    RunOne(Next(s, a), b);
    assert [a] + [b] == [a, b];
  }

  lemma {:induction false} OnesThroughout(n: nat, k: nat)
    requires k <= n
    ensures Contents([0, 0], Repeated(n), k) == if k == 0 then [0, 0] else [1, 1]
  {
    if k > 0 {
      OnesThroughout(n, k - 1);
      var cells := Contents([0, 0], Repeated(n), k - 1);
      assert ONES[..1] == [Store(0, 1)] && ONES[..1][..0] == [];
      assert Applied(cells, ONES) == cells[0 := 1][1 := 1] == [1, 1];
    }
  }

  /** The bound is exact: after exactly 2^31 publications between the two loads the counter is back, and a
      reader caught between its first and second cell returns a mixture that the cells never held between
      publications. */
  lemma TornAtTheBound(n: nat)
    requires n == HALF
    ensures var s := Run(Initial([0, 0], Repeated(n), 0), CaughtOut(n));
            && |s.returned| == 1
            && s.returned[0].upto - s.returned[0].from == n
            && forall k: nat :: k <= n ==> s.returned[0].copy != Contents([0, 0], Repeated(n), k)
  {
    hide Run, CaughtOut, Contents;
    CaughtOutRun(n);
    forall k: nat | k <= n
      ensures Contents([0, 0], Repeated(n), k) != [0, 1]
    {
      OnesThroughout(n, k);
    }
  }
}
