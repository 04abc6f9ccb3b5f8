/** The shared snapshot in memory: every flag, number and character is a cell of its own, a publication is
    the stores snapshot_publish makes in order, and what a reader finds is decoded from the cells. Bytes
    behind a terminator are left over from earlier publications and do not matter. */
module Snapshot {
  import opened Seqlock
  import opened Telemetry
  import Bytes
  import opened ChainConfig
  import ServerModel

  datatype Cell = Flag(b: bool) | Number(n: nat) | Char(c: char)

  const HOST_SIZE: nat := 256
  const HEX_SIZE: nat := 65

  /** Where the ten fields begin, and where the last one ends. */
  const BOUNDS: seq<nat> := [0, 1, 257, 258, 259, 260, 261, 326, 391, 456, 457]
  const CELLS: nat := 457

  // ----- writing

  /** copy_text: truncated to leave room for the terminator. */
  function CopyText(size: nat, t: string): (r: string)
    requires size > 0
    ensures r <= t && |r| < size
    ensures |r| == if |t| < size then |t| else size - 1
  {
    if |t| >= size then t[..size - 1] else t
  }

  function CharStores(at: nat, t: string): (w: seq<Store<Cell>>)
    ensures |w| == |t|
  {
    seq(|t|, j requires 0 <= j < |t| => Store(at + j, Char(t[j])))
  }

  /** copy_text's stores: a terminator first, then the characters, then the terminator. */
  function TextStores(at: nat, size: nat, t: string): seq<Store<Cell>>
    requires size > 0
  {
    var kept := CopyText(size, t);
    [Store(at, Char(NUL))] + CharStores(at, kept) + [Store(at + |kept|, Char(NUL))]
  }

  /** The ten fields in the order snapshot_publish writes them. */
  function Pieces(p: Status): (w: seq<seq<Store<Cell>>>)
    ensures |w| == 10
  {
    [[Store(0, Flag(p.chainConnected))],
     TextStores(1, HOST_SIZE, p.chainHost),
     [Store(257, Number(p.chainPort))],
     [Store(258, Flag(p.workAvailable))],
     [Store(259, Number(p.miners))],
     [Store(260, Number(p.hashrate))],
     TextStores(261, HEX_SIZE, p.jobId),
     TextStores(326, HEX_SIZE, p.baseId),
     TextStores(391, HEX_SIZE, p.target),
     [Store(456, Number(p.uptime))]]
  }

  function Joined<T>(pieces: seq<seq<Store<T>>>): seq<Store<T>> {
    if pieces == [] then [] else Joined(pieces[..|pieces| - 1]) + pieces[|pieces| - 1]
  }

  /** All stores of one publication. */
  function Publication(p: Status): seq<Store<Cell>> {
    Joined(Pieces(p))
  }

  // ----- reading

  function FlagAt(cells: seq<Cell>, i: nat): bool
    requires i < |cells|
  {
    cells[i].Flag? && cells[i].b
  }

  function NumberAt(cells: seq<Cell>, i: nat): nat
    requires i < |cells|
  {
    if cells[i].Number? then cells[i].n else 0
  }

  /** The C string that starts at i. */
  function TextFrom(cells: seq<Cell>, i: nat, end: nat): string
    requires end <= |cells|
    decreases end - i
  {
    if i >= end || !cells[i].Char? || cells[i].c == NUL then "" else [cells[i].c] + TextFrom(cells, i + 1, end)
  }

  function Decode(cells: seq<Cell>): Status
    requires |cells| == CELLS
  {
    Status(FlagAt(cells, 0), TextFrom(cells, 1, 257), NumberAt(cells, 257), FlagAt(cells, 258), NumberAt(cells, 259),
           NumberAt(cells, 260), TextFrom(cells, 261, 326), TextFrom(cells, 326, 391), TextFrom(cells, 391, 456),
           NumberAt(cells, 456))
  }

  /** Texts are C strings, and the three ids are 64 digits. */
  predicate Proper(p: Status) {
    && NUL !in p.chainHost && NUL !in p.jobId && NUL !in p.baseId && NUL !in p.target
    && |p.jobId| == |p.baseId| == |p.target| == 64
  }

  /** What of a status can be shown: everything but the end of an overlong host name. */
  function Shown(p: Status): Status {
    p.(chainHost := CopyText(HOST_SIZE, p.chainHost))
  }

  // ----- what stores do

  lemma {:induction false} AppliedConcat<T>(cells: seq<T>, a: seq<Store<T>>, b: seq<Store<T>>)
    ensures Applied(cells, a + b) == Applied(Applied(cells, a), b)
  {
    hide Put;
    if b == [] {
      assert a + b == a;
    } else {
      var b' := b[..|b| - 1];
      assert (a + b)[..|a + b| - 1] == a + b';
      AppliedConcat(cells, a, b');
    }
  }

  /** Publishing piece by piece is publishing. */
  lemma {:induction false} JoinedContents<T>(cells: seq<T>, pieces: seq<seq<Store<T>>>)
    ensures Applied(cells, Joined(pieces)) == Contents(cells, pieces, |pieces|)
  {
    if pieces != [] {
      var before, last := pieces[..|pieces| - 1], pieces[|pieces| - 1];
      JoinedContents(cells, before);
      AppliedConcat(cells, Joined(before), last);
      SameContents(cells, before, pieces, |before|);
    }
  }

  lemma {:induction false} SameContents<T>(cells: seq<T>, a: seq<seq<Store<T>>>, b: seq<seq<Store<T>>>, k: nat)
    requires k <= |a| && k <= |b| && a[..k] == b[..k]
    ensures Contents(cells, a, k) == Contents(cells, b, k)
  {
    if k > 0 {
      assert a[..k][..k - 1] == a[..k - 1] && b[..k][..k - 1] == b[..k - 1];
      assert a[..k][k - 1] == b[..k][k - 1];
      SameContents(cells, a, b, k - 1);
    }
  }

  predicate Within<T>(stores: seq<Store<T>>, lo: nat, hi: nat) {
    forall j :: 0 <= j < |stores| ==> lo <= stores[j].at < hi
  }

  lemma {:induction false} OutsideStays<T>(cells: seq<T>, stores: seq<Store<T>>, lo: nat, hi: nat, i: nat)
    requires Within(stores, lo, hi) && i < |cells| && !(lo <= i < hi)
    ensures Applied(cells, stores)[i] == cells[i]
  {
    if stores != [] {
      OutsideStays(cells, stores[..|stores| - 1], lo, hi, i);
    }
  }

  lemma {:induction false} CharsStored(cells: seq<Cell>, at: nat, t: string)
    requires at + |t| <= |cells|
    ensures var r := Applied(cells, CharStores(at, t));
            forall j :: 0 <= j < |t| ==> r[at + j] == Char(t[j])
  {
    if t != "" {
      var n := |t| - 1;
      CharsStored(cells, at, t[..n]);
      assert CharStores(at, t)[..n] == CharStores(at, t[..n]);
    }
  }

  lemma {:induction false} TextRead(cells: seq<Cell>, at: nat, end: nat, t: string)
    requires at + |t| < end <= |cells| && NUL !in t && cells[at + |t|] == Char(NUL)
    requires forall j :: 0 <= j < |t| ==> cells[at + j] == Char(t[j])
    ensures TextFrom(cells, at, end) == t
    decreases |t|
  {
    if t != "" {
      assert cells[at + 0] == Char(t[0]) && t[0] in t;
      forall j | 0 <= j < |t| - 1
        ensures cells[at + 1 + j] == Char(t[1..][j])
      {
        assert cells[at + (j + 1)] == Char(t[j + 1]);
      }
      TextRead(cells, at + 1, end, t[1..]);
    }
  }

  /** A text written over anything reads back, up to truncation. */
  lemma TextStored(cells: seq<Cell>, at: nat, size: nat, t: string)
    requires size > 0 && at + size <= |cells| && NUL !in t
    ensures TextFrom(Applied(cells, TextStores(at, size, t)), at, at + size) == CopyText(size, t)
  {
    hide Applied, CharStores, Put, TextFrom;
    var kept := CopyText(size, t);
    var first, chars, last := [Store(at, Char(NUL))], CharStores(at, kept), [Store(at + |kept|, Char(NUL))];
    AppliedConcat(cells, first + chars, last);
    AppliedConcat(cells, first, chars);
    var written := Applied(Applied(cells, first), chars);
    CharsStored(Applied(cells, first), at, kept);
    Terminated(written, at, kept);
    assert NUL !in kept;
    TextRead(Applied(written, last), at, at + size, kept);
  }

  lemma Terminated(cells: seq<Cell>, at: nat, t: string)
    requires at + |t| < |cells| && forall j :: 0 <= j < |t| ==> cells[at + j] == Char(t[j])
    ensures var r := Applied(cells, [Store(at + |t|, Char(NUL))]);
            r[at + |t|] == Char(NUL) && forall j :: 0 <= j < |t| ==> r[at + j] == Char(t[j])
  {
    LastStore(cells, Store(at + |t|, Char(NUL)));
    hide Applied;
  }

  lemma LastStore<T>(cells: seq<T>, s: Store<T>)
    ensures Applied(cells, [s]) == Put(cells, s)
  {
    assert [s][..0] == [];
  }

  lemma TextWithin(at: nat, size: nat, t: string)
    requires size > 0
    ensures Within(TextStores(at, size, t), at, at + size)
  {
  }

  // ----- a whole status

  ghost predicate Bounded(pieces: seq<seq<Store<Cell>>>) {
    |pieces| == 10 && forall k :: 0 <= k < 10 ==> Within(pieces[k], BOUNDS[k], BOUNDS[k + 1])
  }

  lemma PiecesBounded(p: Status)
    ensures Bounded(Pieces(p))
  {
    TextWithin(1, HOST_SIZE, p.chainHost);
    TextWithin(261, HEX_SIZE, p.jobId);
    TextWithin(326, HEX_SIZE, p.baseId);
    TextWithin(391, HEX_SIZE, p.target);
    hide TextStores;
    var w := Pieces(p);
    assert Within(w[0], 0, 1) && Within(w[2], 257, 258) && Within(w[3], 258, 259) && Within(w[4], 259, 260);
    assert Within(w[5], 260, 261) && Within(w[9], 456, 457);
    hide Within;
    forall k | 0 <= k < 10
      ensures Within(w[k], BOUNDS[k], BOUNDS[k + 1])
    {
      assert k == 0 || k == 1 || k == 2 || k == 3 || k == 4 || k == 5 || k == 6 || k == 7 || k == 8 || k == 9;
    }
  }

  lemma BoundsGrow(j: nat, k: nat)
    requires j <= k <= 10
    ensures BOUNDS[j] <= BOUNDS[k] <= CELLS
  {
  }

  /** Later fields leave earlier ones alone. */
  lemma {:induction false} FieldStays(cells: seq<Cell>, pieces: seq<seq<Store<Cell>>>, k: nat, n: nat, i: nat)
    requires |cells| == CELLS && Bounded(pieces) && k < n <= 10 && BOUNDS[k] <= i < BOUNDS[k + 1] && i < CELLS
    ensures Contents(cells, pieces, n)[i] == Contents(cells, pieces, k + 1)[i]
  {
    if n > k + 1 {
      FieldStays(cells, pieces, k, n - 1, i);
      BoundsGrow(k + 1, n - 1);
      OutsideStays(Contents(cells, pieces, n - 1), pieces[n - 1], BOUNDS[n - 1], BOUNDS[n], i);
    }
  }

  lemma {:induction false} TextAgrees(a: seq<Cell>, b: seq<Cell>, i: nat, end: nat)
    requires |a| == |b| && end <= |a| && forall j :: i <= j < end ==> a[j] == b[j]
    ensures TextFrom(a, i, end) == TextFrom(b, i, end)
    decreases end - i
  {
    if i < end {
      TextAgrees(a, b, i + 1, end);
    }
  }

  lemma ScalarField(cells: seq<Cell>, pieces: seq<seq<Store<Cell>>>, k: nat, v: Cell)
    requires |cells| == CELLS && Bounded(pieces) && k < 10 && BOUNDS[k] < CELLS && pieces[k] == [Store(BOUNDS[k], v)]
    ensures Contents(cells, pieces, 10)[BOUNDS[k]] == v
  {
    assert BOUNDS[k] < BOUNDS[k + 1] by {
      assert Within(pieces[k], BOUNDS[k], BOUNDS[k + 1]);
      assert pieces[k][0].at == BOUNDS[k];
    }
    FieldStays(cells, pieces, k, 10, BOUNDS[k]);
    LastStore(Contents(cells, pieces, k), Store(BOUNDS[k], v));
  }

  lemma TextField(cells: seq<Cell>, pieces: seq<seq<Store<Cell>>>, k: nat, at: nat, size: nat, t: string)
    requires |cells| == CELLS && Bounded(pieces) && k < 10 && at == BOUNDS[k] && at + size == BOUNDS[k + 1] <= CELLS
    requires size > 0 && NUL !in t && pieces[k] == TextStores(at, size, t)
    ensures TextFrom(Contents(cells, pieces, 10), at, at + size) == CopyText(size, t)
  {
    var now, whole := Contents(cells, pieces, k + 1), Contents(cells, pieces, 10);
    assert now == Applied(Contents(cells, pieces, k), TextStores(at, size, t));
    TextStored(Contents(cells, pieces, k), at, size, t);
    hide Contents, Applied, TextStores, TextFrom;
    forall i | at <= i < at + size
      ensures now[i] == whole[i]
    {
      FieldStays(cells, pieces, k, 10, i);
    }
    TextAgrees(now, whole, at, at + size);
  }

  lemma ScalarsStored(cells: seq<Cell>, p: Status)
    requires |cells| == CELLS && Bounded(Pieces(p))
    ensures var r := Contents(cells, Pieces(p), 10);
            && r[0] == Flag(p.chainConnected) && r[257] == Number(p.chainPort) && r[258] == Flag(p.workAvailable)
            && r[259] == Number(p.miners) && r[260] == Number(p.hashrate) && r[456] == Number(p.uptime)
  {
    hide Bounded, Contents, Applied, TextStores;
    var w := Pieces(p);
    ScalarField(cells, w, 0, Flag(p.chainConnected));
    ScalarField(cells, w, 2, Number(p.chainPort));
    ScalarField(cells, w, 3, Flag(p.workAvailable));
    ScalarField(cells, w, 4, Number(p.miners));
    ScalarField(cells, w, 5, Number(p.hashrate));
    ScalarField(cells, w, 9, Number(p.uptime));
  }

  lemma TextsStored(cells: seq<Cell>, p: Status)
    requires |cells| == CELLS && Bounded(Pieces(p)) && Proper(p)
    ensures var r := Contents(cells, Pieces(p), 10);
            && TextFrom(r, 1, 257) == CopyText(HOST_SIZE, p.chainHost) && TextFrom(r, 261, 326) == p.jobId
            && TextFrom(r, 326, 391) == p.baseId && TextFrom(r, 391, 456) == p.target
  {
    hide Bounded, Contents, Applied, TextStores, TextFrom;
    var w := Pieces(p);
    TextField(cells, w, 1, 1, HOST_SIZE, p.chainHost);
    TextField(cells, w, 6, 261, HEX_SIZE, p.jobId);
    TextField(cells, w, 7, 326, HEX_SIZE, p.baseId);
    TextField(cells, w, 8, 391, HEX_SIZE, p.target);
  }

  /** A publication over anything decodes to the status it was given. */
  lemma StatusStored(cells: seq<Cell>, p: Status)
    requires |cells| == CELLS && Proper(p)
    ensures Decode(Applied(cells, Publication(p))) == Shown(p)
  {
    hide Bounded, Contents, Applied, Pieces, Joined, TextFrom, Proper;
    PiecesBounded(p);
    JoinedContents(cells, Pieces(p));
    ScalarsStored(cells, p);
    TextsStored(cells, p);
  }

  // ----- reads of ticked statuses

  /** snapshot_zero. */
  function ZeroCells(): (cells: seq<Cell>)
    ensures |cells| == CELLS
  {
    seq(CELLS, i => ZeroCell(i))
  }

  function ZeroCell(i: int): Cell {
    if i == 0 || i == 258 then Flag(false)
    else if i == 257 || i == 259 || i == 260 || i == 456 then Number(0)
    else if 261 <= i < 325 || 326 <= i < 390 || 391 <= i < 455 then Char('0')
    else Char(NUL)
  }

  const NO_STATUS: Status := Status(false, "", 0, false, 0, 0, ZeroText(64), ZeroText(64), ZeroText(64), 0)

  lemma ZeroDecodes()
    ensures Decode(ZeroCells()) == NO_STATUS
  {
    hide TextFrom, ZeroText;
    var cells := ZeroCells();
    ZeroAt(cells, 0);
    ZeroAt(cells, 1);
    ZeroAt(cells, 257);
    ZeroAt(cells, 258);
    ZeroAt(cells, 259);
    ZeroAt(cells, 260);
    ZeroAt(cells, 456);
    hide ZeroCells;
    ZeroTextRead(cells, 261);
    ZeroTextRead(cells, 326);
    ZeroTextRead(cells, 391);
    TextRead(cells, 1, 257, "");
  }

  lemma ZeroAt(cells: seq<Cell>, i: nat)
    requires cells == ZeroCells() && i < CELLS
    ensures cells[i] == ZeroCell(i)
  {
  }

  lemma ZeroTextRead(cells: seq<Cell>, at: nat)
    requires cells == ZeroCells() && (at == 261 || at == 326 || at == 391)
    ensures TextFrom(cells, at, at + 65) == ZeroText(64)
  {
    hide TextFrom;
    var t := ZeroText(64);
    forall j | 0 <= j < |t|
      ensures cells[at + j] == Char(t[j])
    {
      ZeroAt(cells, at + j);
    }
    ZeroAt(cells, at + 64);
    TextRead(cells, at, at + 65, t);
  }

  /** The writer's program for a series of ticks. */
  function Ticks(ps: seq<Status>): (w: seq<seq<Store<Cell>>>)
    ensures |w| == |ps| && forall k :: 0 <= k < |ps| ==> w[k] == Publication(ps[k])
  {
    seq(|ps|, k requires 0 <= k < |ps| => Publication(ps[k]))
  }

  /** Whatever statuses are ticked and however the worker's accesses fall between the server's, a read
      between whose loads fewer than 2^31 ticks completed shows exactly one status: the last one ticked
      completely at both loads, or none yet. Successive reads never go back. */
  lemma ReadsShowTicks(ps: seq<Status>, after: nat, steps: seq<Step>, i: nat)
    requires forall k :: 0 <= k < |ps| ==> Proper(ps[k])
    requires i < |Run(Seqlock.Initial(ZeroCells(), Ticks(ps), after), steps).returned|
    ensures var s := Run(Seqlock.Initial(ZeroCells(), Ticks(ps), after), steps);
            var r := s.returned[i];
            && r.from <= r.upto <= s.completed <= |ps|
            && (r.upto - r.from < HALF ==>
                  && r.upto == r.from && |r.copy| == CELLS
                  && Decode(r.copy) == if r.from == 0 then NO_STATUS else Shown(ps[r.from - 1]))
            && (forall j :: i < j < |s.returned| ==> r.upto <= s.returned[j].from)
  {
    hide Run, Decode, Proper, Publication, ZeroCells, Applied;
    ReadsAreWhole(ZeroCells(), Ticks(ps), after, steps, i);
    var r := Run(Seqlock.Initial(ZeroCells(), Ticks(ps), after), steps).returned[i];
    if r.upto - r.from < HALF {
      if r.from == 0 {
        ZeroDecodes();
      } else {
        StatusStored(Contents(ZeroCells(), Ticks(ps), r.from - 1), ps[r.from - 1]);
      }
    }
  }

  lemma {:induction false} HexHasNoNul(s: seq<Bytes.byte>)
    ensures NUL !in Hex(s)
  {
    if s != [] {
      HexHasNoNul(s[1..]);
      PairHasNoNul(s[0]);
    }
  }

  lemma PairHasNoNul(b: Bytes.byte)
    ensures NUL !in Pair(b)
  {
    assert NUL !in DIGITS;
  }

  /** What telemetry_tick hands in is always of that kind. */
  lemma TickIsProper(st: ServerModel.State, entries: seq<Entry>, uptime: nat)
    requires forall k :: 0 <= k < |entries| ==> NUL !in entries[k].host
    ensures Proper(StatusOf(st, entries, uptime))
  {
    hide Hex;
    HexHasNoNul(st.jobId);
    HexHasNoNul(st.base);
    if |st.template| >= 220 {
      HexHasNoNul(st.template[188..220]);
    }
  }
}
