/**
 * The rotating log writer. A file is the list of pieces appended to it, one per Write (what a file held
 * when it was opened counts as one piece), so that splitting a Write would show.
 */
module LogRotation {
  import opened Wrappers
  import LogTail

  type Piece = seq<LogTail.Byte>
  type File = seq<Piece>
  type Slots = seq<Option<File>>

  /** path, and path.i at index i-1, as far as there may be such files; None is a missing file. */
  datatype Disk = Disk(active: Option<File>, backups: Slots)

  datatype Limits = Limits(maxBytes: int, maxFiles: int)

  datatype Writer = Writer(disk: Disk, written: int, open: bool)

  /**
   * What the operating system refuses during a rotation: closing the active file, the renames of the
   * backups with the given numbers, the rename of the active file, opening the new one. All but the
   * renames of backups are fatal.
   */
  datatype Fault = Fault(closeFails: bool, stuck: set<int>, renameFails: bool, openFails: bool)
  {
    predicate Fatal() {
      closeFails || renameFails || openFails
    }
  }

  const FINE := Fault(false, {}, false, false)

  function Size(f: File): nat {
    if f == [] then 0 else Size(f[..|f| - 1]) + |f[|f| - 1]|
  }

  lemma SizeSnoc(f: File, p: Piece)
    ensures Size(f + [p]) == Size(f) + |p|
  {
  }

  /** How many backups a rotation can leave: maxFiles, but never fewer than the one it has just made. */
  function SlotCount(maxFiles: int): nat {
    if maxFiles < 1 then 1 else maxFiles
  }

  function Content(f: Option<File>): File {
    if f.Some? then f.value else []
  }

  /** path.N, ..., path.1, path, oldest first. */
  function Kept(b: Slots): File {
    if b == [] then [] else Content(b[|b| - 1]) + Kept(b[..|b| - 1])
  }

  function Chain(d: Disk, slots: nat): File
    requires slots <= |d.backups|
  {
    Kept(d.backups[..slots]) + Content(d.active)
  }

  // ----- one rotation, one write -----

  /** path.i is renamed to path.(i+1). */
  predicate Moves(b: Slots, stuck: set<int>, i: nat)
    requires 1 <= i <= |b|
  {
    b[i - 1].Some? && i !in stuck
  }

  /** path.i is refused its rename and nothing is renamed onto it; path.1 stays if the active file does. */
  predicate Stays(b: Slots, stuck: set<int>, still: bool, i: nat)
    requires 1 <= i <= |b|
  {
    b[i - 1].Some? && i in stuck && if i == 1 then still else !Moves(b, stuck, i - 1)
  }

  /** The backups once path.n is removed and the renames from n-1 down to 1 were tried. */
  function Renamed(b: Slots, n: nat, stuck: set<int>): (r: Slots)
    requires 1 <= n <= |b|
    ensures |r| == |b|
  {
    seq(|b|, j requires 0 <= j < |b| =>
      if j >= n then b[j]
      else if j > 0 && Moves(b, stuck, j) then b[j - 1]
      else if j + 1 < n && j + 1 in stuck then b[j]
      else None)
  }

  /** rotateLocked: after a fatal fault no later Write gets through, because the handle is closed. */
  function RotateStep(w: Writer, lim: Limits, fault: Fault): Writer
    requires Fits(w, lim)
  {
    var b := if lim.maxFiles < 1 then w.disk.backups else Renamed(w.disk.backups, lim.maxFiles, fault.stuck);
    if fault.closeFails then w.(open := false)
    else if fault.renameFails then w.(disk := w.disk.(backups := b), open := false)
    else if fault.openFails then w.(disk := Disk(None, b[0 := w.disk.active]), open := false)
    else Writer(Disk(Some([]), b[0 := w.disk.active]), 0, true)
  }

  /** The model has room for every backup a rotation can write. */
  predicate Fits(w: Writer, lim: Limits) {
    SlotCount(lim.maxFiles) <= |w.disk.backups|
  }

  predicate MustRotate(w: Writer, lim: Limits, p: Piece) {
    w.written + |p| > lim.maxBytes && w.written > 0
  }

  /** Write, of which the file takes the first `taken` bytes. */
  function WriteStep(w: Writer, lim: Limits, p: Piece, taken: nat, fault: Fault): Writer
    requires Fits(w, lim) && taken <= |p|
  {
    if !w.open then w
    else
      var v := if MustRotate(w, lim, p) then RotateStep(w, lim, fault) else w;
      if !v.open then v
      else v.(disk := v.disk.(active := Some(Content(v.disk.active) + [p[..taken]])), written := v.written + taken)
  }

  /** What reached the log: nothing when the writer is closed or closes on the way. */
  function Logged(w: Writer, lim: Limits, p: Piece, taken: nat, fault: Fault): File
    requires taken <= |p|
  {
    if !w.open || (MustRotate(w, lim, p) && fault.Fatal()) then [] else [p[..taken]]
  }

  /**
   * What one Write does: an open writer logs the piece it was given, in the same file if that stays within
   * maxBytes or the file is empty, and otherwise alone in a fresh file, the old one being path.1. Only a closed
   * writer and a fatal fault of the rotation keep a piece out of the log.
   */
  lemma WriteExactly(w: Writer, lim: Limits, p: Piece, taken: nat, fault: Fault)
    requires Fits(w, lim) && taken <= |p| && (w.open ==> w.disk.active.Some?)
    ensures var v, logged := WriteStep(w, lim, p, taken, fault), Logged(w, lim, p, taken, fault);
            var roomy, refused := w.written + |p| <= lim.maxBytes || w.written <= 0,
                                  fault.closeFails || fault.renameFails || fault.openFails;
            && (logged == [p[..taken]] <==> w.open && (roomy || !refused))
            && (logged == [] <==> !w.open || (!roomy && refused))
            && (!w.open ==> v == w)
            && (w.open && roomy ==>
                  v == Writer(Disk(Some(w.disk.active.value + logged), w.disk.backups), w.written + taken, true))
            && (w.open && !roomy ==> v.open == !refused)
            && (w.open && !roomy && !refused ==>
                  v.disk.active == Some(logged) && v.written == taken && v.disk.backups[0] == w.disk.active)
  {
    assert [] + [p[..taken]] == [p[..taken]];
  }

  /** A rotation with nothing refused moves every backup up by one and drops the oldest. */
  lemma RotationShifts(w: Writer, lim: Limits)
    requires Fits(w, lim) && lim.maxFiles >= 1
    ensures var v, n := RotateStep(w, lim, FINE), lim.maxFiles;
            v == Writer(Disk(Some([]), [w.disk.active] + w.disk.backups[..n - 1] + w.disk.backups[n..]), 0, true)
  {
    var r := Renamed(w.disk.backups, lim.maxFiles, {});
    assert forall j :: 0 < j < lim.maxFiles ==> r[j] == w.disk.backups[j - 1];
  }

  // ----- runs -----

  datatype Call = Call(p: Piece, taken: nat, fault: Fault)

  predicate Sensible(calls: seq<Call>) {
    forall i :: 0 <= i < |calls| ==> calls[i].taken <= |calls[i].p|
  }

  function After(w: Writer, lim: Limits, calls: seq<Call>): (r: Writer)
    requires Fits(w, lim) && Sensible(calls)
    ensures |r.disk.backups| == |w.disk.backups|
  {
    if calls == [] then w
    else
      var c := calls[|calls| - 1];
      WriteStep(After(w, lim, calls[..|calls| - 1]), lim, c.p, c.taken, c.fault)
  }

  /** Everything the calls put in the log, in order, one piece per Write. */
  function Stream(w: Writer, lim: Limits, calls: seq<Call>): File
    requires Fits(w, lim) && Sensible(calls)
  {
    if calls == [] then []
    else
      var c := calls[|calls| - 1];
      var front := calls[..|calls| - 1];
      Stream(w, lim, front) + Logged(After(w, lim, front), lim, c.p, c.taken, c.fault)
  }

  // ----- conservation -----

  lemma Assoc(a: File, b: File, c: File)
    ensures a + (b + c) == (a + b) + c
  {
  }

  /** What a rotation leaves of path.m, ..., path.1. */
  function Survivors(b: Slots, stuck: set<int>, still: bool, m: nat): File
    requires m <= |b|
  {
    if m == 0 then []
    else
      (if Moves(b, stuck, m) || Stays(b, stuck, still, m) then Content(b[m - 1]) else []) +
      Survivors(b, stuck, still, m - 1)
  }

  lemma KeptSnoc(b: Slots, m: nat)
    requires m < |b|
    ensures Kept(b[..m + 1]) == Content(b[m]) + Kept(b[..m])
  {
    assert b[..m + 1][..m] == b[..m];
  }

  /** path.i as it stays in place, if it does. */
  function Staying(b: Slots, n: nat, stuck: set<int>, still: bool, i: nat): File
    requires 1 <= i <= n <= |b|
  {
    if i < n && Stays(b, stuck, still, i) then Content(b[i - 1]) else []
  }

  lemma SlotAfter(b: Slots, n: nat, stuck: set<int>, still: bool, m: nat)
    requires 1 <= m < n <= |b|
    ensures Content(Renamed(b, n, stuck)[m]) == if Moves(b, stuck, m) then Content(b[m - 1])
            else Staying(b, n, stuck, still, m + 1)
    ensures Moves(b, stuck, m) ==> Staying(b, n, stuck, still, m) == Staying(b, n, stuck, still, m + 1) == []
    ensures Survivors(b, stuck, still, m) ==
            (if Moves(b, stuck, m) then Content(b[m - 1]) else Staying(b, n, stuck, still, m))
            + Survivors(b, stuck, still, m - 1)
  {
  }

  lemma Regroup(a: File, b: File, c: File, d: File)
    ensures a + (b + (c + d)) == a + ((b + c) + d)
    ensures b == [] ==> a + (b + (c + d)) == [] + ((a + c) + d)
  {
    if b == [] {
      Assoc(a, c, d);
    } else {
      Assoc(b, c, d);
    }
  }

  lemma RenamesStep(b: Slots, n: nat, stuck: set<int>, still: bool, r: Slots, tail: File, m: nat)
    requires 1 <= m < n <= |b| == |r| && r[m] == Renamed(b, n, stuck)[m]
    requires Kept(r[..m]) == Staying(b, n, stuck, still, m) + (Survivors(b, stuck, still, m - 1) + tail)
    ensures Kept(r[..m + 1]) == Staying(b, n, stuck, still, m + 1) + (Survivors(b, stuck, still, m) + tail)
  {
    KeptSnoc(r, m);
    SlotAfter(b, n, stuck, still, m);
    Regroup(Content(r[m]), Staying(b, n, stuck, still, m), Survivors(b, stuck, still, m - 1), tail);
  }

  lemma RenamesStart(b: Slots, n: nat, stuck: set<int>, still: bool, first: Option<File>)
    requires 1 <= n <= |b| && (still ==> first == Renamed(b, n, stuck)[0])
    ensures Kept(Renamed(b, n, stuck)[0 := first][..1]) ==
            Staying(b, n, stuck, still, 1) + (Survivors(b, stuck, still, 0) + if still then [] else Content(first))
  {
    var r := Renamed(b, n, stuck)[0 := first];
    KeptSnoc(r, 0);
    assert Kept(r[..0]) == [] && Kept(r[..1]) == Content(first);
    NoRest(Staying(b, n, stuck, still, 1), Content(first));
  }

  /** Whatever is refused, the files keep their order; `first` is what ends up at path.1. */
  lemma {:induction false} RenamesKeep(b: Slots, n: nat, stuck: set<int>, still: bool, first: Option<File>, m: nat)
    requires 1 <= n <= |b| && m < n && (still ==> first == Renamed(b, n, stuck)[0])
    ensures Kept(Renamed(b, n, stuck)[0 := first][..m + 1]) ==
            Staying(b, n, stuck, still, m + 1) + (Survivors(b, stuck, still, m) + if still then [] else Content(first))
  {
    var r, tail := Renamed(b, n, stuck)[0 := first], if still then [] else Content(first);
    if m == 0 {
      RenamesStart(b, n, stuck, still, first);
    } else {
      RenamesKeep(b, n, stuck, still, first, m - 1);
      RenamesStep(b, n, stuck, still, r, tail, m);
    }
  }

  /** No file but the oldest is written over: each one is renamed, stays, or holds nothing. */
  ghost predicate Harmless(b: Slots, n: nat, stuck: set<int>, still: bool)
    requires 1 <= n <= |b|
  {
    forall i :: 1 <= i < n && !Moves(b, stuck, i) && !Stays(b, stuck, still, i) ==> Content(b[i - 1]) == []
  }

  lemma {:induction false} SurvivorsAll(b: Slots, stuck: set<int>, still: bool, m: nat)
    requires m < |b|
    ensures |Survivors(b, stuck, still, m)| <= |Kept(b[..m])|
    ensures Harmless(b, m + 1, stuck, still) <==> |Survivors(b, stuck, still, m)| == |Kept(b[..m])|
    ensures |Survivors(b, stuck, still, m)| == |Kept(b[..m])| ==> Survivors(b, stuck, still, m) == Kept(b[..m])
  {
    if m > 0 {
      SurvivorsAll(b, stuck, still, m - 1);
      KeptSnoc(b, m - 1);
    }
  }

  /** What is left after a rotation: the surviving backups, then the active file. */
  lemma {:induction false} RotationLeaves(w: Writer, lim: Limits, fault: Fault)
    requires Fits(w, lim) && lim.maxFiles >= 1 && !fault.closeFails
    ensures Chain(RotateStep(w, lim, fault).disk, lim.maxFiles) ==
            Survivors(w.disk.backups, fault.stuck, fault.renameFails, lim.maxFiles - 1) + Content(w.disk.active)
  {
    var b, n, still := w.disk.backups, lim.maxFiles, fault.renameFails;
    var r, d := Renamed(b, n, fault.stuck), RotateStep(w, lim, fault).disk;
    var left, tail := Survivors(b, fault.stuck, still, n - 1), Content(w.disk.active);
    if still {
      assert d.backups == r == r[0 := r[0]];
      RenamesKeep(b, n, fault.stuck, true, r[0], n - 1);
      assert Kept(d.backups[..n]) == [] + (left + []);
    } else {
      assert d.backups == r[0 := w.disk.active];
      RenamesKeep(b, n, fault.stuck, false, w.disk.active, n - 1);
      assert Kept(d.backups[..n]) == [] + (left + tail);
    }
    Units(left, tail);
  }

  lemma NoRest(a: File, b: File)
    ensures a + ([] + []) == a && [] + ([] + b) == b
  {
  }

  lemma Units(a: File, b: File)
    ensures [] + (a + []) == a && ([] + (a + b)) + [] == a + b
  {
  }

  /**
   * A rotation drops exactly the oldest backup, everything else keeping its place in the stream, if and
   * only if no refused rename leaves a file in the way of the next one.
   */
  lemma {:induction false} RotationDrops(w: Writer, lim: Limits, fault: Fault)
    requires Fits(w, lim) && lim.maxFiles >= 1 && !fault.closeFails
    ensures var n := lim.maxFiles;
            Chain(w.disk, n) == Content(w.disk.backups[n - 1]) + Chain(RotateStep(w, lim, fault).disk, n)
            <==> Harmless(w.disk.backups, n, fault.stuck, fault.renameFails)
  {
    var b, n, still := w.disk.backups, lim.maxFiles, fault.renameFails;
    var oldest, kept, left, tail :=
      Content(b[n - 1]), Kept(b[..n - 1]), Survivors(b, fault.stuck, still, n - 1), Content(w.disk.active);
    KeptSnoc(b, n - 1);
    assert Chain(w.disk, n) == (oldest + kept) + tail;
    RotationLeaves(w, lim, fault);
    assert Chain(RotateStep(w, lim, fault).disk, n) == left + tail;
    SurvivorsAll(b, fault.stuck, still, n - 1);
    SameLength(oldest, kept, left, tail);
  }

  lemma SameLength(a: File, b: File, c: File, d: File)
    requires |b| == |c| ==> b == c
    ensures (a + b) + d == a + (c + d) <==> |b| == |c|
  {
    if |b| == |c| {
      Assoc(a, b, d);
    } else {
      assert |(a + b) + d| != |a + (c + d)|;
    }
  }

  ghost predicate Suffix(s: File, whole: File) {
    |s| <= |whole| && whole[|whole| - |s|..] == s
  }

  lemma SuffixCut(cut: File, s: File, whole: File)
    requires Suffix(cut + s, whole)
    ensures Suffix(s, whole)
  {
  }

  /** The rotation writes over no file but the oldest. */
  ghost predicate Preserves(w: Writer, lim: Limits, fault: Fault)
    requires Fits(w, lim)
  {
    lim.maxFiles >= 1 && !fault.closeFails ==> Harmless(w.disk.backups, lim.maxFiles, fault.stuck, fault.renameFails)
  }

  lemma {:induction false} RotateKeeps(w: Writer, lim: Limits, fault: Fault, whole: File)
    requires Fits(w, lim) && Preserves(w, lim, fault) && Suffix(Chain(w.disk, SlotCount(lim.maxFiles)), whole)
    ensures Suffix(Chain(RotateStep(w, lim, fault).disk, SlotCount(lim.maxFiles)), whole)
  {
    var n, v := SlotCount(lim.maxFiles), RotateStep(w, lim, fault);
    if lim.maxFiles >= 1 && !fault.closeFails {
      RotationDrops(w, lim, fault);
      SuffixCut(Content(w.disk.backups[n - 1]), Chain(v.disk, n), whole);
    } else if !fault.closeFails && !fault.renameFails {
      KeptSnoc(w.disk.backups, 0);
      KeptSnoc(v.disk.backups, 0);
      SuffixCut(Content(w.disk.backups[0]), Content(w.disk.active), whole);
    }
  }

  lemma AppendKeeps(d: Disk, n: nat, p: Piece, whole: File)
    requires n <= |d.backups| && Suffix(Chain(d, n), whole)
    ensures Suffix(Chain(d.(active := Some(Content(d.active) + [p])), n), whole + [p])
  {
  }

  lemma {:induction false} WriteKeeps(w: Writer, lim: Limits, p: Piece, taken: nat, fault: Fault, whole: File)
    requires Fits(w, lim) && taken <= |p| && Suffix(Chain(w.disk, SlotCount(lim.maxFiles)), whole)
    requires w.open && MustRotate(w, lim, p) ==> Preserves(w, lim, fault)
    ensures Suffix(Chain(WriteStep(w, lim, p, taken, fault).disk, SlotCount(lim.maxFiles)),
            whole + Logged(w, lim, p, taken, fault))
  {
    var v := if w.open && MustRotate(w, lim, p) then RotateStep(w, lim, fault) else w;
    if w.open && MustRotate(w, lim, p) {
      RotateKeeps(w, lim, fault, whole);
    }
    var piece := p[..taken];
    if v.open {
      AppendKeeps(v.disk, SlotCount(lim.maxFiles), piece, whole);
      assert Logged(w, lim, p, taken, fault) == [piece];
      assert WriteStep(w, lim, p, taken, fault).disk == v.disk.(active := Some(Content(v.disk.active) + [piece]));
    } else {
      assert Logged(w, lim, p, taken, fault) == [] && whole + [] == whole;
      assert WriteStep(w, lim, p, taken, fault).disk == v.disk;
    }
  }

  /** If the call rotates, the rotation writes over no file but the oldest. */
  ghost predicate SafeCall(w: Writer, lim: Limits, c: Call)
    requires Fits(w, lim)
  {
    w.open && MustRotate(w, lim, c.p) ==> Preserves(w, lim, c.fault)
  }

  /** No rotation of the run writes over a file but the oldest. */
  ghost predicate Careful(w: Writer, lim: Limits, calls: seq<Call>)
    requires Fits(w, lim) && Sensible(calls)
  {
    forall k :: 0 <= k < |calls| ==> SafeCall(After(w, lim, calls[..k]), lim, calls[k])
  }

  lemma CarefulFront(w: Writer, lim: Limits, calls: seq<Call>)
    requires Fits(w, lim) && Sensible(calls) && Careful(w, lim, calls) && calls != []
    ensures Sensible(calls[..|calls| - 1]) && Careful(w, lim, calls[..|calls| - 1])
  {
    var front := calls[..|calls| - 1];
    forall k | 0 <= k < |front| ensures SafeCall(After(w, lim, front[..k]), lim, front[k]) {
      assert front[..k] == calls[..k];
    }
  }

  /**
   * After any Writes the files, oldest first, hold a suffix of all that was ever logged, Write by Write,
   * as long as no refused rename of a backup leaves it in the way of the next one.
   */
  lemma {:induction false} StreamConserved(w: Writer, lim: Limits, calls: seq<Call>)
    requires Fits(w, lim) && Sensible(calls) && Careful(w, lim, calls)
    ensures var n := SlotCount(lim.maxFiles);
            Suffix(Chain(After(w, lim, calls).disk, n), Chain(w.disk, n) + Stream(w, lim, calls))
  {
    var start := Chain(w.disk, SlotCount(lim.maxFiles));
    if calls == [] {
      assert start + [] == start;
    } else {
      var front, c := calls[..|calls| - 1], calls[|calls| - 1];
      CarefulFront(w, lim, calls);
      StreamConserved(w, lim, front);
      var v := After(w, lim, front);
      assert SafeCall(v, lim, c);
      WriteKeeps(v, lim, c.p, c.taken, c.fault, start + Stream(w, lim, front));
      Assoc(start, Stream(w, lim, front), Logged(v, lim, c.p, c.taken, c.fault));
    }
  }

  /** The condition is needed: path.1 refuses its rename and is written over; what is left has a gap. */
  lemma StuckRenameLeavesGap(x: Piece, y: Piece, z: Piece) returns (w: Writer, fault: Fault)
    requires x != y
    ensures Fits(w, Limits(0, 3)) && Chain(w.disk, 3) == [x, y, z]
    ensures var v := RotateStep(w, Limits(0, 3), fault);
            v.open && Chain(v.disk, 3) == [x, z] && !Suffix(Chain(v.disk, 3), Chain(w.disk, 3))
  {
    var b: Slots := [Some([y]), Some([x]), None];
    w, fault := Writer(Disk(Some([z]), b), |z|, true), Fault(false, {1}, false, false);
    TwoBackups(b, x, y);
    RotationLeaves(w, Limits(0, 3), fault);
    Gap(x, y, z);
  }

  lemma TwoBackups(b: Slots, x: Piece, y: Piece)
    requires b == [Some([y]), Some([x]), None]
    ensures Kept(b[..3]) == [x, y] && Survivors(b, {1}, false, 2) == [x]
  {
    KeptSnoc(b, 0);
    assert Kept(b[..1]) == [y];
    KeptSnoc(b, 1);
    assert Kept(b[..2]) == [x, y];
    KeptSnoc(b, 2);
    assert Survivors(b, {1}, false, 0) == [] && Survivors(b, {1}, false, 1) == [];
  }

  lemma Gap(x: Piece, y: Piece, z: Piece)
    requires x != y
    ensures !Suffix([x, z], [x, y, z])
  {
    assert [x, y, z][1..][0] == y;
  }

  // ----- how many backups there are -----

  function Existing(b: Slots): nat {
    if b == [] then 0 else Existing(b[..|b| - 1]) + if b[|b| - 1].Some? then 1 else 0
  }

  /** No backup has a number above maxFiles. */
  ghost predicate NoneAbove(b: Slots, maxFiles: int) {
    forall j :: 0 <= j < |b| && j >= maxFiles ==> b[j].None?
  }

  lemma {:induction false} ExistingAtMost(b: Slots, n: nat)
    requires NoneAbove(b, n)
    ensures Existing(b) <= n
  {
    if b != [] {
      ExistingAtMost(b[..|b| - 1], if |b| <= n then |b| - 1 else n);
    }
  }

  lemma {:induction false} AboveKept(w: Writer, lim: Limits, calls: seq<Call>)
    requires Fits(w, lim) && Sensible(calls) && lim.maxFiles >= 1 && NoneAbove(w.disk.backups, lim.maxFiles)
    ensures NoneAbove(After(w, lim, calls).disk.backups, lim.maxFiles)
  {
    if calls != [] {
      AboveKept(w, lim, calls[..|calls| - 1]);
    }
  }

  /** A Write that rotates a file of one byte, whatever the limits. */
  lemma OneTooMany(lim: Limits) returns (w: Writer, calls: seq<Call>)
    requires lim.maxFiles < 1
    ensures Fits(w, lim) && Sensible(calls) && NoneAbove(w.disk.backups, lim.maxFiles)
    ensures Existing(After(w, lim, calls).disk.backups) == 1
  {
    var p: Piece := seq(if lim.maxBytes < 0 then 0 else lim.maxBytes, i => 0);
    w := Writer(Disk(Some([[0]]), [None]), 1, true);
    calls := [Call(p, |p|, FINE)];
    assert calls[..0] == [] && After(w, lim, calls[..0]) == w;
    var b := After(w, lim, calls).disk.backups;
    assert b == [w.disk.active] && b[..0] == [];
  }

  /** The number of backups stays within maxFiles in every run if and only if maxFiles is at least 1. */
  lemma {:induction false} BackupsExactly(lim: Limits)
    ensures (forall w, calls ::
               Fits(w, lim) && Sensible(calls) && NoneAbove(w.disk.backups, lim.maxFiles) ==>
                 Existing(After(w, lim, calls).disk.backups) <= lim.maxFiles)
            <==> lim.maxFiles >= 1
  {
    if lim.maxFiles >= 1 {
      forall w, calls | Fits(w, lim) && Sensible(calls) && NoneAbove(w.disk.backups, lim.maxFiles)
        ensures Existing(After(w, lim, calls).disk.backups) <= lim.maxFiles
      {
        AboveKept(w, lim, calls);
        ExistingAtMost(After(w, lim, calls).disk.backups, lim.maxFiles);
      }
    } else {
      var w, calls := OneTooMany(lim);
    }
  }

  // ----- sizes -----

  /** At most maxBytes, unless it is a single non-empty Write. */
  ghost predicate Bounded(f: File, lim: Limits) {
    Size(f) <= lim.maxBytes || forall i, j :: 0 <= i < |f| && 0 <= j < |f| && f[i] != [] && f[j] != [] ==> i == j
  }

  ghost predicate SizesOk(w: Writer, lim: Limits) {
    && (w.open ==> w.disk.active.Some? && w.written == Size(w.disk.active.value))
    && Bounded(Content(w.disk.active), lim)
    && forall i :: 0 <= i < |w.disk.backups| ==> Bounded(Content(w.disk.backups[i]), lim)
  }

  lemma {:induction false} SizeZero(f: File)
    requires Size(f) == 0
    ensures forall i :: 0 <= i < |f| ==> f[i] == []
  {
    if f != [] {
      SizeZero(f[..|f| - 1]);
    }
  }

  lemma BoundedSnoc(f: File, p: Piece, taken: nat, lim: Limits)
    requires taken <= |p| && (Size(f) + |p| <= lim.maxBytes || Size(f) == 0)
    ensures Bounded(f + [p[..taken]], lim)
  {
    SizeSnoc(f, p[..taken]);
    if Size(f) == 0 {
      SizeZero(f);
    }
  }

  lemma {:induction false} RotateBounded(w: Writer, lim: Limits, fault: Fault)
    requires Fits(w, lim) && SizesOk(w, lim)
    ensures SizesOk(RotateStep(w, lim, fault), lim)
  {
  }

  lemma {:induction false} AppendBounded(w: Writer, lim: Limits, p: Piece, taken: nat)
    requires SizesOk(w, lim) && w.open && taken <= |p| && !MustRotate(w, lim, p)
    ensures SizesOk(w.(disk := w.disk.(active := Some(Content(w.disk.active) + [p[..taken]])),
            written := w.written + taken), lim)
  {
    var f := Content(w.disk.active);
    SizeSnoc(f, p[..taken]);
    BoundedSnoc(f, p, taken, lim);
  }

  lemma {:induction false} WriteBounded(w: Writer, lim: Limits, p: Piece, taken: nat, fault: Fault)
    requires Fits(w, lim) && taken <= |p| && SizesOk(w, lim)
    ensures SizesOk(WriteStep(w, lim, p, taken, fault), lim)
  {
    if w.open {
      var v := if MustRotate(w, lim, p) then RotateStep(w, lim, fault) else w;
      if MustRotate(w, lim, p) {
        RotateBounded(w, lim, fault);
      }
      if v.open {
        AppendBounded(v, lim, p, taken);
      }
    }
  }

  /** Every file stays within maxBytes or holds one single Write, whatever is written and refused. */
  lemma {:induction false} FilesBounded(w: Writer, lim: Limits, calls: seq<Call>)
    requires Fits(w, lim) && Sensible(calls) && SizesOk(w, lim)
    ensures SizesOk(After(w, lim, calls), lim)
  {
    if calls != [] {
      var front, c := calls[..|calls| - 1], calls[|calls| - 1];
      FilesBounded(w, lim, front);
      WriteBounded(After(w, lim, front), lim, c.p, c.taken, c.fault);
    }
  }

  // ----- the writer in place -----

  function RenameOne(b: Slots, i: nat, refused: bool): Slots
    requires 1 <= i < |b|
  {
    if b[i - 1].None? || refused then b else b[i := b[i - 1]][i - 1 := None]
  }

  /** The renames from n-1 down to i+1 were tried on `b`, and path.n is gone. */
  ghost predicate Halfway(b: Slots, now: Slots, n: nat, stuck: set<int>, i: nat)
    requires i < n <= |b|
  {
    && |now| == |b|
    && (forall j :: 0 <= j < i || n <= j < |b| ==> now[j] == b[j])
    && now[i] == (if i + 1 < n && i + 1 in stuck then b[i] else None)
    && (forall j :: i < j < n ==> now[j] == Renamed(b, n, stuck)[j])
  }

  lemma HalfwayStep(b: Slots, now: Slots, n: nat, stuck: set<int>, i: nat)
    requires 1 <= i < n <= |b| && Halfway(b, now, n, stuck, i)
    ensures Halfway(b, RenameOne(now, i, i in stuck), n, stuck, i - 1)
  {
    var next := RenameOne(now, i, i in stuck);
    assert next[i] == Renamed(b, n, stuck)[i];
  }

  class RotatingWriter {
    const maxBytes: int
    const maxFiles: int
    var active: Option<File>
    var backups: Slots
    var written: int
    var open: bool

    function State(): Writer
      reads this
    {
      Writer(Disk(active, backups), written, open)
    }

    predicate Valid()
      reads this
    {
      SlotCount(maxFiles) <= |backups| && (open ==> active.Some?)
    }

    /** newRotatingWriter on a disk that already holds some files. */
    constructor (maxBytes: int, maxFiles: int, disk: Disk)
      requires SlotCount(maxFiles) <= |disk.backups|
      ensures Valid() && this.maxBytes == maxBytes && this.maxFiles == maxFiles
      ensures State() == Writer(Disk(Some(Content(disk.active)), disk.backups), Size(Content(disk.active)), true)
    {
      this.maxBytes, this.maxFiles := maxBytes, maxFiles;
      active, backups := Some(Content(disk.active)), disk.backups;
      written, open := Size(Content(disk.active)), true;
    }

    method OpenActive(fails: bool)
      requires Valid() && !open
      modifies this`active, this`written, this`open
      ensures fails ==> State() == old(State())
      ensures !fails ==> State() == Writer(Disk(Some(Content(old(active))), backups), Size(Content(old(active))), true)
    {
      if !fails {
        active := Some(Content(active));
        written, open := Size(active.value), true;
      }
    }

    /** os.Rename of path.i to path.(i+1); a missing source or a refusal changes nothing. */
    method Rename(i: int, refused: bool)
      requires 1 <= i < |backups|
      modifies this`backups
      ensures backups == RenameOne(old(backups), i, refused)
    {
      if backups[i - 1].Some? && !refused {
        backups := backups[i := backups[i - 1]][i - 1 := None];
      }
    }

    method ShiftBackups(stuck: set<int>)
      requires Valid()
      modifies this`backups
      ensures backups == if maxFiles < 1 then old(backups) else Renamed(old(backups), maxFiles, stuck)
    {
      if maxFiles < 1 {
        return;
      }
      backups := backups[maxFiles - 1 := None];
      var i := maxFiles - 1;
      while i >= 1
        invariant 0 <= i < maxFiles && Halfway(old(backups), backups, maxFiles, stuck, i)
        decreases i
      {
        HalfwayStep(old(backups), backups, maxFiles, stuck, i);
        Rename(i, i in stuck);
        i := i - 1;
      }
      assert backups == Renamed(old(backups), maxFiles, stuck);
    }

    method RotateLocked(fault: Fault) returns (ok: bool)
      requires Valid() && open
      modifies this
      ensures Valid() && ok == !fault.Fatal()
      ensures State() == RotateStep(old(State()), Limits(maxBytes, maxFiles), fault)
    {
      open := false;
      if fault.closeFails {
        return false;
      }
      ShiftBackups(fault.stuck);
      if fault.renameFails {
        return false;
      }
      backups := backups[0 := active];
      active := None;
      OpenActive(fault.openFails);
      return !fault.openFails;
    }

    method Write(p: Piece, taken: nat, fault: Fault) returns (n: nat)
      requires Valid() && taken <= |p|
      modifies this
      ensures Valid()
      ensures State() == WriteStep(old(State()), Limits(maxBytes, maxFiles), p, taken, fault)
      ensures n == Size(Logged(old(State()), Limits(maxBytes, maxFiles), p, taken, fault))
    {
      if !open {
        return 0;
      }
      if written + |p| > maxBytes && written > 0 {
        var ok := RotateLocked(fault);
        if !ok {
          return 0;
        }
      }
      active := Some(active.value + [p[..taken]]);
      written := written + taken;
      return taken;
    }

    method Close()
      modifies this`open
      ensures State() == old(State()).(open := false)
    {
      open := false;
    }
  }
}
