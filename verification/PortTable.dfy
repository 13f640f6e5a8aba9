/** The table of open ports kept by the Win32 termios emulation: a doubly linked
  * list with its own descriptor allocator. `Ports` holds the heap structure and the
  * operations that update it in place; `PortSpec` holds the sequence the list stands
  * for, and what every run of opens and closes keeps true of it. */
module PortSpec {

  /** What the list stands for, node by node. */
  datatype Entry = Entry(filename: string, fd: nat, handle: int)

  /** What a call returns, and the table it leaves behind. */
  datatype Outcome = Outcome(status: int, table: seq<Entry>)

  const INVALID_HANDLE_VALUE: int := -1

  function Fds(t: seq<Entry>): (fds: seq<nat>)
    ensures |fds| == |t| && forall i :: 0 <= i < |t| ==> fds[i] == t[i].fd
  {
    seq(|t|, i requires 0 <= i < |t| => t[i].fd)
  }

  ghost predicate Ascending(fds: seq<nat>) {
    (forall i :: 0 <= i < |fds| ==> 0 < fds[i]) &&
    forall i, j :: 0 <= i < j < |fds| ==> fds[i] < fds[j]
  }

  ghost predicate Distinct(fds: seq<nat>) {
    forall i, j :: 0 <= i < j < |fds| ==> fds[i] != fds[j]
  }

  /** The first n descriptors are 1, 2, .., n, in that order. */
  predicate DenseTo(fds: seq<nat>, n: nat)
    requires n <= |fds|
  {
    forall i :: 0 <= i < n ==> fds[i] == i + 1
  }

  /** The descriptors are exactly 1, 2, .., n, in that order. */
  predicate Dense(fds: seq<nat>) {
    DenseTo(fds, |fds|)
  }

  predicate Known(t: seq<Entry>, filename: string) {
    exists i :: 0 <= i < |t| && t[i].filename == filename
  }

  /** The descriptor the allocator hands out: one more than the length of the
    * longest prefix that reads 1, 2, 3, .. */
  function FreeFd(fds: seq<nat>): (fd: nat)
    ensures 1 <= fd <= |fds| + 1
    ensures DenseTo(fds, fd - 1)
    ensures fd <= |fds| ==> fds[fd - 1] != fd
  {
    if Dense(fds) then |fds| + 1 else FreeFd(fds[..|fds| - 1])
  }

  lemma {:induction false} FreeFdUnique(fds: seq<nat>, fd: nat)
    requires 1 <= fd <= |fds| + 1 && DenseTo(fds, fd - 1)
    requires fd <= |fds| ==> fds[fd - 1] != fd
    ensures fd == FreeFd(fds)
  {
  }

  /** The first position whose descriptor is `fd`, or the length when there is none. */
  function IndexOf(fds: seq<nat>, fd: int): (k: nat)
    ensures k <= |fds|
    ensures k < |fds| ==> fds[k] == fd
    ensures forall j :: 0 <= j < k ==> fds[j] != fd
  {
    if fds == [] || fds[0] == fd then 0 else 1 + IndexOf(fds[1..], fd)
  }

  /** serial_close: the status and the table left behind. */
  function Closed(t: seq<Entry>, fd: int): (r: Outcome) {
    if t == [] || t[0].handle == 0 then Outcome(0, t)
    else
      var k := IndexOf(Fds(t), fd);
      if fd <= 0 || k == |t| then Outcome(-1, t) else Outcome(0, t[..k] + t[k + 1..])
  }

  /** serial_open, where the device answers with a handle and says whether the rest of
    * the set-up succeeds: the status and the table left behind. */
  function Opened(t: seq<Entry>, filename: string, handle: int, ok: bool): (r: Outcome) {
    if Known(t, filename) then Outcome(-1, t)
    else
      var fd := FreeFd(Fds(t));
      var grown := t + [Entry(filename, fd, handle)];
      if handle == INVALID_HANDLE_VALUE || !ok then Outcome(-1, Closed(grown, fd).table) else Outcome(fd, grown)
  }

  // ---------------------------------------------------------------- one allocation

  /** On an ascending table the allocator returns the least positive descriptor
    * that is not in use. */
  lemma LeastFree(fds: seq<nat>)
    requires Ascending(fds)
    ensures FreeFd(fds) !in fds
    ensures forall d :: 1 <= d < FreeFd(fds) ==> d in fds
  {
    var fd := FreeFd(fds);
    forall d | 1 <= d < fd ensures d in fds {
      assert fds[d - 1] == d;
    }
    forall k | 0 <= k < |fds| ensures fds[k] != fd {
      if k >= fd - 1 && fd >= 2 {
        assert fds[fd - 2] == fd - 1;
      }
    }
  }

  /** Two opens in a row get different descriptors exactly when the table was 1..n. */
  lemma TwoOpensDiffer(fds: seq<nat>)
    ensures FreeFd(fds) != FreeFd(fds + [FreeFd(fds)]) <==> Dense(fds)
  {
    var fd := FreeFd(fds);
    var grown := fds + [fd];
    if Dense(fds) {
      FreeFdUnique(fds, |fds| + 1);
      assert Dense(grown);
      FreeFdUnique(grown, |grown| + 1);
    } else {
      FreeFdUnique(grown, fd);
    }
  }

  /** Appending at the tail keeps an ascending table ascending exactly when it was 1..n. */
  lemma TailAppendKeepsOrder(fds: seq<nat>)
    requires Ascending(fds)
    ensures Ascending(fds + [FreeFd(fds)]) <==> Dense(fds)
  {
    var fd := FreeFd(fds);
    var grown := fds + [fd];
    LeastFree(fds);
    if Dense(fds) {
      FreeFdUnique(fds, |fds| + 1);
    } else {
      assert grown[fd - 1] == fds[fd - 1] && grown[|fds|] == fd;
      assert fds[fd - 1] >= fd by {
        if fd >= 2 { assert fds[fd - 2] == fd - 1; }
      }
    }
  }

  /** A new entry closed again by its descriptor: what is left. */
  function Undone(t: seq<Entry>, e: Entry): seq<Entry> {
    var k := IndexOf(Fds(t), e.fd);
    if k < |t| then t[..k] + t[k + 1..] + [e] else t
  }

  lemma CloseAppended(t: seq<Entry>, e: Entry)
    requires (t + [e])[0].handle != 0 && 0 < e.fd
    ensures Closed(t + [e], e.fd).table == Undone(t, e)
  {
    var grown := t + [e];
    var k, m := IndexOf(Fds(t), e.fd), IndexOf(Fds(grown), e.fd);
    assert Fds(grown) == Fds(t) + [e.fd];
    assert Fds(grown)[|t|] == e.fd;
    assert k < |t| ==> Fds(grown)[k] == e.fd;
    assert m < |t| ==> Fds(t)[m] == e.fd;
    assert k == m;
    assert k == |t| ==> grown[..k] + grown[k + 1..] == t;
    assert k < |t| ==> grown[..k] + grown[k + 1..] == t[..k] + t[k + 1..] + [e];
  }

  lemma UndoneRestores(t: seq<Entry>, e: Entry)
    requires !Known(t, e.filename)
    ensures |Undone(t, e)| == |t| && (Undone(t, e) == t <==> e.fd !in Fds(t))
  {
    var k := IndexOf(Fds(t), e.fd);
    if k < |t| {
      assert Undone(t, e)[|t| - 1] == e;
      assert Fds(t)[k] == e.fd;
    }
  }

  /** A refused set-up leaves the table as it was exactly when the head of the table has a
    * handle and the descriptor handed out was not already in use. Otherwise the
    * clean-up closes somebody else's port, or none. */
  lemma FailedOpenRestores(t: seq<Entry>, filename: string, handle: int)
    requires !Known(t, filename)
    ensures Opened(t, filename, handle, false).table == t
       <==> (if t == [] then handle else t[0].handle) != 0 && FreeFd(Fds(t)) !in Fds(t)
  {
    var e := Entry(filename, FreeFd(Fds(t)), handle);
    if (t + [e])[0].handle != 0 {
      CloseAppended(t, e);
      UndoneRestores(t, e);
    } else {
      assert |t + [e]| == |t| + 1;
    }
  }

  /** The three tables a serial_open can leave. */
  lemma OpenedTables(t: seq<Entry>, filename: string, handle: int, ok: bool)
    ensures var e := Entry(filename, FreeFd(Fds(t)), handle);
      var after := Opened(t, filename, handle, ok).table;
      || after == t
      || after == t + [e]
      || (!Known(t, filename) && after == Undone(t, e))
  {
    var e := Entry(filename, FreeFd(Fds(t)), handle);
    if (t + [e])[0].handle != 0 {
      CloseAppended(t, e);
    }
  }

  /** The answer of serial_open: a descriptor exactly when the name was unknown, the handle is valid and the set-up succeeds; it is
    * then the one the port is stored under, at the end of an otherwise unchanged table, and a lookup of it finds that port
    * exactly when the descriptor was not already in the table. */
  lemma OpenedMeans(t: seq<Entry>, filename: string, handle: int, ok: bool)
    ensures var r := Opened(t, filename, handle, ok);
      && (r.status > 0 <==> !Known(t, filename) && handle != INVALID_HANDLE_VALUE && ok)
      && (r.status <= 0 ==> r.status == -1)
      && (r.status > 0 ==> |r.table| == |t| + 1 && r.table[..|t|] == t && r.table[|t|] == Entry(filename, r.status, handle))
      && (r.status > 0 ==> (r.table[IndexOf(Fds(r.table), r.status)] == Entry(filename, r.status, handle) <==> r.status !in Fds(t)))
  {
    var r := Opened(t, filename, handle, ok);
    if r.status > 0 {
      assert Fds(r.table)[|t|] == r.status;
      var k := IndexOf(Fds(r.table), r.status);
      if k < |t| {
        assert Fds(t)[k] == Fds(r.table)[k] && r.table[k] == t[k];
      }
      if r.status in Fds(t) {
        var i :| 0 <= i < |t| && Fds(t)[i] == r.status;
        assert Fds(r.table)[i] == r.status;
      }
    }
  }

  predicate FirstWith(t: seq<Entry>, fd: int, k: nat)
    requires k < |t|
  {
    t[k].fd == fd && forall j :: 0 <= j < k ==> t[j].fd != fd
  }

  /** The answer of serial_close: -1 exactly for a descriptor that is not in a table whose head has a handle. It takes out the first
    * entry with the descriptor, and nothing when the answer is -1 or the head has no handle. */
  lemma ClosedMeans(t: seq<Entry>, fd: int)
    requires forall i :: 0 <= i < |t| ==> t[i].fd > 0
    ensures var r := Closed(t, fd);
      && (r.status == 0 || r.status == -1)
      && (r.status == -1 <==> t != [] && t[0].handle != 0 && forall i :: 0 <= i < |t| ==> t[i].fd != fd)
      && (r.table == t <==> r.status == -1 || t == [] || t[0].handle == 0)
      && (r.table != t ==> exists k :: 0 <= k < |t| && FirstWith(t, fd, k) && r.table == t[..k] + t[k + 1..])
  {
    var r := Closed(t, fd);
    var k := IndexOf(Fds(t), fd);
    if k < |t| {
      assert t[k].fd == fd && forall j :: 0 <= j < k ==> t[j].fd == Fds(t)[j] != fd;
      assert |t[..k] + t[k + 1..]| == |t| - 1;
    } else {
      assert forall i :: 0 <= i < |t| ==> t[i].fd == Fds(t)[i] != fd;
    }
  }

  // ---------------------------------------------------------------- whole runs

  datatype Op = Open(filename: string, handle: int, ok: bool) | Close(fd: int)

  function Step(t: seq<Entry>, op: Op): seq<Entry> {
    match op
    case Open(filename, handle, ok) => Opened(t, filename, handle, ok).table
    case Close(fd) => Closed(t, fd).table
  }

  function Run(ops: seq<Op>): seq<Entry> {
    if ops == [] then [] else Step(Run(ops[..|ops| - 1]), ops[|ops| - 1])
  }

  lemma RunSnoc(ops: seq<Op>, k: nat)
    requires k < |ops|
    ensures Run(ops[..k + 1]) == Step(Run(ops[..k]), ops[k])
  {
    assert ops[..k + 1][..k] == ops[..k];
  }

  ghost predicate WellNamed(t: seq<Entry>) {
    (forall i :: 0 <= i < |t| ==> 0 < t[i].fd) &&
    forall i, j :: 0 <= i < j < |t| ==> t[i].filename != t[j].filename
  }

  lemma ClosedKeepsNames(t: seq<Entry>, fd: int)
    requires WellNamed(t)
    ensures WellNamed(Closed(t, fd).table)
  {
  }

  lemma StepKeepsNames(t: seq<Entry>, op: Op)
    requires WellNamed(t)
    ensures WellNamed(Step(t, op))
  {
    match op
    case Open(filename, handle, ok) =>
      if !Known(t, filename) {
        var fd := FreeFd(Fds(t));
        ClosedKeepsNames(t + [Entry(filename, fd, handle)], fd);
      }
    case Close(fd) => ClosedKeepsNames(t, fd);
  }

  /** In every run, with whatever failures, no port is open twice: the names in the
    * table are pairwise distinct and every descriptor is positive. */
  lemma {:induction false} NamesStayDistinct(ops: seq<Op>)
    ensures WellNamed(Run(ops))
  {
    if ops != [] {
      NamesStayDistinct(ops[..|ops| - 1]);
      StepKeepsNames(Run(ops[..|ops| - 1]), ops[|ops| - 1]);
    }
  }

  lemma ClosedKeepsAscending(t: seq<Entry>, fd: int)
    requires Ascending(Fds(t))
    ensures Ascending(Fds(Closed(t, fd).table)) && |Closed(t, fd).table| <= |t|
  {
  }

  /** From an ascending table, one step keeps the order unless it adds a port to a table with a gap. */
  lemma StepKeepsOrder(t: seq<Entry>, op: Op)
    requires Ascending(Fds(t))
    ensures Ascending(Fds(Step(t, op))) <==> (|Step(t, op)| > |t| ==> Dense(Fds(t)))
  {
    match op
    case Open(filename, handle, ok) =>
      var e := Entry(filename, FreeFd(Fds(t)), handle);
      OpenedTables(t, filename, handle, ok);
      LeastFree(Fds(t));
      if !Known(t, filename) { UndoneRestores(t, e); }
      assert Fds(t + [e]) == Fds(t) + [e.fd];
      TailAppendKeepsOrder(Fds(t));
    case Close(fd) => ClosedKeepsAscending(t, fd);
  }

  ghost predicate AlwaysAscending(ops: seq<Op>) {
    forall k :: 0 <= k <= |ops| ==> Ascending(Fds(Run(ops[..k])))
  }

  /** The run never adds a port while the table has a gap. */
  ghost predicate GrowsOnlyWhenDense(ops: seq<Op>) {
    forall k :: 0 <= k < |ops| && |Step(Run(ops[..k]), ops[k])| > |Run(ops[..k])| ==> Dense(Fds(Run(ops[..k])))
  }

  lemma {:induction false} DisciplinedPrefix(ops: seq<Op>, k: nat)
    requires k <= |ops| && GrowsOnlyWhenDense(ops)
    ensures Ascending(Fds(Run(ops[..k])))
  {
    if k > 0 {
      DisciplinedPrefix(ops, k - 1);
      RunSnoc(ops, k - 1);
      StepKeepsOrder(Run(ops[..k - 1]), ops[k - 1]);
    }
  }

  /** As the code stands, the tables of a run are all ascending (so that the allocator's
    * assumption holds and no two ports share a descriptor) exactly when the
    * run adds ports only to tables that read 1..n. */
  lemma OrderedRunsExactly(ops: seq<Op>)
    ensures AlwaysAscending(ops) <==> GrowsOnlyWhenDense(ops)
    ensures AlwaysAscending(ops) ==> Distinct(Fds(Run(ops)))
  {
    if AlwaysAscending(ops) {
      assert ops[..|ops|] == ops;
      forall k | 0 <= k < |ops| ensures |Step(Run(ops[..k]), ops[k])| > |Run(ops[..k])| ==> Dense(Fds(Run(ops[..k]))) {
        RunSnoc(ops, k);
        StepKeepsOrder(Run(ops[..k]), ops[k]);
      }
    }
    if GrowsOnlyWhenDense(ops) {
      forall k | 0 <= k <= |ops| ensures Ascending(Fds(Run(ops[..k]))) {
        DisciplinedPrefix(ops, k);
      }
    }
  }

  lemma ClosedKeepsDistinct(t: seq<Entry>, fd: int)
    requires Distinct(Fds(t))
    ensures Distinct(Fds(Closed(t, fd).table))
  {
  }

  lemma MovedToTheEnd(t: seq<Entry>, k: nat, e: Entry)
    requires k < |t| && Distinct(Fds(t)) && t[k].fd == e.fd
    ensures Distinct(Fds(t[..k] + t[k + 1..] + [e]))
  {
    assert Fds(t)[k] == e.fd;
    assert forall i :: 0 <= i < |t| && i != k ==> Fds(t)[i] != e.fd;
  }

  lemma DistinctOneMore(fds: seq<nat>, fd: nat)
    requires Distinct(fds)
    ensures Distinct(fds + [fd]) <==> fd !in fds
  {
    if fd in fds {
      var i :| 0 <= i < |fds| && fds[i] == fd;
      assert (fds + [fd])[i] == (fds + [fd])[|fds|];
    }
  }

  lemma UndoneKeepsDistinct(t: seq<Entry>, e: Entry)
    requires Distinct(Fds(t))
    ensures Distinct(Fds(Undone(t, e))) && |Undone(t, e)| == |t|
  {
    var k := IndexOf(Fds(t), e.fd);
    if k < |t| { MovedToTheEnd(t, k, e); }
  }

  /** From a table of distinct descriptors, one step keeps them distinct unless it adds a port while the first descriptor
    * out of place is in use further back. */
  lemma StepKeepsDistinct(t: seq<Entry>, op: Op)
    requires Distinct(Fds(t))
    ensures Distinct(Fds(Step(t, op))) <==> (|Step(t, op)| > |t| ==> FreeFd(Fds(t)) !in Fds(t))
  {
    match op
    case Open(filename, handle, ok) =>
      var e := Entry(filename, FreeFd(Fds(t)), handle);
      OpenedTables(t, filename, handle, ok);
      UndoneKeepsDistinct(t, e);
      assert Fds(t + [e]) == Fds(t) + [e.fd];
      DistinctOneMore(Fds(t), e.fd);
    case Close(fd) => ClosedKeepsDistinct(t, fd);
  }

  ghost predicate AlwaysDistinct(ops: seq<Op>) {
    forall k :: 0 <= k <= |ops| ==> Distinct(Fds(Run(ops[..k])))
  }

  /** No op adds a port to a table that reads 1..p and then something else, and has p + 1 behind that. */
  ghost predicate GrowsOnlyWhenFree(ops: seq<Op>) {
    forall k :: 0 <= k < |ops| && |Step(Run(ops[..k]), ops[k])| > |Run(ops[..k])| ==>
      FreeFd(Fds(Run(ops[..k]))) !in Fds(Run(ops[..k]))
  }

  lemma {:induction false} FreePrefix(ops: seq<Op>, k: nat)
    requires k <= |ops| && GrowsOnlyWhenFree(ops)
    ensures Distinct(Fds(Run(ops[..k])))
  {
    if k > 0 {
      FreePrefix(ops, k - 1);
      RunSnoc(ops, k - 1);
      StepKeepsDistinct(Run(ops[..k - 1]), ops[k - 1]);
    }
  }

  /** As the code stands, no two ports share a descriptor anywhere in a run exactly when no op of the run adds a port while
    * the descriptor the allocator picks is already in the table. */
  lemma DistinctRunsExactly(ops: seq<Op>)
    ensures AlwaysDistinct(ops) <==> GrowsOnlyWhenFree(ops)
  {
    if AlwaysDistinct(ops) {
      forall k | 0 <= k < |ops| && |Step(Run(ops[..k]), ops[k])| > |Run(ops[..k])|
        ensures FreeFd(Fds(Run(ops[..k]))) !in Fds(Run(ops[..k]))
      {
        RunSnoc(ops, k);
        StepKeepsDistinct(Run(ops[..k]), ops[k]);
      }
    }
    if GrowsOnlyWhenFree(ops) {
      forall k | 0 <= k <= |ops| ensures Distinct(Fds(Run(ops[..k]))) {
        FreePrefix(ops, k);
      }
    }
  }

  /** One open that succeeds, seen from the table it starts from. */
  lemma RunOpen(ops: seq<Op>, k: nat, t: seq<Entry>, fd: nat)
    requires k < |ops| && ops[k].Open? && ops[k].ok && ops[k].handle != INVALID_HANDLE_VALUE
    requires Run(ops[..k]) == t && !Known(t, ops[k].filename)
    requires 1 <= fd <= |t| + 1 && DenseTo(Fds(t), fd - 1) && (fd <= |t| ==> t[fd - 1].fd != fd)
    ensures Run(ops[..k + 1]) == t + [Entry(ops[k].filename, fd, ops[k].handle)]
  {
    assert ops[..k + 1][..k] == ops[..k];
    FreeFdUnique(Fds(t), fd);
  }

  /** One close of the port at position i, the first with its descriptor. */
  lemma RunClose(ops: seq<Op>, k: nat, t: seq<Entry>, i: nat)
    requires k < |ops| && ops[k].Close? && Run(ops[..k]) == t
    requires i < |t| && t[0].handle != 0 && t[i].fd == ops[k].fd && t[i].fd > 0
    requires forall j :: 0 <= j < i ==> t[j].fd != ops[k].fd
    ensures Run(ops[..k + 1]) == t[..i] + t[i + 1..]
  {
    assert ops[..k + 1][..k] == ops[..k];
    assert Fds(t)[i] == ops[k].fd;
  }

  const MISORDERED_RUN: seq<Op> :=
    [Open("a", 9, true), Open("b", 9, true), Open("c", 9, true), Close(2),
     Open("d", 9, true), Open("e", 9, true), Close(2)]

  lemma MisorderedOpens()
    ensures Run(MISORDERED_RUN[..3]) == [Entry("a", 1, 9), Entry("b", 2, 9), Entry("c", 3, 9)]
  {
    var ops := MISORDERED_RUN;
    var a, b := Entry("a", 1, 9), Entry("b", 2, 9);
    RunOpen(ops, 0, [], 1);
    RunOpen(ops, 1, [a], 2);
    RunOpen(ops, 2, [a, b], 3);
  }

  lemma MisorderedFirstHalf()
    ensures Run(MISORDERED_RUN[..4]) == [Entry("a", 1, 9), Entry("c", 3, 9)]
  {
    MisorderedOpens();
    var a, b, c := Entry("a", 1, 9), Entry("b", 2, 9), Entry("c", 3, 9);
    var t := [a, b, c];
    assert MISORDERED_RUN[3] == Close(2) && t[0].fd == 1 && t[1].fd == 2;
    RunClose(MISORDERED_RUN, 3, t, 1);
    assert t[..1] == [a] && t[2..] == [c];
  }

  lemma MisorderedFourth()
    ensures Run(MISORDERED_RUN[..5]) == [Entry("a", 1, 9), Entry("c", 3, 9), Entry("d", 2, 9)]
  {
    MisorderedFirstHalf();
    var a, c := Entry("a", 1, 9), Entry("c", 3, 9);
    assert MISORDERED_RUN[4] == Open("d", 9, true) && a.filename != "d" && c.filename != "d";
    RunOpen(MISORDERED_RUN, 4, [a, c], 2);
  }

  lemma MisorderedSecondHalf()
    ensures Run(MISORDERED_RUN[..6]) == [Entry("a", 1, 9), Entry("c", 3, 9), Entry("d", 2, 9), Entry("e", 2, 9)]
  {
    MisorderedFourth();
    var a, c, d := Entry("a", 1, 9), Entry("c", 3, 9), Entry("d", 2, 9);
    assert MISORDERED_RUN[5] == Open("e", 9, true) && a.filename != "e" && c.filename != "e" && d.filename != "e";
    RunOpen(MISORDERED_RUN, 5, [a, c, d], 2);
  }

  /** Discipline is needed: open three ports, close the second, open two more. Two ports now
    * share descriptor 2, and closing 2 closes the one opened first. */
  lemma TailAppendDuplicates()
    ensures Run(MISORDERED_RUN[..6]) == [Entry("a", 1, 9), Entry("c", 3, 9), Entry("d", 2, 9), Entry("e", 2, 9)]
    ensures Run(MISORDERED_RUN[..7]) == [Entry("a", 1, 9), Entry("c", 3, 9), Entry("e", 2, 9)]
  {
    MisorderedSecondHalf();
    RunClose(MISORDERED_RUN, 6, Run(MISORDERED_RUN[..6]), 2);
  }

  // ---------------------------------------------------------------- insertion in descriptor order

  /** serial_open with the new node placed where its descriptor belongs. */
  function OpenedInOrder(t: seq<Entry>, filename: string, handle: int, ok: bool): (r: Outcome) {
    if Known(t, filename) then Outcome(-1, t)
    else
      var fd := FreeFd(Fds(t));
      var grown := t[..fd - 1] + [Entry(filename, fd, handle)] + t[fd - 1..];
      if handle == INVALID_HANDLE_VALUE || !ok then Outcome(-1, Closed(grown, fd).table) else Outcome(fd, grown)
  }

  function RunInOrder(ops: seq<Op>): seq<Entry> {
    if ops == [] then []
    else
      var t := RunInOrder(ops[..|ops| - 1]);
      match ops[|ops| - 1]
      case Open(filename, handle, ok) => OpenedInOrder(t, filename, handle, ok).table
      case Close(fd) => Closed(t, fd).table
  }

  lemma AscendingInsert(fds: seq<nat>, p: nat, fd: nat, grown: seq<nat>)
    requires Ascending(fds) && p <= |fds| && 0 < fd && |grown| == |fds| + 1
    requires (p > 0 ==> fds[p - 1] < fd) && (p < |fds| ==> fd < fds[p])
    requires forall k {:trigger grown[k]} :: 0 <= k < |grown| ==> grown[k] == if k < p then fds[k] else if k == p then fd else fds[k - 1]
    ensures Ascending(grown)
  {
  }

  lemma InsertFdKeepsAscending(fds: seq<nat>, grown: seq<nat>)
    requires Ascending(fds)
    requires var p := FreeFd(fds) - 1; grown == fds[..p] + [p + 1] + fds[p..]
    ensures Ascending(grown)
  {
    var p := FreeFd(fds) - 1;
    assert p > 0 ==> fds[p - 1] == p;
    AscendingInsert(fds, p, p + 1, grown);
  }

  lemma InsertKeepsAscending(t: seq<Entry>, e: Entry)
    requires Ascending(Fds(t)) && e.fd == FreeFd(Fds(t))
    ensures var grown := t[..e.fd - 1] + [e] + t[e.fd - 1..];
      Ascending(Fds(grown)) && Fds(grown)[e.fd - 1] == e.fd
  {
    var grown := t[..e.fd - 1] + [e] + t[e.fd - 1..];
    assert Fds(grown) == Fds(t)[..e.fd - 1] + [e.fd] + Fds(t)[e.fd - 1..];
    InsertFdKeepsAscending(Fds(t), Fds(grown));
  }

  /** Insertion in order needs no discipline: every run keeps the descriptors ascending. */
  lemma {:induction false} OrderedRunsStayOrdered(ops: seq<Op>)
    ensures Ascending(Fds(RunInOrder(ops))) && Distinct(Fds(RunInOrder(ops)))
  {
    if ops != [] {
      var t := RunInOrder(ops[..|ops| - 1]);
      OrderedRunsStayOrdered(ops[..|ops| - 1]);
      match ops[|ops| - 1]
      case Open(filename, handle, ok) =>
        var e := Entry(filename, FreeFd(Fds(t)), handle);
        InsertKeepsAscending(t, e);
        ClosedKeepsAscending(t[..e.fd - 1] + [e] + t[e.fd - 1..], e.fd);
      case Close(fd) => ClosedKeepsAscending(t, fd);
    }
  }

  lemma ClosedAt(t: seq<Entry>, i: nat)
    requires Ascending(Fds(t)) && i < |t| && t[0].handle != 0
    ensures IndexOf(Fds(t), t[i].fd) == i
    ensures Closed(t, t[i].fd) == Outcome(0, t[..i] + t[i + 1..])
  {
  }

  lemma InsertAt(t: seq<Entry>, p: nat, e: Entry)
    requires p <= |t|
    ensures var grown := t[..p] + [e] + t[p..];
      |grown| == |t| + 1 && grown[p] == e && grown[0] == (if p == 0 then e else t[0]) && grown[..p] + grown[p + 1..] == t
  {
  }

  lemma OpenThenCloseInOrder(t: seq<Entry>, filename: string, handle: int)
    requires Ascending(Fds(t)) && !Known(t, filename) && (t == [] || t[0].handle != 0)
    requires handle != INVALID_HANDLE_VALUE && handle != 0
    ensures var r := OpenedInOrder(t, filename, handle, true);
      && r.status == FreeFd(Fds(t))
      && IndexOf(Fds(r.table), r.status) < |r.table|
      && r.table[IndexOf(Fds(r.table), r.status)] == Entry(filename, r.status, handle)
      && Closed(r.table, r.status) == Outcome(0, t)
  {
    var p := FreeFd(Fds(t)) - 1;
    var e := Entry(filename, p + 1, handle);
    var grown := t[..p] + [e] + t[p..];
    InsertKeepsAscending(t, e);
    InsertAt(t, p, e);
    ClosedAt(grown, p);
  }

  lemma OpenRefusedInOrder(t: seq<Entry>, filename: string, handle: int, ok: bool)
    requires Ascending(Fds(t)) && (Known(t, filename) || handle == INVALID_HANDLE_VALUE || !ok)
    requires if t == [] then handle != 0 else t[0].handle != 0 && handle != 0
    ensures OpenedInOrder(t, filename, handle, ok) == Outcome(-1, t)
  {
    if !Known(t, filename) {
      var p := FreeFd(Fds(t)) - 1;
      var e := Entry(filename, p + 1, handle);
      InsertKeepsAscending(t, e);
      InsertAt(t, p, e);
      ClosedAt(t[..p] + [e] + t[p..], p);
    }
  }

  /** In order, after any run: the descriptor handed out is unused and least, a lookup of it
    * finds the port just opened, and closing it gives back the table from before. */
  lemma OrderedOpenThenClose(ops: seq<Op>, filename: string, handle: int)
    requires handle != INVALID_HANDLE_VALUE && handle != 0
    requires var t := RunInOrder(ops); !Known(t, filename) && (t == [] || t[0].handle != 0)
    ensures var t := RunInOrder(ops);
      var r := OpenedInOrder(t, filename, handle, true);
      && r.status > 0 && r.status !in Fds(t)
      && (forall d: nat :: 1 <= d < r.status ==> d in Fds(t))
      && IndexOf(Fds(r.table), r.status) < |r.table|
      && r.table[IndexOf(Fds(r.table), r.status)] == Entry(filename, r.status, handle)
      && Closed(r.table, r.status) == Outcome(0, t)
      && OpenedInOrder(t, filename, handle, false) == Outcome(-1, t)
  {
    OrderedRunsStayOrdered(ops);
    OpenRefusedInOrder(RunInOrder(ops), filename, handle, false);
    LeastFree(Fds(RunInOrder(ops)));
    OpenThenCloseInOrder(RunInOrder(ops), filename, handle);
  }
}

module Ports {
  import opened PortSpec

  class PortNode {
    const filename: string
    const fd: nat
    var handle: int
    var next: PortNode?
    var prev: PortNode?

    constructor (filename: string, fd: nat)
      ensures this.filename == filename && this.fd == fd && handle == 0 && next == null && prev == null
    {
      this.filename, this.fd, handle, next, prev := filename, fd, 0, null, null;
    }

    function ToEntry(): Entry
      reads this
    {
      Entry(filename, fd, handle)
    }
  }

  class PortTable {
    var first: PortNode?
    ghost var nodes: seq<PortNode>

    /** `nodes` is the list from `first` on: no node twice, `next` and `prev` inverse to each
      * other, NULL at both ends. */
    ghost predicate Valid()
      reads this, nodes
    {
      && first == At(0)
      && (forall i, j :: 0 <= i < j < |nodes| ==> nodes[i] != nodes[j])
      && (forall i :: 0 <= i < |nodes| ==> nodes[i].fd > 0)
      && (forall i {:trigger nodes[i].next} :: 0 <= i < |nodes| ==> nodes[i].next == At(i + 1))
      && (forall i {:trigger nodes[i].prev} :: 0 <= i < |nodes| ==> nodes[i].prev == At(i - 1))
    }

    ghost function At(i: int): PortNode?
      reads this
    {
      if 0 <= i < |nodes| then nodes[i] else null
    }

    ghost function Entries(): (t: seq<Entry>)
      reads this, nodes
      ensures |t| == |nodes| && forall i :: 0 <= i < |t| ==> t[i] == nodes[i].ToEntry()
    {
      seq(|nodes|, i requires 0 <= i < |nodes| reads this, nodes => nodes[i].ToEntry())
    }

    constructor ()
      ensures Valid() && nodes == [] && Entries() == []
    {
      first, nodes := null, [];
    }

    /** port_opened: the descriptor under which a name is open, or 0. */
    method PortOpened(filename: string) returns (fd: nat)
      requires Valid()
      ensures fd > 0 <==> Known(Entries(), filename)
      ensures fd > 0 ==> exists i :: 0 <= i < |nodes| && Entries()[i].filename == filename && Entries()[i].fd == fd
    {
      var index := first;
      if index == null {
        return 0;
      }
      if index.filename == filename {
        assert Entries()[0].filename == filename;
        return index.fd;
      }
      ghost var i := 0;
      while index.next != null
        invariant 0 <= i < |nodes| && index == nodes[i]
        invariant forall j :: 0 <= j <= i ==> nodes[j].filename != filename
        decreases |nodes| - i
      {
        index, i := index.next, i + 1;
        if index.filename == filename {
          assert Entries()[i].filename == filename;
          return index.fd;
        }
      }
      fd := 0;
    }

    /** find_port: the first node with this descriptor, or NULL. */
    method FindPort(fd: int) returns (port: PortNode?)
      requires Valid()
      ensures var k := IndexOf(Fds(Entries()), fd);
        port == if fd <= 0 || k == |nodes| then null else nodes[k]
    {
      var index := first;
      if fd <= 0 || index == null {
        return null;
      }
      ghost var i, fds := 0, Fds(Entries());
      while index.fd != 0
        invariant 0 <= i < |nodes| && index == nodes[i]
        invariant forall j :: 0 <= j < i ==> nodes[j].fd != fd
        decreases |nodes| - i
      {
        if index.fd == fd {
          assert fds[i] == fd;
          assert IndexOf(fds, fd) == i;
          return index;
        }
        if index.next == null {
          break;
        }
        index, i := index.next, i + 1;
      }
      assert forall j :: 0 <= j < |nodes| ==> fds[j] != fd;
      return null;
    }

    /** get_free_fd */
    method GetFreeFd() returns (fd: nat)
      requires Valid()
      ensures fd == FreeFd(Fds(Entries()))
    {
      ghost var fds := Fds(Entries());
      var index := first;
      if index == null || index.fd == 0 || index.fd > 1 {
        FreeFdUnique(fds, 1);
        return 1;
      }
      var last := index.fd;
      ghost var i := 0;
      while index.next != null
        invariant 0 <= i < |nodes| && index == nodes[i] && last == fds[i] == i + 1
        invariant forall j :: 0 <= j <= i ==> fds[j] == j + 1
        decreases |nodes| - i
      {
        var next := index.next.fd;
        assert next == fds[i + 1];
        if next != last + 1 {
          FreeFdUnique(fds, i + 2);
          return last + 1;
        }
        index, last, i := index.next, next, i + 1;
      }
      FreeFdUnique(fds, |fds| + 1);
      return index.fd + 1;
    }

    /** The walk to the end of the list in add_port. */
    method Tail() returns (index: PortNode)
      requires Valid() && first != null
      ensures nodes != [] && index == nodes[|nodes| - 1]
    {
      index := first;
      ghost var i := 0;
      while index.next != null
        invariant 0 <= i < |nodes| && index == nodes[i]
        decreases |nodes| - i
      {
        index, i := index.next, i + 1;
      }
    }

    /** The linking at the end of add_port. */
    method LinkLast(port: PortNode)
      requires Valid() && port !in nodes && port.fd > 0 && port.next == null && port.prev == null
      modifies this, nodes, port
      ensures Valid() && nodes == old(nodes) + [port]
      ensures forall n :: n in nodes ==> n.ToEntry() == old(n.ToEntry())
    {
      if first == null {
        first := port;
      } else {
        var index := Tail();
        port.prev := index;
        index.next := port;
      }
      nodes := nodes + [port];
    }

    /** add_port, with memory available: a new node at the tail. */
    method AddPort(filename: string) returns (port: PortNode)
      requires Valid()
      modifies this, nodes
      ensures Valid() && fresh(port) && nodes == old(nodes) + [port]
      ensures port.filename == filename && port.fd == FreeFd(Fds(old(Entries())))
      ensures Entries() == old(Entries()) + [Entry(filename, FreeFd(Fds(old(Entries()))), 0)]
    {
      var fd := GetFreeFd();
      port := new PortNode(filename, fd);
      LinkLast(port);
    }

    /** The unlinking in serial_close, for a node with neighbours on both sides. */
    method UnlinkInner(index: PortNode, ghost k: nat)
      requires Valid() && 0 < k < |nodes| - 1 && index == nodes[k]
      modifies this, nodes`next, nodes`prev
      ensures Valid() && nodes == old(nodes)[..k] + old(nodes)[k + 1..]
    {
      index.next.prev := index.prev;
      index.prev.next := index.next;
      nodes := nodes[..k] + nodes[k + 1..];
    }

    /** The unlinking in serial_close, for the last node, the first node and the only node. */
    method UnlinkEnd(index: PortNode, ghost k: nat)
      requires Valid() && k < |nodes| && index == nodes[k] && (k == 0 || k == |nodes| - 1)
      modifies this, nodes`next, nodes`prev
      ensures Valid() && nodes == old(nodes)[..k] + old(nodes)[k + 1..]
    {
      if index.prev != null {
        index.prev.next := null;
      } else if index.next != null {
        index.next.prev := null;
        first := index.next;
      } else {
        first := null;
      }
      nodes := nodes[..k] + nodes[k + 1..];
    }

    method Unlink(index: PortNode, ghost k: nat)
      requires Valid() && k < |nodes| && index == nodes[k]
      modifies this, nodes
      ensures Valid() && nodes == old(nodes)[..k] + old(nodes)[k + 1..]
      ensures Entries() == old(Entries())[..k] + old(Entries())[k + 1..]
    {
      if index.next != null && index.prev != null {
        UnlinkInner(index, k);
      } else {
        UnlinkEnd(index, k);
      }
    }

    /** serial_close: unlinks the first node with the descriptor. */
    method SerialClose(fd: int) returns (status: int)
      requires Valid()
      modifies this, nodes
      ensures Valid() && Outcome(status, Entries()) == Closed(old(Entries()), fd)
      ensures forall n :: n in nodes ==> n in old(nodes)
    {
      if first == null || first.handle == 0 {
        return 0;
      }
      var index := FindPort(fd);
      if index == null {
        return -1;
      }
      Unlink(index, IndexOf(Fds(Entries()), fd));
      return 0;
    }

    /** The first half of serial_open: the new node gets the handle CreateFile answered with. */
    method AddWithHandle(filename: string, handle: int) returns (fd: nat)
      requires Valid()
      modifies this, nodes
      ensures Valid() && fresh(set n | n in nodes && n !in old(nodes))
      ensures fd == FreeFd(Fds(old(Entries()))) && Entries() == old(Entries()) + [Entry(filename, fd, handle)]
    {
      var port := AddPort(filename);
      ghost var before := Entries();
      port.handle := handle;
      assert forall i :: 0 <= i < |nodes| - 1 ==> Entries()[i] == before[i];
      return port.fd;
    }

    /** serial_open, against a device that answers CreateFile with `handle` and reports in `ok`
      * whether the rest of the set-up succeeds. */
    method SerialOpen(filename: string, handle: int, ok: bool) returns (status: int)
      requires Valid()
      modifies this, nodes
      ensures Valid() && Outcome(status, Entries()) == Opened(old(Entries()), filename, handle, ok)
      ensures status > 0 <==> !Known(old(Entries()), filename) && handle != INVALID_HANDLE_VALUE && ok
      ensures status > 0 ==> Entries() == old(Entries()) + [Entry(filename, status, handle)]
      ensures status <= 0 ==> status == -1
    {
      var inUse := PortOpened(filename);
      if inUse != 0 {
        return -1;
      }
      var fd := AddWithHandle(filename, handle);
      if handle == INVALID_HANDLE_VALUE || !ok {
        var _ := SerialClose(fd);
        return -1;
      }
      return fd;
    }
  }
}
