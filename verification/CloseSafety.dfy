/** RXTXPort.close against any number of closers and stream operations, as interleaved atomic
  * steps under sequential consistency with atomic increments. No listener is being added
  * meanwhile, so nothing lowers monThreadisInterrupted; anybody may raise it. */
module CloseSafety {

  /** The order in which an operation makes its tests. */
  datatype Kind =
    | ByteWrite    // write(int): flag; count; wait; fd; transfer
    | ArrayWrite   // write(byte[]): flag; fd; count; wait; transfer
    | RangeAccess  // write(byte[], int, int), flush, both reads of a range: fd; flag; count; wait; transfer
    | ByteRead     // read(): fd; count; wait; transfer
    | ArrayRead    // read(byte[]): flag; count; wait; then a RangeAccess with a count of its own
    | Available    // available(): flag; count; native call

  datatype OpPc = TestFd | TestFlag | Count | AwaitLock | LateFd
    | InnerFd | InnerFlag | InnerCount | InnerAwait
    | InNative | InnerUncount | Uncount | OpDone

  datatype ClosePc =
    | Enter | TestLocked | TestCloseLock                                    // in synchronized(this), from TestLocked on
    | CheckFd | CheckFlag | RemoveTest | Raise | Join | Finish              // with closeLock held
    | NativeClose | SuperClose | ZeroFd | Unlock | CloseDone

  /** Histories: when an operation passed its flag test and when it counted itself in; when a
    * closer found the count zero. */
  datatype Thread =
    | Op(kind: Kind, at: OpPc, testedAt: nat, countedAt: nat)
    | Closer(pc: ClosePc, zeroAt: nat)

  /** The fields of the port, with three histories: when the flag last went up, how often
    * nativeClose ran, and whether the descriptor is still to be zeroed after it. `abandoned`: a closer has
    * found the port closed and gone, leaving the close lock set. */
  datatype Port = Port(fd: int, ioLocked: int, closeLock: bool, interrupted: bool, monitorFree: bool,
                       raisedAt: nat, nativeCloses: nat, closing: bool, abandoned: bool)

  /** `counted` names the counts taken, by operation and depth, and `owner` the closer that holds the close lock. */
  datatype State = State(port: Port, threads: seq<Thread>, clock: nat, owner: int, counted: set<(nat, nat)>)

  datatype Action = Step(i: nat, choice: bool) | OtherRaise

  function FirstPc(kind: Kind): OpPc {
    if kind == RangeAccess || kind == ByteRead then TestFd else TestFlag
  }

  /** All operations but read() test the flag. */
  predicate TestsFlag(kind: Kind) {
    kind != ByteRead
  }

  /** Everything starts outside: no counts, no locks, nothing in progress. */
  ghost predicate Init(s: State) {
    && s.port.ioLocked == 0 && !s.port.closeLock && s.port.monitorFree && s.port.nativeCloses == 0 && !s.port.closing
    && !s.port.abandoned && s.owner == -1 && s.counted == {} && s.port.raisedAt == 0 && s.clock == 1
    && forall i :: 0 <= i < |s.threads| ==>
         match s.threads[i]
         case Op(kind, at, _, _) => at == FirstPc(kind)
         case Closer(pc, _) => pc == Enter
  }

  predicate CanMove(p: Port, t: Thread) {
    match t
    case Op(_, at, _, _) => at != OpDone
    case Closer(pc, _) => pc != CloseDone && (pc == Enter ==> p.monitorFree)
  }

  /** `choice` stands for an empty array given to read(byte[]). */
  function OpNext(p: Port, now: nat, t: Thread, choice: bool): Thread
    requires t.Op? && t.at != OpDone
  {
    match t.at
    case TestFd =>
      if p.fd == 0 then t.(at := OpDone) else t.(at := if t.kind == RangeAccess then TestFlag else Count)
    case TestFlag =>
      if p.interrupted then t.(at := OpDone)
      else t.(at := if t.kind == ArrayWrite then TestFd else Count, testedAt := now)
    case Count => t.(at := if t.kind == Available then InNative else AwaitLock, countedAt := now)
    case AwaitLock => t.(at := match t.kind case ByteWrite => LateFd case ArrayRead => InnerFd case _ => InNative)
    case LateFd => t.(at := if p.fd == 0 then Uncount else InNative)
    case InnerFd => t.(at := if p.fd == 0 || choice then Uncount else InnerFlag)
    case InnerFlag => if p.interrupted then t.(at := Uncount) else t.(at := InnerCount, testedAt := now)
    case InnerCount => t.(at := InnerAwait)
    case InnerAwait => t.(at := InNative)
    case InNative => t.(at := if t.kind == ArrayRead then InnerUncount else Uncount)
    case InnerUncount => t.(at := Uncount)
    case Uncount => t.(at := OpDone)
  }

  function OpEffect(p: Port, t: Thread): Port
    requires t.Op?
  {
    match t.at
    case Count => p.(ioLocked := p.ioLocked + 1)
    case InnerCount => p.(ioLocked := p.ioLocked + 1)
    case InnerUncount => p.(ioLocked := p.ioLocked - 1)
    case Uncount => p.(ioLocked := p.ioLocked - 1)
    case _ => p
  }

  /** `choice` stands for an InterruptedException, or for a monitor thread that is not alive. */
  function CloseNext(p: Port, now: nat, t: Thread, choice: bool): Thread
    requires t.Closer? && t.pc != CloseDone
  {
    match t.pc
    case Enter => t.(pc := TestLocked)
    case TestLocked =>
      if p.ioLocked > 0 then t.(pc := if choice then CloseDone else Enter) else t.(pc := TestCloseLock, zeroAt := now)
    case TestCloseLock => t.(pc := if p.closeLock then CloseDone else CheckFd)
    case CheckFd => t.(pc := if p.fd <= 0 then CloseDone else CheckFlag)
    case CheckFlag => t.(pc := if p.interrupted then NativeClose else RemoveTest)
    case RemoveTest => t.(pc := if p.interrupted then NativeClose else if choice then Finish else Raise)
    case Raise => t.(pc := Join)
    case Join => t.(pc := if choice then NativeClose else Finish)
    case Finish => t.(pc := NativeClose)
    case NativeClose => t.(pc := SuperClose)
    case SuperClose => t.(pc := ZeroFd)
    case ZeroFd => t.(pc := Unlock)
    case Unlock => t.(pc := CloseDone)
  }

  function CloseEffect(p: Port, now: nat, t: Thread): Port
    requires t.Closer?
  {
    match t.pc
    case Enter => p.(monitorFree := false)
    case TestLocked => if p.ioLocked > 0 then p.(monitorFree := true) else p
    case TestCloseLock => p.(monitorFree := true, closeLock := true)
    case CheckFd => if p.fd <= 0 then p.(abandoned := true) else p
    case Raise => Raised(p, now)
    case Finish => Raised(p, now)
    case NativeClose => p.(nativeCloses := p.nativeCloses + 1, closing := true)
    case ZeroFd => p.(fd := 0, closing := false)
    case Unlock => p.(closeLock := false)
    case _ => p
  }

  /** Assigning true to monThreadisInterrupted. */
  function Raised(p: Port, now: nat): Port {
    if p.interrupted then p else p.(interrupted := true, raisedAt := now)
  }

  predicate Enabled(s: State, a: Action) {
    a.Step? ==> a.i < |s.threads| && CanMove(s.port, s.threads[a.i])
  }

  function Next(s: State, i: nat, choice: bool): Thread
    requires i < |s.threads| && CanMove(s.port, s.threads[i])
  {
    if s.threads[i].Op? then OpNext(s.port, s.clock, s.threads[i], choice) else CloseNext(s.port, s.clock, s.threads[i], choice)
  }

  function Effect(s: State, i: nat): Port
    requires i < |s.threads|
  {
    if s.threads[i].Op? then OpEffect(s.port, s.threads[i]) else CloseEffect(s.port, s.clock, s.threads[i])
  }

  function Apply(s: State, a: Action): State
    requires Enabled(s, a)
  {
    match a
    case OtherRaise => s.(port := Raised(s.port, s.clock), clock := s.clock + 1)
    case Step(i, choice) =>
      var t := Next(s, i, choice);
      State(Effect(s, i), s.threads[i := t], s.clock + 1,
            if HoldsCloseLock(t) then i else if s.owner == i then -1 else s.owner,
            Recounted(s.counted, i, Depth(s.threads[i]), Depth(t)))
  }

  ghost predicate Legal(s: State, run: seq<Action>)
    decreases |run|
  {
    run == [] || (Enabled(s, run[0]) && Legal(Apply(s, run[0]), run[1..]))
  }

  ghost function After(s: State, run: seq<Action>): State
    requires Legal(s, run)
    decreases |run|
  {
    if run == [] then s else After(Apply(s, run[0]), run[1..])
  }

  // ---------------------------------------------------------------- what every run keeps

  /** How often the thread is counted in IOLocked. */
  function Depth(t: Thread): nat {
    if t.Closer? then 0
    else match t.at
      case InnerAwait => 2
      case InnerUncount => 2
      case InNative => if t.kind == ArrayRead then 2 else 1
      case TestFd => 0
      case TestFlag => 0
      case Count => 0
      case OpDone => 0
      case _ => 1
  }

  function Recounted(counted: set<(nat, nat)>, i: nat, before: nat, after: nat): set<(nat, nat)> {
    if before < after then counted + {(i, before)} else if after < before then counted - {(i, after)} else counted
  }

  predicate InSection(t: Thread) {
    Depth(t) > 0
  }

  /** The program point belongs to the operation. */
  predicate Fits(t: Thread) {
    t.Op? ==>
      && (t.at == TestFd ==> t.kind in {ArrayWrite, RangeAccess, ByteRead})
      && (t.at == TestFlag ==> t.kind != ByteRead)
      && (t.at == AwaitLock ==> t.kind != Available)
      && (t.at == LateFd ==> t.kind == ByteWrite)
      && (t.at in {InnerFd, InnerFlag, InnerCount, InnerAwait, InnerUncount} ==> t.kind == ArrayRead)
  }

  /** The operation makes a flag test and has passed it. */
  predicate PassedTest(t: Thread) {
    t.Op? && TestsFlag(t.kind) &&
    (t.at in {Count, AwaitLock, LateFd, InnerFd, InnerFlag, InnerCount, InnerAwait, InNative} || (t.kind == ArrayWrite && t.at == TestFd))
  }

  predicate HoldsCloseLock(t: Thread) {
    t.Closer? && t.pc !in {Enter, TestLocked, TestCloseLock, CloseDone}
  }

  /** The closer found the count at zero. */
  predicate SawZero(t: Thread) {
    t.Closer? && t.pc !in {Enter, TestLocked, CloseDone}
  }

  /** IOLocked counts the operations inside, nested reads twice. */
  ghost predicate CountInv(s: State) {
    && s.port.ioLocked == |s.counted|
    && (forall i: nat, d: nat :: (i, d) in s.counted <==> i < |s.threads| && d < Depth(s.threads[i]))
  }

  /** At most one closer is past the close lock, and it holds it. */
  ghost predicate OwnerInv(s: State) {
    && (forall i: nat :: i < |s.threads| && HoldsCloseLock(s.threads[i]) ==> i == s.owner)
    && -1 <= s.owner < |s.threads|
    && if s.owner == -1 then !s.port.closing && UnownedInv(s.port) else OwnedInv(s.port, s.threads[s.owner])
  }

  ghost predicate UnownedInv(p: Port) {
    && p.nativeCloses <= 1 && (p.fd > 0 ==> p.nativeCloses == 0) && (p.nativeCloses > 0 ==> p.interrupted)
    && (p.closeLock <==> p.abandoned) && (p.abandoned ==> p.fd <= 0)
  }

  ghost predicate OwnedInv(p: Port, t: Thread) {
    && HoldsCloseLock(t) && p.closeLock && !p.abandoned
    && (p.closing <==> t.pc in {SuperClose, ZeroFd})
    && p.nativeCloses <= 1 && (p.fd > 0 && !p.closing ==> p.nativeCloses == 0) && (p.closing ==> p.nativeCloses == 1)
    && (t.pc in {CheckFlag, RemoveTest, Raise, Join, Finish, NativeClose} ==> p.fd > 0)
    && (t.pc in {Join, NativeClose, SuperClose, ZeroFd, Unlock} || p.nativeCloses > 0 ==> p.interrupted)
    && (t.pc == Unlock ==> p.fd <= 0)
  }

  /** Whoever passed a flag test did so before the flag went up. */
  ghost predicate FlagInv(s: State) {
    && s.port.raisedAt < s.clock
    && (forall i :: 0 <= i < |s.threads| ==> Fits(s.threads[i]))
    && (forall i :: 0 <= i < |s.threads| && PassedTest(s.threads[i]) ==>
          s.threads[i].testedAt < if s.port.interrupted then s.port.raisedAt else s.clock)
  }

  /** Whoever is inside counted itself in after the closer saw zero. */
  ghost predicate ZeroInv(s: State) {
    && (forall i :: 0 <= i < |s.threads| && SawZero(s.threads[i]) ==> s.threads[i].zeroAt < s.clock)
    && (forall i, j :: 0 <= i < |s.threads| && 0 <= j < |s.threads| && SawZero(s.threads[i]) && InSection(s.threads[j]) ==>
          s.threads[i].zeroAt < s.threads[j].countedAt)
  }

  // What one move of one thread does, as far as the invariants care.

  ghost predicate FlagMove(p: Port, q: Port, now: nat, t: Thread, u: Thread) {
    && (PassedTest(u) ==> (PassedTest(t) && u.testedAt == t.testedAt) || (!p.interrupted && u.testedAt == now))
    && Fits(u)
    && (if p.interrupted then q.interrupted && q.raisedAt == p.raisedAt
        else if q.interrupted then q.raisedAt == now && !PassedTest(u) else q.raisedAt == p.raisedAt)
  }

  ghost predicate SectionMove(p: Port, q: Port, now: nat, t: Thread, u: Thread) {
    && (InSection(u) ==> (InSection(t) && u.countedAt == t.countedAt) || (u.countedAt == now && !SawZero(u)))
    && (SawZero(u) ==> (SawZero(t) && u.zeroAt == t.zeroAt) || (u.zeroAt == now && p.ioLocked <= 0 && t.Closer?))
    && q.ioLocked - p.ioLocked == Depth(u) - Depth(t) && -1 <= Depth(u) - Depth(t) <= 1
  }

  lemma OpMoves(p: Port, now: nat, t: Thread, choice: bool)
    requires t.Op? && t.at != OpDone && Fits(t)
    ensures FlagMove(p, OpEffect(p, t), now, t, OpNext(p, now, t, choice))
    ensures SectionMove(p, OpEffect(p, t), now, t, OpNext(p, now, t, choice))
  {
  }

  lemma CloserMoves(p: Port, now: nat, t: Thread, choice: bool)
    requires t.Closer? && t.pc != CloseDone
    ensures FlagMove(p, CloseEffect(p, now, t), now, t, CloseNext(p, now, t, choice))
    ensures SectionMove(p, CloseEffect(p, now, t), now, t, CloseNext(p, now, t, choice))
  {
  }

  lemma FlagKept(s: State, t: State, i: nat)
    requires FlagInv(s) && i < |s.threads| == |t.threads|
    requires t.threads == s.threads[i := t.threads[i]] && t.clock == s.clock + 1
    requires FlagMove(s.port, t.port, s.clock, s.threads[i], t.threads[i])
    ensures FlagInv(t)
  {
  }

  lemma CountKept(s: State, t: State, i: nat)
    requires CountInv(s) && i < |s.threads| == |t.threads| && t.threads == s.threads[i := t.threads[i]]
    requires SectionMove(s.port, t.port, s.clock, s.threads[i], t.threads[i])
    requires t.counted == Recounted(s.counted, i, Depth(s.threads[i]), Depth(t.threads[i]))
    ensures CountInv(t)
  {
    var before, after := Depth(s.threads[i]), Depth(t.threads[i]);
    if before < after {
      assert (i, before) !in s.counted;
    } else if after < before {
      assert (i, after) in s.counted;
    }
  }

  lemma ZeroKept(s: State, t: State, i: nat)
    requires ZeroInv(s) && CountInv(s) && i < |s.threads| == |t.threads|
    requires t.threads == s.threads[i := t.threads[i]] && t.clock == s.clock + 1
    requires SectionMove(s.port, t.port, s.clock, s.threads[i], t.threads[i])
    ensures ZeroInv(t)
  {
    if s.port.ioLocked <= 0 {
      assert forall j: nat :: j < |s.threads| && InSection(s.threads[j]) ==> (j, 0) in s.counted;
    }
  }

  lemma OwnedKept(p: Port, now: nat, t: Thread, choice: bool)
    requires OwnedInv(p, t)
    ensures var u, q := CloseNext(p, now, t, choice), CloseEffect(p, now, t);
      if HoldsCloseLock(u) then OwnedInv(q, u) else !q.closing && UnownedInv(q)
  {
  }

  lemma OwnerKept(s: State, i: nat, choice: bool)
    requires OwnerInv(s) && Enabled(s, Step(i, choice))
    ensures OwnerInv(Apply(s, Step(i, choice)))
  {
    if s.owner == i {
      OwnedKept(s.port, s.clock, s.threads[i], choice);
    }
  }

  ghost predicate Inv(s: State) {
    CountInv(s) && OwnerInv(s) && FlagInv(s) && ZeroInv(s)
  }

  lemma InvIsInductive(s: State, a: Action)
    requires Inv(s) && Enabled(s, a)
    ensures Inv(Apply(s, a))
  {
    var t := Apply(s, a);
    match a
    case OtherRaise =>
    case Step(i, choice) =>
      if s.threads[i].Op? {
        OpMoves(s.port, s.clock, s.threads[i], choice);
      } else {
        CloserMoves(s.port, s.clock, s.threads[i], choice);
      }
      FlagKept(s, t, i);
      CountKept(s, t, i);
      ZeroKept(s, t, i);
      OwnerKept(s, i, choice);
  }

  lemma {:induction false} InvHoldsAlways(s: State, run: seq<Action>)
    requires Inv(s) && Legal(s, run)
    ensures Inv(After(s, run))
    decreases |run|
  {
    if run != [] {
      InvIsInductive(s, run[0]);
      InvHoldsAlways(Apply(s, run[0]), run[1..]);
    }
  }

  lemma InvHoldsInitially(s: State)
    requires Init(s)
    ensures Inv(s)
  {
  }

  predicate InFlight(t: Thread) {
    t.Op? && t.at == InNative
  }

  predicate AboutToClose(t: Thread) {
    t.Closer? && t.pc == NativeClose
  }

  /** However many closers and operations there are, and however they interleave: nativeClose runs at
    * most once; and from the moment a closer is about to run it, every transfer in
    * flight that makes the flag test at all made it before the flag went up. */
  lemma CloseIsSafe(s: State, run: seq<Action>)
    requires Init(s) && Legal(s, run)
    ensures var t := After(s, run);
      && t.port.nativeCloses <= 1
      && (forall i, j :: 0 <= i < |t.threads| && 0 <= j < |t.threads| ==>
            (t.port.nativeCloses == 1 || AboutToClose(t.threads[i])) && InFlight(t.threads[j]) && TestsFlag(t.threads[j].kind) ==>
            t.port.interrupted && t.threads[j].testedAt < t.port.raisedAt)
  {
    InvHoldsInitially(s);
    InvHoldsAlways(s, run);
  }

  /** What is still inside when nativeClose is about to run slipped in after the closer had found
    * IOLocked at zero: the count protects every operation that was inside by then. */
  lemma OnlyLatecomersAreInside(s: State, run: seq<Action>, i: nat, j: nat)
    requires Init(s) && Legal(s, run)
    requires var t := After(s, run);
      i < |t.threads| && j < |t.threads| && AboutToClose(t.threads[i]) && InSection(t.threads[j])
    ensures var t := After(s, run); t.threads[i].zeroAt < t.threads[j].countedAt
  {
    InvHoldsInitially(s);
    InvHoldsAlways(s, run);
  }

  // ---------------------------------------------------------------- the locks

  /** The close lock is set exactly while a closer holds it, or for good once a closer has found the port closed: that one leaves
    * without giving it back. */
  lemma CloseLockIsHeldOrAbandoned(s: State, run: seq<Action>)
    requires Init(s) && Legal(s, run)
    ensures var t := After(s, run);
      && (t.port.closeLock <==> t.port.abandoned || exists i :: 0 <= i < |t.threads| && HoldsCloseLock(t.threads[i]))
      && (t.port.abandoned ==> t.port.fd <= 0 && forall i :: 0 <= i < |t.threads| ==> !HoldsCloseLock(t.threads[i]))
  {
    InvHoldsInitially(s);
    InvHoldsAlways(s, run);
    var t := After(s, run);
    if t.owner != -1 {
      assert HoldsCloseLock(t.threads[t.owner]);
    }
  }

  predicate InMonitor(t: Thread) {
    t.Closer? && t.pc in {TestLocked, TestCloseLock}
  }

  /** At most one closer is in synchronized(this), and its monitor is free exactly when none is. */
  ghost predicate MonitorInv(s: State) {
    && (forall i, j :: 0 <= i < |s.threads| && 0 <= j < |s.threads| && InMonitor(s.threads[i]) && InMonitor(s.threads[j]) ==> i == j)
    && (s.port.monitorFree <==> forall i :: 0 <= i < |s.threads| ==> !InMonitor(s.threads[i]))
  }

  lemma MonitorIsInductive(s: State, a: Action)
    requires MonitorInv(s) && Enabled(s, a)
    ensures MonitorInv(Apply(s, a))
  {
    var t := Apply(s, a);
    match a
    case OtherRaise =>
    case Step(i, choice) =>
      assert forall j :: 0 <= j < |s.threads| && j != i ==> t.threads[j] == s.threads[j];
      if InMonitor(t.threads[i]) && !InMonitor(s.threads[i]) {
        assert s.port.monitorFree;
      }
  }

  lemma {:induction false} MonitorHoldsAlways(s: State, run: seq<Action>)
    requires MonitorInv(s) && Legal(s, run)
    ensures MonitorInv(After(s, run))
    decreases |run|
  {
    if run != [] {
      MonitorIsInductive(s, run[0]);
      MonitorHoldsAlways(Apply(s, run[0]), run[1..]);
    }
  }

  predicate Finished(t: Thread) {
    if t.Op? then t.at == OpDone else t.pc == CloseDone
  }

  /** Nobody is stuck: whatever has happened, as long as a thread is not finished some thread can move. */
  lemma NoDeadlock(s: State, run: seq<Action>, i: nat)
    requires Init(s) && Legal(s, run) && i < |After(s, run).threads| && !Finished(After(s, run).threads[i])
    ensures var t := After(s, run); exists j :: 0 <= j < |t.threads| && CanMove(t.port, t.threads[j])
  {
    MonitorHoldsAlways(s, run);
    var t := After(s, run);
    if !t.port.monitorFree {
      var j :| 0 <= j < |t.threads| && InMonitor(t.threads[j]);
      assert CanMove(t.port, t.threads[j]);
    } else {
      assert CanMove(t.port, t.threads[i]);
    }
  }

  // ---------------------------------------------------------------- refused operations

  /** The operation still has its last test of the descriptor to make, or will make no transfer any more. */
  predicate BeforeFdTest(t: Thread) {
    t.Op? && match t.kind
      case ByteWrite => t.at in {TestFlag, Count, AwaitLock, LateFd, Uncount, OpDone}
      case ArrayWrite => t.at in {TestFlag, TestFd, OpDone}
      case RangeAccess => t.at in {TestFd, OpDone}
      case ByteRead => t.at in {TestFd, OpDone}
      case ArrayRead => t.at in {TestFlag, Count, AwaitLock, InnerFd, Uncount, OpDone}
      case Available => false
  }

  /** The same for its last test of the flag. */
  predicate BeforeFlagTest(t: Thread) {
    t.Op? && match t.kind
      case ByteWrite => t.at in {TestFlag, OpDone}
      case ArrayWrite => t.at in {TestFlag, OpDone}
      case RangeAccess => t.at in {TestFd, TestFlag, OpDone}
      case ByteRead => false
      case ArrayRead => t.at in {TestFlag, Count, AwaitLock, InnerFd, InnerFlag, Uncount, OpDone}
      case Available => t.at in {TestFlag, OpDone}
  }

  /** Once the descriptor has been zeroed, an operation that has its last test of it ahead never gets to its transfer, however the
    * run goes on: in particular one that begins then. */
  lemma {:induction false} ClosedPortRefuses(s: State, run: seq<Action>, j: nat)
    requires s.port.fd == 0 && j < |s.threads| && BeforeFdTest(s.threads[j]) && Legal(s, run)
    ensures var t := After(s, run); j < |t.threads| && BeforeFdTest(t.threads[j]) && !InFlight(t.threads[j]) && t.port.fd == 0
    decreases |run|
  {
    if run != [] {
      ClosedPortRefuses(Apply(s, run[0]), run[1..], j);
    }
  }

  /** Once the flag is up, and nothing lowers it, the same holds for an operation with its last test of the flag ahead. */
  lemma {:induction false} InterruptedPortRefuses(s: State, run: seq<Action>, j: nat)
    requires s.port.interrupted && j < |s.threads| && BeforeFlagTest(s.threads[j]) && Legal(s, run)
    ensures var t := After(s, run); j < |t.threads| && BeforeFlagTest(t.threads[j]) && !InFlight(t.threads[j]) && t.port.interrupted
    decreases |run|
  {
    if run != [] {
      InterruptedPortRefuses(Apply(s, run[0]), run[1..], j);
    }
  }

  // ---------------------------------------------------------------- the window

  /** What no step ever changes back, for the port and for one operation. */
  ghost predicate Since(s: State, t: State, j: nat) {
    && |t.threads| == |s.threads| && j < |s.threads|
    && (s.threads[j].Op? ==> t.threads[j].Op? && t.threads[j].kind == s.threads[j].kind)
    && (s.port.fd <= 0 ==> t.port.fd <= 0)
    && (s.port.interrupted && s.port.raisedAt == 0 ==> t.port.interrupted && t.port.raisedAt == 0)
  }

  lemma SinceStep(s: State, u: State, a: Action, j: nat)
    requires Since(s, u, j) && Enabled(u, a)
    ensures Since(s, Apply(u, a), j)
  {
  }

  lemma {:induction false} SinceAlways(s: State, u: State, run: seq<Action>, j: nat)
    requires Since(s, u, j) && Legal(u, run)
    ensures Since(s, After(u, run), j)
    decreases |run|
  {
    if run != [] {
      SinceStep(s, u, run[0], j);
      SinceAlways(s, Apply(u, run[0]), run[1..], j);
    }
  }

  lemma {:induction false} Longer(s: State, run: seq<Action>, a: Action) returns (longer: seq<Action>)
    requires Legal(s, run) && Enabled(After(s, run), a)
    ensures Legal(s, longer) && After(s, longer) == Apply(After(s, run), a)
    decreases |run|
  {
    longer := run + [a];
    if run == [] {
      assert longer[1..] == [];
    } else {
      var rest := Longer(Apply(s, run[0]), run[1..], a);
      longer := [run[0]] + rest;
      assert longer[1..] == rest;
    }
  }

  /** The closer finds the count at zero and takes the close lock. */
  lemma CloserTakesTheLock(s: State, i: nat) returns (run: seq<Action>)
    requires Init(s) && i < |s.threads| && s.threads[i].Closer?
    ensures Legal(s, run)
    ensures var t := After(s, run);
      && |t.threads| == |s.threads| && t.threads[i].Closer? && t.threads == s.threads[i := t.threads[i]]
      && t.threads[i].pc == CheckFd && t.port == s.port.(closeLock := true)
  {
    run := Longer(s, [], Step(i, false));
    run := Longer(s, run, Step(i, false));
    run := Longer(s, run, Step(i, false));
  }

  /** It goes on to where it raises the flag, or, if that is up, to nativeClose. */
  lemma CloserComesIn(s: State, i: nat) returns (run: seq<Action>)
    requires Init(s) && i < |s.threads| && s.threads[i].Closer? && s.port.fd > 0
    ensures Legal(s, run)
    ensures var t := After(s, run);
      && |t.threads| == |s.threads| && t.threads[i].Closer? && t.threads == s.threads[i := t.threads[i]]
      && t.threads[i].pc == (if s.port.interrupted then NativeClose else Raise)
      && t.port == s.port.(closeLock := true)
  {
    run := CloserTakesTheLock(s, i);
    run := Longer(s, run, Step(i, false));
    run := Longer(s, run, Step(i, false));
    if !s.port.interrupted {
      run := Longer(s, run, Step(i, false));
    }
  }

  /** The program points an operation still has to pass before its transfer. */
  function Ahead(t: Thread): nat
    requires t.Op?
  {
    match t.at
    case TestFd => if t.kind == RangeAccess then 10 else 9
    case TestFlag => if t.kind == ArrayWrite then 10 else 9
    case Count => 8 case AwaitLock => 7 case LateFd => 6
    case InnerFd => 5 case InnerFlag => 4 case InnerCount => 3 case InnerAwait => 2
    case _ => 0
  }

  predicate OnItsWay(t: Thread) {
    t.Op? && Fits(t) && t.at !in {InNative, InnerUncount, Uncount, OpDone}
  }

  lemma OpAdvances(p: Port, now: nat, t: Thread)
    requires OnItsWay(t) && (t.kind == Available || p.fd != 0) && (TestsFlag(t.kind) ==> !p.interrupted)
    ensures var u := OpNext(p, now, t, false);
      && (OnItsWay(u) || InFlight(u)) && Fits(u) && u.kind == t.kind && Ahead(u) < Ahead(t)
    ensures OpEffect(p, t) == p.(ioLocked := OpEffect(p, t).ioLocked)
  {
  }

  /** With the port open, and the flag down if it is tested, an operation gets to its transfer. */
  lemma {:induction false} OpComesIn(s: State, run: seq<Action>, j: nat) returns (longer: seq<Action>)
    requires Legal(s, run)
    requires var t := After(s, run);
      && j < |t.threads| && (OnItsWay(t.threads[j]) || InFlight(t.threads[j])) && Fits(t.threads[j])
      && (t.threads[j].kind == Available || t.port.fd != 0) && (TestsFlag(t.threads[j].kind) ==> !t.port.interrupted)
    ensures Legal(s, longer)
    ensures var t, u := After(s, run), After(s, longer);
      && |u.threads| == |t.threads| && u.threads == t.threads[j := u.threads[j]] && InFlight(u.threads[j])
      && u.port == t.port.(ioLocked := u.port.ioLocked)
    decreases Ahead(After(s, run).threads[j])
  {
    var t := After(s, run);
    if InFlight(t.threads[j]) {
      longer := run;
    } else {
      OpAdvances(t.port, t.clock, t.threads[j]);
      longer := Longer(s, run, Step(j, false));
      longer := OpComesIn(s, longer, j);
    }
  }

  lemma CloserGoesOn(s: State, run: seq<Action>, i: nat) returns (longer: seq<Action>)
    requires Legal(s, run)
    requires var t := After(s, run); i < |t.threads| && t.threads[i].Closer? && t.threads[i].pc == Raise
    ensures Legal(s, longer)
    ensures var t, u := After(s, run), After(s, longer);
      && |u.threads| == |t.threads| && u.threads == t.threads[i := u.threads[i]] && AboutToClose(u.threads[i])
  {
    longer := Longer(s, run, Step(i, false));
    longer := Longer(s, longer, Step(i, false));
    longer := Longer(s, longer, Step(i, false));
  }

  lemma Overtaken(s: State, i: nat, j: nat) returns (run: seq<Action>)
    requires Init(s) && i < |s.threads| && j < |s.threads| && s.threads[i].Closer? && s.threads[j].Op?
    requires s.port.fd > 0 && (TestsFlag(s.threads[j].kind) ==> !s.port.interrupted)
    ensures Legal(s, run)
    ensures var t := After(s, run); |t.threads| == |s.threads| && AboutToClose(t.threads[i]) && InFlight(t.threads[j])
  {
    run := CloserComesIn(s, i);
    run := OpComesIn(s, run, j);
    if !s.port.interrupted {
      run := CloserGoesOn(s, run, i);
    }
  }

  /** The promise that the descriptor is not closed while it is in use has a hole. Whoever else is about, a given closer can be about
    * to run nativeClose with a given operation in its transfer exactly when the port starts open and, for an operation
    * that tests the flag, not interrupted. */
  lemma CloseOvertakesExactly(s: State, i: nat, j: nat)
    requires Init(s) && i < |s.threads| && j < |s.threads| && s.threads[i].Closer? && s.threads[j].Op?
    ensures (exists run :: Legal(s, run) && var t := After(s, run);
        |t.threads| == |s.threads| && AboutToClose(t.threads[i]) && InFlight(t.threads[j]))
      <==> s.port.fd > 0 && (TestsFlag(s.threads[j].kind) ==> !s.port.interrupted)
  {
    if s.port.fd > 0 && (TestsFlag(s.threads[j].kind) ==> !s.port.interrupted) {
      var run := Overtaken(s, i, j);
    }
    forall run | Legal(s, run) && var t := After(s, run);
        |t.threads| == |s.threads| && AboutToClose(t.threads[i]) && InFlight(t.threads[j])
      ensures s.port.fd > 0 && (TestsFlag(s.threads[j].kind) ==> !s.port.interrupted)
    {
      InvHoldsInitially(s);
      InvHoldsAlways(s, run);
      SinceAlways(s, s, run, j);
      assert PassedTest(After(s, run).threads[j]) || !TestsFlag(s.threads[j].kind);
    }
  }

  /** Whoever else is about, an operation can get to its native call exactly when the port starts open, or the call is
    * available(), which does not look, and, unless it is read(), the flag is down. */
  lemma TransfersExactly(s: State, j: nat)
    requires Init(s) && j < |s.threads| && s.threads[j].Op?
    ensures (exists run :: Legal(s, run) && var t := After(s, run); j < |t.threads| && InFlight(t.threads[j]))
      <==> (s.threads[j].kind == Available || s.port.fd != 0) && (TestsFlag(s.threads[j].kind) ==> !s.port.interrupted)
  {
    var kind := s.threads[j].kind;
    if (kind == Available || s.port.fd != 0) && (TestsFlag(kind) ==> !s.port.interrupted) {
      assert Legal(s, []) && After(s, []) == s;
      var run := OpComesIn(s, [], j);
    }
    forall run | Legal(s, run) && var t := After(s, run); j < |t.threads| && InFlight(t.threads[j])
      ensures (kind == Available || s.port.fd != 0) && (TestsFlag(kind) ==> !s.port.interrupted)
    {
      if kind != Available && s.port.fd == 0 {
        ClosedPortRefuses(s, run, j);
      } else if TestsFlag(kind) && s.port.interrupted {
        InterruptedPortRefuses(s, run, j);
      }
    }
  }
}
