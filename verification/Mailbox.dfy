/** The WinCE monitor: CommEventThread produces event masks into a one-slot mailbox guarded by an
  * auto-reset event, eventLoop consumes them. Both run as interleaved atomic steps over
  * shared memory; the histories record what was produced, taken and sent. */
module Mailbox {

  type Mask = x: int | 0 <= x < 0x1_0000_0000

  datatype Producer = Starting | Waiting | Respecifying | Signalling | Spinning | Exited

  datatype Consumer = Checking | Releasing | Acknowledging | Sleeping | Reading | Clearing | Sending | Done

  datatype State = State(
    event: Mask, ready: bool,                 // the fields of EventInfoStruct the two threads share
    signalled: bool, closed: bool,            // the auto-reset event and its handle
    interrupted: bool,                        // monThreadisInterrupted
    producer: Producer, consumer: Consumer, local: Mask,
    produced: seq<Mask>, taken: seq<Mask>, sent: seq<Mask>,
    becameReady: bool, released: nat)         // the readiness handshake: how often the Java lock was let go

  /** Every failing system call is an action of its own. */
  datatype Action =
    | ProducerStarts | ProducerFails | WaitYields(mask: Mask) | MaskIsEmpty | Respecified | Signals | SeesCleared
    | Interrupt | Checks | Releases | Acknowledges | Wakes | TimesOut | WaitFails | Reads | Clears | Sends | SendStops

  predicate Init(s: State) {
    s.event == 0 && !s.ready && !s.signalled && !s.closed && s.producer == Starting && s.consumer == Checking
    && s.produced == s.taken == s.sent == [] && !s.becameReady && s.released == 0
  }

  predicate Enabled(s: State, a: Action) {
    match a
    case ProducerStarts => s.producer == Starting
    case ProducerFails => s.producer !in {Spinning, Exited}
    case WaitYields(_) => s.producer == Waiting
    case MaskIsEmpty => s.producer == Waiting
    case Respecified => s.producer == Respecifying
    case Signals => s.producer == Signalling && !s.closed
    case SeesCleared => s.producer == Spinning && s.event == 0
    case Interrupt => true
    case Checks => s.consumer == Checking
    case Releases => s.consumer == Releasing
    case Acknowledges => s.consumer == Acknowledging
    case Wakes => s.consumer == Sleeping && s.signalled && !s.closed
    case TimesOut => s.consumer == Sleeping
    case WaitFails => s.consumer == Sleeping
    case Reads => s.consumer == Reading
    case Clears => s.consumer == Clearing
    case Sends => s.consumer == Sending
    case SendStops => s.consumer == Sending
  }

  function Apply(s: State, a: Action): State
    requires Enabled(s, a)
  {
    match a
    case ProducerStarts => s.(ready := true, becameReady := true, producer := Waiting)
    case ProducerFails => s.(producer := Exited)
    case WaitYields(mask) => s.(event := mask, produced := s.produced + [mask], producer := Respecifying)
    case MaskIsEmpty => s
    case Respecified => s.(producer := Signalling)
    case Signals => s.(signalled := true, producer := Spinning)
    case SeesCleared => s.(producer := Waiting)
    case Interrupt => s.(interrupted := true)
    case Checks => if s.interrupted then s.(closed := true, consumer := Done) else s.(consumer := Releasing)
    case Releases => if s.ready then s.(released := s.released + 1, consumer := Acknowledging) else s.(consumer := Sleeping)
    case Acknowledges => s.(ready := false, consumer := Sleeping)
    case Wakes => s.(signalled := false, consumer := Reading)
    case TimesOut => s.(consumer := Checking)
    case WaitFails => s.(closed := true, consumer := Done)
    case Reads => s.(local := s.event, consumer := Clearing)
    case Clears => s.(event := 0, taken := s.taken + [s.local], consumer := Sending)
    case Sends => s.(sent := s.sent + [s.local], consumer := Checking)
    case SendStops => s.(closed := true, consumer := Done)
  }

  ghost predicate Legal(s: State, run: seq<Action>)
    decreases |run|
  {
    run == [] || (Enabled(s, run[0]) && Legal(Apply(s, run[0]), run[1..]))
  }

  ghost function After(s: State, run: seq<Action>): State
    requires Legal(s, run)
    decreases |run|
  {
    if run == [] then s else After(Apply(s, run[0]), run[1..])
  }

  // ---------------------------------------------------------------- sequences of masks

  function NonZero(s: seq<Mask>): seq<Mask> {
    if s == [] then []
    else
      var m := s[|s| - 1];
      NonZero(s[..|s| - 1]) + if m == 0 then [] else [m]
  }

  lemma NonZeroSnoc(s: seq<Mask>, m: Mask)
    ensures NonZero(s + [m]) == NonZero(s) + if m == 0 then [] else [m]
  {
  }

  /** a is b with some elements left out, order kept. */
  ghost predicate Subsequence(a: seq<Mask>, b: seq<Mask>) {
    a == [] ||
    (b != [] && (Subsequence(a, b[..|b| - 1]) ||
                 (a[|a| - 1] == b[|b| - 1] && Subsequence(a[..|a| - 1], b[..|b| - 1]))))
  }

  lemma SubsequenceSnoc(a: seq<Mask>, b: seq<Mask>, m: Mask)
    requires Subsequence(a, b)
    ensures Subsequence(a, b + [m]) && Subsequence(a + [m], b + [m])
  {
  }

  lemma {:induction false} SubsequenceShorter(a: seq<Mask>, m: Mask, b: seq<Mask>)
    requires Subsequence(a + [m], b)
    ensures Subsequence(a, b)
  {
    var c := b[..|b| - 1];
    assert (a + [m])[..|a|] == a;
    if Subsequence(a + [m], c) {
      SubsequenceShorter(a, m, c);
    }
    assert b == c + [b[|b| - 1]];
    SubsequenceSnoc(a, c, b[|b| - 1]);
  }

  // ---------------------------------------------------------------- what every run keeps

  /** The mask that has been produced but not yet counted as taken, if any. */
  function InSlot(s: State): seq<Mask> {
    if s.consumer == Clearing && s.local != 0 then [s.local] else if s.event != 0 then [s.event] else []
  }

  /** The slot is free whenever the producer waits, and a mask being cleared is the one that was read. */
  predicate SlotInv(s: State) {
    && (s.producer in {Starting, Waiting} ==> s.event == 0)
    && (s.consumer == Clearing && s.local != 0 ==> s.event == s.local)
  }

  /** Whatever is taken was produced, in order, each production at most once. */
  ghost predicate OrderInv(s: State) {
    Subsequence(NonZero(s.taken) + InSlot(s), NonZero(s.produced))
  }

  /** What is taken is sent at once, before anything else is taken. */
  predicate SendInv(s: State) {
    && (s.consumer == Sending ==> s.taken == s.sent + [s.local])
    && (s.consumer !in {Sending, Done} ==> s.taken == s.sent)
    && s.sent <= s.taken && |s.taken| <= |s.sent| + 1
  }

  /** No lost wake-up: a producer spinning on a full slot has a consumer on its way. */
  predicate WakeInv(s: State) {
    s.producer == Spinning && s.event != 0 && s.consumer != Done ==> s.signalled || s.consumer in {Reading, Clearing}
  }

  /** The Java lock is let go at most once, and only after the producer listens. */
  predicate ReadyInv(s: State) {
    && (s.consumer == Acknowledging ==> s.ready && s.released == 1)
    && (s.consumer != Acknowledging && s.ready ==> s.released == 0)
    && s.released <= 1 && (s.ready || s.released > 0 ==> s.becameReady)
    && (s.producer == Starting ==> !s.becameReady)
    && (s.becameReady ==> s.ready || s.released == 1)
  }

  ghost predicate Inv(s: State) {
    SlotInv(s) && OrderInv(s) && SendInv(s) && WakeInv(s) && ReadyInv(s)
  }

  lemma SlotKept(s: State, a: Action)
    requires SlotInv(s) && Enabled(s, a)
    ensures SlotInv(Apply(s, a))
  {
  }

  lemma SendKept(s: State, a: Action)
    requires SendInv(s) && Enabled(s, a)
    ensures SendInv(Apply(s, a))
  {
  }

  lemma WakeKept(s: State, a: Action)
    requires SlotInv(s) && WakeInv(s) && Enabled(s, a)
    ensures WakeInv(Apply(s, a))
  {
  }

  lemma ReadyKept(s: State, a: Action)
    requires ReadyInv(s) && Enabled(s, a)
    ensures ReadyInv(Apply(s, a))
  {
  }

  lemma YieldKeepsOrder(taken: seq<Mask>, produced: seq<Mask>, mask: Mask)
    requires Subsequence(NonZero(taken), NonZero(produced))
    ensures Subsequence(NonZero(taken) + if mask != 0 then [mask] else [], NonZero(produced + [mask]))
  {
    NonZeroSnoc(produced, mask);
    SubsequenceSnoc(NonZero(taken), NonZero(produced), mask);
    assert NonZero(taken) + [] == NonZero(taken) && NonZero(produced) + [] == NonZero(produced);
  }

  lemma ClearKeepsOrder(taken: seq<Mask>, produced: seq<Mask>, read: Mask, lost: seq<Mask>)
    requires Subsequence(NonZero(taken) + lost, NonZero(produced))
    requires if read != 0 then lost == [read] else |lost| <= 1
    ensures Subsequence(NonZero(taken + [read]), NonZero(produced))
  {
    NonZeroSnoc(taken, read);
    if read == 0 && lost != [] {
      assert lost == [lost[0]];
      SubsequenceShorter(NonZero(taken), lost[0], NonZero(produced));
    }
    assert NonZero(taken) + [] == NonZero(taken);
  }

  lemma WaitKeepsOrder(s: State, mask: Mask)
    requires SlotInv(s) && OrderInv(s) && Enabled(s, WaitYields(mask))
    ensures OrderInv(Apply(s, WaitYields(mask)))
  {
    var t := Apply(s, WaitYields(mask));
    assert InSlot(s) == [] && InSlot(t) == if mask != 0 then [mask] else [];
    assert NonZero(s.taken) + InSlot(s) == NonZero(s.taken);
    YieldKeepsOrder(s.taken, s.produced, mask);
  }

  lemma TakingKeepsOrder(s: State)
    requires SlotInv(s) && OrderInv(s) && Enabled(s, Clears)
    ensures OrderInv(Apply(s, Clears))
  {
    var t := Apply(s, Clears);
    ClearKeepsOrder(s.taken, s.produced, s.local, InSlot(s));
    assert InSlot(t) == [];
    assert NonZero(t.taken) + InSlot(t) == NonZero(t.taken);
  }

  lemma OthersLeaveTheSlot(s: State, a: Action)
    requires Enabled(s, a) && !a.WaitYields? && !a.Clears?
    ensures var t := Apply(s, a); InSlot(t) == InSlot(s) && t.taken == s.taken && t.produced == s.produced
  {
  }

  lemma OrderIsInductive(s: State, a: Action)
    requires SlotInv(s) && OrderInv(s) && Enabled(s, a)
    ensures OrderInv(Apply(s, a))
  {
    match a
    case WaitYields(mask) => WaitKeepsOrder(s, mask);
    case Clears => TakingKeepsOrder(s);
    case _ => OthersLeaveTheSlot(s, a);
  }

  lemma {:induction false} InvHoldsAlways(s: State, run: seq<Action>)
    requires Inv(s) && Legal(s, run)
    ensures Inv(After(s, run))
    decreases |run|
  {
    if run != [] {
      SlotKept(s, run[0]);
      SendKept(s, run[0]);
      WakeKept(s, run[0]);
      ReadyKept(s, run[0]);
      OrderIsInductive(s, run[0]);
      InvHoldsAlways(Apply(s, run[0]), run[1..]);
    }
  }

  /** Over every interleaving: the nonzero masks sent to Java are nonzero masks the driver produced,
    * in order, none invented and none twice; a producer spinning on a full slot is never
    * forgotten; and the Java lock is let go only by a listening producer's doing. */
  lemma NothingInventedNothingTwice(s: State, run: seq<Action>)
    requires Init(s) && Legal(s, run)
    ensures var t := After(s, run);
      && Subsequence(NonZero(t.taken), NonZero(t.produced))
      && t.sent <= t.taken && |t.taken| <= |t.sent| + 1
      && WakeInv(t)
      && t.released <= 1 && (t.released == 1 ==> t.becameReady)
  {
    InvHoldsAlways(s, run);
    var t := After(s, run);
    if InSlot(t) != [] {
      SubsequenceShorter(NonZero(t.taken), InSlot(t)[0], NonZero(t.produced));
    } else {
      assert NonZero(t.taken) + InSlot(t) == NonZero(t.taken);
    }
  }

  // ---------------------------------------------------------------- stopping and starting

  predicate ByConsumer(a: Action) {
    a in {Checks, Releases, Acknowledges, Wakes, TimesOut, WaitFails, Reads, Clears, Sends, SendStops}
  }

  predicate ByProducer(a: Action) {
    !ByConsumer(a) && a != Interrupt
  }

  function ConsumerSteps(run: seq<Action>): nat {
    if run == [] then 0 else ConsumerSteps(run[1..]) + if ByConsumer(run[0]) then 1 else 0
  }

  /** The steps the consumer can still take before it looks at the flag and stops. */
  function StepsLeft(c: Consumer): nat {
    match c
    case Releasing => 7 case Acknowledging => 6 case Sleeping => 5 case Reading => 4 case Clearing => 3 case Sending => 2
    case Checking => 1 case Done => 0
  }

  lemma InterruptedStep(s: State, a: Action)
    requires s.interrupted && Enabled(s, a)
    ensures var t := Apply(s, a);
      && t.interrupted && (if ByConsumer(a) then 1 else 0) + StepsLeft(t.consumer) <= StepsLeft(s.consumer)
      && |t.taken| <= |s.taken| + (if StepsLeft(s.consumer) >= 3 then 1 else 0)
        - (if StepsLeft(t.consumer) >= 3 then 1 else 0)
  {
  }

  /** Once interrupted the monitor takes at most seven more steps and at most one more mask, and it stays interrupted. */
  lemma {:induction false} InterruptedMonitorStops(s: State, run: seq<Action>)
    requires s.interrupted && Legal(s, run)
    ensures var t := After(s, run);
      && t.interrupted && ConsumerSteps(run) + StepsLeft(t.consumer) <= StepsLeft(s.consumer)
      && |t.taken| <= |s.taken| + (if StepsLeft(s.consumer) >= 3 then 1 else 0)
        - (if StepsLeft(t.consumer) >= 3 then 1 else 0)
    decreases |run|
  {
    if run != [] {
      var t := Apply(s, run[0]);
      InterruptedStep(s, run[0]);
      InterruptedMonitorStops(t, run[1..]);
    }
  }

  /** Interrupting is noticed: after an Interrupt, whatever comes next, the monitor takes at most seven steps and one mask more. */
  lemma InterruptIsNoticed(s: State, run: seq<Action>)
    requires Legal(Apply(s, Interrupt), run)
    ensures var t := After(Apply(s, Interrupt), run);
      ConsumerSteps(run) <= 7 && |t.taken| <= |s.taken| + 1 && (ConsumerSteps(run) == StepsLeft(s.consumer) ==> t.consumer == Done)
  {
    InterruptedMonitorStops(Apply(s, Interrupt), run);
  }

  lemma StoppedStep(s: State, a: Action)
    requires Enabled(s, a)
    ensures s.consumer == Done ==> Apply(s, a).consumer == Done && !ByConsumer(a)
    ensures s.producer == Exited ==> Apply(s, a).producer == Exited && !ByProducer(a)
    ensures s.closed ==> Apply(s, a).closed
  {
  }

  /** A thread that has stopped takes no further step, and a stopped consumer has closed the event. */
  lemma {:induction false} StoppedForGood(s: State, run: seq<Action>)
    requires Legal(s, run)
    ensures s.consumer == Done ==> After(s, run).consumer == Done && forall k :: 0 <= k < |run| ==> !ByConsumer(run[k])
    ensures s.producer == Exited ==> After(s, run).producer == Exited && forall k :: 0 <= k < |run| ==> !ByProducer(run[k])
    ensures s.closed ==> After(s, run).closed
    decreases |run|
  {
    if run != [] {
      StoppedStep(s, run[0]);
      StoppedForGood(Apply(s, run[0]), run[1..]);
      forall k | 1 <= k < |run| ensures run[k] == run[1..][k - 1] {
      }
    }
  }

  /** A failed wait, a listener that asks to stop, and a flag found up end the consumer, a failed call the producer. */
  lemma StopsAreFinal(s: State, a: Action, run: seq<Action>)
    requires Enabled(s, a) && Legal(Apply(s, a), run)
    ensures a in {WaitFails, SendStops} || (a == Checks && s.interrupted) ==>
      After(Apply(s, a), run).closed && forall k :: 0 <= k < |run| ==> !ByConsumer(run[k])
    ensures a == ProducerFails ==> forall k :: 0 <= k < |run| ==> !ByProducer(run[k])
  {
    StoppedForGood(Apply(s, a), run);
  }

  /** The first time round after the producer has become ready, and never before, the Java lock is let go, once. */
  lemma LockIsLetGo(s: State, run: seq<Action>)
    requires Init(s) && Legal(s, run) && Enabled(After(s, run), Releases)
    ensures var t := After(s, run);
      && (Apply(t, Releases).released == 1 <==> t.becameReady)
      && (Apply(t, Releases).released == 0 <==> !t.becameReady)
  {
    InvHoldsAlways(s, run);
  }

  // ---------------------------------------------------------------- runs without empty masks

  ghost predicate NoEmptyMask(run: seq<Action>) {
    forall k :: 0 <= k < |run| && run[k].WaitYields? ==> run[k].mask != 0
  }

  function Slot(s: State): seq<Mask> {
    if s.event != 0 then [s.event] else []
  }

  predicate ExactInv(s: State) {
    && s.produced == s.taken + Slot(s)
    && (s.signalled ==> s.event != 0 && s.producer == Spinning && s.consumer !in {Reading, Clearing})
    && (s.consumer in {Reading, Clearing} ==> s.event != 0 && s.producer == Spinning)
    && (s.consumer == Clearing ==> s.local == s.event)
    && (s.producer in {Respecifying, Signalling} ==> s.event != 0)
    && (s.producer in {Starting, Waiting} ==> s.event == 0)
  }

  lemma ExactIsInductive(s: State, a: Action)
    requires ExactInv(s) && Enabled(s, a) && (a.WaitYields? ==> a.mask != 0)
    ensures ExactInv(Apply(s, a))
  {
  }

  lemma {:induction false} ExactHoldsAlways(s: State, run: seq<Action>)
    requires ExactInv(s) && Legal(s, run) && NoEmptyMask(run)
    ensures ExactInv(After(s, run))
    decreases |run|
  {
    if run != [] {
      ExactIsInductive(s, run[0]);
      ExactHoldsAlways(Apply(s, run[0]), run[1..]);
    }
  }

  /** While the driver yields no empty mask, nothing is lost: what was produced is exactly what
    * was sent, then at most one mask being sent, then at most one mask in the slot. */
  lemma NothingLost(s: State, run: seq<Action>)
    requires Init(s) && Legal(s, run) && NoEmptyMask(run)
    ensures var t := After(s, run);
      && t.produced == t.taken + Slot(t)
      && t.sent <= t.taken && |t.taken| <= |t.sent| + 1
      && (t.consumer !in {Sending, Done} ==> t.produced == t.sent + Slot(t))
  {
    InvHoldsAlways(s, run);
    ExactHoldsAlways(s, run);
  }

  // ---------------------------------------------------------------- exactly when a mask is lost

  /** The consumer, woken for an empty mask, clears a slot the producer has filled again meanwhile. */
  predicate Loses(s: State, a: Action) {
    a == Clears && s.local == 0 && s.event != 0
  }

  ghost function Lost(s: State, run: seq<Action>): nat
    requires Legal(s, run)
    decreases |run|
  {
    if run == [] then 0 else (if Loses(s, run[0]) then 1 else 0) + Lost(Apply(s, run[0]), run[1..])
  }

  lemma StepConserves(s: State, a: Action)
    requires SlotInv(s) && Enabled(s, a)
    ensures var t := Apply(s, a);
      |NonZero(t.produced)| + |NonZero(s.taken)| + |InSlot(s)|
        == |NonZero(s.produced)| + |NonZero(t.taken)| + |InSlot(t)| + if Loses(s, a) then 1 else 0
  {
    match a
    case WaitYields(mask) => NonZeroSnoc(s.produced, mask);
    case Clears => NonZeroSnoc(s.taken, s.local);
    case _ => OthersLeaveTheSlot(s, a);
  }

  lemma {:induction false} RunConserves(s: State, run: seq<Action>)
    requires SlotInv(s) && Legal(s, run)
    ensures var t := After(s, run);
      |NonZero(t.produced)| + |NonZero(s.taken)| + |InSlot(s)|
        == |NonZero(s.produced)| + |NonZero(t.taken)| + |InSlot(t)| + Lost(s, run)
    decreases |run|
  {
    if run != [] {
      SlotKept(s, run[0]);
      StepConserves(s, run[0]);
      RunConserves(Apply(s, run[0]), run[1..]);
    }
  }

  lemma {:induction false} SubsequenceLength(a: seq<Mask>, b: seq<Mask>)
    requires Subsequence(a, b)
    ensures |a| <= |b| && (|a| == |b| ==> a == b)
  {
    if a != [] {
      var c := b[..|b| - 1];
      if Subsequence(a, c) {
        SubsequenceLength(a, c);
      } else {
        SubsequenceLength(a[..|a| - 1], c);
        assert a == a[..|a| - 1] + [a[|a| - 1]] && b == c + [b[|b| - 1]];
      }
    }
  }

  /** Over every run the nonzero masks produced are those taken, at most one in the slot, and those lost; the ones taken
    * and in the slot are all of them, in order, exactly when no Clears meets a slot filled again. */
  lemma MasksConserved(s: State, run: seq<Action>)
    requires Init(s) && Legal(s, run)
    ensures var t := After(s, run);
      && |NonZero(t.produced)| == |NonZero(t.taken)| + |InSlot(t)| + Lost(s, run)
      && (NonZero(t.produced) == NonZero(t.taken) + InSlot(t) <==> Lost(s, run) == 0)
  {
    RunConserves(s, run);
    InvHoldsAlways(s, run);
    var t := After(s, run);
    SubsequenceLength(NonZero(t.taken) + InSlot(t), NonZero(t.produced));
  }

  /** An empty mask, and a nonzero one some time after it. */
  ghost predicate EmptyThenNonzero(p: seq<Mask>) {
    exists i, j :: 0 <= i < j < |p| && p[i] == 0 && p[j] != 0
  }

  lemma {:induction false} ProducedGrows(s: State, run: seq<Action>)
    requires Legal(s, run)
    ensures s.produced <= After(s, run).produced
    decreases |run|
  {
    if run != [] {
      ProducedGrows(Apply(s, run[0]), run[1..]);
    }
  }

  /** Before the first empty mask nothing is out of step; from then on the slot stays empty. */
  ghost predicate CleanInv(s: State) {
    if 0 in s.produced then s.event == 0 else ExactInv(s)
  }

  lemma CleanIsInductive(s: State, a: Action)
    requires CleanInv(s) && Enabled(s, a) && !EmptyThenNonzero(Apply(s, a).produced)
    ensures CleanInv(Apply(s, a)) && !Loses(s, a)
  {
    var t := Apply(s, a);
    if a.WaitYields? && 0 in s.produced {
      var i :| 0 <= i < |s.produced| && s.produced[i] == 0;
      assert t.produced[i] == 0 && t.produced[|s.produced|] == a.mask;
    } else if 0 !in s.produced && (a.WaitYields? ==> a.mask != 0) {
      ExactIsInductive(s, a);
    } else if a.WaitYields? {
      assert t.produced[|s.produced|] == 0;
    }
  }

  lemma {:induction false} CleanRunsLoseNothing(s: State, run: seq<Action>)
    requires CleanInv(s) && Legal(s, run) && !EmptyThenNonzero(After(s, run).produced)
    ensures Lost(s, run) == 0
    decreases |run|
  {
    if run != [] {
      var t := Apply(s, run[0]);
      ProducedGrows(t, run[1..]);
      assert !EmptyThenNonzero(t.produced);
      CleanIsInductive(s, run[0]);
      CleanRunsLoseNothing(t, run[1..]);
    }
  }

  lemma {:induction false} InterruptedRunsLoseNothing(s: State, run: seq<Action>)
    requires s.interrupted && s.consumer in {Checking, Done} && Legal(s, run)
    ensures Lost(s, run) == 0
    decreases |run|
  {
    if run != [] {
      InterruptedRunsLoseNothing(Apply(s, run[0]), run[1..]);
    }
  }

  lemma {:induction false} Longer(s: State, run: seq<Action>, a: Action) returns (longer: seq<Action>)
    requires Legal(s, run) && Enabled(After(s, run), a)
    ensures longer == run + [a] && Legal(s, longer) && After(s, longer) == Apply(After(s, run), a)
    ensures Lost(s, longer) == Lost(s, run) + if Loses(After(s, run), a) then 1 else 0
    decreases |run|
  {
    longer := run + [a];
    if run == [] {
      assert longer[1..] == [];
    } else {
      var rest := Longer(Apply(s, run[0]), run[1..], a);
      assert longer[1..] == rest;
    }
  }

  /** Both threads wait, and the slot is empty. */
  predicate Resting(s: State) {
    s.producer == Waiting && s.consumer == Sleeping && s.event == 0
    && !s.signalled && !s.closed && !s.interrupted && !s.ready
  }

  lemma StartUp(s: State) returns (run: seq<Action>)
    requires Init(s) && !s.interrupted
    ensures Legal(s, run) && Resting(After(s, run)) && After(s, run).produced == [] && Lost(s, run) == 0
  {
    run := Longer(s, [], ProducerStarts);
    run := Longer(s, run, Checks);
    run := Longer(s, run, Releases);
    run := Longer(s, run, Acknowledges);
  }

  /** The consumer goes from sending back to sleep. */
  lemma BackToSleep(s: State, run: seq<Action>) returns (longer: seq<Action>)
    requires Legal(s, run)
    requires var t := After(s, run); t.consumer == Sending && !t.interrupted && !t.ready
    ensures Legal(s, longer) && Lost(s, longer) == Lost(s, run)
    ensures var t := After(s, run); After(s, longer) == t.(sent := t.sent + [t.local], consumer := Sleeping)
  {
    longer := Longer(s, run, Sends);
    longer := Longer(s, longer, Checks);
    longer := Longer(s, longer, Releases);
  }

  /** The producer yields a mask and signals it. */
  lemma Announced(s: State, run: seq<Action>, mask: Mask) returns (longer: seq<Action>)
    requires Legal(s, run) && After(s, run).producer == Waiting && !After(s, run).closed
    ensures Legal(s, longer) && Lost(s, longer) == Lost(s, run)
    ensures var t := After(s, run);
      After(s, longer) == t.(event := mask, produced := t.produced + [mask], signalled := true, producer := Spinning)
  {
    longer := Longer(s, run, WaitYields(mask));
    longer := Longer(s, longer, Respecified);
    longer := Longer(s, longer, Signals);
  }

  /** One mask goes through. */
  lemma DeliveredOne(s: State, run: seq<Action>, mask: Mask) returns (longer: seq<Action>)
    requires Legal(s, run) && Resting(After(s, run))
    ensures Legal(s, longer) && Resting(After(s, longer)) && Lost(s, longer) == Lost(s, run)
    ensures After(s, longer).produced == After(s, run).produced + [mask]
  {
    longer := Announced(s, run, mask);
    longer := Longer(s, longer, Wakes);
    longer := Longer(s, longer, Reads);
    longer := Longer(s, longer, Clears);
    longer := Longer(s, longer, SeesCleared);
    longer := BackToSleep(s, longer);
  }

  /** A signal with nothing behind it wakes the consumer for nothing. */
  lemma WokenForNothing(s: State, run: seq<Action>) returns (longer: seq<Action>)
    requires Legal(s, run)
    requires var t := After(s, run); Resting(t.(signalled := false)) && t.signalled
    ensures Legal(s, longer) && Resting(After(s, longer)) && Lost(s, longer) == Lost(s, run)
    ensures After(s, longer).produced == After(s, run).produced
  {
    longer := Longer(s, run, Wakes);
    longer := Longer(s, longer, Reads);
    longer := Longer(s, longer, Clears);
    longer := BackToSleep(s, longer);
  }

  /** An empty mask wakes the consumer; the next one is in the slot before the consumer clears it. */
  lemma FilledAgain(s: State, run: seq<Action>, mask: Mask) returns (longer: seq<Action>)
    requires Legal(s, run) && Resting(After(s, run))
    ensures Legal(s, longer) && Lost(s, longer) == Lost(s, run)
    ensures var t := After(s, run);
      After(s, longer) == t.(event := mask, produced := t.produced + [0, mask], signalled := true, producer := Spinning,
        local := 0, consumer := Clearing)
  {
    longer := Announced(s, run, 0);
    longer := Longer(s, longer, Wakes);
    longer := Longer(s, longer, Reads);
    longer := Longer(s, longer, SeesCleared);
    longer := Announced(s, longer, mask);
    assert After(s, run).produced + [0] + [mask] == After(s, run).produced + [0, mask];
  }

  lemma OverwrittenOne(s: State, run: seq<Action>, mask: Mask) returns (longer: seq<Action>)
    requires Legal(s, run) && Resting(After(s, run)) && mask != 0
    ensures Legal(s, longer) && Resting(After(s, longer)) && Lost(s, longer) == Lost(s, run) + 1
    ensures After(s, longer).produced == After(s, run).produced + [0, mask]
  {
    longer := FilledAgain(s, run, mask);
    longer := Longer(s, longer, Clears);
    longer := Longer(s, longer, SeesCleared);
    longer := BackToSleep(s, longer);
    longer := WokenForNothing(s, longer);
  }

  lemma {:induction false} DeliveredAll(s: State, run: seq<Action>, p: seq<Mask>) returns (longer: seq<Action>)
    requires Legal(s, run) && Resting(After(s, run))
    ensures Legal(s, longer) && Resting(After(s, longer)) && Lost(s, longer) == Lost(s, run)
    ensures After(s, longer).produced == After(s, run).produced + p
  {
    longer := run;
    if p != [] {
      longer := DeliveredAll(s, run, p[..|p| - 1]);
      longer := DeliveredOne(s, longer, p[|p| - 1]);
      assert p == p[..|p| - 1] + [p[|p| - 1]];
      assert After(s, run).produced + p[..|p| - 1] + [p[|p| - 1]] == After(s, run).produced + p;
    }
  }

  lemma {:induction false} AdjacentPair(p: seq<Mask>, i: nat, j: nat) returns (k: nat)
    requires i < j < |p| && p[i] == 0 && p[j] != 0
    ensures k + 1 < |p| && p[k] == 0 && p[k + 1] != 0
    decreases j - i
  {
    if p[i + 1] != 0 {
      k := i;
    } else {
      k := AdjacentPair(p, i + 1, j);
    }
  }

  lemma LossyRunAt(s: State, p: seq<Mask>, k: nat) returns (run: seq<Action>)
    requires Init(s) && !s.interrupted && k + 1 < |p| && p[k] == 0 && p[k + 1] != 0
    ensures Legal(s, run) && After(s, run).produced == p && Lost(s, run) > 0
  {
    var before, after := p[..k], p[k + 2..];
    assert p == before + [0, p[k + 1]] + after;
    run := StartUp(s);
    run := DeliveredAll(s, run, before);
    assert [] + before == before;
    run := OverwrittenOne(s, run, p[k + 1]);
    run := DeliveredAll(s, run, after);
  }

  lemma LossyRunFor(s: State, p: seq<Mask>) returns (run: seq<Action>)
    requires Init(s) && !s.interrupted && EmptyThenNonzero(p)
    ensures Legal(s, run) && After(s, run).produced == p && Lost(s, run) > 0
  {
    var i: nat, j: nat :| i < j < |p| && p[i] == 0 && p[j] != 0;
    var k := AdjacentPair(p, i, j);
    run := LossyRunAt(s, p, k);
  }

  /** What the driver yields can lose a mask in some interleaving exactly when an empty mask in it is followed by a nonzero one
    * and the monitor was not told to stop before it began. */
  lemma LossPossibleExactly(s: State, p: seq<Mask>)
    requires Init(s)
    ensures (exists run :: Legal(s, run) && After(s, run).produced == p && Lost(s, run) > 0)
      <==> !s.interrupted && EmptyThenNonzero(p)
  {
    if !s.interrupted && EmptyThenNonzero(p) {
      var run := LossyRunFor(s, p);
    }
    forall run | Legal(s, run) && After(s, run).produced == p && Lost(s, run) > 0
      ensures !s.interrupted && EmptyThenNonzero(p)
    {
      if s.interrupted {
        InterruptedRunsLoseNothing(s, run);
      } else if !EmptyThenNonzero(p) {
        CleanRunsLoseNothing(s, run);
      }
    }
  }

  /** The shortest such case: one empty mask, and the mask 1 after it is gone. */
  lemma AnEmptyMaskCanLoseTheNext(s: State) returns (run: seq<Action>)
    requires Init(s) && !s.interrupted
    ensures Legal(s, run)
    ensures var t := After(s, run); t.produced == [0, 1] && NonZero(t.taken) == [] && InSlot(t) == []
  {
    var p: seq<Mask> := [0, 1];
    assert p[0] == 0 && p[1] != 0;
    run := LossyRunFor(s, p);
    MasksConserved(s, run);
    assert p[..1] == [0] && NonZero([0]) == [] && NonZero(p) == [1];
  }
}
