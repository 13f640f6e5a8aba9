/** The life of the monitor thread in RXTXPort: the constructor, addEventListener, removeEventListener
  * and the notifyOn methods on one application thread, interleaved with the monitor
  * thread itself. Nobody interrupts the threads, and a join waits for the thread to end. */
module Listener {

  datatype Monitor = NoMonitor | Started | Preparing | Running | Ended

  /** Where the application thread is. The start-up sequence is shared by the constructor and
    * addEventListener. */
  datatype App =
    | Unborn
    | Returned | Threw                                              // between calls
    | AddListener | AddTest
    | StartLock | StartNew | StartRun | StartWait | StartAlive
    | RemWait | RemTest | RemNullQuick | RemListenerQuick
    | RemTestAlive | RemRaise | RemInterrupt | RemJoin | RemNull | RemListener | RemUnlock | RemDead | RemFlag
    | NotWait | NotLock | NotNative | NotStore | NotUnlock

  datatype State = State(alive: bool, monThread: bool, interrupted: bool, lock: bool, listener: bool,
                         monitor: Monitor, app: App)

  datatype Call = Construct | Add | Remove | Notify

  datatype Action = Begin(call: Call) | AppStep | MonitorStep(fails: bool)

  predicate Init(s: State) {
    s == State(false, false, true, true, false, NoMonitor, Unborn)
  }

  predicate BetweenCalls(s: State) {
    s.app in {Returned, Threw}
  }

  /** In the start-up sequence, or just before it with the listener already stored. */
  predicate Starting(s: State) {
    s.app in {AddTest, StartLock, StartNew, StartRun, StartWait, StartAlive}
  }

  predicate Notifying(s: State) {
    s.app in {NotWait, NotLock, NotNative, NotStore, NotUnlock}
  }

  predicate Removing(s: State) {
    s.app in {RemWait, RemTest, RemNullQuick, RemListenerQuick, RemTestAlive, RemRaise, RemInterrupt, RemJoin, RemNull,
      RemListener, RemUnlock, RemDead, RemFlag}
  }

  predicate Enabled(s: State, a: Action) {
    match a
    case Begin(call) => if call == Construct then s.app == Unborn else BetweenCalls(s)
    case AppStep =>
      s.app != Unborn && !BetweenCalls(s)
      && (s.app in {StartWait, RemWait, NotWait} ==> !s.lock)
      && (s.app == RemJoin ==> s.monitor == Ended)
    case MonitorStep(fails) =>
      s.monitor in {Started, Preparing} || (s.monitor == Running && (s.interrupted || fails))
  }

  function Apply(s: State, a: Action): State
    requires Enabled(s, a)
  {
    match a
    case Begin(call) =>
      s.(app := match call case Construct => StartLock case Add => AddListener case Remove => RemWait case Notify => NotWait)
    case MonitorStep(fails) =>
      (match s.monitor
       case Started => s.(interrupted := false, monitor := Preparing)
       case Preparing => if fails then s.(monitor := Ended) else s.(lock := false, monitor := Running)
       case _ => s.(monitor := Ended))
    case AppStep =>
      match s.app
      case AddListener => if s.listener then s.(app := Threw) else s.(listener := true, app := AddTest)
      case AddTest => s.(app := if s.alive then Returned else StartLock)
      case StartLock => s.(lock := true, app := StartNew)
      case StartNew => s.(monThread := true, app := StartRun)
      case StartRun => s.(monitor := Started, app := StartWait)
      case StartWait => s.(app := StartAlive)
      case StartAlive => s.(alive := true, app := Returned)
      case RemWait => s.(app := RemTest)
      case RemTest => s.(app := if s.interrupted then RemNullQuick else RemTestAlive)
      case RemNullQuick => s.(monThread := false, app := RemListenerQuick)
      case RemListenerQuick => s.(listener := false, app := Returned)
      case RemTestAlive => s.(app := if s.monThread && s.monitor in {Started, Preparing, Running} then RemRaise else RemNull)
      case RemRaise => s.(interrupted := true, app := RemInterrupt)
      case RemInterrupt => s.(interrupted := true, app := RemJoin)
      case RemJoin => s.(app := RemNull)
      case RemNull => s.(monThread := false, app := RemListener)
      case RemListener => s.(listener := false, app := RemUnlock)
      case RemUnlock => s.(lock := false, app := RemDead)
      case RemDead => s.(alive := false, app := RemFlag)
      case RemFlag => s.(interrupted := true, app := Returned)
      case NotWait => s.(app := NotLock)
      case NotLock => s.(lock := true, app := NotNative)
      case NotNative => s.(app := NotStore)
      case NotStore => if s.monThread then s.(app := NotUnlock) else s.(app := Threw)
      case NotUnlock => s.(lock := false, app := Returned)
      case _ => s
  }

  ghost predicate Legal(s: State, run: seq<Action>)
    decreases |run|
  {
    run == [] || (Enabled(s, run[0]) && Legal(Apply(s, run[0]), run[1..]))
  }

  ghost function After(s: State, run: seq<Action>): State
    requires Legal(s, run)
    decreases |run|
  {
    if run == [] then s else After(Apply(s, run[0]), run[1..])
  }

  // ---------------------------------------------------------------- what every run keeps

  /** The four views of "a monitor is up" agree, and a listener has one. */
  predicate Agree(s: State) {
    && s.alive == s.monThread == !s.interrupted
    && (s.listener ==> s.alive)
    && (if s.alive then s.monitor in {Running, Ended} else s.monitor in {NoMonitor, Ended})
  }

  /** No monitor, nothing left of the last one. */
  predicate Down(s: State) {
    !s.alive && !s.monThread && s.interrupted && s.monitor in {NoMonitor, Ended}
  }

  predicate Up(s: State) {
    s.alive && s.monThread && s.monitor in {Running, Ended}
  }

  /** Inv spells out what holds at each point of the application thread. */
  predicate Inv(s: State) {
    match s.app
    case Unborn => Init(s)
    case Returned => Agree(s) && !s.lock
    case Threw => Agree(s) && (s.lock ==> !s.monThread)
    case AddListener => Agree(s) && (s.lock ==> !s.monThread)
    case AddTest => Agree(s.(listener := false)) && s.listener && (s.lock ==> !s.monThread)
    case StartLock => Down(s)
    case StartNew => Down(s) && s.lock
    case StartRun => Down(s.(monThread := false)) && s.monThread && s.lock
    case StartWait =>
      !s.alive && s.monThread &&
      (match s.monitor
       case NoMonitor => false
       case Started => s.interrupted && s.lock
       case Preparing => !s.interrupted && s.lock
       case _ => !s.interrupted)
    case StartAlive => !s.alive && s.monThread && !s.interrupted && !s.lock && s.monitor in {Running, Ended}
    case RemWait => Agree(s) && (s.lock ==> !s.monThread)
    case RemTest => Agree(s) && !s.lock
    case RemNullQuick => Down(s) && !s.lock && !s.listener
    case RemListenerQuick => Down(s) && !s.lock && !s.listener
    case RemTestAlive => Up(s) && !s.interrupted && !s.lock
    case RemRaise => Up(s) && !s.interrupted && !s.lock
    case RemInterrupt => Up(s) && s.interrupted && !s.lock
    case RemJoin => Up(s) && s.interrupted && !s.lock
    case RemNull => Up(s) && s.monitor == Ended && !s.lock
    case RemListener => s.alive && !s.monThread && s.monitor == Ended && !s.lock
    case RemUnlock => s.alive && !s.monThread && s.monitor == Ended && !s.lock && !s.listener
    case RemDead => s.alive && !s.monThread && s.monitor == Ended && !s.lock && !s.listener
    case RemFlag => !s.alive && !s.monThread && s.monitor == Ended && !s.lock && !s.listener
    case NotWait => Agree(s) && (s.lock ==> !s.monThread)
    case NotLock => Agree(s) && !s.lock
    case NotNative => Agree(s) && s.lock
    case NotStore => Agree(s) && s.lock
    case NotUnlock => Agree(s) && s.lock && s.monThread
  }

  lemma CallsKeepInv(s: State, a: Action)
    requires Inv(s) && Enabled(s, a) && a.Begin?
    ensures Inv(Apply(s, a))
  {
  }

  lemma MonitorKeepsInv(s: State, a: Action)
    requires Inv(s) && Enabled(s, a) && a.MonitorStep?
    ensures Inv(Apply(s, a))
  {
  }

  lemma RemovalKeepsInv(s: State)
    requires Inv(s) && Enabled(s, AppStep) && Removing(s)
    ensures Inv(Apply(s, AppStep))
  {
  }

  lemma OtherCallsKeepInv(s: State)
    requires Inv(s) && Enabled(s, AppStep) && !Removing(s)
    ensures Inv(Apply(s, AppStep))
  {
  }

  lemma InvIsInductive(s: State, a: Action)
    requires Inv(s) && Enabled(s, a)
    ensures Inv(Apply(s, a))
  {
    match a
    case Begin(_) => CallsKeepInv(s, a);
    case AppStep => if Removing(s) { RemovalKeepsInv(s); } else { OtherCallsKeepInv(s); }
    case MonitorStep(_) => MonitorKeepsInv(s, a);
  }

  lemma {:induction false} InvHoldsAlways(s: State, run: seq<Action>)
    requires Inv(s) && Legal(s, run)
    ensures Inv(After(s, run))
    decreases |run|
  {
    if run != [] {
      InvIsInductive(s, run[0]);
      InvHoldsAlways(Apply(s, run[0]), run[1..]);
    }
  }

  /** At every normal return, whatever the interleaving: the three flags agree, the lock is free,
    * and a registered listener has a monitor that has been told of nothing. */
  lemma FlagsAgreeAtEveryReturn(s: State, run: seq<Action>)
    requires Init(s) && Legal(s, run) && After(s, run).app == Returned
    ensures var t := After(s, run);
      && t.alive == t.monThread == !t.interrupted && !t.lock && (t.listener ==> t.alive)
      && (t.alive ==> t.monitor in {Running, Ended}) && (!t.alive ==> t.monitor in {NoMonitor, Ended})
  {
    InvHoldsAlways(s, run);
  }

  /** Two monitor threads never run at once: one is started only when there is none or it has ended. */
  lemma OneMonitorAtATime(s: State, run: seq<Action>)
    requires Init(s) && Legal(s, run) && After(s, run).app == StartRun
    ensures After(s, run).monitor in {NoMonitor, Ended}
  {
    InvHoldsAlways(s, run);
  }

  // ---------------------------------------------------------------- how a call ends

  /** The steps of one call: no other call begins. */
  ghost predicate OneCall(run: seq<Action>) {
    forall k :: 0 <= k < |run| ==> !run[k].Begin?
  }

  /** A call goes through the steps and ends in u. */
  ghost predicate Ends(s: State, call: Call, more: seq<Action>, u: State)
    requires Enabled(s, Begin(call))
  {
    Legal(Apply(s, Begin(call)), more) && OneCall(more) && After(Apply(s, Begin(call)), more) == u && BetweenCalls(u)
  }

  /** In a notifyOn nobody creates or drops the monitor thread, and it decides how the call ends. */
  lemma {:induction false} NotifyGoes(s: State, run: seq<Action>)
    requires Legal(s, run) && OneCall(run)
    requires Notifying(s) || (BetweenCalls(s) && (s.app == Returned <==> s.monThread))
    requires s.app == NotUnlock ==> s.monThread
    ensures var u := After(s, run);
      u.monThread == s.monThread && (BetweenCalls(u) ==> (u.app == Returned <==> s.monThread))
    decreases |run|
  {
    if run != [] {
      assert OneCall(run[1..]);
      NotifyGoes(Apply(s, run[0]), run[1..]);
    }
  }

  function StepsLeft(app: App): nat {
    match app
    case RemWait => 12 case RemTest => 11 case RemTestAlive => 10 case RemRaise => 9 case RemInterrupt => 8 case RemJoin => 7
    case RemNull => 6 case RemListener => 5 case RemUnlock => 4 case RemDead => 3 case RemFlag => 2
    case RemNullQuick => 2 case RemListenerQuick => 1
    case NotWait => 5 case NotLock => 4 case NotNative => 3 case NotStore => 2 case NotUnlock => 1
    case _ => 0
  }

  function Distance(s: State): nat {
    2 * StepsLeft(s.app) + if s.monitor == Ended then 0 else 1
  }

  lemma NextStep(s: State) returns (a: Action)
    requires Inv(s) && (Notifying(s) || Removing(s)) && (s.app in {RemWait, NotWait} ==> !s.lock)
    ensures Enabled(s, a) && !a.Begin?
    ensures var t := Apply(s, a); (Notifying(t) || Removing(t) || BetweenCalls(t)) && t.app !in {RemWait, NotWait} && Distance(t) < Distance(s)
  {
    a := if s.app == RemJoin && s.monitor != Ended then MonitorStep(false) else AppStep;
  }

  /** Past the lock, a removeEventListener or notifyOn can always be brought to its end. */
  lemma {:induction false} Finish(s: State) returns (more: seq<Action>)
    requires Inv(s) && (Notifying(s) || Removing(s) || BetweenCalls(s)) && (s.app in {RemWait, NotWait} ==> !s.lock)
    ensures Legal(s, more) && OneCall(more) && BetweenCalls(After(s, more))
    decreases Distance(s)
  {
    if BetweenCalls(s) {
      more := [];
    } else {
      var a := NextStep(s);
      InvIsInductive(s, a);
      var rest := Finish(Apply(s, a));
      more := [a] + rest;
      assert more[1..] == rest;
    }
  }

  /** While the lock is kept no thread can move. */
  lemma NobodyMoves(s: State)
    requires Inv(s) && s.app in {RemWait, NotWait} && s.lock
    ensures !s.monThread && forall a :: !Enabled(s, a)
  {
  }

  /** A removeEventListener or notifyOn waiting for the lock is stuck for good exactly when the lock is set: then there is no monitor
    * thread, and no thread can move at all. */
  lemma WaitersBlockExactlyWhenTheLockWasKept(s: State, run: seq<Action>)
    requires Init(s) && Legal(s, run) && After(s, run).app in {RemWait, NotWait}
    ensures var t := After(s, run); (t.lock <==> forall a :: !Enabled(t, a)) && (t.lock ==> !t.monThread)
  {
    InvHoldsAlways(s, run);
    var t := After(s, run);
    if t.lock {
      NobodyMoves(t);
    } else {
      assert Enabled(t, AppStep);
    }
  }

  /** After any run: a removeEventListener or notifyOn begun now can come to an end exactly when the lock is free. */
  lemma CallsEndExactlyWhenTheLockIsFree(s: State, run: seq<Action>, call: Call)
    requires Init(s) && Legal(s, run) && BetweenCalls(After(s, run)) && call in {Remove, Notify}
    ensures var t := After(s, run); (exists more, u :: Ends(t, call, more, u)) <==> !t.lock
  {
    InvHoldsAlways(s, run);
    var t := After(s, run);
    var begun := Apply(t, Begin(call));
    CallsKeepInv(t, Begin(call));
    if t.lock {
      NobodyMoves(begun);
      assert forall more :: Legal(begun, more) ==> more == [];
    } else {
      var more := Finish(begun);
      assert Ends(t, call, more, After(begun, more));
    }
  }

  /** After any run: a notifyOn begun now returns, if it ends, exactly when there is a monitor thread now; with one it can end, and
    * without one it throws, or waits for good for a lock an earlier one has kept. */
  lemma NotifyReturnsOnlyWithAMonitor(s: State, run: seq<Action>)
    requires Init(s) && Legal(s, run) && BetweenCalls(After(s, run))
    ensures var t := After(s, run);
      && (forall more, u :: Ends(t, Notify, more, u) ==> (u.app == Returned <==> t.alive))
      && ((exists more, u :: Ends(t, Notify, more, u) && u.app == Returned) <==> t.alive)
      && ((exists more, u :: Ends(t, Notify, more, u) && u.app == Threw) <==> !t.alive && !t.lock)
  {
    InvHoldsAlways(s, run);
    var t := After(s, run);
    forall more, u | Ends(t, Notify, more, u) ensures u.app == Returned <==> t.alive {
      NotifyGoes(Apply(t, Begin(Notify)), more);
    }
    CallsEndExactlyWhenTheLockIsFree(s, run, Notify);
    if !t.lock {
      var more, u :| Ends(t, Notify, more, u);
      assert Ends(t, Notify, more, u);
    }
  }

  /** A notifyOn that throws keeps the lock. */
  lemma ThrowingKeepsTheLock(s: State, run: seq<Action>)
    requires Init(s) && Legal(s, run) && After(s, run).app == NotStore && !After(s, run).alive
    ensures var t := After(s, run); Apply(t, AppStep) == t.(app := Threw) && t.lock
  {
    InvHoldsAlways(s, run);
  }

  // ---------------------------------------------------------------- what each call leaves behind

  lemma {:induction false} StartGoes(s: State, run: seq<Action>)
    requires Inv(s) && Legal(s, run) && OneCall(run)
    requires Starting(s) || (s.app == Returned && s.alive)
    ensures var u := After(s, run); u.listener == s.listener && (BetweenCalls(u) ==> u.app == Returned && u.alive)
    decreases |run|
  {
    if run != [] {
      assert !run[0].Begin? && OneCall(run[1..]);
      InvIsInductive(s, run[0]);
      StartGoes(Apply(s, run[0]), run[1..]);
    }
  }

  lemma {:induction false} AddGoes(s: State, run: seq<Action>)
    requires Inv(s) && Legal(s, run) && OneCall(run) && s.app == AddListener && !s.listener
    ensures var u := After(s, run); BetweenCalls(u) ==> u.app == Returned && u.alive && u.listener
    decreases |run|
  {
    if run != [] {
      assert !run[0].Begin? && OneCall(run[1..]);
      InvIsInductive(s, run[0]);
      if run[0] == AppStep {
        StartGoes(Apply(s, run[0]), run[1..]);
      } else {
        AddGoes(Apply(s, run[0]), run[1..]);
      }
    }
  }

  lemma {:induction false} RefusalGoes(s: State, run: seq<Action>)
    requires Inv(s) && Legal(s, run) && OneCall(run) && s.app in {AddListener, Threw} && s.listener
    ensures var u := After(s, run); u == s.(app := u.app, monitor := u.monitor) && u.app in {AddListener, Threw}
    decreases |run|
  {
    if run != [] {
      assert !run[0].Begin? && OneCall(run[1..]);
      InvIsInductive(s, run[0]);
      RefusalGoes(Apply(s, run[0]), run[1..]);
    }
  }

  lemma {:induction false} RemovalGoes(s: State, run: seq<Action>)
    requires Inv(s) && Legal(s, run) && OneCall(run)
    requires Removing(s) || (s.app == Returned && !s.alive && !s.listener)
    ensures var u := After(s, run); BetweenCalls(u) ==> u.app == Returned && !u.alive && !u.listener
    decreases |run|
  {
    if run != [] {
      assert !run[0].Begin? && OneCall(run[1..]);
      InvIsInductive(s, run[0]);
      RemovalGoes(Apply(s, run[0]), run[1..]);
    }
  }

  /** One step, and then the rest. */
  lemma First(s: State, a: Action, rest: seq<Action>) returns (more: seq<Action>)
    requires Enabled(s, a) && !a.Begin? && Legal(Apply(s, a), rest) && OneCall(rest)
    ensures Legal(s, more) && OneCall(more) && After(s, more) == After(Apply(s, a), rest)
  {
    more := [a] + rest;
    assert more[1..] == rest;
  }

  /** The monitor gets through its preparation while the start-up sequence waits. */
  lemma PreparedPath(s: State) returns (more: seq<Action>)
    requires s.app == StartWait && s.monitor == Started
    ensures Legal(s, more) && OneCall(more) && After(s, more).app == Returned
  {
    var ready := s.(lock := false, interrupted := false, monitor := Running);
    more := First(ready.(app := StartAlive), AppStep, []);
    more := First(ready, AppStep, more);
    more := First(Apply(s, MonitorStep(false)), MonitorStep(false), more);
    more := First(s, MonitorStep(false), more);
  }

  lemma StartedPath(s: State) returns (more: seq<Action>)
    requires s.app == StartLock
    ensures Legal(s, more) && OneCall(more) && After(s, more).app == Returned
  {
    var locked := s.(lock := true, app := StartNew);
    var created := locked.(monThread := true, app := StartRun);
    more := PreparedPath(Apply(created, AppStep));
    more := First(created, AppStep, more);
    more := First(locked, AppStep, more);
    more := First(s, AppStep, more);
  }

  /** The way of an addEventListener that is let in. */
  lemma AddedPath(s: State) returns (more: seq<Action>)
    requires s.app == AddListener && !s.listener
    ensures Legal(s, more) && OneCall(more) && After(s, more).app == Returned
  {
    var stored := Apply(s, AppStep);
    if s.alive {
      more := First(stored, AppStep, []);
    } else {
      more := StartedPath(Apply(stored, AppStep));
      more := First(stored, AppStep, more);
    }
    more := First(s, AppStep, more);
  }

  lemma AddEnds(t: State, more: seq<Action>, u: State)
    requires Inv(t) && BetweenCalls(t) && Ends(t, Add, more, u)
    ensures u.app == Threw <==> t.listener
    ensures if t.listener then u == t.(app := Threw, monitor := u.monitor)
      else u.listener && u.alive && u.monThread && !u.interrupted && !u.lock
  {
    var begun := Apply(t, Begin(Add));
    CallsKeepInv(t, Begin(Add));
    InvHoldsAlways(begun, more);
    if t.listener {
      RefusalGoes(begun, more);
    } else {
      AddGoes(begun, more);
    }
  }

  lemma AddCanEnd(t: State) returns (more: seq<Action>, u: State)
    requires BetweenCalls(t)
    ensures Ends(t, Add, more, u)
  {
    var begun := Apply(t, Begin(Add));
    if t.listener {
      more := First(begun, AppStep, []);
    } else {
      more := AddedPath(begun);
    }
    u := After(begun, more);
  }

  /** After any run: an addEventListener begun now can end, and throws exactly when a listener is registered. A refused one changes
    * nothing but what the monitor does; the others leave the listener, a monitor and a free lock, also when the lock was kept. */
  lemma SecondListenerIsRefused(s: State, run: seq<Action>)
    requires Init(s) && Legal(s, run) && BetweenCalls(After(s, run))
    ensures exists more, u :: Ends(After(s, run), Add, more, u)
    ensures var t := After(s, run);
      forall more, u :: Ends(t, Add, more, u) ==>
        && (u.app == Threw <==> t.listener)
        && if t.listener then u == t.(app := Threw, monitor := u.monitor)
           else u.listener && u.alive && u.monThread && !u.interrupted && !u.lock
  {
    InvHoldsAlways(s, run);
    var t := After(s, run);
    var some, v := AddCanEnd(t);
    assert Ends(t, Add, some, v);
    forall more, u | Ends(t, Add, more, u)
      ensures u.app == Threw <==> t.listener
      ensures if t.listener then u == t.(app := Threw, monitor := u.monitor)
        else u.listener && u.alive && u.monThread && !u.interrupted && !u.lock
    {
      AddEnds(t, more, u);
    }
  }

  lemma RemovalEnds(t: State, more: seq<Action>, u: State)
    requires Inv(t) && BetweenCalls(t) && Ends(t, Remove, more, u)
    ensures u.app == Returned && !u.listener && !u.alive && !u.monThread && u.interrupted && !u.lock && u.monitor in {NoMonitor, Ended}
  {
    var begun := Apply(t, Begin(Remove));
    CallsKeepInv(t, Begin(Remove));
    InvHoldsAlways(begun, more);
    RemovalGoes(begun, more);
  }

  /** After any run: a removeEventListener that ends has left neither listener nor monitor, so the next addEventListener is let in. */
  lemma RemovalLeavesNothing(s: State, run: seq<Action>)
    requires Init(s) && Legal(s, run) && BetweenCalls(After(s, run))
    ensures var t := After(s, run);
      forall more, u :: Ends(t, Remove, more, u) ==>
        u.app == Returned && !u.listener && !u.alive && !u.monThread && u.interrupted && !u.lock && u.monitor in {NoMonitor, Ended}
  {
    InvHoldsAlways(s, run);
    var t := After(s, run);
    forall more, u | Ends(t, Remove, more, u)
      ensures u.app == Returned && !u.listener && !u.alive && !u.monThread && u.interrupted && !u.lock && u.monitor in {NoMonitor, Ended}
    {
      RemovalEnds(t, more, u);
    }
  }

  /** The constructor leaves a monitor and no listener. */
  lemma ConstructorStartsAMonitor(s: State, more: seq<Action>, u: State)
    requires Init(s) && Ends(s, Construct, more, u)
    ensures u.app == Returned && u.alive && u.monThread && !u.interrupted && !u.lock && !u.listener
  {
    var begun := Apply(s, Begin(Construct));
    CallsKeepInv(s, Begin(Construct));
    InvHoldsAlways(begun, more);
    StartGoes(begun, more);
  }
}
