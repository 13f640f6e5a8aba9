/** The polling event loop and the part of the termios emulation it reads: error counters that
  * every ClearCommError feeds, the one-shot "output empty" latch, and the four modem lines.
  * A run is any sequence of the steps below, taken by the loop and by everybody else. */
module PollSpec {

  const WIDTH: nat := 0x1_0000_0000

  /** A 32-bit counter; it wraps around. */
  type Counter = x: int | 0 <= x < WIDTH

  datatype Counters = Counters(frame: Counter, overrun: Counter, parity: Counter, brk: Counter)

  /** The bits of a ClearCommError answer. */
  datatype Errors = Errors(frame: bool, overrun: bool, rxOver: bool, rxParity: bool, brk: bool)

  datatype Line = CTS | DSR | RI | CD

  datatype Event = FE | OE | PE | BI | OutputEmpty | Changed(line: Line, up: bool)

  /** What the next increment makes of a counter. */
  function Bump(c: Counter, hit: bool): Counter {
    if hit then (c + 1) % WIDTH else c
  }

  /** ClearErrors: overruns are compiled out and never counted. */
  function Counted(c: Counters, e: Errors): Counters {
    Counters(Bump(c.frame, e.frame), c.overrun, Bump(c.parity, e.rxParity), Bump(c.brk, e.brk))
  }

  /** How many increments lead from one counter value to another. */
  function Gap(from: Counter, to: Counter): nat {
    (to - from) % WIDTH
  }

  lemma GapStep(from: Counter, to: Counter)
    requires from != to
    ensures Gap((from + 1) % WIDTH, to) == Gap(from, to) - 1
  {
  }

  function Repeat(e: Event, n: nat): seq<Event> {
    seq(n, _ => e)
  }

  function Drained(osis: Counters, sis: Counters): seq<Event> {
    Repeat(FE, Gap(osis.frame, sis.frame)) + Repeat(OE, Gap(osis.overrun, sis.overrun)) +
    Repeat(PE, Gap(osis.parity, sis.parity)) + Repeat(BI, Gap(osis.brk, sis.brk))
  }

  /** The bit a line has in the modem flags word, when it is up. */
  function Level(flags: set<Line>, l: Line): int {
    if l !in flags then 0 else match l case CTS => 0x20 case DSR => 0x100 case RI => 0x80 case CD => 0x40
  }

  function LineEvent(now: set<Line>, before: set<Line>, l: Line): seq<Event> {
    var change := Level(now, l) - Level(before, l);
    if change != 0 then [Changed(l, change > 0)] else []
  }

  function LineEvents(now: set<Line>, before: set<Line>): seq<Event> {
    LineEvent(now, before, CTS) + LineEvent(now, before, DSR) + LineEvent(now, before, RI) + LineEvent(now, before, CD)
  }

  // ---------------------------------------------------------------- steps and runs

  /** Where the loop stands in ioctl(TIOCSERGETLSR): it has seen an empty output queue; it has found the latch up,
    * reported, and is about to lower the latch. */
  datatype Poll = Idle | SawEmpty | Reporting

  datatype State = State(sis: Counters, tx: bool,                                // the port
                         osis: Counters, omflags: set<Line>, poll: Poll,         // the loop
                         sent: seq<Event>, reports: nat)                         // histories

  datatype Step =
    | Observe(errors: Errors)                      // any ClearCommError that succeeds
    | WriteEnds                                    // the end of serial_write
    | FlushBegins(id: nat) | FlushEnds(id: nat)    // tcflush raises the latch before and after it purges
    | PollLooks(outQueue: nat)                     // TIOCSERGETLSR, in three steps
    | PollTests
    | PollClears(looping: bool)                    // before the loop, or inside it
    | Drain                                        // TIOCGICOUNT and the four draining loops
    | Sample(mflags: set<Line>)                    // TIOCMGET and the four comparisons

  /** A step of the poll that is not due does nothing. */
  function Apply(s: State, a: Step): State {
    match a
    case Observe(errors) => s.(sis := Counted(s.sis, errors))
    case WriteEnds => s.(tx := true)
    case FlushBegins(_) => s.(tx := true)
    case FlushEnds(_) => s.(tx := true)
    case PollLooks(outQueue) => if s.poll == Idle && outQueue == 0 then s.(poll := SawEmpty) else s
    case PollTests =>
      if s.poll != SawEmpty then s
      else if s.tx then s.(poll := Reporting, reports := s.reports + 1)
      else s.(poll := Idle)
    case PollClears(looping) =>
      if s.poll != Reporting then s
      else s.(tx := false, poll := Idle, sent := if looping then s.sent + [OutputEmpty] else s.sent)
    case Drain => s.(osis := s.sis, sent := s.sent + Drained(s.osis, s.sis))
    case Sample(mflags) => s.(omflags := mflags, sent := s.sent + LineEvents(mflags, s.omflags))
  }

  function After(s: State, run: seq<Step>): State {
    if run == [] then s else Apply(After(s, run[..|run| - 1]), run[|run| - 1])
  }

  /** The loop starts with its copy of the counters up to date. */
  predicate Starts(s: State) {
    s.osis == s.sis && s.sent == []
  }

  // ---------------------------------------------------------------- error events

  /** The three errors that are counted, each with its event. */
  datatype Kind = Framing | Parity | Break

  function EventOf(k: Kind): Event {
    match k case Framing => FE case Parity => PE case Break => BI
  }

  predicate Hit(e: Errors, k: Kind) {
    match k case Framing => e.frame case Parity => e.rxParity case Break => e.brk
  }

  function CounterOf(c: Counters, k: Kind): Counter {
    match k case Framing => c.frame case Parity => c.parity case Break => c.brk
  }

  /** How often the error was observed in the whole run. */
  function Observed(run: seq<Step>, k: Kind): nat {
    if run == [] then 0
    else
      var a := run[|run| - 1];
      Observed(run[..|run| - 1], k) + if a.Observe? && Hit(a.errors, k) then 1 else 0
  }

  function NextPending(pending: nat, a: Step, k: Kind): nat {
    if a.Drain? then 0 else if a.Observe? && Hit(a.errors, k) then pending + 1 else pending
  }

  /** How often it was observed since the loop last drained the counters. */
  function Pending(run: seq<Step>, k: Kind): nat {
    if run == [] then 0 else NextPending(Pending(run[..|run| - 1], k), run[|run| - 1], k)
  }

  function Turns(pending: nat): nat {
    pending - pending % WIDTH
  }

  /** Whole turns of the counter between two drains: they leave no trace. */
  function Wrapped(run: seq<Step>, k: Kind): nat {
    if run == [] then 0
    else
      var before := run[..|run| - 1];
      Wrapped(before, k) + if run[|run| - 1].Drain? then Turns(Pending(before, k)) else 0
  }

  function CountOf(sent: seq<Event>, e: Event): nat {
    if sent == [] then 0 else CountOf(sent[..|sent| - 1], e) + if sent[|sent| - 1] == e then 1 else 0
  }

  lemma {:induction false} CountConcat(a: seq<Event>, b: seq<Event>, e: Event)
    ensures CountOf(a + b, e) == CountOf(a, e) + CountOf(b, e)
  {
    if b == [] {
      assert a + b == a;
    } else {
      CountConcat(a, b[..|b| - 1], e);
      assert (a + b)[..|a + b| - 1] == a + b[..|b| - 1];
    }
  }

  lemma {:induction false} CountRepeat(e: Event, n: nat, f: Event)
    ensures CountOf(Repeat(e, n), f) == if e == f then n else 0
  {
    if n > 0 {
      CountRepeat(e, n - 1, f);
      assert Repeat(e, n)[..n - 1] == Repeat(e, n - 1);
    }
  }

  lemma CountDrained(o: Counters, c: Counters, f: Event)
    ensures CountOf(Drained(o, c), f) == match f
      case FE => Gap(o.frame, c.frame) case OE => Gap(o.overrun, c.overrun)
      case PE => Gap(o.parity, c.parity) case BI => Gap(o.brk, c.brk) case _ => 0
  {
    var e1, e2 := Repeat(FE, Gap(o.frame, c.frame)), Repeat(OE, Gap(o.overrun, c.overrun));
    var e3, e4 := Repeat(PE, Gap(o.parity, c.parity)), Repeat(BI, Gap(o.brk, c.brk));
    CountConcat(e1 + e2 + e3, e4, f);
    CountConcat(e1 + e2, e3, f);
    CountConcat(e1, e2, f);
    CountRepeat(FE, Gap(o.frame, c.frame), f);
    CountRepeat(OE, Gap(o.overrun, c.overrun), f);
    CountRepeat(PE, Gap(o.parity, c.parity), f);
    CountRepeat(BI, Gap(o.brk, c.brk), f);
  }

  /** A drain sends framing errors first, then overruns, parity errors and breaks. */
  lemma DrainedInOrder(o: Counters, c: Counters, i: nat, j: nat)
    requires i < j < |Drained(o, c)|
    ensures var d := Drained(o, c);
      && (d[j] == FE ==> d[i] == FE) && (d[j] == OE ==> d[i] in {FE, OE}) && (d[j] == PE ==> d[i] in {FE, OE, PE})
      && d[i] in {FE, OE, PE, BI} && d[j] in {FE, OE, PE, BI}
  {
  }

  lemma {:induction false} CountNone(events: seq<Event>, f: Event)
    requires f !in events
    ensures CountOf(events, f) == 0
  {
    if events != [] {
      CountNone(events[..|events| - 1], f);
    }
  }

  lemma PendingModulo(o: Counter, pending: nat, hit: bool)
    ensures Bump((o + pending) % WIDTH, hit) == (o + pending + if hit then 1 else 0) % WIDTH
  {
  }

  lemma GapOfPending(o: Counter, pending: nat)
    ensures Gap(o, (o + pending) % WIDTH) == pending % WIDTH
  {
  }

  /** The port's counter is the loop's copy plus what is pending. */
  predicate Ahead(t: State, k: Kind, pending: nat) {
    CounterOf(t.sis, k) == (CounterOf(t.osis, k) + pending) % WIDTH
  }

  lemma CounterStep(t: State, a: Step, k: Kind, pending: nat)
    requires Ahead(t, k, pending)
    ensures Ahead(Apply(t, a), k, NextPending(pending, a, k))
  {
    if a.Observe? {
      PendingModulo(CounterOf(t.osis, k), pending, Hit(a.errors, k));
    }
  }

  lemma {:induction false} CounterAhead(s: State, run: seq<Step>, k: Kind)
    requires Starts(s)
    ensures Ahead(After(s, run), k, Pending(run, k))
  {
    if run != [] {
      var before := run[..|run| - 1];
      CounterAhead(s, before, k);
      CounterStep(After(s, before), run[|run| - 1], k, Pending(before, k));
    }
  }

  lemma OtherEventsCountNothing(a: Step, s: State, e: Event)
    requires !a.Drain? && e in {FE, OE, PE, BI}
    ensures CountOf(Apply(s, a).sent, e) == CountOf(s.sent, e)
  {
    if a.Sample? {
      CountNone(LineEvents(a.mflags, s.omflags), e);
      CountConcat(s.sent, LineEvents(a.mflags, s.omflags), e);
    } else if a.PollClears? {
      CountNone([OutputEmpty], e);
      CountConcat(s.sent, [OutputEmpty], e);
    }
  }

  lemma SplitTurns(pending: nat)
    ensures pending == pending % WIDTH + Turns(pending)
  {
  }

  lemma DrainCounts(s: State, k: Kind, pending: nat)
    requires Ahead(s, k, pending)
    ensures CountOf(Apply(s, Drain).sent, EventOf(k)) + Turns(pending) == CountOf(s.sent, EventOf(k)) + pending
  {
    GapOfPending(CounterOf(s.osis, k), pending);
    CountDrained(s.osis, s.sis, EventOf(k));
    CountConcat(s.sent, Drained(s.osis, s.sis), EventOf(k));
    SplitTurns(pending);
  }

  lemma OneStepConserves(t: State, a: Step, k: Kind, pending: nat)
    requires Ahead(t, k, pending)
    ensures CountOf(Apply(t, a).sent, EventOf(k)) + (if a.Drain? then Turns(pending) else 0)
         == CountOf(t.sent, EventOf(k)) + if a.Drain? then pending else 0
  {
    if a.Drain? {
      DrainCounts(t, k, pending);
    } else {
      OtherEventsCountNothing(a, t, EventOf(k));
    }
  }

  /** Over every run each observation of an error is accounted for: sent as an event,
    * still pending, or swallowed by a whole turn of the counter between two drains. */
  lemma {:induction false} ErrorEventsConserved(s: State, run: seq<Step>, k: Kind)
    requires Starts(s)
    ensures Observed(run, k) == CountOf(After(s, run).sent, EventOf(k)) + Pending(run, k) + Wrapped(run, k)
  {
    if run != [] {
      var before, a := run[..|run| - 1], run[|run| - 1];
      var t, pending := After(s, before), Pending(before, k);
      ErrorEventsConserved(s, before, k);
      CounterAhead(s, before, k);
      OneStepConserves(t, a, k, pending);
      assert After(s, run) == Apply(t, a);
    }
  }

  /** While no drain finds 2^32 observations waiting, none is lost. */
  lemma {:induction false} NothingWraps(run: seq<Step>, k: Kind)
    ensures Wrapped(run, k) == 0 <==> forall i :: 0 <= i < |run| && run[i].Drain? ==> Pending(run[..i], k) < WIDTH
  {
    if run != [] {
      var n := |run| - 1;
      NothingWraps(run[..n], k);
      assert forall i :: 0 <= i < n ==> run[..n][..i] == run[..i];
      assert run[n].Drain? ==> (Turns(Pending(run[..n], k)) == 0 <==> Pending(run[..n], k) < WIDTH);
    }
  }

  /** No overrun is ever counted or sent. */
  lemma {:induction false} OverrunsNeverSent(s: State, run: seq<Step>)
    requires Starts(s)
    ensures var t := After(s, run); t.sis.overrun == t.osis.overrun == s.sis.overrun && CountOf(t.sent, OE) == 0
  {
    if run != [] {
      var t, a := After(s, run[..|run| - 1]), run[|run| - 1];
      OverrunsNeverSent(s, run[..|run| - 1]);
      if a.Drain? {
        CountConcat(t.sent, Drained(t.osis, t.sis), OE);
        CountDrained(t.osis, t.sis, OE);
      } else {
        OtherEventsCountNothing(a, t, OE);
      }
    }
  }

  // ---------------------------------------------------------------- modem lines

  /** What a listener makes of the events, from the flags it started with. */
  function Replayed(flags: set<Line>, events: seq<Event>): set<Line> {
    if events == [] then flags
    else
      var f := Replayed(flags, events[..|events| - 1]);
      match events[|events| - 1]
      case Changed(l, up) => if up then f + {l} else f - {l}
      case _ => f
  }

  lemma {:induction false} ReplayedConcat(flags: set<Line>, a: seq<Event>, b: seq<Event>)
    ensures Replayed(flags, a + b) == Replayed(Replayed(flags, a), b)
  {
    if b == [] {
      assert a + b == a;
    } else {
      ReplayedConcat(flags, a, b[..|b| - 1]);
      assert (a + b)[..|a + b| - 1] == a + b[..|b| - 1];
    }
  }

  lemma {:induction false} ReplayedSilent(flags: set<Line>, events: seq<Event>)
    requires forall e :: e in events ==> !e.Changed?
    ensures Replayed(flags, events) == flags
  {
    if events != [] {
      ReplayedSilent(flags, events[..|events| - 1]);
    }
  }

  function WithLevel(flags: set<Line>, l: Line, up: bool): set<Line> {
    if up then flags + {l} else flags - {l}
  }

  lemma ReplayedLine(flags: set<Line>, now: set<Line>, before: set<Line>, l: Line)
    requires l in flags <==> l in before
    ensures Replayed(flags, LineEvent(now, before, l)) == WithLevel(flags, l, l in now)
  {
  }

  /** The flags with the four lines set one after the other. */
  function FourSet(before: set<Line>, now: set<Line>): set<Line> {
    WithLevel(WithLevel(WithLevel(WithLevel(before, CTS, CTS in now), DSR, DSR in now), RI, RI in now), CD, CD in now)
  }

  lemma FourSetAll(before: set<Line>, now: set<Line>, l: Line)
    ensures l in FourSet(before, now) <==> l in now
  {
    match l case CTS => case DSR => case RI => case CD =>
  }

  lemma ReplayedFour(now: set<Line>, before: set<Line>)
    ensures Replayed(before, LineEvents(now, before)) == FourSet(before, now)
  {
    var e1, e2 := LineEvent(now, before, CTS), LineEvent(now, before, DSR);
    var e3, e4 := LineEvent(now, before, RI), LineEvent(now, before, CD);
    var f1 := WithLevel(before, CTS, CTS in now);
    var f2 := WithLevel(f1, DSR, DSR in now);
    var f3 := WithLevel(f2, RI, RI in now);
    ReplayedConcat(before, e1, e2);
    ReplayedConcat(before, e1 + e2, e3);
    ReplayedConcat(before, e1 + e2 + e3, e4);
    ReplayedLine(before, now, before, CTS);
    ReplayedLine(f1, now, before, DSR);
    ReplayedLine(f2, now, before, RI);
    ReplayedLine(f3, now, before, CD);
  }

  lemma ReplayedSample(now: set<Line>, before: set<Line>)
    ensures Replayed(before, LineEvents(now, before)) == now
  {
    ReplayedFour(now, before);
    forall l: Line ensures l in FourSet(before, now) <==> l in now {
      FourSetAll(before, now, l);
    }
  }

  /** Replaying the line events over the flags the loop started with gives the flags it sampled last. */
  lemma {:induction false} LinesReplay(s: State, run: seq<Step>)
    requires Starts(s)
    ensures Replayed(s.omflags, After(s, run).sent) == After(s, run).omflags
  {
    if run != [] {
      var t, a := After(s, run[..|run| - 1]), run[|run| - 1];
      LinesReplay(s, run[..|run| - 1]);
      match a
      case Drain =>
        ReplayedConcat(s.omflags, t.sent, Drained(t.osis, t.sis));
        ReplayedSilent(t.omflags, Drained(t.osis, t.sis));
      case Sample(mflags) =>
        ReplayedConcat(s.omflags, t.sent, LineEvents(mflags, t.omflags));
        ReplayedSample(mflags, t.omflags);
      case PollClears(_) =>
        ReplayedConcat(s.omflags, t.sent, [OutputEmpty]);
        ReplayedSilent(t.omflags, [OutputEmpty]);
      case _ =>
    }
  }

  /** The values one line took, event by event. */
  function History(events: seq<Event>, l: Line): seq<bool> {
    if events == [] then []
    else
      var e := events[|events| - 1];
      History(events[..|events| - 1], l) + if e.Changed? && e.line == l then [e.up] else []
  }

  lemma {:induction false} HistoryConcat(a: seq<Event>, b: seq<Event>, l: Line)
    ensures History(a + b, l) == History(a, l) + History(b, l)
  {
    if b == [] {
      assert a + b == a;
    } else {
      HistoryConcat(a, b[..|b| - 1], l);
      assert (a + b)[..|a + b| - 1] == a + b[..|b| - 1];
    }
  }

  lemma {:induction false} HistorySilent(events: seq<Event>, l: Line)
    requires forall e :: e in events ==> !(e.Changed? && e.line == l)
    ensures History(events, l) == []
  {
    if events != [] {
      HistorySilent(events[..|events| - 1], l);
    }
  }

  lemma HistoryOfLine(now: set<Line>, before: set<Line>, m: Line, l: Line)
    ensures History(LineEvent(now, before, m), l) == if m == l && (l in now) != (l in before) then [l in now] else []
  {
  }

  lemma HistoryOfSample(now: set<Line>, before: set<Line>, l: Line)
    ensures History(LineEvents(now, before), l) == if (l in now) != (l in before) then [l in now] else []
  {
    var e1, e2 := LineEvent(now, before, CTS), LineEvent(now, before, DSR);
    var e3, e4 := LineEvent(now, before, RI), LineEvent(now, before, CD);
    HistoryConcat(e1, e2, l);
    HistoryConcat(e1 + e2, e3, l);
    HistoryConcat(e1 + e2 + e3, e4, l);
    HistoryOfLine(now, before, CTS, l);
    HistoryOfLine(now, before, DSR, l);
    HistoryOfLine(now, before, RI, l);
    HistoryOfLine(now, before, CD, l);
  }

  /** A sample sends at most one event for each line, with its new level, in the order CTS, DSR, RI, CD. */
  lemma SampledInOrder(now: set<Line>, before: set<Line>, i: nat, j: nat)
    requires i < j < |LineEvents(now, before)|
    ensures var d := LineEvents(now, before);
      && d[i].Changed? && d[j].Changed? && d[j].line != CTS
      && (d[j].line == DSR ==> d[i].line == CTS) && (d[j].line == RI ==> d[i].line in {CTS, DSR})
      && (d[j].line == CD ==> d[i].line in {CTS, DSR, RI})
  {
  }

  /** Strict alternation away from `start`, ending at `last`. */
  predicate Alternates(values: seq<bool>, start: bool, last: bool) {
    (forall i :: 0 <= i < |values| ==> values[i] == if i % 2 == 0 then !start else start) &&
    last == if |values| % 2 == 0 then start else !start
  }

  lemma AlternatesOn(values: seq<bool>, start: bool, last: bool, now: bool)
    requires Alternates(values, start, last)
    ensures Alternates(values + if now != last then [now] else [], start, now)
  {
  }

  lemma SilentAppend(sent: seq<Event>, more: seq<Event>, l: Line)
    requires forall e :: e in more ==> !e.Changed?
    ensures History(sent + more, l) == History(sent, l)
  {
    HistoryConcat(sent, more, l);
    HistorySilent(more, l);
    assert History(sent, l) + [] == History(sent, l);
  }

  lemma NoLineDrained(o: Counters, c: Counters)
    ensures forall e :: e in Drained(o, c) ==> !e.Changed?
  {
  }

  lemma SilentStep(t: State, a: Step, l: Line)
    requires !a.Sample?
    ensures History(Apply(t, a).sent, l) == History(t.sent, l) && Apply(t, a).omflags == t.omflags
  {
    match a
    case Drain =>
      NoLineDrained(t.osis, t.sis);
      SilentAppend(t.sent, Drained(t.osis, t.sis), l);
    case PollClears(_) => SilentAppend(t.sent, [OutputEmpty], l);
    case _ =>
  }

  lemma SampleStep(t: State, mflags: set<Line>, l: Line)
    ensures History(Apply(t, Sample(mflags)).sent, l)
      == History(t.sent, l) + if (l in mflags) != (l in t.omflags) then [l in mflags] else []
  {
    HistoryConcat(t.sent, LineEvents(mflags, t.omflags), l);
    HistoryOfSample(mflags, t.omflags, l);
  }

  lemma LineStep(t: State, a: Step, start: bool, l: Line)
    requires Alternates(History(t.sent, l), start, l in t.omflags)
    ensures Alternates(History(Apply(t, a).sent, l), start, l in Apply(t, a).omflags)
  {
    if a.Sample? {
      SampleStep(t, a.mflags, l);
      AlternatesOn(History(t.sent, l), start, l in t.omflags, l in a.mflags);
    } else {
      SilentStep(t, a, l);
    }
  }

  /** The events of any one line strictly alternate, and stand where the line was sampled last. */
  lemma {:induction false} LinesAlternate(s: State, run: seq<Step>, l: Line)
    requires Starts(s)
    ensures Alternates(History(After(s, run).sent, l), l in s.omflags, l in After(s, run).omflags)
  {
    if run != [] {
      var t, a := After(s, run[..|run| - 1]), run[|run| - 1];
      LinesAlternate(s, run[..|run| - 1], l);
      LineStep(t, a, l in s.omflags, l);
    }
  }
}

/** The one-shot latch behind "output empty", raised by writes and flushes and lowered by the poll. */
module OutputLatch {
  import opened PollSpec

  predicate Assigns(a: Step) {
    a.WriteEnds? || a.FlushBegins? || a.FlushEnds?
  }

  /** A poll lowers a latch it has found up. */
  predicate LatchOk(s: State) {
    s.poll == Reporting ==> s.tx
  }

  /** A raised latch nobody has reported yet. */
  function Owed(s: State): nat {
    if s.tx && s.poll != Reporting then 1 else 0
  }

  lemma {:induction false} LatchStaysOk(s: State, run: seq<Step>)
    requires LatchOk(s)
    ensures LatchOk(After(s, run))
  {
    if run != [] {
      LatchStaysOk(s, run[..|run| - 1]);
    }
  }

  // ---------------------------------------------------------------- calls and flushes

  function Count(run: seq<Step>, counts: Step -> bool): nat {
    if run == [] then 0 else Count(run[..|run| - 1], counts) + if counts(run[|run| - 1]) then 1 else 0
  }

  function Writes(run: seq<Step>): nat {
    Count(run, (a: Step) => a.WriteEnds?)
  }

  function Flushes(run: seq<Step>): nat {
    Count(run, (a: Step) => a.FlushBegins?)
  }

  /** The flushes that have begun and not ended. */
  function Open(run: seq<Step>): set<nat> {
    if run == [] then {}
    else
      var before := Open(run[..|run| - 1]);
      match run[|run| - 1]
      case FlushBegins(id) => before + {id}
      case FlushEnds(id) => before - {id}
      case _ => before
  }

  /** A flush ends after it has begun, once; an id is free again when its flush has ended. */
  predicate Legal(run: seq<Step>) {
    run == [] || (
      && Legal(run[..|run| - 1])
      && match run[|run| - 1]
         case FlushBegins(id) => id !in Open(run[..|run| - 1])
         case FlushEnds(id) => id in Open(run[..|run| - 1])
         case _ => true)
  }

  /** The open flushes whose first assignment found the latch down, or up. */
  function Raised(s: State, run: seq<Step>, down: bool): set<nat> {
    if run == [] then {}
    else
      var before := Raised(s, run[..|run| - 1], down);
      match run[|run| - 1]
      case FlushBegins(id) => if After(s, run[..|run| - 1]).tx != down then before + {id} else before - {id}
      case FlushEnds(id) => before - {id}
      case _ => before
  }

  /** The last step raises the latch for the second time in one flush. */
  predicate RaisesAgain(s: State, before: seq<Step>, a: Step) {
    a.FlushEnds? && !After(s, before).tx && a.id in Raised(s, before, true)
  }

  /** Calls that raise the latch. */
  function Raises(s: State, run: seq<Step>): nat {
    if run == [] then 0
    else
      var before, a := run[..|run| - 1], run[|run| - 1];
      Raises(s, before) + if Assigns(a) && !After(s, before).tx && !RaisesAgain(s, before, a) then 1 else 0
  }

  /** Flushes that raise it twice. */
  function Extra(s: State, run: seq<Step>): nat {
    if run == [] then 0
    else
      var before, a := run[..|run| - 1], run[|run| - 1];
      Extra(s, before) + if RaisesAgain(s, before, a) then 1 else 0
  }

  /** Over every run: reports made and owed are the raises of the latch, first and second ones. */
  lemma {:induction false} ReportsBalance(s: State, run: seq<Step>)
    requires LatchOk(s)
    ensures var t := After(s, run);
      t.reports + Owed(t) == s.reports + Owed(s) + Raises(s, run) + Extra(s, run)
  {
    if run != [] {
      var before := run[..|run| - 1];
      ReportsBalance(s, before);
      LatchStaysOk(s, before);
    }
  }

  lemma {:induction false} OpenSplits(s: State, run: seq<Step>)
    requires Legal(run)
    ensures Open(run) == Raised(s, run, true) + Raised(s, run, false) && Raised(s, run, true) !! Raised(s, run, false)
  {
    if run != [] {
      OpenSplits(s, run[..|run| - 1]);
    }
  }

  lemma SetWithout(x: set<nat>, id: nat)
    ensures |x - {id}| == |x| - if id in x then 1 else 0
    ensures |x + {id}| == |x| + if id in x then 0 else 1
  {
    if id in x {
      assert x - {id} + {id} == x && x + {id} == x;
    } else {
      assert x - {id} == x;
    }
  }

  /** A call raises the latch for the first time at most once, a flush again at most once. */
  lemma {:induction false} RaisesPerCall(s: State, run: seq<Step>)
    requires Legal(run)
    ensures Raises(s, run) + |Raised(s, run, false)| <= Writes(run) + Flushes(run)
    ensures Extra(s, run) + |Raised(s, run, true)| <= Flushes(run)
  {
    if run != [] {
      var before, a := run[..|run| - 1], run[|run| - 1];
      RaisesPerCall(s, before);
      OpenSplits(s, before);
      if a.FlushBegins? || a.FlushEnds? {
        SetWithout(Raised(s, before, true), a.id);
        SetWithout(Raised(s, before, false), a.id);
      }
    }
  }

  /** Reports are bounded by the writes, twice the flushes, and a latch already up; without a flush that raises the
    * latch twice, by the calls. */
  lemma ReportsBounded(s: State, run: seq<Step>)
    requires LatchOk(s) && Legal(run)
    ensures var t := After(s, run);
      && t.reports + Owed(t) <= s.reports + Owed(s) + Writes(run) + Flushes(run) + Extra(s, run)
      && t.reports + Owed(t) <= s.reports + Owed(s) + Writes(run) + 2 * Flushes(run)
  {
    ReportsBalance(s, run);
    RaisesPerCall(s, run);
  }

  // ---------------------------------------------------------------- which flushes are reported twice

  /** The state before step k. */
  function At(s: State, run: seq<Step>, k: nat): State
    requires k <= |run|
  {
    if k == 0 then s else Apply(At(s, run, k - 1), run[k - 1])
  }

  lemma Prefix(run: seq<Step>, k: nat)
    requires 0 < k <= |run|
    ensures run[..k][..k - 1] == run[..k - 1] && run[..k][k - 1] == run[k - 1] && run[..k] != []
  {
  }

  lemma {:induction false} AtIsAfter(s: State, run: seq<Step>, k: nat)
    requires k <= |run|
    ensures At(s, run, k) == After(s, run[..k])
  {
    if k > 0 {
      Prefix(run, k);
      AtIsAfter(s, run, k - 1);
    }
  }

  lemma {:induction false} LatchOkAt(s: State, run: seq<Step>, k: nat)
    requires LatchOk(s) && k <= |run|
    ensures LatchOk(At(s, run, k))
  {
    if k > 0 {
      LatchOkAt(s, run, k - 1);
    }
  }

  /** The poll reports at step j. */
  predicate ReportsAt(s: State, run: seq<Step>, j: nat)
    requires j < |run|
  {
    run[j].PollTests? && At(s, run, j).poll == SawEmpty && At(s, run, j).tx
  }

  /** The poll lowers the latch at step m. */
  predicate LowersAt(s: State, run: seq<Step>, m: nat)
    requires m < |run|
  {
    run[m].PollClears? && At(s, run, m).poll == Reporting
  }

  ghost predicate ReportsBetween(s: State, run: seq<Step>, i: nat, m: nat)
    requires m <= |run|
  {
    exists j :: i < j < m && ReportsAt(s, run, j)
  }

  /** Between steps i and k the poll reports and lowers the latch, and then no write or flush raises it again. */
  ghost predicate LoweredBetween(s: State, run: seq<Step>, i: nat, k: nat)
    requires k <= |run|
  {
    exists m :: i < m < k && LowersAt(s, run, m) && ReportsBetween(s, run, i, m) && forall q :: m < q < k ==> !Assigns(run[q])
  }

  /** Step i begins the flush, finding the latch down, and the flush is still going on at step k. */
  ghost predicate BeganDown(s: State, run: seq<Step>, i: nat, k: nat, id: nat)
    requires k <= |run|
  {
    && i < k && run[i] == FlushBegins(id) && !At(s, run, i).tx
    && forall q :: i < q < k ==> run[q] != FlushBegins(id) && run[q] != FlushEnds(id)
  }

  lemma BeganStep(s: State, run: seq<Step>, i: nat, k: nat, id: nat)
    requires k < |run|
    ensures BeganDown(s, run, i, k + 1, id) <==>
      if i == k then run[k] == FlushBegins(id) && !At(s, run, k).tx
      else BeganDown(s, run, i, k, id) && run[k] != FlushBegins(id) && run[k] != FlushEnds(id)
  {
  }

  lemma {:induction false} RaisedMeans(s: State, run: seq<Step>, k: nat, id: nat)
    requires k <= |run|
    ensures id in Raised(s, run[..k], true) <==> exists i: nat :: BeganDown(s, run, i, k, id)
  {
    if k > 0 {
      RaisedMeans(s, run, k - 1, id);
      Prefix(run, k);
      AtIsAfter(s, run, k - 1);
      if id in Raised(s, run[..k], true) && run[k - 1] != FlushBegins(id) {
        var i: nat :| BeganDown(s, run, i, k - 1, id);
        BeganStep(s, run, i, k - 1, id);
      } else {
        BeganStep(s, run, k - 1, k - 1, id);
      }
      if i: nat :| BeganDown(s, run, i, k, id) {
        BeganStep(s, run, i, k - 1, id);
      }
    }
  }

  // The same two relations step by step.

  predicate Reported(s: State, run: seq<Step>, i: nat, k: nat)
    requires k <= |run|
  {
    i + 1 < k && (ReportsAt(s, run, k - 1) || Reported(s, run, i, k - 1))
  }

  predicate Lowered(s: State, run: seq<Step>, i: nat, k: nat)
    requires k <= |run|
  {
    i + 1 < k && ((LowersAt(s, run, k - 1) && Reported(s, run, i, k - 1)) || (Lowered(s, run, i, k - 1) && !Assigns(run[k - 1])))
  }

  lemma {:induction false} ReportedMeans(s: State, run: seq<Step>, i: nat, k: nat)
    requires k <= |run|
    ensures Reported(s, run, i, k) <==> ReportsBetween(s, run, i, k)
  {
    if i + 1 < k {
      ReportedMeans(s, run, i, k - 1);
      if j :| i < j < k && ReportsAt(s, run, j) {
        assert j < k - 1 ==> ReportsBetween(s, run, i, k - 1);
      }
    }
  }

  lemma LoweredStep(s: State, run: seq<Step>, i: nat, k: nat)
    requires i < k < |run|
    ensures LoweredBetween(s, run, i, k + 1) <==>
      || (LowersAt(s, run, k) && ReportsBetween(s, run, i, k))
      || (LoweredBetween(s, run, i, k) && !Assigns(run[k]))
  {
    if m :| i < m < k + 1 && LowersAt(s, run, m) && ReportsBetween(s, run, i, m) && (forall q :: m < q < k + 1 ==> !Assigns(run[q])) {
      assert m < k ==> LoweredBetween(s, run, i, k);
    }
    if LoweredBetween(s, run, i, k) && !Assigns(run[k]) {
      var m :| i < m < k && LowersAt(s, run, m) && ReportsBetween(s, run, i, m) && forall q :: m < q < k ==> !Assigns(run[q]);
      assert LoweredBetween(s, run, i, k + 1);
    }
  }

  lemma {:induction false} LoweredMeans(s: State, run: seq<Step>, i: nat, k: nat)
    requires i < k <= |run|
    ensures Lowered(s, run, i, k) <==> LoweredBetween(s, run, i, k)
  {
    if i + 1 < k {
      LoweredMeans(s, run, i, k - 1);
      LoweredStep(s, run, i, k - 1);
      ReportedMeans(s, run, i, k - 1);
    }
  }

  lemma PollStep(t: State, a: Step)
    requires LatchOk(t)
    ensures Apply(t, a).poll == Reporting ==> t.poll == Reporting || (a.PollTests? && t.poll == SawEmpty && t.tx)
    ensures !Apply(t, a).tx <==> (a.PollClears? && t.poll == Reporting) || (!t.tx && !Assigns(a))
  {
  }

  lemma {:induction false} ReportingMeans(s: State, run: seq<Step>, i: nat, k: nat)
    requires LatchOk(s) && i < k <= |run| && run[i].FlushBegins? && !At(s, run, i).tx
    ensures At(s, run, k).poll == Reporting ==> Reported(s, run, i, k)
  {
    LatchOkAt(s, run, k - 1);
    PollStep(At(s, run, k - 1), run[k - 1]);
    if i + 1 < k {
      ReportingMeans(s, run, i, k - 1);
    }
  }

  /** While a flush goes on, its second assignment finds the latch down again exactly when the poll has reported and
    * lowered it in between. */
  lemma {:induction false} DownMeans(s: State, run: seq<Step>, i: nat, k: nat)
    requires LatchOk(s) && i < k <= |run| && run[i].FlushBegins? && !At(s, run, i).tx
    ensures !At(s, run, k).tx <==> Lowered(s, run, i, k)
  {
    var t, a := At(s, run, k - 1), run[k - 1];
    assert At(s, run, k) == Apply(t, a);
    LatchOkAt(s, run, k - 1);
    PollStep(t, a);
    if i + 1 < k {
      DownMeans(s, run, i, k - 1);
      ReportingMeans(s, run, i, k - 1);
      if LowersAt(s, run, k - 1) {
        assert Reported(s, run, i, k - 1);
      }
    }
  }

  /** Step k ends a flush that found the latch down and that the poll reported on before it was over. */
  ghost predicate Interrupted(s: State, run: seq<Step>, k: nat)
    requires k < |run|
  {
    run[k].FlushEnds? && exists i: nat :: BeganDown(s, run, i, k, run[k].id) && LoweredBetween(s, run, i, k)
  }

  lemma RaisesAgainMeans(s: State, run: seq<Step>, k: nat)
    requires LatchOk(s) && k < |run|
    ensures RaisesAgain(s, run[..k], run[k]) <==> Interrupted(s, run, k)
  {
    AtIsAfter(s, run, k);
    if run[k].FlushEnds? {
      var id := run[k].id;
      RaisedMeans(s, run, k, id);
      forall i: nat | BeganDown(s, run, i, k, id) ensures !At(s, run, k).tx <==> LoweredBetween(s, run, i, k) {
        DownMeans(s, run, i, k);
        LoweredMeans(s, run, i, k);
      }
      if RaisesAgain(s, run[..k], run[k]) {
        var i: nat :| BeganDown(s, run, i, k, id);
      }
    }
  }

  lemma {:induction false} ExtraCounts(s: State, run: seq<Step>, n: nat)
    requires n <= |run|
    ensures Extra(s, run[..n]) > 0 <==> exists k :: 0 <= k < n && RaisesAgain(s, run[..k], run[k])
  {
    if n > 0 {
      Prefix(run, n);
      ExtraCounts(s, run, n - 1);
    }
  }

  /** Over every run an extra report arises exactly when some flush is interrupted: the latch was down when it began, and
    * between its two assignments the poll of an empty queue reported and lowered it. */
  lemma ExtraReportsExactly(s: State, run: seq<Step>)
    requires LatchOk(s)
    ensures Extra(s, run) > 0 <==> exists k :: 0 <= k < |run| && Interrupted(s, run, k)
  {
    assert run[..|run|] == run;
    ExtraCounts(s, run, |run|);
    forall k | 0 <= k < |run| ensures RaisesAgain(s, run[..k], run[k]) <==> Interrupted(s, run, k) {
      RaisesAgainMeans(s, run, k);
    }
  }

  lemma Snoc(s: State, run: seq<Step>, a: Step)
    ensures After(s, run + [a]) == Apply(After(s, run), a)
    ensures Writes(run + [a]) == Writes(run) + if a.WriteEnds? then 1 else 0
    ensures Flushes(run + [a]) == Flushes(run) + if a.FlushBegins? then 1 else 0
    ensures Legal(run + [a]) ==
      (Legal(run) && (a.FlushBegins? ==> a.id !in Open(run)) && (a.FlushEnds? ==> a.id in Open(run)))
    ensures Open(run + [a]) ==
      if a.FlushBegins? then Open(run) + {a.id} else if a.FlushEnds? then Open(run) - {a.id} else Open(run)
  {
    assert (run + [a])[..|run|] == run;
  }

  /** A whole poll of an empty queue, after an assignment. */
  lemma PollAfter(s: State, run: seq<Step>) returns (longer: seq<Step>)
    requires Legal(run) && After(s, run).poll == Idle && After(s, run).tx
    ensures Legal(longer) && Open(longer) == Open(run) && Writes(longer) == Writes(run) && Flushes(longer) == Flushes(run)
    ensures var t := After(s, longer); t.poll == Idle && !t.tx && t.reports == After(s, run).reports + 1
  {
    Snoc(s, run, PollLooks(0));
    Snoc(s, run + [PollLooks(0)], PollTests);
    Snoc(s, run + [PollLooks(0)] + [PollTests], PollClears(true));
    longer := run + [PollLooks(0)] + [PollTests] + [PollClears(true)];
  }

  /** The bound is reached, whatever the numbers: a poll after each assignment. One flush can be reported twice. */
  lemma {:induction false} BoundIsReached(s: State, writes: nat, flushes: nat) returns (run: seq<Step>)
    requires s.poll == Idle && !s.tx
    ensures Legal(run) && Open(run) == {} && Writes(run) == writes && Flushes(run) == flushes
    ensures var t := After(s, run); t.poll == Idle && !t.tx && t.reports == s.reports + writes + 2 * flushes
    decreases writes + flushes
  {
    if writes > 0 {
      run := BoundIsReached(s, writes - 1, flushes);
      Snoc(s, run, WriteEnds);
      run := PollAfter(s, run + [WriteEnds]);
    } else if flushes > 0 {
      run := BoundIsReached(s, writes, flushes - 1);
      Snoc(s, run, FlushBegins(0));
      run := PollAfter(s, run + [FlushBegins(0)]);
      Snoc(s, run, FlushEnds(0));
      run := PollAfter(s, run + [FlushEnds(0)]);
    } else {
      run := [];
    }
  }

  // ---------------------------------------------------------------- what a report means

  /** The poll has looked at an empty queue and not tested the latch since. */
  ghost predicate JustSawEmpty(run: seq<Step>) {
    exists j :: 0 <= j < |run| && run[j] == PollLooks(0) && forall q :: j < q < |run| ==> !run[q].PollTests?
  }

  lemma {:induction false} SawEmptyMeans(s: State, run: seq<Step>)
    requires s.poll == Idle && After(s, run).poll == SawEmpty
    ensures JustSawEmpty(run)
  {
    var before := run[..|run| - 1];
    if After(s, before).poll == SawEmpty {
      SawEmptyMeans(s, before);
      var j :| 0 <= j < |before| && before[j] == PollLooks(0) && forall q :: j < q < |before| ==> !before[q].PollTests?;
      assert run[j] == PollLooks(0);
    } else {
      assert run[|run| - 1] == PollLooks(0);
    }
  }

  lemma {:induction false} RaisesNeedCalls(s: State, run: seq<Step>)
    requires Raises(s, run) + Extra(s, run) > 0
    ensures exists j :: 0 <= j < |run| && Assigns(run[j])
  {
    var before := run[..|run| - 1];
    if Assigns(run[|run| - 1]) {
    } else {
      RaisesNeedCalls(s, before);
      var j :| 0 <= j < |before| && Assigns(before[j]);
      assert Assigns(run[j]);
    }
  }

  /** Only a poll that saw an empty queue and finds the latch up reports; and after a report the next one waits for a write
    * to end, or for a flush to begin or end. */
  lemma OutputEmptyIsOneShot(s: State, run: seq<Step>, a: Step, more: seq<Step>)
    requires LatchOk(s) && s.poll == Idle
    ensures var t := After(s, run);
      var u := Apply(t, a);
      u.reports > t.reports ==>
        && a.PollTests? && t.tx && u.reports == t.reports + 1
        && JustSawEmpty(run)
        && (After(u, more).reports > u.reports ==> exists k :: 0 <= k < |more| && Assigns(more[k]))
  {
    var t := After(s, run);
    var u := Apply(t, a);
    if u.reports > t.reports {
      SawEmptyMeans(s, run);
      LatchStaysOk(s, run);
      ReportsBalance(u, more);
      if After(u, more).reports > u.reports {
        RaisesNeedCalls(u, more);
      }
    }
  }

  /** How many reports of the run were lowered inside the loop, or before it. */
  function Lowerings(s: State, run: seq<Step>, looping: bool): nat {
    if run == [] then 0
    else
      var before := run[..|run| - 1];
      Lowerings(s, before, looping)
        + if run[|run| - 1] == PollClears(looping) && After(s, before).poll == Reporting then 1 else 0
  }

  function Underway(s: State): nat {
    if s.poll == Reporting then 1 else 0
  }

  lemma OutputEmptyEvents(t: State, a: Step)
    ensures CountOf(Apply(t, a).sent, OutputEmpty)
      == CountOf(t.sent, OutputEmpty) + if a == PollClears(true) && t.poll == Reporting then 1 else 0
  {
    match a
    case Drain =>
      CountConcat(t.sent, Drained(t.osis, t.sis), OutputEmpty);
      CountDrained(t.osis, t.sis, OutputEmpty);
    case Sample(mflags) =>
      CountConcat(t.sent, LineEvents(mflags, t.omflags), OutputEmpty);
      CountNone(LineEvents(mflags, t.omflags), OutputEmpty);
    case PollClears(_) =>
      CountConcat(t.sent, [OutputEmpty], OutputEmpty);
      CountRepeat(OutputEmpty, 1, OutputEmpty);
      assert Repeat(OutputEmpty, 1) == [OutputEmpty];
    case _ =>
  }

  lemma ReportsStep(t: State, a: Step)
    ensures Apply(t, a).reports + Underway(t)
      == t.reports + Underway(Apply(t, a)) + if a.PollClears? && t.poll == Reporting then 1 else 0
  {
  }

  /** Over every run a listener is sent one output-empty event for each report lowered inside the loop; the other reports were made
    * before the loop, or one is still to be lowered. */
  lemma {:induction false} EveryReportIsSent(s: State, run: seq<Step>)
    ensures var t := After(s, run);
      && CountOf(t.sent, OutputEmpty) == CountOf(s.sent, OutputEmpty) + Lowerings(s, run, true)
      && t.reports + Underway(s) == s.reports + Underway(t) + Lowerings(s, run, true) + Lowerings(s, run, false)
  {
    if run != [] {
      var before, a := run[..|run| - 1], run[|run| - 1];
      EveryReportIsSent(s, before);
      OutputEmptyEvents(After(s, before), a);
      ReportsStep(After(s, before), a);
    }
  }

  /** The three steps of a poll nobody comes between do what the loop's own method does. */
  lemma UninterruptedPoll(s: State, outQueue: nat, looping: bool)
    requires s.poll == Idle
    ensures var t := Apply(Apply(Apply(s, PollLooks(outQueue)), PollTests), PollClears(looping));
      && t.poll == Idle && t.reports == s.reports + (if outQueue == 0 && s.tx then 1 else 0)
      && t.tx == (s.tx && outQueue != 0)
      && t.sent == if outQueue == 0 && s.tx && looping then s.sent + [OutputEmpty] else s.sent
  {
  }
}

module PollLoop {
  import opened PollSpec

  /** The counters and the latch of one open port. */
  class PortStatus {
    var sis: Counters
    var tx: bool

    constructor ()
      ensures sis == Counters(0, 0, 0, 0) && !tx
    {
      sis, tx := Counters(0, 0, 0, 0), false;
    }

    /** ClearErrors, with the answer of ClearCommError. */
    method ClearErrors(ok: bool, errors: Errors) returns (ret: bool)
      modifies this`sis
      ensures ret == ok && sis == if ok then Counted(old(sis), errors) else old(sis)
    {
      if !ok {
        return false;
      }
      if errors.frame {
        sis := sis.(frame := (sis.frame + 1) % WIDTH);
      }
      if errors.rxParity {
        sis := sis.(parity := (sis.parity + 1) % WIDTH);
      }
      if errors.brk {
        sis := sis.(brk := (sis.brk + 1) % WIDTH);
      }
      return true;
    }

    /** ioctl(TIOCSERGETLSR) with nobody else at the latch, after its two calls of ClearErrors. */
    method GetLsr(outQueue: nat) returns (empty: bool)
      modifies this`tx
      ensures empty <==> outQueue == 0 && old(tx)
      ensures tx == (old(tx) && !empty)
    {
      empty := false;
      if outQueue == 0 {
        if tx {
          empty := true;
          tx := false;
        }
      }
    }
  }

  class EventLoop {
    var osis: Counters
    var omflags: set<Line>
    var sent: seq<Event>

    constructor (sis: Counters, mflags: set<Line>)
      ensures osis == sis && omflags == mflags && sent == []
    {
      osis, omflags, sent := sis, mflags, [];
    }

    /** One draining loop: it ends, after as many events as the counters are apart modulo 2^32. */
    method DrainOne(from: Counter, to: Counter, e: Event)
      modifies this`sent
      ensures sent == old(sent) + Repeat(e, Gap(from, to))
    {
      var o: Counter := from;
      ghost var n := 0;
      while to != o
        invariant n + Gap(o, to) == Gap(from, to) && sent == old(sent) + Repeat(e, n)
        decreases Gap(o, to)
      {
        GapStep(o, to);
        sent := sent + [e];
        o, n := (o + 1) % WIDTH, n + 1;
        assert Repeat(e, n) == Repeat(e, n - 1) + [e];
      }
    }

    method DrainErrors(sis: Counters)
      modifies this`sent, this`osis
      ensures sent == old(sent) + Drained(old(osis), sis) && osis == sis
    {
      DrainOne(osis.frame, sis.frame, FE);
      DrainOne(osis.overrun, sis.overrun, OE);
      DrainOne(osis.parity, sis.parity, PE);
      DrainOne(osis.brk, sis.brk, BI);
      osis := sis;
    }

    method CompareLine(mflags: set<Line>, l: Line)
      modifies this`sent
      ensures sent == old(sent) + LineEvent(mflags, omflags, l)
    {
      var change := Level(mflags, l) - Level(omflags, l);
      if change != 0 {
        sent := sent + [Changed(l, change > 0)];
      }
    }

    method SampleLines(mflags: set<Line>)
      modifies this`sent, this`omflags
      ensures sent == old(sent) + LineEvents(mflags, old(omflags)) && omflags == mflags
    {
      CompareLine(mflags, CTS);
      CompareLine(mflags, DSR);
      CompareLine(mflags, RI);
      CompareLine(mflags, CD);
      omflags := mflags;
    }
  }
}
