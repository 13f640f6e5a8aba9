/** Which Win32 communication events a port watches, computed two ways: from scratch by the
  * termios emulation, and one call at a time on WinCE. A DWORD that is only combined with `|`,
  * `& ~` and `&` is the set of its bit numbers: union, difference and intersection. */
module EventMask {
  type Mask = set<nat>

  const EV_RXCHAR: nat := 0  // 0x0001
  const EV_TXEMPTY: nat := 2  // 0x0004
  const EV_CTS: nat := 3
  const EV_DSR: nat := 4
  const EV_RLSD: nat := 5
  const EV_BREAK: nat := 6
  const EV_ERR: nat := 7
  const EV_RING: nat := 8  // 0x0100
  const EV_POWER: nat := 13  // 0x2000
  /** The same bit on desktop Windows, undocumented: the trailing edge of the ring. */
  const TRAILING_RING: nat := 13

  /** The events of the Java interface, SPE_DATA_AVAILABLE to SPE_BI. */
  const DATA := 1
  const OUTPUT_EMPTY := 2
  const CTS := 3
  const DSR := 4
  const RI := 5
  const CD := 6
  const OE := 7
  const PE := 8
  const FE := 9
  const BI := 10
  type Event = e: int | DATA <= e <= BI witness DATA

  function Bit(e: Event): nat {
    match e
    case 1 => EV_RXCHAR
    case 2 => EV_TXEMPTY
    case 3 => EV_CTS
    case 4 => EV_DSR
    case 5 => EV_RING
    case 6 => EV_RLSD
    case 10 => EV_BREAK
    case _ => EV_ERR
  }

  // ----- termios_setflags -----

  /** The table of the emulation; slot 0 is unused. */
  function Win32Flags(): (t: seq<Mask>)
    ensures |t| == 11
  {
    [{}, {EV_RXCHAR}, {EV_TXEMPTY}, {EV_CTS}, {EV_DSR}, {EV_RING, TRAILING_RING}, {EV_RLSD}, {EV_ERR}, {EV_ERR}, {EV_ERR},
      {EV_BREAK}]
  }

  /** Both computations agree on the bit of each event, apart from the ring's trailing edge, and only the three line errors share one. */
  lemma TablesAgree(a: Event, b: Event)
    ensures Bit(a) in Win32Flags()[a] && Win32Flags()[a] <= {Bit(a), TRAILING_RING} && Win32Flags()[0] == {}
    ensures TRAILING_RING in Win32Flags()[a] <==> a == RI
    ensures Bit(a) == Bit(b) <==> a == b || (IsError(a) && IsError(b))
    ensures Bit(a) !in {EV_POWER, TRAILING_RING}
  {
  }

  /** Some enabled event among the first n slots maps to the bit. */
  ghost predicate Wanted(on: seq<bool>, n: nat, bit: nat)
    requires n <= |on| == 11
  {
    exists e :: 0 <= e < n && on[e] && bit in Win32Flags()[e]
  }

  class MaskedPort {
    var eventFlag: Mask

    constructor ()
      ensures eventFlag == {}
    {
      eventFlag := {};
    }
  }

  /** Every bit but one is set exactly when an enabled event maps to it. The trailing edge of the ring also needs
    * the driver to accept the whole mask; whatever it accepts, that mask is the one installed. */
  method TermiosSetFlags(index: MaskedPort?, on: seq<bool>, accepts: Mask -> bool)
    requires |on| == 11
    modifies index
    ensures index != null ==>
      forall bit: nat :: bit != TRAILING_RING ==> (bit in index.eventFlag <==> Wanted(on, 11, bit))
    ensures index != null ==>
      (TRAILING_RING in index.eventFlag <==> on[RI] && accepts(index.eventFlag + {TRAILING_RING}))
  {
    if index == null {
      return;
    }
    index.eventFlag := {};
    for i := 0 to 11
      invariant forall bit: nat :: bit in index.eventFlag <==> Wanted(on, i, bit)
    {
      ghost var was := index.eventFlag;
      if on[i] {
        index.eventFlag := index.eventFlag + Win32Flags()[i];
      }
      forall bit: nat ensures bit in index.eventFlag <==> Wanted(on, i + 1, bit) {
        assert Wanted(on, i + 1, bit) <==> Wanted(on, i, bit) || (on[i] && bit in Win32Flags()[i]);
      }
    }
    assert TRAILING_RING in Win32Flags()[RI];
    var result := accepts(index.eventFlag);
    ghost var whole := index.eventFlag;
    assert TRAILING_RING in whole ==> whole + {TRAILING_RING} == whole;
    if TRAILING_RING in index.eventFlag && !result {
      index.eventFlag := index.eventFlag - {TRAILING_RING};
      assert index.eventFlag + {TRAILING_RING} == whole;
    }
  }

  // ----- nativeSetEventFlag -----

  datatype Call = Call(event: Event, on: bool)

  /** The flag of the latest call for any event that maps to the bit. */
  predicate Latest(calls: seq<Call>, bit: nat) {
    if calls == [] then false
    else if Bit(calls[|calls| - 1].event) == bit then calls[|calls| - 1].on
    else Latest(calls[..|calls| - 1], bit)
  }

  /** The flag of the latest call for the event itself. */
  predicate Enabled(calls: seq<Call>, e: Event) {
    if calls == [] then false
    else if calls[|calls| - 1].event == e then calls[|calls| - 1].on
    else Enabled(calls[..|calls| - 1], e)
  }

  /** What the mask should be: the placeholder, and the bits some enabled event maps to. */
  ghost function Recomputed(calls: seq<Call>): Mask {
    {EV_POWER} + set e: Event | DATA <= e <= BI && Enabled(calls, e) :: Bit(e)
  }

  class EventInfo {
    var ef: Mask
    ghost var calls: seq<Call>

    /** Over every run of calls each bit holds the flag of the latest call for an event mapped to it; the mask is
      * never empty, because EV_POWER stays. */
    ghost predicate Valid()
      reads this
    {
      forall bit: nat :: bit in ef <==> bit == EV_POWER || Latest(calls, bit)
    }

    constructor ()
      ensures Valid() && calls == []
    {
      ef, calls := {EV_POWER}, [];
    }

    method NativeSetEventFlag(event: Event, flag: bool)
      requires Valid()
      modifies this
      ensures Valid() && calls == old(calls) + [Call(event, flag)]
    {
      var newFlag := Bit(event);
      if flag {
        ef := ef + {newFlag};
      } else {
        ef := ef - {newFlag};
      }
      calls := calls + [Call(event, flag)];
      assert calls[..|calls| - 1] == old(calls);
    }
  }

  /** The three line errors share a bit. */
  predicate IsError(e: Event) {
    e == OE || e == PE || e == FE
  }

  lemma {:induction false} OwnBit(calls: seq<Call>, e: Event)
    requires !IsError(e)
    ensures Latest(calls, Bit(e)) <==> Enabled(calls, e)
  {
    if calls != [] {
      OwnBit(calls[..|calls| - 1], e);
    }
  }

  lemma {:induction false} OnlyEventBits(calls: seq<Call>, bit: nat)
    requires Latest(calls, bit)
    ensures exists e: Event :: Bit(e) == bit
  {
    var last := calls[|calls| - 1];
    if Bit(last.event) != bit {
      OnlyEventBits(calls[..|calls| - 1], bit);
    }
  }

  /** The incremental mask is the recomputed one exactly when the latest call for any of the three line errors left
    * the flag that the three together ask for. */
  lemma AgreesWithRecomputed(info: EventInfo)
    requires info.Valid()
    ensures info.ef == Recomputed(info.calls) <==>
      (Latest(info.calls, EV_ERR) <==> Enabled(info.calls, OE) || Enabled(info.calls, PE) || Enabled(info.calls, FE))
  {
    var calls := info.calls;
    var wanted := Recomputed(calls);
    assert EV_ERR in wanted <==> Enabled(calls, OE) || Enabled(calls, PE) || Enabled(calls, FE) by {
      assert Bit(OE) == Bit(PE) == Bit(FE) == EV_ERR;
    }
    forall bit: nat | bit != EV_ERR ensures bit in info.ef <==> bit in wanted {
      if bit == EV_POWER {
      } else if Latest(calls, bit) {
        OnlyEventBits(calls, bit);
        var e: Event :| Bit(e) == bit;
        OwnBit(calls, e);
      } else if bit in wanted {
        var e: Event :| Enabled(calls, e) && Bit(e) == bit;
        OwnBit(calls, e);
        assert false;
      }
    }
  }

  /** Turning parity errors off also stops the overruns that are still wanted, and turning them on offers overruns
    * nobody asked for. */
  lemma ErrorsShareABit()
    ensures var calls := [Call(OE, true), Call(PE, false)]; Enabled(calls, OE) && !Latest(calls, EV_ERR)
    ensures var calls := [Call(PE, true)];
      !Enabled(calls, OE) && Latest(calls, EV_ERR) && Due(OE, {EV_ERR}, {EV_POWER, EV_ERR}, {OE})
  {
    var calls := [Call(OE, true), Call(PE, false)];
    assert calls[..1] == [Call(OE, true)];
    assert Enabled(calls[..1], OE);
  }

  // ----- SendEvents -----

  /** The event has happened, its bit is watched, and a line error is one the driver reports. */
  predicate Due(e: Event, events: Mask, ef: Mask, errors: set<Event>) {
    Bit(e) in events && Bit(e) in ef && (IsError(e) ==> e in errors)
  }

  /** The due events up to `last` have been offered to Java in ascending order, and all turned down. */
  ghost predicate Offered(sent: seq<Event>, last: int, events: Mask, ef: Mask, errors: set<Event>, accepts: Event -> bool) {
    && (forall i, j :: 0 <= i < j < |sent| ==> sent[i] < sent[j])
    && (forall i :: 0 <= i < |sent| ==> sent[i] <= last && Due(sent[i], events, ef, errors) && !accepts(sent[i]))
    && (forall e: Event :: e <= last && Due(e, events, ef, errors) ==> e in sent)
  }

  /** After that the event `last` was offered and taken. */
  ghost predicate Taken(sent: seq<Event>, last: int, events: Mask, ef: Mask, errors: set<Event>, accepts: Event -> bool) {
    && DATA <= last <= BI && Due(last, events, ef, errors) && accepts(last)
    && sent != [] && sent[|sent| - 1] == last
    && Offered(sent[..|sent| - 1], last - 1, events, ef, errors, accepts)
  }

  /** What a call reports: the number of the event taken, or 0 when all were turned down. */
  ghost predicate Reported(result: int, sent: seq<Event>, last: int, events: Mask, ef: Mask, errors: set<Event>,
      accepts: Event -> bool)
  {
    if result == 0 then Offered(sent, last, events, ef, errors, accepts)
    else Taken(sent, result, events, ef, errors, accepts)
  }

  /** One `if` of SendEvents, once no earlier one has returned. */
  method Offer(e: Event, due: bool, result: int, sent: seq<Event>, accepts: Event -> bool,
      ghost events: Mask, ghost ef: Mask, ghost errors: set<Event>)
    returns (r: int, now: seq<Event>)
    requires Reported(result, sent, e - 1, events, ef, errors, accepts) && due == Due(e, events, ef, errors)
    ensures Reported(r, now, e, events, ef, errors, accepts)
  {
    r, now := result, sent;
    if result == 0 && due {
      now := sent + [e];
      assert now[..|now| - 1] == sent;
      r := if accepts(e) then e else 0;
    }
  }

  /** The block of SendEvents for EV_ERR. */
  method OfferErrors(e: Mask, result: int, sent: seq<Event>, accepts: Event -> bool,
      ghost events: Mask, ghost ef: Mask, errors: set<Event>)
    returns (r: int, now: seq<Event>)
    requires Reported(result, sent, CD, events, ef, errors, accepts) && e == events * ef
    ensures Reported(r, now, FE, events, ef, errors, accepts)
  {
    r, now := Offer(OE, EV_ERR in e && OE in errors, result, sent, accepts, events, ef, errors);
    r, now := Offer(PE, EV_ERR in e && PE in errors, r, now, accepts, events, ef, errors);
    r, now := Offer(FE, EV_ERR in e && FE in errors, r, now, accepts, events, ef, errors);
  }

  /** SendEvents: the due events are offered once each, in a fixed order, up to the first that Java takes. */
  method SendEvents(events: Mask, ef: Mask, cleared: bool, errors: set<Event>, accepts: Event -> bool)
    returns (result: int, sent: seq<Event>)
    ensures !cleared ==> result == -1 && sent == []
    ensures cleared ==> Reported(result, sent, BI, events, ef, errors, accepts)
  {
    result, sent := 0, [];
    if !cleared {
      return -1, sent;
    }
    var e := events * ef;
    result, sent := Offer(DATA, EV_RXCHAR in e, result, sent, accepts, events, ef, errors);
    result, sent := Offer(OUTPUT_EMPTY, EV_TXEMPTY in e, result, sent, accepts, events, ef, errors);
    result, sent := Offer(CTS, EV_CTS in e, result, sent, accepts, events, ef, errors);
    result, sent := Offer(DSR, EV_DSR in e, result, sent, accepts, events, ef, errors);
    result, sent := Offer(RI, EV_RING in e, result, sent, accepts, events, ef, errors);
    result, sent := Offer(CD, EV_RLSD in e, result, sent, accepts, events, ef, errors);
    result, sent := OfferErrors(e, result, sent, accepts, events, ef, errors);
    result, sent := Offer(BI, EV_BREAK in e, result, sent, accepts, events, ef, errors);
  }
}
