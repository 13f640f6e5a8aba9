/** Line settings: the translation of POSIX termios fields (IEEE Std 1003.1, Base
  * Definitions, section 11.2) to a Win32 DCB and back, and what a program that sets, reads and sets
  * again can rely on. The device is a register: GetCommState returns what SetCommState stored. A flag
  * word is the set of its bit numbers: `|`, `& ~` and `&` are union, difference and intersection. */
module TermiosFlags {
  type Word = set<nat>

  // input flags
  const IGNPAR := 2  // 0x4
  const INPCK := 4
  const ISTRIP := 5
  const IXON := 10  // 0x400
  const IXANY := 11
  const IXOFF := 12

  // control flags
  const CBAUD: Word := {0, 1, 2, 3, 12}  // 0x100F
  const CBAUDEX := 0x1000
  const CSIZE: Word := {4, 5}  // 0x30
  const CS5: Word := {}
  const CS6: Word := {4}
  const CS7: Word := {5}
  const CS8: Word := {4, 5}
  const CSTOPB := 6
  const PARENB := 8
  const PARODD := 9
  const CIGNORE := 17
  const CMSPAR := 30
  const CRTSCTS := 31

  // local flags
  const ICANON := 1

  const B9600 := 0xD

  const VEOF := 4
  const VTIME := 5
  const VMIN := 6
  const VSTART := 8
  const VSTOP := 9
  const NCCS := 32

  const MAXDWORD := 0xFFFF_FFFF
}

module Settings {
  import opened Bytes
  import opened TermiosFlags

  type ControlChars = s: seq<Byte> | |s| == NCCS witness seq(NCCS, _ => 0)

  /** The two speeds are unsigned numbers. */
  datatype Termios = Termios(iflag: Word, oflag: Word, cflag: Word, lflag: Word, cc: ControlChars, line: Byte,
                             ispeed: nat, ospeed: nat)

  datatype Parity = NoParity | OddParity | EvenParity | MarkParity | SpaceParity
  datatype StopBits = OneStopBit | One5StopBits | TwoStopBits
  datatype RtsControl = RtsDisable | RtsEnable | RtsHandshake | RtsToggle
  datatype DtrControl = DtrDisable | DtrEnable | DtrHandshake

  /** The fields of the DCB that the emulation reads or writes. */
  datatype DCB = DCB(baudRate: int, byteSize: int, parity: Parity, stopBits: StopBits,
                     rts: RtsControl, dtr: DtrControl, outxCtsFlow: bool, outxDsrFlow: bool, dsrSensitivity: bool,
                     checkParity: bool, binary: bool, outX: bool, inX: bool, txContinueOnXoff: bool,
                     xonChar: Byte, xoffChar: Byte, eofChar: Byte, xonLim: int, xoffLim: int)

  datatype Timeouts = Timeouts(readInterval: int, readTotalMultiplier: int, readTotalConstant: int,
                               writeTotalMultiplier: int, writeTotalConstant: int)

  // ---------------------------------------------------------------- translators

  /** B_to_CBR: the line rate behind a speed code, -1 for no such code. */
  function BaudToRate(code: int): int {
    match code
    case 0 => 0 case 1 => 50 case 2 => 75 case 3 => 110 case 4 => 134 case 5 => 150 case 6 => 200 case 7 => 300
    case 8 => 600 case 9 => 1200 case 10 => 1800 case 11 => 2400 case 12 => 4800 case 13 => 9600
    case 14 => 19200 case 15 => 38400
    case 0x1001 => 57600 case 0x1002 => 115200 case 0x1003 => 230400 case 0x1004 => 460800
    case 0x1005 => 500000 case 0x1006 => 576000 case 0x1007 => 921600 case 0x1008 => 1000000
    case 0x1009 => 1152000 case 0x100A => 1500000 case 0x100B => 2000000 case 0x100C => 2500000
    case 0x100D => 3000000 case 0x100E => 3500000 case 0x100F => 4000000
    case 1010001 => 14400 case 1010002 => 28800 case 1010003 => 128000 case 1010004 => 256000
    case _ => -1
  }

  /** CBR_to_B: the speed code for a line rate, -1 for none. */
  function RateToBaud(rate: int): int {
    match rate
    case 0 => 0 case 50 => 1 case 75 => 2 case 110 => 3 case 134 => 4 case 150 => 5 case 200 => 6
    case 300 => 7 case 600 => 8 case 1200 => 9 case 1800 => 10 case 2400 => 11 case 4800 => 12
    case 9600 => 13 case 19200 => 14 case 38400 => 15
    case 57600 => 0x1001 case 115200 => 0x1002 case 230400 => 0x1003 case 460800 => 0x1004
    case 500000 => 0x1005 case 576000 => 0x1006 case 921600 => 0x1007 case 1000000 => 0x1008
    case 1152000 => 0x1009 case 1500000 => 0x100A case 2000000 => 0x100B case 2500000 => 0x100C
    case 3000000 => 0x100D case 3500000 => 0x100E case 4000000 => 0x100F
    case 14400 => 1010001 case 28800 => 1010002 case 128000 => 1010003 case 256000 => 1010004
    case _ => -1
  }

  /** The speed a rate is reported as: the code as an unsigned int. */
  function SpeedOf(rate: int): nat {
    RateToBaud(rate) % 0x1_0000_0000
  }

  /** The number in the CBAUD field of a word. */
  function SpeedField(w: Word): nat {
    (if 0 in w then 1 else 0) + (if 1 in w then 2 else 0) + (if 2 in w then 4 else 0) + (if 3 in w then 8 else 0)
    + if 12 in w then 0x1000 else 0
  }

  /** A number, masked with CBAUD, as a word. */
  function SpeedBits(n: nat): Word {
    (if n % 2 == 1 then {0} else {}) + (if n / 2 % 2 == 1 then {1} else {}) + (if n / 4 % 2 == 1 then {2} else {})
    + (if n / 8 % 2 == 1 then {3} else {}) + if n / 0x1000 % 2 == 1 then {12} else {}
  }

  /** termios_to_bytesize and bytesize_to_termios */
  function ByteSize(cflag: Word): int {
    if cflag * CSIZE == CS5 then 5 else if cflag * CSIZE == CS6 then 6 else if cflag * CSIZE == CS7 then 7 else 8
  }

  function SizeFlag(bits: int): Word {
    match bits case 5 => CS5 case 6 => CS6 case 7 => CS7 case _ => CS8
  }

  function SetTo(w: Word, bit: nat, on: bool): Word {
    if on then w + {bit} else w - {bit}
  }

  function ParityOf(cflag: Word): Parity {
    if PARENB !in cflag then NoParity
    else if PARODD in cflag && CMSPAR in cflag then MarkParity
    else if PARODD in cflag then OddParity
    else if CMSPAR in cflag then SpaceParity
    else EvenParity
  }

  function ParityFlags(p: Parity): Word {
    match p
    case NoParity => {}
    case OddParity => {PARENB, PARODD}
    case EvenParity => {PARENB}
    case MarkParity => {PARENB, PARODD, CMSPAR}
    case SpaceParity => {PARENB, CMSPAR}
  }

  // ---------------------------------------------------------------- installing and reading back

  /** A port as tcsetattr and tcgetattr see it: the driver's registers and the cached termios. */
  datatype PortState = PortState(dcb: DCB, timeouts: Timeouts, ttyset: Termios)

  function WithLineSpeed(t: Termios): Termios {
    t.(ispeed := SpeedField(t.cflag), ospeed := SpeedField(t.cflag))
  }

  /** The control-mode part of the DCB, left alone when CIGNORE asks for it. */
  function ControlModes(t: Termios, dcb: DCB): DCB {
    if CIGNORE in t.cflag then dcb
    else
      dcb.(checkParity := true,
           baudRate := BaudToRate(SpeedField(t.cflag)),
           byteSize := ByteSize(t.cflag),
           parity := ParityOf(t.cflag),
           stopBits := if CSTOPB in t.cflag then TwoStopBits else OneStopBit,
           rts := if CRTSCTS in t.cflag then RtsHandshake else RtsDisable,
           outxCtsFlow := CRTSCTS in t.cflag)
  }

  function InputModes(t: Termios, dcb: DCB): DCB {
    dcb.(outX := IXON in t.iflag, inX := IXOFF in t.iflag, txContinueOnXoff := IXANY in t.iflag,
         dtr := DtrEnable, outxDsrFlow := false, dsrSensitivity := false,
         xonChar := t.cc[VSTART], xoffChar := t.cc[VSTOP], xonLim := 0, xoffLim := 0,
         eofChar := t.cc[VEOF], binary := t.cc[VEOF] == 0)
  }

  function TimeoutsFor(t: Termios): Timeouts {
    var vtime := t.cc[VTIME] as int * 100;
    if t.cc[VMIN] == 0 && vtime == 0 then Timeouts(MAXDWORD, 0, 0, 0, vtime) else Timeouts(0, 0, vtime, 0, vtime)
  }

  /** The port after a tcsetattr that went through. */
  function Installed(p: PortState, t: Termios): PortState {
    PortState(InputModes(t, ControlModes(t, p.dcb)), TimeoutsFor(t), if CIGNORE in t.cflag then t else WithLineSpeed(t))
  }

  function InputFlags(iflag: Word, d: DCB): Word {
    SetTo(SetTo(SetTo(SetTo(SetTo(iflag, INPCK, d.checkParity), IGNPAR, !d.checkParity), IXON, d.outX), IXOFF, d.inX),
      IXANY, d.txContinueOnXoff)
  }

  predicate Flows(d: DCB) {
    d.outxCtsFlow || d.rts == RtsHandshake
  }

  function ControlFlags(cflag: Word, d: DCB): Word {
    var stops := if d.stopBits.One5StopBits? then cflag else SetTo(cflag, CSTOPB, d.stopBits.TwoStopBits?);
    SetTo(stops - {PARENB, PARODD, CMSPAR} + ParityFlags(d.parity) + SizeFlag(d.byteSize), CRTSCTS, Flows(d))
      + SpeedBits(SpeedOf(d.baudRate))
  }

  /** What tcgetattr reports. */
  function ReadBack(p: PortState): Termios {
    var d := p.dcb;
    p.ttyset.(
      iflag := InputFlags(p.ttyset.iflag, d),
      cflag := ControlFlags(p.ttyset.cflag, d),
      cc := p.ttyset.cc[VTIME := ToByte(p.timeouts.readTotalConstant / 100)]
                       [VSTART := d.xonChar][VSTOP := d.xoffChar][VEOF := d.eofChar],
      ispeed := SpeedOf(d.baudRate), ospeed := SpeedOf(d.baudRate))
  }

  // ---------------------------------------------------------------- the round trip

  function Normalised(cflag: Word): Word {
    if PARENB in cflag then cflag else cflag - {PARODD, CMSPAR}
  }

  /** The settings a program may expect to read back after asking for t: parity checking on, parity errors reported, the
    * parity kind dropped when there is no parity, both speeds those of the control flags. */
  function Normalise(t: Termios): Termios {
    t.(iflag := t.iflag + {INPCK} - {IGNPAR}, cflag := Normalised(t.cflag),
       ispeed := SpeedField(t.cflag), ospeed := SpeedField(t.cflag))
  }

  /** Only INPCK, IGNPAR, PARODD, CMSPAR and the two speeds can change, and what reaches the line does not. */
  lemma NormaliseMeans(t: Termios)
    ensures var n := Normalise(t);
      && INPCK in n.iflag && IGNPAR !in n.iflag && n.iflag - {INPCK, IGNPAR} == t.iflag - {INPCK, IGNPAR}
      && (if PARENB in t.cflag then n.cflag == t.cflag
          else PARENB !in n.cflag && PARODD !in n.cflag && CMSPAR !in n.cflag && n.cflag - {PARODD, CMSPAR} == t.cflag - {PARODD, CMSPAR})
      && n.oflag == t.oflag && n.lflag == t.lflag && n.cc == t.cc && n.line == t.line
      && n.ispeed == n.ospeed == SpeedField(t.cflag) == SpeedField(n.cflag)
      && n.cflag * CSIZE == t.cflag * CSIZE && ParityOf(n.cflag) == ParityOf(t.cflag)
  {
  }

  lemma NormaliseIsIdempotent(t: Termios)
    ensures Normalise(Normalise(t)) == Normalise(t)
  {
    assert Normalised(Normalised(t.cflag)) == Normalised(t.cflag);
    assert Normalise(t).iflag + {INPCK} - {IGNPAR} == Normalise(t).iflag;
  }

  lemma SlowSpeedsInvert(code: int)
    requires 0 <= code < 0x10
    ensures SpeedOf(BaudToRate(code)) == code
  {
  }

  lemma FastSpeedsInvert(code: int)
    requires 0x1000 < code < 0x1010
    ensures SpeedOf(BaudToRate(code)) == code
  {
  }

  /** On all numbers: a code that has a rate is the code of that rate, and a rate that has a code is the rate of that code. */
  lemma TablesInvert(n: int)
    ensures BaudToRate(n) != -1 ==> RateToBaud(BaudToRate(n)) == n
    ensures RateToBaud(n) != -1 ==> BaudToRate(RateToBaud(n)) == n
    ensures BaudToRate(n) != -1 <==> 0 <= n < 0x10 || 0x1000 < n < 0x1010 || 1010001 <= n <= 1010004
  {
  }

  lemma NextCodeIsFaster(n: int)
    requires 0 <= n < 15 || 0x1001 <= n < 0x100F
    ensures BaudToRate(n) < BaudToRate(n + 1)
  {
  }

  /** Greater codes stand for greater rates. */
  lemma {:induction false} CodesAscend(m: int, n: int)
    requires 0 <= m < n < 0x1010 && (m < 0x10 || 0x1000 < m) && (n < 0x10 || 0x1000 < n)
    ensures 0 <= BaudToRate(m) < BaudToRate(n)
    decreases n - m
  {
    if n == 0x1001 {
      if m < 15 {
        CodesAscend(m, 15);
      }
    } else {
      if m < n - 1 {
        CodesAscend(m, n - 1);
      }
      NextCodeIsFaster(n - 1);
    }
  }

  /** On every code a CBAUD field can hold, the two speed tables are inverse to each other, except for the extension bit
    * alone. */
  lemma SpeedsInvert(w: Word)
    ensures SpeedOf(BaudToRate(SpeedField(w))) == SpeedField(w) <==> SpeedField(w) != CBAUDEX
  {
    var code := SpeedField(w);
    if 12 !in w {
      SlowSpeedsInvert(code);
    } else if code != CBAUDEX {
      FastSpeedsInvert(code);
    }
  }

  lemma SizesInvert(cflag: Word)
    ensures SizeFlag(ByteSize(cflag)) == cflag * CSIZE
    ensures 5 <= ByteSize(cflag) <= 8
    ensures forall bits :: !(5 <= bits <= 7) ==> SizeFlag(bits) == SizeFlag(8)
  {
    if 4 in cflag {
      assert cflag * CSIZE == if 5 in cflag then CS8 else CS6;
    } else {
      assert cflag * CSIZE == if 5 in cflag then CS7 else CS5;
    }
  }

  lemma ParityInverts(cflag: Word)
    ensures ParityFlags(ParityOf(cflag)) == if PARENB in cflag then cflag * {PARENB, PARODD, CMSPAR} else {}
  {
  }

  lemma BinaryDigits(a: nat, b: nat, c: nat, d: nat, e: nat)
    requires a <= 1 && b <= 1 && c <= 1 && d <= 1 && e <= 1
    ensures var n := a + 2 * b + 4 * c + 8 * d + 0x1000 * e;
      n % 2 == a && n / 2 % 2 == b && n / 4 % 2 == c && n / 8 % 2 == d && n / 0x1000 % 2 == e
  {
    var n := a + 2 * b + 4 * c + 8 * d + 0x1000 * e;
    assert n / 2 == b + 2 * c + 4 * d + 0x800 * e;
    assert n / 4 == c + 2 * d + 0x400 * e;
    assert n / 8 == d + 0x200 * e;
    assert n / 0x1000 == e;
  }

  /** The field of a word, taken as a number and put back, is the field. */
  lemma SpeedBitsOfField(w: Word)
    ensures SpeedBits(SpeedField(w)) == w * CBAUD
  {
    BinaryDigits(if 0 in w then 1 else 0, if 1 in w then 1 else 0, if 2 in w then 1 else 0, if 3 in w then 1 else 0,
      if 12 in w then 1 else 0);
  }

  lemma SpeedBitsStayInField(n: nat)
    ensures SpeedBits(n) <= CBAUD
  {
  }

  /** The control flags tcgetattr builds, bit by bit: stop bits, parity and flow control come from the line, size and speed are
    * added to what was asked for. */
  lemma ControlBit(c: Word, d: DCB, b: nat)
    ensures b in ControlFlags(c, d) <==>
      if b == CSTOPB then (if d.stopBits.One5StopBits? then b in c else d.stopBits.TwoStopBits?)
      else if b == PARENB || b == PARODD || b == CMSPAR then b in ParityFlags(d.parity)
      else if b == CRTSCTS then d.outxCtsFlow || d.rts == RtsHandshake
      else b in c || b in SizeFlag(d.byteSize) || b in SpeedBits(SpeedOf(d.baudRate))
  {
    SpeedBitsStayInField(SpeedOf(d.baudRate));
  }

  /** The speed read back is added to the speed asked for. */
  lemma ControlSpeed(c: Word, d: DCB)
    ensures ControlFlags(c, d) * CBAUD == c * CBAUD + SpeedBits(SpeedOf(d.baudRate))
  {
    SpeedBitsStayInField(SpeedOf(d.baudRate));
    forall b: nat | b in CBAUD ensures b in ControlFlags(c, d) <==> b in c || b in SpeedBits(SpeedOf(d.baudRate)) {
      ControlBit(c, d, b);
    }
  }

  /** The line agrees with the control flags: stop bits (one and a half stand for either), parity, flow control, and no size or
    * speed bit beyond those asked for. */
  predicate FlagsMatch(c: Word, d: DCB) {
    && (d.stopBits.One5StopBits? || (d.stopBits.TwoStopBits? <==> CSTOPB in c))
    && ParityFlags(d.parity) == (if PARENB in c then c * {PARENB, PARODD, CMSPAR} else {})
    && (d.outxCtsFlow || d.rts == RtsHandshake <==> CRTSCTS in c)
    && SizeFlag(d.byteSize) <= c && SpeedBits(SpeedOf(d.baudRate)) <= c
  }

  lemma MatchingFlagsAreNormal(c: Word, d: DCB)
    requires FlagsMatch(c, d)
    ensures ControlFlags(c, d) == Normalised(c)
  {
    forall b: nat ensures b in ControlFlags(c, d) <==> b in Normalised(c) {
      ControlBit(c, d, b);
    }
  }

  lemma NormalFlagsMatch(c: Word, d: DCB)
    requires ControlFlags(c, d) == Normalised(c)
    ensures FlagsMatch(c, d)
  {
    ControlBit(c, d, CSTOPB);
    ControlBit(c, d, CRTSCTS);
    forall b: nat ensures b in ParityFlags(d.parity) <==> PARENB in c && b in c * {PARENB, PARODD, CMSPAR} {
      ControlBit(c, d, b);
    }
    SpeedBitsStayInField(SpeedOf(d.baudRate));
    forall b: nat | b in SizeFlag(d.byteSize) || b in SpeedBits(SpeedOf(d.baudRate)) ensures b in c {
      ControlBit(c, d, b);
    }
  }

  /** The input flags read back normalised exactly when the line checks parity. */
  lemma InputFlagsRoundTrip(t: Termios, d: DCB)
    requires d.outX == (IXON in t.iflag) && d.inX == (IXOFF in t.iflag) && d.txContinueOnXoff == (IXANY in t.iflag)
    ensures InputFlags(t.iflag, d) == Normalise(t).iflag <==> d.checkParity
  {
    if d.checkParity {
      assert forall b: nat :: b in InputFlags(t.iflag, d) <==> b in Normalise(t).iflag;
    } else {
      assert INPCK !in InputFlags(t.iflag, d);
    }
  }

  lemma OwnFlagsMatch(t: Termios, dcb: DCB)
    requires CIGNORE !in t.cflag && SpeedField(t.cflag) != CBAUDEX
    ensures FlagsMatch(t.cflag, InputModes(t, ControlModes(t, dcb)))
  {
    SpeedsInvert(t.cflag);
    SpeedBitsOfField(t.cflag);
    SizesInvert(t.cflag);
    ParityInverts(t.cflag);
  }

  lemma TimesRoundTrip(t: Termios)
    ensures ToByte(TimeoutsFor(t).readTotalConstant / 100) == t.cc[VTIME]
  {
  }

  lemma SpeedsReadBack(p: PortState, t: Termios)
    requires CIGNORE !in t.cflag
    ensures var r := ReadBack(Installed(p, t));
      r.ispeed == r.ospeed && (r.ispeed == SpeedField(t.cflag) <==> SpeedField(t.cflag) != CBAUDEX)
  {
    SpeedsInvert(t.cflag);
  }

  lemma OtherFieldsReadBack(p: PortState, t: Termios)
    ensures var r := ReadBack(Installed(p, t));
      r.cc == t.cc && r.oflag == t.oflag && r.lflag == t.lflag && r.line == t.line
  {
    TimesRoundTrip(t);
  }

  /** The line already does what the control flags ask for. */
  predicate LineMatches(d: DCB, c: Word) {
    d.checkParity && FlagsMatch(c, d) && SpeedOf(d.baudRate) == SpeedField(c)
  }

  /** For all settings: they read back normalised exactly when, with CIGNORE, the line already matches them, and otherwise their
    * speed field is not the extension bit alone. */
  lemma SettingsRoundTrip(p: PortState, t: Termios)
    ensures ReadBack(Installed(p, t)) == Normalise(t) <==>
      if CIGNORE in t.cflag then LineMatches(p.dcb, t.cflag) else SpeedField(t.cflag) != CBAUDEX
  {
    var q := Installed(p, t);
    OtherFieldsReadBack(p, t);
    InputFlagsRoundTrip(t, q.dcb);
    if ReadBack(q) == Normalise(t) {
      NormalFlagsMatch(t.cflag, q.dcb);
    }
    if FlagsMatch(t.cflag, q.dcb) {
      MatchingFlagsAreNormal(t.cflag, q.dcb);
    }
    if CIGNORE !in t.cflag {
      SpeedsReadBack(p, t);
      if SpeedField(t.cflag) != CBAUDEX {
        OwnFlagsMatch(t, p.dcb);
      }
    }
  }

  lemma AllOnes(w: Word, c: Word)
    requires w * CBAUD == c * CBAUD + SpeedBits(0xFFFF_FFFF)
    ensures SpeedField(w) == 0x100F
  {
    assert SpeedBits(0xFFFF_FFFF) == CBAUD;
    assert forall b :: b in CBAUD ==> b in w * CBAUD;
  }

  /** The speed field that breaks the round trip reads back as the fastest speed there is. */
  lemma ExtensionBitAloneReadsAsFastest(p: PortState, t: Termios)
    requires CIGNORE !in t.cflag && SpeedField(t.cflag) == CBAUDEX
    ensures SpeedField(ReadBack(Installed(p, t)).cflag) == 0x100F && BaudToRate(0x100F) == 4000000
    ensures ReadBack(Installed(p, t)).ispeed == 0xFFFF_FFFF
  {
    var d := Installed(p, t).dcb;
    assert SpeedOf(d.baudRate) == 0xFFFF_FFFF;
    ControlSpeed(t.cflag, d);
    AllOnes(ControlFlags(t.cflag, d), t.cflag);
  }

  lemma CodeOf2400(c: Word)
    requires SpeedField(c) == 0xB
    ensures 0 in c && 1 in c && 2 !in c && 3 in c && 12 !in c
  {
  }

  lemma MixedSpeed(w: Word, c: Word)
    requires SpeedField(c) == 0xB && w * CBAUD == c * CBAUD + SpeedBits(0xD)
    ensures SpeedField(w) == 0xF
  {
    CodeOf2400(c);
    assert SpeedBits(0xD) == {0, 2, 3};
    assert forall b :: b in CBAUD ==> (b in w <==> b in w * CBAUD);
  }

  /** CIGNORE keeps the line as it is, but the flags read back mix the speed asked for into the speed in force: 2400 asked for
    * over 9600 reads as 38400 in the flags. */
  lemma IgnoredSpeedsMix(p: PortState, t: Termios)
    requires CIGNORE in t.cflag
    ensures var r := ReadBack(Installed(p, t));
      && r.cflag * CBAUD == t.cflag * CBAUD + SpeedBits(SpeedOf(p.dcb.baudRate))
      && r.ispeed == r.ospeed == SpeedOf(p.dcb.baudRate)
      && (SpeedField(t.cflag) == 0xB && p.dcb.baudRate == 9600 ==> SpeedField(r.cflag) == 0xF && BaudToRate(0xF) == 38400)
  {
    var d := Installed(p, t).dcb;
    ControlSpeed(t.cflag, d);
    if SpeedField(t.cflag) == 0xB && d.baudRate == 9600 {
      MixedSpeed(ControlFlags(t.cflag, d), t.cflag);
    }
  }

  /** The timeouts for VMIN and VTIME: a read returns at once when both are 0; otherwise VTIME, in tenths of a second, bounds reads
    * and writes as a whole. */
  predicate TimeoutsSet(after: Timeouts, t: Termios) {
    && after.readInterval == (if t.cc[VMIN] == 0 && t.cc[VTIME] == 0 then MAXDWORD else 0)
    && after.readTotalConstant == after.writeTotalConstant == t.cc[VTIME] as int * 100
    && after.readTotalMultiplier == 0 && after.writeTotalMultiplier == 0
  }

  predicate ParitySet(parity: Parity, cflag: Word) {
    && (parity == NoParity <==> PARENB !in cflag)
    && (parity in {OddParity, MarkParity} <==> PARENB in cflag && PARODD in cflag)
    && (parity in {MarkParity, SpaceParity} <==> PARENB in cflag && CMSPAR in cflag)
  }

  /** The registers of the line: handshake lines, limits, binary mode, flow control by characters, and the control modes that CIGNORE
    * leaves alone. */
  predicate RegistersSet(before: DCB, after: DCB, t: Termios) {
    && after.dtr == DtrEnable && !after.outxDsrFlow && !after.dsrSensitivity && after.xonLim == 0 && after.xoffLim == 0
    && (after.binary <==> t.cc[VEOF] == 0) && after.eofChar == t.cc[VEOF]
    && (after.outX <==> IXON in t.iflag) && (after.inX <==> IXOFF in t.iflag) && (after.txContinueOnXoff <==> IXANY in t.iflag)
    && after.xonChar == t.cc[VSTART] && after.xoffChar == t.cc[VSTOP]
    && (if CIGNORE in t.cflag then
          && after.rts == before.rts && after.outxCtsFlow == before.outxCtsFlow && after.stopBits == before.stopBits
          && after.byteSize == before.byteSize && after.parity == before.parity && after.baudRate == before.baudRate
          && after.checkParity == before.checkParity
        else
          && after.rts == (if CRTSCTS in t.cflag then RtsHandshake else RtsDisable) && (after.outxCtsFlow <==> CRTSCTS in t.cflag)
          && after.stopBits == (if CSTOPB in t.cflag then TwoStopBits else OneStopBit)
          && after.byteSize == 5 + (if 4 in t.cflag then 1 else 0) + (if 5 in t.cflag then 2 else 0)
          && after.baudRate == BaudToRate(SpeedField(t.cflag))
          && after.checkParity && ParitySet(after.parity, t.cflag))
  }

  /** What a tcsetattr that went through leaves in the driver. */
  lemma InstalledRegisters(p: PortState, t: Termios)
    ensures var q := Installed(p, t); TimeoutsSet(q.timeouts, t) && RegistersSet(p.dcb, q.dcb, t)
  {
    SizesInvert(t.cflag);
    assert 4 in t.cflag <==> 4 in t.cflag * CSIZE;
    assert 5 in t.cflag <==> 5 in t.cflag * CSIZE;
  }

  /** A termios that tcsetattr takes and that reads back. */
  predicate Plain(t: Termios) {
    ICANON !in t.lflag && CIGNORE !in t.cflag && SpeedField(t.cflag) != CBAUDEX
  }

  lemma NormalisePlain(t: Termios)
    requires Plain(t)
    ensures Plain(Normalise(t))
  {
  }

  /** Normalising changes nothing that reaches the line. */
  lemma SameRegisters(t: Termios, dcb: DCB)
    ensures ControlModes(Normalise(t), dcb) == ControlModes(t, dcb)
    ensures InputModes(Normalise(t), dcb) == InputModes(t, dcb) && TimeoutsFor(Normalise(t)) == TimeoutsFor(t)
  {
    NormaliseMeans(t);
  }

  /** Installing the same modes again is the same as once. */
  lemma InstalledTwice(t: Termios, dcb: DCB)
    ensures var d := InputModes(t, ControlModes(t, dcb)); InputModes(t, ControlModes(t, d)) == d
  {
    var d := InputModes(t, ControlModes(t, dcb));
    assert ControlModes(t, d) == d;
  }

  /** Writing back what was read changes no register of the line and nothing that can be read. */
  lemma WriteBackIsIdentity(p: PortState, t: Termios)
    requires Plain(t)
    ensures var q := Installed(p, t);
      var w := Installed(q, ReadBack(q)); ReadBack(w) == ReadBack(q) && w.dcb == q.dcb && w.timeouts == q.timeouts
  {
    var q := Installed(p, t);
    SettingsRoundTrip(p, t);
    NormalisePlain(t);
    SettingsRoundTrip(q, Normalise(t));
    NormaliseIsIdempotent(t);
    SameRegisters(t, q.dcb);
    SameRegisters(t, ControlModes(t, q.dcb));
    InstalledTwice(t, p.dcb);
  }

  function WithThreshold(t: Termios, vmin: Byte, vtime: Byte): Termios {
    t.(cc := t.cc[VMIN := vmin][VTIME := vtime])
  }

  /** A read, a change of control characters and a write back: the next read shows exactly that change. */
  lemma ReadModifyWrite(p: PortState, t: Termios, vmin: Byte, vtime: Byte)
    requires Plain(t)
    ensures var q := Installed(p, t);
      var asked := WithThreshold(ReadBack(q), vmin, vtime);
      Plain(asked) && ReadBack(Installed(q, asked)) == asked
  {
    var q := Installed(p, t);
    SettingsRoundTrip(p, t);
    NormalisePlain(t);
    NormaliseIsIdempotent(t);
    var asked := WithThreshold(ReadBack(q), vmin, vtime);
    assert Normalise(asked) == asked;
    SettingsRoundTrip(q, asked);
  }

  // ---------------------------------------------------------------- speeds

  /** cfsetospeed: whether the speed was taken, and the termios it leaves. */
  function WithSpeed(t: Termios, speed: nat): (bool, Termios) {
    if SpeedField(SpeedBits(speed)) != speed then (false, t)  // bits outside CBAUD
    else
      var code := if speed != 0 then speed else B9600;
      (true, t.(ispeed := speed, ospeed := speed, cflag := t.cflag - CBAUD + SpeedBits(code)))
  }

  /** cfsetospeed takes exactly the codes a CBAUD field can hold; 0 puts 9600 baud into the flags; no other flag changes. */
  lemma SpeedTaken(t: Termios, speed: nat)
    ensures var (taken, u) := WithSpeed(t, speed);
      && (taken <==> speed < 0x10 || 0x1000 <= speed < 0x1010)
      && (!taken ==> u == t)
      && (taken ==> u.ispeed == u.ospeed == speed && SpeedField(u.cflag) == (if speed == 0 then 13 else speed))
      && u.cflag - CBAUD == t.cflag - CBAUD
  {
    CodeFits(speed);
    var code := if speed != 0 then speed else B9600;
    CodeFits(code);
    SpeedIntoFlags(t.cflag, code);
    SpeedBitsStayInField(code);
  }

  lemma CodeFits(n: nat)
    ensures SpeedField(SpeedBits(n)) == n <==> n < 0x10 || 0x1000 <= n < 0x1010
  {
    FieldOfBits(n);
    if n < 0x10 {
      SmallCode(n);
    } else if 0x1000 <= n < 0x1010 {
      SmallCode(n - 0x1000);
      HighCode(n - 0x1000);
    }
  }

  lemma FieldOfBits(n: nat)
    ensures SpeedField(SpeedBits(n)) == n % 2 + 2 * (n / 2 % 2) + 4 * (n / 4 % 2) + 8 * (n / 8 % 2) + 0x1000 * (n / 0x1000 % 2)
  {
  }

  lemma HighCode(m: nat)
    requires m < 0x10
    ensures var n := m + 0x1000;
      n % 2 == m % 2 && n / 2 % 2 == m / 2 % 2 && n / 4 % 2 == m / 4 % 2 && n / 8 % 2 == m / 8 % 2 && n / 0x1000 == 1
  {
    assert (m + 0x1000) / 2 == m / 2 + 0x800 && (m + 0x1000) / 4 == m / 4 + 0x400 && (m + 0x1000) / 8 == m / 8 + 0x200;
  }

  lemma SmallCode(n: nat)
    requires n < 0x10
    ensures n == n % 2 + 2 * (n / 2 % 2) + 4 * (n / 4 % 2) + 8 * (n / 8 % 2)
  {
  }

  lemma SpeedIntoFlags(c: Word, code: nat)
    ensures SpeedField(c - CBAUD + SpeedBits(code)) == SpeedField(SpeedBits(code))
    ensures CIGNORE in c - CBAUD + SpeedBits(code) <==> CIGNORE in c
  {
    SpeedBitsStayInField(code);
  }

  /** A speed asked for through cfsetospeed is the speed read back later exactly when it is
    * neither the hang-up code nor the extension bit alone. */
  lemma SpeedRoundTrip(p: PortState, t: Termios, speed: nat)
    requires CIGNORE !in t.cflag && WithSpeed(t, speed).0
    ensures ReadBack(Installed(p, WithSpeed(t, speed).1)).ospeed == speed <==> speed != 0 && speed != CBAUDEX
  {
    var code := if speed != 0 then speed else B9600;
    assert SpeedBits(B9600) == {0, 2, 3};
    SpeedIntoFlags(t.cflag, code);
    SpeedsReadBack(p, WithSpeed(t, speed).1);
  }

  /** init_termios: the settings a port starts with. */
  const INIT_TERMIOS: Termios :=
    var cc: ControlChars :=
      [0x03, 0x1C, 0x7F, 0x15, 0x04, 0, 1, 0, 0, 0, 0x1A, 0x0D, 0x12, 0, 0x17, 0x16, 0x0A] + seq(15, _ => 0);
    Termios({}, {}, {0, 2, 3} + CS8, {}, cc, 0, B9600, B9600)

  lemma OpenedPortReads(p: PortState)
    ensures Plain(INIT_TERMIOS)
    ensures ReadBack(Installed(p, INIT_TERMIOS)) == INIT_TERMIOS.(iflag := {INPCK})
  {
    SettingsRoundTrip(p, INIT_TERMIOS);
    InitIsNormal();
  }

  lemma InitIsNormal()
    ensures Plain(INIT_TERMIOS) && Normalise(INIT_TERMIOS) == INIT_TERMIOS.(iflag := {INPCK})
  {
    var t := INIT_TERMIOS;
    assert SpeedField(t.cflag) == 0xD;
    assert Normalise(t).iflag == {INPCK} && Normalised(t.cflag) == t.cflag;
  }

  // ---------------------------------------------------------------- the operations on a port

  /** What the driver answers to the four calls tcsetattr and tcgetattr make. */
  datatype Driver = Driver(getState: bool, getTimeouts: bool, setState: bool, setTimeouts: bool)

  /** The parity branches of termios_to_DCB. */
  method ParityFor(cflag: Word) returns (parity: Parity)
    ensures parity == ParityOf(cflag)
  {
    if PARENB in cflag {
      if PARODD in cflag && CMSPAR in cflag {
        parity := MarkParity;
      } else if PARODD in cflag {
        parity := OddParity;
      } else if CMSPAR in cflag {
        parity := SpaceParity;
      } else {
        parity := EvenParity;
      }
    } else {
      parity := NoParity;
    }
  }

  /** termios_to_DCB: fixes the two speeds of the termios and fills the control modes of the DCB. */
  method TermiosToDCB(t: Termios, dcb: DCB) returns (asked: Termios, d: DCB)
    requires dcb.checkParity && CIGNORE !in t.cflag
    ensures asked == WithLineSpeed(t) && d == ControlModes(t, dcb)
  {
    asked := t.(ispeed := SpeedField(t.cflag), ospeed := SpeedField(t.cflag));
    var parity := ParityFor(t.cflag);
    d := dcb.(baudRate := BaudToRate(asked.ispeed), byteSize := ByteSize(t.cflag), parity := parity,
              stopBits := if CSTOPB in t.cflag then TwoStopBits else OneStopBit,
              rts := if CRTSCTS in t.cflag then RtsHandshake else RtsDisable,
              outxCtsFlow := CRTSCTS in t.cflag);
  }

  /** The input modes and control characters tcsetattr puts in the DCB itself; the last of them overrides the first. */
  method SetInputModes(t: Termios, dcb: DCB) returns (d: DCB)
    ensures d == InputModes(t, dcb)
  {
    d := dcb.(binary := ISTRIP !in t.iflag);
    d := d.(outX := IXON in t.iflag, inX := IXOFF in t.iflag, txContinueOnXoff := IXANY in t.iflag);
    d := d.(dtr := DtrEnable, outxDsrFlow := false, dsrSensitivity := false);
    d := d.(xonChar := t.cc[VSTART], xoffChar := t.cc[VSTOP], xonLim := 0, xoffLim := 0, eofChar := t.cc[VEOF]);
    d := d.(binary := d.eofChar == 0);
  }

  class CommPort {
    var dcb: DCB
    var timeouts: Timeouts
    var ttyset: Termios

    function State(): PortState
      reads this
    {
      PortState(dcb, timeouts, ttyset)
    }

    constructor (dcb: DCB, timeouts: Timeouts, ttyset: Termios)
      ensures State() == PortState(dcb, timeouts, ttyset)
    {
      this.dcb, this.timeouts, this.ttyset := dcb, timeouts, ttyset;
    }

    /** tcsetattr on a port that was found, with the settings as they are left to the caller. A refusal leaves the cached
      * termios alone; only a refusal of the timeouts comes after the line has already been changed. */
    method TcSetAttr(t: Termios, drv: Driver) returns (status: int, asked: Termios)
      modifies this
      ensures status == 0 || status == -1
      ensures status == 0 <==> ICANON !in t.lflag && drv.getState && drv.getTimeouts && drv.setState && drv.setTimeouts
      ensures status == 0 ==> State() == Installed(old(State()), t) && ttyset == asked
      ensures status == 0 ==> TimeoutsSet(timeouts, t) && RegistersSet(old(dcb), dcb, t)
      ensures status == -1 ==> ttyset == old(ttyset) && timeouts == old(timeouts)
      ensures status == -1 ==> dcb == if ICANON !in t.lflag && drv.getState && drv.getTimeouts && drv.setState
                                      then Installed(old(State()), t).dcb else old(dcb)
      ensures asked == if ICANON in t.lflag || !drv.getState || !drv.getTimeouts || CIGNORE in t.cflag then t else WithLineSpeed(t)
    {
      asked := t;
      if ICANON in t.lflag || !drv.getState || !drv.getTimeouts {
        return -1, asked;
      }
      var d := dcb;
      if CIGNORE !in t.cflag {
        d := d.(checkParity := true);
        asked, d := TermiosToDCB(t, d);
      }
      d := SetInputModes(t, d);
      if !drv.setState {
        return -1, asked;
      }
      dcb := d;
      if !drv.setTimeouts {
        return -1, asked;
      }
      timeouts := TimeoutsFor(t);
      ttyset := asked;
      InstalledRegisters(old(State()), t);
      return 0, asked;
    }

    /** tcgetattr on a port that was found. */
    method TcGetAttr(drv: Driver) returns (status: int, t: Termios)
      ensures status == if drv.getState && drv.getTimeouts then 0 else -1
      ensures status == 0 ==> t == ReadBack(State())
    {
      t := ttyset;
      if !drv.getState {
        return -1, t;
      }
      var i := SetTo(SetTo(t.iflag, INPCK, dcb.checkParity), IGNPAR, !dcb.checkParity);
      i := SetTo(i, IXON, dcb.outX);
      i := SetTo(i, IXOFF, dcb.inX);
      i := SetTo(i, IXANY, dcb.txContinueOnXoff);
      var c := t.cflag;
      if dcb.stopBits == TwoStopBits {
        c := c + {CSTOPB};
      }
      if dcb.stopBits == OneStopBit {
        c := c - {CSTOPB};
      }
      c := c - {PARENB, PARODD, CMSPAR} + ParityFlags(dcb.parity);
      c := c + SizeFlag(dcb.byteSize);
      c := SetTo(c, CRTSCTS, Flows(dcb));
      var speed := SpeedOf(dcb.baudRate);
      t := t.(iflag := i, cflag := c);
      if !drv.getTimeouts {
        return -1, t;
      }
      t := t.(cc := t.cc[VTIME := ToByte(timeouts.readTotalConstant / 100)]);
      t := t.(cc := t.cc[VSTART := dcb.xonChar]);
      t := t.(cc := t.cc[VSTOP := dcb.xoffChar]);
      t := t.(cc := t.cc[VEOF := dcb.eofChar]);
      return 0, t.(ispeed := speed, ospeed := speed, cflag := t.cflag + SpeedBits(speed));
    }

    /** NativeEnableReceiveTimeoutThreshold: on a port whose settings came from an earlier
      * tcsetattr of a plain termios, the two control characters it asks for are all that changes. */
    method EnableReceiveTimeoutThreshold(vtime: int, threshold: int, drv: Driver, ghost p: PortState, ghost t: Termios)
      returns (ok: bool)
      modifies this
      ensures ok && Plain(t) && old(State()) == Installed(p, t) ==>
        ReadBack(State()) == WithThreshold(old(ReadBack(State())), ToByte(threshold), ToByte(Truncated(vtime, 100)))
      ensures Plain(t) && old(State()) == Installed(p, t) ==>
        (ok <==> drv == Driver(true, true, true, true))
      ensures !drv.getState || !drv.getTimeouts ==> !ok && State() == old(State())
      ensures ok ==> (timeouts.readInterval == MAXDWORD <==> ToByte(threshold) == 0 && ToByte(Truncated(vtime, 100)) == 0)
      ensures ok ==> timeouts.readTotalConstant == ToByte(Truncated(vtime, 100)) as int * 100
    {
      var status, asked := TcGetAttr(drv);
      if status < 0 {
        return false;
      }
      if Plain(t) && State() == Installed(p, t) {
        ReadModifyWrite(p, t, ToByte(threshold), ToByte(Truncated(vtime, 100)));
      }
      asked := asked.(cc := asked.cc[VMIN := ToByte(threshold)]);
      asked := asked.(cc := asked.cc[VTIME := ToByte(Truncated(vtime, 100))]);
      status, asked := TcSetAttr(asked, drv);
      return status >= 0;
    }
  }

  /** tcsetattr from its descriptor and what find_port made of it: nothing is done, and no error reported, for a descriptor that
    * is not positive. */
  method TcSetAttrOf(fd: int, index: CommPort?, t: Termios, drv: Driver) returns (status: int, asked: Termios)
    modifies index
    ensures fd <= 0 ==> status == 0 && asked == t
    ensures fd > 0 && index == null ==> status == -1 && asked == t
    ensures fd <= 0 && index != null ==> index.State() == old(index.State())
    ensures fd > 0 && index != null && status == 0 ==> index.State() == Installed(old(index.State()), t) && index.ttyset == asked
    ensures fd > 0 && index != null ==>
      (status == 0 <==> ICANON !in t.lflag && drv == Driver(true, true, true, true)) && status in {0, -1}
  {
    if fd <= 0 {
      return 0, t;
    }
    if index == null {
      return -1, t;
    }
    status, asked := index.TcSetAttr(t, drv);
  }

  /** Division as C does it. */
  function Truncated(a: int, b: int): (q: int)
    requires b > 0
    ensures if a >= 0 then q * b <= a < q * b + b else q * b - b < a <= q * b
  {
    if a >= 0 then a / b else -(-a / b)
  }
}
