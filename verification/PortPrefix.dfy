/** Which device files are registered as ports: those whose name is a known prefix followed by
  * characters without case, and that can be read. */
module PortPrefix {
  predicate IsLetter(c: char) {
    'a' <= c <= 'z' || 'A' <= c <= 'Z'
  }

  function Upper(c: char): char {
    if 'a' <= c <= 'z' then c - 'a' + 'A' else c
  }

  function Lower(c: char): char {
    if 'A' <= c <= 'Z' then c - 'A' + 'a' else c
  }

  function ToUpperCase(s: string): string {
    seq(|s|, i requires 0 <= i < |s| => Upper(s[i]))
  }

  function ToLowerCase(s: string): string {
    seq(|s|, i requires 0 <= i < |s| => Lower(s[i]))
  }

  predicate LetterFree(s: string) {
    forall i :: 0 <= i < |s| ==> !IsLetter(s[i])
  }

  /** The comparison of the two cases tells whether a letter is left. */
  lemma SameInBothCases(s: string)
    ensures ToUpperCase(s) == ToLowerCase(s) <==> LetterFree(s)
  {
    forall i | 0 <= i < |s| ensures ToUpperCase(s)[i] == ToLowerCase(s)[i] <==> !IsLetter(s[i]) {
    }
  }

  /** A name made of the prefix and a letter-free rest. */
  predicate Accepts(name: string, prefix: string) {
    prefix <= name && LetterFree(name[|prefix|..])
  }

  /** One is the other followed by a letter-free rest, possibly nothing. */
  predicate Ambiguous(v: string, w: string) {
    Accepts(v, w) || Accepts(w, v)
  }

  /** Two prefixes share a device name exactly when one is the other plus a letter-free suffix. */
  lemma SharedNames(v: string, w: string)
    ensures Ambiguous(v, w) <==> exists name :: Accepts(name, v) && Accepts(name, w)
  {
  }

  predicate Unambiguous(prefixes: seq<string>) {
    forall i, j :: 0 <= i < j < |prefixes| ==> !Ambiguous(prefixes[i], prefixes[j])
  }

  predicate Distinct(names: seq<string>) {
    forall i, j :: 0 <= i < j < |names| ==> names[i] != names[j]
  }

  // ----- the prefix tables -----

  datatype Os = Linux | LinuxAllPorts | Qnx | Irix | FreeBSD | NetBSD | Solaris | HpUx | UnixWare | OpenServer | DigitalUnix | BeOS
    | MacOsX | Windows | OtherOs

  function LinuxTable(): seq<string> {
    ["ttyS", "ttySA", "ttyUSB"]
  }

  function HpUxTable(): seq<string> {
    ["tty0p", "tty1p"]
  }

  function LinuxNames(): seq<string> {
    ["comx", "holter", "modem", "rfcomm", "ttyircomm", "ttycosa0c", "ttycosa1c"]
  }

  function LinuxTtys(): seq<string> {
    ["ttyC", "ttyCH", "ttyD", "ttyE", "ttyF", "ttyH", "ttyI", "ttyL", "ttyM", "ttyMX", "ttyP", "ttyR", "ttyS", "ttySI", "ttySR",
     "ttyT", "ttyUSB", "ttyV", "ttyW", "ttyX"]
  }

  function IrixTable(): seq<string> {
    ["ttyc", "ttyd", "ttyf", "ttym", "ttyq", "tty4d", "tty4f", "midi", "us"]
  }

  function FreeBSDTable(): seq<string> {
    ["ttyd", "cuaa", "ttyA", "cuaA", "ttyD", "cuaD", "ttyE", "cuaE", "ttyF", "cuaF", "ttyR", "cuaR", "stl"]
  }

  function UnixWareTable(): seq<string> {
    ["tty00s", "tty01s", "tty02s", "tty03s"]
  }

  function OpenServerTty(): seq<string> {
    ["tty1A", "tty2A", "tty3A", "tty4A", "tty5A", "tty6A", "tty7A", "tty8A", "tty9A", "tty10A", "tty11A", "tty12A", "tty13A",
     "tty14A", "tty15A", "tty16A"]
  }

  function OpenServerUsb(): seq<string> {
    ["ttyu1A", "ttyu2A", "ttyu3A", "ttyu4A", "ttyu5A", "ttyu6A", "ttyu7A", "ttyu8A", "ttyu9A", "ttyu10A", "ttyu11A", "ttyu12A",
     "ttyu13A", "ttyu14A", "ttyu15A", "ttyu16A"]
  }

  function MacTable(): seq<string> {
    ["cu.KeyUSA28X191.", "tty.KeyUSA28X191.", "cu.KeyUSA28X181.", "tty.KeyUSA28X181.", "cu.KeyUSA19181.", "tty.KeyUSA19181."]
  }

  function SerialPrefixes(os: Os): seq<string> {
    match os
    case Linux => LinuxTable()
    case LinuxAllPorts => LinuxNames() + LinuxTtys()
    case Qnx => ["ser"]
    case Irix => IrixTable()
    case FreeBSD => FreeBSDTable()
    case NetBSD => ["tty0"]
    case Solaris => ["term/", "cua/"]
    case HpUx => HpUxTable()
    case UnixWare => UnixWareTable()
    case OpenServer => OpenServerTty() + OpenServerUsb()
    case DigitalUnix => ["tty0"]
    case BeOS => ["serial"]
    case MacOsX => MacTable()
    case Windows => ["COM"]
    case OtherOs => []
  }

  function ParallelPrefixes(os: Os): seq<string> {
    match os
    case Linux => ["lp"]
    case FreeBSD => ["lpt"]
    case Windows => ["LPT"]
    case _ => []
  }

  predicate EndsInLetter(s: string) {
    s != "" && IsLetter(s[|s| - 1])
  }

  predicate AllEndInLetters(prefixes: seq<string>) {
    forall i :: 0 <= i < |prefixes| ==> EndsInLetter(prefixes[i])
  }

  /** Prefixes that all end in a letter are unambiguous exactly when they are distinct. */
  lemma LettersSeparate(prefixes: seq<string>)
    requires AllEndInLetters(prefixes)
    ensures Unambiguous(prefixes) <==> Distinct(prefixes)
  {
  }

  predicate CapitalFourth(s: string) {
    |s| > 3 && 'A' <= s[3] <= 'Z'
  }

  lemma LinuxNamesDistinct()
    ensures Distinct(LinuxNames()) && AllEndInLetters(LinuxNames())
    ensures forall i :: 0 <= i < |LinuxNames()| ==> !CapitalFourth(LinuxNames()[i])
  {
  }

  lemma LinuxTtysDistinct()
    ensures Distinct(LinuxTtys())
  {
  }

  lemma LinuxTtysLetters()
    ensures AllEndInLetters(LinuxTtys())
    ensures forall i :: 0 <= i < |LinuxTtys()| ==> CapitalFourth(LinuxTtys()[i])
  {
  }

  lemma LinuxDistinct()
    ensures Distinct(LinuxTable()) && AllEndInLetters(LinuxTable())
  {
  }

  lemma LinuxUnambiguous()
    ensures Unambiguous(LinuxTable())
  {
    LinuxDistinct();
    LettersSeparate(LinuxTable());
  }

  lemma IrixDistinct()
    ensures Distinct(IrixTable()) && AllEndInLetters(IrixTable())
  {
  }

  lemma IrixUnambiguous()
    ensures Unambiguous(IrixTable())
  {
    IrixDistinct();
    LettersSeparate(IrixTable());
  }

  lemma FreeBSDDistinct()
    ensures Distinct(FreeBSDTable()) && AllEndInLetters(FreeBSDTable())
  {
  }

  lemma FreeBSDUnambiguous()
    ensures Unambiguous(FreeBSDTable())
  {
    FreeBSDDistinct();
    LettersSeparate(FreeBSDTable());
  }

  lemma HpUxDistinct()
    ensures Distinct(HpUxTable()) && AllEndInLetters(HpUxTable())
  {
  }

  lemma HpUxUnambiguous()
    ensures Unambiguous(HpUxTable())
  {
    HpUxDistinct();
    LettersSeparate(HpUxTable());
  }

  lemma UnixWareDistinct()
    ensures Distinct(UnixWareTable()) && AllEndInLetters(UnixWareTable())
  {
  }

  lemma UnixWareUnambiguous()
    ensures Unambiguous(UnixWareTable())
  {
    UnixWareDistinct();
    LettersSeparate(UnixWareTable());
  }

  lemma OpenServerTtyDistinct()
    ensures Distinct(OpenServerTty()) && AllEndInLetters(OpenServerTty())
    ensures forall i :: 0 <= i < |OpenServerTty()| ==> |OpenServerTty()[i]| > 3 && OpenServerTty()[i][3] != 'u'
  {
  }

  lemma OpenServerUsbDistinct()
    ensures Distinct(OpenServerUsb()) && AllEndInLetters(OpenServerUsb())
    ensures forall i :: 0 <= i < |OpenServerUsb()| ==> |OpenServerUsb()[i]| > 3 && OpenServerUsb()[i][3] == 'u'
  {
  }

  lemma JoinDistinct(a: seq<string>, b: seq<string>)
    requires Distinct(a) && AllEndInLetters(a) && Distinct(b) && AllEndInLetters(b)
    requires forall i, j :: 0 <= i < |a| && 0 <= j < |b| ==> a[i] != b[j]
    ensures Distinct(a + b) && AllEndInLetters(a + b)
  {
  }

  lemma DifferAt(v: string, w: string, k: nat)
    requires k < |v| && k < |w| && v[k] != w[k]
    ensures !Ambiguous(v, w)
  {
  }

  lemma MacUnambiguous()
    ensures Unambiguous(MacTable())
  {
    var t := MacTable();
    DifferAt(t[0], t[1], 0);
    DifferAt(t[0], t[2], 13);
    DifferAt(t[0], t[3], 0);
    DifferAt(t[0], t[4], 9);
    DifferAt(t[0], t[5], 0);
    DifferAt(t[1], t[2], 0);
    DifferAt(t[1], t[3], 14);
    DifferAt(t[1], t[4], 0);
    DifferAt(t[1], t[5], 10);
    DifferAt(t[2], t[3], 0);
    DifferAt(t[2], t[4], 9);
    DifferAt(t[2], t[5], 0);
    DifferAt(t[3], t[4], 0);
    DifferAt(t[3], t[5], 10);
    DifferAt(t[4], t[5], 0);
  }

  lemma OpenServerUnambiguous()
    ensures Unambiguous(OpenServerTty() + OpenServerUsb())
  {
    OpenServerTtyDistinct();
    OpenServerUsbDistinct();
    JoinDistinct(OpenServerTty(), OpenServerUsb());
    LettersSeparate(OpenServerTty() + OpenServerUsb());
  }

  lemma LinuxAllUnambiguous()
    ensures Unambiguous(LinuxNames() + LinuxTtys())
  {
    LinuxNamesDistinct();
    LinuxTtysDistinct();
    LinuxTtysLetters();
    JoinDistinct(LinuxNames(), LinuxTtys());
    LettersSeparate(LinuxNames() + LinuxTtys());
  }

  /** No table holds two prefixes that can accept the same device. */
  lemma TablesAreUnambiguous(os: Os)
    ensures Unambiguous(SerialPrefixes(os)) && Unambiguous(ParallelPrefixes(os))
  {
    match os
    case Linux => LinuxUnambiguous();
    case LinuxAllPorts => LinuxAllUnambiguous();
    case Irix => IrixUnambiguous();
    case FreeBSD => FreeBSDUnambiguous();
    case HpUx => HpUxUnambiguous();
    case UnixWare => UnixWareUnambiguous();
    case OpenServer => OpenServerUnambiguous();
    case MacOsX => MacUnambiguous();
    case Solaris => DifferAt("term/", "cua/", 0);
    case _ =>
  }

  // ----- the two loops -----

  function PortName(directory: string, windows: bool, device: string): string {
    if windows then device else directory + device
  }

  lemma PortNamesDiffer(directory: string, windows: bool, a: string, b: string)
    ensures PortName(directory, windows, a) == PortName(directory, windows, b) ==> a == b
  {
    assert (directory + a)[|directory|..] == a && (directory + b)[|directory|..] == b;
  }

  /** The names tried for a port: itself, or on Solaris itself with one of the letters a to z. */
  predicate Tried(name: string, portName: string, solaris: bool) {
    if solaris then |name| == |portName| + 1 && portName <= name && 'a' <= name[|portName|] <= 'z' else name == portName
  }

  lemma TriedOnce(name: string, directory: string, windows: bool, solaris: bool, a: string, b: string)
    requires Tried(name, PortName(directory, windows, a), solaris) && Tried(name, PortName(directory, windows, b), solaris)
    ensures a == b
  {
    assert PortName(directory, windows, a) == PortName(directory, windows, b) by {
      assert solaris ==> name[..|name| - 1] == PortName(directory, windows, a);
      assert solaris ==> name[..|name| - 1] == PortName(directory, windows, b);
    }
    PortNamesDiffer(directory, windows, a, b);
  }

  /** One of the first n prefixes accepts the device. */
  ghost predicate Accepted(device: string, prefixes: seq<string>, n: nat)
    requires n <= |prefixes|
  {
    exists p :: 0 <= p < n && Accepts(device, prefixes[p])
  }

  /** What the outer loop has registered after its first i turns: the names tried for an accepted device that can be read. */
  ghost predicate FromFirst(name: string, i: nat, devices: seq<string>, prefixes: seq<string>, directory: string,
      windows: bool, solaris: bool, testRead: string -> bool)
    requires i <= |devices|
  {
    && testRead(name)
    && (exists k :: 0 <= k < i && Tried(name, PortName(directory, windows, devices[k]), solaris) && Accepted(devices[k], prefixes, |prefixes|))
  }

  lemma NotYetRegistered(name: string, i: nat, p: nat, devices: seq<string>, prefixes: seq<string>, directory: string,
      windows: bool, solaris: bool, testRead: string -> bool)
    requires i < |devices| && p < |prefixes| && Tried(name, PortName(directory, windows, devices[i]), solaris)
    requires Unambiguous(prefixes) && Distinct(devices) && Accepts(devices[i], prefixes[p])
    ensures !FromFirst(name, i, devices, prefixes, directory, windows, solaris, testRead)
    ensures !Accepted(devices[i], prefixes, p)
  {
    forall k | 0 <= k < i ensures !Tried(name, PortName(directory, windows, devices[k]), solaris) {
      if Tried(name, PortName(directory, windows, devices[k]), solaris) {
        TriedOnce(name, directory, windows, solaris, devices[k], devices[i]);
      }
    }
    forall q | 0 <= q < p ensures !Accepts(devices[i], prefixes[q]) {
      SharedNames(prefixes[q], prefixes[p]);
    }
  }

  /** checkSolaris: the twenty-six names are tried in turn. */
  method CheckSolaris(portName: string, testRead: string -> bool, registered: seq<string>) returns (now: seq<string>)
    ensures forall n :: n in now <==> n in registered || (Tried(n, portName, true) && testRead(n))
    ensures Distinct(registered) && (forall n :: n in registered ==> !Tried(n, portName, true)) ==> Distinct(now)
  {
    now := registered;
    for p := 97 to 123
      invariant forall n :: n in now <==>
        n in registered || (Tried(n, portName, true) && testRead(n) && n[|portName|] as int < p)
      invariant Distinct(registered) && (forall n :: n in registered ==> !Tried(n, portName, true)) ==> Distinct(now)
    {
      var name := portName + [p as char];
      forall n: string ensures Tried(n, portName, true) && n[|portName|] as int == p <==> n == name {
        if Tried(n, portName, true) && n[|portName|] as int == p {
          assert n == n[..|portName|] + [n[|portName|]];
        }
      }
      if testRead(name) {
        now := now + [name];
      }
    }
  }

  /** Exactly the names tried for a device some prefix accepts that can be read are registered; with distinct devices and
    * unambiguous prefixes each is registered once. */
  method RegisterValidPorts(devices: seq<string>, prefixes: seq<string>, directory: string, windows: bool, solaris: bool,
      testRead: string -> bool)
    returns (registered: seq<string>)
    ensures forall n :: n in registered <==> FromFirst(n, |devices|, devices, prefixes, directory, windows, solaris, testRead)
    ensures Unambiguous(prefixes) && Distinct(devices) ==> Distinct(registered)
  {
    registered := [];
    for i := 0 to |devices|
      invariant forall n :: n in registered <==> FromFirst(n, i, devices, prefixes, directory, windows, solaris, testRead)
      invariant Unambiguous(prefixes) && Distinct(devices) ==> Distinct(registered)
    {
      ghost var name := PortName(directory, windows, devices[i]);
      for p := 0 to |prefixes|
        invariant forall n :: n in registered <==>
          || FromFirst(n, i, devices, prefixes, directory, windows, solaris, testRead)
          || (Tried(n, name, solaris) && testRead(n) && Accepted(devices[i], prefixes, p))
        invariant Unambiguous(prefixes) && Distinct(devices) ==> Distinct(registered)
      {
        var v, c := prefixes[p], devices[i];
        if |c| < |v| {
          continue;
        }
        var cu, cl := ToUpperCase(c[|v|..]), ToLowerCase(c[|v|..]);
        SameInBothCases(c[|v|..]);
        if !(c[..|v|] == v && cu == cl) {
          continue;
        }
        var portName := PortName(directory, windows, c);
        if Unambiguous(prefixes) && Distinct(devices) {
          forall n | n in registered ensures !Tried(n, portName, solaris) {
            if Tried(n, portName, solaris) {
              NotYetRegistered(n, i, p, devices, prefixes, directory, windows, solaris, testRead);
            }
          }
        }
        if solaris {
          registered := CheckSolaris(portName, testRead, registered);
        } else if testRead(portName) {
          registered := registered + [portName];
        }
      }
    }
  }

  /** A name is registered when it can be read and is a device, behind the directory unless on Windows and on Solaris before one
    * letter from a to z, that starts with one of the prefixes and goes on without letters. */
  lemma RegisteredNames(name: string, devices: seq<string>, prefixes: seq<string>, directory: string,
      windows: bool, solaris: bool, testRead: string -> bool)
    ensures FromFirst(name, |devices|, devices, prefixes, directory, windows, solaris, testRead) <==>
      testRead(name) &&
      (exists k, p ::
         0 <= k < |devices| && 0 <= p < |prefixes| && Accepts(devices[k], prefixes[p]) &&
         if solaris then name != "" && 'a' <= name[|name| - 1] <= 'z' && name[..|name| - 1] == (if windows then devices[k] else directory + devices[k])
         else name == if windows then devices[k] else directory + devices[k])
  {
    if FromFirst(name, |devices|, devices, prefixes, directory, windows, solaris, testRead) {
      var k :| 0 <= k < |devices| && Tried(name, PortName(directory, windows, devices[k]), solaris)
        && Accepted(devices[k], prefixes, |prefixes|);
      var p :| 0 <= p < |prefixes| && Accepts(devices[k], prefixes[p]);
    }
    forall k, p | 0 <= k < |devices| && 0 <= p < |prefixes| && Accepts(devices[k], prefixes[p])
      ensures Accepted(devices[k], prefixes, |prefixes|)
    {
    }
  }

  /** Scanning distinct names registers each readable device with a known prefix once. */
  method RegisterScannedPorts(os: Os, serial: bool, devices: seq<string>, directory: string, testRead: string -> bool)
    returns (registered: seq<string>)
    ensures var prefixes := if serial then SerialPrefixes(os) else ParallelPrefixes(os);
      forall n :: n in registered <==>
        testRead(n) &&
        (exists k, p ::
           0 <= k < |devices| && 0 <= p < |prefixes| && Accepts(devices[k], prefixes[p]) &&
           if os == Solaris then n != "" && 'a' <= n[|n| - 1] <= 'z' && n[..|n| - 1] == directory + devices[k]
           else n == if os == Windows then devices[k] else directory + devices[k])
    ensures Distinct(devices) ==> Distinct(registered)
  {
    TablesAreUnambiguous(os);
    var prefixes := if serial then SerialPrefixes(os) else ParallelPrefixes(os);
    registered := RegisterValidPorts(devices, prefixes, directory, os == Windows, os == Solaris, testRead);
    forall n {
      RegisteredNames(n, devices, prefixes, directory, os == Windows, os == Solaris, testRead);
    }
  }
}
