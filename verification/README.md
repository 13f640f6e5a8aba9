# RXTX, modelled and proved

RXTX drives serial and parallel ports from Java. On Windows it rests on an emulation of the POSIX terminal interface:
an in-memory table of open ports, a translation of termios settings to and from the Win32 device control block, error
counters, and a read loop over overlapped I/O. Events reach Java either through a polling loop or, on WinCE, through a
producer thread and a one-slot mailbox. The Java class `RXTXPort` coordinates listeners, streams and `close` with a
handful of shared flags. This project models those parts in the form the program gives them and proves what they keep,
step by step and over whole runs.

| file | what it models |
|---|---|
| `PortTable.dfy` | the doubly linked table of open ports and its descriptor allocator, in the heap (`Ports`) and as a sequence (`PortSpec`) |
| `Bytes.dfy` | the type of a byte |
| `Settings.dfy` | `tcsetattr`, `tcgetattr` and their translators, bit by bit (`TermiosFlags`, `Settings`) |
| `Mailbox.dfy` | the WinCE event thread and event loop as interleaved steps |
| `CloseSafety.dfy` | `RXTXPort.close` against any number of closers and stream operations |
| `Listener.dfy` | the life of the monitor thread: constructor, `addEventListener`, `removeEventListener`, `notifyOn…` |
| `PollLoop.dfy` | error counters and modem lines (`PollSpec`), the output-empty latch under interleaved writes, flushes and polls (`OutputLatch`), and the code that updates them (`PollLoop`) |
| `Transfers.dfy` | `serial_read` (`SerialRead`), the parallel `writeArray` (`ParallelWrite`), and the chain from `InputStream.read` down to `read_byte_array` (`ReadChain`) |
| `EventMask.dfy` | the two ways a mask of watched events is computed |
| `FuserIndex.dfy` | the pid-sorted item lists of the process lister, as sequences (`IndexSpec`) and as linked nodes (`FuserIndex`) |
| `NameEscape.dfy` | how names are printed, with a decoder |
| `PortPrefix.dfy` | which device files are registered as ports, and the per-system prefix tables |

Heap structures are classes refined to sequences; threads are step relations over an explicit state with program
counters and histories; a flag word, combined only with `|`, `& ~` and `&`, is the set of its bit numbers, and its
CBAUD field also a number; the device is an oracle passed as a parameter.

## Assumptions

- The driver is a faithful register: what `SetCommState` and `SetCommTimeouts` accept is what `GetCommState` and
  `GetCommTimeouts` return.
- A device call reports exactly the bytes it moved, never more than it was asked for, and hands out its stream in
  order. A `ReadFile` that fails moves bytes only with the errors for a broken pipe, more data and a pending read; a
  pending read reports its bytes when it completes. A failing `WriteFile` may have moved some.
- Threads are interleaved under sequential consistency; `IOLocked++`, `IOLocked--`, the increment of an error counter
  and the copy of the four counters in `TIOCGICOUNT` are single steps. One thread at a time polls a port.
- Memory is available and path names fit their buffers.
- The values of `EV_RXCHAR` and its companions are those of the Win32 API; they are defined outside the repository.

## Where the code differs from what is said of it

- `get_free_fd` relies on an ascending table, but `add_port` appends at the tail. `PortSpec.DistinctRunsExactly` says in
  exactly which runs no two ports share a descriptor, `PortSpec.OrderedRunsExactly` which runs keep the order,
  `PortSpec.TailAppendDuplicates` is a run with a shared descriptor, and `PortSpec.OrderedRunsStayOrdered` proves the
  version that inserts in descriptor order for every run.
- A failed `serial_open` cleans up with `serial_close(fd)`. When the descriptor is already taken that closes somebody
  else's port (`PortSpec.FailedOpenRestores`).
- `CBAUDEX` alone passes for a speed and reads back as the fastest one there is (`Settings.SettingsRoundTrip`,
  `Settings.ExtensionBitAloneReadsAsFastest`).
- The settings asked for with CIGNORE are cached although the line keeps its own: they read back only when the line
  already matches them (`Settings.SettingsRoundTrip`, `Settings.IgnoredSpeedsMix`).
- The one-slot mailbox can lose a mask exactly when the driver has yielded an empty one before it
  (`Mailbox.LossPossibleExactly`); each loss is one clearing of a slot filled again (`Mailbox.MasksConserved`).
- `tcflush` raises the output-empty latch twice, so one flush can be reported twice (`OutputLatch.BoundIsReached`);
  `OutputLatch.ExtraReportsExactly` says when.
- `close` waits for `IOLocked` to reach zero, but an operation may count itself in after that, and its test of the flag
  passes until the flag is raised (`CloseSafety.CloseOvertakesExactly`). `read()` makes no such test.
- A `close` that finds the port already closed returns with `closeLock` set, so every later one returns at once
  (`CloseSafety.CloseLockIsHeldOrAbandoned`).
- `notifyOn…` without a monitor thread throws and leaves `MonitorThreadLock` set
  (`Listener.NotifyReturnsOnlyWithAMonitor`, `Listener.ThrowingKeepsTheLock`). Until an `addEventListener` starts a monitor
  (`Listener.SecondListenerIsRefused`) the next `notifyOn…` or `removeEventListener` hangs
  (`Listener.CallsEndExactlyWhenTheLockIsFree`).
- The comments of the native `readArray` say 0 on a timeout; it returns -1. The parallel one takes its timeout from
  the field `threshold` (src/ParallelImp.c:606).
- The range check in `read(b, off, len)` adds two ints without a guard (`ReadChain.RangeCheckIsExact`).

## Model

| member | source | states |
|---|---|---|
| PortSpec.FreeFd | src/termios.c:986-1022 | the descriptor is one more than the length of the longest prefix of the table reading 1, 2, 3, … |
| PortSpec.LeastFree | src/termios.c:986-1022 | on a strictly ascending table the allocator returns the least positive descriptor not in use |
| PortSpec.TwoOpensDiffer | src/termios.c:1007-1021 | two opens in a row get different descriptors if and only if the table reads exactly 1..n |
| PortSpec.TailAppendKeepsOrder | src/termios.c:1084-1097 | appending the new port at the tail keeps an ascending table ascending if and only if it reads 1..n |
| PortSpec.FailedOpenRestores | src/termios.c:1181-1241 | a refused set-up leaves the table as it was if and only if the head has a handle and the descriptor was free |
| PortSpec.OpenedMeans | src/termios.c:1181-1241 | an open answers with a descriptor if and only if the name was unknown, the handle is valid and the set-up succeeds, else -1; the port stands last in an otherwise unchanged table under that descriptor, and a lookup of it finds the port if and only if no other has it |
| PortSpec.ClosedMeans | src/termios.c:626-695 | a close fails if and only if the descriptor is not in a table whose head has a handle; it takes out the first entry with the descriptor, or nothing |
| PortSpec.NamesStayDistinct | src/termios.c:1181-1241 | in every run of opens and closes, with any failures, the names are pairwise distinct and all descriptors positive |
| PortSpec.OrderedRunsExactly | src/termios.c:986-1097 | all tables of a run are ascending if and only if ports are added only to tables reading 1..n |
| PortSpec.StepKeepsDistinct | src/termios.c:986-1097 | from distinct descriptors, one step leaves them distinct if and only if it does not add a port while the descriptor the allocator picks is in the table |
| PortSpec.DistinctRunsExactly | src/termios.c:986-1097 | no two ports share a descriptor anywhere in a run if and only if every op that adds a port finds a table that reads 1..p and then something else, or ends, and has no p+1 behind that |
| PortSpec.TailAppendDuplicates | src/termios.c:1074-1099 | open three, close the second, open two: two ports share descriptor 2, and closing 2 removes the one opened first |
| PortSpec.OrderedRunsStayOrdered | src/termios.c:986-1022 | with insertion in descriptor order every run keeps the descriptors ascending and distinct |
| PortSpec.OrderedOpenThenClose | src/termios.c:626-695 | in order, after any run: a new port gets the least unused descriptor, is found under it with its handle, and closing it restores the table, as does a refused set-up |
| Ports.PortTable.PortOpened | src/termios.c:833-850 | positive if and only if the name is in the table, and then the descriptor of an entry with that name |
| Ports.PortTable.FindPort | src/termios.c:947-973 | the first node with the descriptor, or NULL when it is not positive or not in the table |
| Ports.PortTable.GetFreeFd | src/termios.c:986-1022 | the walk over the linked nodes computes the allocator's function of the table |
| Ports.PortTable.AddPort | src/termios.c:1035-1099 | the list stays well formed (next and prev inverse, NULL at both ends) and gains one node at the tail with the allocated descriptor |
| Ports.PortTable.SerialClose | src/termios.c:626-695 | unlinks the first node with the descriptor and nothing else, keeping the list well formed; its status in every case |
| Ports.PortTable.SerialOpen | src/termios.c:1181-1241 | the list stays well formed and refines the open transition, failures included; a positive answer is the descriptor of the new last node, and everything else is -1 |
| Settings.NormaliseMeans | src/termios.c:2039-2221 | normalising sets INPCK, clears IGNPAR, drops PARODD and CMSPAR without PARENB, sets both speeds to the CBAUD field, and nothing else; what reaches the line does not change |
| Settings.NormaliseIsIdempotent | src/termios.c:2039-2221 | normalising twice is normalising once |
| Settings.SpeedsInvert | src/termios.c:309-416 | on every value a CBAUD field can hold the two speed tables are inverse, if and only if it is not CBAUDEX alone |
| Settings.TablesInvert | src/termios.c:309-416 | on all numbers a code that has a rate is the code of that rate and the other way round; exactly 35 codes have one |
| Settings.CodesAscend | src/termios.c:309-367 | among the codes a CBAUD field can hold, greater codes stand for greater rates |
| Settings.SizesInvert | src/termios.c:429-465 | the byte-size translators give back the CSIZE field; a size the line can have lies between 5 and 8 |
| Settings.ParityInverts | src/termios.c:1823-1871 | the parity translators give back the parity bits when PARENB is set, and none otherwise |
| Settings.SettingsRoundTrip | src/termios.c:2257-2430 | for all settings, tcgetattr after a tcsetattr that went through gives them normalised if and only if, without CIGNORE, the CBAUD field is not CBAUDEX alone and, with it, the line already matches them |
| Settings.ControlBit | src/termios.c:2109-2221 | each bit of the control flags read back: stop bits, parity and flow control come from the line, size and speed are added to what was asked for |
| Settings.ExtensionBitAloneReadsAsFastest | src/termios.c:309-416 | CBAUDEX alone reads back as 4000000 baud in the flags and as -1 in the speeds |
| Settings.IgnoredSpeedsMix | src/termios.c:1897-1904 | with CIGNORE, whatever the rest of the line, the CBAUD field read back is the one asked for or-ed with the one in force; 2400 over 9600 reads as 38400 |
| Settings.WriteBackIsIdentity | src/termios.c:2257-2430 | writing back what was read changes no register of the line and nothing that can be read |
| Settings.ReadModifyWrite | src/SerialImp.cpp:1058-1061 | reading, changing VMIN and VTIME, and writing back shows exactly that change at the next read |
| Settings.SpeedRoundTrip | src/termios.c:1702-1726 | a speed set with cfsetospeed is read back as itself if and only if it is neither 0 nor CBAUDEX |
| Settings.SpeedTaken | src/termios.c:1702-1726 | cfsetospeed takes exactly the codes a CBAUD field can hold, sets both speeds and that field, 0 standing for 9600 baud there, and changes no other flag |
| Settings.OpenedPortReads | src/termios.c:792-820 | the initial settings read back as themselves with INPCK set |
| Settings.InstalledRegisters | src/termios.c:2319-2421 | what a tcsetattr that went through leaves in the driver: an interval of MAXDWORD if and only if VMIN and VTIME are both 0, both totals VTIME tenths of a second, and each register of the line from its own flag or character, or untouched under CIGNORE |
| Settings.TermiosToDCB | src/termios.c:1823-1871 | fixes both speeds of the termios and fills the control modes of the DCB from the flags |
| Settings.CommPort.TcSetAttr | src/termios.c:2267-2430 | on a port that was found: succeeds exactly without ICANON when all four driver calls succeed; which timeouts and registers are then in the driver, what a failure has already changed, and the speeds left in the caller's settings |
| Settings.TcSetAttrOf | src/termios.c:2257-2430 | a descriptor that is not positive succeeds without doing anything, an unknown one fails, a known one installs the settings |
| Settings.CommPort.TcGetAttr | src/termios.c:2039-2221 | fails exactly when a driver call fails; otherwise reports the settings read back from the port |
| Settings.CommPort.EnableReceiveTimeoutThreshold | src/SerialImp.cpp:1045-1068 | on a port set earlier, the two control characters it asks for are all that changes in what is read back; the driver returns at once from a read if and only if both are 0; a failed read changes nothing |
| Mailbox.InvHoldsAlways | WinCE/rxtxHelpers.cpp:320-414 | the slot, order, send, wake-up and readiness invariants hold after every interleaving |
| Mailbox.NothingInventedNothingTwice | WinCE/gnu_io_RXTXPort.cpp:1105-1170 | over every interleaving the nonzero masks taken are nonzero masks produced, in order, none twice; no wake-up is lost; the Java lock is released at most once, by a ready producer's doing |
| Mailbox.MasksConserved | WinCE/gnu_io_RXTXPort.cpp:1144-1148 | over every run the nonzero masks produced are those taken, at most one in the slot and those lost; nothing is lost if and only if no clearing of the slot follows a read of 0 while the slot is filled |
| Mailbox.LossPossibleExactly | WinCE/gnu_io_RXTXPort.cpp:1105-1170 | what the driver yields can lose a mask in some interleaving if and only if an empty mask in it is followed by a nonzero one and the monitor was not stopped before it began |
| Mailbox.NothingLost | WinCE/gnu_io_RXTXPort.cpp:1105-1170 | if no empty mask is yielded, what was produced is what was sent, then at most one mask being sent, then at most one in the slot |
| Mailbox.AnEmptyMaskCanLoseTheNext | WinCE/rxtxHelpers.cpp:409-411 | the shortest case: the masks 0 and 1 are yielded, and 1 is neither taken nor in the slot |
| Mailbox.InterruptedMonitorStops | WinCE/gnu_io_RXTXPort.cpp:1105-1170 | whatever the interleaving, a monitor that is interrupted takes at most seven more steps and one more mask, and stays interrupted |
| Mailbox.InterruptIsNoticed | WinCE/gnu_io_RXTXPort.cpp:1105-1118 | from the moment of an interrupt, in any state, that bound holds, and the monitor that has taken all the steps it had left has stopped |
| Mailbox.StopsAreFinal | WinCE/gnu_io_RXTXPort.cpp:1105-1170 | after a failed wait, a refusing listener or a flag found up the monitor never moves again and the event is closed; after a failed call the event thread never moves again |
| Mailbox.LockIsLetGo | WinCE/gnu_io_RXTXPort.cpp:1105-1170 | whenever the loop comes to where it can release the Java lock, it has released it afterwards, once, if and only if the event thread has become ready |
| CloseSafety.InvIsInductive | src/gnu/io/RXTXPort.java:1041-1090 | every step of any thread keeps the count, owner, flag and zero invariants |
| CloseSafety.CloseIsSafe | src/gnu/io/RXTXPort.java:1041-1090 | for any number of closers and operations, nativeClose runs at most once, and every operation but read() whose native call is then in flight passed its own test before the flag was last raised |
| CloseSafety.OnlyLatecomersAreInside | src/gnu/io/RXTXPort.java:1045-1065 | an operation still inside when nativeClose is about to run counted itself in after the closer saw IOLocked at zero |
| CloseSafety.CloseLockIsHeldOrAbandoned | src/gnu/io/RXTXPort.java:1063-1087 | the close lock is set if and only if a closer holds it or one has left it behind on finding the port closed |
| CloseSafety.NoDeadlock | src/gnu/io/RXTXPort.java:1041-1457 | in every reachable state with an unfinished thread some thread can move |
| CloseSafety.ClosedPortRefuses | src/gnu/io/RXTXPort.java:1114-1457 | once the descriptor is zero, in no continuation does an operation with its last test of it still ahead, such as one that begins then, get to its native call |
| CloseSafety.InterruptedPortRefuses | src/gnu/io/RXTXPort.java:1114-1457 | the same for the flag |
| CloseSafety.TransfersExactly | src/gnu/io/RXTXPort.java:1114-1457 | among any threads, an operation can get to its native call if and only if the port starts open or it is available(), and it is read() or the flag is down |
| CloseSafety.CloseOvertakesExactly | src/gnu/io/RXTXPort.java:1041-1457 | for any closer and any operation among any threads, the closer can be about to run nativeClose with the operation's native call in flight if and only if the port starts open and, unless the operation is read(), not interrupted |
| Listener.InvIsInductive | src/gnu/io/RXTXPort.java:786-868 | each step of the application thread or the monitor thread keeps what holds at each program point |
| Listener.FlagsAgreeAtEveryReturn | src/gnu/io/RXTXPort.java:786-905 | at every normal return the alive flag, monThread and the interrupted flag agree, the lock is free, and a registered listener implies that they are up |
| Listener.OneMonitorAtATime | src/gnu/io/RXTXPort.java:800-807 | a monitor thread is started only when there is none or the last has ended |
| Listener.SecondListenerIsRefused | src/gnu/io/RXTXPort.java:786-810 | after any run, an addEventListener begun now can end; it throws if and only if a listener is registered, and then changes nothing but what the monitor does; otherwise it leaves its listener, a monitor and a free lock |
| Listener.RemovalLeavesNothing | src/gnu/io/RXTXPort.java:812-868 | after any run, a removeEventListener begun now that ends has returned with no listener, no monitor thread and a free lock |
| Listener.ConstructorStartsAMonitor | src/gnu/io/RXTXPort.java:97-126 | a constructor that returns leaves a monitor, no listener and a free lock |
| Listener.NotifyReturnsOnlyWithAMonitor | src/gnu/io/RXTXPort.java:892-905 | after any run, a notifyOn begun now can return if and only if there is a monitor thread now, and then never throws; it can throw if and only if there is none and the lock is free |
| Listener.ThrowingKeepsTheLock | src/gnu/io/RXTXPort.java:900-904 | a notifyOn that finds no monitor thread throws with the lock still set |
| Listener.CallsEndExactlyWhenTheLockIsFree | src/gnu/io/RXTXPort.java:812-905 | after any run, a removeEventListener or notifyOn begun now can come to an end if and only if the lock is free now |
| Listener.WaitersBlockExactlyWhenTheLockWasKept | src/gnu/io/RXTXPort.java:878-886 | when a call waits for the lock, no thread at all can move if and only if the lock is set, and then there is no monitor thread |
| PollSpec.ErrorEventsConserved | src/SerialImp.cpp:1419-1438 | over every run, observations of an error equal events sent plus observations pending plus those swallowed by whole turns of the counter |
| PollSpec.NothingWraps | src/SerialImp.cpp:1419-1438 | nothing is swallowed if and only if no drain finds 2^32 observations waiting |
| PollSpec.OverrunsNeverSent | src/termios.c:499-556 | no run counts or sends an overrun |
| PollSpec.DrainedInOrder | src/SerialImp.cpp:1421-1436 | a drain sends framing errors, then overruns, then parity errors, then breaks |
| PollSpec.LinesReplay | src/SerialImp.cpp:1442-1456 | replaying the line events over the initial modem flags gives the flags sampled last |
| PollSpec.LinesAlternate | src/SerialImp.cpp:1442-1456 | the events of any one line strictly alternate and end at the level sampled last |
| PollSpec.SampledInOrder | src/SerialImp.cpp:1442-1452 | a sample sends at most one event for each line, in the order CTS, DSR, RI, CD |
| OutputLatch.ReportsBalance | src/termios.c:2903-2947 | over every run, reports made and owed are the first raises of the latch by a call and the second ones by a flush |
| OutputLatch.ReportsBounded | src/termios.c:2555-2617 | reports are at most the writes, twice the flushes and a latch already up; at most the calls and that latch when no flush raises the latch twice |
| OutputLatch.ExtraReportsExactly | src/termios.c:2580-2616 | a flush raises the latch twice in a run if and only if some flush found it down when it began, and between its two assignments the poll of an empty queue reported and lowered it, with no write or flush raising it after that |
| OutputLatch.BoundIsReached | src/termios.c:2555-2617 | for any numbers of writes and flushes there is a run with that many writes and two reports for each flush |
| OutputLatch.OutputEmptyIsOneShot | src/termios.c:2903-2947 | only a poll that has just seen an empty queue and finds the latch up reports; after a report the next one waits for a write to end or a flush to begin or end |
| OutputLatch.EveryReportIsSent | src/SerialImp.cpp:1400-1408 | over every run the output-empty events sent are exactly the reports lowered inside the loop; the other reports were lowered before it, or one still has to be |
| OutputLatch.UninterruptedPoll | src/termios.c:2903-2947 | a poll nobody comes between reports, and inside the loop sends an event, exactly under an empty queue and a raised latch, and lowers it |
| PollLoop.PortStatus.ClearErrors | src/termios.c:499-556 | counts frame, parity and break errors modulo 2^32, never overruns, and nothing when the driver call fails |
| PollLoop.PortStatus.GetLsr | src/termios.c:2903-2947 | with nobody else at the latch, reports empty exactly when the queue is empty and the latch set, and then clears the latch |
| PollLoop.EventLoop.DrainOne | src/SerialImp.cpp:1421-1424 | the draining loop ends after as many events as the two counters are apart modulo 2^32 |
| PollLoop.EventLoop.DrainErrors | src/SerialImp.cpp:1419-1438 | sends the events of all four counters in order and leaves the copy equal to the port's counters |
| PollLoop.EventLoop.SampleLines | src/SerialImp.cpp:1442-1456 | sends one event for each of the four lines that changed, with its new level, and remembers the sample |
| SerialRead.Read | src/termios.c:1419-1507 | the device's next bytes stand at the front and nothing else is touched; a result short of the request comes only at a turn that ends the call; -1 if and only if the last turn met any other error; the call goes on exactly after the other turns |
| ParallelWrite.WriteArray | src/ParallelImp.c:451-497 | if each success writes a byte, ends within 21 calls per byte; the device gets an in-order prefix once, as long as its answers add up to; an exception exactly when bytes are left, after exactly 21 calls in a row without progress |
| ParallelWrite.WrittenStep | src/ParallelImp.c:451-497 | each call adds what the device wrote, or what was left if that is less |
| ReadChain.ReadByteArray | src/SerialImp.cpp:988-1034 | the loop delivers the stream in order, stops below the request only after a timeout or the end of input, and fails exactly when its last call failed, within as many turns as bytes |
| ReadChain.MovedStep | src/SerialImp.cpp:988-1034 | a turn that brings bytes adds what it brought, or what was still wanted if that is less; the others add nothing |
| ReadChain.ReadArray | src/ParallelImp.c:598-638 | the next r stream bytes land in b[off..off+r), the rest is untouched; -1 when none came; a bad length or a failed read throws and leaves b alone; bytes that do not fit are reported as such |
| ReadChain.RangeCheckIsExact | src/gnu/io/RXTXPort.java:1381-1387 | the 32-bit range check lets through exactly the ranges inside the array and those whose end is no int |
| ReadChain.Minimum | src/gnu/io/RXTXPort.java:1401-1426 | the smaller of len and the threshold, or, when that is 0, of len and what is available, or 1 when nothing is; within 1..len if and only if the one that counts is not negative |
| ReadChain.StreamRead | src/gnu/io/RXTXPort.java:1356-1445 | the outcome of read(b, off, len) for all ints: which exception, 0 when len is 0 or the port is interrupted, and otherwise how many bytes are asked for and what is delivered; fewer than asked for only after a timeout or the end of input; bytes past the end only when off + len is no int |
| EventMask.TermiosSetFlags | src/termios.c:139-176 | a bit is set if and only if some enabled event maps to it; the ring's trailing edge also needs the driver to accept the whole mask |
| EventMask.TablesAgree | src/termios.c:139-160 | the table of the emulation and the switch of the WinCE code map each event to the same bit, but for the ring's trailing edge; only the three line errors share one |
| EventMask.EventInfo.NativeSetEventFlag | WinCE/gnu_io_RXTXPort.cpp:1209-1262 | each call keeps: every bit holds the flag of the latest call for an event mapped to it, and EV_POWER stays, so the mask is never empty |
| EventMask.AgreesWithRecomputed | WinCE/gnu_io_RXTXPort.cpp:1246-1262 | the incremental mask equals the recomputed one if and only if the latest call for any line error left the flag the three together ask for |
| EventMask.ErrorsShareABit | WinCE/gnu_io_RXTXPort.cpp:1246-1250 | enabling overruns and then disabling parity errors leaves overruns unwatched; enabling parity errors alone offers overruns |
| EventMask.SendEvents | WinCE/rxtxHelpers.cpp:512-643 | exactly the events that happened, are watched and, for line errors, reported by the driver are offered, once each in a fixed order, up to the first one taken, whose number is returned |
| IndexSpec.AddedShows | src/psmisc/fuser.c:217-253 | recording a reference keeps the processes strictly ascending by pid, one node per pid, each with the union of its references |
| IndexSpec.AddingAgain | src/psmisc/fuser.c:231-248 | recording the same reference again changes nothing |
| IndexSpec.BuiltShows | src/psmisc/fuser.c:217-284 | after every sequence of calls the list shows exactly the references recorded |
| IndexSpec.OrderDoesNotMatter | src/psmisc/fuser.c:217-284 | the list of pids and references depends neither on the order nor on the number of the calls |
| IndexSpec.BuiltOwners | src/psmisc/fuser.c:249-250 | each process is shown with the owner that FirstOwner finds |
| IndexSpec.EarliestOwner | src/psmisc/fuser.c:249-250 | that is the owner of the earliest use by the process for which one was found |
| FuserIndex.FileEntry.AddProc | src/psmisc/fuser.c:230-248 | the walk, merge or splice on linked nodes refines one recorded reference and keeps the list well formed |
| FuserIndex.FileEntry.AddOther | src/psmisc/fuser.c:268-282 | a mount, loop or swap item goes to the end of the linked list |
| FuserIndex.FileTable.ParseArgs | src/psmisc/fuser.c:780-794 | a new command line forgets the last named entry and keeps the table |
| FuserIndex.FileTable.EnterItem | src/psmisc/fuser.c:673-700 | an entry gets no name exactly when it repeats that of the last named entry, which it then reports to; everything else is left alone |
| FuserIndex.FileTable.AddFile | src/psmisc/fuser.c:217-253 | a reference is recorded, with its owner where one is asked for, in exactly the named entries that match or are repeated by one that matches, once however many do; the others keep their lists |
| FuserIndex.SameReferencesSameList | src/psmisc/fuser.c:217-253 | any two valid entries told about the same references hold the same ascending list of pids and references, with the first owner found for each |
| NameEscape.PrintName | src/psmisc/fuser.c:506-510 | the printing loop computes the escaped name and its width, in visible characters only |
| NameEscape.DecodeInverts | src/psmisc/fuser.c:631-635 | on every byte string, whatever follows it, a decoder inverts the printer |
| NameEscape.PrintsAreDistinct | src/psmisc/fuser.c:467-473 | distinct names print differently, for the unsigned bytes of command names and for the signed chars of file names |
| NameEscape.EscapeMeans | src/psmisc/fuser.c:473-510 | exactly the visible bytes but the backslash stand for themselves; the others take four characters, or twelve for a negative char, whose digits are the number printed |
| PortPrefix.SameInBothCases | src/gnu/io/RXTXCommDriver.java:246-254 | the upper-case and lower-case rests agree exactly when they hold no letter |
| PortPrefix.SharedNames | src/gnu/io/RXTXCommDriver.java:243-254 | two prefixes can accept the same device if and only if one is the other plus a letter-free suffix |
| PortPrefix.TablesAreUnambiguous | src/gnu/io/RXTXCommDriver.java:547-795 | no per-system table, serial or parallel, holds two such prefixes |
| PortPrefix.CheckSolaris | src/gnu/io/RXTXCommDriver.java:181-196 | registers exactly the names with one more letter from a to z that can be read, once each |
| PortPrefix.RegisterValidPorts | src/gnu/io/RXTXCommDriver.java:197-291 | exactly the names tried for a device some prefix accepts that can be read are registered; with distinct devices and unambiguous prefixes, each once |
| PortPrefix.RegisterScannedPorts | src/gnu/io/RXTXCommDriver.java:524-807 | with the tables of the program: a name is registered if and only if it can be read and is a scanned device, behind the directory unless on Windows and before one letter on Solaris, made of a prefix and letter-free characters; distinct devices are registered once each |

## Left out

- Allocation failures in `add_port`, path names of 80 characters or more, and the freeing of nodes.
- The wiring inside `add_port` for `port == first_tl`, which no run reaches.
- Ports.PortTable.SerialOpen: what the set-up calls after `CreateFile` do to the device is one answer, `ok`.
- Speeds 14400, 28800, 128000 and 256000, whose codes lie outside `CBAUD`.
- Settings.CommPort.TcSetAttr: the constant `EvtChar` is not kept.
- `TIOCMSET`, `TIOCSSERIAL` and the other requests of `ioctl`; `show_DCB`; the second copies of `serial_read` and `serial_select`.
- Restoring the event mask around writes and `TIOCSERGETLSR`.
- SerialRead.Read: a turn is one answer of the device and the script of answers is finite, so nothing is claimed about a call that spins; the waiting before the loop is one answer, `early`.
- ParallelWrite.WriteArray: the POSIX branch, one `write` call, is not modelled.
- ReadChain.StreamRead: interrupted `select` calls are retried unseen.
- ReadChain.ReadArray: what a copy past the end of the array does to memory; allocation failure; lengths above `SSIZE_MAX`, which no Java int exceeds.
- Wall-clock behaviour: a timeout is a nondeterministic answer.
- CloseSafety.CloseIsSafe: `setDTR`, `setDSR`, the early returns for speed 0 and the call of `nativeavailable` that reading a range makes before it is counted are not steps; no `addEventListener` runs beside `close`.
- Listener.FlagsAgreeAtEveryReturn: one application thread, nobody interrupts the threads, and a join lasts until the thread has ended rather than three seconds.
- Mailbox.MasksConserved: one generation of the monitor; allocation and freeing of its structure, and restarting after the handle is closed.
- EventMask.EventInfo.NativeSetEventFlag: an event number outside the ten, for which the flag is never assigned.
- The Java-side filter in `sendEvent`.
- FuserIndex.FileTable.AddFile: `found_item`, which nothing reads, is not kept; the list of entries is a sequence, not linked nodes; the loop of `add_other` over the entries has the same shape and is not repeated.
- Scanning `/proc`, mounts and swaps, parsing network names, killing processes and the column layout of the lister.
- PortPrefix.RegisterValidPorts: whether a device can be read is one answer per name; case conversion covers ASCII.
- `getValidPortPrefixes`, which nothing calls; port enumeration from properties.
- WinCE `readArray`, BeOS, the parallel event loop, lock files, static port setters, UART extensions and the GUI.
