/** The loops that move bytes between a device and a buffer. The device is an oracle: it answers
  * each call as it likes, reports exactly the bytes it moved, never more than it was asked for,
  * and hands out the bytes of its stream in order. */
module Device {
  import opened Bytes

  function Min(a: int, b: int): int {
    if a <= b then a else b
  }

  /** m is the smaller of the two. */
  predicate IsLeast(m: int, a: int, b: int) {
    m <= a && m <= b && (m == a || m == b)
  }

  /** The next n bytes of the stream go to buffer[at..at+n]. */
  method Deliver(buffer: array<Byte>, at: nat, n: nat, stream: nat -> Byte, position: nat)
    requires at + n <= buffer.Length
    modifies buffer
    ensures forall i :: 0 <= i < buffer.Length ==>
      buffer[i] == if at <= i < at + n then stream(position + (i - at)) else old(buffer[i])
  {
    for k := 0 to n
      invariant forall i :: 0 <= i < buffer.Length ==>
        buffer[i] == if at <= i < at + k then stream(position + (i - at)) else old(buffer[i])
    {
      buffer[at + k] := stream(position + k);
    }
  }
}

/** serial_read of the termios emulation: overlapped reads with retries. */
module SerialRead {
  import opened Bytes
  import opened Device

  /** What one turn of the loop meets: a synchronous success, a broken pipe, more data, a pending read
    * that completes (with or without the timeout having passed), a pending read that
    * fails, or any other error. */
  datatype Attempt =
    | Sync(n: nat) | BrokenPipe(n: nat) | MoreData(n: nat)
    | Pending(n: nat, timedOut: bool) | PendingFails | Fails

  datatype Result = Returned(r: int) | Running

  /** A transfer moves what the device has, or what is wanted if that is less; a failure moves nothing. */
  function Moved(a: Attempt, wanted: nat): (n: nat)
    ensures if a.PendingFails? || a.Fails? then n == 0 else IsLeast(n, a.n, wanted)
  {
    match a
    case Sync(n) => Min(n, wanted)
    case BrokenPipe(n) => Min(n, wanted)
    case MoreData(n) => Min(n, wanted)
    case Pending(n, _) => Min(n, wanted)
    case _ => 0
  }

  /** The turn ends the call whatever is still wanted. */
  predicate Ends(a: Attempt, stillWanted: nat) {
    a.Sync? || a.PendingFails? || a.Fails? || (a.Pending? && a.timedOut && stillWanted > 0)
  }

  /** The bytes moved by the first k turns of a call for `size` bytes. */
  function Total(script: seq<Attempt>, size: nat, k: nat): (total: nat)
    requires k <= |script|
    ensures total <= size
  {
    if k == 0 then 0 else Total(script, size, k - 1) + Moved(script[k - 1], size - Total(script, size, k - 1))
  }

  /** Still running after k turns: no turn so far ended the call, and there are bytes wanted. */
  predicate RunningAfter(script: seq<Attempt>, size: nat, k: nat)
    requires k <= |script|
  {
    && Total(script, size, k) < size
    && (k > 0 ==> RunningAfter(script, size, k - 1) && !Ends(script[k - 1], size - Total(script, size, k)))
  }

  /** The call is over after k turns, and not earlier. */
  predicate OverAfter(script: seq<Attempt>, size: nat, k: nat)
    requires k <= |script|
  {
    !RunningAfter(script, size, k) && (k > 0 ==> RunningAfter(script, size, k - 1))
  }

  /** After these the loop looks whether bytes are still wanted. */
  predicate GoesOn(a: Attempt) {
    match a
    case BrokenPipe(_) => true
    case MoreData(_) => true
    case Pending(_, timedOut) => !timedOut
    case _ => false
  }

  /** Throughout: bytes delivered and bytes still wanted add up to the request, and the buffer holds exactly
    * the bytes the device moved, in order. A call that returns r >= 0 has delivered r;
    * it returns less than asked only at a turn that ends the call. */
  method Read(dest: array<Byte>, size: nat, early: bool, script: seq<Attempt>, stream: nat -> Byte)
    returns (result: Result, turns: nat, moved: nat)
    requires size <= dest.Length
    modifies dest
    ensures turns <= |script| && moved <= size
    ensures forall i :: 0 <= i < dest.Length ==> dest[i] == if i < moved then stream(i) else old(dest[i])
    ensures early ==> result == Returned(0) && turns == 0 && moved == 0
    ensures !early ==> moved == Total(script, size, turns)
    ensures !early && result.Returned? ==> OverAfter(script, size, turns)
    ensures !early && result.Returned? ==>
      result.r == if turns > 0 && script[turns - 1].Fails? then -1 else moved
    ensures result.Running? ==> !early && turns == |script| && RunningAfter(script, size, turns)
    ensures forall k :: 0 <= k < turns - 1 ==> GoesOn(script[k])
    ensures !early && result.Returned? && moved < size ==> turns > 0 && !GoesOn(script[turns - 1])
    ensures result == Returned(-1) <==> turns > 0 && script[turns - 1] == Fails
  {
    turns, moved := 0, 0;
    if early {
      return Returned(0), 0, 0;  // the read timeout passed while waiting for bytes
    }
    var left := size;
    while left > 0 && turns < |script|
      invariant turns <= |script| && moved + left == size
      invariant moved == Total(script, size, turns)
      invariant forall i :: 0 <= i < dest.Length ==> dest[i] == if i < moved then stream(i) else old(dest[i])
      invariant forall k :: 0 <= k < turns - 1 ==> GoesOn(script[k])
      invariant turns > 0 ==> script[turns - 1] != Fails && (left > 0 ==> GoesOn(script[turns - 1]))
      invariant left > 0 ==> RunningAfter(script, size, turns)
      invariant left == 0 ==> OverAfter(script, size, turns)
    {
      var a := script[turns];
      var n := Moved(a, left);
      Deliver(dest, moved, n, stream, moved);
      left, moved, turns := left - n, moved + n, turns + 1;
      match a
      case Sync(_) => return Returned(moved), turns, moved;
      case BrokenPipe(_) =>
      case MoreData(_) =>
      case Pending(_, timedOut) =>
        if left > 0 && timedOut {
          return Returned(moved), turns, moved;
        }
      case PendingFails => return Returned(moved), turns, moved;
      case Fails => return Returned(-1), turns, moved;
    }
    if left > 0 {
      return Running, turns, moved;
    }
    return Returned(moved), turns, moved;
  }
}

/** LPRPort.writeArray on Win32: blocking writes retried up to twenty times in a row. */
module ParallelWrite {
  import opened Bytes
  import opened Device

  datatype Answer = Answer(ok: bool, written: nat)

  predicate NoProgress(a: Answer) {
    !a.ok && a.written == 0
  }

  /** The bytes written by the first k calls of a loop that wants to write `count`. */
  function Written(device: nat -> Answer, count: nat, k: nat): (bytes: nat)
    ensures bytes <= count
  {
    if k == 0 then 0 else
      var before := Written(device, count, k - 1);
      before + Min(device(k - 1).written, count - before)
  }

  lemma WrittenStep(device: nat -> Answer, count: nat, k: nat)
    ensures IsLeast(Written(device, count, k + 1) - Written(device, count, k), device(k).written, count - Written(device, count, k))
  {
  }

  /** If every success writes at least one byte, the loop ends within 21 calls for each byte asked for. The
    * device receives a prefix of the bytes, each once and in order: all of them unless an
    * exception is thrown, which takes exactly 21 calls in a row without progress. */
  method WriteArray(body: array<Byte>, offset: nat, count: nat, device: nat -> Answer)
    returns (received: seq<Byte>, thrown: bool, calls: nat)
    requires offset + count <= body.Length
    requires forall i: nat :: device(i).ok ==> device(i).written > 0
    ensures received <= body[offset..offset + count] && |received| == Written(device, count, calls)
    ensures thrown <==> |received| < count
    ensures thrown <==> calls >= 21 && forall i: nat :: calls - 21 <= i < calls ==> NoProgress(device(i))
    ensures calls <= 21 * count
  {
    var bytes := new Byte[count];
    for i := 0 to count
      invariant forall j :: 0 <= j < i ==> bytes[j] == body[offset + j]
    {
      bytes[i] := body[offset + i];
    }
    assert bytes[..] == body[offset..offset + count];
    received, thrown, calls := [], false, 0;
    var sent, left, errorCount := 0, count, 0;
    while left > 0
      invariant 0 <= sent <= count && sent + left == count && received == bytes[..sent]
      invariant sent == Written(device, count, calls)
      invariant !thrown && (left == 0 ==> errorCount == 0)
      invariant 0 <= errorCount <= 20 && errorCount <= calls <= 21 * sent + errorCount
      invariant forall i: nat :: calls - errorCount <= i < calls ==> NoProgress(device(i))
      invariant calls > errorCount ==> !NoProgress(device(calls - errorCount - 1))
      decreases left, 20 - errorCount
    {
      var a := device(calls);
      var written := Min(a.written, left);
      calls := calls + 1;
      if !a.ok && written == 0 {
        if errorCount < 20 {
          errorCount := errorCount + 1;
          continue;
        }
        thrown := true;
        break;
      }
      errorCount := 0;
      assert bytes[..sent] + bytes[sent..sent + written] == bytes[..sent + written];
      received := received + bytes[sent..sent + written];
      sent, left := sent + written, left - written;
    }
  }
}

/** Reading through the Java stream, the native readArray and its read_byte_array loop. */
module ReadChain {
  import opened Bytes
  import opened Device

  /** One turn of the loop: the wait times out or fails, or a read returns `ret`. */
  datatype Turn = TimedOut | SelectFailed | Read(ret: int)

  predicate Failed(t: Turn) {
    t.SelectFailed? || (t.Read? && t.ret < 0)
  }

  /** A timeout, or the end of the input. */
  predicate Dry(t: Turn) {
    t == TimedOut || t == Read(0)
  }

  /** The bytes moved by the first k turns of a loop that wants `length` bytes. */
  function Moved(device: nat -> Turn, length: nat, k: nat): (bytes: nat)
    ensures bytes <= length
  {
    if k == 0 then 0 else
      var before := Moved(device, length, k - 1);
      if Failed(device(k - 1)) || Dry(device(k - 1)) then before
      else before + Min(device(k - 1).ret, length - before)
  }

  /** A turn that brings bytes moves as many as it has, or as are still wanted if those are fewer; the others move none. */
  lemma MovedStep(device: nat -> Turn, length: nat, k: nat)
    ensures var n := Moved(device, length, k + 1) - Moved(device, length, k);
      match device(k)
      case TimedOut => n == 0
      case SelectFailed => n == 0
      case Read(ret) => if ret <= 0 then n == 0 else IsLeast(n, ret, length - Moved(device, length, k))
  {
  }

  /** read_byte_array. The serial port waits before every read and has no limit but the length; the parallel
    * port also stops at its threshold, and waits only with a positive timeout. */
  method ReadByteArray(buffer: array<Byte>, length: nat, limit: int, device: nat -> Turn, stream: nat -> Byte)
    returns (status: int, turns: nat)
    requires buffer.Length == length
    modifies buffer
    ensures turns <= length
    ensures forall k :: 0 <= k < turns ==> Moved(device, length, k) < length && Moved(device, length, k) < limit
    ensures forall k :: 0 <= k < turns - 1 ==> !Failed(device(k)) && !Dry(device(k))
    ensures status < 0 <==> turns > 0 && Failed(device(turns - 1))
    ensures status < 0 ==> status == -1
    ensures status >= 0 ==> status == Moved(device, length, turns)
    ensures 0 <= status < length && status < limit ==> turns > 0 && Dry(device(turns - 1))
    ensures forall i :: 0 <= i < status ==> buffer[i] == stream(i)
  {
    var bytes, left := 0, length;
    turns := 0;
    while bytes < length && bytes < limit
      invariant 0 <= bytes && bytes + left == length && turns <= bytes
      invariant bytes == Moved(device, length, turns)
      invariant forall k :: 0 <= k < turns ==> Moved(device, length, k) < length && Moved(device, length, k) < limit
      invariant forall k :: 0 <= k < turns ==> !Failed(device(k)) && !Dry(device(k))
      invariant forall i :: 0 <= i < bytes ==> buffer[i] == stream(i)
      decreases left
    {
      var t := device(turns);
      turns := turns + 1;
      match t
      case TimedOut => return bytes, turns;
      case SelectFailed => return -1, turns;
      case Read(ret) =>
        if ret == 0 {
          return bytes, turns;
        }
        if ret < 0 {
          return -1, turns;
        }
        var n := Min(ret, left);
        Deliver(buffer, bytes, n, stream, bytes);
        bytes, left := bytes + n, left - n;
    }
    return bytes, turns;
  }

  datatype Port = Serial | Parallel(threshold: int)

  datatype Outcome = Returned(r: int) | IOException | InvalidLength | IndexOutOfBounds | NullPointer | PastTheEnd

  /** What a native readArray promises: the next r bytes of the stream land in order in b[off..off+r] and nothing
    * else changes; r is short of the request only after a timeout or at the end of the input; -1
    * (not the 0 of its comment) means no byte came, and an exception leaves b alone. Bytes that do not
    * fit behind `off` are PastTheEnd: what the copy then does to memory is not modelled. */
  ghost predicate Delivered(before: seq<Byte>, after: seq<Byte>, off: nat, length: nat, limit: int, outcome: Outcome,
      device: nat -> Turn, turns: nat, stream: nat -> Byte)
    requires |before| == |after|
  {
    var moved := Moved(device, length, turns);
    && outcome == (if turns > 0 && Failed(device(turns - 1)) then IOException
                   else if moved > 0 && off + moved > |before| then PastTheEnd
                   else Returned(if moved == 0 then -1 else moved))
    && (outcome != IOException && moved < length && moved < limit ==> turns > 0 && Dry(device(turns - 1)))
    && (forall k :: 0 <= k < turns ==> Moved(device, length, k) < length && Moved(device, length, k) < limit)
    && (forall k :: 0 <= k < turns - 1 ==> !Failed(device(k)) && !Dry(device(k)))
    && (forall i :: 0 <= i < |after| ==>
         after[i] == if outcome.Returned? && off <= i < off + moved then stream(i - off) else before[i])
  }

  method ReadArray(port: Port, b: array<Byte>, off: nat, length: int, device: nat -> Turn, stream: nat -> Byte)
    returns (outcome: Outcome, turns: nat)
    modifies b
    ensures port.Serial? && length < 0 ==> turns == 0 && b[..] == old(b[..]) && outcome == InvalidLength
    ensures port.Parallel? && length < 1 ==> turns == 0 && b[..] == old(b[..]) && outcome == IOException
    ensures length >= 1 || (port.Serial? && length == 0) ==>
      Delivered(old(b[..]), b[..], off, length, if port.Serial? then length else port.threshold, outcome, device, turns, stream)
  {
    if port.Serial? && length < 0 {
      return InvalidLength, 0;
    }
    if port.Parallel? && length < 1 {
      return IOException, 0;
    }
    var buffer := new Byte[length];
    var limit := match port case Serial => length case Parallel(threshold) => threshold;
    var bytes;
    bytes, turns := ReadByteArray(buffer, length, limit, device, stream);
    if bytes < 0 {
      return IOException, turns;
    }
    if bytes > 0 && off + bytes > b.Length {
      return PastTheEnd, turns;
    }
    for i := 0 to bytes
      invariant forall k :: 0 <= k < bytes ==> buffer[k] == stream(k)
      invariant forall k :: 0 <= k < b.Length ==>
        b[k] == if off <= k < off + i then stream(k - off) else old(b[k])
    {
      b[off + i] := buffer[i];
    }
    return Returned(if bytes == 0 then -1 else bytes), turns;
  }

  const INT_MAX := 0x7fff_ffff

  /** Java addition on int. */
  function Wrap(n: int): (r: int)
    ensures -INT_MAX - 1 <= r <= INT_MAX && (n - r) % (2 * INT_MAX + 2) == 0
  {
    (n + INT_MAX + 1) % (2 * INT_MAX + 2) - INT_MAX - 1
  }

  predicate PassesRangeCheck(off: int, len: int, size: int) {
    !(off < 0 || len < 0 || Wrap(off + len) > size)
  }

  /** The check lets exactly the ranges inside the array through, and those whose end is no int. */
  lemma RangeCheckIsExact(off: int, len: int, size: nat)
    requires IsInt(off) && IsInt(len) && size <= INT_MAX
    ensures PassesRangeCheck(off, len, size) <==>
      0 <= off && 0 <= len && (off + len <= size || off + len > INT_MAX)
  {
  }

  /** How many bytes a stream read asks for: with a threshold that many, or `len` if that is fewer; without one what is available,
    * or `len` if that is fewer, and 1 if nothing is. It lies between 1 and `len` exactly when the threshold is not negative
    * and, if it is disabled, neither is the number of bytes available. */
  function Minimum(len: int, threshold: int, available: int): (m: int)
    ensures threshold != 0 ==> IsLeast(m, len, threshold)
    ensures threshold == 0 && available != 0 ==> IsLeast(m, len, available)
    ensures threshold == 0 && available == 0 ==> m == 1
    ensures len > 0 ==> (1 <= m <= len <==> threshold >= 0 && (threshold == 0 ==> available >= 0))
  {
    if threshold == 0 then (if available == 0 then 1 else Min(len, available)) else Min(len, threshold)
  }

  predicate IsInt(n: int) {
    -INT_MAX - 1 <= n <= INT_MAX
  }

  /** SerialInputStream.read(b, off, len); `asked` is the number of bytes it asks the native code for. */
  method StreamRead(b: array?<Byte>, off: int, len: int, fd: int, threshold: int, available: int, interrupted: bool,
      device: nat -> Turn, stream: nat -> Byte)
    returns (outcome: Outcome, turns: nat, asked: int)
    requires IsInt(off) && IsInt(len) && (b != null ==> b.Length <= INT_MAX)
    modifies b
    ensures fd == 0 ==> outcome == IOException && turns == 0 && asked == 0
    ensures fd != 0 && b == null ==> outcome == NullPointer && turns == 0 && asked == 0
    ensures fd != 0 && b != null && !PassesRangeCheck(off, len, b.Length) ==>
      outcome == IndexOutOfBounds && turns == 0 && asked == 0
    ensures fd != 0 && b != null && PassesRangeCheck(off, len, b.Length) && (len == 0 || interrupted) ==>
      outcome == Returned(0) && turns == 0 && asked == 0
    ensures fd != 0 && b != null && PassesRangeCheck(off, len, b.Length) && len > 0 && !interrupted ==>
      && (threshold != 0 ==> IsLeast(asked, len, threshold))
      && (threshold == 0 && available != 0 ==> IsLeast(asked, len, available))
      && (threshold == 0 && available == 0 ==> asked == 1)
      && if asked < 0 then outcome == InvalidLength && turns == 0
         else Delivered(old(b[..]), b[..], off, asked, asked, outcome, device, turns, stream)
    ensures outcome.Returned? && 0 < asked && outcome.r < asked ==> turns > 0 && Dry(device(turns - 1))
    ensures outcome == PastTheEnd ==> off + len > INT_MAX
    ensures b != null && turns == 0 ==> b[..] == old(b[..])
  {
    turns, asked := 0, 0;
    if fd == 0 {
      return IOException, 0, 0;
    }
    if b == null {
      return NullPointer, 0, 0;
    }
    if off < 0 || len < 0 || Wrap(off + len) > b.Length {
      return IndexOutOfBounds, 0, 0;
    }
    RangeCheckIsExact(off, len, b.Length);
    if len == 0 || interrupted {
      return Returned(0), 0, 0;
    }
    asked := Minimum(len, threshold, available);
    outcome, turns := ReadArray(Serial, b, off, asked, device, stream);
  }
}
