/** The Data Object Exchange mailbox (section 6.30 of PCIe Base Specification 6.1): sending a
    request and receiving a response by polling, against an arbitrary device. */
module Doe {
  import opened Words

  // ------------------------------------------------------------ registers

  predicate Busy(status: u32) { status % 2 == 1 }
  predicate Erroneous(status: u32) { status / 4 % 2 == 1 }
  predicate ObjectReady(status: u32) { status >= 0x8000_0000 }

  predicate AbortBit(control: u32) { control % 2 == 1 }
  predicate GoBit(control: u32) { control >= 0x8000_0000 }

  /** The control register with Abort set and Go cleared, and the other way round. */
  function AbortWord(control: u32): u32 { (control - control % 2 + 1) % 0x8000_0000 }
  function GoWord(control: u32): u32 { (control - control % 2) % 0x8000_0000 + 0x8000_0000 }

  /** Each sets its own bit, clears the other's, and keeps all bits between them. */
  lemma ControlWords(control: u32)
    ensures AbortBit(AbortWord(control)) && !GoBit(AbortWord(control))
    ensures GoBit(GoWord(control)) && !AbortBit(GoWord(control))
    ensures AbortWord(control) % 0x8000_0000 / 2 == control % 0x8000_0000 / 2 == GoWord(control) % 0x8000_0000 / 2
  {
    var rest, top := control % 0x8000_0000 / 2, control / 0x8000_0000;
    assert control == 0x8000_0000 * top + 2 * rest + control % 2;
    Wrapped(2 * rest + 1, top);
    Wrapped(2 * rest, top);
  }

  lemma Wrapped(low: nat, top: nat)
    requires low < 0x8000_0000
    ensures (0x8000_0000 * top + low) % 0x8000_0000 == low
  {
  }

  /** What the host does to the mailbox. */
  datatype Event = Control(w: u32) | WriteMailbox(w: u32) | Acknowledge(w: u32)

  /** The device: the status it shows at every poll (a new behaviour may begin with every abort), the
      control register it shows, and the dword it offers after so many acknowledgements. */
  datatype Device = Device(status: (nat, nat) -> u32, control: nat -> u32, dword: nat -> u32)

  datatype Status = Success | InvalidParameter | BufferTooSmall | Failed

  const MAILBOX_TIMEOUT: nat := 300000000
  const RECEIVE_TIMEOUT: nat := 0x100_0000
  const HEADER_DWORDS: nat := 2
  const MAX_DWORDS: nat := 0x40000

  // ------------------------------------------------------------ polling

  /** How a polling loop ends, and the number of the next poll. */
  datatype Wait = Ready(next: nat) | Stopped(next: nat) | TimedOut(next: nat)

  /** Poll until `go` holds, or the error bit is seen, at most `delay` times. */
  function Await(status: nat -> u32, p: nat, delay: nat, go: u32 -> bool): Wait
    decreases delay, p
  {
    if delay == 0 then TimedOut(p)
    else if go(status(p)) then Ready(p + 1)
    else if Erroneous(status(p + 1)) then Stopped(p + 2)
    else Await(status, p + 2, delay - 1, go)
  }

  /** The first `n` rounds saw neither. */
  predicate Idle(status: nat -> u32, p: nat, n: nat, go: u32 -> bool) {
    forall j | 0 <= j < n :: Quiet(status, p, j, go)
  }

  predicate Quiet(status: nat -> u32, p: nat, j: nat, go: u32 -> bool) {
    !go(status(p + 2 * j)) && !Erroneous(status(p + 2 * j + 1))
  }

  /** The loop ends in the first round that sees what it waits for or an error, and times out if and
      only if there is no such round among the first `delay`. */
  lemma {:induction false} AwaitExactly(status: nat -> u32, p: nat, delay: nat, go: u32 -> bool) returns (n: nat)
    ensures n <= delay && Idle(status, p, n, go)
    ensures Await(status, p, delay, go) ==
      if n == delay then TimedOut(p + 2 * n)
      else if go(status(p + 2 * n)) then Ready(p + 2 * n + 1)
      else Stopped(p + 2 * n + 2)
    ensures n < delay ==> !Quiet(status, p, n, go)
    decreases delay
  {
    n := 0;
    if delay > 0 && Quiet(status, p, 0, go) {
      var m := AwaitExactly(status, p + 2, delay - 1, go);
      n := m + 1;
      forall j | 0 <= j < n ensures Quiet(status, p, j, go) {
        if j > 0 {
          assert Quiet(status, p + 2, j - 1, go);
        }
      }
    }
  }

  // ------------------------------------------------------------ sending

  predicate NotBusy(status: u32) { !Busy(status) }

  function Delay(timeout: nat): nat { timeout / 30 + 1 }

  /** A host: how often it polled, aborted and acknowledged, and all that it wrote. */
  datatype Host = Host(polls: nat, aborts: nat, acks: nat, trace: seq<Event>)

  /** A check of the error bit; if it is set, an abort. */
  function CheckError(dev: Device, h: Host): (bool, Host) {
    if Erroneous(dev.status(h.aborts, h.polls))
    then (true, Host(h.polls + 1, h.aborts + 1, h.acks, h.trace + [Control(AbortWord(dev.control(|h.trace|)))]))
    else (false, h.(polls := h.polls + 1))
  }

  /** What the polling loop of a host that starts in `h` sees. */
  function Polling(dev: Device, h: Host, timeout: nat, go: u32 -> bool): Wait {
    Await(StatusOf(dev, h.aborts), h.polls, Delay(timeout), go)
  }

  /** The status register, poll by poll, as long as nothing is aborted. */
  function StatusOf(dev: Device, aborts: nat): nat -> u32 { p => dev.status(aborts, p) }

  function Writes(s: seq<u32>): (r: seq<Event>)
    ensures |r| == |s|
  {
    seq(|s|, k requires 0 <= k < |s| => WriteMailbox(s[k]))
  }

  /** The whole request, a dword at a time, then Go. */
  function Deliver(dev: Device, h: Host, request: seq<u32>): Host {
    h.(trace := h.trace + Writes(request) + [Control(GoWord(dev.control(|h.trace| + |request|)))])
  }

  /** The final check of the error bit. */
  function Verdict(dev: Device, h: Host): (Status, Host) {
    (if CheckError(dev, h).0 then Failed else Success, CheckError(dev, h).1)
  }

  /** How a send that starts in `h` waits: first an error is cleared, then Busy is polled. */
  function SendWait(dev: Device, h: Host, timeout: nat): Wait {
    Polling(dev, CheckError(dev, h).1, if timeout == 0 then MAILBOX_TIMEOUT else timeout, NotBusy)
  }

  /** device_doe_send_message */
  function Send(dev: Device, h: Host, request: seq<u32>, timeout: nat): (Status, Host) {
    if request == [] then (InvalidParameter, h)
    else
      var h1 := CheckError(dev, h).1;
      match SendWait(dev, h, timeout)
      case TimedOut(p) => (Failed, h1.(polls := p))
      case Stopped(p) => Verdict(dev, h1.(polls := p))
      case Ready(p) => Verdict(dev, Deliver(dev, h1.(polls := p), request))
  }

  predicate IsAbort(e: Event) { e.Control? && AbortBit(e.w) && !GoBit(e.w) }
  predicate IsGo(e: Event) { e.Control? && GoBit(e.w) && !AbortBit(e.w) }

  /** Where in the trace the transfer begins: an error bit that is set before it is cleared by an abort. */
  function TransferAt(dev: Device, h: Host): (at: nat) {
    |h.trace| + if dev.status(h.aborts, h.polls) / 4 % 2 == 1 then 1 else 0
  }

  /** The trace before a transfer that begins at `at` and has ended at `end`, and what may follow it. */
  predicate Framed(trace: seq<Event>, trace': seq<Event>, at: nat, end: nat)
    requires |trace| <= at <= |trace| + 1 && at <= end
  {
    && end <= |trace'| <= end + 1 && trace'[..|trace|] == trace
    && (at > |trace| ==> IsAbort(trace'[|trace|])) && (|trace'| > end ==> IsAbort(trace'[end]))
  }

  /** Between `h` and `h'` the mailbox received the request, once and in order, and then Go; an abort
      may have come before it, and one after it. */
  predicate Delivered(dev: Device, h: Host, h': Host, request: seq<u32>) {
    var at := TransferAt(dev, h);
    && Framed(h.trace, h'.trace, at, at + |request| + 1)
    && (forall k | 0 <= k < |request| :: h'.trace[at + k] == WriteMailbox(request[k]))
    && IsGo(h'.trace[at + |request|])
  }

  /** Nothing was written to the mailbox, and the device was not told to go. */
  predicate NothingSent(h: Host, h': Host) {
    && |h.trace| <= |h'.trace| && h'.trace[..|h.trace|] == h.trace
    && forall k | |h.trace| <= k < |h'.trace| ::
      h'.trace[k].Control? && AbortBit(h'.trace[k].w) && !GoBit(h'.trace[k].w)
  }

  /** The error bit, once seen, is seen again until an abort. */
  ghost predicate ErrorLasts(dev: Device) {
    forall a: nat, p: nat :: Erroneous(dev.status(a, p)) ==> Erroneous(dev.status(a, p + 1))
  }

  /** The loop was stopped by an error bit that was clear again at the next poll. */
  predicate ErrorVanished(dev: Device, h: Host, w: Wait) {
    w.Stopped? && !Erroneous(dev.status(h.aborts, w.next))
  }

  lemma StoppedByError(dev: Device, h: Host, timeout: nat, go: u32 -> bool)
    ensures ErrorLasts(dev) ==> !ErrorVanished(dev, h, Polling(dev, h, timeout, go))
  {
    var n := AwaitExactly(StatusOf(dev, h.aborts), h.polls, Delay(timeout), go);
    if Polling(dev, h, timeout, go).Stopped? {
      assert Erroneous(dev.status(h.aborts, h.polls + 2 * n + 1));
    }
  }

  /** Checking the error bit writes nothing but perhaps an abort. */
  lemma CheckSendsNothing(dev: Device, h: Host)
    ensures NothingSent(h, CheckError(dev, h).1)
  {
    ControlWords(dev.control(|h.trace|));
  }

  lemma NothingTwice(a: Host, b: Host, c: Host)
    requires NothingSent(a, b) && NothingSent(b, c)
    ensures NothingSent(a, c)
  {
    assert c.trace[..|a.trace|] == c.trace[..|b.trace|][..|a.trace|];
    forall k | |a.trace| <= k < |b.trace| ensures c.trace[k] == b.trace[k] {
      assert c.trace[k] == c.trace[..|b.trace|][k];
    }
  }

  /** A send that times out or is stopped by an error writes nothing to the mailbox. */
  lemma UnreadySendsNothing(dev: Device, h: Host, request: seq<u32>, timeout: nat)
    requires request != [] && !SendWait(dev, h, timeout).Ready?
    ensures NothingSent(h, Send(dev, h, request, timeout).1)
    ensures SendWait(dev, h, timeout).TimedOut? ==> Send(dev, h, request, timeout).0 == Failed
  {
    var h1, w := CheckError(dev, h).1, SendWait(dev, h, timeout);
    CheckSendsNothing(dev, h);
    if w.Stopped? {
      CheckSendsNothing(dev, h1.(polls := w.next));
      NothingTwice(h, h1.(polls := w.next), Verdict(dev, h1.(polls := w.next)).1);
    }
  }

  lemma NothingIsNotDelivered(dev: Device, h: Host, h': Host, request: seq<u32>)
    requires NothingSent(h, h')
    ensures !Delivered(dev, h, h', request)
  {
  }

  /** A check of the error bit: one poll, and an abort if the bit is set. */
  lemma CheckErrorExactly(dev: Device, h: Host)
    ensures var (error, h') := CheckError(dev, h);
      && (error <==> dev.status(h.aborts, h.polls) / 4 % 2 == 1) && h'.polls == h.polls + 1 && h'.acks == h.acks
      && h'.aborts == h.aborts + (if error then 1 else 0) && |h'.trace| == |h.trace| + (if error then 1 else 0)
      && h'.trace[..|h.trace|] == h.trace && (error ==> IsAbort(h'.trace[|h.trace|]))
  {
    ControlWords(dev.control(|h.trace|));
  }

  /** The verdict behind a transfer. */
  lemma FramedVerdict(dev: Device, h: Host, h': Host, end: nat)
    requires |h'.trace| == end >= TransferAt(dev, h) && h'.trace[..TransferAt(dev, h)] == CheckError(dev, h).1.trace
    ensures Framed(h.trace, Verdict(dev, h').1.trace, TransferAt(dev, h), end)
    ensures Verdict(dev, h').1.trace[..end] == h'.trace
  {
    CheckErrorExactly(dev, h);
    CheckErrorExactly(dev, h');
  }

  /** A host that finds the mailbox free delivers the request, whatever the verdict is. */
  lemma DeliverDelivers(dev: Device, h: Host, p: nat, request: seq<u32>)
    ensures var h1 := CheckError(dev, h).1;
      Delivered(dev, h, Verdict(dev, Deliver(dev, h1.(polls := p), request)).1, request)
  {
    var h1, at := CheckError(dev, h).1.(polls := p), TransferAt(dev, h);
    var h2 := Deliver(dev, h1, request);
    CheckErrorExactly(dev, h);
    ControlWords(dev.control(|h1.trace| + |request|));
    FramedVerdict(dev, h, h2, at + |request| + 1);
    var trace := Verdict(dev, h2).1.trace;
    forall k | 0 <= k < |request| ensures trace[at + k] == WriteMailbox(request[k]) {
      assert trace[at + k] == h2.trace[at + k];
    }
    assert trace[at + |request|] == h2.trace[at + |request|];
  }

  // ------------------------------------------------------------ what a send comes to

  /** How often a transfer that starts in `h` has aborted when it begins to poll. */
  function AbortsBefore(dev: Device, h: Host): nat {
    h.aborts + if dev.status(h.aborts, h.polls) / 4 % 2 == 1 then 1 else 0
  }

  /** The status that the transfer sees `k` polls after its first check of the error bit. */
  function Seen(dev: Device, h: Host, k: nat): u32 { dev.status(AbortsBefore(dev, h), h.polls + 1 + k) }

  /** Round `j` of the polling loop finds the device busy and no error. */
  predicate BusyRound(dev: Device, h: Host, j: nat) {
    Seen(dev, h, 2 * j) % 2 == 1 && Seen(dev, h, 2 * j + 1) / 4 % 2 == 0
  }

  /** The loop ends well with round `j`: the device is not busy, or shows the error bit, and at the next
      poll the error bit is clear. */
  predicate SendEndsWell(dev: Device, h: Host, j: nat) {
    if Seen(dev, h, 2 * j) % 2 == 0 then Seen(dev, h, 2 * j + 1) / 4 % 2 == 0
    else Seen(dev, h, 2 * j + 1) / 4 % 2 == 1 && Seen(dev, h, 2 * j + 2) / 4 % 2 == 0
  }

  function SendRounds(timeout: nat): nat { (if timeout == 0 then 300000000 else timeout) / 30 + 1 }

  /** Round `j` is the first that does not go by with the device busy and no error, and comes in time. */
  predicate SendTurnsAt(dev: Device, h: Host, timeout: nat, j: nat) {
    j < SendRounds(timeout) && (forall k | 0 <= k < j :: BusyRound(dev, h, k)) && !BusyRound(dev, h, j)
  }

  /** The device is not busy at the first poll of that round. */
  ghost predicate FreeInTime(dev: Device, h: Host, timeout: nat) {
    exists j: nat :: SendTurnsAt(dev, h, timeout, j) && Seen(dev, h, 2 * j) % 2 == 0
  }

  ghost predicate SendGoesWell(dev: Device, h: Host, timeout: nat) {
    exists j: nat :: SendTurnsAt(dev, h, timeout, j) && SendEndsWell(dev, h, j)
  }

  /** How the polling loop of a send ends. */
  lemma SendRound(dev: Device, h: Host, timeout: nat) returns (n: nat)
    ensures n == SendRounds(timeout) || SendTurnsAt(dev, h, timeout, n)
    ensures forall j: nat | SendTurnsAt(dev, h, timeout, j) :: j == n
    ensures SendWait(dev, h, timeout) ==
      if n == SendRounds(timeout) then TimedOut(h.polls + 1 + 2 * n)
      else if Seen(dev, h, 2 * n) % 2 == 0 then Ready(h.polls + 1 + 2 * n + 1)
      else Stopped(h.polls + 1 + 2 * n + 2)
  {
    var h1 := CheckError(dev, h).1;
    var status := StatusOf(dev, h1.aborts);
    n := AwaitExactly(status, h1.polls, SendRounds(timeout), NotBusy);
    forall k | 0 <= k < n ensures BusyRound(dev, h, k) {
      assert Quiet(status, h1.polls, k, NotBusy);
    }
  }

  /** What a send comes to, in terms of what the device shows: it refuses an empty request; else it
      succeeds if and only if the first round that is not busy or sees an error comes in time and is
      followed by a clear error bit, and it delivers the request if and only if that round was not busy. */
  lemma SendExactly(dev: Device, h: Host, request: seq<u32>, timeout: nat)
    ensures var (status, h') := Send(dev, h, request, timeout);
      if request == [] then status == InvalidParameter && h' == h
      else
        && status == (if SendGoesWell(dev, h, timeout) then Success else Failed)
        && (Delivered(dev, h, h', request) <==> FreeInTime(dev, h, timeout))
  {
    if request != [] {
      var n := SendRound(dev, h, timeout);
      var w := SendWait(dev, h, timeout);
      if w.Ready? {
        DeliverDelivers(dev, h, w.next, request);
      } else {
        UnreadySendsNothing(dev, h, request, timeout);
        NothingIsNotDelivered(dev, h, Send(dev, h, request, timeout).1, request);
      }
      if !w.TimedOut? {
        VerdictExactly(dev, h, request, timeout, n);
      }
    }
  }

  lemma VerdictExactly(dev: Device, h: Host, request: seq<u32>, timeout: nat, n: nat)
    requires request != [] && SendTurnsAt(dev, h, timeout, n)
    requires SendWait(dev, h, timeout) ==
      if Seen(dev, h, 2 * n) % 2 == 0 then Ready(h.polls + 1 + 2 * n + 1) else Stopped(h.polls + 1 + 2 * n + 2)
    ensures Send(dev, h, request, timeout).0 == if SendEndsWell(dev, h, n) then Success else Failed
  {
  }

  /** A send that succeeds has delivered the request if and only if it was not stopped by an error that
      vanished; on a device whose error bit lasts it always has. */
  lemma SendExact(dev: Device, h: Host, request: seq<u32>, timeout: nat)
    requires request != [] && Send(dev, h, request, timeout).0 == Success
    ensures Delivered(dev, h, Send(dev, h, request, timeout).1, request) <==>
      !ErrorVanished(dev, CheckError(dev, h).1, SendWait(dev, h, timeout))
    ensures ErrorLasts(dev) ==> Delivered(dev, h, Send(dev, h, request, timeout).1, request)
  {
    StoppedByError(dev, CheckError(dev, h).1, if timeout == 0 then MAILBOX_TIMEOUT else timeout, NotBusy);
    if SendWait(dev, h, timeout).Ready? {
      DeliverDelivers(dev, h, SendWait(dev, h, timeout).next, request);
    } else {
      UnreadySendsNothing(dev, h, request, timeout);
      NothingIsNotDelivered(dev, h, Send(dev, h, request, timeout).1, request);
    }
  }

  /** A device that is busy, shows an error once and then none. */
  const FLICKERING: Device := Device((a, p) => if p == 2 then 5 else 1, n => 0, n => 0)

  /** To it a send succeeds although nothing was sent. */
  lemma FlickeringSendsNothing(request: seq<u32>)
    requires request != []
    ensures var (status, h') := Send(FLICKERING, Host(0, 0, 0, []), request, 0);
      status == Success && h'.trace == []
  {
    var h1 := Host(1, 0, 0, []);
    assert CheckError(FLICKERING, Host(0, 0, 0, [])) == (false, h1);
    var status := StatusOf(FLICKERING, 0);
    assert Erroneous(status(2)) && Busy(status(1));
    assert Polling(FLICKERING, h1, MAILBOX_TIMEOUT, NotBusy) == Stopped(3);
    assert Verdict(FLICKERING, h1.(polls := 3)) == (Success, Host(4, 0, 0, []));
  }

  // ------------------------------------------------------------ receiving

  /** Length of a data object in dwords, from the second dword of its header. */
  function DwordCount(header2: u32): nat { if header2 == 0 then MAX_DWORDS else header2 }

  /** The dwords that the device offers one after the other. */
  function Offered(dev: Device, acks: nat, n: nat): (r: seq<u32>)
    ensures |r| == n
  {
    seq<u32>(n, k requires 0 <= k < n => dev.dword(acks + k))
  }

  function Acknowledgements(s: seq<u32>): (r: seq<Event>)
    ensures |r| == |s|
  {
    seq(|s|, k requires 0 <= k < |s| => Acknowledge(s[k]))
  }

  /** `n` dwords read, and each of them acknowledged. */
  function Fetch(dev: Device, h: Host, n: nat): Host {
    h.(acks := h.acks + n, trace := h.trace + Acknowledgements(Offered(dev, h.acks, n)))
  }

  /** A response buffer and its size in bytes. */
  datatype Response = Response(status: Status, size: nat, buffer: seq<u32>, host: Host)

  function Judge(dev: Device, size: nat, buffer: seq<u32>, h: Host): Response {
    Response(Verdict(dev, h).0, size, buffer, Verdict(dev, h).1)
  }

  /** Reading the object that is ready: the header, and the rest if it fits. */
  function Read(dev: Device, h: Host, buffer: seq<u32>, size: nat): Response
    requires 4 * HEADER_DWORDS <= size <= 4 * |buffer|
  {
    var count := DwordCount(dev.dword(h.acks + 1));
    if 4 * count > size then
      Response(BufferTooSmall, 4 * count, Offered(dev, h.acks, HEADER_DWORDS) + buffer[HEADER_DWORDS..],
        Fetch(dev, h, HEADER_DWORDS))
    else
      var n := if count < HEADER_DWORDS then HEADER_DWORDS else count;
      Judge(dev, 4 * count, Offered(dev, h.acks, n) + buffer[n..], Fetch(dev, h, n))
  }

  /** device_doe_receive_message; its timeout argument is not used. */
  function Receive(dev: Device, h: Host, buffer: seq<u32>, size: nat): Response
    requires size <= 4 * |buffer|
  {
    if size < 4 * HEADER_DWORDS then Response(BufferTooSmall, 4 * HEADER_DWORDS, buffer, h)
    else
      var h1 := CheckError(dev, h).1;
      match Polling(dev, h1, RECEIVE_TIMEOUT, ObjectReady)
      case TimedOut(p) => Response(Failed, size, buffer, h1.(polls := p))
      case Stopped(p) => Judge(dev, size, buffer, h1.(polls := p))
      case Ready(p) => Read(dev, h1.(polls := p), buffer, size)
  }

  /** The data object that a device offers: as many dwords as its header says. */
  function Object(dev: Device, acks: nat): seq<u32> { Offered(dev, acks, DwordCount(dev.dword(acks + 1))) }

  /** The length of the data object that a device offers. */
  function ObjectLength(dev: Device, acks: nat): nat {
    if dev.dword(acks + 1) == 0 then 0x40000 else dev.dword(acks + 1)
  }

  /** The data object is in the buffer, nothing behind it, and its size is reported; every dword was
      acknowledged once, in order, and nothing else was written but perhaps an abort before it and after it. */
  predicate Received(dev: Device, h: Host, buffer: seq<u32>, size: nat, r: Response) {
    var n, at := ObjectLength(dev, h.acks), TransferAt(dev, h);
    && r.size == 4 * n <= size <= 4 * |buffer| == 4 * |r.buffer|
    && (forall k | 0 <= k < |buffer| :: r.buffer[k] == if k < n then dev.dword(h.acks + k) else buffer[k])
    && r.host.acks == h.acks + n
    && Framed(h.trace, r.host.trace, at, at + n)
    && Acknowledges(r.host.trace, dev, h.acks, at, n)
  }

  /** How a receive that starts in `h` waits. */
  function ReceiveWait(dev: Device, h: Host): Wait { Polling(dev, CheckError(dev, h).1, RECEIVE_TIMEOUT, ObjectReady) }

  lemma ReadIs(dev: Device, h: Host, buffer: seq<u32>, size: nat, n: nat)
    requires 8 <= size <= 4 * |buffer| && n == ObjectLength(dev, h.acks) && 2 <= n && 4 * n <= size
    ensures var r := Read(dev, h, buffer, size);
      && r.size == 4 * n && r.buffer == Offered(dev, h.acks, n) + buffer[n..]
      && r.host == Verdict(dev, Fetch(dev, h, n)).1
  {
  }

  lemma FetchTrace(dev: Device, h: Host, p: nat, n: nat)
    ensures var at := TransferAt(dev, h);
      var h' := Verdict(dev, Fetch(dev, CheckError(dev, h).1.(polls := p), n)).1;
      h'.acks == h.acks + n && Framed(h.trace, h'.trace, at, at + n) && Acknowledges(h'.trace, dev, h.acks, at, n)
  {
    var at, h1 := TransferAt(dev, h), CheckError(dev, h).1.(polls := p);
    CheckErrorExactly(dev, h);
    var h2 := Fetch(dev, h1, n);
    FetchWrites(dev, h1, n, at);
    FramedVerdict(dev, h, h2, at + n);
    SamePart(h2.trace, Verdict(dev, h2).1.trace, dev, h.acks, at, n);
  }

  lemma FetchWrites(dev: Device, h: Host, n: nat, at: nat)
    requires |h.trace| == at
    ensures var h' := Fetch(dev, h, n);
      |h'.trace| == at + n && h'.trace[..at] == h.trace && Acknowledges(h'.trace, dev, h.acks, at, n)
  {
  }

  /** From `at` on the trace acknowledges the next `n` dwords. */
  predicate Acknowledges(trace: seq<Event>, dev: Device, acks: nat, at: nat, n: nat) {
    at + n <= |trace| && forall k | at <= k < at + n :: trace[k] == Acknowledge(dev.dword(acks + (k - at)))
  }

  lemma SamePart(trace: seq<Event>, trace': seq<Event>, dev: Device, acks: nat, at: nat, n: nat)
    requires Acknowledges(trace, dev, acks, at, n) && |trace| == at + n <= |trace'| && trace'[..at + n] == trace
    ensures Acknowledges(trace', dev, acks, at, n)
  {
    forall k | at <= k < at + n ensures trace'[k] == trace[k] {
      assert trace'[k] == trace'[..at + n][k];
    }
  }

  lemma FetchReceives(dev: Device, h: Host, p: nat, buffer: seq<u32>, size: nat)
    requires 8 <= size <= 4 * |buffer| && 4 * ObjectLength(dev, h.acks) <= size && dev.dword(h.acks + 1) != 1
    ensures Received(dev, h, buffer, size, Read(dev, CheckError(dev, h).1.(polls := p), buffer, size))
  {
    var n := ObjectLength(dev, h.acks);
    ReadIs(dev, CheckError(dev, h).1.(polls := p), buffer, size, n);
    FetchTrace(dev, h, p, n);
  }

  /** Round `j` finds no data object ready and no error. */
  predicate EmptyRound(dev: Device, h: Host, j: nat) {
    Seen(dev, h, 2 * j) < 0x8000_0000 && Seen(dev, h, 2 * j + 1) / 4 % 2 == 0
  }

  /** Round `j` is the first that finds one or the other, and comes in time. */
  predicate ReceiveTurnsAt(dev: Device, h: Host, j: nat) {
    j < 0x100_0000 / 30 + 1 && (forall k | 0 <= k < j :: EmptyRound(dev, h, k)) && !EmptyRound(dev, h, j)
  }

  ghost predicate ObjectInTime(dev: Device, h: Host) {
    exists j: nat :: ReceiveTurnsAt(dev, h, j) && Seen(dev, h, 2 * j) >= 0x8000_0000
  }

  /** There is an object at the first poll of that round, or an error at the second, and the error bit is
      clear at the next poll. */
  predicate ReceiveEndsWell(dev: Device, h: Host, j: nat) {
    if Seen(dev, h, 2 * j) >= 0x8000_0000 then Seen(dev, h, 2 * j + 1) / 4 % 2 == 0
    else Seen(dev, h, 2 * j + 1) / 4 % 2 == 1 && Seen(dev, h, 2 * j + 2) / 4 % 2 == 0
  }

  ghost predicate ReceiveGoesWell(dev: Device, h: Host) {
    exists j: nat :: ReceiveTurnsAt(dev, h, j) && ReceiveEndsWell(dev, h, j)
  }

  /** An object is ready in time, and larger than the buffer. */
  ghost predicate TooLarge(dev: Device, h: Host, size: nat) {
    ObjectInTime(dev, h) && 4 * ObjectLength(dev, h.acks) > size
  }

  /** How the polling loop of a receive ends. */
  lemma ReceiveRound(dev: Device, h: Host) returns (n: nat)
    ensures n == 0x100_0000 / 30 + 1 || ReceiveTurnsAt(dev, h, n)
    ensures forall j: nat | ReceiveTurnsAt(dev, h, j) :: j == n
    ensures ReceiveWait(dev, h) ==
      if n == 0x100_0000 / 30 + 1 then TimedOut(h.polls + 1 + 2 * n)
      else if Seen(dev, h, 2 * n) >= 0x8000_0000 then Ready(h.polls + 1 + 2 * n + 1)
      else Stopped(h.polls + 1 + 2 * n + 2)
  {
    var h1 := CheckError(dev, h).1;
    var status := StatusOf(dev, h1.aborts);
    n := AwaitExactly(status, h1.polls, Delay(RECEIVE_TIMEOUT), ObjectReady);
    forall k | 0 <= k < n ensures EmptyRound(dev, h, k) {
      assert Quiet(status, h1.polls, k, ObjectReady);
    }
  }

  /** What a receive comes to, in terms of what the device shows.  A buffer that is too small, for a header or
      for the object, is refused; else it succeeds if and only if the first round that finds an object or an
      error comes in time and is followed by a clear error bit.  The object is in the buffer if and only if
      it was ready in that round, fits, and does not claim a single dword. */
  lemma ReceiveExactly(dev: Device, h: Host, buffer: seq<u32>, size: nat)
    requires size <= 4 * |buffer|
    ensures var r := Receive(dev, h, buffer, size);
      if size < 8 then r == Response(BufferTooSmall, 8, buffer, h)
      else
        && r.status == (if TooLarge(dev, h, size) then BufferTooSmall
                        else if ReceiveGoesWell(dev, h) then Success else Failed)
        && (Received(dev, h, buffer, size, r) <==>
              ObjectInTime(dev, h) && 4 * ObjectLength(dev, h.acks) <= size && dev.dword(h.acks + 1) != 1)
  {
    if 8 <= size {
      ReceiveStatus(dev, h, buffer, size);
      ReceiveContents(dev, h, buffer, size);
    }
  }

  lemma ReceiveStatus(dev: Device, h: Host, buffer: seq<u32>, size: nat)
    requires 8 <= size <= 4 * |buffer|
    ensures Receive(dev, h, buffer, size).status ==
      if TooLarge(dev, h, size) then BufferTooSmall else if ReceiveGoesWell(dev, h) then Success else Failed
  {
    var n := ReceiveRound(dev, h);
    var w := ReceiveWait(dev, h);
    if w.Ready? && 4 * ObjectLength(dev, h.acks) <= size {
      ReadVerdict(dev, CheckError(dev, h).1.(polls := w.next), buffer, size);
    }
  }

  lemma ReceiveContents(dev: Device, h: Host, buffer: seq<u32>, size: nat)
    requires 8 <= size <= 4 * |buffer|
    ensures Received(dev, h, buffer, size, Receive(dev, h, buffer, size)) <==>
      ObjectInTime(dev, h) && 4 * ObjectLength(dev, h.acks) <= size && dev.dword(h.acks + 1) != 1
  {
    var n := ReceiveRound(dev, h);
    var w := ReceiveWait(dev, h);
    if w.Ready? && 4 * ObjectLength(dev, h.acks) <= size {
      ReadVerdict(dev, CheckError(dev, h).1.(polls := w.next), buffer, size);
      if dev.dword(h.acks + 1) != 1 {
        FetchReceives(dev, h, w.next, buffer, size);
      }
    }
  }

  lemma ReceiveVerdict(dev: Device, h: Host, buffer: seq<u32>, size: nat)
    requires size <= 4 * |buffer|
    ensures var status := Receive(dev, h, buffer, size).status;
      && (status == BufferTooSmall <==> size < 8 || TooLarge(dev, h, size))
      && (status == Success <==> 8 <= size && !TooLarge(dev, h, size) && ReceiveGoesWell(dev, h))
  {
    ReceiveExactly(dev, h, buffer, size);
  }

  lemma ReadVerdict(dev: Device, h: Host, buffer: seq<u32>, size: nat)
    requires 8 <= size <= 4 * |buffer| && 4 * ObjectLength(dev, h.acks) <= size
    ensures var r, n := Read(dev, h, buffer, size), ObjectLength(dev, h.acks);
      && r.host.acks == h.acks + (if n < 2 then 2 else n)
      && r.status == if dev.status(h.aborts, h.polls) / 4 % 2 == 1 then Failed else Success
  {
  }

  /** A receive that succeeds has received the data object if and only if it was not stopped by an error that
      vanished and the header does not claim a single dword; on a device whose error bit lasts only
      the header matters. */
  lemma ReceiveExact(dev: Device, h: Host, buffer: seq<u32>, size: nat)
    requires size <= 4 * |buffer| && Receive(dev, h, buffer, size).status == Success
    ensures Received(dev, h, buffer, size, Receive(dev, h, buffer, size)) <==>
      !ErrorVanished(dev, CheckError(dev, h).1, ReceiveWait(dev, h)) && dev.dword(h.acks + 1) != 1
    ensures ErrorLasts(dev) ==>
      (Received(dev, h, buffer, size, Receive(dev, h, buffer, size)) <==> dev.dword(h.acks + 1) != 1)
  {
    var h1, w := CheckError(dev, h).1, ReceiveWait(dev, h);
    StoppedByError(dev, h1, RECEIVE_TIMEOUT, ObjectReady);
    if w.Ready? {
      ReadAcks(dev, h1.(polls := w.next), buffer, size);
      if dev.dword(h.acks + 1) != 1 {
        FetchReceives(dev, h, w.next, buffer, size);
      }
    }
  }

  /** From the device that shows an error once a receive succeeds although nothing was read. */
  lemma FlickeringReceivesNothing(buffer: seq<u32>, size: nat)
    requires 4 * HEADER_DWORDS <= size <= 4 * |buffer|
    ensures var r := Receive(FLICKERING, Host(0, 0, 0, []), buffer, size);
      r.status == Success && r.buffer == buffer && r.size == size && r.host.acks == 0
  {
    var h1 := Host(1, 0, 0, []);
    assert CheckError(FLICKERING, Host(0, 0, 0, [])) == (false, h1);
    var status := StatusOf(FLICKERING, 0);
    assert Erroneous(status(2)) && !ObjectReady(status(1));
    assert Polling(FLICKERING, h1, RECEIVE_TIMEOUT, ObjectReady) == Stopped(3);
    assert Verdict(FLICKERING, h1.(polls := 3)) == (Success, Host(4, 0, 0, []));
  }

  lemma ReadAcks(dev: Device, h: Host, buffer: seq<u32>, size: nat)
    requires 4 * HEADER_DWORDS <= size <= 4 * |buffer| && Read(dev, h, buffer, size).status == Success
    ensures var r, count := Read(dev, h, buffer, size), DwordCount(dev.dword(h.acks + 1));
      r.size == 4 * count && r.host.acks == h.acks + if count < HEADER_DWORDS then HEADER_DWORDS else count
  {
  }

  /** Only a header that claims a single dword makes host and device disagree: two dwords are read and
      acknowledged, and the size is that of one. */
  lemma AcknowledgedExactly(dev: Device, h: Host, buffer: seq<u32>, size: nat)
    requires size <= 4 * |buffer| && ErrorLasts(dev) && Receive(dev, h, buffer, size).status == Success
    ensures 4 * (Receive(dev, h, buffer, size).host.acks - h.acks) == Receive(dev, h, buffer, size).size <==>
      dev.dword(h.acks + 1) != 1
  {
    var h1 := CheckError(dev, h).1;
    StoppedByError(dev, h1, RECEIVE_TIMEOUT, ObjectReady);
    var w := Polling(dev, h1, RECEIVE_TIMEOUT, ObjectReady);
    ReadAcks(dev, h1.(polls := w.next), buffer, size);
  }

  lemma ReadInside(dev: Device, h: Host, buffer: seq<u32>, size: nat)
    requires 4 * HEADER_DWORDS <= size <= 4 * |buffer|
    ensures var r := Read(dev, h, buffer, size);
      && |r.buffer| == |buffer|
      && (forall k | 0 <= k < |buffer| && size < 4 * (k + 1) :: r.buffer[k] == buffer[k])
      && (r.status == BufferTooSmall ==>
        size < r.size == 4 * |Object(dev, h.acks)| && r.host.acks == h.acks + HEADER_DWORDS)
  {
  }

  /** Whatever the device offers, a receive never writes past the size it was given, and it reports
      that the buffer is too small with the size that the object needs. */
  lemma ReceiveInside(dev: Device, h: Host, buffer: seq<u32>, size: nat)
    requires size <= 4 * |buffer|
    ensures var r := Receive(dev, h, buffer, size);
      && |r.buffer| == |buffer|
      && (forall k | 0 <= k < |buffer| && size < 4 * (k + 1) :: r.buffer[k] == buffer[k])
      && (r.status == BufferTooSmall ==> r.size > size)
      && (r.status == BufferTooSmall && size >= 4 * HEADER_DWORDS ==>
            r.size == 4 * |Object(dev, h.acks)| && r.host.acks == h.acks + HEADER_DWORDS)
  {
    if size >= 4 * HEADER_DWORDS {
      var h1 := CheckError(dev, h).1;
      ReadInside(dev, h1.(polls := Polling(dev, h1, RECEIVE_TIMEOUT, ObjectReady).next), buffer, size);
    }
  }

  lemma FetchTwice(dev: Device, h: Host, m: nat, n: nat)
    ensures Fetch(dev, Fetch(dev, h, m), n) == Fetch(dev, h, m + n)
    ensures Offered(dev, h.acks, m + n) == Offered(dev, h.acks, m) + Offered(dev, h.acks + m, n)
  {
    assert Acknowledgements(Offered(dev, h.acks, m + n)) ==
      Acknowledgements(Offered(dev, h.acks, m)) + Acknowledgements(Offered(dev, h.acks + m, n));
  }

  // ------------------------------------------------------------ the code

  class Mailbox {
    const dev: Device
    var polls: nat
    var aborts: nat
    var acks: nat
    var trace: seq<Event>

    constructor (dev: Device)
      ensures this.dev == dev && Here() == Host(0, 0, 0, [])
    {
      this.dev := dev;
      polls, aborts, acks, trace := 0, 0, 0, [];
    }

    function Here(): Host
      reads this
    {
      Host(polls, aborts, acks, trace)
    }

    method ReadStatus() returns (v: u32)
      modifies `polls
      ensures v == dev.status(aborts, old(polls)) && polls == old(polls) + 1
    {
      v := dev.status(aborts, polls);
      polls := polls + 1;
    }

    method TriggerDoeAbort()
      modifies `aborts, `trace
      ensures Here() == old(Here()).(aborts := old(aborts) + 1,
        trace := old(trace) + [Control(AbortWord(dev.control(|old(trace)|)))])
    {
      trace := trace + [Control(AbortWord(dev.control(|trace|)))];
      aborts := aborts + 1;
    }

    method TriggerDoeGo()
      modifies `trace
      ensures trace == old(trace) + [Control(GoWord(dev.control(|old(trace)|)))]
    {
      trace := trace + [Control(GoWord(dev.control(|trace|)))];
    }

    /** The check of the error bit before and after a transfer. */
    method ClearError() returns (error: bool)
      modifies this
      ensures (error, Here()) == CheckError(dev, old(Here()))
    {
      var status := ReadStatus();
      error := Erroneous(status);
      if error {
        TriggerDoeAbort();
      }
    }

    /** The polling loop. */
    method WaitFor(go: u32 -> bool, timeout: nat) returns (w: Wait)
      modifies `polls
      ensures w == Polling(dev, old(Here()), timeout, go) && polls == w.next
    {
      var delay: nat := timeout / 30 + 1;
      while delay != 0
        invariant Await(StatusOf(dev, aborts), polls, delay, go) == Polling(dev, old(Here()), timeout, go)
        decreases delay
      {
        var status := ReadStatus();
        if go(status) {
          return Ready(polls);
        }
        status := ReadStatus();
        if Erroneous(status) {
          return Stopped(polls);
        }
        delay := delay - 1;
      }
      return TimedOut(polls);
    }

    /** The verdict after a loop that did not time out. */
    method Conclude() returns (status: Status)
      modifies this
      ensures (status, Here()) == Verdict(dev, old(Here()))
    {
      var error := ClearError();
      status := if error then Failed else Success;
    }

    method SendMessage(request: seq<u32>, timeout: nat) returns (status: Status)
      modifies this
      ensures (status, Here()) == Send(dev, old(Here()), request, timeout)
      ensures request == [] <==> status == InvalidParameter
      ensures request != [] ==> (status == Success <==> SendGoesWell(dev, old(Here()), timeout))
      ensures request != [] ==>
        (Delivered(dev, old(Here()), Here(), request) <==> FreeInTime(dev, old(Here()), timeout))
    {
      SendExactly(dev, Here(), request, timeout);
      if request == [] {
        return InvalidParameter;
      }
      var _ := ClearError();
      var w := WaitFor(NotBusy, if timeout == 0 then MAILBOX_TIMEOUT else timeout);
      if w.TimedOut? {
        return Failed;
      }
      if w.Ready? {
        Transfer(request);
      }
      status := Conclude();
    }

    method Transfer(request: seq<u32>)
      modifies `trace
      ensures Here() == Deliver(dev, old(Here()), request)
    {
      WriteRequest(request);
      TriggerDoeGo();
    }

    method WriteRequest(request: seq<u32>)
      modifies `trace
      ensures trace == old(trace) + Writes(request)
    {
      for index := 0 to |request|
        invariant trace == old(trace) + Writes(request)[..index]
      {
        trace := trace + [WriteMailbox(request[index])];
      }
    }

    /** Reads a dword into the buffer and acknowledges it. */
    method ReadMailbox(buffer: array<u32>, index: nat)
      requires index < buffer.Length
      modifies `acks, `trace, buffer
      ensures buffer[..] == old(buffer[..])[index := dev.dword(old(acks))]
      ensures acks == old(acks) + 1 && trace == old(trace) + [Acknowledge(dev.dword(old(acks)))]
    {
      buffer[index] := dev.dword(acks);
      trace := trace + [Acknowledge(buffer[index])];
      acks := acks + 1;
    }

    method ReceiveMessage(buffer: array<u32>, size: nat) returns (status: Status, size': nat)
      requires size <= 4 * buffer.Length
      modifies this, buffer
      ensures Response(status, size', buffer[..], Here()) == Receive(dev, old(Here()), old(buffer[..]), size)
      ensures status == BufferTooSmall <==> size < 8 || TooLarge(dev, old(Here()), size)
      ensures status == Success <==>
        8 <= size && !TooLarge(dev, old(Here()), size) && ReceiveGoesWell(dev, old(Here()))
    {
      ReceiveVerdict(dev, Here(), buffer[..], size);
      if size < 4 * HEADER_DWORDS {
        return BufferTooSmall, 4 * HEADER_DWORDS;
      }
      var _ := ClearError();
      var w := WaitFor(ObjectReady, RECEIVE_TIMEOUT);
      if w.TimedOut? {
        return Failed, size;
      }
      size' := size;
      if w.Ready? {
        var tooSmall: bool;
        tooSmall, size' := ReadObject(buffer, size);
        if tooSmall {
          return BufferTooSmall, size';
        }
      }
      status := Conclude();
    }

    /** Reads the header and, if the object fits, the rest. */
    method ReadObject(buffer: array<u32>, size: nat) returns (tooSmall: bool, size': nat)
      requires 4 * HEADER_DWORDS <= size <= 4 * buffer.Length
      modifies `acks, `trace, buffer
      ensures size' == 4 * DwordCount(dev.dword(old(acks) + 1)) && (tooSmall <==> size' > size)
      ensures var n := if tooSmall || size' < 4 * HEADER_DWORDS then HEADER_DWORDS else size' / 4;
        && buffer[..] == Offered(dev, old(acks), n) + old(buffer[n..])
        && Here() == Fetch(dev, old(Here()), n)
    {
      ghost var h := Here();
      ReadHeader(buffer);
      var count := buffer[1];
      assert count == buffer[..][1] == dev.dword(h.acks + 1);
      if count == 0 {
        count := MAX_DWORDS;
      }
      size' := 4 * count;
      tooSmall := size' > size;
      if !tooSmall {
        ghost var n := if count < HEADER_DWORDS then 0 else count - HEADER_DWORDS;
        ReadRest(buffer, count);
        FetchTwice(dev, h, HEADER_DWORDS, n);
      }
    }

    method ReadHeader(buffer: array<u32>)
      requires HEADER_DWORDS <= buffer.Length
      modifies `acks, `trace, buffer
      ensures buffer[..] == Offered(dev, old(acks), HEADER_DWORDS) + old(buffer[HEADER_DWORDS..])
      ensures Here() == Fetch(dev, old(Here()), HEADER_DWORDS)
    {
      FetchTwice(dev, Here(), 1, 1);
      ReadMailbox(buffer, 0);
      ReadMailbox(buffer, 1);
    }

    /** The loop behind the header. */
    method ReadRest(buffer: array<u32>, count: nat)
      requires HEADER_DWORDS <= buffer.Length && count <= buffer.Length
      modifies `acks, `trace, buffer
      ensures var n := if count < HEADER_DWORDS then 0 else count - HEADER_DWORDS;
        && buffer[..] == old(buffer[..HEADER_DWORDS]) + Offered(dev, old(acks), n) + old(buffer[HEADER_DWORDS + n..])
        && Here() == Fetch(dev, old(Here()), n)
    {
      var index := HEADER_DWORDS;
      while index < count
        invariant HEADER_DWORDS <= index <= buffer.Length &&
          (if HEADER_DWORDS <= count then index <= count else index == HEADER_DWORDS)
        invariant buffer[..] ==
          old(buffer[..HEADER_DWORDS]) + Offered(dev, old(acks), index - HEADER_DWORDS) + old(buffer[index..])
        invariant Here() == Fetch(dev, old(Here()), index - HEADER_DWORDS)
      {
        FetchTwice(dev, old(Here()), index - HEADER_DWORDS, 1);
        ReadMailbox(buffer, index);
        index := index + 1;
      }
    }

    /** pci_doe_send_receive_data */
    method SendReceive(request: seq<u32>, buffer: array<u32>, size: nat) returns (status: Status, size': nat)
      requires size <= 4 * buffer.Length
      modifies this, buffer
      ensures var (sent, h) := Send(dev, old(Here()), request, 0);
        if sent != Success then status == sent && size' == size && Here() == h && buffer[..] == old(buffer[..])
        else Response(status, size', buffer[..], Here()) == Receive(dev, h, old(buffer[..]), size)
    {
      size' := size;
      status := SendMessage(request, 0);
      if status == Success {
        status, size' := ReceiveMessage(buffer, size);
      }
    }
  }
}
