/**
 * The ASF block of the FCH SMBus controller as the driver sees it: control
 * registers, the two receive banks, and everything the interrupt side (the hard
 * IRQ handler and the devices on the bus) may change while the driver holds
 * piix4_asf_mutex.
 *
 * Every message the block ACKs gets a sequence number. The log says what became
 * of it: read out of its bank, or forfeited. It is bookkeeping of the model and
 * no transition tests it.
 */
module AsfHardware {
  import opened Basics

  const HOST_ADDR := 0x08
  const HOST_NOTIFY_LEN := 3
  const BLOCK_MAX_BYTES := 72

  /** A received message: its target address byte, then the payload. */
  datatype Message = Message(target: byte, data: seq<byte>)

  /** Section 5.5.9 of the SMBus Specification 2.0: addressed to the SMBus Host, for writing, from a 7-bit device address. */
  predicate IsHostNotify(m: Message) {
    && m.target == 2 * HOST_ADDR
    && |m.data| >= HOST_NOTIFY_LEN
    && m.data[0] % 2 == 0
    && 0x08 <= m.data[0] / 2 <= 0x77
  }

  function Notifier(m: Message): nat
    requires IsHostNotify(m)
  {
    m.data[0] / 2
  }

  /** A receive bank; `id` is the sequence number of the message it holds or held last. */
  datatype Bank = Bank(full: bool, id: nat)

  /** Register bits that only the driver and the firmware write. */
  datatype Control = Control(
    listn: bool, lisAddr: nat,                  // ASFLISADDR
    rst: bool, slvRest: nat,                    // ASFSLVEN without INTR
    sel: bool, dataEn: bool, bnkRest: nat,      // ASFDATABNKSEL without the full flags
    mstrEn: bool, clkEn: bool)                  // FCH PM DecodeEn

  /** Messages 0 .. count-1 have been ACKed; `errors` counts reception errors that flushed the banks. */
  datatype Log = Log(count: nat, read: set<nat>, lost: set<nat>, errors: nat)

  datatype Io = Io(
    ctl: Control,
    intr: bool,                                 // ASFSLVEN, slave interrupt enable
    slvInt: bool,                               // ASFSTA, slave interrupt pending
    slvErr: bool,                               // ASFSLVSTA, reception error
    b0: Bank, b1: Bank,
    pending: bool,                              // piix4_asf.pending
    woken: bool,                                // an IRQ thread run is due that has not yet taken the mutex
    log: Log)

  function BankOf(io: Io, k: nat): Bank { if k == 0 then io.b0 else io.b1 }

  /** The bank holds an ACKed message that nobody has read and that has not been forfeited. */
  predicate Waiting(b: Bank, log: Log) {
    b.full && b.id !in log.read && b.id !in log.lost
  }

  predicate HasUnread(io: Io) {
    Waiting(io.b0, io.log) || Waiting(io.b1, io.log)
  }

  function Unread(io: Io): set<nat> {
    (if Waiting(io.b0, io.log) then {io.b0.id} else {}) + (if Waiting(io.b1, io.log) then {io.b1.id} else {})
  }

  /** Something will make the IRQ thread look at the banks. */
  predicate Signal(io: Io) {
    io.slvInt || (io.pending && io.woken)
  }

  /** No message waits without a signal. */
  predicate NoLostWakeup(io: Io) {
    HasUnread(io) ==> Signal(io)
  }

  predicate Filed(b: Bank, log: Log) {
    b.full ==> b.id < log.count
  }

  /** Conservation: every ACKed message was read, was forfeited, or is still in a flagged bank. */
  ghost predicate Accounted(b0: Bank, b1: Bank, log: Log) {
    && Filed(b0, log) && Filed(b1, log)
    && (forall id :: id in log.read || id in log.lost ==> id < log.count)
    && (forall id: nat :: id < log.count ==>
          id in log.read || id in log.lost || (b0.full && b0.id == id) || (b1.full && b1.id == id))
  }

  ghost predicate Ledger(io: Io) {
    Accounted(io.b0, io.b1, io.log)
  }

  /** The controller is a fully armed slave. */
  predicate Armed(io: Io) {
    && io.ctl.listn && io.ctl.lisAddr == HOST_ADDR
    && io.intr && !io.ctl.rst
    && !io.ctl.mstrEn && io.ctl.clkEn
    && !io.ctl.dataEn
  }

  /** The controller may master a transfer: slave offline, port 0x07 on the host FIFO. */
  predicate MasterReady(io: Io) {
    !io.ctl.listn && io.ctl.rst && io.ctl.mstrEn && io.ctl.dataEn
  }

  // ---- What the interrupt side does ------------------------------------------

  /** piix4_asf_irq_handler as one step; `listening` is the driver's flag. */
  function HardHandler(io: Io, listening: bool): Io {
    if !io.slvInt then io
    else if !listening then io.(slvInt := false, intr := false)
    else io.(slvInt := false, pending := true, woken := true)
  }

  /** The block ACKs the next message into the free bank `k` and raises its status. */
  function Arrive(io: Io, k: nat): Io {
    var b := Bank(true, io.log.count);
    var io' := io.(slvInt := true, log := io.log.(count := io.log.count + 1));
    if k == 0 then io'.(b0 := b) else io'.(b1 := b)
  }

  predicate CanReceive(io: Io) { io.ctl.listn && !io.ctl.rst }

  ghost predicate InterruptStep(a: Io, b: Io, listening: bool, irqOn: bool) {
    || (irqOn && b == HardHandler(a, listening))
    || (CanReceive(a) && exists k: nat :: k < 2 && !BankOf(a, k).full && b == Arrive(a, k))
    || (CanReceive(a) && b == a.(slvErr := true, slvInt := true))
  }

  predicate KeptBank(a: Bank, b: Bank, n: nat) {
    (a.full ==> b == a) && (!a.full && b.full ==> b.id >= n)
  }

  /** What any number of interrupt steps may do between two register accesses of the driver. */
  predicate Rely(a: Io, b: Io, listening: bool, irqOn: bool) {
    && b.ctl == a.ctl
    && (b.intr == a.intr || (irqOn && !listening && !b.intr))
    && b.log.read == a.log.read && b.log.lost == a.log.lost && b.log.errors == a.log.errors
    && a.log.count <= b.log.count
    && KeptBank(a.b0, b.b0, a.log.count) && KeptBank(a.b1, b.b1, a.log.count)
    && (listening && Signal(a) ==> Signal(b))
    && (listening && ((b.b0.full && !a.b0.full) || (b.b1.full && !a.b1.full)) ==> Signal(b))
    && (a.slvErr ==> b.slvErr) && (b.slvInt && !a.slvInt ==> b.log.count > a.log.count || b.slvErr)
    && (!listening ==> Dropped(a, b))
    && (!a.ctl.listn ==> Settled(a, b))
  }

  /** With the driver not listening an acknowledged interrupt is masked, and wakes nobody. */
  predicate Dropped(a: Io, b: Io) {
    (a.slvInt && !b.slvInt ==> !b.intr) && (b.pending ==> a.pending) && (b.woken ==> a.woken)
  }

  /** With LISTN clear nothing arrives and signals are only consumed. */
  predicate Settled(a: Io, b: Io) {
    && b.b0 == a.b0 && b.b1 == a.b1 && b.log == a.log && b.slvErr == a.slvErr
    && (b.slvInt ==> a.slvInt)
    && (b.pending ==> a.pending || a.slvInt)
  }

  lemma ArriveIsConserved(a: Io, k: nat)
    requires Ledger(a) && k < 2 && !BankOf(a, k).full
    ensures Ledger(Arrive(a, k))
  {
    var b := Arrive(a, k);
    forall id: nat | id < b.log.count
      ensures id in b.log.read || id in b.log.lost || (b.b0.full && b.b0.id == id) || (b.b1.full && b.b1.id == id)
    {
      assert id < a.log.count || id == a.log.count;
    }
  }

  /** Each interrupt step stays within the rely and conserves messages. */
  lemma InterruptStepIsRelied(a: Io, b: Io, listening: bool, irqOn: bool)
    requires Ledger(a) && InterruptStep(a, b, listening, irqOn)
    ensures Rely(a, b, listening, irqOn) && Ledger(b)
  {
    if k: nat :| CanReceive(a) && k < 2 && !BankOf(a, k).full && b == Arrive(a, k) {
      ArriveIsConserved(a, k);
    }
  }

  lemma RelyIsTransitive(a: Io, b: Io, c: Io, listening: bool, irqOn: bool)
    requires Rely(a, b, listening, irqOn) && Rely(b, c, listening, irqOn)
    ensures Rely(a, c, listening, irqOn)
  {
  }

  /** While the driver listens, no interrupt turns a signalled state into a lost wakeup. */
  lemma RelyKeepsWakeups(a: Io, b: Io, irqOn: bool)
    requires Ledger(a) && NoLostWakeup(a) && Rely(a, b, true, irqOn)
    ensures NoLostWakeup(b)
  {
  }

  /** `run` is a burst of interrupt steps between two register accesses of the driver. */
  ghost predicate Burst(run: seq<Io>, listening: bool, irqOn: bool) {
    |run| > 0 && forall i :: 0 < i < |run| ==> InterruptStep(run[i - 1], run[i], listening, irqOn)
  }

  /** A burst of any length stays within the rely, conserves messages and never loses a wakeup of a listening driver. */
  lemma {:induction false} BurstIsRelied(run: seq<Io>, listening: bool, irqOn: bool)
    requires Burst(run, listening, irqOn) && Ledger(run[0])
    ensures var last := run[|run| - 1];
      && Rely(run[0], last, listening, irqOn) && Ledger(last)
      && (listening && NoLostWakeup(run[0]) ==> NoLostWakeup(last))
  {
    if |run| > 1 {
      var front := run[..|run| - 1];
      BurstIsRelied(front, listening, irqOn);
      var a, b, c := run[0], run[|run| - 2], run[|run| - 1];
      InterruptStepIsRelied(b, c, listening, irqOn);
      RelyIsTransitive(a, b, c, listening, irqOn);
      if listening && NoLostWakeup(a) { RelyKeepsWakeups(a, c, irqOn); }
    }
  }

  lemma BurstIsBurst(run: seq<Io>, listening: bool, irqOn: bool, i: nat, j: nat)
    requires Burst(run, listening, irqOn) && i <= j < |run|
    ensures Burst(run[i..j + 1], listening, irqOn)
  {
    var part := run[i..j + 1];
    forall k | 0 < k < |part|
      ensures InterruptStep(part[k - 1], part[k], listening, irqOn)
    {
      assert InterruptStep(run[i + k - 1], run[i + k], listening, irqOn);
    }
  }

  lemma {:induction false} BurstKeepsLedger(run: seq<Io>, listening: bool, irqOn: bool, i: nat)
    requires Burst(run, listening, irqOn) && Ledger(run[0]) && i < |run|
    ensures Ledger(run[i])
    decreases i
  {
    if i > 0 {
      BurstKeepsLedger(run, listening, irqOn, i - 1);
      assert InterruptStep(run[i - 1], run[i], listening, irqOn);
      InterruptStepIsRelied(run[i - 1], run[i], listening, irqOn);
    }
  }

  /**
   * A status that goes away while the driver is not listening takes the interrupt enable
   * with it for good: a bank nobody drains cannot keep the line up. And no such interrupt
   * wakes the IRQ thread.
   */
  lemma UnheardInterruptsAreMasked(run: seq<Io>, irqOn: bool, i: nat, j: nat, k: nat)
    requires Burst(run, false, irqOn) && Ledger(run[0]) && i <= j <= k < |run|
    ensures run[i].slvInt && !run[j].slvInt ==> !run[k].intr
    ensures (run[k].pending ==> run[0].pending) && (run[k].woken ==> run[0].woken)
  {
    BurstKeepsLedger(run, false, irqOn, i);
    BurstKeepsLedger(run, false, irqOn, j);
    BurstIsBurst(run, false, irqOn, i, j);
    BurstIsRelied(run[i..j + 1], false, irqOn);
    BurstIsBurst(run, false, irqOn, j, k);
    BurstIsRelied(run[j..k + 1], false, irqOn);
    BurstIsBurst(run, false, irqOn, 0, k);
    BurstIsRelied(run[0..k + 1], false, irqOn);
  }

  /** The hard handler takes its own status bit and nothing of anyone else's. */
  lemma HandlerClaimsItsOwn(io: Io, listening: bool)
    ensures var io' := HardHandler(io, listening);
      && !io'.slvInt && io' == io.(slvInt := false, intr := io'.intr, pending := io'.pending, woken := io'.woken)
      && (io' == io <==> !io.slvInt)
      && (io.slvInt ==> if listening then io'.pending && io'.woken && io'.intr == io.intr
                        else !io'.intr && io'.pending == io.pending && io'.woken == io.woken)
  {
  }
}
