/**
 * What each routine of the driver does to the ASF block, as relations between
 * the state on entry and the state on exit, and the lemmas that build them up
 * from single register accesses with interrupts in between.
 */
module AsfEffects {
  import opened AsfHardware

  const DRAIN_MAX: nat := 8
  const NOTIFY_MAX: nat := 2 * DRAIN_MAX
  const XFER_RETRIES: nat := 3

  const EAGAIN := -11
  const ENXIO := -6
  const EBUSY := -16

  /** Firmware state recorded by piix4_asf_enable. */
  datatype Boot = Boot(ctl: Control, intr: bool)

  // ---- Register accesses that decide the fate of messages ------------------------

  /** `b` loses its message if anyone was still to read it: whoever does this answers for it in `lost`. */
  function Drop(log: Log, b: Bank, really: bool): (r: Log)
    ensures r == log.(lost := r.lost) && log.lost <= r.lost
    ensures really ==> !Waiting(b, r)
  {
    if really && Waiting(b, log) then log.(lost := log.lost + {b.id}) else log
  }

  /** Forget every waiting message. */
  function Forfeit(io: Io): (r: Io)
    ensures r == io.(log := io.log.(lost := io.log.lost + Unread(io)))
    ensures Ledger(io) ==> Ledger(r)
    ensures !HasUnread(r)
  {
    io.(log := Drop(Drop(io.log, io.b0, true), io.b1, true))
  }

  /** ASFSLVEN.RST := 1. The reset may or may not clear the full flags; their content is gone either way. */
  function ResetSlave(io: Io, clears: bool): (r: Io)
    ensures Ledger(io) ==> Ledger(r)
    ensures !HasUnread(r)
  {
    var io' := Forfeit(io).(ctl := io.ctl.(rst := true));
    if clears then io'.(b0 := io.b0.(full := false), b1 := io.b1.(full := false)) else io'
  }

  /** piix4_asf_clear_status: acknowledging the status drops the signal of whatever still waits. */
  function ClearStatus(io: Io): Io {
    Forfeit(io).(slvInt := false, slvErr := false)
  }

  /** ASFDATABNKSEL as a byte: two full flags (W1C) among control bits. */
  datatype BnkSel = BnkSel(f0: bool, f1: bool, sel: bool, dataEn: bool, rest: nat) {
    function Apply(c: Control): Control {
      c.(sel := sel, dataEn := dataEn, bnkRest := rest)
    }
  }

  /** Select bank `k` with both flags written as zero. */
  function SelectOf(io: Io, k: nat): BnkSel { InBnkSel(io).(f0 := false, f1 := false, sel := k == 1) }

  /** Acknowledge bank `k` and nothing else. */
  function AckOf(reg: BnkSel, k: nat): BnkSel { if k == 0 then reg.(f0 := true) else reg.(f1 := true) }

  function InBnkSel(io: Io): BnkSel {
    BnkSel(io.b0.full, io.b1.full, io.ctl.sel, io.ctl.dataEn, io.ctl.bnkRest)
  }

  function Acked(b: Bank, ack: bool, clears: bool): Bank {
    if ack && clears then b.(full := false) else b
  }

  /** Writing ASFDATABNKSEL acknowledges each flag written as 1; an acknowledged message nobody has read is lost. */
  function OutBnkSel(io: Io, v: BnkSel, clears: bool): (r: Io)
    ensures Ledger(io) ==> Ledger(r)
    ensures r.log == io.log.(lost := r.log.lost) && io.log.lost <= r.log.lost
    ensures (v.f0 ==> !Waiting(r.b0, r.log)) && (v.f1 ==> !Waiting(r.b1, r.log))
    ensures (v.f0 ==> !Waiting(io.b0, io.log)) && (v.f1 ==> !Waiting(io.b1, io.log)) ==> r.log == io.log
  {
    io.(ctl := v.Apply(io.ctl),
        b0 := Acked(io.b0, v.f0, clears), b1 := Acked(io.b1, v.f1, clears),
        log := Drop(Drop(io.log, io.b0, v.f0), io.b1, v.f1))
  }

  /** The flush after a reception error, which is counted. */
  function Flush(io: Io, v: BnkSel, clears: bool): (r: Io)
    ensures Ledger(io) ==> Ledger(r)
  {
    var io' := OutBnkSel(io, v, clears);
    io'.(log := io'.log.(errors := io.log.errors + 1))
  }

  /** The log after reading bank `k` through ASFINDEX. */
  function MarkRead(io: Io, k: nat): (r: Io)
    ensures Ledger(io) ==> Ledger(r)
    ensures !Waiting(BankOf(r, k), r.log)
  {
    if BankOf(io, k).full then io.(log := io.log.(read := io.log.read + {BankOf(io, k).id})) else io
  }

  /** The same registers up to ASFDATABNKSEL's bank select. */
  predicate SameMode(a: Control, b: Control) {
    b == a.(sel := b.sel)
  }

  /** Nothing but new arrivals. */
  predicate OnlyArrivals(a: Log, b: Log) {
    a.count <= b.count && b == a.(count := b.count)
  }

  /** Message `id` was read, and others may have arrived. */
  predicate Reads(a: Log, b: Log, id: nat) {
    a.count <= b.count && b == a.(count := b.count, read := a.read + {id})
  }

  /** A message is forfeited only by a counted reception error. */
  predicate LogGrows(a: Log, b: Log) {
    && a.count <= b.count && a.read <= b.read && a.lost <= b.lost && a.errors <= b.errors
    && (a.errors == b.errors ==> b.lost == a.lost)
  }

  /** Every Host Notify read between logs `a` and `b` has its device in `n`, unless the list ran full. */
  ghost predicate Noted(traffic: nat -> Message, a: Log, b: Log, n: seq<int>, full: bool) {
    forall id :: id in b.read && id !in a.read && IsHostNotify(traffic(id)) ==> full || Notifier(traffic(id)) in n
  }

  /** A Host Notify read between logs `a` and `b` came from the device `addr`. */
  ghost predicate Heard(traffic: nat -> Message, a: Log, b: Log, addr: int) {
    forall id :: id in b.read && id !in a.read && IsHostNotify(traffic(id)) ==> addr == Notifier(traffic(id))
  }

  /** Which bank piix4_asf_process_bank picks when it sees the flags `f0`, `f1`; -1 for none. */
  function Choice(f0: bool, f1: bool, fallback: bool, prefer: nat): int {
    if f0 && f1 then prefer % 2
    else if f1 then 1
    else if f0 then 0
    else if fallback then 0 else -1
  }

  /** What piix4_asf_process_bank reports for a message: the notifying device, or -1. */
  function Address(m: Message): int {
    if IsHostNotify(m) then Notifier(m) else -1
  }

  /** Some device sends a Host Notify in the name of `addr`. */
  ghost predicate FromDevice(traffic: nat -> Message, addr: int) {
    exists id: nat :: IsHostNotify(traffic(id)) && addr == Notifier(traffic(id))
  }

  ghost predicate AllFromDevices(traffic: nat -> Message, n: seq<int>) {
    forall i :: 0 <= i < |n| ==> FromDevice(traffic, n[i])
  }

  lemma AddressIsFromDevice(traffic: nat -> Message, id: nat, addr: int)
    requires addr == Address(traffic(id)) && addr >= 0
    ensures FromDevice(traffic, addr)
  {
  }

  lemma DevicesJoin(traffic: nat -> Message, n: seq<int>, m: seq<int>)
    requires AllFromDevices(traffic, n) && AllFromDevices(traffic, m)
    ensures AllFromDevices(traffic, n + m)
  {
  }

  lemma OneDevice(traffic: nat -> Message, addr: int)
    ensures AllFromDevices(traffic, [])
    ensures FromDevice(traffic, addr) ==> AllFromDevices(traffic, [addr])
  {
  }

  /** `look` shows at least the flags that were set before. */
  predicate Looked(a: Io, look: BnkSel) {
    (a.b0.full ==> look.f0) && (a.b1.full ==> look.f1)
  }

  // ---- What each driver routine does to the hardware: relations from entry to exit ----

  /** With LISTN clear a drain only takes messages out of banks. */
  predicate Quiet(a: Io, b: Io) {
    && b.log.count == a.log.count
    && (b.b0.full ==> a.b0.full) && (b.b1.full ==> a.b1.full)
    && (Waiting(b.b0, b.log) ==> Waiting(a.b0, a.log)) && (Waiting(b.b1, b.log) ==> Waiting(a.b1, a.log))
    && (b.slvInt ==> a.slvInt) && (b.pending ==> a.pending || a.slvInt)
  }

  predicate Empty(io: Io) { !io.b0.full && !io.b1.full }

  /** Control registers were written; messages may have arrived, none was touched. */
  predicate Steady(a: Io, b: Io, listening: bool) {
    && OnlyArrivals(a.log, b.log) && KeptBank(a.b0, b.b0, a.log.count) && KeptBank(a.b1, b.b1, a.log.count)
    && (b.intr == a.intr || (!listening && !b.intr))
    && (listening && NoLostWakeup(a) ==> NoLostWakeup(b))
    && (!a.ctl.listn && !b.ctl.listn ==> Settled(a, b))
  }

  /** LISTN and INTR went off. */
  predicate Stopped(a: Io, b: Io, listening: bool) {
    && !b.intr && b.ctl == a.ctl.(listn := false)
    && OnlyArrivals(a.log, b.log)
    && (listening && NoLostWakeup(a) ==> NoLostWakeup(b))
    && (!a.ctl.listn ==> Settled(a, b))
  }

  /** With LISTN clear, the slave was put in reset: exactly the waiting messages are forfeited. */
  predicate Reset(a: Io, b: Io) {
    && !HasUnread(b) && !b.slvErr && b.ctl == a.ctl.(rst := true) && (b.intr ==> a.intr)
    && b.log == a.log.(lost := a.log.lost + Unread(a))
    && (b.b0.full ==> a.b0.full) && (b.b1.full ==> a.b1.full)
    && (b.slvInt ==> a.slvInt) && (b.pending ==> a.pending || a.slvInt)
  }

  /** The slave stands in reset with LISTN off and nothing to lose; on some controllers that clears the full flags. */
  predicate StandsReset(io: Io, clears: bool) {
    io.ctl.rst && !io.ctl.listn && !io.slvErr && !HasUnread(io) && (clears ==> Empty(io))
  }

  /** What a bank holds came in after `since`. */
  predicate OnlyNew(io: Io, since: Log) {
    (io.b0.full ==> io.b0.id >= since.count) && (io.b1.full ==> io.b1.id >= since.count)
  }

  /** The controller became a master. A slave that was already deaf forfeits exactly the messages waiting on entry. */
  predicate Mastered(a: Io, b: Io) {
    && MasterReady(b) && !b.intr && !b.slvErr && !HasUnread(b)
    && b.ctl == a.ctl.(listn := false, rst := true, mstrEn := true, dataEn := true)
    && a.log.count <= b.log.count && b.log.read == a.log.read && b.log.errors == a.log.errors && a.log.lost <= b.log.lost
    && (!a.ctl.listn ==>
          && b.log == a.log.(lost := a.log.lost + Unread(a))
          && (b.b0.full ==> a.b0.full) && (b.b1.full ==> a.b1.full)
          && (b.slvInt ==> a.slvInt) && (b.pending ==> a.pending || a.slvInt))
  }

  /** The controller became an armed slave. A slave that was deaf forfeits exactly the messages waiting on entry. */
  predicate Rearmed(a: Io, b: Io) {
    && Armed(b) && NoLostWakeup(b)
    && a.log.count <= b.log.count && b.log.read == a.log.read && b.log.errors == a.log.errors && a.log.lost <= b.log.lost
    && (!a.ctl.listn ==> b.log.lost == a.log.lost + Unread(a))
    && KeptBank(a.b0, b.b0, a.log.count) && KeptBank(a.b1, b.b1, a.log.count)
  }

  /** Both banks were flushed after a reception error. */
  predicate Flushed(a: Io, b: Io, listening: bool, wellBehaved: bool) {
    && SameMode(a.ctl, b.ctl) && LogGrows(a.log, b.log) && (listening ==> b.intr == a.intr)
    && b.log.errors == a.log.errors + 1 && b.log.read == a.log.read
    && !HasUnread(b) && (wellBehaved ==> Empty(b))
    && (!b.ctl.listn ==> Quiet(a, b))
  }

  /** The flagged bank `k` was selected for reading; no flag was acknowledged. */
  predicate Selected(a: Io, m: Io, k: nat, listening: bool) {
    && m.ctl == a.ctl.(sel := k == 1) && (listening ==> m.intr == a.intr)
    && OnlyArrivals(a.log, m.log)
    && (a.b0.full ==> m.b0 == a.b0) && (a.b1.full ==> m.b1 == a.b1) && BankOf(m, k) == BankOf(a, k)
    && (!m.ctl.listn ==> Settled(a, m))
  }

  /** The flagged bank `k` was read and is still flagged. */
  predicate ReadOut(a: Io, c: Io, k: nat, listening: bool) {
    && c.ctl == a.ctl.(sel := k == 1) && (listening ==> c.intr == a.intr)
    && Reads(a.log, c.log, BankOf(a, k).id)
    && BankOf(c, k) == BankOf(a, k) && (a.b0.full ==> c.b0 == a.b0) && (a.b1.full ==> c.b1 == a.b1)
    && (!c.ctl.listn ==> c.b0 == a.b0 && c.b1 == a.b1 && c.log.count == a.log.count
                         && (c.slvInt ==> a.slvInt) && (c.pending ==> a.pending || a.slvInt))
  }

  /** The flagged bank `k` was read and acknowledged; the other bank, if flagged, is untouched. */
  predicate Consumed(a: Io, b: Io, k: nat, listening: bool, wellBehaved: bool) {
    && SameMode(a.ctl, b.ctl) && (listening ==> b.intr == a.intr)
    && Reads(a.log, b.log, BankOf(a, k).id)
    && (k == 1 && a.b0.full ==> b.b0 == a.b0) && (k == 0 && a.b1.full ==> b.b1 == a.b1)
    && !Waiting(BankOf(b, k), b.log) && (wellBehaved ==> !BankOf(b, k).full)
    && (!b.ctl.listn ==> Quiet(a, b))
  }

  /**
   * Bank `bank` was read. A bank that was flagged before is that one, and its message is
   * read; or it is the other one, untouched, and it was not its turn.
   */
  predicate Served(a: Io, b: Io, prefer: nat, bank: int) {
    && (a.b0.full ==> if bank == 0 then a.b0.id in b.log.read else bank == prefer % 2 && b.b0 == a.b0)
    && (a.b1.full ==> if bank == 1 then a.b1.id in b.log.read else bank == prefer % 2 && b.b1 == a.b1)
  }

  /** One call of piix4_asf_process_bank that saw `look`, returned `bank` and reported `addr`. */
  ghost predicate Processed(a: Io, b: Io, traffic: nat -> Message, listening: bool, wellBehaved: bool,
                            fallback: bool, prefer: nat, look: BnkSel, bank: int, addr: int) {
    && SameMode(a.ctl, b.ctl) && LogGrows(a.log, b.log) && (listening ==> b.intr == a.intr)
    && Heard(traffic, a.log, b.log, addr)
    && (bank == 2 <==> b.log.errors != a.log.errors)
    && (bank != 2 ==> Looked(a, look) && bank == Choice(look.f0, look.f1, fallback, prefer))
    && (0 <= bank < 2 ==> Served(a, b, prefer, bank) && !Waiting(BankOf(b, bank), b.log) && (wellBehaved ==> !BankOf(b, bank).full))
    && (bank == 2 ==> !HasUnread(b) && (wellBehaved ==> Empty(b)))
    && (bank == -1 ==> b.log.read == a.log.read && (listening ==> NoLostWakeup(b)))
    && (!b.ctl.listn ==>
          && Quiet(a, b)
          && (bank != 2 ==> look.f0 == a.b0.full && look.f1 == a.b1.full)
          && (bank == -1 ==> Empty(b)))
  }

  /** The status bit and the pending flag were consumed; banks and the rest are as the interrupts left them. */
  predicate Took(a: Io, b: Io, signalled: bool, listening: bool) {
    && b.ctl == a.ctl && (listening ==> b.intr == a.intr) && OnlyArrivals(a.log, b.log)
    && (a.b0.full ==> b.b0 == a.b0) && (a.b1.full ==> b.b1 == a.b1)
    && !b.pending && (b.slvInt ==> b.log.count > a.log.count || b.slvErr)
    && (!a.ctl.listn ==> Settled(a, b) && !b.slvInt && (signalled ==> a.slvInt || a.pending))
  }

  /** One iteration of piix4_asf_drain, from list `n` to `n'`. */
  ghost predicate Stepped(a: Io, b: Io, traffic: nat -> Message, listening: bool, wellBehaved: bool,
                          i: nat, n: seq<int>, n': seq<int>, signalled: bool, bank: int) {
    && SameMode(a.ctl, b.ctl) && LogGrows(a.log, b.log) && (listening ==> b.intr == a.intr)
    && Extends(n, n') && |n'| <= |n| + 1 && Noted(traffic, a.log, b.log, n', |n| == NOTIFY_MAX)
    && -1 <= bank <= 2 && (bank == 2 <==> b.log.errors != a.log.errors)
    && (bank == -1 ==> Empty(a) && n' == n && b.log.read == a.log.read && (listening ==> NoLostWakeup(b)))
    && (0 <= bank < 2 ==> Served(a, b, i, bank) && !Waiting(BankOf(b, bank), b.log) && (wellBehaved ==> !BankOf(b, bank).full))
    && (bank == 2 ==> !HasUnread(b) && (wellBehaved ==> Empty(b)))
    && (!b.ctl.listn ==>
          && Quiet(a, b) && !b.slvInt && !b.pending && (signalled ==> a.slvInt || a.pending)
          && (bank >= 0 && Empty(a) ==> signalled)
          && (bank == -1 ==> Empty(b)))
  }

  /** Messages read since `a` are noted, and none was forfeited but by a counted error. */
  ghost predicate Caught(traffic: nat -> Message, a: Log, b: Log, n: seq<int>, n': seq<int>, full: bool) {
    LogGrows(a, b) && Extends(n, n') && Noted(traffic, a, b, n', full) && (full ==> |n'| == NOTIFY_MAX)
  }

  predicate Extends(n: seq<int>, n': seq<int>) {
    |n| <= |n'| <= NOTIFY_MAX && n'[..|n|] == n
  }

  /** Iteration `i` of a drain read bank `bank`, or flushed both after a reception error. */
  predicate Iterated(a: Io, b: Io, i: nat, bank: int) {
    && LogGrows(a.log, b.log) && 0 <= bank <= 2 && (bank == 2 <==> b.log.errors != a.log.errors)
    && (bank < 2 ==> Served(a, b, i, bank))
  }

  /** The states a drain passed through between its iterations, and the bank it read in each. */
  ghost predicate DrainRun(states: seq<Io>, banks: seq<int>) {
    && |states| == |banks| + 1 && |banks| <= DRAIN_MAX
    && forall i :: 0 <= i < |banks| ==> Iterated(states[i], states[i + 1], i, banks[i])
  }

  /** After its last iteration the drain read nothing more; it stopped early only with no flag up. */
  predicate Concluded(states: seq<Io>, banks: seq<int>, b: Io) {
    && |states| == |banks| + 1
    && LogGrows(states[|banks|].log, b.log)
    && b.log.read == states[|banks|].log.read && b.log.errors == states[|banks|].log.errors
    && (|banks| < DRAIN_MAX ==> Empty(states[|banks|]))
  }

  /** A whole drain. */
  ghost predicate Drained(a: Io, b: Io, traffic: nat -> Message, listening: bool, wellBehaved: bool,
                          n: seq<int>, n': seq<int>, full: bool, wedged: bool) {
    && SameMode(a.ctl, b.ctl) && (listening ==> b.intr == a.intr)
    && Caught(traffic, a.log, b.log, n, n', full) && (full ==> |n| + DRAIN_MAX > NOTIFY_MAX)
    && (!wedged && listening ==> NoLostWakeup(b))
    && (!b.ctl.listn ==> b.log.count == a.log.count && !HasUnread(b))
    && (!b.ctl.listn && wellBehaved ==> !wedged && Empty(b) && |n'| <= |n| + 2 && (full ==> |n| + 2 > NOTIFY_MAX))
  }

  /** How far a drain with LISTN clear has got after `i` iterations. */
  predicate Progress(i: nat, b: Io, wellBehaved: bool) {
    && (i >= 1 ==> !Waiting(b.b0, b.log) && !b.slvInt && !b.pending && (wellBehaved ==> !b.b0.full))
    && (i >= 2 ==> !HasUnread(b) && (wellBehaved ==> Empty(b)))
    && (wellBehaved ==> i <= 2)
  }

  /** Drain invariant after `i` iterations that began in state `a` with list `n`. */
  ghost predicate Draining(a: Io, b: Io, traffic: nat -> Message, listening: bool, wellBehaved: bool,
                           i: nat, n: seq<int>, n': seq<int>, full: bool) {
    && SameMode(a.ctl, b.ctl) && (listening ==> b.intr == a.intr)
    && Caught(traffic, a.log, b.log, n, n', full) && |n'| <= |n| + i && (full ==> |n| + i > NOTIFY_MAX)
    && (!b.ctl.listn ==> b.log.count == a.log.count && Progress(i, b, wellBehaved))
  }

  lemma StepIsDraining(a: Io, m: Io, b: Io, traffic: nat -> Message, listening: bool, wellBehaved: bool, i: nat,
                       n: seq<int>, n': seq<int>, n'': seq<int>, full: bool, signalled: bool, bank: int)
    requires Draining(a, m, traffic, listening, wellBehaved, i, n, n', full) && i < DRAIN_MAX
    requires Stepped(m, b, traffic, listening, wellBehaved, i, n', n'', signalled, bank)
    ensures bank != -1 ==> Draining(a, b, traffic, listening, wellBehaved, i + 1, n, n'', full || |n'| == NOTIFY_MAX)
    ensures bank == -1 ==> Drained(a, b, traffic, listening, wellBehaved, n, n'', full, false) && n'' == n'
    ensures -1 <= bank <= 2 && b.ctl.dataEn == m.ctl.dataEn && |n''| <= NOTIFY_MAX && |n''| <= |n'| + 1
  {
    CaughtGrows(traffic, a.log, m.log, b.log, n, n', n'', full, |n'| == NOTIFY_MAX);
  }

  /** Two stretches of work in a row note what each of them read. */
  lemma CaughtGrows(traffic: nat -> Message, a: Log, m: Log, b: Log,
                    n: seq<int>, n': seq<int>, n'': seq<int>, full: bool, full': bool)
    requires Caught(traffic, a, m, n, n', full) && Caught(traffic, m, b, n', n'', full')
    ensures Caught(traffic, a, b, n, n'', full || full')
    ensures b.read == m.read ==> Caught(traffic, a, b, n, n'', full)
  {
    assert n''[..|n|] == n''[..|n'|][..|n|];
    forall id | id in b.read && id !in a.read && IsHostNotify(traffic(id)) && id in m.read && !full
      ensures Notifier(traffic(id)) in n''
    {
      var j :| 0 <= j < |n'| && n'[j] == Notifier(traffic(id));
      assert n''[..|n'|][j] == n''[j];
    }
  }

  lemma TakeIsTook(a: Io, m: Io, b: Io, sta: bool, listening: bool, irqOn: bool)
    requires Rely(a, m, listening, irqOn) && sta == a.slvInt
    requires Rely(if sta then m.(slvInt := false) else m, b, listening, irqOn)
    ensures Took(a, b.(pending := false), sta || b.pending, listening)
  {
  }

  lemma IdleIsStepped(a: Io, m: Io, b: Io, traffic: nat -> Message, listening: bool, irqOn: bool, wellBehaved: bool,
                      i: nat, n: seq<int>)
    requires Took(a, m, false, listening) && Empty(m) && Rely(m, b, listening, irqOn) && Ledger(m) && |n| <= NOTIFY_MAX
    ensures Stepped(a, b, traffic, listening, wellBehaved, i, n, n, false, -1)
  {
  }

  lemma ProcessIsStepped(a: Io, m: Io, p: Io, b: Io, traffic: nat -> Message, listening: bool, irqOn: bool, wellBehaved: bool,
                         i: nat, n: seq<int>, signalled: bool, look: BnkSel, bank: int, addr: int)
    requires Took(a, m, signalled, listening) && Rely(m, p, listening, irqOn) && (signalled || !Empty(m)) && |n| <= NOTIFY_MAX
    requires Processed(p, b, traffic, listening, wellBehaved, signalled, i, look, bank, addr)
    ensures var n' := if bank >= 0 && addr >= 0 && |n| < NOTIFY_MAX then n + [addr] else n;
      Stepped(a, b, traffic, listening, wellBehaved, i, n, n', signalled, bank)
  {
    var n' := if bank >= 0 && addr >= 0 && |n| < NOTIFY_MAX then n + [addr] else n;
    HeardIsNoted(traffic, a.log, p.log, b.log, n, n', bank, addr);
  }

  lemma HeardIsNoted(traffic: nat -> Message, a: Log, p: Log, b: Log, n: seq<int>, n': seq<int>, bank: int, addr: int)
    requires p.read == a.read && Heard(traffic, p, b, addr) && |n| <= NOTIFY_MAX
    requires bank < 0 ==> b.read == p.read
    requires n' == if bank >= 0 && addr >= 0 && |n| < NOTIFY_MAX then n + [addr] else n
    ensures Noted(traffic, a, b, n', |n| == NOTIFY_MAX)
  {
    if bank >= 0 && addr >= 0 && |n| < NOTIFY_MAX {
      assert n'[|n|] == addr;
    }
  }

  lemma DrainStarts(a: Io, traffic: nat -> Message, listening: bool, wellBehaved: bool, n: seq<int>)
    requires |n| <= NOTIFY_MAX
    ensures Draining(a, a, traffic, listening, wellBehaved, 0, n, n, false)
    ensures DrainRun([a], [])
  {
  }

  lemma StepIsIterated(a: Io, b: Io, traffic: nat -> Message, listening: bool, wellBehaved: bool, i: nat,
                       n: seq<int>, n': seq<int>, signalled: bool, bank: int)
    requires Stepped(a, b, traffic, listening, wellBehaved, i, n, n', signalled, bank)
    ensures bank == -1 ==> Empty(a) && LogGrows(a.log, b.log) && b.log.read == a.log.read && b.log.errors == a.log.errors
    ensures bank != -1 ==> Iterated(a, b, i, bank)
  {
  }

  lemma RunGoesOn(states: seq<Io>, banks: seq<int>, b: Io, bank: int)
    requires DrainRun(states, banks) && |banks| < DRAIN_MAX && Iterated(states[|banks|], b, |banks|, bank)
    ensures DrainRun(states + [b], banks + [bank])
  {
    hide Iterated;
    var states', banks' := states + [b], banks + [bank];
    forall i | 0 <= i < |banks'|
      ensures Iterated(states'[i], states'[i + 1], i, banks'[i])
    {
      if i < |banks| { assert Iterated(states[i], states[i + 1], i, banks[i]); }
    }
  }

  lemma DrainEnds(a: Io, l: Io, m: Io, b: Io, traffic: nat -> Message, listening: bool, irqOn: bool, wellBehaved: bool,
                  n: seq<int>, n': seq<int>, full: bool)
    requires Draining(a, l, traffic, listening, wellBehaved, DRAIN_MAX, n, n', full)
    requires Rely(l, m, listening, irqOn) && Rely(m, b, listening, irqOn) && Ledger(m)
    ensures Drained(a, b, traffic, listening, wellBehaved, n, n', full, !Empty(m)) && (!Empty(m) ==> !Empty(b))
  {
    if listening && Empty(m) { RelyKeepsWakeups(m, b, irqOn); }
  }

  lemma {:induction false} RunGrows(states: seq<Io>, banks: seq<int>, i: nat, j: nat)
    requires DrainRun(states, banks) && i <= j <= |banks|
    ensures LogGrows(states[i].log, states[j].log)
    decreases j
  {
    hide Served;
    if i < j {
      RunGrows(states, banks, i, j - 1);
      assert Iterated(states[j - 1], states[j - 1 + 1], j - 1, banks[j - 1]);
    }
  }

  /** A bank flagged at iteration `i` is read then or in the next one. */
  lemma NextTurn(states: seq<Io>, banks: seq<int>, b: Io, i: nat, k: nat)
    requires DrainRun(states, banks) && Concluded(states, banks, b) && b.log.errors == states[0].log.errors
    requires i <= |banks| && i <= DRAIN_MAX - 2 && k < 2 && BankOf(states[i], k).full
    ensures i < |banks| && (banks[i] == k || (i + 1 < |banks| && banks[i + 1] == k))
    ensures BankOf(states[i], k).id in b.log.read
  {
    hide LogGrows, Served;
    assert i < |banks|;
    TurnTaken(states, banks, b, i);
    assert Iterated(states[i], states[i + 1], i, banks[i]);
    ServedOrKept(states[i], states[i + 1], i, banks[i], k);
    if banks[i] != k {
      assert i + 1 < |banks|;
      TurnTaken(states, banks, b, i + 1);
      assert Iterated(states[i + 1], states[i + 1 + 1], i + 1, banks[i + 1]);
      ServedOrKept(states[i + 1], states[i + 2], i + 1, banks[i + 1], k);
    }
  }

  /** What an iteration read stays read, and no error came in. */
  lemma TurnTaken(states: seq<Io>, banks: seq<int>, b: Io, i: nat)
    requires DrainRun(states, banks) && Concluded(states, banks, b) && b.log.errors == states[0].log.errors && i < |banks|
    ensures banks[i] != 2 && states[i + 1].log.read <= b.log.read
  {
    hide Served;
    RunGrows(states, banks, 0, i);
    RunGrows(states, banks, i + 1, |banks|);
    assert Iterated(states[i], states[i + 1], i, banks[i]);
  }

  lemma ServedOrKept(a: Io, b: Io, i: nat, bank: int, k: nat)
    requires Served(a, b, i, bank) && k < 2 && BankOf(a, k).full && 0 <= bank < 2
    ensures if bank == k then BankOf(a, k).id in b.log.read else bank == i % 2 && BankOf(b, k) == BankOf(a, k)
  {
  }

  lemma DrainConcludes(states: seq<Io>, banks: seq<int>, m: Io, b: Io, listening: bool, irqOn: bool)
    requires |states| == |banks| + 1 && |banks| == DRAIN_MAX
    requires Rely(states[|banks|], m, listening, irqOn) && Rely(m, b, listening, irqOn)
    ensures Concluded(states, banks, b)
  {
  }

  /**
   * Fairness: whatever flags stay stuck and whatever arrives, without a reception error a
   * bank flagged at iteration i <= 6 is read by iteration i + 1, and its message with it.
   * So whatever is in a bank when the drain begins has been read when it ends.
   */
  lemma DrainIsFair(states: seq<Io>, banks: seq<int>, b: Io)
    requires DrainRun(states, banks) && Concluded(states, banks, b) && b.log.errors == states[0].log.errors
    ensures forall i, k :: 0 <= i < |states| && i <= DRAIN_MAX - 2 && 0 <= k < 2 && BankOf(states[i], k).full ==>
              && i < |banks| && (banks[i] == k || (i + 1 < |banks| && banks[i + 1] == k))
              && BankOf(states[i], k).id in b.log.read
    ensures AllRead(states[0], b.log)
  {
    hide DrainRun, Concluded;
    forall i, k | 0 <= i < |states| && i <= DRAIN_MAX - 2 && 0 <= k < 2 && BankOf(states[i], k).full
      ensures i < |banks| && (banks[i] == k || (i + 1 < |banks| && banks[i + 1] == k))
      ensures BankOf(states[i], k).id in b.log.read
    {
      RunSize(states, banks);
      NextTurn(states, banks, b, i, k);
    }
    RunSize(states, banks);
    assert AllRead(states[0], b.log) by {
      assert BankOf(states[0], 0) == states[0].b0 && BankOf(states[0], 1) == states[0].b1;
    }
  }

  lemma RunSize(states: seq<Io>, banks: seq<int>)
    requires DrainRun(states, banks)
    ensures |states| == |banks| + 1
  {
  }

  /** Every message in a flagged bank of `a` has been read by now. */
  predicate AllRead(a: Io, now: Log) {
    (a.b0.full ==> a.b0.id in now.read) && (a.b1.full ==> a.b1.id in now.read)
  }

  lemma WriteIsSteady(a: Io, m: Io, b: Io, c: Control, listening: bool, irqOn: bool)
    requires Ledger(a) && Ledger(m)
    requires Rely(a, m, listening, irqOn) && Rely(m.(ctl := c), b, listening, irqOn)
    ensures b.ctl == c && Steady(a, b, listening)
  {
  }

  lemma RouteIsSteady(a: Io, m: Io, toHost: bool, clears: bool, listening: bool, irqOn: bool)
    requires Ledger(a) && Rely(a, m, listening, irqOn)
    ensures var b := OutBnkSel(m, InBnkSel(a).(f0 := false, f1 := false, dataEn := toHost), clears);
      b.ctl == a.ctl.(dataEn := toHost) && Steady(a, b, listening)
  {
  }

  lemma SteadyTwice(a: Io, b: Io, c: Io, listening: bool)
    requires Steady(a, b, listening) && Steady(b, c, listening) && a.ctl.listn == b.ctl.listn == c.ctl.listn
    ensures Steady(a, c, listening)
  {
  }

  lemma StopIsStopped(a: Io, m: Io, b: Io, listening: bool, irqOn: bool)
    requires Ledger(m) && Steady(a, m, listening) && m.ctl == a.ctl.(listn := false)
    requires Rely(m.(intr := false), b, listening, irqOn)
    ensures Stopped(a, b, listening)
  {
  }

  lemma ResetIsReset(a: Io, m: Io, surely: bool, clears: bool, listening: bool, irqOn: bool)
    requires Rely(a, m, listening, irqOn) && !a.ctl.listn && (surely ==> clears)
    ensures var b := ResetSlave(m, clears).(intr := a.intr, slvErr := false); Reset(a, b) && StandsReset(b, surely)
    ensures Ledger(m) ==> Ledger(ResetSlave(m, clears).(intr := a.intr, slvErr := false))
  {
  }

  lemma MasterIsMastered(a: Io, b: Io, c: Io, d: Io, e: Io, listening: bool)
    requires Stopped(a, b, listening) && Reset(b, c)
    requires Steady(c, d, listening) && d.ctl == c.ctl.(mstrEn := true)
    requires Steady(d, e, listening) && e.ctl == d.ctl.(dataEn := true)
    ensures Mastered(a, e)
  {
  }

  lemma ArmIsRearmed(a: Io, b: Io, c: Io, d: Io, e: Io, f: Io, irqOn: bool)
    requires Ledger(b) && Rely(a, b, true, irqOn)
    requires Steady(ClearStatus(b), c, true) && c.ctl == b.ctl.(dataEn := false)
    requires Steady(c, d, true) && d.ctl == c.ctl.(listn := true, lisAddr := HOST_ADDR)
    requires Steady(d, e, true) && e.ctl == d.ctl.(mstrEn := false, clkEn := true, rst := false)
    requires Ledger(e) && Rely(e.(intr := true), f, true, irqOn)
    ensures Rearmed(a, f)
  {
  }

  /** The flush by itself: both banks, nothing else. */
  lemma FlushTakesBoth(m: Io, v: BnkSel, clears: bool)
    requires v.f0 && v.f1
    ensures var b := Flush(m, v, clears);
      && b == m.(ctl := v.Apply(m.ctl), b0 := b.b0, b1 := b.b1, log := m.log.(lost := b.log.lost, errors := m.log.errors + 1))
      && m.log.lost <= b.log.lost && !HasUnread(b)
      && b.b0 == Acked(m.b0, true, clears) && b.b1 == Acked(m.b1, true, clears)
  {
  }

  lemma FlushIsFlushed(a: Io, m: Io, clears: bool, listening: bool, irqOn: bool, wellBehaved: bool)
    requires Rely(a, m, listening, irqOn) && (wellBehaved ==> clears)
    ensures Flushed(a, Flush(m, InBnkSel(a).(f0 := true, f1 := true), clears), listening, wellBehaved)
  {
    hide Flush;
    FlushTakesBoth(m, InBnkSel(a).(f0 := true, f1 := true), clears);
  }

  lemma SelectIsSelected(a: Io, m: Io, k: nat, clears: bool, listening: bool, irqOn: bool)
    requires k < 2 && BankOf(a, k).full
    requires Rely(OutBnkSel(a, SelectOf(a, k), clears), m, listening, irqOn)
    ensures Selected(a, m, k, listening)
  {
  }

  lemma ReadIsReadOut(a: Io, m: Io, c: Io, k: nat, listening: bool, irqOn: bool)
    requires k < 2 && BankOf(a, k).full
    requires Selected(a, m, k, listening) && Rely(MarkRead(m, k), c, listening, irqOn)
    ensures ReadOut(a, c, k, listening)
  {
  }

  lemma AckIsConsumed(a: Io, c: Io, k: nat, clears: bool, listening: bool, wellBehaved: bool)
    requires k < 2 && BankOf(a, k).full && (wellBehaved ==> clears) && ReadOut(a, c, k, listening)
    ensures Consumed(a, OutBnkSel(c, AckOf(SelectOf(a, k), k), clears), k, listening, wellBehaved)
  {
    hide Drop;
  }

  lemma ConsumedIsHeard(a: Io, b: Io, k: nat, traffic: nat -> Message, addr: int, listening: bool, wellBehaved: bool)
    requires k < 2 && Consumed(a, b, k, listening, wellBehaved)
    requires addr == Address(traffic(BankOf(a, k).id))
    ensures Heard(traffic, a.log, b.log, addr)
  {
  }

  lemma FlushIsProcessed(a: Io, b: Io, traffic: nat -> Message, listening: bool, wellBehaved: bool,
                         fallback: bool, prefer: nat, look: BnkSel)
    requires Flushed(a, b, listening, wellBehaved)
    ensures Processed(a, b, traffic, listening, wellBehaved, fallback, prefer, look, 2, -1)
  {
  }

  lemma NothingIsProcessed(a: Io, m: Io, b: Io, traffic: nat -> Message, listening: bool, irqOn: bool, wellBehaved: bool,
                           fallback: bool, prefer: nat)
    requires Ledger(m) && Rely(a, m, listening, irqOn) && Rely(m, b, listening, irqOn)
    requires Choice(m.b0.full, m.b1.full, fallback, prefer) == -1
    ensures Processed(a, b, traffic, listening, wellBehaved, fallback, prefer, InBnkSel(m), -1, -1)
  {
  }

  lemma ConsumeIsProcessed(a: Io, m: Io, b: Io, traffic: nat -> Message, listening: bool, irqOn: bool, wellBehaved: bool,
                           fallback: bool, prefer: nat, k: nat, addr: int)
    requires Rely(a, m, listening, irqOn) && k < 2
    requires Choice(m.b0.full, m.b1.full, fallback, prefer) == k
    requires Consumed(m, b, k, listening, wellBehaved) && Heard(traffic, m.log, b.log, addr)
    ensures Processed(a, b, traffic, listening, wellBehaved, fallback, prefer, InBnkSel(m), k, addr)
  {
  }

  /** Reading and acknowledging an unflagged bank changes nothing but the bank select. */
  lemma FallbackIsHarmless(a: Io, clears: bool)
    requires Empty(a)
    ensures var reg := InBnkSel(a).(sel := false);
      var m := OutBnkSel(a, reg, clears);
      var b := OutBnkSel(m, AckOf(reg, 0), clears);
      && !m.ctl.sel && m.ctl.dataEn == a.ctl.dataEn && m.b0 == a.b0
      && b == a.(ctl := b.ctl) && SameMode(a.ctl, b.ctl)
  {
  }

  lemma FallbackIsProcessed(a: Io, m: Io, b: Io, traffic: nat -> Message, listening: bool, irqOn: bool, wellBehaved: bool,
                            fallback: bool, prefer: nat, addr: int)
    requires Rely(a, m, listening, irqOn) && Empty(m)
    requires Choice(m.b0.full, m.b1.full, fallback, prefer) == 0
    requires b == m.(ctl := b.ctl) && SameMode(m.ctl, b.ctl)
    ensures Processed(a, b, traffic, listening, wellBehaved, fallback, prefer, InBnkSel(m), 0, addr)
  {
  }

  // ---- Whole transfers ---------------------------------------------------------

  /** The slave accepts nothing and no message waits. */
  predicate Deaf(io: Io) {
    !io.ctl.listn && !HasUnread(io)
  }

  predicate Retryable(result: int) { result == EAGAIN || result == ENXIO }

  /** A call of piix4_access: its result, and the notify list and the log as they were then. */
  datatype Access = Access(result: int, noted: seq<int>, log: Log)

  predicate Retried(result: int, caught: seq<int>, want: bool, addr: int) {
    want && (result == EAGAIN || (result == ENXIO && addr in caught))
  }

  /** The list when the yield after the i-th attempt was over. */
  function After(made: seq<Access>, n: seq<int>, i: nat): seq<int> {
    if i + 1 < |made| then made[i + 1].noted else n
  }

  /** The yield after the i-th attempt caught what justified going on. */
  predicate WentOn(made: seq<Access>, n: seq<int>, i: nat, want: bool, addr: int)
    requires i < |made|
  {
    && Extends(made[i].noted, After(made, n, i))
    && Retried(made[i].result, After(made, n, i)[|made[i].noted|..], want, addr)
  }

  /** Every attempt so far was to be followed by another. */
  ghost predicate Tried(made: seq<Access>, n: seq<int>, want: bool, addr: int) {
    forall i :: 0 <= i < |made| ==> WentOn(made, n, i, want, addr)
  }

  /**
   * The attempts of a transfer that ends with the list `n`: at most 1 + XFER_RETRIES, each
   * but the last followed by a yield that justified a retry: of a lost bus always, of a
   * NAK only after catching the addressed device. The last one was final at once, or its
   * yield was in vain.
   */
  ghost predicate Attempts(made: seq<Access>, n: seq<int>, want: bool, addr: int) {
    && 1 <= |made| <= XFER_RETRIES + 1
    && var last := made[|made| - 1];
       && Tried(made[..|made| - 1], last.noted, want, addr)
       && Extends(last.noted, n)
       && if Retryable(last.result) && want && |made| <= XFER_RETRIES
          then last.result == ENXIO && addr !in n[|last.noted|..]
          else n == last.noted
  }

  /** Whether the driver listens for a moment after the i-th attempt. */
  predicate Yields(made: seq<Access>, i: nat, want: bool)
    requires i < |made|
  {
    Retryable(made[i].result) && want && i < XFER_RETRIES
  }

  /** A listening window on an armed slave, whose messages had all been read by the time of `now`. */
  ghost predicate Heeded(window: Io, now: Log) {
    Armed(window) && LogGrows(window.log, now) && (now.errors == window.log.errors ==> EveryRead(window.log, now))
  }

  /** The log when the next attempt after the i-th was issued, or at the end. */
  function LogAfter(made: seq<Access>, end: Log, i: nat): Log {
    if i + 1 < |made| then made[i + 1].log else end
  }

  /**
   * Every attempt that asks for a yield is followed by a window in which the armed slave
   * listens, and whatever arrived by the end of it is read before the next attempt.
   */
  ghost predicate Windowed(made: seq<Access>, windows: seq<Io>, end: Log, want: bool) {
    && |windows| <= |made| <= |windows| + 1
    && (forall i :: 0 <= i < |made| ==> (i < |windows| <==> Yields(made, i, want)))
    && (forall i :: 0 <= i < |windows| ==> Heeded(windows[i], LogAfter(made, end, i)))
  }

  /** So far every attempt has had its window. */
  ghost predicate AllWindowed(made: seq<Access>, windows: seq<Io>, end: Log, want: bool) {
    |windows| == |made| && Windowed(made, windows, end, want)
  }

  lemma NothingWindowed(end: Log, want: bool)
    ensures AllWindowed([], [], end, want)
  {
  }

  /** The next attempt is issued at once, and is final. */
  lemma LastAttempt(made: seq<Access>, windows: seq<Io>, last: Access, end: Log, want: bool)
    requires AllWindowed(made, windows, last.log, want) && !Yields(made + [last], |made|, want)
    ensures Windowed(made + [last], windows, end, want)
  {
    hide Heeded;
    var made' := made + [last];
    forall i | 0 <= i < |windows|
      ensures Heeded(windows[i], LogAfter(made', end, i)) && Yields(made', i, want)
    {
      assert Heeded(windows[i], LogAfter(made, last.log, i)) && Yields(made, i, want);
    }
  }

  /** The next attempt is followed by a window. */
  lemma OneMoreWindow(made: seq<Access>, windows: seq<Io>, last: Access, window: Io, end: Log, want: bool)
    requires AllWindowed(made, windows, last.log, want) && Yields(made + [last], |made|, want) && Heeded(window, end)
    ensures AllWindowed(made + [last], windows + [window], end, want)
  {
    hide Heeded;
    var made', windows' := made + [last], windows + [window];
    forall i | 0 <= i < |windows'|
      ensures Heeded(windows'[i], LogAfter(made', end, i)) && Yields(made', i, want)
    {
      if i < |windows| { assert Heeded(windows[i], LogAfter(made, last.log, i)) && Yields(made, i, want); }
    }
  }

  lemma NoWindowsYet(made: seq<Access>, windows: seq<Io>, end: Log, later: Log, want: bool)
    requires made == [] && windows == []
    ensures AllWindowed(made, windows, later, want)
  {
  }

  lemma AllIsWindowed(made: seq<Access>, windows: seq<Io>, end: Log, want: bool)
    requires AllWindowed(made, windows, end, want)
    ensures Windowed(made, windows, end, want)
  {
  }

  lemma DeafIsMastered(a: Io, b: Io)
    requires Deaf(a) && Mastered(a, b)
    ensures b.log == a.log
  {
  }

  lemma HeededStays(window: Io, now: Log, later: Log)
    requires Heeded(window, now) && OnlyArrivals(now, later)
    ensures Heeded(window, later)
  {
  }

  /** Re-arming at the end takes nothing back. */
  lemma WindowsStay(made: seq<Access>, windows: seq<Io>, end: Log, later: Log, want: bool)
    requires Windowed(made, windows, end, want) && OnlyArrivals(end, later)
    ensures Windowed(made, windows, later, want)
  {
    hide Heeded, Yields;
    forall i | 0 <= i < |windows|
      ensures Heeded(windows[i], LogAfter(made, later, i))
    {
      assert Heeded(windows[i], LogAfter(made, end, i));
      if i + 1 >= |made| { HeededStays(windows[i], end, later); }
    }
  }

  /** A drain behind closed doors heeds the window before it. */
  lemma DrainHeeds(window: Io, d: Io, e: Io)
    requires Armed(window) && OnlyArrivals(window.log, d.log) && LogGrows(d.log, e.log) && Ledger(e) && Deaf(e)
    ensures Heeded(window, e.log)
  {
    if e.log.errors == window.log.errors { DeafMeansRead(window.log, e); }
  }

  lemma TriedOnceMore(made: seq<Access>, last: Access, n: seq<int>, want: bool, addr: int)
    requires Tried(made, last.noted, want, addr) && Extends(last.noted, n) && Retried(last.result, n[|last.noted|..], want, addr)
    ensures Tried(made + [last], n, want, addr)
  {
    hide Retried, Extends;
    var made' := made + [last];
    forall i | 0 <= i < |made'|
      ensures WentOn(made', n, i, want, addr)
    {
      if i < |made| { assert WentOn(made, last.noted, i, want, addr); }
    }
  }

  lemma AttemptsAreFew(made: seq<Access>, n: seq<int>, want: bool, addr: int)
    requires made != [] ==> Attempts(made, n, want, addr)
    ensures |made| <= XFER_RETRIES + 1
  {
  }

  lemma NothingTried(n: seq<int>, want: bool, addr: int)
    ensures Tried([], n, want, addr)
  {
  }

  lemma ExtendsItself(n: seq<int>)
    requires |n| <= NOTIFY_MAX
    ensures Extends(n, n)
  {
  }

  lemma ExtendsLonger(n: seq<int>, n': seq<int>)
    requires Extends(n, n')
    ensures |n| <= |n'| <= NOTIFY_MAX
  {
  }

  lemma AttemptsEnd(made: seq<Access>, last: Access, n: seq<int>, want: bool, addr: int)
    requires Tried(made, last.noted, want, addr) && |made| <= XFER_RETRIES && Extends(last.noted, n)
    requires if Retryable(last.result) && want && |made| < XFER_RETRIES
             then last.result == ENXIO && addr !in n[|last.noted|..] else n == last.noted
    ensures Attempts(made + [last], n, want, addr)
  {
    hide Tried, Extends;
    assert (made + [last])[..|made|] == made;
  }

  /** The log once a slave that is deaf already has been reset: exactly what waits is forfeited. */
  function Doomed(io: Io): Log {
    io.log.(lost := io.log.lost + Unread(io))
  }

  lemma MasterDooms(a: Io, b: Io, c: Io, listening: bool, irqOn: bool)
    requires Mastered(a, b) && Rely(b, c, listening, irqOn)
    ensures Deaf(c) && MasterReady(c) && c.log.read == a.log.read
    ensures !a.ctl.listn ==> c.log == Doomed(a) && (Empty(a) ==> Empty(c))
  {
  }

  lemma DeafIsNotDoomed(a: Io)
    requires Deaf(a)
    ensures Doomed(a) == a.log
  {
  }

  lemma DrainIsCaught(a: Io, d: Io, e: Io, traffic: nat -> Message, listening: bool, wellBehaved: bool,
                      n: seq<int>, n': seq<int>, full: bool, wedged: bool)
    requires OnlyArrivals(a.log, d.log) && !d.ctl.listn
    requires Drained(d, e, traffic, listening, wellBehaved, n, n', full, wedged)
    ensures Deaf(e) && SameMode(d.ctl, e.ctl) && Caught(traffic, a.log, e.log, n, n', full) && |n'| <= NOTIFY_MAX
    ensures Extends(n, n')
    ensures wellBehaved ==> Empty(e) && |n'| <= |n| + 2 && (full ==> |n| + 2 > NOTIFY_MAX)
  {
  }

  lemma DrainGrowsLog(d: Io, e: Io, traffic: nat -> Message, listening: bool, wellBehaved: bool,
                      n: seq<int>, n': seq<int>, full: bool, wedged: bool)
    requires Drained(d, e, traffic, listening, wellBehaved, n, n', full, wedged)
    ensures LogGrows(d.log, e.log)
  {
  }

  lemma YieldIsArmed(a: Io, b: Io, c: Io, d: Io, irqOn: bool)
    requires Deaf(a) && Rearmed(a, b) && Rely(b, c, true, irqOn) && Stopped(c, d, true)
    ensures OnlyArrivals(a.log, d.log) && OnlyArrivals(c.log, d.log) && !d.ctl.listn && !d.ctl.dataEn && Armed(c)
  {
  }

  lemma MasteredIsReady(a: Io, b: Io)
    requires Mastered(a, b)
    ensures MasterReady(b) && Deaf(b) && !b.intr && b.log.read == a.log.read
  {
  }

  lemma NothingRead(traffic: nat -> Message, a: Log, b: Log)
    requires b.read == a.read
    ensures Noted(traffic, a, b, [], false)
  {
  }

  /** Whatever a transfer read is in the list, unless that is full. */
  lemma TransferIsNoted(traffic: nat -> Message, a: Log, d: Log, base: Log, f: Log, g: Log,
                        n: seq<int>, n': seq<int>, full: bool, full': bool)
    requires Caught(traffic, a, d, [], n, full) && base.read == d.read
    requires Caught(traffic, base, f, n, n', full') && OnlyArrivals(f, g)
    ensures Noted(traffic, a, g, n', full || full') && (full || full' ==> |n'| == NOTIFY_MAX)
  {
    forall id | id in g.read && id !in a.read && IsHostNotify(traffic(id)) && id in d.read && !full
      ensures Notifier(traffic(id)) in n'
    {
      var j :| 0 <= j < |n| && n[j] == Notifier(traffic(id));
      assert n'[..|n|][j] == n'[j];
    }
  }

  lemma CaughtLosesNothing(traffic: nat -> Message, a: Log, b: Log, n: seq<int>, n': seq<int>, full: bool)
    requires Caught(traffic, a, b, n, n', full)
    ensures (full ==> |n'| == NOTIFY_MAX) && (b.errors == a.errors ==> b.lost == a.lost)
  {
  }

  lemma CaughtStarts(traffic: nat -> Message, a: Log, n: seq<int>)
    requires |n| <= NOTIFY_MAX
    ensures Caught(traffic, a, a, n, n, false)
  {
  }

  lemma YieldIsCaught(traffic: nat -> Message, a: Log, m: Log, b: Log,
                      n: seq<int>, n': seq<int>, n'': seq<int>, full: bool, full': bool)
    requires Caught(traffic, a, m, n, n', full) && Caught(traffic, m, b, n', n'', full')
    ensures Caught(traffic, a, b, n, n'', full || full') && |n'| <= |n''| <= NOTIFY_MAX && Extends(n, n'')
  {
    CaughtGrows(traffic, a, m, b, n, n', n'', full, full');
  }

  /** Every message acknowledged by the time of `a` and not forfeited by then has been read by now. */
  ghost predicate EveryRead(a: Log, now: Log) {
    forall id :: 0 <= id < a.count && id !in a.lost ==> id in now.read
  }

  /** Reading out both banks leaves no message of before unread. */
  lemma BanksAreAll(a: Io, now: Log)
    requires Ledger(a) && AllRead(a, now) && a.log.read <= now.read
    ensures EveryRead(a.log, now)
  {
  }

  lemma EveryReadStays(a: Log, m: Log, b: Log)
    requires EveryRead(a, m) && m.read <= b.read
    ensures EveryRead(a, b)
  {
  }

  /** When the slave is deaf and no error was counted, every message ever ACKed was read, but for those forfeited before. */
  lemma DeafMeansRead(a: Log, b: Io)
    requires Ledger(b) && Deaf(b) && LogGrows(a, b.log) && b.log.errors == a.errors
    ensures EveryRead(a, b.log)
  {
  }

  lemma RearmKeepsLog(a: Io, b: Io)
    requires Deaf(a) && Rearmed(a, b)
    ensures OnlyArrivals(a.log, b.log) && Armed(b) && NoLostWakeup(b)
  {
  }

  lemma ArrivalsAreCaught(traffic: nat -> Message, a: Log, b: Log, c: Log, d: Log, n: seq<int>, n': seq<int>, full: bool)
    requires OnlyArrivals(a, b) && Caught(traffic, b, c, n, n', full) && OnlyArrivals(c, d)
    ensures Caught(traffic, a, d, n, n', full)
  {
  }

  /** Every Host Notify read from `a` to `b` has been handed to the adapter. */
  ghost predicate Told(traffic: nat -> Message, a: Log, b: Log, before: seq<int>, after: seq<int>) {
    |before| <= |after| && after[..|before|] == before && Noted(traffic, a, b, after[|before|..], false)
  }

  lemma NothingToTell(traffic: nat -> Message, a: Log, b: Log, delivered: seq<int>)
    requires b.read == a.read
    ensures Told(traffic, a, b, delivered, delivered)
  {
  }

  lemma NotedIsTold(traffic: nat -> Message, a: Log, b: Log, delivered: seq<int>, n: seq<int>)
    requires Noted(traffic, a, b, n, false)
    ensures Told(traffic, a, b, delivered, delivered + n)
  {
    assert (delivered + n)[|delivered|..] == n;
  }

  lemma ToldGrows(traffic: nat -> Message, a: Log, m: Log, b: Log, x: seq<int>, y: seq<int>, z: seq<int>)
    requires Told(traffic, a, m, x, y) && Told(traffic, m, b, y, z)
    ensures Told(traffic, a, b, x, z)
  {
    assert z[..|x|] == z[..|y|][..|x|];
    assert z[|x|..] == y[|x|..] + z[|y|..];
  }

  /** Together: everything read, and everything read reported. */
  lemma WaitingIsReported(traffic: nat -> Message, a: Log, base: Log, b: Log, n: seq<int>)
    requires Noted(traffic, a, b, n, false) && EveryRead(base, b) && base.count == a.count
    ensures forall id :: 0 <= id < a.count && id !in base.lost && id !in a.read && IsHostNotify(traffic(id)) ==>
              Notifier(traffic(id)) in n
  {
  }

  lemma MaskIsMasked(a: Io, b: Io, c: Io, irqOn: bool)
    requires Rely(a, b, true, irqOn) && Rely(b.(intr := false), c, true, irqOn)
    ensures c.ctl == a.ctl && OnlyArrivals(a.log, c.log) && !c.intr
    ensures (a.b0.full ==> c.b0 == a.b0) && (a.b1.full ==> c.b1 == a.b1)
  {
  }

  lemma DrainKeepsMode(a: Io, b: Io, traffic: nat -> Message, listening: bool, wellBehaved: bool,
                       n: seq<int>, n': seq<int>, full: bool, wedged: bool)
    requires Drained(a, b, traffic, listening, wellBehaved, n, n', full, wedged)
    ensures SameMode(a.ctl, b.ctl) && Caught(traffic, a.log, b.log, n, n', full) && |n'| <= NOTIFY_MAX
    ensures listening ==> b.intr == a.intr
    ensures full ==> |n| + DRAIN_MAX > NOTIFY_MAX
    ensures !wedged && listening ==> NoLostWakeup(b)
  {
  }

  /** A stuck bank: deaf, drained once more, reset and armed again. */
  lemma WedgeIsCaught(traffic: nat -> Message, e: Log, g: Io, h: Io, k: Io, n: seq<int>, n': seq<int>, full: bool)
    requires Ledger(g) && Deaf(g) && Caught(traffic, e, g.log, n, n', full) && Reset(g, h) && Rearmed(h, k)
    ensures Caught(traffic, e, k.log, n, n', full) && Armed(k) && NoLostWakeup(k)
    ensures Empty(h) ==> OnlyNew(k, h.log)
    ensures k.log.errors == e.errors ==> EveryRead(e, k.log)
  {
    if g.log.errors == e.errors { DeafMeansRead(e, g); }
  }

  /** Everything of before was read, everything read was noted, and nothing was lost but by a reception error. */
  ghost predicate Handled(traffic: nat -> Message, since: Log, now: Log, n: seq<int>) {
    Caught(traffic, since, now, [], n, false) && (now.errors == since.errors ==> EveryRead(since, now))
  }

  lemma MaskedIsHandled(traffic: nat -> Message, a: Io, c: Io, b: Log, n: seq<int>)
    requires Ledger(a) && OnlyArrivals(a.log, c.log) && (a.b0.full ==> c.b0 == a.b0) && (a.b1.full ==> c.b1 == a.b1)
    requires Caught(traffic, c.log, b, [], n, false) && (b.errors == c.log.errors ==> AllRead(c, b))
    ensures Handled(traffic, a.log, b, n)
  {
    ArrivalsAreCaught(traffic, a.log, c.log, b, b, [], n, false);
    if b.errors == a.log.errors { BanksAreAll(a, b); }
  }

  lemma HandledGrows(traffic: nat -> Message, since: Log, d: Log, now: Log, n: seq<int>, n': seq<int>)
    requires Handled(traffic, since, d, n) && Caught(traffic, d, now, n, n', false)
    ensures Handled(traffic, since, now, n')
  {
    YieldIsCaught(traffic, since, d, now, [], n, n', false, false);
    if now.errors == since.errors { EveryReadStays(since, d, now); }
  }

  lemma HandledIsRead(traffic: nat -> Message, since: Log, now: Log, n: seq<int>)
    requires Handled(traffic, since, now, n) && now.errors == since.errors
    ensures EveryRead(since, now)
  {
  }

  lemma HandledIsShort(traffic: nat -> Message, since: Log, now: Log, n: seq<int>)
    requires Handled(traffic, since, now, n)
    ensures |n| <= NOTIFY_MAX
  {
  }

  lemma HandledIsTold(traffic: nat -> Message, since: Log, now: Log, delivered: seq<int>, n: seq<int>)
    requires Handled(traffic, since, now, n)
    ensures Told(traffic, since, now, delivered, delivered + n)
  {
    NotedIsTold(traffic, since, now, delivered, n);
  }

  lemma QuietIsCaught(traffic: nat -> Message, a: Log, b: Log, n: seq<int>)
    requires OnlyArrivals(a, b) && |n| <= NOTIFY_MAX
    ensures Caught(traffic, a, b, n, n, false)
  {
  }

  lemma StoppedIsSilent(a: Io, b: Io, listening: bool)
    requires Stopped(a, b, listening)
    ensures b.ctl == a.ctl.(listn := false) && OnlyArrivals(a.log, b.log)
  {
  }

  /** A drain, the attempts and re-arming together: from the log `a` nothing more is lost, and all is read. */
  lemma TransferIsCaught(traffic: nat -> Message, a: Log, e: Log, f: Io, g: Log,
                         n: seq<int>, n': seq<int>, full: bool, full': bool)
    requires Caught(traffic, a, e, [], n, full) && Caught(traffic, e, f.log, n, n', full')
    requires Ledger(f) && Deaf(f) && OnlyArrivals(f.log, g)
    ensures Caught(traffic, a, g, [], n', full || full')
    ensures g.errors == a.errors ==> EveryRead(a, g)
  {
    YieldIsCaught(traffic, a, e, f.log, [], n, n', full, full');
    if g.errors == a.errors { DeafMeansRead(a, f); }
  }

  lemma Unmasked(a: Io, b: Io)
    requires b == a.(intr := true)
    ensures NoLostWakeup(a) ==> NoLostWakeup(b)
  {
  }

  // ---- Life cycle ----------------------------------------------------------------

  /** Host Notify went off: whatever waited is forfeited, what was read stays read. */
  predicate Quiesced(a: Io, b: Io) {
    && Deaf(b) && b.ctl == a.ctl.(listn := false, rst := true) && !b.intr && !b.slvInt && !b.slvErr && !b.pending
    && b.log.read == a.log.read && b.log.errors == a.log.errors && a.log.lost <= b.log.lost && a.log.count <= b.log.count
    && (!a.ctl.listn ==> b.log == a.log.(lost := a.log.lost + Unread(a)))
  }

  lemma QuiesceIsQuiesced(a: Io, b: Io, c: Io, d: Io, e: Io, f: Io, listening: bool, irqOn: bool)
    requires Stopped(a, b, listening) && Reset(b, c) && Rely(c, d, listening, irqOn)
    requires Rely(ClearStatus(d), e, false, irqOn) && Rely(e.(pending := false), f, false, irqOn)
    ensures Quiesced(a, f)
  {
  }

  /** No status, no error, nothing unread. */
  predicate Clear(io: Io) {
    !io.slvInt && !io.slvErr && !HasUnread(io)
  }

  lemma ClearedIsClear(io: Io)
    ensures Clear(ClearStatus(io)) && ClearStatus(io).ctl == io.ctl && ClearStatus(io).intr == io.intr
    ensures Ledger(io) ==> Ledger(ClearStatus(io))
  {
  }

  lemma StillClear(a: Io, b: Io)
    requires b == a.(ctl := b.ctl, intr := b.intr)
    ensures Clear(a) ==> Clear(b)
  {
  }

  /** Without an IRQ the interrupt side leaves the control registers, and with LISTN clear a cleared status too. */
  lemma RelyKeepsClear(a: Io, b: Io, listening: bool)
    requires Rely(a, b, listening, false)
    ensures b.ctl == a.ctl && b.intr == a.intr && (!a.ctl.listn && Clear(a) ==> Clear(b))
  {
  }

  lemma QuiescedIsDeaf(a: Io, b: Io)
    requires Quiesced(a, b)
    ensures Deaf(b) && !b.intr && b.log.read == a.log.read && b.ctl == a.ctl.(listn := false, rst := true)
  {
  }

  lemma RearmedIsArmed(a: Io, b: Io)
    requires Rearmed(a, b)
    ensures Armed(b) && NoLostWakeup(b) && b.log.read == a.log.read
  {
  }

  /**
   * What firmware leaves behind: any control bits, any status, any full flags. What waited
   * is forfeited, and what a flagged bank now holds counts as forfeited from the start.
   */
  function Garbled(io: Io, c: Control, intr: bool, slvInt: bool, slvErr: bool, f0: bool, f1: bool): (r: Io)
    ensures Ledger(io) ==> Ledger(r)
    ensures !HasUnread(r) && r.log.read == io.log.read
  {
    var n := io.log.count;
    Forfeit(io).(ctl := c, intr := intr, slvInt := slvInt, slvErr := slvErr, b0 := Bank(f0, n), b1 := Bank(f1, n + 1),
                 log := Forfeit(io).log.(count := n + 2, lost := Forfeit(io).log.lost + {n, n + 1}))
  }
}
