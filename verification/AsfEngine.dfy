/**
 * The driver side of ASF Host Notify: the sections of code that run under
 * piix4_asf_mutex, with the interrupt side allowed to act between any two
 * register accesses.
 */
module AsfEngine {
  import opened AsfHardware
  import opened AsfEffects

  datatype Event =
    | Xfer(addr: int) | Interrupts | IrqWork | StartCall | StopCall | SuspendCall | ResumeCall
    | Firmware(c: Control, intr: bool, slvInt: bool, slvErr: bool, f0: bool, f1: bool)

  datatype IrqOutcome =
    | NotListening
    | Clean        // drained, interrupt enabled again
    | SlaveReset   // a bank was stuck: slave reset and re-armed
    | Abandoned    // a bank was stuck and the PM region busy: listening until the next transfer re-arms

  class Piix4Asf {
    var active: bool
    var irqRequested: bool
    var gsiRegistered: bool
    var wantListen: bool
    var resumeListen: bool
    var listening: bool
    var boot: Boot
    var deliverOk: bool
    var delivered: seq<int>       // what i2c_handle_smbus_host_notify was called with

    const traffic: nat -> Message // the messages devices send the Host, in order
    var io: Io                    // shared with the interrupt side
    const wellBehaved: bool       // full flags always clear when written with 1
    const resetClears: bool       // and when the slave is reset

    // Kernel resources as the kernel sees them
    var pmHeld: bool
    var gsiHeld: bool
    var regionHeld: bool
    var irqHeld: bool

    var asleep: bool              // between the suspend and the resume callback
    ghost var accesses: seq<Access>   // every call of piix4_access so far
    ghost var windows: seq<Io>        // the end of every wait with the slave armed so far
    ghost var resets: seq<Io>         // every passage of the slave through reset so far
    ghost var pmAsked: nat        // requests for the PM region so far
    ghost var pmGot: bool         // and the answer to the last one
    ghost var tampered: bool      // firmware changed registers and the driver has not rewritten them

    constructor (initial: Io, wellBehaved: bool, resetClears: bool, traffic: nat -> Message)
      requires Ledger(initial)
      ensures Inv() && !active && io == initial && this.traffic == traffic
      ensures this.wellBehaved == wellBehaved && this.resetClears == resetClears
    {
      active, irqRequested, gsiRegistered := false, false, false;
      wantListen, resumeListen, listening := false, false, false;
      boot := Boot(initial.ctl, initial.intr);
      deliverOk, delivered := false, [];
      io, this.wellBehaved, this.resetClears, this.traffic := initial, wellBehaved, resetClears, traffic;
      pmHeld, gsiHeld, regionHeld, irqHeld := false, false, false, false;
      asleep, accesses, windows, resets := false, [], [], [];
      pmAsked, pmGot, tampered := 0, false, false;
    }

    /** What holds whenever piix4_asf_mutex is free. */
    ghost predicate Inv()
      reads this
    {
      && Ledger(io) && !pmHeld && irqHeld == irqRequested
      && (listening ==> active && wantListen && !tampered && Armed(io) && NoLostWakeup(io))
      && (active && !listening && !tampered ==> !io.ctl.listn)
      && (wantListen ==> active && irqRequested && !asleep)
      && (active && asleep && resumeListen ==> irqRequested)
      && gsiHeld == gsiRegistered == active && regionHeld == active
      && (irqHeld ==> active)
      && AllFromDevices(traffic, delivered)
    }

    method InterruptAction()
      modifies this`io
      ensures io == old(io) || InterruptStep(old(io), io, listening, irqRequested)
    {
      if * {
        if irqRequested { io := HardHandler(io, listening); }
      } else if CanReceive(io) {
        var k: nat :| k < 2;
        if * {
          if !BankOf(io, k).full { io := Arrive(io, k); }
        } else {
          io := io.(slvErr := true, slvInt := true);
        }
      }
    }

    /** Any number of interrupt steps. */
    method Env()
      requires Ledger(io)
      modifies this`io
      ensures Ledger(io) && Rely(old(io), io, listening, irqRequested)
      ensures listening && old(NoLostWakeup(io)) ==> NoLostWakeup(io)
    {
      var steps: nat :| true;
      ghost var run := [io];
      for i := 0 to steps
        invariant Burst(run, listening, irqRequested) && run[0] == old(io) && run[|run| - 1] == io
      {
        ghost var before := io;
        InterruptAction();
        if io != before { run := run + [io]; }
      }
      BurstIsRelied(run, listening, irqRequested);
    }

    /** piix4_sb800_region_request: may fail at any call. */
    method RequestPm() returns (ok: bool)
      requires !pmHeld
      modifies this`pmHeld, this`pmAsked, this`pmGot
      ensures pmHeld == ok == pmGot && pmAsked == old(pmAsked) + 1
    {
      ok := *;
      pmHeld := ok;
      pmAsked, pmGot := pmAsked + 1, ok;
    }

    method ReleasePm()
      requires pmHeld
      modifies this`pmHeld
      ensures !pmHeld
    {
      pmHeld := false;
    }

    /** A control register write, with interrupts before and after. */
    method SetControl(c: Control)
      requires Ledger(io)
      modifies this`io
      ensures Ledger(io) && io.ctl == c && Steady(old(io), io, listening)
    {
      hide Accounted, Rely, Steady;
      Env();
      ghost var m := io;
      io := io.(ctl := c);
      Env();
      WriteIsSteady(old(io), m, io, c, listening, irqRequested);
    }

    /** piix4_asf_bnksel_data_en: the full flags are written as zero, so a message that arrives in between keeps its flag. */
    method RouteWindow(toHost: bool)
      requires Ledger(io)
      modifies this`io
      ensures Ledger(io) && io.ctl == old(io.ctl).(dataEn := toHost) && Steady(old(io), io, listening)
    {
      hide Accounted, Rely, Steady, OutBnkSel;
      var reg := InBnkSel(io).(f0 := false, f1 := false, dataEn := toHost);
      Env();
      var clears: bool := *;
      RouteIsSteady(old(io), io, toHost, clears, listening, irqRequested);
      io := OutBnkSel(io, reg, clears);
    }

    /** LISTN off, then INTR off. */
    method StopListening()
      requires Ledger(io)
      modifies this`io
      ensures Ledger(io) && Stopped(old(io), io, listening)
    {
      hide Accounted, Rely, Steady, Stopped;
      SetControl(io.ctl.(listn := false));
      ghost var m := io;
      io := io.(intr := false);
      Env();
      StopIsStopped(old(io), m, io, listening, irqRequested);
    }

    /** ASFSLVEN.RST := 1 by read-modify-write, then ASFSLVSTA := 0. */
    method HoldInReset()
      requires Ledger(io) && !io.ctl.listn
      modifies this`io, this`resets
      ensures Ledger(io) && Reset(old(io), io)
      ensures resets == old(resets) + [io] && StandsReset(io, resetClears)
    {
      hide Accounted, Rely, Reset, StandsReset, ResetSlave;
      var reg := io.intr;
      Env();
      var clears: bool := *;
      ResetIsReset(old(io), io, resetClears, resetClears || clears, listening, irqRequested);
      io := ResetSlave(io, resetClears || clears).(intr := reg, slvErr := false);
      resets := resets + [io];
    }

    /** piix4_asf_master_mode */
    method MasterMode()
      requires Ledger(io) && pmHeld
      modifies this`io, this`tampered, this`resets
      ensures Ledger(io) && Mastered(old(io), io) && !tampered && |resets| == |old(resets)| + 1
    {
      hide Accounted, Steady, Mastered;
      StopListening();
      ghost var b := io;
      HoldInReset();
      ghost var c := io;
      SetControl(io.ctl.(mstrEn := true));
      ghost var d := io;
      RouteWindow(true);
      MasterIsMastered(old(io), b, c, d, io, listening);
      tampered := false;
    }

    /** piix4_asf_slave_arm; every caller has set `listening` first. */
    method SlaveArm()
      requires Ledger(io) && pmHeld && listening
      modifies this`io, this`tampered
      ensures Ledger(io) && Rearmed(old(io), io) && !tampered
    {
      hide Accounted, Rely, Steady, Rearmed;
      Env();
      ghost var b := io;
      io := ClearStatus(io);
      RouteWindow(false);
      ghost var c := io;
      SetControl(io.ctl.(listn := true, lisAddr := HOST_ADDR));
      ghost var d := io;
      SetControl(io.ctl.(mstrEn := false));
      ghost var e1 := io;
      SetControl(io.ctl.(clkEn := true));
      ghost var e2 := io;
      SteadyTwice(d, e1, e2, listening);
      SetControl(io.ctl.(rst := false));
      ghost var e := io;
      SteadyTwice(d, e2, e, listening);
      io := io.(intr := true);
      Env();
      ArmIsRearmed(old(io), b, c, d, e, io, irqRequested);
      tampered := false;
    }

    /** The notifying device of the message in bank `k`, or -1, through port 0x07, which must be routed to the ASF banks. */
    method ReadBank(k: nat) returns (addr: int)
      requires k < 2 && !io.ctl.dataEn && io.ctl.sel == (k == 1)
      ensures addr == Address(traffic(BankOf(io, k).id))
    {
      var m := traffic(BankOf(io, k).id);
      var cmd: int := m.target;
      var len := if |m.data| > BLOCK_MAX_BYTES then BLOCK_MAX_BYTES else |m.data|;
      var data := [];
      for idx := 0 to len
        invariant data == m.data[..idx]
      {
        data := data + [m.data[idx]];
      }
      if cmd != 2 * HOST_ADDR || len < HOST_NOTIFY_LEN || data[0] % 2 == 1 || data[0] / 2 < 0x08 || data[0] / 2 > 0x77 {
        return -1;
      }
      addr := data[0] / 2;
    }

    /** Reception error: write both flags back as 1. */
    method FlushBanks()
      requires Ledger(io)
      modifies this`io
      ensures Ledger(io) && Flushed(old(io), io, listening, wellBehaved)
    {
      hide Accounted, Rely, Flushed, Flush;
      var reg := InBnkSel(io).(f0 := true, f1 := true);
      Env();
      var clears: bool := *;
      FlushIsFlushed(old(io), io, wellBehaved || clears, listening, irqRequested, wellBehaved);
      io := Flush(io, reg, wellBehaved || clears);
    }

    /** Select the flagged bank `k`; the flags are written as zero. */
    method SelectBank(k: nat)
      requires Ledger(io) && k < 2 && BankOf(io, k).full
      modifies this`io
      ensures Ledger(io) && Selected(old(io), io, k, listening)
    {
      hide Accounted, Rely, Selected, OutBnkSel;
      var clears: bool := *;
      io := OutBnkSel(io, SelectOf(io, k), clears);
      Env();
      SelectIsSelected(old(io), io, k, clears, listening, irqRequested);
    }

    /** Select the flagged bank `k`, read it, and acknowledge only its flag. */
    method ConsumeBank(k: nat) returns (addr: int)
      requires Ledger(io) && !io.ctl.dataEn && k < 2 && BankOf(io, k).full
      modifies this`io
      ensures Ledger(io) && Consumed(old(io), io, k, listening, wellBehaved)
      ensures Heard(traffic, old(io.log), io.log, addr) && (addr >= 0 ==> FromDevice(traffic, addr))
    {
      hide Accounted, Rely, ReadOut, Consumed, OutBnkSel, MarkRead, Address, Heard, FromDevice;
      var reg := SelectOf(io, k);
      SelectBank(k);
      ghost var m := io;
      addr := ReadBank(k);
      if addr >= 0 { AddressIsFromDevice(traffic, BankOf(io, k).id, addr); }
      io := MarkRead(io, k);
      Env();
      var clears: bool := *;
      ReadIsReadOut(old(io), m, io, k, listening, irqRequested);
      AckIsConsumed(old(io), io, k, wellBehaved || clears, listening, wellBehaved);
      io := OutBnkSel(io, AckOf(reg, k), wellBehaved || clears);
      ConsumedIsHeard(old(io), io, k, traffic, addr, listening, wellBehaved);
    }

    /** No bank was flagged but a signal was seen: read bank 0 all the same, as one step. */
    method FallbackRead() returns (addr: int)
      requires Ledger(io) && !io.ctl.dataEn && Empty(io)
      modifies this`io
      ensures Ledger(io) && io == old(io).(ctl := io.ctl) && SameMode(old(io.ctl), io.ctl)
      ensures addr == Address(traffic(io.b0.id))
    {
      hide Accounted, OutBnkSel, Address;
      var reg := InBnkSel(io).(sel := false);
      var clears: bool := *;
      FallbackIsHarmless(io, clears);
      io := OutBnkSel(io, reg, clears);
      addr := ReadBank(0);
      io := OutBnkSel(io, AckOf(reg, 0), clears);
    }

    /**
     * piix4_asf_process_bank. Returns the bank that was read, 2 after flushing both
     * on a reception error, -1 if there was nothing to read.
     */
    method ProcessBank(fallback: bool, prefer: nat) returns (bank: int, addr: int, ghost look: BnkSel)
      requires Ledger(io) && !io.ctl.dataEn
      modifies this`io
      ensures Ledger(io)
      ensures Processed(old(io), io, traffic, listening, wellBehaved, fallback, prefer, look, bank, addr)
      ensures addr >= 0 ==> FromDevice(traffic, addr)
    {
      hide Accounted, Rely, Processed, Flushed, Consumed, Heard, FromDevice, Address;
      addr, look := -1, InBnkSel(io);
      if io.slvErr {
        FlushBanks();
        bank := 2;
        FlushIsProcessed(old(io), io, traffic, listening, wellBehaved, fallback, prefer, look);
        return;
      }
      Env();
      ghost var m := io;
      look := InBnkSel(io);
      bank := Choice(io.b0.full, io.b1.full, fallback, prefer);
      if bank == -1 {
        Env();
        NothingIsProcessed(old(io), m, io, traffic, listening, irqRequested, wellBehaved, fallback, prefer);
      } else if BankOf(io, bank).full {
        addr := ConsumeBank(bank);
        ConsumeIsProcessed(old(io), m, io, traffic, listening, irqRequested, wellBehaved, fallback, prefer, bank, addr);
      } else {
        addr := FallbackRead();
        if addr >= 0 { AddressIsFromDevice(traffic, io.b0.id, addr); }
        FallbackIsProcessed(old(io), m, io, traffic, listening, irqRequested, wellBehaved, fallback, prefer, addr);
      }
    }

    /** Take the signal: the status bit, or the pending flag the hard handler has made of it. */
    method TakeSignals() returns (signalled: bool)
      requires Ledger(io)
      modifies this`io
      ensures Ledger(io) && Took(old(io), io, signalled, listening)
    {
      hide Accounted, Rely;
      var sta := io.slvInt;
      Env();
      ghost var m := io;
      if sta { io := io.(slvInt := false); }
      Env();
      TakeIsTook(old(io), m, io, sta, listening, irqRequested);
      signalled := sta || io.pending;
      io := io.(pending := false);
    }

    /** One iteration of the drain loop; `bank` is -1 when the drain is over. */
    method DrainStep(i: nat, n: seq<int>) returns (n': seq<int>, bank: int, ghost signalled: bool)
      requires Ledger(io) && !io.ctl.dataEn && |n| <= NOTIFY_MAX && AllFromDevices(traffic, n)
      modifies this`io
      ensures Ledger(io) && AllFromDevices(traffic, n')
      ensures Stepped(old(io), io, traffic, listening, wellBehaved, i, n, n', signalled, bank)
    {
      hide Accounted, Rely, Processed, Stepped, FromDevice, AllFromDevices;
      var sig := TakeSignals();
      ghost var m := io;
      signalled := sig;
      if !sig && Empty(io) {
        Env();
        n', bank := n, -1;
        IdleIsStepped(old(io), m, io, traffic, listening, irqRequested, wellBehaved, i, n);
        return;
      }
      Env();
      ghost var p := io;
      var addr; ghost var look;
      bank, addr, look := ProcessBank(sig, i);
      n' := if bank >= 0 && addr >= 0 && |n| < NOTIFY_MAX then n + [addr] else n;
      OneDevice(traffic, addr);
      if addr >= 0 { DevicesJoin(traffic, n, [addr]); }
      ProcessIsStepped(old(io), m, p, io, traffic, listening, irqRequested, wellBehaved, i, n, sig, look, bank, addr);
    }

    /**
     * piix4_asf_drain. `states` are the states between its iterations, `banks` the bank
     * each read; `full` says that the list had no room for a report. Wedged or not,
     * without a reception error whatever was in a bank at the start has been read.
     */
    method Drain(n: seq<int>)
      returns (wedged: bool, n': seq<int>, ghost full: bool, ghost states: seq<Io>, ghost banks: seq<int>)
      requires Ledger(io) && !io.ctl.dataEn && |n| <= NOTIFY_MAX && AllFromDevices(traffic, n)
      modifies this`io
      ensures Ledger(io) && AllFromDevices(traffic, n')
      ensures Drained(old(io), io, traffic, listening, wellBehaved, n, n', full, wedged)
      ensures DrainRun(states, banks) && states[0] == old(io) && Concluded(states, banks, io)
      ensures io.log.errors == old(io.log.errors) ==> AllRead(old(io), io.log)
      ensures |n'| <= |n| + |banks| && |banks| <= DRAIN_MAX && (wedged ==> |banks| == DRAIN_MAX && !Empty(io))
    {
      hide Accounted, Rely, Stepped, Drained, Draining, DrainRun, Iterated, AllFromDevices, AllRead, LogGrows, Empty;
      n', full, states, banks := n, false, [io], [];
      DrainStarts(io, traffic, listening, wellBehaved, n);
      for i := 0 to DRAIN_MAX
        invariant Ledger(io) && !io.ctl.dataEn && |n'| <= NOTIFY_MAX
        invariant Draining(old(io), io, traffic, listening, wellBehaved, i, n, n', full)
        invariant |banks| == i && |n'| <= |n| + i && AllFromDevices(traffic, n')
        invariant |states| == i + 1 && DrainRun(states, banks) && states[0] == old(io) && states[i] == io
      {
        ghost var m, was := io, n';
        var bank; ghost var signalled;
        n', bank, signalled := DrainStep(i, n');
        StepIsDraining(old(io), m, io, traffic, listening, wellBehaved, i, n, was, n', full, signalled, bank);
        StepIsIterated(m, io, traffic, listening, wellBehaved, i, was, n', signalled, bank);
        if bank < 0 {
          if io.log.errors == old(io.log.errors) { DrainIsFair(states, banks, io); }
          return false, n', full, states, banks;
        }
        RunGoesOn(states, banks, io, bank);
        full, states, banks := full || |was| == NOTIFY_MAX, states + [io], banks + [bank];
      }
      ghost var l := io;
      Env();
      wedged := !Empty(io);
      ghost var m := io;
      Env();
      DrainEnds(old(io), l, m, io, traffic, listening, irqRequested, wellBehaved, n, n', full);
      DrainConcludes(states, banks, m, io, listening, irqRequested);
      if io.log.errors == old(io.log.errors) { DrainIsFair(states, banks, io); }
    }

    // ---- Master transfers --------------------------------------------------------

    /**
     * piix4_access: any result. While the wrapper is in effect the controller must be set
     * up as a master. The record keeps `noted`, the notify list at the time of the call, and the log.
     */
    method PiixAccess(ghost noted: seq<int>) returns (result: int)
      requires Ledger(io) && (active ==> MasterReady(io))
      modifies this`io, this`accesses
      ensures Ledger(io) && Rely(old(io), io, listening, irqRequested)
      ensures listening && old(NoLostWakeup(io)) ==> NoLostWakeup(io)
      ensures accesses == old(accesses) + [Access(result, noted, old(io.log))]
    {
      ghost var log := io.log;
      Env();
      result :| true;
      accesses := accesses + [Access(result, noted, log)];
    }

    /** Whether `addr` is among the devices noted since there were `before`. */
    method FromTarget(n: seq<int>, before: nat, addr: int) returns (found: bool)
      requires before <= |n|
      ensures found <==> addr in n[before..]
    {
      found := false;
      for i := before to |n|
        invariant found <==> addr in n[before..i]
      {
        if n[i] == addr { found := true; }
      }
      assert n[before..|n|] == n[before..];
    }

    /** usleep_range with the slave armed: a window in which devices can be heard. */
    method Wait()
      requires Ledger(io) && listening && Armed(io)
      modifies this`io, this`windows
      ensures Ledger(io) && Rely(old(io), io, listening, irqRequested)
      ensures windows == old(windows) + [io]
    {
      hide Accounted, Rely;
      Env();
      windows := windows + [io];
    }

    /** Give the bus to whoever sends a Host Notify, and take it out of its bank. */
    method Yield(n: seq<int>) returns (n': seq<int>, ghost full: bool, ghost window: Io)
      requires Ledger(io) && pmHeld && wantListen && Deaf(io) && |n| <= NOTIFY_MAX && AllFromDevices(traffic, n)
      modifies this`io, this`listening, this`tampered, this`windows
      ensures Ledger(io) && Deaf(io) && listening && !tampered && AllFromDevices(traffic, n')
      ensures Caught(traffic, old(io.log), io.log, n, n', full) && Extends(n, n')
      ensures windows == old(windows) + [window] && Heeded(window, io.log)
      ensures wellBehaved ==> Empty(io) && |n'| <= |n| + 2 && (full ==> |n| + 2 > NOTIFY_MAX)
    {
      hide Accounted, Rely, Rearmed, Stopped, Drained, Caught, Extends, DrainRun, AllFromDevices, LogGrows, Heeded, Armed, Deaf;
      listening := true;
      SlaveArm();
      ghost var b := io;
      RearmedIsArmed(old(io), b);
      Wait();
      window := io;
      StopListening();
      ghost var d := io;
      YieldIsArmed(old(io), b, window, d, irqRequested);
      var wedged; ghost var states, banks;
      wedged, n', full, states, banks := Drain(n);
      DrainIsCaught(old(io), d, io, traffic, listening, wellBehaved, n, n', full, wedged);
      DrainGrowsLog(d, io, traffic, listening, wellBehaved, n, n', full, wedged);
      DrainHeeds(window, d, io);
    }

    /** One attempt: become a master, and call piix4_access. */
    method Issue(noted: seq<int>) returns (result: int, ghost last: Access)
      requires Ledger(io) && pmHeld
      modifies this`io, this`tampered, this`accesses, this`resets
      ensures Ledger(io) && Deaf(io) && !tampered && io.log.read == old(io.log.read)
      ensures accesses == old(accesses) + [last] && last.result == result && last.noted == noted
      ensures !old(io.ctl.listn) ==> io.log == Doomed(old(io))
      ensures old(Deaf(io)) ==> last.log == io.log == old(io.log)
    {
      hide Accounted, Mastered, Rely, HasUnread, Doomed;
      MasterMode();
      ghost var b := io;
      MasteredIsReady(old(io), b);
      result := PiixAccess(noted);
      last := Access(result, noted, b.log);
      MasterDooms(old(io), b, io, listening, irqRequested);
      if old(Deaf(io)) {
        DeafIsMastered(old(io), b);
        DeafIsNotDoomed(old(io));
      }
    }

    /**
     * The attempts of one transfer, `made`. `base` is the log when the controller first was
     * a master: a slave that was deaf already has lost what waited in its banks, and no more.
     */
    method MasterLoop(addr: int, n0: seq<int>)
      returns (result: int, n: seq<int>, ghost full: bool, ghost made: seq<Access>, ghost heard: seq<Io>, ghost base: Log)
      requires Ledger(io) && pmHeld && active && (listening ==> wantListen) && |n0| <= NOTIFY_MAX
      requires (tampered || !io.ctl.listn) && AllFromDevices(traffic, n0)
      modifies this`io, this`listening, this`tampered, this`accesses, this`windows, this`resets
      ensures Ledger(io) && Deaf(io) && !tampered && (listening ==> wantListen) && AllFromDevices(traffic, n)
      ensures windows == old(windows) + heard && Windowed(made, heard, io.log, wantListen)
      ensures Caught(traffic, base, io.log, n0, n, full) && base.read == old(io.log.read)
      ensures !old(tampered) ==> base == Doomed(old(io))
      ensures |made| > 0 && accesses == old(accesses) + made && Attempts(made, n, wantListen, addr)
      ensures made[0].noted == n0 && result == made[|made| - 1].result
      ensures wellBehaved && |n0| <= 2 ==> !full
    {
      hide Accounted, Mastered, Rely, Caught, Rearmed, Stopped, Drained, AllFromDevices, Tried, Extends, Attempts, Doomed;
      hide Windowed, AllWindowed, Heeded;
      n, full, made, heard, base := n0, false, [], [], io.log;
      var attempt := 0;
      NothingTried(n, wantListen, addr);
      NothingWindowed(io.log, wantListen);
      while true
        invariant 0 <= attempt <= XFER_RETRIES && Ledger(io) && (listening ==> wantListen) && AllFromDevices(traffic, n)
        invariant attempt == 0 ==> n == n0 && !full && tampered == old(tampered) && io == old(io)
        invariant attempt > 0 ==> !tampered && Deaf(io) && Caught(traffic, base, io.log, n0, n, full)
        invariant attempt > 0 ==> base.read == old(io.log.read) && (!old(tampered) ==> base == Doomed(old(io)))
        invariant |n| <= NOTIFY_MAX && (wellBehaved && |n0| <= 2 ==> !full && |n| <= 2 + 2 * attempt)
        invariant |made| == attempt && |heard| <= attempt && accesses == old(accesses) + made && Tried(made, n, wantListen, addr)
        invariant attempt > 0 ==> made[0].noted == n0
        invariant windows == old(windows) + heard && AllWindowed(made, heard, io.log, wantListen)
        decreases XFER_RETRIES - attempt
      {
        ghost var a := io;
        ghost var last;
        result, last := Issue(n);
        ghost var tried, was := made, n;
        if attempt == 0 { NoWindowsYet(made, heard, a.log, last.log, wantListen); }
        made := made + [last];
        if attempt == 0 {
          base := io.log;
          CaughtStarts(traffic, base, n);
        }
        if (result != EAGAIN && result != ENXIO) || !wantListen || attempt >= XFER_RETRIES {
          ExtendsItself(n);
          AttemptsEnd(tried, last, n, wantListen, addr);
          LastAttempt(tried, heard, last, io.log, wantListen);
          return;
        }
        var before := |n|;
        ghost var m := io;
        ghost var ran, window;
        n, ran, window := Yield(n);
        OneMoreWindow(tried, heard, last, window, io.log, wantListen);
        AllIsWindowed(made, heard + [window], io.log, wantListen);
        heard := heard + [window];
        YieldIsCaught(traffic, base, m.log, io.log, n0, was, n, full, ran);
        ExtendsLonger(was, n);
        full := full || ran;
        var fromTarget := FromTarget(n, before, addr);
        if result == ENXIO && !fromTarget {
          AttemptsEnd(tried, last, n, wantListen, addr);
          return;
        }
        TriedOnceMore(tried, last, n, wantListen, addr);
        attempt := attempt + 1;
      }
    }

    /** Back to listen mode, if Host Notify is wanted. */
    method Relisten()
      requires Ledger(io) && pmHeld && Deaf(io) && !tampered && (listening ==> wantListen)
      modifies this`io, this`listening, this`tampered
      ensures Ledger(io) && !tampered && OnlyArrivals(old(io.log), io.log) && listening == wantListen
      ensures if listening then Armed(io) && NoLostWakeup(io) else Deaf(io)
    {
      hide Accounted, Rearmed;
      if wantListen {
        listening := true;
        SlaveArm();
        RearmKeepsLog(old(io), io);
      }
    }

    /** While the driver listens, nothing may be left in a bank when the slave is reset. */
    method DrainBeforeReset() returns (n: seq<int>, ghost full: bool)
      requires Ledger(io) && (listening ==> !io.ctl.dataEn)
      modifies this`io
      ensures Ledger(io) && |n| <= NOTIFY_MAX && AllFromDevices(traffic, n)
      ensures if listening then Deaf(io) else io == old(io) && n == [] && !full
      ensures Caught(traffic, old(io.log), io.log, [], n, full)
      ensures wellBehaved ==> |n| <= 2 && !full
    {
      hide Accounted, Stopped, Drained, Caught, DrainRun, LogGrows, AllFromDevices;
      OneDevice(traffic, 0);
      if listening {
        StopListening();
        ghost var d := io;
        StoppedIsSilent(old(io), d, listening);
        var wedged; ghost var states, banks;
        wedged, n, full, states, banks := Drain([]);
        DrainIsCaught(old(io), d, io, traffic, listening, wellBehaved, [], n, full, wedged);
      } else {
        n, full := [], false;
        CaughtStarts(traffic, io.log, []);
      }
    }

    /** The log from which a transfer loses nothing: a slave that is deaf already is reset at once. */
    ghost function Base(): Log
      reads this`io, this`listening
    {
      if listening then io.log else Doomed(io)
    }

    /** The body of a transfer that has the PM region. */
    method Serve(addr: int)
      returns (result: int, n: seq<int>, ghost full: bool, ghost made: seq<Access>, ghost heard: seq<Io>)
      requires Ledger(io) && pmHeld && active
      requires if listening then wantListen && !tampered && !io.ctl.dataEn else tampered || !io.ctl.listn
      modifies this`io, this`listening, this`tampered, this`accesses, this`windows, this`resets
      ensures windows == old(windows) + heard && Windowed(made, heard, io.log, wantListen)
      ensures Ledger(io) && !tampered && listening == wantListen && AllFromDevices(traffic, n)
      ensures if listening then Armed(io) && NoLostWakeup(io) else Deaf(io)
      ensures made != [] && accesses == old(accesses) + made && Attempts(made, n, wantListen, addr)
      ensures result == made[|made| - 1].result
      ensures Noted(traffic, old(io.log), io.log, n, full) && (full ==> |n| == NOTIFY_MAX) && (wellBehaved ==> !full)
      ensures !old(tampered) ==> Caught(traffic, old(Base()), io.log, [], n, full)
      ensures !old(tampered) && io.log.errors == old(io.log.errors) ==>
                EveryRead(old(Base()), io.log) && io.log.lost == old(Base().lost)
    {
      hide Accounted, Caught, Noted, Attempts, LogGrows, NoLostWakeup, HasUnread, AllFromDevices, EveryRead, Unread, Armed, Windowed;
      n, full := DrainBeforeReset();
      ghost var d, n0, ran := io, n, full;
      ghost var base;
      result, n, full, made, heard, base := MasterLoop(addr, n);
      ghost var f := io;
      Relisten();
      WindowsStay(made, heard, f.log, io.log, wantListen);
      TransferIsNoted(traffic, old(io.log), d.log, base, f.log, io.log, n0, n, ran, full);
      if old(listening) {
        DeafIsNotDoomed(d);
        TransferIsCaught(traffic, old(io.log), d.log, f, io.log, n0, n, ran, full);
      } else if !old(tampered) {
        CaughtStarts(traffic, base, []);
        TransferIsCaught(traffic, base, base, f, io.log, [], n, false, full);
      }
      full := full || ran;
      if !old(tampered) { CaughtLosesNothing(traffic, old(Base()), io.log, [], n, full); }
    }

    /**
     * piix4_access_asf up to releasing the mutex. `made` is empty if the wrapper made no
     * attempt: it is not in effect, or the PM region is busy. A transfer that finds the
     * driver listening loses nothing; one that does not resets a deaf slave, and with it
     * whatever an earlier wedge left in the banks.
     */
    method Transfer(addr: int)
      returns (result: int, n: seq<int>, ghost full: bool, ghost made: seq<Access>, ghost heard: seq<Io>)
      requires Inv()
      modifies this`io, this`listening, this`pmHeld, this`pmAsked, this`pmGot, this`tampered,
               this`accesses, this`windows, this`resets
      ensures Inv() && AllFromDevices(traffic, n)
      ensures accesses == old(accesses) + if active then made else [Access(result, [], old(io.log))]
      ensures windows == old(windows) + heard && Windowed(made, heard, io.log, wantListen)
      ensures made == [] ==> n == [] && (active ==> result == EBUSY && io == old(io) && listening == old(listening))
      ensures made != [] ==>
                active && Attempts(made, n, wantListen, addr) && result == made[|made| - 1].result && listening == wantListen
      ensures Noted(traffic, old(io.log), io.log, n, full) && (full ==> |n| == NOTIFY_MAX) && (wellBehaved ==> !full)
      ensures made != [] && !old(tampered) ==> Caught(traffic, old(Base()), io.log, [], n, full)
      ensures made != [] && !old(tampered) && io.log.errors == old(io.log.errors) ==>
                EveryRead(old(Base()), io.log) && io.log.lost == old(Base().lost)
      ensures if active then pmAsked == old(pmAsked) + 1 && pmGot == (made != []) else pmAsked == old(pmAsked)
    {
      hide Accounted, Caught, Noted, Attempts, LogGrows, NoLostWakeup, HasUnread, AllFromDevices, EveryRead, Base, Windowed, AllWindowed;
      OneDevice(traffic, 0);
      n, full, made, heard := [], false, [], [];
      if !active {
        result := PiixAccess([]);
        NothingRead(traffic, old(io.log), io.log);
        NothingWindowed(io.log, wantListen);
        AllIsWindowed(made, heard, io.log, wantListen);
        return;
      }
      var ok := RequestPm();
      if !ok {
        result := EBUSY;
        NothingRead(traffic, old(io.log), io.log);
        NothingWindowed(io.log, wantListen);
        AllIsWindowed(made, heard, io.log, wantListen);
        return;
      }
      result, n, full, made, heard := Serve(addr);
      ReleasePm();
    }

    /** piix4_asf_deliver: hand the collected addresses to the adapter, unless delivery has been stopped. */
    method Deliver(n: seq<int>)
      requires AllFromDevices(traffic, n)
      modifies this`delivered
      ensures delivered == if deliverOk then old(delivered) + n else old(delivered)
      ensures old(Inv()) ==> Inv()
    {
      hide AllFromDevices, Armed, NoLostWakeup, Accounted, HasUnread;
      if old(Inv()) { DevicesJoin(traffic, delivered, n); }
      if deliverOk {
        for i := 0 to |n|
          invariant delivered == old(delivered) + n[..i]
        {
          delivered := delivered + [n[i]];
        }
        assert n[..|n|] == n;
      }
    }

    /**
     * piix4_access_asf. With well-behaved banks and no reception error, every Host
     * Notify that waited in a bank when the transfer began has been handed to the
     * adapter when it returns; but one left behind by an IRQ thread that had to give up
     * listening is lost here, and only such a one.
     */
    method AccessAsf(addr: int) returns (result: int, ghost made: seq<Access>, ghost heard: seq<Io>)
      requires Inv()
      modifies this`io, this`listening, this`pmHeld, this`pmAsked, this`pmGot, this`tampered,
               this`accesses, this`windows, this`resets, this`delivered
      ensures Inv() && |made| <= XFER_RETRIES + 1
      ensures accesses == old(accesses) + if active then made else [Access(result, [], old(io.log))]
      ensures windows == old(windows) + heard && Windowed(made, heard, io.log, wantListen)
      ensures if wellBehaved && deliverOk then Told(traffic, old(io.log), io.log, old(delivered), delivered)
              else |old(delivered)| <= |delivered| && delivered[..|old(delivered)|] == old(delivered)
      ensures !deliverOk ==> delivered == old(delivered)
      ensures made != [] ==> result == made[|made| - 1].result && listening == wantListen
      ensures active && made == [] ==> result == EBUSY
      ensures if active then pmAsked == old(pmAsked) + 1 && pmGot == (made != []) else pmAsked == old(pmAsked)
      ensures made != [] && !old(tampered) && io.log.errors == old(io.log.errors) ==>
                && io.log.lost == old(Base().lost)
                && (wellBehaved && deliverOk ==>
                      forall id | 0 <= id < old(io.log.count) && id !in io.log.lost && id !in old(io.log.read) ::
                        IsHostNotify(traffic(id)) ==> Notifier(traffic(id)) in delivered[|old(delivered)|..])
    {
      hide Accounted, Caught, LogGrows, NoLostWakeup, HasUnread, Armed, AllFromDevices, Attempts, Noted, EveryRead, Told, Unread, Windowed;
      ghost var base := Base();
      var n; ghost var full;
      result, n, full, made, heard := Transfer(addr);
      AttemptsAreFew(made, n, wantListen, addr);
      Deliver(n);
      assert deliverOk ==> delivered[|old(delivered)|..] == n;
      if wellBehaved && deliverOk {
        NotedIsTold(traffic, old(io.log), io.log, old(delivered), n);
      }
      if made != [] && wellBehaved && deliverOk && !old(tampered) && io.log.errors == old(io.log.errors) {
        WaitingIsReported(traffic, old(io.log), base, io.log, n);
      }
    }

    // ---- The IRQ thread ------------------------------------------------------------

    /** A bank stayed full through a whole drain: go deaf, drain once more, reset the slave and re-arm it. */
    method ResetWedgedSlave(n: seq<int>) returns (n': seq<int>, ghost full: bool)
      requires Ledger(io) && pmHeld && listening && !io.ctl.dataEn && |n| <= NOTIFY_MAX && AllFromDevices(traffic, n)
      modifies this`io, this`listening, this`tampered, this`resets
      ensures |resets| == |old(resets)| + 1 && resets[..|old(resets)|] == old(resets)
      ensures var reset := resets[|old(resets)|]; StandsReset(reset, resetClears) && (resetClears ==> OnlyNew(io, reset.log))
      ensures listening && Ledger(io) && Armed(io) && NoLostWakeup(io) && !tampered && AllFromDevices(traffic, n')
      ensures Caught(traffic, old(io.log), io.log, n, n', full) && (full ==> |n| + DRAIN_MAX > NOTIFY_MAX)
      ensures io.log.errors == old(io.log.errors) ==> EveryRead(old(io.log), io.log)
    {
      hide Accounted, Reset, Rearmed, Drained, Caught, DrainRun, Settled, Armed, NoLostWakeup, AllFromDevices, EveryRead, HasUnread, OnlyNew;
      SetControl(io.ctl.(listn := false));
      ghost var f := io;
      var wedged; ghost var states, banks;
      wedged, n', full, states, banks := Drain(n);
      ghost var g := io;
      DrainIsCaught(old(io), f, g, traffic, listening, wellBehaved, n, n', full, wedged);
      DrainKeepsMode(f, g, traffic, listening, wellBehaved, n, n', full, wedged);
      HoldInReset();
      ghost var h := io;
      SlaveArm();
      WedgeIsCaught(traffic, old(io.log), g, h, io, n, n', full);
    }

    /** The first drain of the IRQ thread, with the slave interrupt off but LISTN on: whatever was in a bank before is read. */
    method MaskAndDrain() returns (wedged: bool, n: seq<int>)
      requires Ledger(io) && listening && !io.ctl.dataEn
      modifies this`io
      ensures Ledger(io) && SameMode(old(io.ctl), io.ctl) && |n| <= DRAIN_MAX && AllFromDevices(traffic, n)
      ensures Handled(traffic, old(io.log), io.log, n)
      ensures !io.intr && (!wedged ==> NoLostWakeup(io))
    {
      hide Accounted, Rely, Drained, Caught, DrainRun, NoLostWakeup, AllFromDevices, AllRead, Handled;
      OneDevice(traffic, 0);
      ghost var a := io;
      Env();
      ghost var b := io;
      io := io.(intr := false);
      Env();
      ghost var c := io;
      MaskIsMasked(a, b, c, irqRequested);
      ghost var full, states, banks;
      wedged, n, full, states, banks := Drain([]);
      DrainKeepsMode(c, io, traffic, listening, wellBehaved, [], n, full, wedged);
      MaskedIsHandled(traffic, a, c, io.log, n);
    }

    /** Neither reset nor re-arming is possible: acknowledge no more. What is still in a bank stays there. */
    method Abandon(ghost since: Log, ghost n: seq<int>)
      requires Ledger(io) && listening && !io.intr && Handled(traffic, since, io.log, n)
      modifies this`io, this`listening
      ensures Ledger(io) && !io.ctl.listn && !listening && !io.intr
      ensures Handled(traffic, since, io.log, n)
    {
      hide Accounted, Handled;
      ghost var d := io;
      SetControl(io.ctl.(listn := false));
      HandledIsShort(traffic, since, d.log, n);
      QuietIsCaught(traffic, d.log, io.log, n);
      HandledGrows(traffic, since, d.log, io.log, n, n);
      listening := false;
    }

    /** Since `before` the slave has passed once through reset; where that clears the full flags, only newer messages are flagged now. */
    ghost predicate WasReset(before: seq<Io>)
      reads this`io, this`resets
    {
      && |resets| == |before| + 1 && resets[..|before|] == before
      && StandsReset(resets[|before|], resetClears) && (resetClears ==> OnlyNew(io, resets[|before|].log))
    }

    /** A bank is stuck: reset the slave if the PM region can be had, else stop listening. */
    method Recover(ghost since: Log, n0: seq<int>) returns (n: seq<int>, outcome: IrqOutcome)
      requires Ledger(io) && !pmHeld && listening && !io.intr && !io.ctl.dataEn && |n0| <= DRAIN_MAX
      requires AllFromDevices(traffic, n0) && Handled(traffic, since, io.log, n0)
      modifies this`io, this`listening, this`pmHeld, this`pmAsked, this`pmGot, this`tampered, this`resets
      ensures if pmGot then WasReset(old(resets)) else resets == old(resets)
      ensures Ledger(io) && !pmHeld && AllFromDevices(traffic, n) && Handled(traffic, since, io.log, n)
      ensures pmAsked == old(pmAsked) + 1 && outcome == if pmGot then SlaveReset else Abandoned
      ensures if pmGot then listening && Armed(io) && NoLostWakeup(io) && !tampered
                       && (io.log.errors == old(io.log.errors) ==> EveryRead(old(io.log), io.log))
              else !listening && !io.ctl.listn && !io.intr && tampered == old(tampered)
    {
      hide Accounted, Caught, Handled, NoLostWakeup, AllFromDevices, Armed, EveryRead, StandsReset, OnlyNew;
      n := n0;
      var ok := RequestPm();
      if ok {
        ghost var full;
        n, full := ResetWedgedSlave(n0);
        HandledGrows(traffic, since, old(io.log), io.log, n0, n);
        ReleasePm();
        outcome := SlaveReset;
      } else {
        Abandon(since, n0);
        outcome := Abandoned;
      }
    }

    /**
     * piix4_asf_irq_thread up to releasing the mutex. Whatever the outcome of a run that
     * found the driver listening, every message acknowledged before it has been read,
     * every one read is in the list, and none is lost but by a reception error. With the
     * outcome Abandoned those that came in during the run may be left in the banks of a
     * deaf slave.
     */
    method IrqThread() returns (n: seq<int>, outcome: IrqOutcome)
      requires Inv()
      modifies this`io, this`listening, this`pmHeld, this`pmAsked, this`pmGot, this`tampered, this`resets
      ensures Inv() && AllFromDevices(traffic, n)
      ensures if outcome == SlaveReset then WasReset(old(resets)) else resets == old(resets)
      ensures outcome == NotListening <==> !old(listening)
      ensures outcome == NotListening ==> n == [] && io == old(io).(woken := false)
      ensures outcome != NotListening ==> Handled(traffic, old(io.log), io.log, n)
      ensures listening == (old(listening) && outcome != Abandoned) && (outcome == Abandoned ==> !io.intr)
      ensures pmAsked == old(pmAsked) + (if outcome == SlaveReset || outcome == Abandoned then 1 else 0)
      ensures pmAsked > old(pmAsked) ==> pmGot == (outcome == SlaveReset)
    {
      hide Accounted, Handled, Settled, NoLostWakeup, Steady, LogGrows, AllFromDevices, WasReset;
      OneDevice(traffic, 0);
      io := io.(woken := false);
      if !listening {
        return [], NotListening;
      }
      var wedged;
      wedged, n := MaskAndDrain();
      if !wedged {
        ghost var d := io;
        io := io.(intr := true);
        Unmasked(d, io);
        return n, Clean;
      }
      n, outcome := Recover(old(io.log), n);
    }

    // ---- Starting, stopping, sleeping ------------------------------------------------

    /** piix4_asf_quiesce */
    method Quiesce()
      requires Ledger(io)
      modifies this`resets, this`io, this`wantListen, this`listening
      ensures Ledger(io) && Quiesced(old(io), io) && !wantListen && !listening
    {
      hide Accounted, Rely, Stopped, Reset, Quiesced, Settled;
      wantListen := false;
      StopListening();
      ghost var b := io;
      StoppedIsSilent(old(io), b, listening);
      HoldInReset();
      ghost var c := io;
      Env();
      ghost var d := io;
      io := ClearStatus(io);
      listening := false;
      Env();
      ghost var e := io;
      io := io.(pending := false);
      Env();
      QuiesceIsQuiesced(old(io), b, c, d, e, io, old(listening), irqRequested);
    }

    /** piix4_asf_start, called when the adapter is there, with the IRQ requested and the system awake. */
    method Start()
      requires Inv() && !asleep && (active ==> irqRequested)
      modifies this`deliverOk, this`wantListen, this`listening, this`io, this`pmHeld, this`pmAsked, this`pmGot, this`tampered
      ensures Inv() && (active ==> deliverOk && wantListen)
      ensures active ==> pmAsked == old(pmAsked) + 1 && if pmGot then listening else io == old(io) && listening == old(listening)
      ensures !active ==> deliverOk == old(deliverOk) && io == old(io)
      ensures io.log.read == old(io.log.read) && irqRequested == old(irqRequested)
    {
      hide Accounted, Rearmed, AllFromDevices;
      if !active { return; }
      deliverOk := true;
      wantListen := true;
      var ok := RequestPm();
      if ok {
        ghost var a := io;
        listening := true;
        SlaveArm();
        RearmedIsArmed(a, io);
        ReleasePm();
      }
    }

    method FreeIrq()
      requires Inv() && irqRequested && !wantListen && !asleep
      modifies this`irqHeld, this`irqRequested
      ensures Inv() && !irqHeld && !irqRequested
    {
      hide Accounted, NoLostWakeup, HasUnread, Armed, AllFromDevices;
      irqHeld := false;
      irqRequested := false;
    }

    /** The part of piix4_asf_stop under the mutex: quiet, and a plain master if the PM region can be had. */
    method Offline()
      requires Inv() && active && !asleep
      modifies this`resets, this`io, this`wantListen, this`listening, this`pmHeld, this`pmAsked, this`pmGot, this`tampered
      ensures Inv() && !wantListen && !listening && !io.intr && io.log.read == old(io.log.read)
      ensures pmAsked == old(pmAsked) + 1 && (pmGot ==> MasterReady(io))
    {
      hide Accounted, Mastered, Quiesced, Settled, Armed, NoLostWakeup, AllFromDevices;
      Quiesce();
      ghost var b := io;
      QuiescedIsDeaf(old(io), b);
      var ok := RequestPm();
      if ok {
        MasterMode();
        MasteredIsReady(b, io);
        ReleasePm();
      }
    }

    /** piix4_asf_stop: no delivery and no IRQ afterwards; the master wrapper stays in effect. */
    method Stop()
      requires Inv() && !asleep
      modifies this`resets, this`io, this`wantListen, this`listening, this`pmHeld, this`pmAsked, this`pmGot, this`tampered,
               this`irqHeld, this`irqRequested, this`deliverOk
      ensures Inv() && (active ==> !wantListen && !listening && !deliverOk && !irqHeld && !irqRequested)
      ensures active ==> !io.intr && io.log.read == old(io.log.read)
      ensures active ==> pmAsked == old(pmAsked) + 1 && (pmGot ==> MasterReady(io))
      ensures !active ==> io == old(io)
    {
      hide Accounted, HasUnread, MasterReady, Armed, NoLostWakeup, AllFromDevices;
      if !active { return; }
      Offline();
      if irqRequested {
        FreeIrq();
      } else {
        IrqIsFree();
      }
      deliverOk := false;
    }

    /** The kernel holds no IRQ for a driver that knows of none. */
    lemma IrqIsFree()
      requires Inv() && !irqRequested
      ensures !irqHeld
    {
    }

    /** piix4_asf_suspend */
    method Suspend()
      requires Inv() && !asleep
      modifies this`resets, this`io, this`wantListen, this`listening, this`resumeListen, this`asleep
      ensures Inv() && asleep && !wantListen && !listening && active == old(active)
      ensures active ==> resumeListen == old(wantListen)
      ensures !old(wantListen) ==> io == old(io)
      ensures old(wantListen) ==> Deaf(io) && io.ctl.rst && !io.intr
      ensures io.log.read == old(io.log.read)
    {
      hide Accounted, Quiesced, AllFromDevices;
      asleep := true;
      if !active { return; }
      resumeListen := wantListen;
      if wantListen {
        Quiesce();
        QuiescedIsDeaf(old(io), io);
      }
    }

    /** While the system sleeps, firmware may leave anything in the registers. */
    method FirmwareRewrites(c: Control, intr: bool, slvInt: bool, slvErr: bool, f0: bool, f1: bool)
      requires Inv() && asleep
      modifies this`io, this`tampered
      ensures Inv() && tampered && io == Garbled(old(io), c, intr, slvInt, slvErr, f0, f1)
    {
      hide Accounted, Garbled;
      io := Garbled(io, c, intr, slvInt, slvErr, f0, f1);
      tampered := true;
    }

    /** ASFSLVEN.RST := 1 and ASFSLVSTA := 0, whatever firmware left in ASFLISADDR. */
    method ResetAnyway()
      requires Ledger(io)
      modifies this`resets, this`io
      ensures Ledger(io) && io.log.read == old(io.log.read)
      ensures resets == old(resets) + [io] && io.ctl.rst && !io.slvErr && !HasUnread(io) && (resetClears ==> Empty(io))
    {
      hide Accounted;
      Env();
      var clears: bool := *;
      io := ResetSlave(io, resetClears || clears).(slvErr := false);
      resets := resets + [io];
    }

    /** piix4_asf_resume */
    method Resume()
      requires Inv() && asleep
      modifies this`resets, this`io, this`wantListen, this`listening, this`pmHeld, this`pmAsked, this`pmGot, this`tampered, this`asleep
      ensures Inv() && !asleep && wantListen == (active && resumeListen)
      ensures wantListen ==> pmAsked == old(pmAsked) + 1 && listening == pmGot
      ensures listening ==> |resets| == |old(resets)| + 1 && resets[|old(resets)|].ctl.rst && !HasUnread(resets[|old(resets)|])
      ensures !listening ==> io == old(io)
      ensures io.log.read == old(io.log.read)
    {
      hide Accounted, Rearmed, AllFromDevices, Armed, NoLostWakeup, HasUnread;
      asleep := false;
      if !active || !resumeListen { return; }
      wantListen := true;
      var ok := RequestPm();
      if ok {
        ResetAnyway();
        ghost var a := io;
        listening := true;
        SlaveArm();
        RearmedIsArmed(a, io);
        ReleasePm();
      }
    }

    /** piix4_asf_restore_boot_state */
    method RestoreBootState()
      requires Ledger(io) && pmHeld && !irqRequested
      modifies this`resets, this`io
      ensures Ledger(io) && io.ctl == boot.ctl && io.intr == boot.intr
      ensures !boot.ctl.listn ==> Clear(io)
    {
      hide Accounted, Rely, Steady, Clear, ClearStatus, ResetSlave;
      Env();
      var clears: bool := *;
      io := ResetSlave(io, clears).(intr := boot.intr);
      io := io.(ctl := io.ctl.(slvRest := boot.ctl.slvRest));
      SetControl(io.ctl.(listn := boot.ctl.listn, lisAddr := boot.ctl.lisAddr));
      SetControl(io.ctl.(sel := boot.ctl.sel, dataEn := boot.ctl.dataEn, bnkRest := boot.ctl.bnkRest));
      ClearedIsClear(io);
      io := ClearStatus(io);
      ghost var a := io;
      Env();
      RelyKeepsClear(a, io, listening);
      ghost var l := io;
      io := io.(ctl := io.ctl.(rst := boot.ctl.rst), intr := boot.intr);
      StillClear(l, io);
      ghost var b := io;
      Env();
      RelyKeepsClear(b, io, listening);
      ghost var m := io;
      io := io.(ctl := io.ctl.(mstrEn := boot.ctl.mstrEn, clkEn := boot.ctl.clkEn));
      StillClear(m, io);
      ghost var c := io;
      Env();
      RelyKeepsClear(c, io, listening);
    }

    method ReleaseIo()
      requires regionHeld && gsiHeld && gsiRegistered
      modifies this`regionHeld, this`gsiHeld, this`gsiRegistered
      ensures !regionHeld && !gsiHeld && !gsiRegistered
    {
      gsiHeld := false;
      gsiRegistered := false;
      regionHeld := false;
    }

    /** Record the firmware state and become a master. */
    method TakeOver()
      requires Ledger(io) && pmHeld && !listening
      modifies this`resets, this`io, this`boot, this`active, this`tampered, this`pmHeld
      ensures Ledger(io) && Deaf(io) && MasterReady(io) && active && !tampered && !pmHeld
      ensures boot == Boot(old(io.ctl), old(io.intr))
    {
      hide Accounted, Mastered;
      io := io.(pending := false);
      boot := Boot(io.ctl, io.intr);
      ghost var a := io;
      MasterMode();
      MasteredIsReady(a, io);
      active := true;
      ReleasePm();
    }

    /** Out of effect: the firmware's registers if the PM region can be had, and everything released. */
    method GiveBack()
      requires Inv() && active && !irqRequested && !wantListen && !listening
      modifies this`resets, this`io, this`active, this`gsiRegistered, this`gsiHeld, this`regionHeld, this`pmHeld, this`pmAsked, this`pmGot
      ensures Inv() && !active && !irqHeld && !gsiHeld && !regionHeld && pmAsked == old(pmAsked) + 1
      ensures pmGot ==> io.ctl == boot.ctl && io.intr == boot.intr
    {
      hide Accounted, HasUnread, Armed, NoLostWakeup, AllFromDevices;
      active := false;
      var ok := RequestPm();
      if ok {
        RestoreBootState();
        ReleasePm();
      }
      ReleaseIo();
    }

    /** The IO region and the GSI, both or neither. */
    method ClaimIo() returns (ok: bool)
      requires !regionHeld && !gsiHeld && !gsiRegistered
      modifies this`regionHeld, this`gsiHeld, this`gsiRegistered
      ensures regionHeld == gsiHeld == gsiRegistered == ok
    {
      regionHeld := *;
      if !regionHeld { return false; }
      gsiHeld := *;
      if !gsiHeld {
        regionHeld := false;
        return false;
      }
      gsiRegistered := true;
      return true;
    }

    /**
     * piix4_asf_enable. `applicable` stands for the checks of the firmware description
     * and of the ACPI region. A failed enable leaves the registers as they were, unless
     * it found the PM region busy on its way out.
     */
    method Enable(applicable: bool)
      requires Inv() && !active && !asleep
      modifies this`resets, this`io, this`active, this`irqRequested, this`irqHeld, this`gsiRegistered, this`gsiHeld,
               this`regionHeld, this`pmHeld, this`pmAsked, this`pmGot, this`boot, this`tampered
      ensures Inv() && (active ==> irqHeld && boot == Boot(old(io.ctl), old(io.intr)) && MasterReady(io))
      ensures gsiHeld == regionHeld == active && (!active ==> !irqHeld)
      ensures !active ==> (io.ctl == old(io.ctl) && io.intr == old(io.intr)) || (pmAsked == old(pmAsked) + 2 && !pmGot)
    {
      hide Accounted, NoLostWakeup, Armed, AllFromDevices;
      if !applicable { return; }
      var ok := ClaimIo();
      if !ok { return; }
      ok := RequestPm();
      if !ok {
        ReleaseIo();
        return;
      }
      TakeOver();
      irqHeld := *;
      if irqHeld {
        irqRequested := true;
        return;
      }
      GiveBack();
    }

    /** piix4_asf_disable: stop, then give back what enable took, the registers only if the PM region can be had. */
    method Disable()
      requires Inv() && !asleep
      modifies this
      ensures Inv() && !active && !irqHeld && !gsiHeld && !regionHeld
      ensures old(active) ==> pmAsked == old(pmAsked) + 2 && !deliverOk
      ensures old(active) && pmGot ==> io.ctl == old(boot.ctl) && io.intr == old(boot.intr)
      ensures !old(active) ==> io == old(io)
      ensures delivered == old(delivered) && asleep == old(asleep)
    {
      hide Accounted, HasUnread, MasterReady, Armed, NoLostWakeup, AllFromDevices;
      if active {
        Stop();
        GiveBack();
      }
      resumeListen := false;
    }

    // ---- Whole runs ----------------------------------------------------------------

    /** Interrupts while no driver code runs. */
    method Interrupts()
      requires Inv()
      modifies this`io
      ensures Inv() && io.log.read == old(io.log.read)
    {
      hide Accounted, AllFromDevices, NoLostWakeup;
      Env();
    }

    /** The IRQ thread and the delivery of what it collected. */
    method IrqRun()
      requires Inv() && active
      modifies this`io, this`listening, this`pmHeld, this`pmAsked, this`pmGot, this`tampered, this`resets, this`delivered
      ensures Inv() && (deliverOk ==> Told(traffic, old(io.log), io.log, old(delivered), delivered))
      ensures !deliverOk ==> delivered == old(delivered)
      ensures old(listening) && io.log.errors == old(io.log.errors) ==> EveryRead(old(io.log), io.log)
    {
      hide Inv, Told, Handled, AllFromDevices, EveryRead;
      var n, outcome := IrqThread();
      if outcome != NotListening && io.log.errors == old(io.log.errors) { HandledIsRead(traffic, old(io.log), io.log, n); }
      Deliver(n);
      if outcome == NotListening {
        assert delivered == old(delivered);
        NothingToTell(traffic, old(io.log), io.log, delivered);
      } else if deliverOk {
        HandledIsTold(traffic, old(io.log), io.log, old(delivered), n);
      }
    }

    /**
     * One event; those the PM core cannot issue now do nothing. Starting again after a stop
     * is not one: the driver does not. What an event reads is delivered, if that is allowed.
     */
    method Handle(event: Event)
      requires Inv() && active
      modifies this
      ensures Inv() && active && boot == old(boot) && (old(deliverOk) && !event.StopCall? ==> deliverOk)
      ensures wellBehaved && old(deliverOk) && !event.StopCall? ==> Told(traffic, old(io.log), io.log, old(delivered), delivered)
      ensures event.Xfer? ==> pmAsked == old(pmAsked) + 1
      ensures event.IrqWork? && old(listening) && io.log.errors == old(io.log.errors) ==> EveryRead(old(io.log), io.log)
      ensures event.StartCall? && !old(asleep) && old(irqRequested) ==> deliverOk && wantListen && (pmGot ==> listening)
      ensures event.StopCall? && !old(asleep) ==> !deliverOk && !wantListen && !listening && !irqHeld
      ensures (event.SuspendCall? ==> asleep) && (event.ResumeCall? ==> !asleep)
      ensures event.SuspendCall? && !old(asleep) ==> !wantListen && resumeListen == old(wantListen)
      ensures event.ResumeCall? && old(asleep) ==> wantListen == old(resumeListen) && (wantListen ==> listening == pmGot)
    {
      hide Inv, Told, EveryRead;
      match event
      case Xfer(addr) =>
        var result; ghost var made, heard;
        result, made, heard := AccessAsf(addr);
      case Interrupts =>
        Interrupts();
        NothingToTell(traffic, old(io.log), io.log, delivered);
      case IrqWork =>
        IrqRun();
      case StartCall =>
        if !asleep && irqRequested { Start(); }
        NothingToTell(traffic, old(io.log), io.log, delivered);
      case StopCall =>
        if !asleep { Stop(); }
      case SuspendCall =>
        if !asleep { Suspend(); }
        NothingToTell(traffic, old(io.log), io.log, delivered);
      case Firmware(c, intr, slvInt, slvErr, f0, f1) =>
        if asleep { FirmwareRewrites(c, intr, slvInt, slvErr, f0, f1); }
        NothingToTell(traffic, old(io.log), io.log, delivered);
      case ResumeCall =>
        if asleep { Resume(); }
        NothingToTell(traffic, old(io.log), io.log, delivered);
    }

    /**
     * Any run of the driver between enable and disable. Every section of code under the
     * mutex is one event. With well-behaved banks and delivery allowed throughout, every
     * Host Notify read during the run has been handed to the adapter.
     */
    method Run(script: seq<Event>)
      requires Inv() && active
      modifies this
      ensures Inv() && active && boot == old(boot)
      ensures wellBehaved && old(deliverOk) && (forall i :: 0 <= i < |script| ==> !script[i].StopCall?) ==>
                Told(traffic, old(io.log), io.log, old(delivered), delivered)
    {
      hide *;
      ghost var kept := wellBehaved && deliverOk;
      NothingToTell(traffic, io.log, io.log, delivered);
      for i := 0 to |script|
        invariant Inv() && active && boot == old(boot)
        invariant kept && (forall j :: 0 <= j < i ==> !script[j].StopCall?) ==>
                    deliverOk && Told(traffic, old(io.log), io.log, old(delivered), delivered)
      {
        ghost var log, told := io.log, delivered;
        Handle(script[i]);
        if kept && forall j :: 0 <= j < i + 1 ==> !script[j].StopCall? {
          ToldGrows(traffic, old(io.log), log, io.log, old(delivered), told, delivered);
        }
      }
    }

    /**
     * Enable, any run, disable: every resource is given back, and the firmware's register
     * values with it if the PM region was to be had in the end.
     */
    method Lifetime(applicable: bool, script: seq<Event>)
      requires Inv() && !active && !asleep
      modifies this
      ensures Inv() && !active && !irqHeld && !gsiHeld && !regionHeld
      ensures pmGot ==> io.ctl == old(io.ctl) && io.intr == old(io.intr)
    {
      hide *;
      Enable(applicable);
      if active {
        Run(script);
        if asleep { Resume(); }
        Disable();
      }
    }
  }
}
