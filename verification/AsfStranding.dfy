/**
 * A run in which a Host Notify is lost without any reception error: a stuck bank makes the
 * IRQ thread give up listening, the PM region being busy, while a message has just come in.
 */
module AsfStranding {
  import opened AsfHardware
  import opened AsfEffects

  /** The device at 0x2c sends Host Notifies, one after the other. */
  const TRAFFIC: nat -> Message := _ => Message(2 * HOST_ADDR, [2 * 0x2c, 0, 0])

  /** Listening, the first message in bank 0, its interrupt taken and the IRQ thread about to run. */
  const BEFORE := Io(Control(true, HOST_ADDR, false, 0, false, false, 0, false, true), true, false, false,
                     Bank(true, 0), Bank(false, 0), true, false, Log(1, {}, {}, 0))

  /** Bank 0 selected, read and acknowledged `k` times, with a full flag that does not clear. */
  function ReadStuck(io: Io, k: nat): Io {
    if k == 0 then io
    else
      var before := ReadStuck(io, k - 1);
      var selected := OutBnkSel(before, SelectOf(before, 0), false);
      OutBnkSel(MarkRead(selected, 0), AckOf(SelectOf(before, 0), 0), false)
  }

  /** However often it is read, bank 0 stays flagged with its first message, and is the only one. */
  lemma {:induction false} StaysStuck(io: Io, k: nat)
    requires io.b0 == Bank(true, 0) && !io.b1.full && io.ctl.listn && !io.ctl.rst && k > 0
    ensures var after := ReadStuck(io, k);
      && after == io.(ctl := io.ctl.(sel := false), log := io.log.(read := io.log.read + {0}, lost := after.log.lost))
      && after.log.lost == io.log.lost
  {
    if k > 1 { StaysStuck(io, k - 1); }
  }

  /**
   * The IRQ thread masks the interrupt and reads the stuck bank DRAIN_MAX times; a second
   * message arrives; the drain is wedged and the PM region busy, so LISTN goes off; the
   * interrupt is dropped; and the next transfer resets the slave with the message unread.
   */
  lemma AHostNotifyIsLost()
    ensures Ledger(BEFORE) && Armed(BEFORE) && !Empty(BEFORE) && IsHostNotify(TRAFFIC(1))
    ensures var drained := ReadStuck(BEFORE.(intr := false, pending := false), DRAIN_MAX);
      var wedged := Arrive(drained, 1);
      var deaf := wedged.(ctl := wedged.ctl.(listn := false));
      var dropped := HardHandler(deaf, false);
      var reset := ResetSlave(dropped, true);
      && InterruptStep(drained, wedged, true, true) && !Empty(wedged)
      && InterruptStep(deaf, dropped, false, true) && Unread(dropped) == {1}
      && Ledger(reset) && reset.log.errors == 0
      && 0 in reset.log.read && 1 !in reset.log.read && 1 in reset.log.lost
  {
    hide ReadStuck;
    StaysStuck(BEFORE.(intr := false, pending := false), DRAIN_MAX);
    var drained := ReadStuck(BEFORE.(intr := false, pending := false), DRAIN_MAX);
    assert !BankOf(drained, 1).full && CanReceive(drained);
  }
}
