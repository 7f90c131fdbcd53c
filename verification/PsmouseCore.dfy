/**
 * The receive path as it runs: one packet buffer of eight bytes, rewritten in place.
 * Every method is the function of the same name in AlpsBytes on the state it finds.
 */
module PsmouseCore {
  import opened Basics
  import opened AlpsBytes

  class Psmouse {
    const config: Config
    const resetAfter: nat
    var state: State
    const packet: array<octet>
    var pktcnt: nat
    var outOfSync: nat
    var timer: bool
    var reports: seq<Report>
    var log: seq<Note>

    ghost predicate Sized()
      reads this, packet
    {
      packet.Length == 8 && pktcnt <= 8
    }

    ghost function M(): Mouse
      requires Sized()
      reads this, packet
    {
      Mouse(state, packet[..pktcnt], outOfSync, timer, reports, log)
    }

    ghost predicate Valid()
      reads this, packet
    {
      Sized() && Sane(config) && Inv(config, resetAfter, M())
    }

    constructor (config: Config, resetAfter: nat)
      requires Sane(config)
      ensures Valid() && M() == AT_REST && this.config == config && this.resetAfter == resetAfter && fresh(packet)
    {
      this.config, this.resetAfter := config, resetAfter;
      packet := new octet[8];
      state, pktcnt, outOfSync, timer, reports, log := Initializing, 0, 0, false, [], [];
    }

    method SetState(newState: State, note: Note)
      requires Sized()
      modifies this
      ensures Sized() && M() == AlpsBytes.SetState(old(M()), newState, note)
    {
      state := newState;
      pktcnt, outOfSync := 0, 0;
      log := log + [note];
    }

    method HandleInterleavedPs2() returns (rc: Rc)
      requires Sized() && pktcnt >= 4
      modifies this, packet
      ensures Sized() && (rc, M()) == HandleInterleaved(config, old(M()))
    {
      hide HighBit, ValidFirst, Unmark;
      if pktcnt < 6 { return GoodData; }
      if pktcnt == 6 {
        timer := true;
        return GoodData;
      }
      timer := false;
      ghost var p := old(M()).packet;
      assert packet[..6] == p[..6] && packet[3..6] == p[3..6];
      if HighBit(packet[6]) {
        if HighBit(packet[3] | packet[4] | packet[5]) || !ValidFirst(config, packet[6]) {
          return BadData;
        }
        reports := reports + [Alps(packet[..6])];
        packet[0] := packet[6];
        pktcnt := 1;
        assert packet[..1] == [p[6]];
      } else {
        reports := reports + [Bare(packet[3..6], false)];
        packet[3] := Unmark(packet[6]);
        pktcnt := 4;
        assert packet[..4] == p[..3] + [Unmark(p[6])];
      }
      return GoodData;
    }

    method ProcessByte() returns (rc: Rc)
      requires Sized() && pktcnt > 0
      modifies this, packet
      ensures Sized() && (rc, M()) == AlpsBytes.ProcessByte(config, old(M()))
    {
      hide HighBit, ValidFirst, IsBare, Marked, HandleInterleaved, ValidSoFar;
      if config.version != V8 && outOfSync == 0 && IsBare(packet[0]) {
        if pktcnt == 3 {
          reports := reports + [Bare(packet[..3], true)];
          return FullPacket;
        }
        return GoodData;
      }
      if config.interleaved && pktcnt >= 4 && Marked(packet[3]) {
        rc := HandleInterleavedPs2();
        return;
      }
      if !ValidFirst(config, packet[0]) { return BadData; }
      if config.version < V5 && 2 <= pktcnt <= config.PktSize() && HighBit(packet[pktcnt - 1]) {
        if config.version == V3_RUSHMORE && pktcnt == config.PktSize() { return FullPacket; }
        return BadData;
      }
      if !ValidSoFar(config, packet[..pktcnt]) { return BadData; }
      if pktcnt == config.PktSize() {
        reports := reports + [Alps(packet[..pktcnt])];
        return FullPacket;
      }
      return GoodData;
    }

    method HandleByte() returns (error: bool)
      requires Sized() && pktcnt > 0
      modifies this, packet
      ensures Sized() && (M(), error) == AlpsBytes.HandleByte(config, resetAfter, old(M()))
    {
      hide AlpsBytes.ProcessByte;
      CountsLater(config, M());
      var rc := ProcessByte();
      match rc {
        case BadData =>
          if state == Activated {
            outOfSync := outOfSync + 1;
            if outOfSync == resetAfter {
              SetState(Ignore, BadNote(true));
              return true;
            }
            log := log + [BadNote(false)];
          }
          pktcnt := 0;
        case FullPacket =>
          pktcnt := 0;
          outOfSync := 0;
          log := log + [FullNote];
        case GoodData =>
      }
      return false;
    }

    method ReceiveByte(data: octet, stale: bool)
      requires Valid()
      modifies this, packet
      ensures Valid() && M() == Receive(config, resetAfter, old(M()), data, stale)
    {
      hide AlpsBytes.HandleByte, Inv, Sane;
      ghost var m := M();
      ReceiveKeeps(config, resetAfter, m, data, stale);
      if state != CmdMode && state != Activated { return; }
      if state == Activated && pktcnt > 0 && stale {
        SetState(Resyncing, StateNote(false));
        return;
      }
      HasRoom(config, resetAfter, m);
      packet[pktcnt] := data;
      pktcnt := pktcnt + 1;
      assert packet[..pktcnt] == m.packet + [data];
      if packet[0] == RET_BAT && pktcnt <= 2 {
        if pktcnt == 1 { return; }
        if packet[1] == RET_ID {
          SetState(Ignore, StateNote(true));
          return;
        }
        pktcnt := 1;
        assert packet[..1] == [RET_BAT];
        var error := HandleByte();
        if error { return; }
        BatIsRefused(config, resetAfter, m.(packet := [RET_BAT]));
        ghost var m1 := M();
        packet[pktcnt] := data;
        pktcnt := pktcnt + 1;
        assert packet[..pktcnt] == m1.packet + [data];
      }
      var _ := HandleByte();
    }

    method FlushPacket()
      requires Valid()
      modifies this, packet
      ensures Valid() && M() == Flush(config, old(M()))
    {
      hide Inv, Sane, HighBit;
      FlushKeeps(config, resetAfter, M());
      if !timer { return; }
      timer := false;
      if pktcnt == config.PktSize() {
        if !HighBit(packet[3] | packet[4] | packet[5]) {
          reports := reports + [Alps(packet[..pktcnt])];
        }
        pktcnt := 0;
      }
    }
  }

  /** A store never goes past the buffer. */
  lemma HasRoom(c: Config, resetAfter: nat, m: Mouse)
    requires Inv(c, resetAfter, m)
    ensures |m.packet| < 8
  {
    hide Fits, IsBare, GenuineReport, Counted;
  }

  /** The protocol handler leaves the core's counters alone. */
  lemma CountsLater(c: Config, m: Mouse)
    requires m.packet != []
    ensures var (_, m1) := ProcessByte(c, m); m1.state == m.state && m1.outOfSync == m.outOfSync && m1.log == m.log
  {
  }

  lemma BatIsRefused(c: Config, resetAfter: nat, m: Mouse)
    requires Sane(c) && m.packet == [RET_BAT]
    ensures HandleByte(c, resetAfter, m).0.packet == []
  {
    Bits(RET_BAT);
  }
}