/**
 * RMI4 register access over SMBus: the device resolves SMBus command codes through
 * an 8-entry mapping table, of which the driver keeps a round-robin copy.
 */
module RmiSmbus {
  import opened Basics
  import opened RmiRegisters

  const MAX_COUNT: nat := 32
  const MAP_SIZE: nat := 8
  const TABLE_COMMANDS: nat := 0x80
  const FLAGS_WE: byte := 0x01

  datatype Entry = Entry(rmiaddr: nat, readcount: byte, flags: byte)

  const EMPTY := Entry(0, 0, 0)

  /** The four bytes of a table entry on the wire; rmiaddr is little-endian. */
  function Encode(e: Entry): (s: seq<byte>)
    requires e.rmiaddr < SIZE
    ensures |s| == 4 && Decode(s) == e
  {
    [e.rmiaddr % 256, e.rmiaddr / 256, e.readcount, e.flags]
  }

  function Decode(s: seq<byte>): Entry
    requires |s| == 4
  {
    Entry(s[0] as int + 256 * s[1] as int, s[2], s[3])
  }

  /** The table entry the lookup of rmi_smb_get_command_code accepts. */
  predicate Hits(e: Entry, rmiaddr: nat, bytecount: nat, isread: bool) {
    e.rmiaddr == rmiaddr && (if isread then e.readcount == bytecount else e.flags % 2 == FLAGS_WE)
  }

  /** The touchpad's side. Whether a failed write reached it is not known to the driver. */
  class Touchpad {
    var table: seq<Entry>
    var regs: Regs
    const atomicBlocks: bool       // a failed block write leaves the registers alone
    ghost var failures: nat        // bus errors the driver has seen

    constructor (regs: Regs, table: seq<Entry>, atomicBlocks: bool)
      requires |table| == MAP_SIZE
      ensures this.regs == regs && this.table == table && this.atomicBlocks == atomicBlocks
    {
      this.regs, this.table, this.atomicBlocks := regs, table, atomicBlocks;
      failures := 0;
    }

    /** SMBus block write to a table command: sets the entry. */
    method WriteTable(command: nat, buf: seq<byte>) returns (ok: bool)
      requires |table| == MAP_SIZE && TABLE_COMMANDS <= command < TABLE_COMMANDS + MAP_SIZE && |buf| == 4
      modifies this`table, this`failures
      ensures |table| == MAP_SIZE && failures == old(failures) + if ok then 0 else 1
      ensures var written := old(table)[command - TABLE_COMMANDS := Decode(buf)];
        table == written || (!ok && table == old(table))
    {
      ok := *;
      var reached: bool := *;
      if ok || reached {
        table := table[command - TABLE_COMMANDS := Decode(buf)];
      }
      if !ok { failures := failures + 1; }
    }

    /** SMBus block write through a write-enabled entry. */
    method WriteRegs(command: nat, buf: seq<byte>) returns (ok: bool, ghost done: nat)
      requires |table| == MAP_SIZE && command < MAP_SIZE && table[command].flags % 2 == FLAGS_WE && 1 <= |buf| <= MAX_COUNT
      modifies this`regs, this`failures
      ensures failures == old(failures) + if ok then 0 else 1
      ensures done <= |buf| && regs == FlatWrite(old(regs), table[command].rmiaddr, buf[..done])
      ensures if ok then done == |buf| else atomicBlocks ==> done == 0
    {
      ok := *;
      var n: nat :| n <= |buf| && (ok ==> n == |buf|) && (!ok && atomicBlocks ==> n == 0);
      regs := FlatWrite(regs, table[command].rmiaddr, buf[..n]);
      done := n;
      if !ok { failures := failures + 1; }
    }

    /** SMBus block read: as many bytes as the entry's read count says. */
    method ReadRegs(command: nat) returns (ok: bool, data: seq<byte>)
      requires |table| == MAP_SIZE && command < MAP_SIZE
      modifies this`failures
      ensures failures == old(failures) + if ok then 0 else 1
      ensures ok ==> data == FlatRead(regs, table[command].rmiaddr, table[command].readcount)
    {
      ok := *;
      data := FlatRead(regs, table[command].rmiaddr, table[command].readcount);
      if !ok { failures := failures + 1; }
    }
  }

  /** (int)len for a size_t. */
  function ToInt32(len: nat): int {
    var m := len % 0x1_0000_0000;
    if m < 0x8000_0000 then m else m - 0x1_0000_0000
  }

  /** How many of `len` bytes rmi_smb_read_block asks the device for. */
  function Asked(len: nat): (n: nat)
    ensures n <= len
  {
    if ToInt32(len) > 0 then ToInt32(len) else 0
  }

  /** What a successful read leaves in a buffer of `len` bytes. */
  function ReadResult(r: Regs, addr: nat, len: nat): seq<byte> {
    FlatRead(r, addr, Asked(len)) + Zeros(len - Asked(len))
  }

  /** A successful read is a flat read, whatever the registers hold, exactly for lengths that fit an int. */
  lemma ReadIsFlatUpToInt(addr: nat, len: nat)
    ensures (forall r: Regs :: ReadResult(r, addr, len) == FlatRead(r, addr, len)) <==> len < 0x8000_0000
  {
    if len < 0x8000_0000 {
      forall r: Regs
        ensures ReadResult(r, addr, len) == FlatRead(r, addr, len)
      {
        assert Asked(len) == len;
      }
    } else {
      var r: Regs := seq(SIZE, i => 1);
      assert Asked(len) < len;
      assert ReadResult(r, addr, len)[len - 1] == 0;
      assert FlatRead(r, addr, len)[len - 1] == r[At(addr, len - 1)] == 1;
    }
  }

  class RmiSmbXport {
    const pad: Touchpad
    var mappingTable: array<Entry>
    var tableIndex: nat

    ghost predicate Shape()
      reads this, mappingTable, pad
    {
      mappingTable.Length == MAP_SIZE && tableIndex < MAP_SIZE && |pad.table| == MAP_SIZE
    }

    /** Cache coherence: an entry is empty, or equals the device's entry at the same index. */
    ghost predicate Valid()
      reads this, mappingTable, pad
    {
      Shape() && forall i :: 0 <= i < MAP_SIZE ==> mappingTable[i] == EMPTY || mappingTable[i] == pad.table[i]
    }

    constructor (pad: Touchpad)
      requires |pad.table| == MAP_SIZE
      ensures Valid() && this.pad == pad && tableIndex == 0 && fresh(mappingTable)
      ensures forall i :: 0 <= i < MAP_SIZE ==> mappingTable[i] == EMPTY
    {
      this.pad := pad;
      mappingTable := new Entry[MAP_SIZE](_ => EMPTY);
      tableIndex := 0;
    }

    /** rmi_smb_clear_state, after the device has flushed its table: coherent again whatever the device holds now. */
    method ClearState()
      requires Shape()
      modifies mappingTable
      ensures Valid() && forall i :: 0 <= i < MAP_SIZE ==> mappingTable[i] == EMPTY
    {
      for i := 0 to MAP_SIZE
        invariant Shape() && forall j :: 0 <= j < i ==> mappingTable[j] == EMPTY
      {
        mappingTable[i] := EMPTY;
      }
    }

    /** The first entry that serves the access, or MAP_SIZE. */
    method Lookup(rmiaddr: nat, bytecount: nat, isread: bool) returns (i: nat)
      requires mappingTable.Length == MAP_SIZE
      ensures i <= MAP_SIZE && (i < MAP_SIZE ==> Hits(mappingTable[i], rmiaddr, bytecount, isread))
      ensures forall j :: 0 <= j < i ==> !Hits(mappingTable[j], rmiaddr, bytecount, isread)
    {
      i := 0;
      while i < MAP_SIZE
        invariant i <= MAP_SIZE
        invariant forall j :: 0 <= j < i ==> !Hits(mappingTable[j], rmiaddr, bytecount, isread)
      {
        if mappingTable[i].rmiaddr == rmiaddr {
          if isread {
            if mappingTable[i].readcount == bytecount { return; }
          } else {
            if mappingTable[i].flags % 2 == FLAGS_WE { return; }
          }
        }
        i := i + 1;
      }
    }

    /**
     * rmi_smb_get_command_code. On success the device's entry at `code` addresses
     * `rmiaddr`, with exactly `bytecount` as read count or with writing enabled.
     */
    method GetCommandCode(rmiaddr: nat, bytecount: nat, isread: bool) returns (ok: bool, code: nat)
      requires Valid() && rmiaddr < SIZE && 1 <= bytecount <= MAX_COUNT
      modifies mappingTable, this`tableIndex, pad`table, pad`failures
      ensures pad.failures == old(pad.failures) + if ok then 0 else 1
      ensures Valid()
      ensures ok ==> code < MAP_SIZE && Hits(pad.table[code], rmiaddr, bytecount, isread)
      ensures (exists j :: 0 <= j < MAP_SIZE && Hits(old(mappingTable[j]), rmiaddr, bytecount, isread)) ==>
                ok && tableIndex == old(tableIndex) && pad.table == old(pad.table) && mappingTable[..] == old(mappingTable[..])
      ensures (forall j :: 0 <= j < MAP_SIZE ==> !Hits(old(mappingTable[j]), rmiaddr, bytecount, isread)) ==>
                tableIndex == (old(tableIndex) + 1) % MAP_SIZE && (ok ==> code == old(tableIndex))
      ensures forall j :: 0 <= j < MAP_SIZE && j != old(tableIndex) ==>
                mappingTable[j] == old(mappingTable[j]) && pad.table[j] == old(pad.table[j])
    {
      var i := Lookup(rmiaddr, bytecount, isread);
      if i < MAP_SIZE {
        return true, i;
      }
      i := tableIndex;
      tableIndex := (i + 1) % MAP_SIZE;
      var newMap := Entry(rmiaddr, bytecount, if isread then 0 else FLAGS_WE);
      ok := pad.WriteTable(TABLE_COMMANDS + i, Encode(newMap));
      if !ok {
        newMap := EMPTY;
      }
      mappingTable[i] := newMap;
      code := i;
    }

    /** One turn of the write loop. */
    method WriteChunk(rmiaddr: nat, block: seq<byte>) returns (ok: bool, ghost done: nat)
      requires Valid() && rmiaddr < SIZE && 1 <= |block| <= MAX_COUNT
      modifies mappingTable, this`tableIndex, pad`table, pad`regs, pad`failures
      ensures pad.failures == old(pad.failures) + if ok then 0 else 1
      ensures Valid() && done <= |block| && pad.regs == FlatWrite(old(pad.regs), rmiaddr, block[..done])
      ensures if ok then done == |block| else pad.atomicBlocks ==> done == 0
    {
      var code;
      ok, code := GetCommandCode(rmiaddr, |block|, false);
      done := 0;
      if !ok { return; }
      ok, done := pad.WriteRegs(code, block);
    }

    /** One turn of the read loop: exactly `blockLen` bytes come back. */
    method ReadChunk(rmiaddr: nat, blockLen: nat) returns (ok: bool, block: seq<byte>)
      requires Valid() && rmiaddr < SIZE && 1 <= blockLen <= MAX_COUNT
      modifies mappingTable, this`tableIndex, pad`table, pad`failures
      ensures pad.failures == old(pad.failures) + if ok then 0 else 1
      ensures Valid() && (ok ==> block == FlatRead(pad.regs, rmiaddr, blockLen))
    {
      var code;
      ok, code := GetCommandCode(rmiaddr, blockLen, true);
      block := [];
      if !ok { return; }
      ok, block := pad.ReadRegs(code);
    }

    /**
     * rmi_smb_write_block. `done` bytes reached the registers: all of them on success;
     * on error, if blocks are atomic, the whole 32-byte blocks before the failing one.
     */
    method WriteBlock(addr: nat, data: seq<byte>) returns (ok: bool, ghost done: nat)
      requires Valid() && addr < SIZE
      modifies mappingTable, this`tableIndex, pad`table, pad`regs, pad`failures
      ensures pad.failures == old(pad.failures) + if ok then 0 else 1
      ensures Valid()
      ensures done <= |data| && pad.regs == FlatWrite(old(pad.regs), addr, data[..done])
      ensures if ok then done == |data| else pad.atomicBlocks ==> done < |data| && done % MAX_COUNT == 0
    {
      hide Valid, FlatWrite, Reg;
      ok := true;
      done := 0;
      var rmiaddr, curLen: nat, sent := addr, |data|, 0;
      RegOfU16(addr);
      assert data[..0] == [] && pad.regs == FlatWrite(pad.regs, addr, []) by { EmptyWrite(pad.regs, addr); }
      while curLen > 0
        invariant pad.failures == old(pad.failures)
        invariant Valid() && ok && done == sent == |data| - curLen && 0 <= sent && rmiaddr == Reg(addr + sent)
        invariant curLen > 0 ==> sent % MAX_COUNT == 0
        invariant pad.regs == FlatWrite(old(pad.regs), addr, data[..sent])
        decreases curLen
      {
        var blockLen := if curLen < MAX_COUNT then curLen else MAX_COUNT;
        var block := data[sent..sent + blockLen];
        ghost var reached;
        ok, reached := WriteChunk(rmiaddr, block);
        done := sent + reached;
        BlockExtends(old(pad.regs), addr, data, sent, blockLen, reached);
        if !ok { return; }
        curLen := curLen - blockLen;
        RegAdds(addr + sent, blockLen);
        sent := sent + blockLen;
        rmiaddr := Reg(rmiaddr + blockLen);
      }
      assert data[..sent] == data;
    }

    /**
     * rmi_smb_read_block into `buf`. Success is a flat read of as many bytes as the
     * source's int count asks for; an error leaves a prefix of whole 32-byte blocks.
     */
    method ReadBlock(addr: nat, buf: array<byte>) returns (ok: bool, ghost done: nat)
      requires Valid() && addr < SIZE && buf as object != mappingTable
      modifies mappingTable, this`tableIndex, pad`table, buf, pad`failures
      ensures pad.failures == old(pad.failures) + if ok then 0 else 1
      ensures Valid() && done <= Asked(buf.Length)
      ensures buf[..] == FlatRead(pad.regs, addr, done) + Zeros(buf.Length - done)
      ensures if ok then done == Asked(buf.Length) else done < Asked(buf.Length) && done % MAX_COUNT == 0
    {
      hide Valid, FlatRead, Reg, ToInt32;
      ok, done := true, 0;
      var rmiaddr, curLen, at := addr, ToInt32(buf.Length), 0;
      RegOfU16(addr);
      ClearBuffer(buf);
      assert buf[..] == FlatRead(pad.regs, addr, 0) + Zeros(buf.Length);
      while curLen > 0
        invariant pad.failures == old(pad.failures)
        invariant Valid() && ok && 0 <= at && rmiaddr == Reg(addr + at) && curLen == ToInt32(buf.Length) - at
        invariant curLen > 0 ==> at % MAX_COUNT == 0 && done == at
        invariant curLen <= 0 ==> done == Asked(buf.Length)
        invariant done <= Asked(buf.Length) && buf[..] == FlatRead(pad.regs, addr, done) + Zeros(buf.Length - done)
        decreases curLen
      {
        var blockLen := if curLen < MAX_COUNT then curLen else MAX_COUNT;
        var block;
        ok, block := ReadChunk(rmiaddr, blockLen);
        if !ok { return; }
        CopyBlock(buf, at, block);
        BlockFills(pad.regs, addr, at, blockLen, buf.Length);
        done := at + blockLen;
        curLen := curLen - MAX_COUNT;
        RegAdds(addr + at, MAX_COUNT);
        at := at + MAX_COUNT;
        rmiaddr := Reg(rmiaddr + MAX_COUNT);
      }
    }
  }

  lemma RegOfU16(addr: nat)
    requires addr < SIZE
    ensures Reg(addr + 0) == addr
  {
  }

  lemma EmptyWrite(r: Regs, addr: nat)
    ensures FlatWrite(r, addr, []) == r
  {
  }

  method ClearBuffer(buf: array<byte>)
    modifies buf
    ensures buf[..] == Zeros(buf.Length)
  {
    for i := 0 to buf.Length
      invariant forall j :: 0 <= j < i ==> buf[j] == 0
    {
      buf[i] := 0;
    }
  }

  /** The bus layer stores the block it received at databuff. */
  method CopyBlock(buf: array<byte>, at: nat, block: seq<byte>)
    requires at + |block| <= buf.Length
    modifies buf
    ensures buf[..] == old(buf[..])[..at] + block + old(buf[..])[at + |block|..]
  {
    for i := 0 to |block|
      invariant forall j :: 0 <= j < buf.Length ==> buf[j] == if at <= j < at + i then block[j - at] else old(buf[j])
    {
      buf[at + i] := block[i];
    }
  }

  lemma BlockExtends(r: Regs, addr: nat, data: seq<byte>, sent: nat, blockLen: nat, reached: nat)
    requires sent + blockLen <= |data| && reached <= blockLen
    ensures FlatWrite(FlatWrite(r, addr, data[..sent]), Reg(addr + sent), data[sent..sent + blockLen][..reached])
         == FlatWrite(r, addr, data[..sent + reached])
  {
    hide FlatWrite, Reg;
    var block := data[sent..sent + blockLen][..reached];
    assert block == data[sent..sent + reached];
    assert data[..sent + reached] == data[..sent] + block;
    WriteConcat(r, addr, data[..sent], block);
  }

  lemma BlockFills(r: Regs, addr: nat, at: nat, n: nat, len: nat)
    requires at + n <= len
    ensures var was := FlatRead(r, addr, at) + Zeros(len - at);
      was[..at] + FlatRead(r, Reg(addr + at), n) + was[at + n..] == FlatRead(r, addr, at + n) + Zeros(len - (at + n))
  {
    ReadConcat(r, addr, at, n);
  }

  datatype Op = WriteOp(addr: nat, data: seq<byte>) | ReadOp(addr: nat, len: nat) | ResetOp(table: seq<Entry>)

  /** The flat registers after `ops` if every write went through in full. */
  function Meant(r: Regs, ops: seq<Op>): Regs
    decreases |ops|
  {
    if ops == [] then r
    else
      var before := Meant(r, ops[..|ops| - 1]);
      match ops[|ops| - 1]
      case WriteOp(addr, data) => FlatWrite(before, Reg(addr), data)
      case _ => before
  }

  /** No write among the first n operations failed. */
  ghost predicate Intact(ops: seq<Op>, got: seq<Option<seq<byte>>>, n: nat)
    requires n <= |ops| && n <= |got|
  {
    forall j :: 0 <= j < n && ops[j].WriteOp? ==> got[j].Some?
  }

  /** The i-th operation read what a flat read would have, if it succeeded and no write before it had failed. */
  ghost predicate ReadsFlat(r: Regs, ops: seq<Op>, got: seq<Option<seq<byte>>>, i: nat)
    requires i < |ops| && i < |got|
  {
    ops[i].ReadOp? && got[i].Some? && Intact(ops, got, i) ==>
      got[i].value == ReadResult(Meant(r, ops[..i]), Reg(ops[i].addr), ops[i].len)
  }

  /** One operation of a history: None if it failed. */
  method Perform(x: RmiSmbXport, op: Op) returns (got: Option<seq<byte>>)
    requires x.Valid() && (op.ResetOp? ==> |op.table| == MAP_SIZE)
    modifies x.mappingTable, x`tableIndex, x.pad`table, x.pad`regs, x.pad`failures
    ensures x.Valid() && x.pad.failures == old(x.pad.failures) + if got.Some? then 0 else 1
    ensures op.WriteOp? && got.Some? ==> x.pad.regs == FlatWrite(old(x.pad.regs), Reg(op.addr), op.data)
    ensures !op.WriteOp? ==> x.pad.regs == old(x.pad.regs)
    ensures op.ReadOp? && got.Some? ==> got.value == ReadResult(x.pad.regs, Reg(op.addr), op.len)
  {
    match op {
      case WriteOp(addr, data) =>
        var ok; ghost var done;
        ok, done := x.WriteBlock(Reg(addr), data);
        assert ok ==> data[..done] == data;
        got := if ok then Some([]) else None;
      case ReadOp(addr, len) =>
        var buf := new byte[len];
        var ok; ghost var done;
        ok, done := x.ReadBlock(Reg(addr), buf);
        got := if ok then Some(buf[..]) else None;
      case ResetOp(table) =>
        x.pad.table := table;
        x.ClearState();
        got := Some([]);
    }
  }

  ghost predicate NoneFailed(got: seq<Option<seq<byte>>>) {
    forall i :: 0 <= i < |got| ==> got[i].Some?
  }

  lemma NoneFailedMore(got: seq<Option<seq<byte>>>, g: Option<seq<byte>>)
    ensures NoneFailed(got + [g]) <==> NoneFailed(got) && g.Some?
  {
    assert (got + [g])[|got|] == g;
    assert forall j :: 0 <= j < |got| ==> (got + [g])[j] == got[j];
  }

  lemma IntactMore(ops: seq<Op>, got: seq<Option<seq<byte>>>, g: Option<seq<byte>>, i: nat)
    requires i < |ops| && |got| == i
    ensures forall n :: 0 <= n <= i ==> Intact(ops, got + [g], n) == Intact(ops, got, n)
    ensures Intact(ops, got + [g], i + 1) <==> Intact(ops, got, i) && (ops[i].WriteOp? ==> g.Some?)
  {
    var got' := got + [g];
    assert forall j :: 0 <= j < i ==> got'[j] == got[j];
  }

  /**
   * Any history of writes, reads and resets (the device comes back with any table and the
   * driver forgets its own), with failures anywhere. As long as no write has failed, every
   * read returns what the flat file holds by then, and the registers are those of the flat
   * file; and an operation fails exactly if the bus does.
   */
  method History(x: RmiSmbXport, ops: seq<Op>) returns (got: seq<Option<seq<byte>>>)
    requires x.Valid() && forall i :: 0 <= i < |ops| && ops[i].ResetOp? ==> |ops[i].table| == MAP_SIZE
    modifies x.mappingTable, x`tableIndex, x.pad`table, x.pad`regs, x.pad`failures
    ensures x.Valid() && |got| == |ops|
    ensures forall i :: 0 <= i < |ops| ==> ReadsFlat(old(x.pad.regs), ops, got, i)
    ensures Intact(ops, got, |ops|) ==> x.pad.regs == Meant(old(x.pad.regs), ops)
    ensures x.pad.failures == old(x.pad.failures) <==> NoneFailed(got)
  {
    hide Intact, FlatWrite, FlatRead, ReadResult, x.Valid;
    got := [];
    assert NoneFailed(got);
    ghost var r := x.pad.regs;
    assert Meant(r, ops[..0]) == r;
    for i := 0 to |ops|
      invariant x.Valid() && |got| == i && x.pad.failures >= old(x.pad.failures)
      invariant forall j :: 0 <= j < i ==> ReadsFlat(r, ops, got, j)
      invariant Intact(ops, got, i) ==> x.pad.regs == Meant(r, ops[..i])
      invariant x.pad.failures == old(x.pad.failures) <==> NoneFailed(got)
    {
      assert ops[..i + 1][..i] == ops[..i];
      var g := Perform(x, ops[i]);
      IntactMore(ops, got, g, i);
      NoneFailedMore(got, g);
      forall j | 0 <= j < i
        ensures ReadsFlat(r, ops, got + [g], j)
      {
        assert ReadsFlat(r, ops, got, j);
      }
      got := got + [g];
    }
    assert ops[..|ops|] == ops;
  }

  /** A write and a read of the same block through the table, whatever is evicted on the way. */
  method WriteThenRead(x: RmiSmbXport, addr: nat, data: seq<byte>, buf: array<byte>) returns (ok: bool)
    requires x.Valid() && addr < SIZE && |data| == buf.Length <= SIZE && buf as object != x.mappingTable
    modifies x.mappingTable, x`tableIndex, x.pad`table, x.pad`regs, x.pad`failures, buf
    ensures x.Valid() && (ok ==> buf[..] == data)
  {
    hide x.Valid, FlatWrite, FlatRead, Reg;
    ghost var done;
    ok, done := x.WriteBlock(addr, data);
    if ok {
      ReadBackFits(old(x.pad.regs), addr, data);
      assert data[..done] == data;
      ghost var got;
      ok, got := x.ReadBlock(addr, buf);
      assert ok ==> got == |data| && buf[..] == FlatRead(x.pad.regs, addr, |data|);
    }
  }
}
