/**
 * The flat RMI4 register file that block reads and writes are meant to look like.
 * Addresses are 16 bits wide and wrap.
 */
module RmiRegisters {
  import opened Basics

  const SIZE := 0x1_0000

  type Regs = r: seq<byte> | |r| == SIZE witness seq(SIZE, i => 0)

  /** A u16 register address. */
  function Reg(a: nat): (x: nat)
    ensures x < SIZE
  {
    a % SIZE
  }

  /** The register of byte `i` of a block at `addr`. */
  function At(addr: nat, i: nat): (x: nat)
    ensures x < SIZE
  {
    Reg(addr + i)
  }

  lemma RegAdds(a: nat, k: nat)
    ensures Reg(Reg(a) + k) == Reg(a + k)
  {
  }

  lemma RegsAreDistinct(a: nat, i: nat, j: nat)
    requires i < j
    ensures j - i < SIZE ==> At(a, i) != At(a, j)
    ensures j - i == SIZE ==> At(a, i) == At(a, j)
  {
  }

  function FlatRead(r: Regs, addr: nat, len: nat): (s: seq<byte>)
    ensures |s| == len
    ensures forall i :: 0 <= i < len ==> s[i] == r[At(addr, i)]
  {
    seq(len, i requires 0 <= i < len => r[At(addr, i)])
  }

  /** Bytes are written in order, so where a long write wraps onto itself the last byte wins. */
  function FlatWrite(r: Regs, addr: nat, data: seq<byte>): Regs
    decreases |data|
  {
    if data == [] then r
    else
      var n := |data| - 1;
      FlatWrite(r, addr, data[..n])[At(addr, n) := data[n]]
  }

  function Zeros(n: nat): (s: seq<byte>)
    ensures |s| == n && forall i :: 0 <= i < n ==> s[i] == 0
  {
    seq(n, i => 0)
  }

  lemma ReadConcat(r: Regs, addr: nat, m: nat, n: nat)
    ensures FlatRead(r, addr, m) + FlatRead(r, Reg(addr + m), n) == FlatRead(r, addr, m + n)
  {
    hide Reg;
    var s, t := FlatRead(r, Reg(addr + m), n), FlatRead(r, addr, m + n);
    forall i | 0 <= i < n
      ensures s[i] == t[m + i]
    {
      RegAdds(addr + m, i);
      assert addr + m + i == addr + (m + i);
    }
  }

  lemma {:induction false} WriteConcat(r: Regs, addr: nat, a: seq<byte>, b: seq<byte>)
    ensures FlatWrite(FlatWrite(r, addr, a), Reg(addr + |a|), b) == FlatWrite(r, addr, a + b)
    decreases |b|
  {
    hide Reg;
    if b == [] {
      assert a + b == a;
    } else {
      var n := |b| - 1;
      WriteConcat(r, addr, a, b[..n]);
      assert (a + b)[..|a| + n] == a + b[..n];
      RegAdds(addr + |a|, n);
      assert addr + |a| + n == addr + (|a| + n);
    }
  }

  /** What a write leaves in a register: the last byte written to it, or its old value. */
  lemma {:induction false} WriteAt(r: Regs, addr: nat, data: seq<byte>)
    ensures forall i :: 0 <= i < |data| && (forall j :: i < j < |data| ==> At(addr, j) != At(addr, i)) ==>
              FlatWrite(r, addr, data)[At(addr, i)] == data[i]
    ensures forall x :: 0 <= x < SIZE && (forall i :: 0 <= i < |data| ==> At(addr, i) != x) ==>
              FlatWrite(r, addr, data)[x] == r[x]
    decreases |data|
  {
    hide Reg;
    if data != [] {
      var n := |data| - 1;
      WriteAt(r, addr, data[..n]);
      assert forall i :: 0 <= i < n ==> data[..n][i] == data[i];
    }
  }

  /** Reading back what was written gives it back, for every content, exactly when it fits the address space. */
  lemma ReadBack(r: Regs, addr: nat, len: nat)
    ensures (forall data: seq<byte> :: |data| == len ==> FlatRead(FlatWrite(r, addr, data), addr, len) == data) <==> len <= SIZE
  {
    hide Reg;
    if len <= SIZE {
      forall data: seq<byte> | |data| == len
        ensures FlatRead(FlatWrite(r, addr, data), addr, len) == data
      {
        ReadBackFits(r, addr, data);
      }
    } else {
      var last := len - 1;
      var data := Zeros(len)[last := 1];
      WriteAt(r, addr, data);
      RegsAreDistinct(addr, last - SIZE, last);
      assert FlatRead(FlatWrite(r, addr, data), addr, len)[last - SIZE] == 1;
    }
  }

  lemma ReadBackFits(r: Regs, addr: nat, data: seq<byte>)
    requires |data| <= SIZE
    ensures FlatRead(FlatWrite(r, addr, data), addr, |data|) == data
  {
    hide Reg, At;
    WriteAt(r, addr, data);
    forall i, j | 0 <= i < j < |data|
      ensures At(addr, i) != At(addr, j)
    {
      RegsAreDistinct(addr, i, j);
    }
  }
}
