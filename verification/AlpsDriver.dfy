/**
 * The multitouch decoder as it runs: counters, saved packet data and fields changed in
 * place, the bitmap scan and the choice of a corner as loops. Every method leaves the
 * state the function of that name in AlpsMultiPacket makes of the one it found.
 */
module AlpsDriver {
  import opened Basics
  import opened AlpsBitmap
  import opened AlpsMultiPacket
  import A = AlpsBytes

  /** Both ends of one axis: the scan, and the only run divided in two. */
  method FindEnds(bitmap: nat) returns (low: Point, high: Point, fingers: nat)
    requires bitmap != 0
    ensures (low, high) == Divide(First(bitmap), Last(bitmap)) && fingers == Runs(bitmap) && fingers > 0
  {
    hide Bit, First, Last, Runs, IsFirst, IsLast;
    low, high, fingers := GetBitmapPoints(bitmap);
    FirstIsFirst(bitmap);
    LastIsLast(bitmap);
    EndsAreUnique(bitmap, First(bitmap), Last(bitmap), low);
    EndsAreUnique(bitmap, First(bitmap), Last(bitmap), high);
    if fingers == 1 {
      var i := (low.numBits - 1) / 2;
      low := Point(low.startBit, low.numBits - i);
      high := Point(low.startBit + i, if i < 1 then 1 else i);
    }
  }

  class AlpsData {
    const pad: Pad
    var multiPacket: nat
    const multiData: array<octet>
    var secondTouch: int
    var f: Fields
    var reports: seq<Report>

    ghost predicate Valid()
      reads this, multiData
    {
      pad.Usable() && multiData.Length == 6 && -1 <= secondTouch < 4
    }

    ghost function S(): State
      requires Valid()
      reads this, multiData
    {
      State(multiPacket, multiData[..], secondTouch, f, reports)
    }

    constructor (pad: Pad)
      requires pad.Usable()
      ensures Valid() && S() == IDLE && this.pad == pad && fresh(multiData)
    {
      this.pad := pad;
      multiPacket, secondTouch, f, reports := 0, -1, BLANK, [];
      var data := new octet[6](_ => 0);
      multiData := data;
      new;
      assert multiData[..] == [0, 0, 0, 0, 0, 0];
    }

    /** The four corners, clockwise, in the order of the bits and then in that of the coordinates. */
    method FindCorners(corner: array<Pos>) returns (fingers: nat)
      requires Valid() && f.xMap != 0 && f.yMap != 0 && corner.Length == 4
      modifies corner
      ensures corner[..] == Corners(pad, f.xMap, f.yMap)
      ensures fingers == Max(Runs(f.xMap), Runs(f.yMap)) && fingers > 0
    {
      hide First, Last, Runs, Divide;
      var xLow, xHigh, fingersX := FindEnds(f.xMap);
      var yLow, yHigh, fingersY := FindEnds(f.yMap);
      fingers := Max(fingersX, fingersY);
      corner[0] := Pos(Edge(pad.x, xLow), Edge(pad.y, yLow));
      corner[1] := Pos(Edge(pad.x, xHigh), Edge(pad.y, yLow));
      corner[2] := Pos(Edge(pad.x, xHigh), Edge(pad.y, yHigh));
      corner[3] := Pos(Edge(pad.x, xLow), Edge(pad.y, yHigh));
      ghost var was := corner[..];
      if pad.version == A.V5 {
        for i := 0 to 4
          invariant forall k :: 0 <= k < 4 ==> corner[k] == if k < i then Pos(pad.FlipX(was[k].x), was[k].y) else was[k]
        {
          corner[i] := Pos(pad.x.max - corner[i].x, corner[i].y);
        }
      }
      if pad.version == A.V3 || pad.version == A.V4 {
        for i := 0 to 4
          invariant forall k :: 0 <= k < 4 ==> corner[k] == if k < i then Pos(was[k].x, pad.FlipY(was[k].y)) else was[k]
        {
          corner[i] := Pos(corner[i].x, pad.y.max - corner[i].y);
        }
      }
    }

    method ProcessBitmap() returns (fingers: nat)
      requires Valid()
      modifies this`secondTouch, this`f
      ensures Valid() && (S(), fingers) == Bitmap(pad, old(S()))
    {
      hide Corners, Runs, Nearest, Max;
      if f.xMap == 0 || f.yMap == 0 { return 0; }
      var corner := new Pos[4];
      fingers := FindCorners(corner);
      if secondTouch == -1 {
        var nearest := FindNearest(f.st, corner);
        secondTouch := (nearest + 2) % 4;
      }
      f := f.(mt0 := f.st, mt1 := corner[secondTouch]);
    }

    method ReportSemiMtData(n: nat)
      requires Valid()
      modifies this`f, this`secondTouch, this`reports
      ensures Valid() && S() == SemiMt(old(S()), n)
    {
      var fingers := n;
      if fingers < 2 {
        f := f.(mt0 := f.st);
        fingers := if f.pressure > 0 then 1 else 0;
        secondTouch := -1;
      }
      var slots: seq<Pos> := [];
      if fingers >= 1 { slots := slots + [f.mt0]; }
      if fingers >= 2 { slots := slots + [f.mt1]; }
      assert slots == if fingers >= 2 then [f.mt0, f.mt1] else if fingers == 1 then [f.mt0] else [];
      reports := reports + [Report(slots, fingers, f.buttons, f.pressure)];
    }

    method ProcessTouchpadPacket(packet: Packet)
      requires Valid()
      modifies this, multiData
      ensures Valid() && S() == TouchpadPacket(pad, old(S()), packet)
    {
      hide Decode, AlpsMultiPacket.Bitmap, SemiMt;
      var fingers := 0;
      f := Decode(pad, BLANK, packet);
      if multiPacket != 0 {
        if f.isMp {
          fingers := f.fingers;
          f := Decode(pad, f, multiData[..]);
          var n := ProcessBitmap();
          if n == 0 { fingers := 0; }
        } else {
          multiPacket := 0;
        }
      }
      if f.isMp { return; }
      if multiPacket == 0 && f.firstMp {
        multiPacket := 1;
        SaveData(packet);
        return;
      }
      multiPacket := 0;
      if f.st.x != 0 && f.st.y != 0 && f.pressure == 0 { return; }
      ReportSemiMtData(fingers);
    }

    /** The memcpy to multi_data. */
    method SaveData(packet: Packet)
      requires multiData.Length == 6
      modifies multiData
      ensures multiData[..] == packet
    {
      for i := 0 to 6
        invariant multiData[..i] == packet[..i]
      {
        multiData[i] := packet[i];
      }
    }

    method ProcessPacketV3V5(packet: Packet)
      requires Valid()
      modifies this, multiData
      ensures Valid() && S() == PacketV3V5(pad, old(S()), packet)
    {
      hide TouchpadPacket;
      if pad.version != A.V5 && packet[5] == 0x3f { return; }
      ProcessTouchpadPacket(packet);
    }

    method ProcessPacketV4(packet: Packet8)
      requires Valid()
      modifies this, multiData
      ensures Valid() && S() == PacketV4(pad, old(S()), packet)
    {
      hide AlpsMultiPacket.Bitmap, SemiMt, V4X, V4Y, V4St;
      ghost var s := S();
      if packet[6] & 0x40 != 0 { multiPacket := 0; }
      if multiPacket > 2 { return; }
      ghost var k := multiPacket;
      var offset := 2 * multiPacket;
      multiData[offset] := packet[6];
      multiData[offset + 1] := packet[7];
      assert multiData[..] == Stored(s, packet, k);
      f := V4Fields(f, packet);
      multiPacket := multiPacket + 1;
      if multiPacket > 2 {
        multiPacket := 0;
        f := f.(xMap := V4X(multiData[..]) as nat, yMap := V4Y(multiData[..]) as nat);
        var fingers := ProcessBitmap();
        f := f.(fingers := fingers);
      }
      ReportSemiMtData(f.fingers);
    }
  }

  method FindNearest(p: Pos, corner: array<Pos>) returns (j: int)
    requires corner.Length == 4
    ensures j == Nearest(p, corner[..], 4)
  {
    hide Distance, Nearest;
    j := -1;
    var closest := FAR;
    assert j == Nearest(p, corner[..], 0) by { NearestNone(p, corner[..]); }
    for i := 0 to 4
      invariant -1 <= j < i && j == Nearest(p, corner[..], i)
      invariant closest == if j == -1 then FAR else Distance(p, corner[j])
    {
      NearestNext(p, corner[..], i);
      var distance := Distance(p, corner[i]);
      if distance < closest {
        j, closest := i, distance;
      }
    }
  }

  lemma NearestNone(p: Pos, corners: seq<Pos>)
    ensures Nearest(p, corners, 0) == -1
  {
  }

  lemma NearestNext(p: Pos, corners: seq<Pos>, i: nat)
    requires i < |corners|
    ensures var j := Nearest(p, corners, i);
      Nearest(p, corners, i + 1) == if Distance(p, corners[i]) < (if j == -1 then FAR else Distance(p, corners[j])) then i else j
  {
  }
}
