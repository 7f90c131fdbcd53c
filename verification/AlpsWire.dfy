/**
 * The packets a touchpad makes of its contacts: one encoder for each protocol, and what the
 * decoders of AlpsMultiPacket make of the result.
 */
module AlpsWire {
  import opened Basics
  import opened AlpsBitmap
  import opened AlpsMultiPacket
  import A = AlpsBytes

  function Low(v: bv16): octet { (v & 0xff) as octet }

  // ---- V3 and Rushmore -----------------------------------------------------------------

  /** Eleven bits of position, seven of pressure. */
  function PinnaclePosition(x: bv16, y: bv16, z: octet, buttons: octet, announces: bool): Packet {
    [0x8f | Low((x & 0x03) << 4), Low((x >> 4) & 0x7f), Low((y >> 4) & 0x7f), buttons & 0x77,
     Low(y & 0x0f) | Low((x & 0x0c) << 2) | (if announces then 0x40 else 0), z & 0x7f]
  }

  /** Fifteen and eleven bits of map, one to four fingers. */
  function PinnacleMaps(x: bv16, y: bv16, fingers: octet): Packet {
    [0xcf | Low((x & 0x03) << 4), Low((x >> 2) & 0x7f), Low((y >> 1) & 0x7f), Low((y >> 4) & 0x70),
     Low((x >> 8) & 0x7e) | Low(y & 0x01), (fingers - 1) & 0x03]
  }

  /** Sixteen and twelve bits of map; the finger count of each axis. */
  function RushmoreMaps(x: bv16, y: bv16, fingersX: octet, fingersY: octet): Packet {
    PinnacleMaps(x, y, 1)[5 := 0x40 | Low((x >> 11) & 0x10) | Low((y >> 6) & 0x20)
                               | ((fingersX - 1) & 0x03) | (((fingersY - 1) & 0x03) << 2)]
  }

  lemma StBits(x: bv16, y: bv16, z: octet, buttons: octet, announces: bool)
    requires x < 0x800 && y < 0x800
    ensures var p := PinnaclePosition(x, y, z, buttons, announces);
      && (Short(p[1] & 0x7f) << 4) | Short((p[4] & 0x30) >> 2) | Short((p[0] & 0x30) >> 4) == x
      && (Short(p[2] & 0x7f) << 4) | Short(p[4] & 0x0f) == y
      && (p[4] & 0x40 != 0 <==> announces) && p[0] & 0x40 == 0 && p[5] & 0x7f == z & 0x7f && p[3] & 0x77 == buttons & 0x77
      && (p[5] & 0x40 != 0 <==> z & 0x40 != 0)
  {
  }

  lemma MapBits(x: bv16, y: bv16, fingers: octet)
    requires x < 0x8000 && y < 0x800 && 1 <= fingers <= 4
    ensures var p := PinnacleMaps(x, y, fingers);
      PinnacleX(p) == x && PinnacleY(p) == y && p[0] & 0x40 != 0 && (p[5] & 0x03) + 1 == fingers
  {
  }

  lemma RushmoreMapBits(x: bv16, y: bv16, fingersX: octet, fingersY: octet)
    requires y < 0x1000 && 1 <= fingersX <= 4 && 1 <= fingersY <= 4
    ensures var p := RushmoreMaps(x, y, fingersX, fingersY);
      && RushmoreX(p) == x && RushmoreY(p) == y && p[5] & 0x40 != 0
      && p[5] & 0x03 == fingersX - 1 && (p[5] >> 2) & 0x03 == fingersY - 1
  {
  }

  lemma NumbersOfBits(x: bv16, y: bv16)
    requires x == y
    ensures x as nat == y as nat
  {
  }

  lemma MoreByOne(b: octet, fingers: octet)
    requires 1 <= fingers <= 4 && b == fingers - 1
    ensures b as nat + 1 == fingers as nat
  {
  }

  /** A byte string of six that begins like a V3 packet and has no high bit after its first byte. */
  predicate LooksV3(p: Packet) {
    p[0] & 0x8f == 0x8f && !A.HighBit(p[1]) && !A.HighBit(p[2]) && !A.HighBit(p[3]) && !A.HighBit(p[4]) && !A.HighBit(p[5])
  }

  lemma V3IsGenuine(p: Packet, i: nat)
    requires LooksV3(p) && (i == 22 || i == 23)
    ensures A.Genuine(A.TABLE[i], p)
  {
    var c := A.TABLE[i];
    assert c.version == (if i == 22 then A.V3 else A.V3_RUSHMORE) && c.byte0 == c.mask0 == 0x8f;
    forall k | 0 <= k < 6
      ensures A.Fits(c, p, k)
    {
    }
  }

  lemma PositionLooksV3(x: bv16, y: bv16, z: octet, buttons: octet, announces: bool)
    ensures LooksV3(PinnaclePosition(x, y, z, buttons, announces))
  {
  }

  lemma MapsLookV3(x: bv16, y: bv16, fingers: octet)
    ensures LooksV3(PinnacleMaps(x, y, fingers))
  {
  }

  lemma RushmoreMapsLookV3(x: bv16, y: bv16, fingersX: octet, fingersY: octet)
    ensures LooksV3(RushmoreMaps(x, y, fingersX, fingersY))
  {
    MapsLookV3(x, y, 1);
    hide PinnacleMaps;
  }

  /** Seven bits of pressure, of which Rushmore has the topmost for the kind of packet. */
  lemma PressureBits(z: octet)
    requires z < 0x80
    ensures z & 0x7f == z && (z & 0x40 != 0 <==> z >= 0x40)
  {
  }

  lemma PositionDecodes(pad: Pad, x: bv16, y: bv16, z: octet, buttons: octet, announces: bool)
    requires (pad.version == A.V3 || pad.version == A.V3_RUSHMORE) && x < 0x800 && y < 0x800 && z < 0x80
    ensures var p := PinnaclePosition(x, y, z, buttons, announces);
      && (IsBitmap(pad, p) <==> pad.version == A.V3_RUSHMORE && z >= 0x40) && FirstMp(pad, p) == announces
      && St(pad, p) == Pos(x as int, y as int) && Pressure(pad, p) == z as nat && p[3] & 0x77 == buttons & 0x77
  {
    var p := PinnaclePosition(x, y, z, buttons, announces);
    StBits(x, y, z, buttons, announces);
    StIs(p, x, y);
    PressureBits(z);
    SameNumber(p[5] & 0x7f, z);
    hide PinnaclePosition, Short, PinnacleSt, DolphinSt;
  }

  lemma StIs(p: Packet, x: bv16, y: bv16)
    requires (Short(p[1] & 0x7f) << 4) | Short((p[4] & 0x30) >> 2) | Short((p[0] & 0x30) >> 4) == x
    requires (Short(p[2] & 0x7f) << 4) | Short(p[4] & 0x0f) == y
    ensures PinnacleSt(p) == Pos(x as int, y as int)
  {
    hide Short;
  }

  lemma SameNumber(a: octet, b: octet)
    requires a == b
    ensures a as nat == b as nat
  {
  }

  /**
   * What V3 and Rushmore touchpads say of a position is what is decoded, except that a
   * Rushmore pressure of 0x40 and more is taken for a bitmap; and it passes the byte machine.
   */
  lemma PositionRoundTrip(pad: Pad, f: Fields, x: bv16, y: bv16, z: octet, buttons: octet, announces: bool)
    requires (pad.version == A.V3 || pad.version == A.V3_RUSHMORE) && x < 0x800 && y < 0x800 && z < 0x80
    ensures var p := PinnaclePosition(x, y, z, buttons, announces);
      && (Decode(pad, f, p) ==
            f.(firstMp := announces, isMp := false, st := Pos(x as int, y as int), pressure := z as nat, buttons := buttons & 0x77)
          <==> !(pad.version == A.V3_RUSHMORE && z >= 0x40))
      && A.Genuine(A.TABLE[22], p) && A.Genuine(A.TABLE[23], p)
  {
    hide PinnaclePosition, A.Genuine, LooksV3, Short, IsBitmap, FirstMp, St, Pressure, XMap, YMap, Fingers;
    PositionDecodes(pad, x, y, z, buttons, announces);
    PositionLooksV3(x, y, z, buttons, announces);
    V3IsGenuine(PinnaclePosition(x, y, z, buttons, announces), 22);
    V3IsGenuine(PinnaclePosition(x, y, z, buttons, announces), 23);
  }

  /** What a V3 touchpad says of a bitmap is what is decoded. */
  lemma MapsRoundTrip(pad: Pad, f: Fields, x: bv16, y: bv16, fingers: octet)
    requires pad.version == A.V3 && x < 0x8000 && y < 0x800 && 1 <= fingers <= 4
    ensures var p := PinnacleMaps(x, y, fingers);
      && Decode(pad, f, p) ==
           f.(firstMp := p[4] & 0x40 != 0, isMp := true, xMap := x as nat, yMap := y as nat, fingers := fingers as nat)
      && A.Genuine(A.TABLE[22], p)
  {
    var p := PinnacleMaps(x, y, fingers);
    MapBits(x, y, fingers);
    MapsLookV3(x, y, fingers);
    V3IsGenuine(p, 22);
    MoreByOne(p[5] & 0x03, fingers);
    hide PinnacleMaps, A.Genuine, PinnacleX, PinnacleY, LooksV3, Short;
  }

  /** What a Rushmore touchpad says of a bitmap is what is decoded, with the greater of its two finger counts. */
  lemma RushmoreRoundTrip(pad: Pad, f: Fields, x: bv16, y: bv16, fingersX: octet, fingersY: octet)
    requires pad.version == A.V3_RUSHMORE && y < 0x1000 && 1 <= fingersX <= 4 && 1 <= fingersY <= 4
    ensures var p := RushmoreMaps(x, y, fingersX, fingersY);
      && Decode(pad, f, p) ==
           f.(firstMp := p[4] & 0x40 != 0, isMp := true, xMap := x as nat, yMap := y as nat,
              fingers := if fingersX as nat < fingersY as nat then fingersY as nat else fingersX as nat)
      && A.Genuine(A.TABLE[23], p)
  {
    var p := RushmoreMaps(x, y, fingersX, fingersY);
    RushmoreMapBits(x, y, fingersX, fingersY);
    RushmoreMapsLookV3(x, y, fingersX, fingersY);
    V3IsGenuine(p, 23);
    MoreByOne(p[5] & 0x03, fingersX);
    MoreByOne((p[5] >> 2) & 0x03, fingersY);
    hide RushmoreMaps, A.Genuine, RushmoreX, RushmoreY, LooksV3, Short;
  }

  // ---- V5 --------------------------------------------------------------------------------

  function DolphinPosition(x: bv16, y: bv16, z: octet, buttons: octet, announces: bool): Packet {
    [0xc8 | (if announces then 0x02 else 0), Low(x & 0x7f), Low(y & 0x7f), buttons & 0x77,
     Low((x >> 7) & 0x0f) | Low((y >> 3) & 0xf0), z & 0x7f]
  }

  function Seven(w: bv64): octet { (w & 0x7f) as octet }

  /** A profile of 35 bits: that of y below that of x. */
  function DolphinProfile(w: bv64, fingers: octet): Packet {
    [0xe8 | ((w >> 34) & 0x01) as octet | ((fingers & 0x03) << 1), Seven(w), Seven(w >> 7),
     ((w >> 28) & 0x07) as octet | ((w >> 27) & 0x70) as octet, Seven(w >> 14), Seven(w >> 21)]
  }

  lemma DolphinStBits(x: bv16, y: bv16, z: octet, buttons: octet, announces: bool)
    requires x < 0x800 && y < 0x800 && z < 0x80
    ensures var p := DolphinPosition(x, y, z, buttons, announces);
      && Short(p[1] & 0x7f) | (Short(p[4] & 0x0f) << 7) == x && Short(p[2] & 0x7f) | (Short(p[4] & 0xf0) << 3) == y
      && p[0] & 0x20 == 0 && p[0] & 0x04 == 0 && (p[0] & 0x02 != 0 <==> announces)
      && p[5] & 0x7f == z && p[3] & 0x77 == buttons & 0x77 && p[0] & 0xd8 == 0xc8
  {
  }

  lemma PalmBits(w: bv64, fingers: octet)
    requires w < 0x8_0000_0000 && fingers < 4
    ensures var p := DolphinProfile(w, fingers);
      Palm(p) == w && p[0] & 0x20 != 0 && ((p[0] & 0x06) >> 1) | ((p[0] & 0x10) >> 2) == fingers && p[0] & 0xd8 == 0xc8
  {
  }

  lemma V5IsGenuine(p: Packet)
    requires p[0] & 0xd8 == 0xc8
    ensures A.Genuine(A.TABLE[25], p)
  {
    assert A.TABLE[25] == A.Config(A.V5, 0xc8, 0xd8, false);
  }

  /** What a V5 touchpad says of a position is what is decoded. */
  lemma DolphinRoundTrip(pad: Pad, f: Fields, x: bv16, y: bv16, z: octet, buttons: octet, announces: bool)
    requires pad.version == A.V5 && x < 0x800 && y < 0x800 && z < 0x80
    ensures var p := DolphinPosition(x, y, z, buttons, announces);
      && Decode(pad, f, p) ==
           f.(firstMp := announces, isMp := false, st := Pos(x as int, y as int), pressure := z as nat, buttons := buttons & 0x77)
      && A.Genuine(A.TABLE[25], p)
  {
    var p := DolphinPosition(x, y, z, buttons, announces);
    DolphinStBits(x, y, z, buttons, announces);
    V5IsGenuine(p);
    hide DolphinPosition, A.Genuine, Short;
  }

  lemma ProfileParts(w: nat, x: nat, y: nat, n: nat, m: nat)
    requires w == x * Pow2(n) + y && x < Pow2(m) && y < Pow2(n)
    ensures w % Pow2(n) == y && w / Pow2(n) % Pow2(m) == x
  {
    hide Pow2;
    DivIs(w, Pow2(n), x);
  }

  /** What a V5 touchpad says of a bitmap, however many bits its axes have, is what is decoded. */
  lemma ProfileRoundTrip(pad: Pad, f: Fields, w: bv64, x: nat, y: nat, fingers: octet)
    requires pad.version == A.V5 && w < 0x8_0000_0000 && fingers < 4
    requires w as nat == x * Pow2(pad.y.bits) + y && x < Pow2(pad.x.bits) && y < Pow2(pad.y.bits)
    ensures var p := DolphinProfile(w, fingers);
      && Decode(pad, f, p) ==
           f.(firstMp := p[0] & 0x02 != 0, isMp := true, xMap := x, yMap := y, fingers := fingers as nat)
      && A.Genuine(A.TABLE[25], p)
  {
    var p := DolphinProfile(w, fingers);
    PalmBits(w, fingers);
    V5IsGenuine(p);
    ProfileParts(w as nat, x, y, pad.y.bits, pad.x.bits);
    hide DolphinProfile, A.Genuine, Palm, Pow2;
  }

  // ---- V4 --------------------------------------------------------------------------------

  /** A position, and two bytes of the bitmap that goes with it. */
  function V4Packet(x: bv16, y: bv16, z: octet, buttons: octet, b0: octet, b1: octet): Packet8 {
    [0x8f | Low((x & 0x03) << 4), Low((x >> 4) & 0x7f), Low((y >> 4) & 0x7f), Low(y & 0x0f) | Low((x & 0x0c) << 2),
     buttons & 0x03, z & 0x7f, b0, b1]
  }

  /** The six bytes of a bitmap; bit 6 of the first one marks its beginning. */
  function V4Maps(x: bv16, y: bv16): Packet {
    [0x40 | Low((x >> 2) & 0x3f), Low((x & 0x03) << 5) | Low(y & 0x1f), Low((x >> 10) & 0x1f),
     Low((x >> 3) & 0x60) | Low((y >> 5) & 0x1f), 0, Low((y >> 10) & 0x01)]
  }

  lemma V4StBits(x: bv16, y: bv16, z: octet, buttons: octet, b0: octet, b1: octet)
    requires x < 0x800 && y < 0x800 && z < 0x80
    ensures var p := V4Packet(x, y, z, buttons, b0, b1);
      && (Short(p[1] & 0x7f) << 4) | Short((p[3] & 0x30) >> 2) | Short((p[0] & 0x30) >> 4) == x
      && (Short(p[2] & 0x7f) << 4) | Short(p[3] & 0x0f) == y
      && p[5] & 0x7f == z && p[4] & 0x03 == buttons & 0x03
  {
  }

  lemma V4MapBits(x: bv16, y: bv16)
    requires x < 0x8000 && y < 0x800
    ensures var d := V4Maps(x, y);
      && V4X(d) == x && V4Y(d) == y && d[0] & 0x40 != 0 && d[2] & 0x40 == 0 && d[4] & 0x40 == 0
      && forall i :: 0 <= i < 6 ==> !A.HighBit(d[i])
  {
  }

  lemma V4IsGenuine(x: bv16, y: bv16, z: octet, buttons: octet, b0: octet, b1: octet)
    requires !A.HighBit(b0) && !A.HighBit(b1)
    ensures A.Genuine(A.TABLE[24], V4Packet(x, y, z, buttons, b0, b1))
  {
    var p := V4Packet(x, y, z, buttons, b0, b1);
    assert p[0] & 0x8f == 0x8f && !A.HighBit(p[1]) && !A.HighBit(p[2]) && !A.HighBit(p[3]) && !A.HighBit(p[4]) && !A.HighBit(p[5]);
    hide V4Packet;
    assert A.TABLE[24] == A.Config(A.V4, 0x8f, 0x8f, false);
    forall k | 0 <= k < 8
      ensures A.Fits(A.TABLE[24], p, k)
    {
    }
  }

  /** What a V4 touchpad says of a position is what is decoded, whatever part of a bitmap comes with it. */
  lemma V4RoundTrip(f: Fields, x: bv16, y: bv16, z: octet, buttons: octet, b0: octet, b1: octet)
    requires x < 0x800 && y < 0x800 && z < 0x80 && !A.HighBit(b0) && !A.HighBit(b1)
    ensures var p := V4Packet(x, y, z, buttons, b0, b1);
      && V4Fields(f, p) == f.(st := Pos(x as int, y as int), pressure := z as nat, buttons := buttons & 0x03)
      && p[6..8] == [b0, b1] && A.Genuine(A.TABLE[24], p)
  {
    V4StBits(x, y, z, buttons, b0, b1);
    V4IsGenuine(x, y, z, buttons, b0, b1);
    var p := V4Packet(x, y, z, buttons, b0, b1);
    assert p[6..8] == [b0, b1];
    hide V4Packet, A.Genuine, Short;
  }

  lemma DribbleMore(ps: seq<Packet8>, p: Packet8, k: nat)
    requires k <= |ps|
    ensures Dribble(ps + [p], k + 1) == Dribble(ps, k) + [p[6], p[7]]
  {
    assert (ps + [p])[..|ps|] == ps && p[6..8] == [p[6], p[7]];
  }

  lemma DribbleNone(ps: seq<Packet8>)
    ensures Dribble(ps, 0) == []
  {
  }

  /** Three packets in a row, whatever came before them. */
  lemma DribbleOfThree(ps: seq<Packet8>, p: Packet8, q: Packet8, r: Packet8)
    ensures Dribble(ps + [p] + [q] + [r], 3) == [p[6], p[7], q[6], q[7], r[6], r[7]]
  {
    hide Dribble;
    DribbleNone(ps);
    DribbleMore(ps, p, 0);
    DribbleMore(ps + [p], q, 1);
    DribbleMore(ps + [p] + [q], r, 2);
  }

  /** What it says of a bitmap in three packets is what is decoded, and only the first of them is marked. */
  lemma V4MapsRoundTrip(ps: seq<Packet8>, p: Packet8, q: Packet8, r: Packet8, x: bv16, y: bv16)
    requires x < 0x8000 && y < 0x800 && [p[6], p[7], q[6], q[7], r[6], r[7]] == V4Maps(x, y)
    ensures var data := Dribble(ps + [p] + [q] + [r], 3);
      |data| == 6 && V4X(data) as nat == x as nat && V4Y(data) as nat == y as nat
    ensures Syncs(p) && !Syncs(q) && !Syncs(r)
  {
    V4MapBits(x, y);
    hide V4X, V4Y, V4Maps, Dribble;
    DribbleOfThree(ps, p, q, r);
  }

  // ---- From the wire to the report -----------------------------------------------------

  lemma RunMore(pad: Pad, ps: seq<Packet>, p: Packet)
    requires pad.Usable()
    ensures RunV3V5(pad, ps + [p]) == PacketV3V5(pad, RunV3V5(pad, ps), p)
  {
    assert (ps + [p])[..|ps|] == ps;
  }

  lemma RunAwaits(pad: Pad, ps: seq<Packet>)
    requires pad.Usable()
    ensures Awaits(pad, RunV3V5(pad, ps), LastOf(Touchpads(pad, ps)))
  {
    TrackstickIsTransparent(pad, ps);
    ReportsPairPackets(pad, Touchpads(pad, ps));
  }

  /** A position that announces a bitmap, and the bitmap, tell of a touch. */
  lemma PairIsReported(pad: Pad, s: State, last: Option<Packet>, p: Packet, q: Packet)
    requires pad.Usable() && -1 <= s.second < 4 && Awaits(pad, s, last)
    requires Announces(pad, p) && IsBitmap(pad, q) && XMap(pad, q) != 0 && YMap(pad, q) != 0 && Fingers(pad, q) >= 2
    requires Pressure(pad, p) > 0
    ensures var s2 := TouchpadPacket(pad, TouchpadPacket(pad, s, p), q);
      && 0 <= s2.second < 4 && (s.second != -1 ==> s2.second == s.second)
      && s2.reports == s.reports + [Report([St(pad, p), Corners(pad, XMap(pad, q), YMap(pad, q))[s2.second]],
                                           Fingers(pad, q), p[3] & 0x77, Pressure(pad, p))]
  {
    PacketTells(pad, s, last, p);
    var s1 := TouchpadPacket(pad, s, p);
    PacketTells(pad, s1, Some(p), q);
    hide TouchpadPacket, Awaits, IsBitmap, XMap, YMap, Fingers, St, Pressure, FirstMp, Corners, Nearest;
    assert s.reports + [] == s.reports;
  }

  /**
   * Two fingers or more on a V3 touchpad, whatever came before: one report of the position,
   * a corner of the box around the bits, the count, the buttons and the pressure. But a
   * pressure of exactly 0x3f is taken for a trackstick packet, and then nothing is told.
   */
  lemma TouchIsReported(pad: Pad, ps: seq<Packet>, x: bv16, y: bv16, z: octet, buttons: octet, xMap: bv16, yMap: bv16, fingers: octet)
    requires Sound(pad) && pad.version == A.V3 && x < 0x800 && y < 0x800 && 0 < z < 0x80
    requires 0 < xMap < 0x8000 && 0 < yMap < 0x800 && 2 <= fingers <= 4
    ensures var p, q := PinnaclePosition(x, y, z, buttons, true), PinnacleMaps(xMap, yMap, fingers);
      var s, s1, s2 := RunV3V5(pad, ps), RunV3V5(pad, ps + [p]), RunV3V5(pad, ps + [p] + [q]);
      if z == 0x3f then s1 == s
      else
        && 0 <= s2.second < 4 && xMap as nat != 0 && yMap as nat != 0
        && s2.reports == s.reports + [Report([Pos(x as int, y as int), Corners(pad, xMap as nat, yMap as nat)[s2.second]],
                                             fingers as nat, buttons & 0x77, z as nat)]
  {
    var p, q := PinnaclePosition(x, y, z, buttons, true), PinnacleMaps(xMap, yMap, fingers);
    PositionSays(pad, x, y, z, buttons);
    MapsSay(pad, xMap, yMap, fingers);
    hide *;
    RunMore(pad, ps, p);
    RunMore(pad, ps + [p], q);
    var s := RunV3V5(pad, ps);
    PassesTrackstick(pad, s, p);
    PassesTrackstick(pad, RunV3V5(pad, ps + [p]), q);
    if z != 0x3f {
      RunAwaits(pad, ps);
      PairIsReported(pad, s, LastOf(Touchpads(pad, ps)), p, q);
    }
  }

  lemma PassesTrackstick(pad: Pad, s: State, p: Packet)
    requires Sound(pad) && pad.version == A.V3 && -1 <= s.second < 4
    ensures pad.Usable() && PacketV3V5(pad, s, p) == if p[5] == 0x3f then s else TouchpadPacket(pad, s, p)
  {
    hide TouchpadPacket;
  }

  lemma PositionSays(pad: Pad, x: bv16, y: bv16, z: octet, buttons: octet)
    requires pad.version == A.V3 && x < 0x800 && y < 0x800 && 0 < z < 0x80
    ensures var p := PinnaclePosition(x, y, z, buttons, true);
      && Announces(pad, p) && St(pad, p) == Pos(x as int, y as int) && Pressure(pad, p) == z as nat > 0
      && p[3] & 0x77 == buttons & 0x77 && p[5] == z
  {
    PositionDecodes(pad, x, y, z, buttons, true);
    PressureBits(z);
    PositiveByte(2, z);
    assert PinnaclePosition(x, y, z, buttons, true)[5] == z;
    hide PinnaclePosition, IsBitmap, FirstMp, St, Pressure;
  }

  lemma MapsSay(pad: Pad, x: bv16, y: bv16, fingers: octet)
    requires pad.version == A.V3 && 0 < x < 0x8000 && 0 < y < 0x800 && 2 <= fingers <= 4
    ensures var q := PinnacleMaps(x, y, fingers);
      && IsBitmap(pad, q) && XMap(pad, q) == x as nat > 0 && YMap(pad, q) == y as nat > 0
      && Fingers(pad, q) == fingers as nat >= 2 && q[5] != 0x3f
  {
    var q := PinnacleMaps(x, y, fingers);
    MapBits(x, y, fingers);
    MoreByOne(q[5] & 0x03, fingers);
    Positive(x);
    Positive(y);
    PositiveByte(fingers, 1);
    assert q[5] != 0x3f;
    hide PinnacleMaps, PinnacleX, PinnacleY;
  }

  lemma Positive(x: bv16)
    ensures x > 0 ==> x as nat > 0
  {
  }

  lemma PositiveByte(fingers: octet, z: octet)
    ensures 2 <= fingers <= 4 ==> fingers as nat >= 2
    ensures z > 0 ==> z as nat > 0
  {
  }
}
