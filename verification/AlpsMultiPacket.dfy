/**
 * Multitouch reports spread over several packets: position and bitmap packet pairs of the
 * V3 and V5 protocols, and the bitmap that V4 dribbles through three packets.
 */
module AlpsMultiPacket {
  import opened AlpsBitmap
  import A = AlpsBytes
  import opened Basics

  // ---- Fields ------------------------------------------------------------------------

  /** struct alps_fields; mt has the two entries semi-multitouch uses, buttons the bits of byte 3. */
  datatype Fields = Fields(xMap: nat, yMap: nat, fingers: nat, pressure: nat, st: Pos, mt0: Pos, mt1: Pos,
                           firstMp: bool, isMp: bool, buttons: octet)

  const BLANK := Fields(0, 0, 0, 0, Pos(0, 0), Pos(0, 0), Pos(0, 0), false, false, 0)

  type Packet = p: seq<octet> | |p| == 6 witness [0, 0, 0, 0, 0, 0]

  function Wide(b: octet): bv64 { b as bv64 }

  function Short(b: octet): bv16 { b as bv16 }

  function PinnacleX(p: Packet): bv16 {
    (Short(p[4] & 0x7e) << 8) | (Short(p[1] & 0x7f) << 2) | Short((p[0] & 0x30) >> 4)
  }

  function PinnacleY(p: Packet): bv16 {
    (Short(p[3] & 0x70) << 4) | (Short(p[2] & 0x7f) << 1) | Short(p[4] & 0x01)
  }

  function RushmoreX(p: Packet): bv16 {
    (Short(p[5] & 0x10) << 11) | PinnacleX(p)
  }

  function RushmoreY(p: Packet): bv16 {
    (Short(p[5] & 0x20) << 6) | PinnacleY(p)
  }

  function Palm(p: Packet): bv64 {
    Wide(p[1] & 0x7f) | (Wide(p[2] & 0x7f) << 7) | (Wide(p[4] & 0x7f) << 14) | (Wide(p[5] & 0x7f) << 21)
    | (Wide(p[3] & 0x07) << 28) | (Wide(p[3] & 0x70) << 27) | (Wide(p[0] & 0x01) << 34)
  }

  function PinnacleSt(p: Packet): Pos {
    Pos(((Short(p[1] & 0x7f) << 4) | Short((p[4] & 0x30) >> 2) | Short((p[0] & 0x30) >> 4)) as int,
        ((Short(p[2] & 0x7f) << 4) | Short(p[4] & 0x0f)) as int)
  }

  function DolphinSt(p: Packet): Pos {
    Pos((Short(p[1] & 0x7f) | (Short(p[4] & 0x0f) << 7)) as int, (Short(p[2] & 0x7f) | (Short(p[4] & 0xf0) << 3)) as int)
  }

  function Max(a: nat, b: nat): nat { if a < b then b else a }

  // The decoders of V3 (pinnacle), V3 rushmore and V5 (dolphin), field by field.

  predicate IsBitmap(pad: Pad, p: Packet) {
    if pad.version == A.V5 then p[0] & 0x20 != 0
    else if pad.version == A.V3_RUSHMORE then p[5] & 0x40 != 0
    else p[0] & 0x40 != 0
  }

  predicate FirstMp(pad: Pad, p: Packet) {
    if pad.version == A.V5 then p[0] & 0x02 != 0 else p[4] & 0x40 != 0
  }

  function XMap(pad: Pad, p: Packet): nat {
    if pad.version == A.V5 then Palm(p) as nat / Pow2(pad.y.bits) % Pow2(pad.x.bits)
    else if pad.version == A.V3_RUSHMORE then RushmoreX(p) as nat
    else PinnacleX(p) as nat
  }

  function YMap(pad: Pad, p: Packet): nat {
    if pad.version == A.V5 then Palm(p) as nat % Pow2(pad.y.bits)
    else if pad.version == A.V3_RUSHMORE then RushmoreY(p) as nat
    else PinnacleY(p) as nat
  }

  function Fingers(pad: Pad, p: Packet): nat {
    if pad.version == A.V5 then (((p[0] & 0x06) >> 1) | ((p[0] & 0x10) >> 2)) as nat
    else if pad.version == A.V3_RUSHMORE then Max((p[5] & 0x03) as nat, ((p[5] >> 2) & 0x03) as nat) + 1
    else (p[5] & 0x03) as nat + 1
  }

  function St(pad: Pad, p: Packet): Pos {
    if pad.version == A.V5 then DolphinSt(p) else PinnacleSt(p)
  }

  function Pressure(pad: Pad, p: Packet): nat {
    if pad.version == A.V5 && p[0] & 0x04 != 0 then 0 else (p[5] & 0x7f) as nat
  }

  /** A packet decoded over the fields there are: each kind leaves the other kind's alone. */
  function Decode(pad: Pad, f: Fields, p: Packet): Fields {
    var f1 := f.(firstMp := FirstMp(pad, p), isMp := IsBitmap(pad, p));
    if IsBitmap(pad, p) then f1.(fingers := Fingers(pad, p), xMap := XMap(pad, p), yMap := YMap(pad, p))
    else f1.(st := St(pad, p), pressure := Pressure(pad, p), buttons := p[3] & 0x77)
  }

  // Bounds on bits, and the same bounds on numbers.

  lemma PinnacleXBits(p: Packet)
    ensures PinnacleX(p) < 0x8000
  {
  }

  lemma PinnacleYBits(p: Packet)
    ensures PinnacleY(p) < 0x800
  {
  }

  lemma TopBits(b: octet)
    ensures Short(b & 0x20) << 6 < 0x1000
  {
  }

  lemma JoinedBits(a: bv16, b: bv16)
    ensures a < 0x1000 && b < 0x1000 ==> a | b < 0x1000
  {
  }

  lemma XBitsAreNumbers(x: bv16)
    ensures x < 0x8000 ==> x as nat < 0x8000
  {
  }

  lemma YBitsAreNumbers(y: bv16)
    ensures y < 0x1000 ==> y as nat < 0x1000
    ensures y < 0x800 ==> y as nat < 0x800
  {
  }

  lemma MapsAreNarrow(p: Packet)
    ensures PinnacleX(p) as nat < 0x8000 && PinnacleY(p) as nat < 0x800
    ensures RushmoreX(p) as nat < 0x1_0000 && RushmoreY(p) as nat < 0x1000
  {
    PinnacleXBits(p);
    PinnacleYBits(p);
    TopBits(p[5]);
    hide PinnacleX, PinnacleY, Short;
    JoinedBits(Short(p[5] & 0x20) << 6, PinnacleY(p));
    XBitsAreNumbers(PinnacleX(p));
    YBitsAreNumbers(PinnacleY(p));
    XBitsAreNumbers(RushmoreX(p));
    YBitsAreNumbers(RushmoreY(p));
  }

  /** The widths a touchpad's protocol fixes; V5 asks the device. */
  predicate Sound(pad: Pad) {
    && pad.Usable()
    && ((pad.version == A.V3 || pad.version == A.V4) ==> pad.x.bits == 15 && pad.y.bits == 11)
    && (pad.version == A.V3_RUSHMORE ==> pad.x.bits == 16 && pad.y.bits == 12)
    && pad.version in {A.V3, A.V3_RUSHMORE, A.V4, A.V5}
  }

  lemma Powers()
    ensures Pow2(11) == 0x800 && Pow2(12) == 0x1000 && Pow2(15) == 0x8000 && Pow2(16) == 0x1_0000
  {
    assert Pow2(11) == 2 * Pow2(10) && Pow2(12) == 2 * Pow2(11);
    assert Pow2(10) == 2 * Pow2(9) == 4 * Pow2(8) == 8 * Pow2(7) == 16 * Pow2(6) == 32 * Pow2(5) == 1024;
    assert Pow2(16) == 2 * Pow2(15) == 4 * Pow2(14) == 8 * Pow2(13) == 16 * Pow2(12);
  }

  /** A decoded bitmap has no more bits than its axis. */
  lemma MapsFit(pad: Pad, p: Packet)
    requires Sound(pad) && pad.version != A.V4
    ensures XMap(pad, p) < Pow2(pad.x.bits) && YMap(pad, p) < Pow2(pad.y.bits)
  {
    hide PinnacleX, PinnacleY, RushmoreX, RushmoreY, Palm;
    MapsAreNarrow(p);
    Powers();
    hide Pow2;
  }

  // ---- Reports -----------------------------------------------------------------------

  /** What the input device is told: the filled slots, the finger count, buttons, pressure. */
  datatype Report = Report(slots: seq<Pos>, count: nat, buttons: octet, pressure: nat)

  datatype State = State(multiPacket: nat, multiData: Packet, second: int, f: Fields, reports: seq<Report>)

  /** alps_process_bitmap: the finger count, 0 if an axis has no bits. */
  function Bitmap(pad: Pad, s: State): (r: (State, nat))
    requires pad.Usable() && -1 <= s.second < 4
    ensures -1 <= r.0.second < 4
  {
    if s.f.xMap == 0 || s.f.yMap == 0 then (s, 0)
    else
      var second := Second(pad, s.f.xMap, s.f.yMap, s.f.st, s.second);
      (s.(second := second, f := s.f.(mt0 := s.f.st, mt1 := Corners(pad, s.f.xMap, s.f.yMap)[second])),
       Max(Runs(s.f.xMap), Runs(s.f.yMap)))
  }

  /** alps_report_semi_mt_data */
  function SemiMt(s: State, fingers: nat): State {
    var f := if fingers < 2 then s.f.(mt0 := s.f.st) else s.f;
    var n := if fingers < 2 then if f.pressure > 0 then 1 else 0 else fingers;
    s.(f := f, second := if fingers < 2 then -1 else s.second,
       reports := s.reports + [Report(if n >= 2 then [f.mt0, f.mt1] else if n == 1 then [f.mt0] else [], n, f.buttons, f.pressure)])
  }

  // ---- Packet pairs (V3, V5) -----------------------------------------------------------

  function TouchpadPacket(pad: Pad, s: State, p: Packet): (s1: State)
    requires pad.Usable() && -1 <= s.second < 4
    ensures -1 <= s1.second < 4
  {
    var f0 := Decode(pad, BLANK, p);
    var joined := s.multiPacket != 0 && f0.isMp;
    var s0 := s.(f := if joined then Decode(pad, f0, s.multiData) else f0,
                 multiPacket := if s.multiPacket != 0 && !f0.isMp then 0 else s.multiPacket);
    var (s1, n) := if joined then Bitmap(pad, s0) else (s0, 0);
    var fingers := if n == 0 then 0 else f0.fingers;
    if s1.f.isMp then s1
    else if s1.multiPacket == 0 && s1.f.firstMp then s1.(multiPacket := 1, multiData := p)
    else
      var s2 := s1.(multiPacket := 0);
      if s2.f.st.x != 0 && s2.f.st.y != 0 && s2.f.pressure == 0 then s2 else SemiMt(s2, fingers)
  }

  const IDLE := State(0, [0, 0, 0, 0, 0, 0], -1, BLANK, [])

  function TouchpadRun(pad: Pad, ps: seq<Packet>): (s: State)
    requires pad.Usable()
    ensures -1 <= s.second < 4
  {
    if ps == [] then IDLE else TouchpadPacket(pad, TouchpadRun(pad, ps[..|ps| - 1]), ps[|ps| - 1])
  }

  // What should be told, from two packets in a row and nothing else.

  /** A position that announces a bitmap. */
  predicate Announces(pad: Pad, p: Packet) {
    !IsBitmap(pad, p) && FirstMp(pad, p)
  }

  /** No pressure, and yet not the all-zero position of a real release. */
  predicate Fluke(pad: Pad, p: Packet) {
    St(pad, p).x != 0 && St(pad, p).y != 0 && Pressure(pad, p) == 0
  }

  function Single(pad: Pad, p: Packet): Report {
    if Pressure(pad, p) > 0 then Report([St(pad, p)], 1, p[3] & 0x77, Pressure(pad, p)) else Report([], 0, p[3] & 0x77, 0)
  }

  /** The report on a position and the bitmap right after it, and the corner chosen for the second touch. */
  function Joined(pad: Pad, p: Packet, bitmap: Packet, second: int): (seq<Report>, int)
    requires pad.Usable() && -1 <= second < 4
  {
    var x, y := XMap(pad, bitmap), YMap(pad, bitmap);
    var both := x != 0 && y != 0;
    var corner := if both then Second(pad, x, y, St(pad, p), second) else second;
    if Fluke(pad, p) then ([], corner)
    else if !both || Fingers(pad, bitmap) < 2 then ([Single(pad, p)], -1)
    else ([Report([St(pad, p), Corners(pad, x, y)[corner]], Fingers(pad, bitmap), p[3] & 0x77, Pressure(pad, p))], corner)
  }

  /** What packet `cur` after packet `prev` makes known. */
  function Said(pad: Pad, prev: Option<Packet>, cur: Packet, second: int): (seq<Report>, int)
    requires pad.Usable() && -1 <= second < 4
  {
    if IsBitmap(pad, cur) then
      if prev.Some? && Announces(pad, prev.value) then Joined(pad, prev.value, cur, second) else ([], second)
    else if FirstMp(pad, cur) || Fluke(pad, cur) then ([], second)
    else ([Single(pad, cur)], -1)
  }

  function LastOf(ps: seq<Packet>): Option<Packet> {
    if ps == [] then None else Some(ps[|ps| - 1])
  }

  function Told(pad: Pad, ps: seq<Packet>): (r: (seq<Report>, int))
    requires pad.Usable()
    ensures -1 <= r.1 < 4
  {
    if ps == [] then ([], -1)
    else
      var before := Told(pad, ps[..|ps| - 1]);
      var (now, second) := Said(pad, LastOf(ps[..|ps| - 1]), ps[|ps| - 1], before.1);
      (before.0 + now, second)
  }

  /** multi_packet is set exactly while the last packet announced a bitmap, and multi_data is that packet. */
  ghost predicate Awaits(pad: Pad, s: State, last: Option<Packet>) {
    if last.Some? && Announces(pad, last.value) then s.multiPacket == 1 && s.multiData == last.value else s.multiPacket == 0
  }

  lemma PacketTells(pad: Pad, s: State, last: Option<Packet>, p: Packet)
    requires pad.Usable() && -1 <= s.second < 4 && Awaits(pad, s, last)
    ensures var s1 := TouchpadPacket(pad, s, p);
      && Awaits(pad, s1, Some(p))
      && var (now, second) := Said(pad, last, p, s.second);
         s1.reports == s.reports + now && s1.second == second
  {
    hide IsBitmap, FirstMp, XMap, YMap, Fingers, St, Pressure, Second, Corners, Runs, Max;
    if Awaits(pad, s, last) && last.Some? && Announces(pad, last.value) && IsBitmap(pad, p) && XMap(pad, p) != 0 && YMap(pad, p) != 0 {
      SomeRun(XMap(pad, p), YMap(pad, p));
    }
  }

  lemma SomeRun(x: nat, y: nat)
    requires x != 0
    ensures Max(Runs(x), Runs(y)) > 0
  {
    FirstIsFirst(x);
    var j := First(x).startBit;
    assert StartsAt(x, j);
    BitBound(x, j);
    assert j in Starts(x, Width(x));
  }

  /**
   * Every report is made of one position packet, or of a position packet and the bitmap
   * packet directly after it; a bitmap by itself is never reported.
   */
  lemma {:induction false} ReportsPairPackets(pad: Pad, ps: seq<Packet>)
    requires pad.Usable()
    ensures var s := TouchpadRun(pad, ps);
      Awaits(pad, s, LastOf(ps)) && s.reports == Told(pad, ps).0 && s.second == Told(pad, ps).1
  {
    if ps != [] {
      ReportsPairPackets(pad, ps[..|ps| - 1]);
      PacketTells(pad, TouchpadRun(pad, ps[..|ps| - 1]), LastOf(ps[..|ps| - 1]), ps[|ps| - 1]);
    }
  }

  /** Two-finger reports put the second touch on the pad. */
  lemma {:induction false} SecondTouchIsOnPad(pad: Pad, ps: seq<Packet>, i: nat)
    requires Sound(pad) && pad.version != A.V4 && i < |Told(pad, ps).0|
    ensures var r := Told(pad, ps).0[i]; |r.slots| <= 2 && (|r.slots| == 2 ==> OnPad(pad, r.slots[1]))
    decreases |ps|
  {
    hide IsBitmap, FirstMp, XMap, YMap, Fingers, St, Pressure, Second, Corners, OnPad, Pow2;
    var init, p := ps[..|ps| - 1], ps[|ps| - 1];
    if i < |Told(pad, init).0| {
      SecondTouchIsOnPad(pad, init, i);
    } else if XMap(pad, p) != 0 && YMap(pad, p) != 0 {
      MapsFit(pad, p);
      BoxIsOnPad(pad, XMap(pad, p), YMap(pad, p));
    }
  }

  // The trackstick's packets are told apart by their last byte, except on V5, which has none.

  predicate OfTrackstick(pad: Pad, p: Packet) {
    pad.version != A.V5 && p[5] == 0x3f
  }

  function PacketV3V5(pad: Pad, s: State, p: Packet): (s1: State)
    requires pad.Usable() && -1 <= s.second < 4
    ensures -1 <= s1.second < 4
  {
    if OfTrackstick(pad, p) then s else TouchpadPacket(pad, s, p)
  }

  function RunV3V5(pad: Pad, ps: seq<Packet>): (s: State)
    requires pad.Usable()
    ensures -1 <= s.second < 4
  {
    if ps == [] then IDLE else PacketV3V5(pad, RunV3V5(pad, ps[..|ps| - 1]), ps[|ps| - 1])
  }

  function Touchpads(pad: Pad, ps: seq<Packet>): seq<Packet> {
    if ps == [] then []
    else Touchpads(pad, ps[..|ps| - 1]) + if OfTrackstick(pad, ps[|ps| - 1]) then [] else [ps[|ps| - 1]]
  }

  /** Trackstick packets between a position and its bitmap do not part them. */
  lemma {:induction false} TrackstickIsTransparent(pad: Pad, ps: seq<Packet>)
    requires pad.Usable()
    ensures RunV3V5(pad, ps) == TouchpadRun(pad, Touchpads(pad, ps))
  {
    if ps != [] {
      var before := Touchpads(pad, ps[..|ps| - 1]);
      TrackstickIsTransparent(pad, ps[..|ps| - 1]);
      assert (before + [ps[|ps| - 1]])[..|before|] == before;
      assert before + [] == before;
    }
  }

  // ---- Three packets (V4) --------------------------------------------------------------

  type Packet8 = p: seq<octet> | |p| == 8 witness [0, 0, 0, 0, 0, 0, 0, 0]

  predicate Syncs(p: Packet8) { p[6] & 0x40 != 0 }

  function V4X(d: Packet): bv16 {
    (Short(d[2] & 0x1f) << 10) | (Short(d[3] & 0x60) << 3) | (Short(d[0] & 0x3f) << 2) | Short((d[1] & 0x60) >> 5)
  }

  function V4Y(d: Packet): bv16 {
    (Short(d[5] & 0x01) << 10) | (Short(d[3] & 0x1f) << 5) | Short(d[1] & 0x1f)
  }

  function V4St(p: Packet8): Pos {
    Pos(((Short(p[1] & 0x7f) << 4) | Short((p[3] & 0x30) >> 2) | Short((p[0] & 0x30) >> 4)) as int,
        ((Short(p[2] & 0x7f) << 4) | Short(p[3] & 0x0f)) as int)
  }

  function V4Fields(f: Fields, p: Packet8): Fields {
    f.(buttons := p[4] & 0x03, st := V4St(p), pressure := (p[5] & 0x7f) as nat)
  }

  /** multi_data with one packet's two bytes put in place. */
  function Stored(s: State, p: Packet8, k: nat): Packet
    requires k <= 2
  {
    s.multiData[2 * k := p[6]][2 * k + 1 := p[7]]
  }

  function PacketV4(pad: Pad, s: State, p: Packet8): (s1: State)
    requires pad.Usable() && -1 <= s.second < 4
    ensures -1 <= s1.second < 4
  {
    var k := if Syncs(p) then 0 else s.multiPacket;
    if k > 2 then s.(multiPacket := k)
    else
      var s0 := s.(multiPacket := k + 1, multiData := Stored(s, p, k), f := V4Fields(s.f, p));
      if k + 1 <= 2 then SemiMt(s0, s0.f.fingers)
      else
        var f := s0.f.(xMap := V4X(s0.multiData) as nat, yMap := V4Y(s0.multiData) as nat);
        var (s1, n) := Bitmap(pad, s0.(multiPacket := 0, f := f));
        SemiMt(s1.(f := s1.f.(fingers := n)), n)
  }

  function RunV4(pad: Pad, ps: seq<Packet8>): (s: State)
    requires pad.Usable()
    ensures -1 <= s.second < 4
  {
    if ps == [] then IDLE else PacketV4(pad, RunV4(pad, ps[..|ps| - 1]), ps[|ps| - 1])
  }

  lemma V4Bits(d: Packet)
    ensures V4X(d) < 0x8000 && V4Y(d) < 0x800
  {
  }

  lemma V4MapsAreNarrow(d: Packet)
    ensures V4X(d) as nat < 0x8000 && V4Y(d) as nat < 0x800
  {
    hide V4X, V4Y;
    V4Bits(d);
    XBitsAreNumbers(V4X(d));
    YBitsAreNumbers(V4Y(d));
  }

  /** The two bitmap bytes of each of the last k packets. */
  function Dribble(ps: seq<Packet8>, k: nat): seq<octet>
    requires k <= |ps|
  {
    if k == 0 then [] else Dribble(ps[..|ps| - 1], k - 1) + ps[|ps| - 1][6..8]
  }

  /** None of the last k packets, but for the first of them, starts a bitmap anew. */
  ghost predicate Unbroken(ps: seq<Packet8>, k: nat) {
    k <= |ps| && forall i :: |ps| - k < i < |ps| ==> !Syncs(ps[i])
  }

  /**
   * Where the counter stands: that many packets in a row have gone into the bitmap, and
   * it never passes 2, so that no byte is stored past multi_data.
   */
  ghost predicate Assembling(s: State, ps: seq<Packet8>) {
    s.multiPacket <= 2 && Unbroken(ps, s.multiPacket) && s.multiData[..2 * s.multiPacket] == Dribble(ps, s.multiPacket)
  }

  /** The first two, the middle two and the last two bytes come from three packets in a row. */
  ghost predicate Assembled(f: Fields, ps: seq<Packet8>) {
    && Unbroken(ps, 3) && |Dribble(ps, 3)| == 6
    && f.xMap == V4X(Dribble(ps, 3)) as nat && f.yMap == V4Y(Dribble(ps, 3)) as nat
  }

  lemma DribbleGrows(ps: seq<Packet8>, p: Packet8, k: nat)
    requires Unbroken(ps, k) && (k > 0 ==> !Syncs(p))
    ensures Unbroken(ps + [p], k + 1) && Dribble(ps + [p], k + 1) == Dribble(ps, k) + p[6..8]
  {
    hide Syncs;
    assert (ps + [p])[..|ps|] == ps;
  }

  lemma PacketV4Stores(pad: Pad, s: State, p: Packet8, k: nat)
    requires pad.Usable() && -1 <= s.second < 4 && k == (if Syncs(p) then 0 else s.multiPacket) && k <= 2
    ensures var s1, data := PacketV4(pad, s, p), Stored(s, p, k);
      && s1.multiData == data && s1.multiPacket == (if k == 2 then 0 else k + 1)
      && s1.f.xMap == (if k == 2 then V4X(data) as nat else s.f.xMap)
      && s1.f.yMap == (if k == 2 then V4Y(data) as nat else s.f.yMap)
  {
    hide Syncs, V4X, V4Y, V4Fields, Stored, SemiMt, Bitmap;
    var s0 := s.(multiPacket := k + 1, multiData := Stored(s, p, k), f := V4Fields(s.f, p));
    SameData(pad, s, p);
    if k < 2 {
      SameMaps(pad, s0, s0.f.fingers);
    } else {
      var data := Stored(s, p, k);
      var s1 := s0.(multiPacket := 0, f := s0.f.(xMap := V4X(data) as nat, yMap := V4Y(data) as nat));
      SameMaps(pad, s1, 0);
      var (s2, n) := Bitmap(pad, s1);
      SameMaps(pad, s2.(f := s2.f.(fingers := n)), n);
    }
  }

  lemma SameData(pad: Pad, s: State, p: Packet8)
    ensures V4Fields(s.f, p).xMap == s.f.xMap && V4Fields(s.f, p).yMap == s.f.yMap
  {
  }

  /** Neither the geometry nor the report touches maps and counters. */
  lemma SameMaps(pad: Pad, s: State, n: nat)
    requires pad.Usable() && -1 <= s.second < 4
    ensures var s1 := SemiMt(s, n);
      s1.multiData == s.multiData && s1.multiPacket == s.multiPacket && s1.f.xMap == s.f.xMap && s1.f.yMap == s.f.yMap
    ensures var s1 := Bitmap(pad, s).0;
      s1.multiData == s.multiData && s1.multiPacket == s.multiPacket && s1.f.xMap == s.f.xMap && s1.f.yMap == s.f.yMap
  {
    hide Second, Corners, Runs, Max;
  }

  lemma StoredDribbles(s: State, ps: seq<Packet8>, p: Packet8, k: nat)
    requires k <= 2 && Unbroken(ps, k) && (k > 0 ==> !Syncs(p)) && s.multiData[..2 * k] == Dribble(ps, k)
    ensures Unbroken(ps + [p], k + 1) && Stored(s, p, k)[..2 * (k + 1)] == Dribble(ps + [p], k + 1)
    ensures k == 2 ==> Stored(s, p, k) == Dribble(ps + [p], 3)
  {
    hide Syncs, Dribble;
    DribbleGrows(ps, p, k);
    var data := Stored(s, p, k);
    assert data[..2 * (k + 1)] == s.multiData[..2 * k] + p[6..8];
    assert data[..6] == data;
  }

  /** A packet completes the bitmap exactly if it is the third in an unbroken row; else the bitmap stays what it was. */
  lemma PacketV4Assembles(pad: Pad, s: State, ps: seq<Packet8>, p: Packet8)
    requires pad.Usable() && -1 <= s.second < 4 && Assembling(s, ps)
    ensures var s1 := PacketV4(pad, s, p);
      && Assembling(s1, ps + [p])
      && (s.multiPacket == 2 && !Syncs(p) ==> s1.multiPacket == 0 && Assembled(s1.f, ps + [p]))
      && (!(s.multiPacket == 2 && !Syncs(p)) ==>
           s1.multiPacket == (if Syncs(p) then 1 else s.multiPacket + 1) && s1.f.xMap == s.f.xMap && s1.f.yMap == s.f.yMap)
  {
    hide Syncs, V4X, V4Y, Dribble, PacketV4, Stored, Unbroken;
    var k := if Syncs(p) then 0 else s.multiPacket;
    NoneDribbled(s, ps);
    PacketV4Stores(pad, s, p, k);
    StoredDribbles(s, ps, p, k);
    NoneDribbled(PacketV4(pad, s, p), ps + [p]);
  }

  lemma NoneDribbled(s: State, ps: seq<Packet8>)
    ensures Unbroken(ps, 0) && Dribble(ps, 0) == s.multiData[..0]
  {
  }

  /**
   * Over every run the counter stays below 3, and a bitmap is only ever made of three
   * packets in a row, none but the first marked as a first.
   */
  lemma {:induction false} V4Assembles(pad: Pad, ps: seq<Packet8>)
    requires pad.Usable()
    ensures Assembling(RunV4(pad, ps), ps)
  {
    if ps == [] {
      assert IDLE.multiData[..0] == [];
    } else {
      var init, p := ps[..|ps| - 1], ps[|ps| - 1];
      V4Assembles(pad, init);
      assert init + [p] == ps;
      PacketV4Assembles(pad, RunV4(pad, init), init, p);
    }
  }

  /** The second touch kept for two-finger reports, and the one in every report so far, are on the pad. */
  ghost predicate V4OnPad(pad: Pad, s: State) {
    && (s.f.fingers >= 2 ==> OnPad(pad, s.f.mt1))
    && forall i :: 0 <= i < |s.reports| && |s.reports[i].slots| == 2 ==> OnPad(pad, s.reports[i].slots[1])
  }

  lemma BitmapOnPad(pad: Pad, s: State)
    requires pad.Usable() && -1 <= s.second < 4 && s.f.xMap < Pow2(pad.x.bits) && s.f.yMap < Pow2(pad.y.bits) && V4OnPad(pad, s)
    ensures var (s1, n) := Bitmap(pad, s); (n > 0 ==> OnPad(pad, s1.f.mt1)) && s1.reports == s.reports
  {
    hide Second, Corners, Runs, Max, OnPad, Pow2;
    if s.f.xMap != 0 && s.f.yMap != 0 { BoxIsOnPad(pad, s.f.xMap, s.f.yMap); }
  }

  lemma ReportOnPad(pad: Pad, s: State, n: nat)
    requires V4OnPad(pad, s) && (n >= 2 ==> OnPad(pad, s.f.mt1))
    ensures V4OnPad(pad, SemiMt(s, n))
  {
    hide OnPad;
  }

  lemma {:induction false} V4SecondTouchIsOnPad(pad: Pad, ps: seq<Packet8>)
    requires Sound(pad) && pad.version == A.V4
    ensures V4OnPad(pad, RunV4(pad, ps))
  {
    if ps != [] {
      var s, p := RunV4(pad, ps[..|ps| - 1]), ps[|ps| - 1];
      V4SecondTouchIsOnPad(pad, ps[..|ps| - 1]);
      PacketV4OnPad(pad, s, p);
    }
  }

  lemma PacketV4OnPad(pad: Pad, s: State, p: Packet8)
    requires Sound(pad) && pad.version == A.V4 && -1 <= s.second < 4 && V4OnPad(pad, s)
    ensures V4OnPad(pad, PacketV4(pad, s, p))
  {
    hide Syncs, V4X, V4Y, V4St, SemiMt, Bitmap, Stored, OnPad;
    var k := if Syncs(p) then 0 else s.multiPacket;
    if k <= 2 {
      var s0 := s.(multiPacket := k + 1, multiData := Stored(s, p, k), f := V4Fields(s.f, p));
      ReportOnPad(pad, s0, s0.f.fingers);
      var data := s0.multiData;
      V4MapsAreNarrow(data);
      Powers();
      var s1 := s0.(multiPacket := 0, f := s0.f.(xMap := V4X(data) as nat, yMap := V4Y(data) as nat));
      BitmapOnPad(pad, s1);
      var (s2, n) := Bitmap(pad, s1);
      ReportOnPad(pad, s2.(f := s2.f.(fingers := n)), n);
    }
  }
}
