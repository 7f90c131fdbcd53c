/**
 * One byte of the PS/2 stream at a time: the psmouse core and the ALPS protocol handler
 * as functions on the receive state, and what every byte stream keeps.
 */
module AlpsBytes {
  import opened Basics

  const RET_BAT: octet := 0xaa
  const RET_ID: octet := 0x00

  const V1 := 0x100
  const V2 := 0x200
  const V3 := 0x300
  const V3_RUSHMORE := 0x310
  const V4 := 0x400
  const V5 := 0x500
  const V6 := 0x600
  const V7 := 0x700
  const V8 := 0x800
  const V9 := 0x900

  // ---- Configurations --------------------------------------------------------------

  datatype Config = Config(version: nat, byte0: octet, mask0: octet, interleaved: bool) {
    function PktSize(): nat {
      if version == V4 then 8 else 6
    }
  }

  /** The model and protocol tables, in the order of the source. */
  const TABLE: seq<Config> := [
    Config(V2, 0xf8, 0xf8, false), Config(V2, 0xf8, 0xf8, false), Config(V2, 0xff, 0xff, false),
    Config(V2, 0xf8, 0xf8, false), Config(V1, 0x88, 0xf8, false), Config(V2, 0xff, 0xff, true),
    Config(V2, 0xf8, 0xf8, false), Config(V2, 0xf8, 0xf8, false), Config(V2, 0xf8, 0xf8, false),
    Config(V2, 0xcf, 0xcf, true), Config(V2, 0xf8, 0xf8, false), Config(V2, 0xf8, 0xf8, false),
    Config(V2, 0xf8, 0xf8, false), Config(V2, 0x8f, 0x8f, false), Config(V2, 0xef, 0xef, false),
    Config(V2, 0xf8, 0xf8, false), Config(V2, 0xf8, 0xf8, false), Config(V2, 0xf8, 0xf8, false),
    Config(V6, 0xff, 0xff, false), Config(V2, 0xf8, 0xf8, false), Config(V2, 0xf8, 0xf8, false),
    Config(V2, 0xcf, 0xcf, false),
    Config(V3, 0x8f, 0x8f, false), Config(V3_RUSHMORE, 0x8f, 0x8f, false), Config(V4, 0x8f, 0x8f, false),
    Config(V5, 0xc8, 0xd8, false), Config(V7, 0x48, 0x48, false), Config(V8, 0x18, 0x18, false),
    Config(V9, 0xc8, 0xc8, false)]

  // ---- Bytes -----------------------------------------------------------------------

  predicate HighBit(b: octet) { b & 0x80 != 0 }
  predicate Marked(b: octet) { b & 0x0f == 0x0f }      // the fourth byte of a packet with PS/2 data spliced in
  predicate IsBare(b: octet) { b & 0xc8 == 0x08 }      // the first byte of a plain PS/2 packet
  predicate ValidFirst(c: Config, b: octet) { b & c.mask0 == c.byte0 }
  function Unmark(b: octet): octet { b & 0xf7 }

  /** alps_is_valid_package_v7 and alps_is_valid_package_ss4_v2, asked after each byte. */
  predicate ValidSoFar(c: Config, p: seq<octet>) {
    if c.version == V7 then
      && (|p| == 3 ==> p[2] & 0x40 == 0x40)
      && (|p| == 4 ==> p[3] & 0x48 == 0x48)
      && (|p| == 6 ==> p[5] & 0x40 == 0)
    else if c.version == V8 then
      && (|p| == 4 ==> p[3] & 0x08 == 0x08)
      && (|p| == 6 ==> p[5] & 0x10 == 0)
    else true
  }

  /** The marks of a byte as numbers. */
  lemma BitsByNumber(b: octet)
    ensures HighBit(b) <==> b as nat >= 128
    ensures Marked(b) <==> b as nat % 16 == 15
    ensures IsBare(b) <==> b as nat < 64 && b as nat % 16 >= 8
    ensures Unmark(b) as nat == if b as nat % 16 >= 8 then b as nat - 8 else b as nat
  {
  }

  /** What the byte machine needs of a device's constants. */
  ghost predicate Sane(c: Config) {
    && (c.version != V8 ==> forall b :: ValidFirst(c, b) ==> !IsBare(b))
    && !ValidFirst(c, RET_BAT)
    && (c.interleaved ==> c.version < V5 && c.version != V4 && forall b :: ValidFirst(c, b) ==> HighBit(b))
  }

  lemma MasksAreSane(c: Config, b: octet)
    requires (c.byte0, c.mask0) in {(0xf8, 0xf8), (0xff, 0xff), (0x88, 0xf8), (0xcf, 0xcf), (0x8f, 0x8f),
                                    (0xef, 0xef), (0xc8, 0xd8), (0x48, 0x48), (0xc8, 0xc8), (0x18, 0x18)}
    ensures ValidFirst(c, b) ==> b != RET_BAT && (c.mask0 != 0x18 ==> !IsBare(b))
    ensures ValidFirst(c, b) && c.mask0 in {0xff, 0xcf} ==> HighBit(b)
  {
  }

  /**
   * Every device of the tables: no first byte of an ALPS packet looks like plain PS/2 (V8
   * excepted), nor like a device announcement.
   */
  lemma TableIsSane(i: nat)
    requires i < |TABLE|
    ensures Sane(TABLE[i])
    ensures TABLE[i].version == V8 ==> ValidFirst(TABLE[i], 0x18) && IsBare(0x18)
  {
    var c := TABLE[i];
    assert (c.byte0, c.mask0) in {(0xf8, 0xf8), (0xff, 0xff), (0x88, 0xf8), (0xcf, 0xcf), (0x8f, 0x8f),
                                  (0xef, 0xef), (0xc8, 0xd8), (0x48, 0x48), (0xc8, 0xc8), (0x18, 0x18)};
    assert c.mask0 == 0x18 <==> c.version == V8;
    assert c.interleaved ==> c.mask0 in {0xff, 0xcf} && c.version == V2;
    forall b: octet
      ensures ValidFirst(c, b) ==> b != RET_BAT && (c.version != V8 ==> !IsBare(b)) && (c.interleaved ==> HighBit(b))
    {
      MasksAreSane(c, b);
    }
  }

  // ---- The receive state -----------------------------------------------------------

  datatype State = Ignore | Initializing | Resyncing | CmdMode | Activated

  datatype Rc = BadData | GoodData | FullPacket

  /** A packet handed to the ALPS decoder, or plain PS/2 motion (with buttons only if it came by itself). */
  datatype Report = Alps(packet: seq<octet>) | Bare(packet: seq<octet>, buttons: bool)

  /** What the core did about synchronisation: a bad packet (was a reconnect issued over it?), a full one, a new state. */
  datatype Note = BadNote(reconnect: bool) | FullNote | StateNote(announced: bool)

  datatype Mouse = Mouse(state: State, packet: seq<octet>, outOfSync: nat, timer: bool, reports: seq<Report>, log: seq<Note>)

  function SetState(m: Mouse, state: State, note: Note): Mouse {
    m.(state := state, packet := [], outOfSync := 0, log := m.log + [note])
  }

  predicate Held(c: Config, p: seq<octet>) {
    c.interleaved && |p| >= 4 && Marked(p[3])
  }

  /** The last three bytes of a packet cannot be its own. */
  predicate Spoiled(p: seq<octet>)
    requires |p| >= 6
  {
    HighBit(p[3] | p[4] | p[5])
  }

  function HandleInterleaved(c: Config, m: Mouse): (Rc, Mouse)
    requires |m.packet| >= 4
  {
    var p := m.packet;
    if |p| < 6 then (GoodData, m)
    else if |p| == 6 then (GoodData, m.(timer := true))
    else if HighBit(p[6]) then
      if Spoiled(p) || !ValidFirst(c, p[6]) then (BadData, m.(timer := false))
      else (GoodData, m.(timer := false, reports := m.reports + [Alps(p[..6])], packet := [p[6]]))
    else
      (GoodData, m.(timer := false, reports := m.reports + [Bare(p[3..6], false)], packet := p[..3] + [Unmark(p[6])]))
  }

  function ProcessByte(c: Config, m: Mouse): (Rc, Mouse)
    requires m.packet != []
  {
    var p := m.packet;
    if c.version != V8 && m.outOfSync == 0 && IsBare(p[0]) then
      if |p| == 3 then (FullPacket, m.(reports := m.reports + [Bare(p, true)])) else (GoodData, m)
    else if Held(c, p) then HandleInterleaved(c, m)
    else if !ValidFirst(c, p[0]) then (BadData, m)
    else if c.version < V5 && 2 <= |p| <= c.PktSize() && HighBit(p[|p| - 1]) then
      (if c.version == V3_RUSHMORE && |p| == c.PktSize() then FullPacket else BadData, m)
    else if !ValidSoFar(c, p) then (BadData, m)
    else if |p| == c.PktSize() then (FullPacket, m.(reports := m.reports + [Alps(p)]))
    else (GoodData, m)
  }

  /** psmouse_handle_byte; the flag is its error return. */
  function HandleByte(c: Config, resetAfter: nat, m: Mouse): (Mouse, bool)
    requires m.packet != []
  {
    var (rc, m1) := ProcessByte(c, m);
    match rc
    case GoodData => (m1, false)
    case FullPacket => (m1.(packet := [], outOfSync := 0, log := m1.log + [FullNote]), false)
    case BadData =>
      if m.state != Activated then (m1.(packet := []), false)
      else if m.outOfSync + 1 == resetAfter then (SetState(m1, Ignore, BadNote(true)), true)
      else (m1.(packet := [], outOfSync := m.outOfSync + 1, log := m1.log + [BadNote(false)]), false)
  }

  /** A byte arrives; `stale` if the packet it would continue is more than half a second old. */
  function Receive(c: Config, resetAfter: nat, m: Mouse, b: octet, stale: bool): Mouse {
    var p := m.packet + [b];
    if m.state != CmdMode && m.state != Activated then m
    else if m.state == Activated && m.packet != [] && stale then SetState(m, Resyncing, StateNote(false))
    else if p[0] == RET_BAT && |p| <= 2 then
      if |p| == 1 then m.(packet := p)
      else if b == RET_ID then SetState(m, Ignore, StateNote(true))
      else
        var (m1, error) := HandleByte(c, resetAfter, m.(packet := [RET_BAT]));
        if error then m1 else HandleByte(c, resetAfter, m1.(packet := m1.packet + [b])).0
    else HandleByte(c, resetAfter, m.(packet := p)).0
  }

  /** alps_flush_packet: 20 ms without a byte. */
  function Flush(c: Config, m: Mouse): Mouse {
    var p, idle := m.packet, m.(timer := false);
    if !m.timer || |p| != c.PktSize() then idle
    else if Spoiled(p) then idle.(packet := [])
    else idle.(reports := m.reports + [Alps(p)], packet := [])
  }

  datatype Event = Byte(b: octet, stale: bool) | Timeout | NewState(state: State)

  function Step(c: Config, resetAfter: nat, m: Mouse, e: Event): Mouse {
    match e
    case Byte(b, stale) => Receive(c, resetAfter, m, b, stale)
    case Timeout => Flush(c, m)
    case NewState(state) => SetState(m, state, StateNote(false))
  }

  // ---- What a packet looks like while it is collected --------------------------------

  /** Byte i of an ALPS packet, by the format's constant bits. */
  predicate Fits(c: Config, p: seq<octet>, i: nat)
    requires i < |p|
  {
    && (i == 0 ==> ValidFirst(c, p[0]))
    && (i > 0 && c.version < V5 ==> !HighBit(p[i]))
    && ValidSoFar(c, p[..i + 1])
  }

  /** A packet as the decoder expects it. */
  ghost predicate Genuine(c: Config, p: seq<octet>) {
    |p| == c.PktSize() && forall i :: 0 <= i < |p| ==> Fits(c, p, i)
  }

  function BitOf(b: octet, k: nat): bool
    requires k < 8
  {
    (b >> k) & 1 == 1
  }

  lemma MaskedBits(b: octet)
    ensures HighBit(b) <==> BitOf(b, 7)
    ensures b & 0x48 == 0x48 <==> BitOf(b, 6) && BitOf(b, 3)
    ensures b & 0x18 == 0x18 <==> BitOf(b, 4) && BitOf(b, 3)
    ensures (b & 0x40 == 0x40 <==> BitOf(b, 6)) && (b & 0x40 == 0 <==> !BitOf(b, 6))
    ensures (b & 0x08 == 0x08 <==> BitOf(b, 3)) && (b & 0x10 == 0 <==> !BitOf(b, 4))
  {
  }

  /** A whole packet of the older protocols: a first byte with the device's bits, and no high bit after it. */
  lemma GenuineByHighBits(c: Config, p: seq<octet>)
    requires c.version < V5
    ensures Genuine(c, p) <==>
      |p| == (if c.version == V4 then 8 else 6) && ValidFirst(c, p[0]) && forall i :: 1 <= i < |p| ==> !BitOf(p[i], 7)
  {
    forall i | 0 <= i < |p|
      ensures HighBit(p[i]) <==> BitOf(p[i], 7)
    {
      MaskedBits(p[i]);
    }
    hide HighBit, BitOf, ValidFirst;
    if |p| == c.PktSize() {
      forall i | 0 <= i < |p|
        ensures Fits(c, p, i) <==> if i == 0 then ValidFirst(c, p[0]) else !BitOf(p[i], 7)
      {
      }
    }
  }

  /** A whole V7 or SS4 packet: constant bits in some of its bytes. */
  lemma GenuineByBits(i: nat, p: seq<octet>)
    requires i < |TABLE| && (TABLE[i].version == V7 || TABLE[i].version == V8)
    ensures Genuine(TABLE[i], p) <==>
      && |p| == 6
      && if TABLE[i].version == V7
         then BitOf(p[0], 6) && BitOf(p[0], 3) && BitOf(p[2], 6) && BitOf(p[3], 6) && BitOf(p[3], 3) && !BitOf(p[5], 6)
         else BitOf(p[0], 4) && BitOf(p[0], 3) && BitOf(p[3], 3) && !BitOf(p[5], 4)
  {
    var c := TABLE[i];
    assert (c.version == V7 ==> c.byte0 == c.mask0 == 0x48) && (c.version == V8 ==> c.byte0 == c.mask0 == 0x18);
    if |p| == 6 {
      MaskedBits(p[0]);
      MaskedBits(p[2]);
      MaskedBits(p[3]);
      MaskedBits(p[5]);
      hide HighBit, BitOf;
      if Genuine(c, p) {
        assert Fits(c, p, 0) && Fits(c, p, 2) && Fits(c, p, 3) && Fits(c, p, 5);
      }
    }
  }

  ghost predicate Collecting(c: Config, p: seq<octet>, timer: bool) {
    if Held(c, p) then
      && |p| <= 6 && (|p| == 6 ==> timer) && forall i :: 0 <= i < 3 ==> Fits(c, p, i)
    else
      && |p| < c.PktSize() && forall i :: 0 <= i < |p| ==> Fits(c, p, i)
  }

  ghost predicate Shaped(c: Config, m: Mouse) {
    || m.packet == [] || m.packet == [RET_BAT]
    || (c.version != V8 && m.outOfSync == 0 && |m.packet| <= 2 && IsBare(m.packet[0]))
    || Collecting(c, m.packet, m.timer)
  }

  ghost predicate GenuineReport(c: Config, r: Report) {
    match r
    case Alps(p) => Genuine(c, p)
    case Bare(p, buttons) => |p| == 3 && if buttons then c.version != V8 && IsBare(p[0]) else c.interleaved && Marked(p[0])
  }

  lemma HighOr(a: octet, b: octet, c: octet)
    ensures HighBit(a | b | c) <==> HighBit(a) || HighBit(b) || HighBit(c)
  {
  }

  lemma Bits(b: octet)
    ensures IsBare(b) ==> !HighBit(b)
    ensures !Marked(Unmark(b)) && (HighBit(Unmark(b)) <==> HighBit(b))
    ensures !IsBare(RET_BAT)
  {
  }

  /** Prefixes fit alike. */
  lemma FitsPrefix(c: Config, p: seq<octet>, q: seq<octet>, i: nat)
    requires i < |p| && i < |q| && p[..i + 1] == q[..i + 1]
    ensures Fits(c, p, i) <==> Fits(c, q, i)
  {
    assert p[i] == p[..i + 1][i] == q[i];
    assert p[0] == p[..i + 1][0] == q[0];
  }

  /** One more report, and that a genuine one, or none. */
  ghost predicate Adds(c: Config, before: seq<Report>, after: seq<Report>) {
    after == before || (|after| == |before| + 1 && after[..|before|] == before && GenuineReport(c, after[|before|]))
  }

  /** The packet is a collected one and one byte more. */
  ghost predicate Fed(c: Config, m: Mouse) {
    && m.packet != []
    && var q := m.packet[..|m.packet| - 1];
       q == [] || (c.version != V8 && m.outOfSync == 0 && |q| <= 2 && IsBare(q[0])) || Collecting(c, q, m.timer)
  }

  /** The six bytes before the next packet's first one. */
  lemma HeldIsGenuine(c: Config, p: seq<octet>)
    requires Sane(c) && c.interleaved && |p| >= 6 && forall i :: 0 <= i < 3 ==> Fits(c, p, i)
    requires !Spoiled(p)
    ensures Genuine(c, p[..6])
  {
    hide ValidFirst, HighBit;
    HighOr(p[3], p[4], p[5]);
    forall i | 0 <= i < 6
      ensures Fits(c, p[..6], i)
    {
      if i < 3 { FitsPrefix(c, p, p[..6], i); }
    }
  }

  /** The ALPS packet goes on where PS/2 data was cut out of it. */
  lemma SpliceGoesOn(c: Config, p: seq<octet>, b: octet)
    requires Sane(c) && c.interleaved && |p| >= 3 && (forall i :: 0 <= i < 3 ==> Fits(c, p, i)) && !HighBit(b)
    ensures Collecting(c, p[..3] + [Unmark(b)], false)
  {
    hide ValidFirst, HighBit, Marked, Unmark;
    Bits(b);
    var r := p[..3] + [Unmark(b)];
    forall i | 0 <= i < 4
      ensures Fits(c, r, i)
    {
      if i < 3 { FitsPrefix(c, p, r, i); }
    }
  }

  lemma HeldKeeps(c: Config, m: Mouse)
    requires Sane(c) && Fed(c, m) && Held(c, m.packet)
    ensures |m.packet| <= 7 && forall i :: 0 <= i < 3 ==> Fits(c, m.packet, i)
    ensures var (rc, m1) := HandleInterleaved(c, m);
      && Adds(c, m.reports, m1.reports)
      && (rc.GoodData? ==> Collecting(c, m1.packet, m1.timer) && m1.packet != [])
  {
    hide HighBit, Marked, IsBare, Unmark, Fits, Genuine;
    var p := m.packet;
    var q := p[..|p| - 1];
    forall i | 0 <= i < 3
      ensures Fits(c, p, i)
    {
      FitsPrefix(c, q, p, i);
    }
    if |p| == 7 {
      if HighBit(p[6]) {
        if !Spoiled(p) { HeldIsGenuine(c, p); }
        FirstFits(c, p[6]);
      } else {
        SpliceGoesOn(c, p, p[6]);
      }
    }
  }

  lemma FirstFits(c: Config, b: octet)
    ensures Fits(c, [b], 0) <==> ValidFirst(c, b)
  {
  }

  lemma ProcessKeeps(c: Config, m: Mouse)
    requires Sane(c) && Fed(c, m)
    ensures var (rc, m1) := ProcessByte(c, m);
      && |m.packet| <= (if c.interleaved then 7 else c.PktSize())
      && Adds(c, m.reports, m1.reports)
      && (rc.GoodData? ==> Shaped(c, m1) && m1.packet != [] && m1.packet != [RET_BAT])
      && m1 == m.(reports := m1.reports, packet := m1.packet, timer := m1.timer)
  {
    hide HighBit, Marked, IsBare, ValidFirst, Unmark, Genuine, Fits, ValidSoFar, Collecting;
    Bits(RET_BAT);
    CollectedFits(c, m);
    if Held(c, m.packet) { HeldKeeps(c, m); }
  }

  /** A packet that is collected further without data spliced in. */
  lemma CollectedFits(c: Config, m: Mouse)
    requires Sane(c) && Fed(c, m)
    ensures var p := m.packet; var i := |p| - 1;
      && (c.version != V8 && m.outOfSync == 0 && IsBare(p[0]) ==> |p| <= 3)
      && (!(c.version != V8 && m.outOfSync == 0 && IsBare(p[0])) && !Held(c, p) ==>
           && |p| <= c.PktSize()
           && (ValidFirst(c, p[0]) && !(c.version < V5 && 2 <= |p| && HighBit(p[i])) && ValidSoFar(c, p) ==>
                if |p| == c.PktSize() then Genuine(c, p) else Collecting(c, p, m.timer)))
  {
    hide HighBit, Marked, IsBare, ValidFirst, ValidSoFar;
    var p := m.packet;
    var q := p[..|p| - 1];
    assert p[..|p|] == p;
    if q != [] && Collecting(c, q, m.timer) {
      assert Fits(c, q, 0);
      forall i | 0 <= i < |q| && (Held(c, q) ==> i < 3)
        ensures Fits(c, p, i)
      {
        FitsPrefix(c, q, p, i);
      }
    }
  }

  // ---- Synchronisation -------------------------------------------------------------

  /** Bad packets since the last full one or change of state. */
  function SinceSync(log: seq<Note>): nat {
    if log == [] then 0
    else
      match log[|log| - 1]
      case BadNote(reconnect) => if reconnect then 0 else SinceSync(log[..|log| - 1]) + 1
      case _ => 0
  }

  /**
   * A reconnect over lost synchronisation was issued exactly at the resetAfter-th bad packet
   * in a row, and the count never got there otherwise.
   */
  ghost predicate Reconnects(resetAfter: nat, log: seq<Note>) {
    forall i :: 0 <= i < |log| ==> ReconnectsAt(resetAfter, log, i)
  }

  predicate ReconnectsAt(resetAfter: nat, log: seq<Note>, i: nat)
    requires i < |log|
  {
    && (log[i].BadNote? ==> (log[i].reconnect <==> SinceSync(log[..i]) + 1 == resetAfter))
    && (resetAfter > 0 ==> SinceSync(log[..i + 1]) < resetAfter)
  }

  lemma ReconnectsGrows(resetAfter: nat, log: seq<Note>, note: Note)
    requires Reconnects(resetAfter, log) && ReconnectsAt(resetAfter, log + [note], |log|)
    ensures Reconnects(resetAfter, log + [note])
  {
    forall i | 0 <= i < |log|
      ensures ReconnectsAt(resetAfter, log + [note], i)
    {
      assert (log + [note])[..i] == log[..i] && (log + [note])[..i + 1] == log[..i + 1];
      assert ReconnectsAt(resetAfter, log, i);
    }
  }

  // ---- Every byte stream -------------------------------------------------------------

  ghost predicate Counted(resetAfter: nat, m: Mouse) {
    && m.outOfSync == SinceSync(m.log) && (resetAfter > 0 ==> m.outOfSync < resetAfter)
    && Reconnects(resetAfter, m.log)
  }

  ghost predicate Inv(c: Config, resetAfter: nat, m: Mouse) {
    && Shaped(c, m) && Counted(resetAfter, m)
    && forall i :: 0 <= i < |m.reports| ==> GenuineReport(c, m.reports[i])
  }

  lemma NoteCounts(resetAfter: nat, m: Mouse, m1: Mouse, note: Note)
    requires Counted(resetAfter, m) && m1.log == m.log + [note]
    requires match note
      case BadNote(reconnect) => 
        && m1.outOfSync == (if reconnect then 0 else m.outOfSync + 1)
        && (reconnect <==> m.outOfSync + 1 == resetAfter)
      case _ => m1.outOfSync == 0
    ensures Counted(resetAfter, m1)
  {
    assert m1.log[..|m.log|] == m.log && m1.log[..|m.log| + 1] == m1.log;
    ReconnectsGrows(resetAfter, m.log, note);
  }

  lemma HandleKeeps(c: Config, resetAfter: nat, m: Mouse)
    requires Sane(c) && Fed(c, m) && Counted(resetAfter, m)
    requires forall i :: 0 <= i < |m.reports| ==> GenuineReport(c, m.reports[i])
    ensures Inv(c, resetAfter, HandleByte(c, resetAfter, m).0)
    ensures HandleByte(c, resetAfter, m).0.packet != [RET_BAT]
    ensures |m.packet| <= if c.interleaved then 7 else c.PktSize()
  {
    hide ProcessByte, Counted, GenuineReport, Collecting;
    ProcessKeeps(c, m);
    var (rc, m1) := ProcessByte(c, m);
    var (m2, _) := HandleByte(c, resetAfter, m);
    if rc.FullPacket? {
      NoteCounts(resetAfter, m, m2, FullNote);
    } else if rc.BadData? && m.state == Activated {
      NoteCounts(resetAfter, m, m2, BadNote(m.outOfSync + 1 == resetAfter));
    } else {
      SameCount(resetAfter, m, m2);
    }
  }

  lemma SameCount(resetAfter: nat, m: Mouse, m1: Mouse)
    requires Counted(resetAfter, m) && m1.outOfSync == m.outOfSync && m1.log == m.log
    ensures Counted(resetAfter, m1)
  {
  }

  /** A first byte that announces no new device after all. */
  lemma AnnouncementKeeps(c: Config, resetAfter: nat, m: Mouse, b: octet)
    requires Sane(c) && Inv(c, resetAfter, m)
    ensures var (m1, error) := HandleByte(c, resetAfter, m.(packet := [RET_BAT]));
      Inv(c, resetAfter, if error then m1 else HandleByte(c, resetAfter, m1.(packet := m1.packet + [b])).0)
  {
    hide HandleByte, Counted, GenuineReport, Collecting, Sane;
    var m0 := m.(packet := [RET_BAT]);
    SameCount(resetAfter, m, m0);
    HandleKeeps(c, resetAfter, m0);
    var (m1, error) := HandleByte(c, resetAfter, m0);
    if !error { ByteKeeps(c, resetAfter, m1, b); }
  }

  lemma ByteKeeps(c: Config, resetAfter: nat, m: Mouse, b: octet)
    requires Sane(c) && Inv(c, resetAfter, m) && m.packet != [RET_BAT]
    ensures Inv(c, resetAfter, HandleByte(c, resetAfter, m.(packet := m.packet + [b])).0)
    ensures |m.packet + [b]| <= if c.interleaved then 7 else c.PktSize()
  {
    hide HandleByte, Counted, GenuineReport, Collecting, Sane;
    var m1 := m.(packet := m.packet + [b]);
    assert m1.packet[..|m1.packet| - 1] == m.packet;
    SameCount(resetAfter, m, m1);
    HandleKeeps(c, resetAfter, m1);
  }

  lemma ReceiveKeeps(c: Config, resetAfter: nat, m: Mouse, b: octet, stale: bool)
    requires Sane(c) && Inv(c, resetAfter, m)
    ensures Inv(c, resetAfter, Receive(c, resetAfter, m, b, stale))
  {
    hide HandleByte, Counted, GenuineReport, Collecting, Sane;
    var p := m.packet + [b];
    if m.state != CmdMode && m.state != Activated {
    } else if m.state == Activated && m.packet != [] && stale {
      NoteCounts(resetAfter, m, SetState(m, Resyncing, StateNote(false)), StateNote(false));
    } else if p[0] == RET_BAT && |p| <= 2 {
      if |p| == 1 {
        SameCount(resetAfter, m, m.(packet := p));
      } else if b == RET_ID {
        NoteCounts(resetAfter, m, SetState(m, Ignore, StateNote(true)), StateNote(true));
      } else {
        AnnouncementKeeps(c, resetAfter, m, b);
      }
    } else {
      ByteKeeps(c, resetAfter, m, b);
    }
  }

  lemma SpliceSize(c: Config)
    requires Sane(c) && c.interleaved
    ensures c.PktSize() == 6 && c.version < V5
  {
  }

  lemma WaitingIsHeld(c: Config, m: Mouse)
    requires Sane(c) && Shaped(c, m) && |m.packet| == c.PktSize() && !Spoiled(m.packet)
    ensures GenuineReport(c, Alps(m.packet))
  {
    hide HighBit, Fits, Genuine, IsBare, Marked, ValidFirst;
    assert m.packet[..6] == m.packet;
    HeldIsGenuine(c, m.packet);
  }

  lemma FlushKeepsShape(c: Config, m: Mouse)
    requires Shaped(c, m) && (c.interleaved ==> c.PktSize() == 6)
    ensures Shaped(c, Flush(c, m))
  {
    hide HighBit, Fits, IsBare, Marked;
    assert m.packet != [] && |m.packet| != c.PktSize() && Collecting(c, m.packet, m.timer) ==> Collecting(c, m.packet, false);
  }

  /** What waits is out of the way after the timer, reported exactly if it is a whole packet. */
  lemma FlushReports(c: Config, m: Mouse)
    requires Sane(c) && Shaped(c, m)
    ensures var m1 := Flush(c, m);
      if |m.packet| == c.PktSize()
      then m1.packet == [] && m1.reports == m.reports + if Genuine(c, m.packet) then [Alps(m.packet)] else []
      else m1 == m.(timer := false)
  {
    hide HighBit, Marked, IsBare, ValidFirst;
    if |m.packet| == c.PktSize() {
      var p := m.packet;
      SpliceSize(c);
      HighOr(p[3], p[4], p[5]);
      if Spoiled(p) {
        assert !(Fits(c, p, 3) && Fits(c, p, 4) && Fits(c, p, 5));
      } else {
        WaitingIsHeld(c, m);
      }
    }
  }

  lemma FlushKeeps(c: Config, resetAfter: nat, m: Mouse)
    requires Sane(c) && Inv(c, resetAfter, m)
    ensures Inv(c, resetAfter, Flush(c, m))
  {
    hide Spoiled, GenuineReport, Counted, Sane, Shaped;
    if c.interleaved { SpliceSize(c); }
    FlushKeepsShape(c, m);
    SameCount(resetAfter, m, Flush(c, m));
    if |m.packet| == c.PktSize() && !Spoiled(m.packet) {
      WaitingIsHeld(c, m);
    }
  }

  lemma StepKeepsInv(c: Config, resetAfter: nat, m: Mouse, e: Event)
    requires Sane(c) && Inv(c, resetAfter, m)
    ensures Inv(c, resetAfter, Step(c, resetAfter, m, e))
  {
    hide Receive, Flush, Counted, GenuineReport, Collecting, Sane;
    match e
    case Byte(b, stale) => ReceiveKeeps(c, resetAfter, m, b, stale);
    case Timeout => FlushKeeps(c, resetAfter, m);
    case NewState(state) => NoteCounts(resetAfter, m, SetState(m, state, StateNote(false)), StateNote(false));
  }

  const AT_REST := Mouse(Initializing, [], 0, false, [], [])

  function Run(c: Config, resetAfter: nat, m: Mouse, events: seq<Event>): Mouse
    decreases |events|
  {
    if events == [] then m
    else Step(c, resetAfter, Run(c, resetAfter, m, events[..|events| - 1]), events[|events| - 1])
  }

  /**
   * Whatever arrives on a device of the tables: everything handed on is a genuine packet,
   * what is being collected fits its buffer and its format, and reconnects are issued
   * exactly at the threshold.
   */
  lemma {:induction false} EveryStream(i: nat, resetAfter: nat, events: seq<Event>)
    requires i < |TABLE|
    ensures Inv(TABLE[i], resetAfter, Run(TABLE[i], resetAfter, AT_REST, events))
    decreases |events|
  {
    TableIsSane(i);
    if events != [] {
      EveryStream(i, resetAfter, events[..|events| - 1]);
      StepKeepsInv(TABLE[i], resetAfter, Run(TABLE[i], resetAfter, AT_REST, events[..|events| - 1]), events[|events| - 1]);
    }
  }
}