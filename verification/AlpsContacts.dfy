/**
 * Over whole runs of packets: how long a corner is kept for the second touch, and what
 * the reports on V4 packets are made of.
 */
module AlpsContacts {
  import opened Basics
  import opened AlpsBitmap
  import opened AlpsMultiPacket

  // ---- One corner per touch ------------------------------------------------------------

  /** From `a` to `b` only reports of two fingers or more came in. */
  ghost predicate TwoFingersOnly(a: State, b: State) {
    Later(a, b) && forall i :: |a.reports| <= i < |b.reports| ==> b.reports[i].count >= 2
  }

  predicate Later(a: State, b: State) {
    |a.reports| <= |b.reports| && b.reports[..|a.reports|] == a.reports
  }

  /** Nothing reported is taken back, and the corner of the second touch stays until a report of fewer fingers. */
  ghost predicate KeepsCorner(a: State, b: State) {
    Later(a, b) && (TwoFingersOnly(a, b) && a.second != -1 ==> b.second == a.second)
  }

  /** A report of fewer fingers, if `b` ends in one, has freed the corner. */
  predicate FreesCorner(a: State, b: State) {
    |b.reports| > |a.reports| && b.reports[|b.reports| - 1].count < 2 ==> b.second == -1
  }

  lemma ReportKeepsCorner(a: State, s: State, n: nat)
    requires s.reports == a.reports && (a.second != -1 ==> s.second == a.second)
    ensures KeepsCorner(a, SemiMt(s, n)) && FreesCorner(a, SemiMt(s, n))
  {
    var b := SemiMt(s, n);
    assert b.reports[|a.reports|].count >= 2 <==> n >= 2;
  }

  lemma BitmapKeepsCorner(pad: Pad, s: State)
    requires pad.Usable() && -1 <= s.second < 4
    ensures var s1 := Bitmap(pad, s).0; s1.reports == s.reports && (s.second != -1 ==> s1.second == s.second)
  {
    hide Corners, Runs, Max, Nearest;
  }

  lemma PairKeepsCorner(pad: Pad, s: State, p: Packet)
    requires pad.Usable() && -1 <= s.second < 4
    ensures KeepsCorner(s, TouchpadPacket(pad, s, p)) && FreesCorner(s, TouchpadPacket(pad, s, p))
  {
    hide SemiMt, Bitmap, Decode, KeepsCorner;
    var f0 := Decode(pad, BLANK, p);
    var joined := s.multiPacket != 0 && f0.isMp;
    var s0 := s.(f := if joined then Decode(pad, f0, s.multiData) else f0,
                 multiPacket := if s.multiPacket != 0 && !f0.isMp then 0 else s.multiPacket);
    BitmapKeepsCorner(pad, s0);
    var (s1, n) := if joined then Bitmap(pad, s0) else (s0, 0);
    ReportKeepsCorner(s, s1.(multiPacket := 0), if n == 0 then 0 else f0.fingers);
    SilenceKeepsCorner(s, TouchpadPacket(pad, s, p));
  }

  lemma SilenceKeepsCorner(a: State, b: State)
    ensures b.reports == a.reports && (a.second != -1 ==> b.second == a.second) ==> KeepsCorner(a, b) && FreesCorner(a, b)
  {
  }

  lemma CornerKeptLonger(a: State, b: State, c: State)
    requires KeepsCorner(a, b) && KeepsCorner(b, c)
    ensures KeepsCorner(a, c)
  {
    assert c.reports[..|a.reports|] == c.reports[..|b.reports|][..|a.reports|];
    forall i | |a.reports| <= i < |b.reports|
      ensures b.reports[i] == c.reports[i]
    {
      assert c.reports[..|b.reports|][i] == c.reports[i];
    }
  }

  /** V3 and V5: over any run the corner chosen for a touch stays the same as long as only two-finger reports come in. */
  lemma {:induction false} CornerStays(pad: Pad, ps: seq<Packet>, k: nat)
    requires pad.Usable() && k <= |ps|
    ensures KeepsCorner(RunV3V5(pad, ps[..k]), RunV3V5(pad, ps))
    ensures k + 1 == |ps| ==> FreesCorner(RunV3V5(pad, ps[..k]), RunV3V5(pad, ps))
  {
    hide KeepsCorner, FreesCorner, TouchpadPacket;
    var b := RunV3V5(pad, ps);
    if k == |ps| {
      assert ps[..k] == ps;
      SilenceKeepsCorner(b, b);
    } else {
      var init := ps[..|ps| - 1];
      assert init[..k] == ps[..k];
      CornerStays(pad, init, k);
      var m := RunV3V5(pad, init);
      if OfTrackstick(pad, ps[|ps| - 1]) { SilenceKeepsCorner(m, b); } else { PairKeepsCorner(pad, m, ps[|ps| - 1]); }
      CornerKeptLonger(RunV3V5(pad, ps[..k]), m, b);
    }
  }

  lemma V4KeepsCorner(pad: Pad, s: State, p: Packet8)
    requires pad.Usable() && -1 <= s.second < 4
    ensures KeepsCorner(s, PacketV4(pad, s, p)) && FreesCorner(s, PacketV4(pad, s, p))
  {
    hide SemiMt, Bitmap, KeepsCorner, FreesCorner, V4Fields, V4X, V4Y, Syncs, Stored;
    var k := if Syncs(p) then 0 else s.multiPacket;
    if k > 2 {
      SilenceKeepsCorner(s, PacketV4(pad, s, p));
    } else {
      var s0 := s.(multiPacket := k + 1, multiData := Stored(s, p, k), f := V4Fields(s.f, p));
      ReportKeepsCorner(s, s0, s0.f.fingers);
      var f := s0.f.(xMap := V4X(s0.multiData) as nat, yMap := V4Y(s0.multiData) as nat);
      var s1 := s0.(multiPacket := 0, f := f);
      BitmapKeepsCorner(pad, s1);
      var (s2, n) := Bitmap(pad, s1);
      ReportKeepsCorner(s, s2.(f := s2.f.(fingers := n)), n);
    }
  }

  /** The same for V4. */
  lemma {:induction false} V4CornerStays(pad: Pad, ps: seq<Packet8>, k: nat)
    requires pad.Usable() && k <= |ps|
    ensures KeepsCorner(RunV4(pad, ps[..k]), RunV4(pad, ps))
    ensures k + 1 == |ps| ==> FreesCorner(RunV4(pad, ps[..k]), RunV4(pad, ps))
  {
    hide KeepsCorner, FreesCorner, PacketV4;
    var b := RunV4(pad, ps);
    if k == |ps| {
      assert ps[..k] == ps;
      SilenceKeepsCorner(b, b);
    } else {
      var init := ps[..|ps| - 1];
      assert init[..k] == ps[..k];
      V4CornerStays(pad, init, k);
      var m := RunV4(pad, init);
      V4KeepsCorner(pad, m, ps[|ps| - 1]);
      CornerKeptLonger(RunV4(pad, ps[..k]), m, b);
    }
  }

  // ---- What V4 packets tell ------------------------------------------------------------

  /** How many packets of the next bitmap have come: three make one, and a marked one begins anew. */
  function Row(ps: seq<Packet8>): (n: nat)
    ensures n <= 2 && n <= |ps|
  {
    if ps == [] then 0
    else if Syncs(ps[|ps| - 1]) then 1
    else (Row(ps[..|ps| - 1]) + 1) % 3
  }

  /** The last packet is the third of a bitmap. */
  predicate Completes(ps: seq<Packet8>) {
    ps != [] && !Syncs(ps[|ps| - 1]) && Row(ps[..|ps| - 1]) == 2
  }

  /** What the bitmaps so far tell: how many fingers, and if it is two or more, where both touches are. */
  datatype Contacts = Contacts(fingers: nat, first: Pos, other: Pos, corner: int)

  /** The contacts on a bitmap whose third packet is `p`. */
  function Seen(pad: Pad, x: nat, y: nat, p: Packet8, corner: int): Contacts
    requires pad.Usable() && -1 <= corner < 4
  {
    if x == 0 || y == 0 then Contacts(0, V4St(p), V4St(p), corner)
    else
      var k := Second(pad, x, y, V4St(p), corner);
      Contacts(if Runs(x) < Runs(y) then Runs(y) else Runs(x), V4St(p), Corners(pad, x, y)[k], k)
  }

  /** A single touch, if there is any pressure. */
  function V4Single(p: Packet8): Report {
    var z := (p[5] & 0x7f) as nat;
    Report(if z > 0 then [V4St(p)] else [], if z > 0 then 1 else 0, p[4] & 0x03, z)
  }

  /** The touches of the latest bitmap, with the buttons and pressure of the packet itself. */
  function Reported(c: Contacts, p: Packet8): Report {
    if c.fingers < 2 then V4Single(p) else Report([c.first, c.other], c.fingers, p[4] & 0x03, (p[5] & 0x7f) as nat)
  }

  /** Fewer than two fingers free the corner. */
  function Freed(c: Contacts): Contacts {
    if c.fingers < 2 then c.(corner := -1) else c
  }

  /** The contacts once `ps` has come, before its last report. */
  function Now(pad: Pad, ps: seq<Packet8>, before: Contacts): (c: Contacts)
    requires pad.Usable() && -1 <= before.corner < 4 && ps != []
    ensures -1 <= c.corner < 4
  {
    if Completes(ps) && |Dribble(ps, 3)| == 6 then
      Seen(pad, V4X(Dribble(ps, 3)) as nat, V4Y(Dribble(ps, 3)) as nat, ps[|ps| - 1], before.corner)
    else before
  }

  /** The reports a run of packets calls for, and the contacts in force after it. */
  function V4Told(pad: Pad, ps: seq<Packet8>): (r: (seq<Report>, Contacts))
    requires pad.Usable()
    ensures -1 <= r.1.corner < 4
  {
    if ps == [] then ([], Contacts(0, Pos(0, 0), Pos(0, 0), -1))
    else
      var before := V4Told(pad, ps[..|ps| - 1]);
      var now := Now(pad, ps, before.1);
      (before.0 + [Reported(now, ps[|ps| - 1])], Freed(now))
  }

  predicate Shows(s: State, c: Contacts) {
    && s.second == c.corner && s.f.fingers == c.fingers
    && (c.fingers >= 2 ==> s.f.mt0 == c.first && s.f.mt1 == c.other)
  }

  /** The fields of packet `p` are in place. */
  predicate Holds(s: State, p: Packet8) {
    s.f.st == V4St(p) && s.f.buttons == p[4] & 0x03 && s.f.pressure == (p[5] & 0x7f) as nat
  }

  lemma {:induction false} DribbleSize(ps: seq<Packet8>, k: nat)
    requires k <= |ps|
    ensures |Dribble(ps, k)| == 2 * k
  {
    if k > 0 { DribbleSize(ps[..|ps| - 1], k - 1); }
  }

  /** The geometry finds the contacts of the bitmap. */
  lemma BitmapSees(pad: Pad, s: State, p: Packet8, c: Contacts)
    requires pad.Usable() && -1 <= s.second < 4 && Holds(s, p) && s.second == c.corner
    ensures var (s1, n) := Bitmap(pad, s); var s2 := s1.(f := s1.f.(fingers := n));
      Shows(s2, Seen(pad, s.f.xMap, s.f.yMap, p, c.corner)) && Holds(s2, p) && s2.reports == s.reports
  {
    hide V4St, Second, Corners, Runs;
  }

  lemma ReportTells(s: State, p: Packet8, c: Contacts)
    requires Shows(s, c) && Holds(s, p)
    ensures var s1 := SemiMt(s, s.f.fingers); s1.reports == s.reports + [Reported(c, p)] && Shows(s1, Freed(c))
  {
    hide V4St;
  }

  lemma FieldsHold(s: State, p: Packet8, k: nat, c: Contacts)
    requires k <= 2 && Shows(s, c)
    ensures var s0 := s.(multiPacket := k + 1, multiData := Stored(s, p, k), f := V4Fields(s.f, p));
      Shows(s0, c) && Holds(s0, p)
  {
    hide V4St, Stored;
  }

  lemma PacketReports(pad: Pad, s: State, p: Packet8, k: nat, c: Contacts)
    requires pad.Usable() && -1 <= s.second < 4 && k == (if Syncs(p) then 0 else s.multiPacket) && k <= 2 && Shows(s, c)
    ensures var s1, data := PacketV4(pad, s, p), Stored(s, p, k);
      var now := if k == 2 then Seen(pad, V4X(data) as nat, V4Y(data) as nat, p, c.corner) else c;
      s1.reports == s.reports + [Reported(now, p)] && Shows(s1, Freed(now))
  {
    assert s.second == c.corner;
    FieldsHold(s, p, k, c);
    var s0 := s.(multiPacket := k + 1, multiData := Stored(s, p, k), f := V4Fields(s.f, p));
    if k < 2 {
      ReportTells(s0, p, c);
      assert PacketV4(pad, s, p) == SemiMt(s0, s0.f.fingers) by { hide SemiMt, Stored, V4Fields, Syncs; }
    } else {
      var data := s0.multiData;
      var s1 := s0.(multiPacket := 0, f := s0.f.(xMap := V4X(data) as nat, yMap := V4Y(data) as nat));
      assert Holds(s1, p) && s1.second == c.corner;
      BitmapSees(pad, s1, p, c);
      var (s2, n) := Bitmap(pad, s1);
      ReportTells(s2.(f := s2.f.(fingers := n)), p, Seen(pad, s1.f.xMap, s1.f.yMap, p, c.corner));
      assert PacketV4(pad, s, p) == SemiMt(s2.(f := s2.f.(fingers := n)), n) by {
        hide SemiMt, Stored, V4Fields, V4X, V4Y, Syncs, Bitmap, Holds, Shows;
      }
    }
    hide SemiMt, Stored, V4Fields, V4X, V4Y, Syncs, Bitmap, Holds, Shows, Reported, Freed, Seen;
  }

  /** Between packets: the counter, the contacts and the reports. */
  ghost predicate Agrees(s: State, ps: seq<Packet8>, told: (seq<Report>, Contacts)) {
    Assembling(s, ps) && s.multiPacket == Row(ps) && s.reports == told.0 && Shows(s, told.1)
  }

  lemma PacketAgrees(pad: Pad, s: State, ps: seq<Packet8>, p: Packet8, told: (seq<Report>, Contacts))
    requires pad.Usable() && -1 <= s.second < 4 && Agrees(s, ps, told) && -1 <= told.1.corner < 4
    ensures var now := Now(pad, ps + [p], told.1);
      Agrees(PacketV4(pad, s, p), ps + [p], (told.0 + [Reported(now, p)], Freed(now)))
  {
    var k := if Syncs(p) then 0 else s.multiPacket;
    assert (ps + [p])[..|ps|] == ps;
    hide Syncs, V4X, V4Y, Stored, PacketV4, Seen, Reported, Freed, Unbroken, Dribble, Shows, Assembling;
    assert k <= 2;
    AssemblingMore(pad, s, ps, p, k);
    PacketReports(pad, s, p, k, told.1);
  }

  lemma AssemblingMore(pad: Pad, s: State, ps: seq<Packet8>, p: Packet8, k: nat)
    requires pad.Usable() && -1 <= s.second < 4 && Assembling(s, ps) && k == (if Syncs(p) then 0 else s.multiPacket)
    ensures k <= 2 && Assembling(PacketV4(pad, s, p), ps + [p])
    ensures PacketV4(pad, s, p).multiPacket == (k + 1) % 3
    ensures k == 2 ==> |ps + [p]| >= 3 && |Dribble(ps + [p], 3)| == 6 && Stored(s, p, 2) == Dribble(ps + [p], 3)
  {
    hide Syncs, V4X, V4Y, PacketV4, Stored, Dribble;
    PacketV4Assembles(pad, s, ps, p);
    if k == 2 {
      StoredDribbles(s, ps, p, k);
      DribbleSize(ps + [p], 3);
    }
  }

  /**
   * Over every run: one report a packet, made of that packet's buttons and pressure, and of
   * the touches on the latest complete bitmap if it showed two fingers or more, else of the
   * packet's own position.
   */
  lemma {:induction false} V4ReportsAreTold(pad: Pad, ps: seq<Packet8>)
    requires pad.Usable()
    ensures Agrees(RunV4(pad, ps), ps, V4Told(pad, ps))
    ensures |V4Told(pad, ps).0| == |ps|
  {
    if ps == [] {
      assert IDLE.multiData[..0] == [];
    } else {
      var init, p := ps[..|ps| - 1], ps[|ps| - 1];
      hide Agrees, PacketV4, Now, Reported, Freed;
      V4ReportsAreTold(pad, init);
      assert init + [p] == ps;
      PacketAgrees(pad, RunV4(pad, init), init, p, V4Told(pad, init));
    }
  }
}
