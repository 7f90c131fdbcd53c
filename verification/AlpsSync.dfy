/**
 * When the receive path announces a device, counts a bad packet or gives a packet up:
 * every change of synchronisation, told from the bytes.
 */
module AlpsSync {
  import opened Basics
  import opened AlpsBytes

  // ---- A new device ------------------------------------------------------------------

  /** Bytes are taken, and none is held. */
  predicate Listens(m: Mouse) {
    (m.state == CmdMode || m.state == Activated) && m.packet == []
  }

  /** The byte would go on with a packet that is too old. */
  predicate TooLate(m: Mouse, stale: bool) {
    m.state == Activated && m.packet != [] && stale
  }

  /** A first byte 0xaa with nothing but timeouts since. */
  ghost predicate HeardBat(c: Config, r: nat, m: Mouse, events: seq<Event>) {
    exists k :: 0 <= k < |events| && BatAt(c, r, m, events, k)
  }

  predicate BatAt(c: Config, r: nat, m: Mouse, events: seq<Event>, k: nat)
    requires k < |events|
  {
    && events[k].Byte? && events[k].b == 0xaa && Listens(Run(c, r, m, events[..k]))
    && forall j :: k < j < |events| ==> events[j] == Timeout
  }

  /** The last event is a 0x00 in time after such a byte. */
  ghost predicate Announced(c: Config, r: nat, m: Mouse, events: seq<Event>) {
    && events != []
    && var init, e := events[..|events| - 1], events[|events| - 1];
       e.Byte? && e.b == 0x00 && HeardBat(c, r, m, init) && !TooLate(Run(c, r, m, init), e.stale)
  }

  function NewNotes(m: Mouse, m1: Mouse): seq<Note>
    requires |m.log| <= |m1.log|
  {
    m1.log[|m.log|..]
  }

  /** Where no byte is taken none is held. */
  predicate Resting(m: Mouse) {
    m.state != CmdMode && m.state != Activated ==> m.packet == []
  }

  /** Extending the log, by no announcement. */
  predicate QuietlyLater(m: Mouse, m1: Mouse) {
    |m.log| <= |m1.log| && m1.log[..|m.log|] == m.log && StateNote(true) !in NewNotes(m, m1)
  }

  lemma HandleIsQuiet(c: Config, r: nat, m: Mouse)
    requires m.packet != [] && (m.state == CmdMode || m.state == Activated)
    ensures var m1 := HandleByte(c, r, m).0; QuietlyLater(m, m1) && (m1.packet == [] || m1.state == m.state)
  {
    hide HighBit, Marked, IsBare, ValidFirst, Unmark, ValidSoFar, Spoiled;
  }

  lemma QuietTwice(a: Mouse, b: Mouse, c: Mouse)
    requires QuietlyLater(a, b) && QuietlyLater(b, c)
    ensures QuietlyLater(a, c)
  {
    assert c.log[..|a.log|] == c.log[..|b.log|][..|a.log|];
    assert NewNotes(a, c) == NewNotes(a, b) + NewNotes(b, c) by {
      assert c.log == b.log + NewNotes(b, c);
    }
  }

  /** 0xaa by itself is no packet of any device of the tables. */
  lemma BatIsBad(c: Config, r: nat, m: Mouse)
    requires Sane(c) && m.packet == [0xaa] && (m.state == CmdMode || m.state == Activated)
    ensures var (m1, error) := HandleByte(c, r, m);
      if m.state == CmdMode then m1 == m.(packet := []) && !error
      else if m.outOfSync + 1 == r then
        error && m1 == m.(state := Ignore, packet := [], outOfSync := 0, log := m.log + [BadNote(true)])
      else !error && m1 == m.(packet := [], outOfSync := m.outOfSync + 1, log := m.log + [BadNote(false)])
  {
    hide HighBit, Marked, ValidSoFar;
  }

  lemma ByteIsQuiet(c: Config, r: nat, m: Mouse, b: octet)
    requires Sane(c) && Inv(c, r, m) && m.packet != [0xaa] && (m.state == CmdMode || m.state == Activated)
    ensures var m1 := HandleByte(c, r, m.(packet := m.packet + [b])).0;
      QuietlyLater(m, m1) && m1.packet != [0xaa] && Resting(m1)
  {
    hide HandleByte, Counted, GenuineReport, Collecting, Sane;
    var m0 := m.(packet := m.packet + [b]);
    HandleIsQuiet(c, r, m0);
    assert m0.packet[..|m0.packet| - 1] == m.packet;
    SameCount(r, m, m0);
    HandleKeeps(c, r, m0);
  }

  predicate Announces(m: Mouse, e: Event) {
    e.Byte? && e.b == 0x00 && m.packet == [0xaa] && !TooLate(m, e.stale)
  }

  /** What an event does about announcements. */
  ghost predicate Follows(m: Mouse, e: Event, m1: Mouse) {
    && Resting(m1) && |m.log| <= |m1.log| && m1.log[..|m.log|] == m.log
    && (StateNote(true) in NewNotes(m, m1) <==> Announces(m, e))
    && (Announces(m, e) ==> m1 == m.(state := Ignore, packet := [], outOfSync := 0, log := m.log + [StateNote(true)]))
    && (m1.packet == [0xaa] <==> (e == Timeout && m.packet == [0xaa]) || (e.Byte? && e.b == 0xaa && Listens(m)))
  }

  lemma QuietFollows(m: Mouse, e: Event, m1: Mouse)
    requires QuietlyLater(m, m1) && Resting(m1) && !Announces(m, e)
    requires m1.packet == [0xaa] <==> (e == Timeout && m.packet == [0xaa]) || (e.Byte? && e.b == 0xaa && Listens(m))
    ensures Follows(m, e, m1)
  {
  }

  lemma SameLog(m: Mouse, m1: Mouse)
    requires m1.log == m.log
    ensures QuietlyLater(m, m1)
  {
  }

  lemma StateFollows(m: Mouse, e: Event, state: State, announced: bool)
    requires announced == Announces(m, e) && (announced ==> state == Ignore)
    requires !(e == Timeout && m.packet == [0xaa]) && !(e.Byte? && e.b == 0xaa && Listens(m))
    ensures Follows(m, e, SetState(m, state, StateNote(announced)))
  {
    var m1 := SetState(m, state, StateNote(announced));
    assert NewNotes(m, m1) == [StateNote(announced)];
  }

  lemma StepAnnounces(c: Config, r: nat, m: Mouse, e: Event)
    requires Sane(c) && Inv(c, r, m) && Resting(m)
    ensures Follows(m, e, Step(c, r, m, e))
  {
    hide Receive, Inv, Sane, Spoiled, Follows, QuietlyLater;
    match e
    case Timeout =>
      SameLog(m, Flush(c, m));
      QuietFollows(m, e, Flush(c, m));
    case NewState(state) => StateFollows(m, e, state, false);
    case Byte(b, stale) => ByteAnnounces(c, r, m, b, stale);
  }

  lemma ByteAnnounces(c: Config, r: nat, m: Mouse, b: octet, stale: bool)
    requires Sane(c) && Inv(c, r, m) && Resting(m)
    ensures Follows(m, Byte(b, stale), Receive(c, r, m, b, stale))
  {
    hide HandleByte, Inv, Sane, Spoiled, Follows, QuietlyLater, NewNotes, SetState;
    var m1, e := Receive(c, r, m, b, stale), Byte(b, stale);
    if m.state != CmdMode && m.state != Activated {
      SameLog(m, m);
      QuietFollows(m, e, m);
    } else if TooLate(m, stale) {
      StateFollows(m, e, Resyncing, false);
    } else if m.packet == [0xaa] {
      if b == 0x00 {
        StateFollows(m, e, Ignore, true);
      } else {
        RefusedIsQuiet(c, r, m, b);
        assert m.(packet := [RET_BAT]) == m && [] + [b] == [b];
        QuietFollows(m, e, m1);
      }
    } else if m.packet == [] && b == 0xaa {
      assert m.packet + [b] == [0xaa];
      SameLog(m, m1);
      QuietFollows(m, e, m1);
    } else {
      ByteIsQuiet(c, r, m, b);
      assert m1 == HandleByte(c, r, m.(packet := m.packet + [b])).0 by { FirstOfTwo(m.packet, b); }
      QuietFollows(m, e, m1);
    }
  }

  lemma FirstOfTwo(p: seq<octet>, b: octet)
    requires p != [0xaa] && !(p == [] && b == 0xaa)
    ensures !((p + [b])[0] == 0xaa && |p + [b]| <= 2)
  {
    if |p| == 1 { assert p == [p[0]]; }
  }

  lemma RefusedIsQuiet(c: Config, r: nat, m: Mouse, b: octet)
    requires Sane(c) && Inv(c, r, m) && m.packet == [0xaa] && (m.state == CmdMode || m.state == Activated)
    ensures var (m0, error) := HandleByte(c, r, m);
      && (error || m0.packet == [])
      && var m1 := if error then m0 else HandleByte(c, r, m0.(packet := [b])).0;
         QuietlyLater(m, m1) && m1.packet != [0xaa] && Resting(m1)
  {
    BatIsBad(c, r, m);
    HandleIsQuiet(c, r, m);
    HandleKeeps(c, r, m) by { assert m.packet[..0] == []; }
    var (m0, error) := HandleByte(c, r, m);
    hide HandleByte, Inv, Sane;
    if !error {
      assert m0.packet + [b] == [b];
      ByteIsQuiet(c, r, m0, b);
      QuietTwice(m, m0, HandleByte(c, r, m0.(packet := [b])).0);
    }
  }

  /**
   * Over every run a device is announced exactly by 0xaa as the first byte of a packet and
   * 0x00 in time after it, timeouts aside. The mouse is then ignored until the reconnect,
   * and no bad packet is counted.
   */
  lemma {:induction false} Announcements(c: Config, r: nat, m: Mouse, events: seq<Event>)
    requires Sane(c) && Inv(c, r, m) && Resting(m) && m.packet != [0xaa]
    ensures var m1 := Run(c, r, m, events);
      Inv(c, r, m1) && Resting(m1) && (m1.packet == [0xaa] <==> HeardBat(c, r, m, events))
    ensures events != [] ==>
      var m0, m1 := Run(c, r, m, events[..|events| - 1]), Run(c, r, m, events);
      && |m0.log| <= |m1.log| && m1.log[..|m0.log|] == m0.log
      && (StateNote(true) in NewNotes(m0, m1) <==> Announced(c, r, m, events))
      && (Announced(c, r, m, events) ==>
            m1 == m0.(state := Ignore, packet := [], outOfSync := 0, log := m0.log + [StateNote(true)]))
    decreases |events|
  {
    hide Step, Inv, Sane, Listens;
    if events != [] {
      var init, e := events[..|events| - 1], events[|events| - 1];
      Announcements(c, r, m, init);
      StepAnnounces(c, r, Run(c, r, m, init), e);
      StepKeepsInv(c, r, Run(c, r, m, init), e);
      BatGoesOn(c, r, m, init, e);
      assert init + [e] == events;
    }
  }

  lemma BatGoesOn(c: Config, r: nat, m: Mouse, init: seq<Event>, e: Event)
    ensures HeardBat(c, r, m, init + [e]) <==>
              (e == Timeout && HeardBat(c, r, m, init)) || (e.Byte? && e.b == 0xaa && Listens(Run(c, r, m, init)))
  {
    hide Run, Listens;
    var events := init + [e];
    assert events[..|init|] == init;
    if k :| 0 <= k < |events| && BatAt(c, r, m, events, k) {
      if k < |init| {
        assert events[..k] == init[..k] && events[|init|] == Timeout;
        forall j | k < j < |init|
          ensures init[j] == Timeout
        {
          assert init[j] == events[j];
        }
        assert BatAt(c, r, m, init, k);
      }
    }
    if k :| 0 <= k < |init| && BatAt(c, r, m, init, k) && e == Timeout {
      assert events[..k] == init[..k];
      assert BatAt(c, r, m, events, k);
    }
    if e.Byte? && e.b == 0xaa && Listens(Run(c, r, m, init)) {
      assert BatAt(c, r, m, events, |init|);
    }
  }

  /** Every device of the tables, from the moment the driver begins. */
  lemma EveryAnnouncement(i: nat, r: nat, events: seq<Event>)
    requires i < |TABLE| && events != []
    ensures var m0, m1 := Run(TABLE[i], r, AT_REST, events[..|events| - 1]), Run(TABLE[i], r, AT_REST, events);
      && |m0.log| <= |m1.log|
      && (StateNote(true) in NewNotes(m0, m1) <==> Announced(TABLE[i], r, AT_REST, events))
      && (Announced(TABLE[i], r, AT_REST, events) ==> m1.state == Ignore)
  {
    TableIsSane(i);
    hide Sane, Announced, NewNotes;
    Announcements(TABLE[i], r, AT_REST, events);
  }

  /** Any other byte after 0xaa: that one is a bad packet by itself, and the byte begins the next. */
  lemma OnlyABadByte(c: Config, r: nat, m: Mouse, b: octet)
    requires Sane(c) && m.packet == [] && m.state == Activated && b != 0x00
    ensures var m1 := Receive(c, r, m, 0xaa, false); var m2 := Receive(c, r, m1, b, false);
      && m1 == m.(packet := [0xaa])
      && var counted := m.(outOfSync := m.outOfSync + 1, log := m.log + [BadNote(false)]);
         if m.outOfSync + 1 == r then m2 == m.(state := Ignore, packet := [], outOfSync := 0, log := m.log + [BadNote(true)])
         else if b == 0xaa then m2 == HandleByte(c, r, counted.(packet := [b])).0
         else m2 == Receive(c, r, counted, b, false)
  {
    hide ProcessByte, HandleByte;
    BatIsBad(c, r, m.(packet := [0xaa]));
  }

  // ---- A bad packet, a full one, or more to come ---------------------------------------

  predicate ByItself(c: Config, outOfSync: nat, p: seq<octet>)
    requires p != []
  {
    c.version != V8 && outOfSync == 0 && IsBare(p[0])
  }

  /** A Rushmore packet wrong in its last byte alone is dropped, but not as a bad one. */
  predicate Forgiven(c: Config, p: seq<octet>) {
    c.version == V3_RUSHMORE && |p| == 6
  }

  /** The latest byte of `p` is against the format, or shows that an earlier one was. */
  ghost predicate Misfit(c: Config, outOfSync: nat, p: seq<octet>)
    requires p != []
  {
    && !ByItself(c, outOfSync, p)
    && if Held(c, p) then |p| == 7 && HighBit(p[6]) && !(Genuine(c, p[..6]) && ValidFirst(c, p[6]))
       else !Fits(c, p, |p| - 1) && !Forgiven(c, p)
  }

  /** The latest byte of `p` is the last one. */
  predicate Complete(c: Config, outOfSync: nat, p: seq<octet>)
    requires p != []
  {
    if ByItself(c, outOfSync, p) then |p| == 3 else !Held(c, p) && |p| == c.PktSize()
  }

  /** What a complete packet is reported as. */
  ghost function Content(c: Config, outOfSync: nat, p: seq<octet>): seq<Report>
    requires p != []
  {
    if ByItself(c, outOfSync, p) then [Bare(p, true)]
    else if !Fits(c, p, |p| - 1) then []
    else [Alps(p)]
  }

  /** A held packet is spoiled exactly if it is not genuine. */
  lemma SpoiledIsNotGenuine(c: Config, p: seq<octet>)
    requires Sane(c) && c.interleaved && |p| >= 6 && forall i :: 0 <= i < 3 ==> Fits(c, p, i)
    ensures Genuine(c, p[..6]) <==> !Spoiled(p)
  {
    hide ValidFirst, HighBit;
    SpliceSize(c);
    HighOr(p[3], p[4], p[5]);
    var q := p[..6];
    if Genuine(c, q) {
      assert Fits(c, q, 3) && Fits(c, q, 4) && Fits(c, q, 5);
      assert q[3] == p[3] && q[4] == p[4] && q[5] == p[5];
    }
    if !Spoiled(p) { HeldIsGenuine(c, p); }
  }

  lemma HeldVerdict(c: Config, m: Mouse)
    requires Sane(c) && Fed(c, m) && Held(c, m.packet)
    ensures |m.packet| <= 7 && !Complete(c, m.outOfSync, m.packet)
    ensures HandleInterleaved(c, m).0 == if Misfit(c, m.outOfSync, m.packet) then BadData else GoodData
    ensures Misfit(c, m.outOfSync, m.packet) ==> HandleInterleaved(c, m).1.reports == m.reports
  {
    HeldKeeps(c, m);
    NotByItself(c, m.outOfSync, m.packet);
    hide HighBit, Marked, IsBare, Unmark, Fits, Genuine, Spoiled, ValidFirst;
    if |m.packet| == 7 { SpoiledIsNotGenuine(c, m.packet); }
  }

  lemma NotByItself(c: Config, outOfSync: nat, p: seq<octet>)
    requires Sane(c) && p != [] && Fits(c, p, 0)
    ensures !ByItself(c, outOfSync, p)
  {
  }

  lemma CollectedVerdict(c: Config, m: Mouse)
    requires Sane(c) && Fed(c, m) && !Held(c, m.packet) && !ByItself(c, m.outOfSync, m.packet)
    ensures var (rc, m1) := ProcessByte(c, m); var p := m.packet;
      && |p| <= c.PktSize() && m1.reports == m.reports + (if Complete(c, m.outOfSync, p) && Fits(c, p, |p| - 1) then [Alps(p)] else [])
      && rc == if Misfit(c, m.outOfSync, p) then BadData else if Complete(c, m.outOfSync, p) then FullPacket else GoodData
  {
    CollectedFits(c, m);
    var p := m.packet;
    EarlierFits(c, m);
    hide HighBit, Marked, IsBare, ValidFirst, ValidSoFar, Fed;
    assert p[..|p|] == p;
  }

  lemma EarlierFits(c: Config, m: Mouse)
    requires Sane(c) && Fed(c, m) && !Held(c, m.packet) && !ByItself(c, m.outOfSync, m.packet)
    ensures |m.packet| > 1 ==> Fits(c, m.packet, 0)
  {
    hide HighBit, Marked, IsBare, ValidFirst, ValidSoFar;
    var p := m.packet;
    var q := p[..|p| - 1];
    if q != [] {
      assert Fits(c, q, 0);
      FitsPrefix(c, q, p, 0);
    }
  }

  lemma Verdict(c: Config, m: Mouse)
    requires Sane(c) && Fed(c, m)
    ensures var (rc, m1) := ProcessByte(c, m); var p := m.packet;
      && rc == (if Misfit(c, m.outOfSync, p) then BadData else if Complete(c, m.outOfSync, p) then FullPacket else GoodData)
      && (rc.BadData? ==> m1.reports == m.reports)
      && (rc.FullPacket? ==> m1.reports == m.reports + Content(c, m.outOfSync, p))
  {
    if ByItself(c, m.outOfSync, m.packet) {
      CollectedFits(c, m);
    } else if Held(c, m.packet) {
      HeldVerdict(c, m);
    } else {
      CollectedVerdict(c, m);
      hide ProcessByte, HighBit, Marked, IsBare, ValidFirst, ValidSoFar, Fed, Held, Sane;
      assert m.reports + [] == m.reports;
    }
  }

  /**
   * A byte that continues or begins a packet. One against the format costs the packet, and
   * is counted exactly in ACTIVATED; the last one of a packet ends the count; any other
   * changes nothing but what is collected.
   */
  lemma ByteCounts(c: Config, r: nat, m: Mouse, b: octet, stale: bool)
    requires Sane(c) && Inv(c, r, m) && (m.state == CmdMode || m.state == Activated)
    requires !TooLate(m, stale) && m.packet != [0xaa] && !(m.packet == [] && b == 0xaa)
    ensures var m1, p := Receive(c, r, m, b, stale), m.packet + [b];
      if Misfit(c, m.outOfSync, p) then
        && m1.packet == [] && m1.reports == m.reports
        && if m.state == CmdMode then m1.state == CmdMode && m1.log == m.log && m1.outOfSync == m.outOfSync
           else if m.outOfSync + 1 == r then m1.state == Ignore && m1.log == m.log + [BadNote(true)] && m1.outOfSync == 0
           else m1.state == Activated && m1.log == m.log + [BadNote(false)] && m1.outOfSync == m.outOfSync + 1
      else if Complete(c, m.outOfSync, p) then
        && m1.packet == [] && m1.reports == m.reports + Content(c, m.outOfSync, p)
        && m1.state == m.state && m1.log == m.log + [FullNote] && m1.outOfSync == 0
      else m1.packet != [] && m1.state == m.state && m1.log == m.log && m1.outOfSync == m.outOfSync
  {
    var m0 := m.(packet := m.packet + [b]);
    FirstOfTwo(m.packet, b);
    assert m0.packet[..|m0.packet| - 1] == m.packet;
    assert Fed(c, m0) by { hide Counted, Sane, GenuineReport, Collecting; }
    Verdict(c, m0);
    ProcessKeeps(c, m0);
    hide ProcessByte, Misfit, Complete, Content, Inv, Sane, Fed, Shaped, Adds;
  }

  /**
   * A packet wrong in its last byte alone, which has its high bit set: dropped unreported,
   * and counted as a full packet exactly on Rushmore, as a bad one elsewhere.
   */
  lemma SpoiledAtTheEnd(c: Config, r: nat, m: Mouse, p: seq<octet>)
    requires Sane(c) && c.version < V5 && !c.interleaved && Inv(c, r, m) && m.state == Activated
    requires |p| == c.PktSize() && (forall i :: 0 <= i < |p| - 1 ==> Fits(c, p, i)) && HighBit(p[|p| - 1])
    requires m.packet == p[..|p| - 1]
    ensures var m1 := Receive(c, r, m, p[|p| - 1], false);
      && m1.packet == [] && m1.reports == m.reports
      && (m1.log == m.log + [FullNote] && m1.outOfSync == 0 && m1.state == Activated <==> c.version == V3_RUSHMORE)
      && (m1.log == m.log + [BadNote(m.outOfSync + 1 == r)] <==> c.version != V3_RUSHMORE)
  {
    var b := p[|p| - 1];
    assert m.packet + [b] == p;
    assert Fits(c, p, 0) && !Fits(c, p, |p| - 1);
    NotByItself(c, m.outOfSync, p);
    ByteCounts(c, r, m, b, false);
    hide Inv, Sane, Receive, Fits, IsBare, HighBit;
    assert m.reports + [] == m.reports;
    assert (m.log + [FullNote])[|m.log|] == FullNote;
    assert (m.log + [BadNote(m.outOfSync + 1 == r)])[|m.log|].BadNote?;
  }

  /** Half a second between two bytes of a packet, and nothing else, sends an activated mouse to resynchronise. */
  lemma LateByteResyncs(c: Config, r: nat, m: Mouse, b: octet, stale: bool)
    requires Sane(c) && Inv(c, r, m) && (m.state == CmdMode || m.state == Activated)
    ensures var m1 := Receive(c, r, m, b, stale);
      && (m1.state == Resyncing <==> TooLate(m, stale))
      && (TooLate(m, stale) ==> m1.packet == [] && m1.reports == m.reports && m1.outOfSync == 0 && m1.log == m.log + [StateNote(false)])
  {
    hide Sane, Inv, HandleByte;
    HandledState(c, r, m.(packet := m.packet + [b]));
    HandledState(c, r, m.(packet := [RET_BAT]));
    var (m0, error) := HandleByte(c, r, m.(packet := [RET_BAT]));
    HandledState(c, r, m0.(packet := m0.packet + [b]));
  }

  lemma HandledState(c: Config, r: nat, m: Mouse)
    requires m.packet != []
    ensures HandleByte(c, r, m).0.state in {m.state, Ignore}
  {
    hide HighBit, Marked, IsBare, ValidFirst, Unmark, ValidSoFar, Spoiled;
  }
}
