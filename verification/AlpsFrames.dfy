/**
 * Streams of whole packets: which ALPS and PS/2 packets the byte machine of AlpsBytes
 * makes of them, and exactly when those are the packets that were sent.
 */
module AlpsFrames {
  import opened Basics
  import opened AlpsBytes

  /**
   * What a device puts on the wire: an ALPS packet, one with PS/2 data after its third byte,
   * a PS/2 packet by itself, or nothing for 20 ms.
   */
  datatype Frame = Plain(p: seq<octet>) | Spliced(p: seq<octet>, q: seq<octet>) | Free(q: seq<octet>) | Pause

  ghost predicate Possible(c: Config, f: Frame) {
    match f
    case Plain(p) => Genuine(c, p)
    case Spliced(p, q) => c.interleaved && Genuine(c, p) && |q| == 3 && Marked(q[0])
    case Free(q) => c.version != V8 && |q| == 3 && IsBare(q[0])
    case Pause => true
  }

  function Arrive(bytes: seq<octet>): seq<Event> {
    seq(|bytes|, i requires 0 <= i < |bytes| => Byte(bytes[i], false))
  }

  function Events(f: Frame): seq<Event>
    requires f.Spliced? ==> |f.p| >= 3
  {
    match f
    case Plain(p) => Arrive(p)
    case Spliced(p, q) => Arrive(p[..3] + q + p[3..])
    case Free(q) => Arrive(q)
    case Pause => [Timeout]
  }

  /** The packets sent, in order, bit 3 of the fourth byte cleared where PS/2 data came before it. */
  function Sent(f: Frame): seq<Report>
    requires f.Spliced? ==> |f.p| >= 4
  {
    match f
    case Plain(p) => [Alps(p)]
    case Spliced(p, q) => [Bare(q, false), Alps(p[3 := Unmark(p[3])])]
    case Free(q) => [Bare(q, true)]
    case Pause => []
  }

  /** The packet looks like one with PS/2 data to come, so it is held back. */
  predicate Waits(c: Config, f: Frame) {
    f.Plain? && Held(c, f.p)
  }

  predicate Whole(fs: seq<Frame>) {
    forall i :: 0 <= i < |fs| && fs[i].Spliced? ==> |fs[i].p| >= 4
  }

  function Stream(fs: seq<Frame>): seq<Event>
    requires Whole(fs)
  {
    if fs == [] then [] else Stream(fs[..|fs| - 1]) + Events(fs[|fs| - 1])
  }

  function SentAll(fs: seq<Frame>): seq<Report>
    requires Whole(fs)
  {
    if fs == [] then [] else SentAll(fs[..|fs| - 1]) + Sent(fs[|fs| - 1])
  }

  // ---- One byte --------------------------------------------------------------------

  /** In step: what is collected, what has been reported, and whether the timer is known to run. */
  ghost predicate At(m: Mouse, packet: seq<octet>, reports: seq<Report>, armed: bool) {
    m.state == Activated && m.outOfSync == 0 && m.packet == packet && m.reports == reports && (armed ==> m.timer)
  }

  lemma Collects(c: Config, r: nat, m: Mouse, p: seq<octet>, k: nat, reports: seq<Report>)
    requires Sane(c) && Genuine(c, p) && k < |p| && At(m, p[..k], reports, false)
    ensures var m1 := Receive(c, r, m, p[k], false);
      if k + 1 < |p| then At(m1, p[..k + 1], reports, false)
      else if Held(c, p) then At(m1, p, reports, true)
      else At(m1, [], reports + [Alps(p)], false)
  {
    hide HighBit, Marked, IsBare, ValidFirst, ValidSoFar;
    assert p[..k] + [p[k]] == p[..k + 1] && p[..|p|] == p;
    assert Fits(c, p, 0) && Fits(c, p, k);
    assert ValidFirst(c, p[0]) && !(c.version < V5 && k > 0 && HighBit(p[k])) && ValidSoFar(c, p[..k + 1]);
    assert p[0] != RET_BAT && (c.version != V8 ==> !IsBare(p[0]));
    if c.interleaved { SpliceSize(c); }
  }

  /** h holds three bytes of an ALPS packet and up to three of PS/2 data. */
  ghost predicate Mixed(c: Config, h: seq<octet>) {
    |h| == 6 && Held(c, h) && forall i :: 0 <= i < 3 ==> Fits(c, h, i)
  }

  lemma Opened(c: Config, p: seq<octet>)
    requires Sane(c) && p != [] && Fits(c, p, 0)
    ensures ValidFirst(c, p[0]) && p[0] != RET_BAT && (c.version != V8 ==> !IsBare(p[0]))
  {
  }

  lemma Holds(c: Config, r: nat, m: Mouse, h: seq<octet>, k: nat, reports: seq<Report>)
    requires Sane(c) && Mixed(c, h) && 3 <= k < 6 && At(m, h[..k], reports, false)
    ensures At(Receive(c, r, m, h[k], false), h[..k + 1], reports, k == 5)
  {
    hide HighBit, Marked, IsBare, ValidFirst, Sane, Fits;
    Opened(c, h);
    assert h[..k] + [h[k]] == h[..k + 1];
  }

  lemma CutsOut(c: Config, r: nat, m: Mouse, h: seq<octet>, b: octet, reports: seq<Report>)
    requires Sane(c) && Mixed(c, h) && !HighBit(b) && At(m, h, reports, true)
    ensures At(Receive(c, r, m, b, false), h[..3] + [Unmark(b)], reports + [Bare(h[3..6], false)], false)
  {
    hide HighBit, Marked, IsBare, ValidFirst, Sane, Fits;
    Opened(c, h);
    assert (h + [b])[..3] == h[..3] && (h + [b])[3..6] == h[3..6];
  }

  lemma Releases(c: Config, r: nat, m: Mouse, h: seq<octet>, b: octet, reports: seq<Report>)
    requires Sane(c) && Genuine(c, h) && Held(c, h) && ValidFirst(c, b) && At(m, h, reports, true)
    ensures At(Receive(c, r, m, b, false), [b], reports + [Alps(h)], false)
  {
    hide Marked, IsBare, ValidSoFar;
    SpliceSize(c);
    assert Fits(c, h, 0) && Fits(c, h, 3) && Fits(c, h, 4) && Fits(c, h, 5);
    HighOr(h[3], h[4], h[5]);
    Opened(c, h);
    assert (h + [b])[..6] == h;
    assert HighBit(b);
  }

  lemma Frees(c: Config, r: nat, m: Mouse, q: seq<octet>, k: nat, reports: seq<Report>)
    requires c.version != V8 && |q| == 3 && IsBare(q[0]) && k < 3 && At(m, q[..k], reports, false)
    ensures var m1 := Receive(c, r, m, q[k], false);
      if k < 2 then At(m1, q[..k + 1], reports, false) else At(m1, [], reports + [Bare(q, true)], false)
  {
    hide HighBit, IsBare;
    Bits(q[0]);
    assert q[..k] + [q[k]] == q[..k + 1] && q[..3] == q;
  }

  // ---- One frame -------------------------------------------------------------------

  lemma ArriveOne(c: Config, r: nat, m: Mouse, bytes: seq<octet>, k: nat)
    requires k < |bytes|
    ensures Run(c, r, m, Arrive(bytes[..k + 1])) == Receive(c, r, Run(c, r, m, Arrive(bytes[..k])), bytes[k], false)
  {
    assert Arrive(bytes[..k + 1])[..k] == Arrive(bytes[..k]);
  }

  /** What is held back, and what that means for the first byte of the next packet. */
  ghost predicate Ready(c: Config, m: Mouse, held: seq<octet>, reports: seq<Report>) {
    if held == [] then At(m, [], reports, false) else Genuine(c, held) && Held(c, held) && At(m, held, reports, true)
  }

  function Release(held: seq<octet>): seq<Report> {
    if held == [] then [] else [Alps(held)]
  }

  lemma Opens(c: Config, r: nat, m: Mouse, held: seq<octet>, p: seq<octet>, reports: seq<Report>)
    requires Sane(c) && Genuine(c, p) && Ready(c, m, held, reports)
    ensures At(Receive(c, r, m, p[0], false), p[..1], reports + Release(held), false)
  {
    hide Receive, Sane, Genuine;
    assert |p| > 1 && Fits(c, p, 0) by { IsSome(c, p); }
    if held == [] {
      assert p[..0] == [];
      Collects(c, r, m, p, 0, reports);
    } else {
      assert p[..1] == [p[0]];
      Releases(c, r, m, held, p[0], reports);
    }
  }

  lemma IsSome(c: Config, p: seq<octet>)
    requires Genuine(c, p)
    ensures |p| >= 6 && Fits(c, p, 0)
  {
  }

  lemma {:induction false} Follows(c: Config, r: nat, m: Mouse, held: seq<octet>, p: seq<octet>, k: nat, reports: seq<Report>)
    requires Sane(c) && Genuine(c, p) && Ready(c, m, held, reports) && 1 <= k < |p|
    ensures At(Run(c, r, m, Arrive(p[..k])), p[..k], reports + Release(held), false)
  {
    hide Receive, Sane, Genuine;
    ArriveOne(c, r, m, p, k - 1);
    if k == 1 {
      Opens(c, r, m, held, p, reports);
    } else {
      Follows(c, r, m, held, p, k - 1, reports);
      Collects(c, r, Run(c, r, m, Arrive(p[..k - 1])), p, k - 1, reports + Release(held));
    }
  }

  lemma PlainArrives(c: Config, r: nat, m: Mouse, held: seq<octet>, p: seq<octet>, reports: seq<Report>)
    requires Sane(c) && Genuine(c, p) && Ready(c, m, held, reports)
    ensures var m1 := Run(c, r, m, Arrive(p));
      if Held(c, p) then Ready(c, m1, p, reports + Release(held)) else Ready(c, m1, [], reports + Release(held) + [Alps(p)])
  {
    hide Receive, Sane, Genuine, Run;
    IsSome(c, p);
    var k := |p| - 1;
    assert p[..k + 1] == p;
    ArriveOne(c, r, m, p, k);
    Follows(c, r, m, held, p, k, reports);
    Collects(c, r, Run(c, r, m, Arrive(p[..k])), p, k, reports + Release(held));
  }

  lemma UnmarkedIsGenuine(c: Config, p: seq<octet>)
    requires Sane(c) && c.interleaved && Genuine(c, p)
    ensures var p' := p[3 := Unmark(p[3])];
      Genuine(c, p') && !Held(c, p') && !HighBit(p[3]) && p'[..4] == p[..3] + [Unmark(p[3])]
  {
    hide HighBit, Marked, Unmark, ValidFirst;
    var p' := p[3 := Unmark(p[3])];
    assert Fits(c, p, 3);
    Bits(p[3]);
    forall i | 0 <= i < |p'|
      ensures Fits(c, p', i)
    {
      assert Fits(c, p, i);
    }
  }

  lemma MixedIsMixed(c: Config, p: seq<octet>, q: seq<octet>)
    requires Sane(c) && Possible(c, Spliced(p, q))
    ensures |p| == 6 && Mixed(c, p[..3] + q) && (p[..3] + q)[3..6] == q
  {
    hide Marked, ValidFirst, HighBit;
    SpliceSize(c);
    var h := p[..3] + q;
    forall i | 0 <= i < 3
      ensures Fits(c, h, i)
    {
      FitsPrefix(c, p, h, i);
    }
  }

  /** The PS/2 data inside a packet, with the first byte of the rest of the packet. */
  lemma SpliceArrives(c: Config, r: nat, m: Mouse, held: seq<octet>, p: seq<octet>, q: seq<octet>, reports: seq<Report>)
    requires Sane(c) && Possible(c, Spliced(p, q)) && Ready(c, m, held, reports)
    ensures var s := p[..3] + q + p[3..];
      At(Run(c, r, m, Arrive(s[..7])), p[..3] + [Unmark(p[3])], reports + Release(held) + [Bare(q, false)], false)
  {
    hide Receive, Sane, Genuine, Run, Mixed;
    MixedIsMixed(c, p, q);
    var h, s := p[..3] + q, p[..3] + q + p[3..];
    var out := reports + Release(held);
    Follows(c, r, m, held, p, 3, reports);
    assert s[..3] == p[..3] == h[..3] && s[..4] == h[..4] && s[..5] == h[..5] && s[..6] == h[..6] == h;
    ArriveOne(c, r, m, s, 3);
    Holds(c, r, Run(c, r, m, Arrive(s[..3])), h, 3, out);
    ArriveOne(c, r, m, s, 4);
    Holds(c, r, Run(c, r, m, Arrive(s[..4])), h, 4, out);
    ArriveOne(c, r, m, s, 5);
    Holds(c, r, Run(c, r, m, Arrive(s[..5])), h, 5, out);
    ArriveOne(c, r, m, s, 6);
    UnmarkedIsGenuine(c, p);
    CutsOut(c, r, Run(c, r, m, Arrive(s[..6])), h, s[6], out);
    assert h[..3] == p[..3];
  }

  lemma SplicedArrives(c: Config, r: nat, m: Mouse, held: seq<octet>, p: seq<octet>, q: seq<octet>, reports: seq<Report>)
    requires Sane(c) && Possible(c, Spliced(p, q)) && Ready(c, m, held, reports)
    ensures Ready(c, Run(c, r, m, Events(Spliced(p, q))), [], reports + Release(held) + Sent(Spliced(p, q)))
  {
    hide Receive, Sane, Genuine, Run, Mixed, Possible;
    SplicedFacts(c, p, q);
    var s, p' := p[..3] + q + p[3..], p[3 := Unmark(p[3])];
    var out := reports + Release(held) + [Bare(q, false)];
    SpliceArrives(c, r, m, held, p, q, reports);
    UnmarkedIsGenuine(c, p);
    ArriveOne(c, r, m, s, 7);
    Collects(c, r, Run(c, r, m, Arrive(s[..7])), p', 4, out);
    ArriveOne(c, r, m, s, 8);
    Collects(c, r, Run(c, r, m, Arrive(s[..8])), p', 5, out);
    assert s[..9] == s;
    assert out + [Alps(p')] == reports + Release(held) + Sent(Spliced(p, q));
  }

  lemma SplicedFacts(c: Config, p: seq<octet>, q: seq<octet>)
    requires Sane(c) && Possible(c, Spliced(p, q))
    ensures c.interleaved && Genuine(c, p) && |p| == 6 && |q| == 3
  {
    SpliceSize(c);
  }

  lemma FreeArrives(c: Config, r: nat, m: Mouse, q: seq<octet>, reports: seq<Report>)
    requires Possible(c, Free(q)) && Ready(c, m, [], reports)
    ensures Ready(c, Run(c, r, m, Arrive(q)), [], reports + [Bare(q, true)])
  {
    hide Receive, Run;
    assert q[..0] == [] && q[..3] == q;
    assert Run(c, r, m, Arrive([])) == m by { NothingArrives(c, r, m); }
    ArriveOne(c, r, m, q, 0);
    Frees(c, r, m, q, 0, reports);
    ArriveOne(c, r, m, q, 1);
    Frees(c, r, Run(c, r, m, Arrive(q[..1])), q, 1, reports);
    ArriveOne(c, r, m, q, 2);
    Frees(c, r, Run(c, r, m, Arrive(q[..2])), q, 2, reports);
  }

  lemma NothingArrives(c: Config, r: nat, m: Mouse)
    ensures Run(c, r, m, Arrive([])) == m
  {
  }

  lemma PauseArrives(c: Config, r: nat, m: Mouse, held: seq<octet>, reports: seq<Report>)
    requires Sane(c) && Ready(c, m, held, reports)
    ensures Ready(c, Run(c, r, m, [Timeout]), [], reports + Release(held))
  {
    hide Sane, ValidFirst, HighBit, Marked;
    assert Run(c, r, m, [Timeout]) == Flush(c, m) by { assert [Timeout][..0] == []; }
    if held != [] {
      SpliceSize(c);
      assert Fits(c, held, 3) && Fits(c, held, 4) && Fits(c, held, 5);
      HighOr(held[3], held[4], held[5]);
    }
  }

  // ---- Every stream of frames --------------------------------------------------------

  ghost predicate AllPossible(c: Config, fs: seq<Frame>) {
    forall i :: 0 <= i < |fs| ==> Possible(c, fs[i]) && (fs[i].Spliced? ==> |fs[i].p| == 6)
  }

  /** A PS/2 packet right after an ALPS packet that is held back. */
  predicate ClashAt(c: Config, fs: seq<Frame>, i: nat)
    requires i < |fs|
  {
    i > 0 && Waits(c, fs[i - 1]) && fs[i].Free?
  }

  ghost predicate Clash(c: Config, fs: seq<Frame>) {
    exists i :: 0 <= i < |fs| && ClashAt(c, fs, i)
  }

  function HeldBack(c: Config, fs: seq<Frame>): seq<octet> {
    if fs != [] && Waits(c, fs[|fs| - 1]) then fs[|fs| - 1].p else []
  }

  function Delivered(c: Config, fs: seq<Frame>): seq<Report>
    requires Whole(fs)
  {
    if fs != [] && Waits(c, fs[|fs| - 1]) then SentAll(fs[..|fs| - 1]) else SentAll(fs)
  }

  lemma {:induction false} RunConcat(c: Config, r: nat, m: Mouse, a: seq<Event>, b: seq<Event>)
    ensures Run(c, r, m, a + b) == Run(c, r, Run(c, r, m, a), b)
    decreases |b|
  {
    if b == [] {
      assert a + b == a;
    } else {
      assert (a + b)[..|a + b| - 1] == a + b[..|b| - 1];
      RunConcat(c, r, m, a, b[..|b| - 1]);
    }
  }

  lemma FrameArrives(c: Config, r: nat, m: Mouse, held: seq<octet>, f: Frame, reports: seq<Report>)
    requires Sane(c) && Possible(c, f) && Ready(c, m, held, reports) && (f.Spliced? ==> |f.p| == 6)
    requires f.Free? ==> held == []
    ensures var m1 := Run(c, r, m, Events(f));
      if Waits(c, f) then Ready(c, m1, f.p, reports + Release(held)) else Ready(c, m1, [], reports + Release(held) + Sent(f))
  {
    hide Receive, Sane, Genuine, Run, Ready;
    match f
    case Plain(p) => PlainArrives(c, r, m, held, p, reports);
    case Spliced(p, q) => SplicedArrives(c, r, m, held, p, q, reports);
    case Free(q) => FreeArrives(c, r, m, q, reports);
      assert reports + Release(held) == reports;
    case Pause => PauseArrives(c, r, m, held, reports);
      assert reports + Release(held) + Sent(Pause) == reports + Release(held);
  }

  /** One more frame, in terms of those before it. */
  lemma OneMore(c: Config, fs: seq<Frame>, out: seq<Report>)
    requires AllPossible(c, fs) && fs != []
    ensures var init, f := fs[..|fs| - 1], fs[|fs| - 1];
      && AllPossible(c, init) && Possible(c, f) && (f.Spliced? ==> |f.p| == 6)
      && Stream(fs) == Stream(init) + Events(f)
      && HeldBack(c, fs) == (if Waits(c, f) then f.p else [])
      && out + Delivered(c, init) + Release(HeldBack(c, init)) == out + SentAll(init)
      && out + Delivered(c, fs) == if Waits(c, f) then out + SentAll(init) else out + SentAll(init) + Sent(f)
  {
    hide Possible, Sent, Events, Held;
    var init := fs[..|fs| - 1];
    DeliveredIsSent(c, init);
    assert out + Delivered(c, init) + Release(HeldBack(c, init)) == out + (Delivered(c, init) + Release(HeldBack(c, init)));
    assert out + SentAll(init) + Sent(fs[|fs| - 1]) == out + (SentAll(init) + Sent(fs[|fs| - 1]));
  }

  lemma FreeIsAlone(c: Config, fs: seq<Frame>)
    requires fs != [] && !Clash(c, fs) && fs[|fs| - 1].Free?
    ensures HeldBack(c, fs[..|fs| - 1]) == []
  {
    assert !ClashAt(c, fs, |fs| - 1);
  }

  /** Without a clash the machine keeps step with the stream, at most one packet behind. */
  lemma {:induction false} InStep(c: Config, r: nat, m: Mouse, fs: seq<Frame>, reports: seq<Report>)
    requires Sane(c) && AllPossible(c, fs) && !Clash(c, fs) && Ready(c, m, [], reports)
    ensures Ready(c, Run(c, r, m, Stream(fs)), HeldBack(c, fs), reports + Delivered(c, fs))
    decreases |fs|
  {
    if fs == [] {
      assert reports + [] == reports;
    } else {
      var init, f := fs[..|fs| - 1], fs[|fs| - 1];
      hide *;
      OneMore(c, fs, reports);
      NoClashBefore(c, fs, |fs| - 1);
      InStep(c, r, m, init, reports);
      RunConcat(c, r, m, Stream(init), Events(f));
      if f.Free? { FreeIsAlone(c, fs); }
      FrameArrives(c, r, Run(c, r, m, Stream(init)), HeldBack(c, init), f, reports + Delivered(c, init));
    }
  }

  lemma NoClashBefore(c: Config, fs: seq<Frame>, k: nat)
    requires k <= |fs| && !Clash(c, fs)
    ensures !Clash(c, fs[..k])
  {
    forall i | 0 <= i < k
      ensures !ClashAt(c, fs[..k], i)
    {
      assert !ClashAt(c, fs, i);
    }
  }

  lemma DeliveredIsSent(c: Config, fs: seq<Frame>)
    requires AllPossible(c, fs)
    ensures Delivered(c, fs) + Release(HeldBack(c, fs)) == SentAll(fs)
  {
    if fs != [] && Waits(c, fs[|fs| - 1]) {
      assert Possible(c, fs[|fs| - 1]);
    }
  }

  // ---- Reports are never taken back --------------------------------------------------

  ghost predicate Extends(before: seq<Report>, after: seq<Report>) {
    |before| <= |after| && after[..|before|] == before
  }

  lemma ExtendsTransitive(a: seq<Report>, b: seq<Report>, c: seq<Report>)
    requires Extends(a, b) && Extends(b, c)
    ensures Extends(a, c)
  {
    assert c[..|a|] == c[..|b|][..|a|];
  }

  lemma HandleExtends(c: Config, r: nat, m: Mouse)
    requires m.packet != []
    ensures Extends(m.reports, HandleByte(c, r, m).0.reports)
  {
    hide HighBit, Marked, IsBare, ValidFirst, Unmark, ValidSoFar, Spoiled;
  }

  lemma StepExtends(c: Config, r: nat, m: Mouse, e: Event)
    ensures Extends(m.reports, Step(c, r, m, e).reports)
  {
    hide HandleByte, Spoiled;
    match e
    case Byte(b, stale) =>
      HandleExtends(c, r, m.(packet := m.packet + [b]));
      HandleExtends(c, r, m.(packet := [RET_BAT]));
      var (m1, _) := HandleByte(c, r, m.(packet := [RET_BAT]));
      HandleExtends(c, r, m1.(packet := m1.packet + [b]));
      ExtendsTransitive(m.reports, m1.reports, HandleByte(c, r, m1.(packet := m1.packet + [b])).0.reports);
    case _ =>
  }

  lemma {:induction false} RunExtends(c: Config, r: nat, m: Mouse, events: seq<Event>)
    ensures Extends(m.reports, Run(c, r, m, events).reports)
    decreases |events|
  {
    hide Step;
    if events != [] {
      var before := Run(c, r, m, events[..|events| - 1]);
      RunExtends(c, r, m, events[..|events| - 1]);
      StepExtends(c, r, before, events[|events| - 1]);
      ExtendsTransitive(m.reports, before.reports, Run(c, r, m, events).reports);
    }
  }

  // ---- A clash -----------------------------------------------------------------------

  lemma {:induction false} StreamConcat(a: seq<Frame>, b: seq<Frame>)
    requires Whole(a) && Whole(b)
    ensures Whole(a + b) && Stream(a + b) == Stream(a) + Stream(b)
    decreases |b|
  {
    hide Events;
    if b == [] {
      assert a + b == a;
    } else {
      var init, ab := b[..|b| - 1], a + b;
      assert ab[..|ab| - 1] == a + init && ab[|ab| - 1] == b[|b| - 1];
      StreamConcat(a, init);
      assert Stream(a) + Stream(init) + Events(b[|b| - 1]) == Stream(a) + (Stream(init) + Events(b[|b| - 1]));
    }
  }

  lemma {:induction false} SentConcat(a: seq<Frame>, b: seq<Frame>)
    requires Whole(a) && Whole(b)
    ensures Whole(a + b) && SentAll(a + b) == SentAll(a) + SentAll(b)
    decreases |b|
  {
    hide Sent;
    if b == [] {
      assert a + b == a;
    } else {
      var init, ab := b[..|b| - 1], a + b;
      assert ab[..|ab| - 1] == a + init && ab[|ab| - 1] == b[|b| - 1];
      SentConcat(a, init);
      assert SentAll(a) + SentAll(init) + Sent(b[|b| - 1]) == SentAll(a) + (SentAll(init) + Sent(b[|b| - 1]));
    }
  }

  lemma {:induction false} FirstClash(c: Config, fs: seq<Frame>) returns (k: nat)
    requires Clash(c, fs)
    ensures k < |fs| && ClashAt(c, fs, k) && !Clash(c, fs[..k])
  {
    var init := fs[..|fs| - 1];
    if i :| 0 <= i < |init| && ClashAt(c, init, i) {
      k := FirstClash(c, init);
      assert init[..k] == fs[..k];
    } else {
      k := |fs| - 1;
      var i :| 0 <= i < |fs| && ClashAt(c, fs, i);
      assert i < |init| ==> ClashAt(c, init, i);
    }
  }

  /** The first byte of a PS/2 packet after a held ALPS packet makes the machine cut that one up. */
  lemma CutsUp(c: Config, r: nat, m: Mouse, held: seq<octet>, b: octet, reports: seq<Report>)
    requires Sane(c) && held != [] && Ready(c, m, held, reports) && IsBare(b)
    ensures Extends(reports + [Bare(held[3..6], false)], Run(c, r, m, [Byte(b, false)]).reports)
  {
    hide HighBit, Marked, IsBare, ValidFirst, Receive, Unmark;
    Bits(b);
    SpliceSize(c);
    assert Mixed(c, held);
    CutsOut(c, r, m, held, b, reports);
    assert [Byte(b, false)][..0] == [];
  }

  lemma Parts(fs: seq<Frame>, k: nat)
    requires Whole(fs) && k < |fs|
    ensures Whole(fs[..k]) && Whole([fs[k]]) && Whole(fs[k + 1..]) && fs == fs[..k] + ([fs[k]] + fs[k + 1..])
  {
  }

  lemma OneFrame(f: Frame)
    requires Whole([f])
    ensures (f.Spliced? ==> |f.p| >= 4) && Stream([f]) == Events(f) && SentAll([f]) == Sent(f)
  {
    assert [f][0] == f && [f][..0] == [];
  }

  /** fs around the k-th frame. */
  lemma Around(fs: seq<Frame>, k: nat)
    requires Whole(fs) && k < |fs|
    ensures Whole(fs[..k]) && Whole(fs[k + 1..]) && (fs[k].Spliced? ==> |fs[k].p| >= 4)
    ensures Stream(fs) == Stream(fs[..k]) + (Events(fs[k]) + Stream(fs[k + 1..]))
    ensures SentAll(fs) == SentAll(fs[..k]) + (Sent(fs[k]) + SentAll(fs[k + 1..]))
  {
    hide *;
    Parts(fs, k);
    OneFrame(fs[k]);
    StreamConcat([fs[k]], fs[k + 1..]);
    SentConcat([fs[k]], fs[k + 1..]);
    StreamConcat(fs[..k], [fs[k]] + fs[k + 1..]);
    SentConcat(fs[..k], [fs[k]] + fs[k + 1..]);
  }

  lemma AroundThen(fs: seq<Frame>, k: nat, tail: seq<Event>)
    requires Whole(fs) && k < |fs|
    ensures Whole(fs[..k]) && Whole(fs[k + 1..]) && (fs[k].Spliced? ==> |fs[k].p| >= 4)
    ensures Stream(fs) + tail == Stream(fs[..k]) + (Events(fs[k]) + (Stream(fs[k + 1..]) + tail))
  {
    hide Stream, Events, SentAll, Sent;
    Around(fs, k);
  }

  lemma FreeBytes(q: seq<octet>)
    requires q != []
    ensures Events(Free(q)) == [Byte(q[0], false)] + Arrive(q[1..])
  {
  }

  /** A PS/2 packet and whatever comes after it, while a packet is held. */
  lemma CutsUpThen(c: Config, r: nat, m: Mouse, held: seq<octet>, q: seq<octet>, more: seq<Event>, reports: seq<Report>)
    requires Sane(c) && held != [] && Ready(c, m, held, reports) && Possible(c, Free(q))
    ensures |held| >= 6
    ensures Extends(reports + [Bare(held[3..6], false)], Run(c, r, m, Events(Free(q)) + more).reports)
  {
    var first, rest := [Byte(q[0], false)], Arrive(q[1..]) + more;
    FreeBytes(q);
    hide Run, Sane, Extends;
    assert Events(Free(q)) + more == first + rest;
    RunConcat(c, r, m, first, rest);
    CutsUp(c, r, m, held, q[0], reports);
    var m1 := Run(c, r, m, first);
    RunExtends(c, r, m1, rest);
    ExtendsTransitive(reports + [Bare(held[3..6], false)], m1.reports, Run(c, r, m1, rest).reports);
  }

  /** Where the held packet should have been reported, its last three bytes are, as PS/2 data. */
  lemma ClashShows(c: Config, r: nat, m: Mouse, fs: seq<Frame>, k: nat, tail: seq<Event>)
    requires Sane(c) && AllPossible(c, fs) && Ready(c, m, [], m.reports)
    requires k < |fs| && ClashAt(c, fs, k) && !Clash(c, fs[..k])
    ensures AllPossible(c, fs[..k]) && |fs[k - 1].p| >= 6
    ensures Extends(m.reports + Delivered(c, fs[..k]) + [Bare(fs[k - 1].p[3..6], false)], Run(c, r, m, Stream(fs) + tail).reports)
  {
    var a, more := fs[..k], Stream(fs[k + 1..]) + tail;
    assert Possible(c, fs[k]) && Possible(c, fs[k - 1]) && HeldBack(c, a) == fs[k - 1].p;
    assert Whole(fs) && AllPossible(c, a);
    hide Run, Sane, Extends, Stream, Events, Delivered, Clash, Ready, Possible, HeldBack, AllPossible, Whole, Held;
    AroundThen(fs, k, tail);
    InStep(c, r, m, a, m.reports);
    RunConcat(c, r, m, Stream(a), Events(fs[k]) + more);
    CutsUpThen(c, r, Run(c, r, m, Stream(a)), fs[k - 1].p, fs[k].q, more, m.reports + Delivered(c, a));
  }

  lemma ClashBelongs(c: Config, fs: seq<Frame>, k: nat)
    requires AllPossible(c, fs) && 0 < k < |fs| && Waits(c, fs[k - 1])
    ensures AllPossible(c, fs[..k])
    ensures Delivered(c, fs[..k]) == SentAll(fs[..k - 1])
    ensures Extends(Delivered(c, fs[..k]) + [Alps(fs[k - 1].p)], SentAll(fs))
  {
    hide *;
    HeldLast(c, fs, k);
    HeldIsPlain(c, fs, k - 1);
    Around(fs, k - 1);
    PrefixExtends(SentAll(fs[..k - 1]), Alps(fs[k - 1].p), SentAll(fs[k..]));
  }

  lemma HeldIsPlain(c: Config, fs: seq<Frame>, k: nat)
    requires AllPossible(c, fs) && k < |fs| && Waits(c, fs[k])
    ensures Whole(fs) && fs[k].Plain? && Sent(fs[k]) == [Alps(fs[k].p)]
  {
    hide Possible, Held;
  }

  lemma HeldLast(c: Config, fs: seq<Frame>, k: nat)
    requires AllPossible(c, fs) && 0 < k < |fs| && Waits(c, fs[k - 1])
    ensures AllPossible(c, fs[..k]) && AllPossible(c, fs[..k - 1])
    ensures Delivered(c, fs[..k]) == SentAll(fs[..k - 1])
  {
    hide Possible, SentAll, Held;
    assert fs[..k][..k - 1] == fs[..k - 1];
  }

  lemma PrefixExtends(a: seq<Report>, x: Report, b: seq<Report>)
    ensures Extends(a + [x], a + ([x] + b))
  {
  }

  lemma Apart(out: seq<Report>, a: seq<Report>, x: Report, y: Report, got: seq<Report>, sent: seq<Report>)
    requires x != y && Extends(out + a + [x], got) && Extends(a + [y], sent)
    ensures got != out + sent
  {
    assert got[..|out| + |a| + 1][|out| + |a|] == x;
    assert (out + sent)[|out| + |a|] == sent[|a|] == sent[..|a| + 1][|a|] == y;
  }

  /**
   * From a receiver in sync, with 20 ms of silence at the end: the packets reported are the
   * packets sent, in order, if and only if no PS/2 packet directly follows an ALPS packet
   * whose fourth byte ends in 0xf on an interleaved device.
   */
  lemma Demultiplexes(c: Config, r: nat, m: Mouse, fs: seq<Frame>)
    requires Sane(c) && AllPossible(c, fs) && At(m, [], m.reports, false)
    ensures Run(c, r, m, Stream(fs) + [Timeout]).reports == m.reports + SentAll(fs) <==> !Clash(c, fs)
  {
    assert Ready(c, m, [], m.reports);
    hide Run, Stream, SentAll, Sane, Possible, Ready, Extends, Held;
    if Clash(c, fs) {
      var k := FirstClash(c, fs);
      ClashShows(c, r, m, fs, k, [Timeout]);
      ClashBelongs(c, fs, k);
      Apart(m.reports, Delivered(c, fs[..k]), Bare(fs[k - 1].p[3..6], false), Alps(fs[k - 1].p),
            Run(c, r, m, Stream(fs) + [Timeout]).reports, SentAll(fs));
    } else {
      InStep(c, r, m, fs, m.reports);
      RunConcat(c, r, m, Stream(fs), [Timeout]);
      var m1 := Run(c, r, m, Stream(fs));
      PauseArrives(c, r, m1, HeldBack(c, fs), m.reports + Delivered(c, fs));
      DeliveredIsSent(c, fs);
      assert m.reports + Delivered(c, fs) + Release(HeldBack(c, fs)) == m.reports + (Delivered(c, fs) + Release(HeldBack(c, fs)));
      ReadyReports(c, Run(c, r, m1, [Timeout]), m.reports + Delivered(c, fs) + Release(HeldBack(c, fs)));
    }
  }

  lemma ReadyReports(c: Config, m: Mouse, reports: seq<Report>)
    requires Ready(c, m, [], reports)
    ensures m.reports == reports
  {
  }

  /** On a device that does not interleave nothing is ever held, so nothing clashes. */
  lemma WithoutSplicing(c: Config, r: nat, m: Mouse, fs: seq<Frame>)
    requires Sane(c) && !c.interleaved && AllPossible(c, fs) && At(m, [], m.reports, false)
    ensures Run(c, r, m, Stream(fs) + [Timeout]).reports == m.reports + SentAll(fs)
  {
    hide Run, Stream, SentAll, Sane, Possible;
    Demultiplexes(c, r, m, fs);
  }

  /** The clash is real: all buttons down on the pad's packet, then the trackpoint moves. */
  lemma ClashHappens()
    ensures var fs := [Plain([0xcf, 0, 0, 0x0f, 0, 0]), Free([0x08, 0x01, 0x01])];
      AllPossible(TABLE[9], fs) && Clash(TABLE[9], fs)
  {
    var fs := [Plain([0xcf, 0, 0, 0x0f, 0, 0]), Free([0x08, 0x01, 0x01])];
    assert ClashAt(TABLE[9], fs, 1);
  }
}
