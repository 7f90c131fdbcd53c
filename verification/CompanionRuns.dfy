/**
 * What a freed companion record leaves behind, told from the events of the run alone: a
 * device link exactly if init made it too late, platform data exactly if cleanup came
 * between the two sides.
 */
module CompanionRuns {
  import opened Basics
  import opened SmbusCompanion

  /** The world before the i-th event. */
  function At(run: seq<Event>, i: nat): World
    requires i <= |run|
  {
    Run(START, run[..i])
  }

  lemma OneMore(run: seq<Event>)
    requires run != [] && Possible(START, run)
    ensures var init, e := run[..|run| - 1], run[|run| - 1];
      && Possible(START, init) && Enabled(Run(START, init), e) && Inv(Run(START, init)) && Inv(Run(START, run))
      && Run(START, run) == Apply(Run(START, init), e) && At(run, |run| - 1) == Run(START, init)
      && (forall i :: 0 <= i < |run| - 1 ==> run[i] == init[i] && At(run, i) == At(init, i))
  {
    hide Apply, Enabled, Inv;
    var init := run[..|run| - 1];
    forall i | 0 <= i < |run| - 1
      ensures At(run, i) == At(init, i)
    {
      assert run[..i] == init[..i];
    }
    EveryRunIsSound(init);
    EveryRunIsSound(run);
  }

  /** One event at one record: what becomes of it is its effect, and a new record is fresh. */
  lemma OneRecord(w: World, e: Event, p: Ptr)
    requires Inv(w) && Enabled(w, e)
    ensures var w' := Apply(w, e);
      && (p in w.heap ==>
            && Sound(w.heap[p])
            && match Effect(w.heap[p], Mine(e, p), e)
               case Lives(d) => p in w'.heap && w'.heap[p] == d && p !in w'.freed
               case Dies(f) => p !in w'.heap && p in w'.freed && w'.freed[p] == f)
      && (p in w.freed ==> p !in w'.heap && p in w'.freed && w'.freed[p] == w.freed[p])
      && (p !in w.heap && p !in w.freed ==> p !in w'.freed && (p in w'.heap ==> e.InitBegin? && w'.heap[p] == Fresh(e.mouse)))
  {
    hide Effect, Enabled, Mine, Unshared, Settled, Sound, Ascending, Keep;
    if e.InitBegin? && p in w.heap { OthersLive(w.heap[p], Mine(e, p), e); }
  }

  lemma OthersLive(d: Dev, mine: bool, e: Event)
    requires e.InitBegin?
    ensures Effect(d, mine, e) == Lives(d)
  {
  }

  // ---- The link ----------------------------------------------------------------------

  /** The i-th event makes the link of a record whose client has already gone. */
  predicate LateLink(run: seq<Event>, p: Ptr, i: nat)
    requires i < |run|
  {
    && run[i].InitEnd? && run[i].p == p && run[i].linkOk
    && p in At(run, i).heap && At(run, i).heap[p].client.Some? && At(run, i).heap[p].dead
  }

  ghost predicate LinkedLate(run: seq<Event>, p: Ptr) {
    exists i :: 0 <= i < |run| && LateLink(run, p, i)
  }

  lemma LinkedLateSoon(run: seq<Event>, p: Ptr)
    requires run != [] && Possible(START, run)
    ensures LinkedLate(run, p) <==> LinkedLate(run[..|run| - 1], p) || LateLink(run, p, |run| - 1)
  {
    hide Apply, Enabled, Inv, Run, Possible;
    OneMore(run);
    var init := run[..|run| - 1];
    forall i | 0 <= i < |init|
      ensures LateLink(run, p, i) == LateLink(init, p, i)
    {
      assert At(run, i) == At(init, i) && run[i] == init[i];
    }
    if LinkedLate(init, p) {
      var i :| 0 <= i < |init| && LateLink(init, p, i);
      assert LateLink(run, p, i);
    }
  }

  /** Of what the kernel guarantees, the part about one record. */
  lemma EnabledFor(w: World, e: Event, p: Ptr)
    requires Enabled(w, e)
    ensures match e
      case InitBegin(_) => true
      case Bind(q, client) => q == p ==> p in w.heap && w.heap[p].initing && w.heap[p].client.None?
      case InitEnd(q, _, _, _) => q == p ==> p in w.heap && w.heap[p].initing
      case Disconnect(q) => q == p ==> p in w.heap && w.heap[p].connected
      case Detach(client) => p in w.heap && w.heap[p].client == Some(client) ==> w.heap[p].attached
      case Cleanup(mouse) => p in w.heap && w.heap[p].mouse == mouse ==> !w.heap[p].connected && !w.heap[p].initing
  {
  }

  /** The link of a record and whether it was made late, so far. */
  predicate LinkKnown(w: World, p: Ptr, late: bool) {
    && (p in w.heap ==> if w.heap[p].dead then w.heap[p].linked <==> late else !late)
    && (p in w.freed ==> (w.freed[p].dev.linked <==> late))
    && (p !in w.heap && p !in w.freed ==> !late)
  }

  lemma LinkStep(w: World, e: Event, p: Ptr, late: bool)
    requires Inv(w) && Enabled(w, e) && LinkKnown(w, p, late)
    ensures LinkKnown(Apply(w, e), p, late || (e.InitEnd? && e.p == p && e.linkOk && p in w.heap && w.heap[p].client.Some? && w.heap[p].dead))
  {
    hide Apply, Enabled, Inv;
    OneRecord(w, e, p);
    EnabledFor(w, e, p);
  }

  /** A record's link outlives the going of either side exactly if init made it after its client had gone. */
  lemma {:induction false} LinkFollowsRun(run: seq<Event>, p: Ptr)
    requires Possible(START, run)
    ensures LinkKnown(Run(START, run), p, LinkedLate(run, p))
    decreases |run|
  {
    if run != [] {
      LinkFollowsRun(run[..|run| - 1], p);
      LinkedLateSoon(run, p);
      OneMore(run);
      hide Run, Apply, Possible, LinkedLate, Inv, Enabled, LinkKnown;
      LinkStep(Run(START, run[..|run| - 1]), run[|run| - 1], p, LinkedLate(run[..|run| - 1], p));
    }
  }

  // ---- The two sides and cleanup -------------------------------------------------------

  /** The i-th event is the PS/2 side's going, with the client still there. */
  predicate FirstGoes(run: seq<Event>, p: Ptr, i: nat)
    requires i < |run|
  {
    run[i] == Disconnect(p) && p in At(run, i).heap && At(run, i).heap[p].attached && At(run, i).heap[p].client.Some?
  }

  /** Between the i-th and the j-th event neither the other side of the record at p goes nor its mouse is cleaned up. */
  predicate NothingBetween(run: seq<Event>, d: Dev, i: nat, j: nat)
    requires d.client.Some? && j <= |run|
  {
    forall k :: i < k < j ==> run[k] != Detach(d.client.value) && run[k] != Event.Cleanup(d.mouse)
  }

  /** The PS/2 side goes at i, and the mouse is cleaned up at j, before the client has gone. */
  predicate CleanedAt(run: seq<Event>, p: Ptr, i: nat, j: nat)
    requires i < |run| && j < |run|
  {
    && i < j && FirstGoes(run, p, i)
    && var d := At(run, i).heap[p];
       run[j] == Event.Cleanup(d.mouse) && forall k :: i < k < j ==> run[k] != Detach(d.client.value)
  }

  ghost predicate CleanedBetween(run: seq<Event>, p: Ptr) {
    exists i, j :: 0 <= i < |run| && 0 <= j < |run| && CleanedAt(run, p, i, j)
  }

  /** How the record whose PS/2 side went first at i came to its end at t. */
  predicate EndedAt(run: seq<Event>, p: Ptr, i: nat, t: nat, who: Freer)
    requires i < |run| && t < |run| && FirstGoes(run, p, i)
  {
    var d := At(run, i).heap[p];
    && i < t && NothingBetween(run, d, i, t)
    && if run[t] == Detach(d.client.value) then who == ByDetach else run[t] == Event.Cleanup(d.mouse) && who == ByCleanup
  }

  /** What the run so far says about the record whose PS/2 side went first at i. */
  ghost predicate Remembered(run: seq<Event>, w: World, p: Ptr, i: nat)
    requires i < |run| && FirstGoes(run, p, i)
  {
    var d := At(run, i).heap[p];
    if p in w.heap then w.heap[p] == Widowed(d, run[i]) && NothingBetween(run, d, i, |run|)
    else p in w.freed && exists t :: 0 <= t < |run| && EndedAt(run, p, i, t, w.freed[p].who)
  }

  /** Its PS/2 side has gone and its client has not. */
  predicate Alone(d: Dev) {
    !d.initing && d.client.Some? && !d.connected
  }

  predicate CleanedUp(f: Final) {
    f.who == ByCleanup && f.dev.client.Some?
  }

  lemma FirstGoesAlike(run: seq<Event>, p: Ptr, i: nat)
    requires run != [] && Possible(START, run) && i < |run| - 1
    ensures At(run, i) == At(run[..|run| - 1], i) && run[i] == run[..|run| - 1][i]
    ensures FirstGoes(run, p, i) == FirstGoes(run[..|run| - 1], p, i)
  {
    hide Run, Apply, Enabled, Inv, Possible;
    OneMore(run);
  }

  /** The end of a record, seen from a longer run. */
  lemma EndedStays(run: seq<Event>, p: Ptr, i: nat, t: nat, who: Freer)
    requires run != [] && Possible(START, run) && i < |run| - 1 && t < |run| - 1
    requires FirstGoes(run[..|run| - 1], p, i) && EndedAt(run[..|run| - 1], p, i, t, who)
    ensures FirstGoes(run, p, i) && EndedAt(run, p, i, t, who)
  {
    hide Run, Apply, Enabled, Inv, Possible;
    FirstGoesAlike(run, p, i);
    var init := run[..|run| - 1];
    forall k | i < k <= t
      ensures run[k] == init[k]
    {
    }
  }

  /** One more event at a record whose PS/2 side has gone. */
  lemma WidowedStep(d: Dev, mine: bool, e: Event)
    requires Sound(d) && d.dead && d.attached && !d.connected && e.InitBegin? == false
    requires mine ==> !e.Bind? && !e.InitEnd? && !e.Disconnect?
    ensures Effect(d, mine, e) ==
      if e == Detach(d.client.value) then Dies(Final(d.(attached := false, hasData := false), ByDetach))
      else if e == Event.Cleanup(d.mouse) then Dies(Final(d, ByCleanup))
      else Lives(d)
  {
  }

  lemma WidowIsSettled(w: World, e: Event, p: Ptr, d: Dev, gone: Event)
    requires Inv(w) && Enabled(w, e) && p in w.heap && w.heap[p] == Widowed(d, gone) && gone.Disconnect? && d.attached && d.client.Some?
    ensures var w' := Apply(w, e);
      if e == Detach(d.client.value) then p !in w'.heap && p in w'.freed && w'.freed[p].who == ByDetach
      else if e == Event.Cleanup(d.mouse) then p !in w'.heap && p in w'.freed && w'.freed[p].who == ByCleanup
      else p in w'.heap && w'.heap[p] == w.heap[p]
  {
    hide Apply, Inv, Enabled, Effect;
    OneRecord(w, e, p);
    EnabledFor(w, e, p);
    if e.InitBegin? { OthersLive(w.heap[p], Mine(e, p), e); } else { WidowedStep(w.heap[p], Mine(e, p), e); }
  }

  lemma RememberedStays(run: seq<Event>, p: Ptr, i: nat)
    requires run != [] && Possible(START, run) && i < |run| - 1 && FirstGoes(run[..|run| - 1], p, i)
    requires Remembered(run[..|run| - 1], Run(START, run[..|run| - 1]), p, i)
    ensures FirstGoes(run, p, i) && Remembered(run, Run(START, run), p, i)
  {
    hide Run, Apply, Enabled, Inv, Possible, EndedAt, FirstGoes;
    var init, e, n := run[..|run| - 1], run[|run| - 1], |run| - 1;
    var w := Run(START, init);
    FirstGoesAlike(run, p, i);
    OneMore(run);
    OneRecord(w, e, p);
    if p in w.heap {
      WidowRemembered(run, p, i);
    } else {
      var t :| 0 <= t < |init| && EndedAt(init, p, i, t, w.freed[p].who);
      EndedStays(run, p, i, t, w.freed[p].who);
    }
  }

  lemma WidowRemembered(run: seq<Event>, p: Ptr, i: nat)
    requires run != [] && Possible(START, run) && i < |run| - 1 && FirstGoes(run, p, i)
    requires var w := Run(START, run[..|run| - 1]);
      var d := At(run, i).heap[p];
      p in w.heap && w.heap[p] == Widowed(d, run[i]) && NothingBetween(run[..|run| - 1], d, i, |run| - 1)
    ensures Remembered(run, Run(START, run), p, i)
  {
    hide Run, Apply, Enabled, Inv, Possible;
    var init, e, n := run[..|run| - 1], run[|run| - 1], |run| - 1;
    var d := At(run, i).heap[p];
    OneMore(run);
    WidowIsSettled(Run(START, init), e, p, d, run[i]);
    forall k | i < k < n
      ensures run[k] == init[k]
    {
    }
    if e == Detach(d.client.value) {
      assert EndedAt(run, p, i, n, ByDetach);
    } else if e == Event.Cleanup(d.mouse) {
      assert EndedAt(run, p, i, n, ByCleanup);
    }
  }

  /** The PS/2 side goes just now. */
  lemma JustWidowed(run: seq<Event>, p: Ptr)
    requires run != [] && Possible(START, run) && FirstGoes(run, p, |run| - 1)
    ensures Remembered(run, Run(START, run), p, |run| - 1)
  {
    hide Run, Apply, Enabled, Inv, Possible;
    var w, e := Run(START, run[..|run| - 1]), run[|run| - 1];
    OneMore(run);
    OneRecord(w, e, p);
    EnabledFor(w, e, p);
  }

  /** A record gets to be alone, or to be cleaned up with its client there, only after its PS/2 side has gone. */
  lemma AloneSince(w: World, e: Event, p: Ptr)
    requires Inv(w) && Enabled(w, e)
    ensures var w' := Apply(w, e);
      (p in w'.heap && Alone(w'.heap[p])) || (p in w'.freed && CleanedUp(w'.freed[p])) ==>
        || (p in w.heap && Alone(w.heap[p])) || (p in w.freed && CleanedUp(w.freed[p]))
        || (e == Disconnect(p) && p in w.heap && w.heap[p].attached && w.heap[p].client.Some?)
  {
    hide Apply, Enabled, Inv;
    OneRecord(w, e, p);
    EnabledFor(w, e, p);
  }

  /** Somebody's PS/2 side went first. */
  ghost predicate SomeFirst(run: seq<Event>, p: Ptr) {
    exists i :: 0 <= i < |run| && FirstGoes(run, p, i)
  }

  /** A record in the hands of its client alone, or cleaned up out of them. */
  predicate Bereft(w: World, p: Ptr) {
    (p in w.heap && Alone(w.heap[p])) || (p in w.freed && CleanedUp(w.freed[p]))
  }

  lemma SomeFirstStays(run: seq<Event>, p: Ptr)
    requires run != [] && Possible(START, run) && SomeFirst(run[..|run| - 1], p)
    ensures SomeFirst(run, p)
  {
    hide FirstGoes, At, Possible;
    var i :| 0 <= i < |run| - 1 && FirstGoes(run[..|run| - 1], p, i);
    FirstGoesAlike(run, p, i);
  }

  lemma BereftSince(run: seq<Event>, p: Ptr)
    requires run != [] && Possible(START, run) && Bereft(Run(START, run), p)
    ensures Bereft(Run(START, run[..|run| - 1]), p) || FirstGoes(run, p, |run| - 1)
  {
    hide Run, Apply, Enabled, Inv, Possible, Alone, CleanedUp;
    OneMore(run);
    AloneSince(Run(START, run[..|run| - 1]), run[|run| - 1], p);
  }

  lemma {:induction false} SidesFollowRun(run: seq<Event>, p: Ptr)
    requires Possible(START, run)
    ensures forall i :: 0 <= i < |run| && FirstGoes(run, p, i) ==> Remembered(run, Run(START, run), p, i)
    ensures Bereft(Run(START, run), p) ==> SomeFirst(run, p)
    decreases |run|
  {
    if run != [] {
      var init, n := run[..|run| - 1], |run| - 1;
      OneMore(run);
      SidesFollowRun(init, p);
      hide Run, Apply, Possible, Inv, Enabled, Remembered, Bereft, FirstGoes, At;
      forall i | 0 <= i < |run| && FirstGoes(run, p, i)
        ensures Remembered(run, Run(START, run), p, i)
      {
        if i < n {
          FirstGoesAlike(run, p, i);
          RememberedStays(run, p, i);
        } else {
          JustWidowed(run, p);
        }
      }
      if Bereft(Run(START, run), p) {
        BereftSince(run, p);
        if SomeFirst(init, p) { SomeFirstStays(run, p); }
      }
    }
  }

  /** A companion that ended while its PS/2 side was gone first was cleaned up in between exactly if cleanup freed it. */
  lemma EndIsCleanup(run: seq<Event>, p: Ptr, i: nat, t: nat, who: Freer, j: nat)
    requires i < |run| && t < |run| && j < |run| && FirstGoes(run, p, i) && EndedAt(run, p, i, t, who)
    ensures who == ByCleanup ==> CleanedAt(run, p, i, t)
    ensures CleanedAt(run, p, i, j) ==> who == ByCleanup
  {
    hide At, FirstGoes;
  }

  /**
   * A companion's record is freed by the side that goes second, and nothing stays behind,
   * exactly if its mouse is not cleaned up between the two; else cleanup frees it, and the
   * client's platform data stays behind.
   */
  lemma LeftToCleanup(run: seq<Event>, p: Ptr)
    requires Possible(START, run) && p in Run(START, run).freed && Run(START, run).freed[p].dev.client.Some?
    ensures var f := Run(START, run).freed[p];
      && (f.who == ByCleanup <==> CleanedBetween(run, p))
      && (f.dev.hasData <==> CleanedBetween(run, p))
      && (!CleanedBetween(run, p) ==> f.who == ByDisconnect || f.who == ByDetach)
  {
    EveryRunIsSound(run);
    SidesFollowRun(run, p);
    var w := Run(START, run);
    hide Run, Possible, At, FirstGoes, EndedAt, CleanedAt, Apply;
    assert Settled(w.freed[p]) && p !in w.heap;
    if w.freed[p].who == ByCleanup {
      assert SomeFirst(run, p);
      var i :| 0 <= i < |run| && FirstGoes(run, p, i);
      var t :| 0 <= t < |run| && EndedAt(run, p, i, t, w.freed[p].who);
      EndIsCleanup(run, p, i, t, w.freed[p].who, t);
    }
    if CleanedBetween(run, p) {
      var i, j :| 0 <= i < |run| && 0 <= j < |run| && CleanedAt(run, p, i, j);
      assert FirstGoes(run, p, i) by { CleanedGoesFirst(run, p, i, j); }
      assert Remembered(run, w, p, i);
      var t :| 0 <= t < |run| && EndedAt(run, p, i, t, w.freed[p].who);
      EndIsCleanup(run, p, i, t, w.freed[p].who, j);
    }
  }

  lemma CleanedGoesFirst(run: seq<Event>, p: Ptr, i: nat, j: nat)
    requires i < |run| && j < |run| && CleanedAt(run, p, i, j)
    ensures FirstGoes(run, p, i)
  {
  }

  // ---- Two runs that leave something behind ----------------------------------------------

  function Only(d: Dev): World { World(map[0 := d], [0], map[], 1) }
  function Gone(f: Final): World { World(map[], [], map[0 := f], 1) }

  lemma KeepNone()
    ensures Keep([0], {}) == []
  {
    assert [0][..0] == [];
  }

  /** Events at a world of one record. */
  lemma OnlyStep(d: Dev, e: Event)
    requires !e.InitBegin? && Listed(Only(d))
    ensures Apply(Only(d), e) == match Effect(d, Mine(e, 0), e) case Lives(d') => Only(d') case Dies(f) => Gone(f)
  {
    hide Effect, Mine, Listed, Keep, Apply;
    var w := Only(d);
    ChangesOnlyOne(w, 0, e);
    KeepNone();
    assert w.heap - {0} == map[] && w.heap.Keys - {0} == {};
    forall d': Dev
      ensures w.heap[0 := d'] == map[0 := d']
    {
    }
  }

  lemma OnlyIsListed(d: Dev)
    ensures Listed(Only(d))
  {
  }

  lemma Goes(run: seq<Event>, w: World, e: Event, w': World)
    requires Possible(START, run) && Run(START, run) == w && Enabled(w, e) && Apply(w, e) == w'
    ensures Possible(START, run + [e]) && Run(START, run + [e]) == w'
  {
    hide Apply, Enabled;
    assert (run + [e])[..|run|] == run;
  }

  /** One more event at the one record. */
  lemma OnlyGoes(run: seq<Event>, d: Dev, e: Event)
    requires Possible(START, run) && Run(START, run) == Only(d) && Enabled(Only(d), e) && !e.InitBegin?
    ensures Possible(START, run + [e])
    ensures Run(START, run + [e]) == match Effect(d, Mine(e, 0), e) case Lives(d') => Only(d') case Dies(f) => Gone(f)
  {
    hide Effect, Mine, Enabled, Apply, Listed, Run, Possible;
    OnlyIsListed(d);
    OnlyStep(d, e);
    Goes(run, Only(d), e, Apply(Only(d), e));
  }

  lemma Begun(mouse: Mouse)
    ensures Possible(START, [InitBegin(mouse)]) && Run(START, [InitBegin(mouse)]) == Only(Fresh(mouse))
  {
    Goes([], START, InitBegin(mouse), Only(Fresh(mouse)));
    assert [] + [InitBegin(mouse)] == [InitBegin(mouse)];
  }

  /** The client goes between its creation and the making of the link: the link outlives both sides. */
  lemma ALinkStays(mouse: Mouse, client: Client)
    ensures var run := [InitBegin(mouse)] + [Bind(0, client)] + [Detach(client)] + [InitEnd(0, 0, true, true)] + [Disconnect(0)];
      var w := Run(START, run);
      && Possible(START, run) && LinkedLate(run, 0)
      && w.heap == map[] && 0 in w.freed && w.freed[0].who == ByDisconnect && w.freed[0].dev.linked && w.freed[0].dev.unlinks == 1
  {
    hide Run, Possible, LinkedLate;
    var r0 := [InitBegin(mouse)];
    var r1 := r0 + [Bind(0, client)];
    var r2 := r1 + [Detach(client)];
    var r3 := r2 + [InitEnd(0, 0, true, true)];
    var d0 := Fresh(mouse);
    var d1 := d0.(client := Some(client), attached := true, hasData := true);
    var d2 := d1.(attached := false, hasData := false, dead := true, linked := false, unlinks := 1);
    var d3 := d2.(initing := false, connected := true, linked := true);
    Begun(mouse);
    OnlyGoes(r0, d0, Bind(0, client));
    OnlyGoes(r1, d1, Detach(client));
    OnlyGoes(r2, d2, InitEnd(0, 0, true, true));
    OnlyGoes(r3, d3, Disconnect(0));
    LinkFollowsRun(r3 + [Disconnect(0)], 0);
  }

  /** Cleanup between the two sides: the client's platform data outlives the record. */
  lemma PlatformDataStays(mouse: Mouse, client: Client)
    ensures var run := [InitBegin(mouse)] + [Bind(0, client)] + [InitEnd(0, 0, true, true)] + [Disconnect(0)]
                       + [Event.Cleanup(mouse)] + [Detach(client)];
      var w := Run(START, run);
      && Possible(START, run) && CleanedBetween(run, 0)
      && w.heap == map[] && 0 in w.freed && w.freed[0].who == ByCleanup && w.freed[0].dev.hasData
  {
    hide Run, Possible, CleanedBetween;
    var r0 := [InitBegin(mouse)];
    var r1 := r0 + [Bind(0, client)];
    var r2 := r1 + [InitEnd(0, 0, true, true)];
    var r3 := r2 + [Disconnect(0)];
    var r4 := r3 + [Event.Cleanup(mouse)];
    var d0 := Fresh(mouse);
    var d1 := d0.(client := Some(client), attached := true, hasData := true);
    var d2 := d1.(initing := false, connected := true, linked := true);
    var d3 := d2.(connected := false, dead := true, linked := false, unlinks := 1);
    Begun(mouse);
    OnlyGoes(r0, d0, Bind(0, client));
    OnlyGoes(r1, d1, InitEnd(0, 0, true, true));
    OnlyGoes(r2, d2, Disconnect(0));
    OnlyGoes(r3, d3, Event.Cleanup(mouse));
    NobodyHears(Final(d3, ByCleanup), Detach(client));
    Goes(r4, Gone(Final(d3, ByCleanup)), Detach(client), Gone(Final(d3, ByCleanup)));
    LeftToCleanup(r4 + [Detach(client)], 0);
  }

  lemma NobodyHears(f: Final, e: Event)
    requires !e.InitBegin?
    ensures Apply(Gone(f), e) == Gone(f)
  {
  }
}
