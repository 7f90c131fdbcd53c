/**
 * SMBus companions of PS/2 touchpads: records on a shared list, torn down by the
 * PS/2 side and the I2C side in either order. Records live in an explicit heap, so
 * that using or freeing a freed record is an error.
 */
module SmbusCompanion {
  import opened Basics

  type Ptr = nat
  type Mouse = nat
  type Client = nat

  const EAGAIN := -11

  /**
   * struct psmouse_smbus_dev, and what the rest of the kernel holds on its behalf:
   * the mouse drives it through psmouse->private (`connected`), its client is
   * registered (`attached`) and owns platform data, and a device link may be in place.
   * `unlinks` counts the calls of device_link_remove.
   */
  datatype Dev = Dev(mouse: Mouse, client: Option<Client>, dead: bool,
                     initing: bool, connected: bool, attached: bool, hasData: bool,
                     linked: bool, unlinks: nat)

  datatype Freer = ByDisconnect | ByDetach | ByCleanup | ByInit

  /** A freed record as it was last, and who freed it. */
  datatype Final = Final(dev: Dev, who: Freer)

  datatype World = World(heap: map<Ptr, Dev>, list: seq<Ptr>, freed: map<Ptr, Final>, next: Ptr)

  const START := World(map[], [], map[], 0)

  // ---- The list --------------------------------------------------------------------

  ghost predicate Ascending(s: seq<Ptr>) {
    forall i, j :: 0 <= i < j < |s| ==> s[i] < s[j]
  }

  /** `list` without the records that are gone. */
  function Keep(list: seq<Ptr>, live: set<Ptr>): (r: seq<Ptr>)
    ensures forall p :: p in r <==> p in list && p in live
  {
    if list == [] then []
    else
      var init, last := list[..|list| - 1], list[|list| - 1];
      assert list == init + [last];
      if last in live then Keep(init, live) + [last] else Keep(init, live)
  }

  lemma {:induction false} KeepKeepsOrder(list: seq<Ptr>, live: set<Ptr>)
    requires Ascending(list)
    ensures Ascending(Keep(list, live))
  {
    if list != [] {
      var init, last := list[..|list| - 1], list[|list| - 1];
      assert list == init + [last];
      KeepKeepsOrder(init, live);
      var r := Keep(init, live);
      forall i | 0 <= i < |r|
        ensures r[i] < last
      {
        assert r[i] in init;
      }
    }
  }

  lemma KeepNext(list: seq<Ptr>, live: set<Ptr>, k: nat)
    requires k < |list|
    ensures Keep(list[..k + 1], live) == if list[k] in live then Keep(list[..k], live) + [list[k]] else Keep(list[..k], live)
  {
    assert list[..k + 1][..k] == list[..k];
  }

  lemma {:induction false} KeepAll(list: seq<Ptr>, live: set<Ptr>)
    requires forall p :: p in list ==> p in live
    ensures Keep(list, live) == list
  {
    if list != [] {
      var init, last := list[..|list| - 1], list[|list| - 1];
      assert list == init + [last];
      KeepAll(init, live);
    }
  }

  lemma {:induction false} KeepAppends(a: seq<Ptr>, b: seq<Ptr>, live: set<Ptr>)
    ensures Keep(a + b, live) == Keep(a, live) + Keep(b, live)
    decreases |b|
  {
    if b == [] {
      assert a + b == a;
    } else {
      var init, last := b[..|b| - 1], b[|b| - 1];
      assert a + b == (a + init) + [last];
      KeepAppends(a, init, live);
    }
  }

  lemma KeepWithout(list: seq<Ptr>, live: set<Ptr>, i: nat)
    requires i < |list| && list[i] !in live
    requires forall j :: 0 <= j < |list| && j != i ==> list[j] in live
    ensures Keep(list, live) == list[..i] + list[i + 1..]
  {
    hide Keep;
    var a, b := list[..i], list[i + 1..];
    KeepNext(list, live, i);
    assert list == list[..i + 1] + b;
    KeepAppends(list[..i + 1], b, live);
    KeepAll(a, live);
    KeepAll(b, live);
  }

  lemma AppendKeepsOrder(w: World)
    requires Listed(w) && Conserved(w)
    ensures Ascending(w.list + [w.next])
    ensures forall p :: p in w.list + [w.next] <==> p in w.list || p == w.next
  {
    forall i | 0 <= i < |w.list|
      ensures w.list[i] < w.next
    {
      assert w.list[i] in w.heap;
    }
  }

  // ---- Events ----------------------------------------------------------------------

  datatype Event =
    | InitBegin(mouse: Mouse)
    | Bind(p: Ptr, client: Client)
    | InitEnd(p: Ptr, error: int, leaveBreadcrumbs: bool, linkOk: bool)
    | Disconnect(p: Ptr)                      // of the mouse whose psmouse->private is p
    | Detach(client: Client)                  // BUS_NOTIFY_REMOVED_DEVICE
    | Cleanup(mouse: Mouse)

  /** What the kernel around guarantees: unique clients, one removal event per client, psmouse_mutex around the PS/2 side. */
  predicate Enabled(w: World, e: Event) {
    match e
    case InitBegin(_) => true
    case Bind(p, client) =>
      && p in w.heap && w.heap[p].initing && w.heap[p].client.None?
      && forall q :: q in w.heap ==> w.heap[q].client != Some(client)
    case InitEnd(p, _, _, _) => p in w.heap && w.heap[p].initing
    case Disconnect(p) => p in w.heap && w.heap[p].connected
    case Detach(client) => forall q :: q in w.heap && w.heap[q].client == Some(client) ==> w.heap[q].attached
    case Cleanup(mouse) => forall q :: q in w.heap && w.heap[q].mouse == mouse ==> !w.heap[q].connected && !w.heap[q].initing
  }

  /** What an event makes of one record: its new content, or its end. */
  datatype Outcome = Lives(dev: Dev) | Dies(final: Final)

  function Effect(d: Dev, mine: bool, e: Event): Outcome {
    match e
    case InitBegin(_) => Lives(d)
    case Bind(_, client) =>
      Lives(if mine then d.(client := Some(client), attached := true, hasData := true) else d)
    case InitEnd(_, error, leaveBreadcrumbs, linkOk) =>
      if !mine then Lives(d)
      else if d.client.Some? then Lives(d.(initing := false, connected := true, linked := linkOk))
      else if error < 0 || !leaveBreadcrumbs then Dies(Final(d.(initing := false), ByInit))
      else Lives(d.(initing := false))
    case Disconnect(_) =>
      if !mine then Lives(d)
      else if d.dead then Dies(Final(d.(connected := false), ByDisconnect))
      else Lives(d.(connected := false, dead := true, linked := false, unlinks := d.unlinks + 1))
    case Detach(client) =>
      if d.client != Some(client) then Lives(d)
      else if d.dead then Dies(Final(d.(attached := false, hasData := false), ByDetach))
      else Lives(d.(attached := false, hasData := false, dead := true, linked := false, unlinks := d.unlinks + 1))
    case Cleanup(mouse) =>
      if d.mouse == mouse then Dies(Final(d, ByCleanup)) else Lives(d)
  }

  /** The event names this record by pointer. */
  predicate Mine(e: Event, p: Ptr) {
    (e.Bind? || e.InitEnd? || e.Disconnect?) && e.p == p
  }

  /** The records that outlive an event. */
  function Survivors(w: World, e: Event): set<Ptr> {
    set p | p in w.heap && Effect(w.heap[p], Mine(e, p), e).Lives?
  }

  function Fresh(mouse: Mouse): Dev {
    Dev(mouse, None, false, true, false, false, false, false, 0)
  }

  function Apply(w: World, e: Event): World {
    if e.InitBegin? then
      World(w.heap[w.next := Fresh(e.mouse)], w.list + [w.next], w.freed, w.next + 1)
    else
      var live := Survivors(w, e);
      World(map p | p in live :: Effect(w.heap[p], Mine(e, p), e).dev,
            Keep(w.list, live),
            w.freed + map p | p in w.heap && p !in live :: Effect(w.heap[p], Mine(e, p), e).final,
            w.next)
  }

  // ---- The invariant ---------------------------------------------------------------

  /**
   * A live record. Bound and past its init it is dead exactly if one side has gone, and
   * never are both gone; the link was removed once if one has gone, and never otherwise.
   */
  predicate Sound(d: Dev) {
    && (d.attached <==> d.hasData) && (d.attached ==> d.client.Some?)
    && (d.initing ==> !d.connected && !d.linked && (d.dead <==> d.client.Some? && !d.attached))
    && (!d.initing && d.client.Some? ==> (d.connected || d.attached) && (d.dead <==> !(d.connected && d.attached)))
    && (!d.initing && d.client.None? ==> !d.dead && !d.connected && !d.linked)
    && d.unlinks == if d.dead then 1 else 0
  }

  /** A freed record: nobody drives it any more, and a companion's link was removed once. */
  predicate Settled(f: Final) {
    && !f.dev.connected && !f.dev.initing
    && (f.dev.hasData <==> f.dev.attached)
    && (f.dev.client.None? ==> !f.dev.linked)
    && f.dev.unlinks == (if f.dev.client.Some? then 1 else 0)
    && match f.who
       case ByInit => f.dev.client.None?
       case ByDisconnect => f.dev.client.Some? && !f.dev.attached
       case ByDetach => f.dev.client.Some? && !f.dev.attached
       case ByCleanup => f.dev.client.None? || (f.dev.dead && f.dev.attached)
  }

  /** The list holds exactly the live records, oldest first. */
  ghost predicate Listed(w: World) {
    Ascending(w.list) && forall p :: p in w.list <==> p in w.heap
  }

  /** Every record ever allocated is live or freed, and never both. */
  ghost predicate Conserved(w: World) {
    forall p: Ptr :: (p in w.heap || p in w.freed <==> p < w.next) && !(p in w.heap && p in w.freed)
  }

  /** No two records have the same client. */
  ghost predicate Unshared(w: World) {
    forall p, q :: p in w.heap && q in w.heap && w.heap[p].client.Some? && w.heap[p].client == w.heap[q].client ==> p == q
  }

  ghost predicate Inv(w: World) {
    && Listed(w) && Conserved(w) && Unshared(w)
    && (forall p :: p in w.heap ==> Sound(w.heap[p]))
    && (forall p :: p in w.freed ==> Settled(w.freed[p]))
  }

  /** One record: an event it can meet leaves it sound, or settled for good. */
  lemma EffectIsSound(w: World, p: Ptr, e: Event)
    requires Inv(w) && p in w.heap && Enabled(w, e)
    ensures match Effect(w.heap[p], Mine(e, p), e)
      case Lives(d) => Sound(d)
      case Dies(f) => Settled(f)
  {
    assert Sound(w.heap[p]);
  }

  lemma StepKeepsList(w: World, e: Event)
    requires Listed(w) && Conserved(w)
    ensures Listed(Apply(w, e))
  {
    hide Effect, Conserved, Ascending, Mine;
    if e.InitBegin? { AppendKeepsOrder(w); } else { KeepKeepsOrder(w.list, Survivors(w, e)); }
  }

  lemma StepConserves(w: World, e: Event)
    requires Conserved(w)
    ensures Conserved(Apply(w, e))
  {
    hide Effect, Listed, Keep, Mine;
  }

  lemma OnlyBindGivesAClient(d: Dev, mine: bool, e: Event)
    requires Effect(d, mine, e).Lives?
    ensures Effect(d, mine, e).dev.client == if mine && e.Bind? then Some(e.client) else d.client
  {
  }

  lemma StepKeepsClients(w: World, e: Event)
    requires Unshared(w) && Conserved(w) && Enabled(w, e)
    ensures Unshared(Apply(w, e))
  {
    hide Keep, Effect;
    var w' := Apply(w, e);
    forall p | p in w'.heap && p in w.heap
      ensures w'.heap[p].client == if Mine(e, p) && e.Bind? then Some(e.client) else w.heap[p].client
    {
      if !e.InitBegin? { OnlyBindGivesAClient(w.heap[p], Mine(e, p), e); }
    }
    forall p, q | p in w'.heap && q in w'.heap && w'.heap[p].client.Some? && w'.heap[p].client == w'.heap[q].client
      ensures p == q
    {
      assert p in w.heap && q in w.heap;
    }
  }

  /** The list holds exactly the live records and each is sound, whatever the two sides do and in whatever order. */
  lemma StepKeepsInv(w: World, e: Event)
    requires Inv(w) && Enabled(w, e)
    ensures Inv(Apply(w, e))
  {
    hide Effect, Enabled, Listed, Conserved, Unshared, Settled;
    var w' := Apply(w, e);
    StepKeepsList(w, e);
    StepConserves(w, e);
    StepKeepsClients(w, e);
    forall p | p in w'.heap
      ensures Sound(w'.heap[p])
    {
      if p in w.heap { EffectIsSound(w, p, e); }
    }
    forall p | p in w'.freed
      ensures Settled(w'.freed[p])
    {
      if p in w.heap { EffectIsSound(w, p, e); }
    }
  }

  // ---- Runs ------------------------------------------------------------------------

  predicate Possible(w: World, run: seq<Event>)
    decreases |run|
  {
    run == [] || (Possible(w, run[..|run| - 1]) && Enabled(Run(w, run[..|run| - 1]), run[|run| - 1]))
  }

  function Run(w: World, run: seq<Event>): World
    decreases |run|
  {
    if run == [] then w else Apply(Run(w, run[..|run| - 1]), run[|run| - 1])
  }

  lemma FreedStays(w: World, e: Event, p: Ptr)
    requires Inv(w) && p in w.freed
    ensures var w' := Apply(w, e);
      p in w'.freed && w'.freed[p] == w.freed[p] && p !in w'.list && p !in w'.heap
  {
    hide Effect, Unshared, Settled, Sound, Ascending, Mine;
  }

  /**
   * Over every run the invariant holds, and a record once freed stays freed: it is never
   * used, listed or freed again.
   */
  lemma {:induction false} RunFreesOnce(w: World, run: seq<Event>)
    requires Inv(w) && Possible(w, run)
    ensures Inv(Run(w, run))
    ensures forall p :: p in w.freed ==> p in Run(w, run).freed && Run(w, run).freed[p] == w.freed[p]
    ensures forall p :: p in w.freed ==> p !in Run(w, run).list && p !in Run(w, run).heap
    decreases |run|
  {
    hide Apply, Enabled, Unshared, Settled, Sound, Ascending;
    if run != [] {
      var before, e := Run(w, run[..|run| - 1]), run[|run| - 1];
      RunFreesOnce(w, run[..|run| - 1]);
      StepKeepsInv(before, e);
      forall p | p in w.freed
        ensures p in Run(w, run).freed && Run(w, run).freed[p] == w.freed[p] && p !in Run(w, run).list && p !in Run(w, run).heap
      {
        FreedStays(before, e, p);
      }
    }
  }

  lemma EveryRunIsSound(run: seq<Event>)
    requires Possible(START, run)
    ensures Inv(Run(START, run))
  {
    RunFreesOnce(START, run);
  }

  /** The event by which one side of the companion at p goes. */
  predicate Leaves(w: World, p: Ptr, e: Event) {
    && p in w.heap && !w.heap[p].initing && w.heap[p].client.Some?
    && ((e == Disconnect(p) && w.heap[p].connected) || (e == Detach(w.heap[p].client.value) && w.heap[p].attached))
  }

  /** The record once its first side has gone. */
  function Widowed(d: Dev, e: Event): Dev {
    if e.Disconnect? then d.(connected := false, dead := true, linked := false, unlinks := 1)
    else d.(attached := false, hasData := false, dead := true, linked := false, unlinks := 1)
  }

  /** Every record but p is left alone. */
  ghost predicate LeavesOthers(w: World, p: Ptr, e: Event) {
    forall q :: q in w.heap && q != p ==> Effect(w.heap[q], Mine(e, q), e) == Lives(w.heap[q])
  }

  lemma OthersSurvive(w: World, p: Ptr, e: Event)
    requires Listed(w) && p in w.heap && LeavesOthers(w, p, e)
    ensures var lives := Effect(w.heap[p], Mine(e, p), e).Lives?;
      && Survivors(w, e) == (if lives then w.heap.Keys else w.heap.Keys - {p})
      && (lives ==> Keep(w.list, Survivors(w, e)) == w.list)
  {
    hide Effect, Mine, Keep, Ascending;
    if Survivors(w, e) == w.heap.Keys { KeepAll(w.list, Survivors(w, e)); }
  }

  /** An event that leaves every other record alone changes the world only at p. */
  lemma ChangesOnlyOne(w: World, p: Ptr, e: Event)
    requires Listed(w) && p in w.heap && !e.InitBegin? && LeavesOthers(w, p, e)
    ensures match Effect(w.heap[p], Mine(e, p), e)
      case Lives(d) => Apply(w, e) == w.(heap := w.heap[p := d])
      case Dies(f) => Apply(w, e) == w.(heap := w.heap - {p}, list := Keep(w.list, w.heap.Keys - {p}), freed := w.freed[p := f])
  {
    hide Effect, Mine, Ascending, Keep, Listed, Survivors;
    OthersSurvive(w, p, e);
    var w' := Apply(w, e);
    match Effect(w.heap[p], Mine(e, p), e)
    case Lives(d) =>
      assert w'.heap == w.heap[p := d];
      assert w'.freed == w.freed;
    case Dies(f) =>
      assert w'.heap == w.heap - {p};
      assert w'.freed == w.freed[p := f];
  }

  /**
   * The side that goes first marks the record and unlinks the devices; the side that goes
   * second frees it. No other record is touched.
   */
  lemma SecondSideFrees(w: World, p: Ptr, e: Event)
    requires Inv(w) && Leaves(w, p, e)
    ensures Enabled(w, e)
    ensures var d, w' := w.heap[p], Apply(w, e);
      if d.connected && d.attached then w' == w.(heap := w.heap[p := Widowed(d, e)])
      else && w'.heap == w.heap - {p} && p !in w'.list
           && p in w'.freed && w'.freed == w.freed[p := w'.freed[p]]
           && w'.freed[p].who == (if e.Disconnect? then ByDisconnect else ByDetach)
  {
    hide Settled, Ascending, Keep, Apply, Conserved;
    assert Sound(w.heap[p]);
    ChangesOnlyOne(w, p, e);
  }

  /**
   * The end of an init: a companion, gone again or not, keeps its record, which now drives
   * the mouse; without one the record stays, as a breadcrumb, if and only if no error came up
   * and breadcrumbs were asked for. No other record is touched.
   */
  lemma InitLeavesBreadcrumb(w: World, p: Ptr, error: int, leaveBreadcrumbs: bool, linkOk: bool)
    requires Inv(w) && Enabled(w, InitEnd(p, error, leaveBreadcrumbs, linkOk))
    ensures var d, w' := w.heap[p], Apply(w, InitEnd(p, error, leaveBreadcrumbs, linkOk));
      && (p in w'.heap <==> d.client.Some? || (error >= 0 && leaveBreadcrumbs))
      && (p in w'.heap ==>
            && w'.list == w.list && w'.freed == w.freed
            && w'.heap == w.heap[p := if d.client.Some? then d.(initing := false, connected := true, linked := linkOk)
                                      else d.(initing := false)])
      && (p !in w'.heap ==>
            && w'.heap == w.heap - {p} && p !in w'.list
            && w'.freed == w.freed[p := Final(d.(initing := false), ByInit)])
  {
    hide Settled, Ascending, Keep, Apply, Conserved, Sound;
    var e := InitEnd(p, error, leaveBreadcrumbs, linkOk);
    assert LeavesOthers(w, p, e);
    ChangesOnlyOne(w, p, e);
  }

  /** A record without a companion that outlived its init is freed by cleanup and nothing else. */
  lemma BreadcrumbsAreLeftToCleanup(w: World, e: Event, p: Ptr)
    requires Inv(w) && Enabled(w, e) && p in w.heap && !w.heap[p].initing && w.heap[p].client.None?
    ensures p in Apply(w, e).freed <==> e == Cleanup(w.heap[p].mouse)
    ensures p !in Apply(w, e).freed ==> p in Apply(w, e).list && Apply(w, e).heap[p] == w.heap[p]
  {
    hide Settled, Ascending, Unshared;
    assert Sound(w.heap[p]);
  }

  /** The two sides may go in either order: the same records are left. */
  lemma EitherOrder(w: World, p: Ptr, first: Event, second: Event)
    requires Inv(w) && Leaves(w, p, first) && Leaves(w, p, second) && first.Disconnect? != second.Disconnect?
    ensures Possible(w, [first, second])
    ensures var w' := Run(w, [first, second]);
      && w'.heap == w.heap - {p} && p in w'.freed
      && w'.freed[p].who == if first.Disconnect? then ByDetach else ByDisconnect
  {
    hide Effect, Apply, Enabled, Inv;
    SecondSideFrees(w, p, first);
    StepKeepsInv(w, first);
    SecondSideFrees(Apply(w, first), p, second);
    assert [first, second][..1] == [first] && [first][..0] == [];
    assert Run(w, []) == w && Run(w, [first]) == Apply(Run(w, []), first);
    assert Possible(w, [first]);
    assert w.heap[p := Widowed(w.heap[p], first)] - {p} == w.heap - {p};
  }

  // ---- The driver ------------------------------------------------------------------

  /** One record during a walk over the list: dealt with, or as it was. */
  ghost predicate SweptAt(w: World, e: Event, done: bool, p: Ptr, heap: map<Ptr, Dev>, freed: map<Ptr, Final>) {
    if p in w.heap then
      match if done then Effect(w.heap[p], Mine(e, p), e) else Lives(w.heap[p])
      case Lives(d) => p in heap && heap[p] == d && p !in freed
      case Dies(f) => p !in heap && p in freed && freed[p] == f
    else p !in heap && if p in w.freed then p in freed && freed[p] == w.freed[p] else p !in freed
  }

  ghost predicate Swept(w: World, e: Event, done: set<Ptr>, heap: map<Ptr, Dev>, freed: map<Ptr, Final>) {
    forall p :: SweptAt(w, e, p in done, p, heap, freed)
  }

  lemma SweptAll(w: World, e: Event, heap: map<Ptr, Dev>, freed: map<Ptr, Final>)
    requires !e.InitBegin? && Conserved(w) && Swept(w, e, w.heap.Keys, heap, freed)
    ensures Apply(w, e) == World(heap, Keep(w.list, Survivors(w, e)), freed, w.next)
  {
    hide Effect, Mine, Keep;
    var w' := Apply(w, e);
    forall p: Ptr
      ensures p in heap <==> p in w'.heap
      ensures p in heap ==> heap[p] == w'.heap[p]
      ensures p in freed <==> p in w'.freed
      ensures p in freed ==> freed[p] == w'.freed[p]
    {
      assert SweptAt(w, e, p in w.heap.Keys, p, heap, freed);
    }
  }

  /** One more record is dealt with. */
  lemma SweptOneMore(w: World, e: Event, done: set<Ptr>, p: Ptr, heap: map<Ptr, Dev>, freed: map<Ptr, Final>)
    requires p in w.heap && p !in done && Swept(w, e, done, heap, freed)
    ensures p in heap && heap[p] == w.heap[p]
    ensures match Effect(w.heap[p], Mine(e, p), e)
      case Lives(d) => Swept(w, e, done + {p}, heap[p := d], freed)
      case Dies(f) => Swept(w, e, done + {p}, heap - {p}, freed[p := f])
  {
    hide Effect, Mine;
    assert SweptAt(w, e, p in done, p, heap, freed);
    var o := Effect(w.heap[p], Mine(e, p), e);
    var heap', freed' := if o.Lives? then heap[p := o.dev] else heap - {p}, if o.Lives? then freed else freed[p := o.final];
    forall q: Ptr
      ensures SweptAt(w, e, q in done + {p}, q, heap', freed')
    {
      assert SweptAt(w, e, q in done, q, heap, freed);
    }
  }
}
