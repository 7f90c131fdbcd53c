/**
 * The companion driver itself: the list and the records it changes in place. Each entry
 * point is one event, and the world afterwards is that event applied to the world before.
 */
module PsmouseSmbus {
  import opened Basics
  import opened SmbusCompanion

  // ---- A walk over the list --------------------------------------------------------

  ghost function Seen(entries: seq<Ptr>): set<Ptr> {
    set p | p in entries
  }

  /** The list in the middle of a walk: what is left of the first k entries, and the rest. */
  ghost predicate Walking(w: World, e: Event, k: nat, i: nat, list: seq<Ptr>) {
    && k <= |w.list|
    && i == |Keep(w.list[..k], Survivors(w, e))|
    && list == Keep(w.list[..k], Survivors(w, e)) + w.list[k..]
  }

  lemma WalkBegins(w: World, e: Event)
    requires Conserved(w)
    ensures Walking(w, e, 0, 0, w.list) && Swept(w, e, Seen(w.list[..0]), w.heap, w.freed)
  {
    hide Effect, Mine, Survivors;
    forall p: Ptr
      ensures SweptAt(w, e, false, p, w.heap, w.freed)
    {
    }
  }

  lemma Around(front: seq<Ptr>, p: Ptr, back: seq<Ptr>)
    ensures var list := front + ([p] + back);
      && list[|front|] == p && list == (front + [p]) + back
      && list[..|front|] + list[|front| + 1..] == front + back
  {
  }

  lemma SeesOneMore(entries: seq<Ptr>, k: nat)
    requires Ascending(entries) && k < |entries|
    ensures entries[k] !in Seen(entries[..k]) && Seen(entries[..k + 1]) == Seen(entries[..k]) + {entries[k]}
  {
  }

  lemma WalkGoesOn(w: World, e: Event, k: nat, i: nat, list: seq<Ptr>)
    requires Listed(w) && k < |w.list| && Walking(w, e, k, i, list)
    ensures i < |list| && list[i] == w.list[k] && w.list[k] in w.heap
    ensures w.list[k] !in Seen(w.list[..k]) && Seen(w.list[..k + 1]) == Seen(w.list[..k]) + {w.list[k]}
    ensures if Effect(w.heap[w.list[k]], Mine(e, w.list[k]), e).Lives? then Walking(w, e, k + 1, i + 1, list)
            else Walking(w, e, k + 1, i, list[..i] + list[i + 1..])
  {
    hide Effect, Mine, Keep, Seen, Ascending;
    var front, p := Keep(w.list[..k], Survivors(w, e)), w.list[k];
    KeepNext(w.list, Survivors(w, e), k);
    SeesOneMore(w.list, k);
    assert w.list[k..] == [p] + w.list[k + 1..];
    Around(front, p, w.list[k + 1..]);
  }

  lemma NotYet(w: World, e: Event, k: nat, i: nat, list: seq<Ptr>)
    requires Walking(w, e, k, i, list)
    ensures i < |list| <==> k < |w.list|
  {
  }

  lemma WalkEnds(w: World, e: Event, k: nat, i: nat, list: seq<Ptr>, heap: map<Ptr, Dev>, freed: map<Ptr, Final>)
    requires !e.InitBegin? && Listed(w) && Conserved(w)
    requires Walking(w, e, k, i, list) && |list| <= i && Swept(w, e, Seen(w.list[..k]), heap, freed)
    ensures Apply(w, e) == World(heap, list, freed, w.next)
  {
    hide Effect, Mine, Keep, Apply, Swept, Survivors, Ascending;
    assert w.list[..k] == w.list;
    assert Seen(w.list) == w.heap.Keys;
    SweptAll(w, e, heap, freed);
  }

  // ---- Adapters that appear --------------------------------------------------------

  ghost function Waiting(w: World, entries: seq<Ptr>): seq<Mouse>
    requires forall p :: p in entries ==> p in w.heap
  {
    if entries == [] then []
    else
      var init, d := entries[..|entries| - 1], w.heap[entries[|entries| - 1]];
      Waiting(w, init) + if !d.dead && d.client.None? then [d.mouse] else []
  }

  /** The mice probed again are those of records without a companion: breadcrumbs, and inits still looking for one. */
  lemma {:induction false} WaitingAreBreadcrumbs(w: World, entries: seq<Ptr>, mouse: Mouse)
    requires Inv(w) && forall p :: p in entries ==> p in w.heap
    ensures mouse in Waiting(w, entries) <==> exists p :: p in entries && w.heap[p].mouse == mouse && w.heap[p].client.None?
  {
    if entries != [] {
      var init, p := entries[..|entries| - 1], entries[|entries| - 1];
      assert entries == init + [p];
      assert Sound(w.heap[p]);
      WaitingAreBreadcrumbs(w, init, mouse);
    }
  }

  // ---- Mice whose client goes first --------------------------------------------------

  /** The record has this client and still its mouse. */
  predicate Widowing(d: Dev, client: Client) {
    d.client == Some(client) && !d.dead
  }

  ghost function Bereaved(w: World, client: Client, entries: seq<Ptr>): seq<Mouse>
    requires forall p :: p in entries ==> p in w.heap
  {
    if entries == [] then []
    else
      var init, d := entries[..|entries| - 1], w.heap[entries[|entries| - 1]];
      Bereaved(w, client, init) + if Widowing(d, client) then [d.mouse] else []
  }

  lemma BereavedNext(w: World, client: Client, k: nat)
    requires Listed(w) && k < |w.list|
    ensures forall p :: p in w.list[..k + 1] ==> p in w.heap
    ensures var d := w.heap[w.list[k]];
      Bereaved(w, client, w.list[..k + 1]) == Bereaved(w, client, w.list[..k]) + if Widowing(d, client) then [d.mouse] else []
  {
    hide Widowing;
    assert w.list[..k + 1][..k] == w.list[..k];
  }

  /** A mouse is probed again when its client goes exactly if that was a companion it was driven by, or was about to be. */
  lemma {:induction false} BereavedLoseTheirClient(w: World, client: Client, entries: seq<Ptr>, mouse: Mouse)
    requires Inv(w) && Enabled(w, Detach(client)) && forall p :: p in entries ==> p in w.heap
    ensures mouse in Bereaved(w, client, entries) <==>
      exists p :: p in entries && w.heap[p].mouse == mouse && w.heap[p].client == Some(client) && (w.heap[p].connected || w.heap[p].initing)
  {
    if entries != [] {
      var init, p := entries[..|entries| - 1], entries[|entries| - 1];
      assert entries == init + [p];
      assert Sound(w.heap[p]);
      BereavedLoseTheirClient(w, client, init, mouse);
    }
  }

  // ---- One record ------------------------------------------------------------------

  /** An event that names its record leaves the others alone. */
  lemma NamesOneRecord(w: World, p: Ptr, e: Event)
    requires Inv(w) && p in w.heap && Mine(e, p)
    ensures p in w.list && Sound(w.heap[p]) && LeavesOthers(w, p, e)
    ensures match Effect(w.heap[p], true, e)
      case Lives(d) => Apply(w, e) == w.(heap := w.heap[p := d])
      case Dies(f) => forall i :: 0 <= i < |w.list| && w.list[i] == p ==>
        Apply(w, e) == World(w.heap - {p}, w.list[..i] + w.list[i + 1..], w.freed[p := f], w.next)
  {
    hide Sound, Settled, Unshared, Conserved, Apply;
    ChangesOnlyOne(w, p, e);
    forall i | 0 <= i < |w.list| && w.list[i] == p
      ensures Keep(w.list, w.heap.Keys - {p}) == w.list[..i] + w.list[i + 1..]
    {
      KeepWithout(w.list, w.heap.Keys - {p}, i);
    }
  }

  // ---- The driver ------------------------------------------------------------------

  class Driver {
    var heap: map<Ptr, Dev>
    var list: seq<Ptr>
    var freed: map<Ptr, Final>
    var next: Ptr
    var work: seq<Client>            // removals posted to psmouse_smbus_wq

    ghost function W(): World
      reads this
    {
      World(heap, list, freed, next)
    }

    constructor ()
      ensures W() == START && Inv(W()) && work == []
    {
      heap, list, freed, next, work := map[], [], map[], 0, [];
    }

    /** list_del and kfree of the i-th entry. */
    method Free(i: nat, who: Freer)
      requires i < |list| && list[i] in heap
      modifies this`heap, this`list, this`freed
      ensures heap == old(heap) - {old(list[i])}
      ensures list == old(list[..i]) + old(list[i + 1..])
      ensures freed == old(freed)[old(list[i]) := Final(old(heap[list[i]]), who)]
    {
      var p := list[i];
      freed := freed[p := Final(heap[p], who)];
      heap := heap - {p};
      list := list[..i] + list[i + 1..];
    }

    /** `rescans` are the mice that lose their companion by this. */
    method DetachI2cClient(client: Client) returns (rescans: seq<Mouse>)
      requires Inv(W())
      modifies this`heap, this`list, this`freed
      ensures W() == Apply(old(W()), Detach(client))
      ensures rescans == Bereaved(old(W()), client, old(list))
    {
      hide Apply, Sound, Settled, Unshared, Swept, Walking, Seen, Ascending, Survivors, Bereaved;
      ghost var w, e, k := W(), Detach(client), 0;
      WalkBegins(w, e);
      rescans := [];
      assert rescans == Bereaved(w, client, w.list[..0]) by { NoneBereaved(w, client); }
      var i := 0;
      while i < |list|
        invariant k <= |w.list| && next == w.next
        invariant Walking(w, e, k, i, list) && Swept(w, e, Seen(w.list[..k]), heap, freed)
        invariant rescans == Bereaved(w, client, w.list[..k])
        decreases |list| - i
      {
        NotYet(w, e, k, i, list);
        WalkGoesOn(w, e, k, i, list);
        BereavedNext(w, client, k);
        var p := list[i];
        SweptOneMore(w, e, Seen(w.list[..k]), p, heap, freed);
        ghost var o := Effect(w.heap[p], Mine(e, p), e);
        ghost var f := freed;
        if heap[p].client != Some(client) {
          i := i + 1;
          assert o == Lives(w.heap[p]);
          assert heap[p := w.heap[p]] == heap;
        } else {
          ghost var h := heap;
          heap := heap[p := heap[p].(attached := false, hasData := false)];
          if !heap[p].dead {
            heap := heap[p := heap[p].(dead := true)];
            heap := heap[p := heap[p].(linked := false, unlinks := heap[p].unlinks + 1)];
            rescans := rescans + [heap[p].mouse];
            i := i + 1;
            assert heap == h[p := heap[p]];
            assert o == Lives(heap[p]);
          } else {
            Free(i, ByDetach);
            assert heap == h - {p};
            assert o.Dies? && freed == f[p := o.final];
          }
        }
        k := k + 1;
      }
      NotYet(w, e, k, i, list);
      assert w.list[..k] == w.list;
      WalkEnds(w, e, k, i, list, heap, freed);
    }

    lemma NoneBereaved(w: World, client: Client)
      ensures w.list[..0] == [] && Bereaved(w, client, []) == []
    {
    }

    method Cleanup(mouse: Mouse)
      requires Inv(W())
      modifies this`heap, this`list, this`freed
      ensures W() == Apply(old(W()), Event.Cleanup(mouse))
    {
      hide Apply, Sound, Settled, Unshared, Swept, Walking, Seen, Ascending, Survivors;
      ghost var w, e, k := W(), Event.Cleanup(mouse), 0;
      WalkBegins(w, e);
      var i := 0;
      while i < |list|
        invariant k <= |w.list| && next == w.next
        invariant Walking(w, e, k, i, list) && Swept(w, e, Seen(w.list[..k]), heap, freed)
        decreases |list| - i
      {
        NotYet(w, e, k, i, list);
        WalkGoesOn(w, e, k, i, list);
        var p := list[i];
        SweptOneMore(w, e, Seen(w.list[..k]), p, heap, freed);
        if heap[p].mouse == mouse {
          Free(i, ByCleanup);
        } else {
          i := i + 1;
          assert heap[p := w.heap[p]] == heap;
        }
        k := k + 1;
      }
      WalkEnds(w, e, k, i, list, heap, freed);
    }

    /** psmouse->disconnect, for the mouse whose psmouse->private is p. */
    method Disconnect(p: Ptr)
      requires Inv(W()) && Enabled(W(), Event.Disconnect(p))
      modifies this`heap, this`list, this`freed, this`work
      ensures W() == Apply(old(W()), Event.Disconnect(p))
      ensures work == old(work) + if old(heap[p].attached) then [old(heap[p].client.value)] else []
    {
      hide Apply, Settled, Inv, LeavesOthers;
      ghost var w, e := W(), Event.Disconnect(p);
      NamesOneRecord(w, p, e);
      var i :| 0 <= i < |list| && list[i] == p;
      heap := heap[p := heap[p].(connected := false)];
      if heap[p].dead {
        Free(i, ByDisconnect);
        assert heap == w.heap - {p};
      } else {
        heap := heap[p := heap[p].(dead := true)];
        heap := heap[p := heap[p].(linked := false, unlinks := heap[p].unlinks + 1)];
        work := work + [heap[p].client.value];
        assert heap == w.heap[p := heap[p]];
      }
    }

    /** The worker destroys the client it was posted, and the bus tells of it. */
    method RemoveI2cDevice() returns (rescans: seq<Mouse>)
      requires Inv(W()) && work != []
      modifies this
      ensures W() == Apply(old(W()), Detach(old(work[0]))) && work == old(work[1..])
      ensures rescans == Bereaved(old(W()), old(work[0]), old(list))
    {
      var client := work[0];
      rescans := DetachI2cClient(client);
      work := work[1..];
    }

    /** The record is made and listed. */
    method InitBegin(mouse: Mouse) returns (p: Ptr)
      requires Inv(W())
      modifies this`heap, this`list, this`next
      ensures p == old(next) && W() == Apply(old(W()), Event.InitBegin(mouse))
    {
      p := next;
      heap := heap[p := Fresh(mouse)];
      next := next + 1;
      list := list + [p];
    }

    /** An adapter accepted the companion. */
    method CreateCompanion(p: Ptr, client: Client)
      requires Inv(W()) && Enabled(W(), Bind(p, client))
      modifies this`heap
      ensures W() == Apply(old(W()), Bind(p, client))
    {
      hide Apply, Settled, Inv, LeavesOthers;
      NamesOneRecord(W(), p, Bind(p, client));
      heap := heap[p := heap[p].(client := Some(client), attached := true, hasData := true)];
    }

    /** The end of init: success with a companion, a breadcrumb, or nothing left behind. */
    method InitEnd(p: Ptr, error: int, leaveBreadcrumbs: bool, linkOk: bool) returns (r: int)
      requires Inv(W()) && Enabled(W(), Event.InitEnd(p, error, leaveBreadcrumbs, linkOk))
      modifies this`heap, this`list, this`freed
      ensures W() == Apply(old(W()), Event.InitEnd(p, error, leaveBreadcrumbs, linkOk))
      ensures r == if old(heap[p].client.Some?) then 0 else if error < 0 then error else EAGAIN
      ensures r == 0 <==> p in heap && heap[p].connected
      ensures r != 0 ==> (p in heap <==> error >= 0 && leaveBreadcrumbs)
    {
      hide Apply, Settled, Inv, LeavesOthers;
      ghost var w, e := W(), Event.InitEnd(p, error, leaveBreadcrumbs, linkOk);
      NamesOneRecord(w, p, e);
      heap := heap[p := heap[p].(initing := false)];
      if heap[p].client.Some? {
        heap := heap[p := heap[p].(connected := true, linked := linkOk)];
        assert heap == w.heap[p := heap[p]];
        return 0;
      }
      if error < 0 || !leaveBreadcrumbs {
        var i :| 0 <= i < |list| && list[i] == p;
        Free(i, ByInit);
        assert heap == w.heap - {p};
      }
      return if error < 0 then error else EAGAIN;
    }

    /** A new adapter makes every mouse that still waits for a companion be probed again, oldest record first. */
    method CheckAdapter(hostNotify: bool) returns (rescans: seq<Mouse>)
      requires Inv(W())
      ensures rescans == if hostNotify then Waiting(W(), list) else []
    {
      rescans := [];
      if !hostNotify { return; }
      for i := 0 to |list|
        invariant rescans == Waiting(W(), list[..i])
      {
        assert list[..i + 1][..i] == list[..i];
        assert list[i] in heap;
        if !heap[list[i]].dead && heap[list[i]].client.None? {
          rescans := rescans + [heap[list[i]].mouse];
        }
      }
      assert list[..|list|] == list;
    }
  }
}
