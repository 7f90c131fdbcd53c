/**
 * Which thread holds or waits for what around Host Notify delivery: one control
 * thread that starts and stops the engine, the IRQ thread, and any number of
 * transfers, interleaved step by step over piix4_asf_mutex and
 * piix4_asf_notify_mutex.
 */
module AsfFence {
  type Tid = nat

  const CONTROL: Tid := 0
  const IRQ_THREAD: Tid := 1      // every other number is a transfer

  datatype Lock = Free | Held(holder: Tid)

  datatype Pc =
    | Idle
    | StartNotify | StartNotifyHeld | StartAsf | StartAsfHeld
    | StopAsf | StopAsfHeld | StopFreeIrq | StopNotify | StopNotifyHeld
    | WorkAsf | WorkAsfHeld
    | WorkNotify(count: nat) | WorkCheck(count: nat) | WorkDeliver(count: nat)

  /** What a thread has collected so far, and how much of it was handed over or held back. */
  datatype Book = Book(collected: nat, given: nat, refused: nat)

  datatype Thread = Thread(pc: Pc, book: Book)

  const UNBORN := Thread(Idle, Book(0, 0, 0))

  /** `stopped` spans from the return of piix4_asf_stop to the next call of piix4_asf_start; `handed` records it for each hand-over. */
  datatype State = State(
    threads: map<Tid, Thread>, asf: Lock, notify: Lock,
    deliverOk: bool, irqRequested: bool,
    stopped: bool, handed: seq<bool>)

  function ThreadOf(s: State, t: Tid): Thread { if t in s.threads then s.threads[t] else UNBORN }

  function PcOf(s: State, t: Tid): Pc { ThreadOf(s, t).pc }

  function BookOf(s: State, t: Tid): Book { ThreadOf(s, t).book }

  predicate HoldsAsf(p: Pc) { p.StartAsfHeld? || p.StopAsfHeld? || p.WorkAsfHeld? }

  predicate HoldsNotify(p: Pc) { p.StartNotifyHeld? || p.StopNotifyHeld? || p.WorkCheck? || p.WorkDeliver? }

  predicate WantsAsf(p: Pc) { p.StartAsf? || p.StopAsf? || p.WorkAsf? }

  predicate WantsNotify(p: Pc) { p.StartNotify? || p.StopNotify? || p.WorkNotify? }

  /** The program counter once the wanted mutex is taken. */
  function Taken(p: Pc): Pc
    requires WantsAsf(p) || WantsNotify(p)
  {
    match p
    case StartNotify => StartNotifyHeld
    case StartAsf => StartAsfHeld
    case StopAsf => StopAsfHeld
    case StopNotify => StopNotifyHeld
    case WorkAsf => WorkAsfHeld
    case WorkNotify(count) => WorkCheck(count)
  }

  function Put(s: State, t: Tid, p: Pc, book: Book): State { s.(threads := s.threads[t := Thread(p, book)]) }

  function At(s: State, t: Tid, p: Pc): State { Put(s, t, p, BookOf(s, t)) }

  /** The program counter moves on, and `count` notifications have been collected. */
  function Collected(s: State, t: Tid, p: Pc, count: nat): State {
    Put(s, t, p, BookOf(s, t).(collected := BookOf(s, t).collected + count))
  }

  /** One notification has been handed over. */
  function Given(s: State, t: Tid, p: Pc): State {
    Put(s, t, p, BookOf(s, t).(given := BookOf(s, t).given + 1)).(handed := s.handed + [s.stopped])
  }

  /** `count` notifications have been held back. */
  function Refused(s: State, t: Tid, p: Pc, count: nat): State {
    Put(s, t, p, BookOf(s, t).(refused := BookOf(s, t).refused + count))
  }

  predicate Init(s: State) {
    s.threads == map[] && s.asf == Free && s.notify == Free && !s.deliverOk && !s.irqRequested && !s.stopped && s.handed == []
  }

  /** An idle thread begins something: the control thread requests the IRQ, starts or stops; the others work. */
  predicate Begins(s: State, t: Tid, s': State) {
    PcOf(s, t) == Idle &&
    if t == CONTROL then
      || s' == s.(irqRequested := true)
      || s' == At(s, t, StartNotify).(stopped := false)
      || s' == At(s, t, StopAsf)
    else
      (t == IRQ_THREAD ==> s.irqRequested) && s' == At(s, t, WorkAsf)
  }

  predicate TakesAsf(s: State, t: Tid, s': State) {
    WantsAsf(PcOf(s, t)) && s.asf == Free && s' == At(s, t, Taken(PcOf(s, t))).(asf := Held(t))
  }

  predicate TakesNotify(s: State, t: Tid, s': State) {
    WantsNotify(PcOf(s, t)) && s.notify == Free && s' == At(s, t, Taken(PcOf(s, t))).(notify := Held(t))
  }

  /** piix4_asf_deliver returns at once if nothing was collected. */
  function AfterWork(count: nat): Pc { if count == 0 then Idle else WorkNotify(count) }

  /** Leaving the section under piix4_asf_mutex; a worker has collected `count` notifications. */
  ghost predicate LeavesAsf(s: State, t: Tid, s': State) {
    match PcOf(s, t)
    case StartAsfHeld => s' == At(s, t, Idle).(asf := Free)
    case StopAsfHeld => s' == At(s, t, StopFreeIrq).(asf := Free)
    case WorkAsfHeld => exists count: nat :: s' == Collected(s, t, AfterWork(count), count).(asf := Free)
    case _ => false
  }

  /** Acting under piix4_asf_notify_mutex, and leaving it. */
  predicate ActsUnderNotify(s: State, t: Tid, s': State) {
    match PcOf(s, t)
    case StartNotifyHeld => s' == At(s, t, StartAsf).(deliverOk := true, notify := Free)
    case StopNotifyHeld => s' == At(s, t, Idle).(deliverOk := false, notify := Free, stopped := true)
    case WorkCheck(count) => s' == if s.deliverOk then At(s, t, WorkDeliver(count)) else Refused(s, t, WorkDeliver(0), count)
    case WorkDeliver(count) =>
      if count == 0 then s' == At(s, t, Idle).(notify := Free)
      else s' == Given(s, t, WorkDeliver(count - 1))
    case _ => false
  }

  /** free_irq returns once the IRQ thread has finished its run. */
  predicate FreesIrq(s: State, t: Tid, s': State) {
    PcOf(s, t) == StopFreeIrq && (s.irqRequested ==> PcOf(s, IRQ_THREAD) == Idle)
    && s' == At(s, t, StopNotify).(irqRequested := false)
  }

  ghost predicate Step(s: State, t: Tid, s': State) {
    || Begins(s, t, s') || TakesAsf(s, t, s') || TakesNotify(s, t, s')
    || LeavesAsf(s, t, s') || ActsUnderNotify(s, t, s') || FreesIrq(s, t, s')
  }

  ghost predicate Moves(s: State, s': State) { exists t: Tid :: Step(s, t, s') }

  /** A run of any length, in any interleaving. */
  ghost predicate Run(run: seq<State>) {
    && |run| > 0 && Init(run[0])
    && forall i :: 0 < i < |run| ==> Moves(run[i - 1], run[i])
  }

  function Last(run: seq<State>): State
    requires |run| > 0
  {
    run[|run| - 1]
  }

  predicate ControlPc(p: Pc) {
    p.StartNotify? || p.StartNotifyHeld? || p.StartAsf? || p.StartAsfHeld?
    || p.StopAsf? || p.StopAsfHeld? || p.StopFreeIrq? || p.StopNotify? || p.StopNotifyHeld?
  }

  predicate ThreadInv(s: State, t: Tid) {
    var p := PcOf(s, t);
    && (HoldsAsf(p) <==> s.asf == Held(t)) && (HoldsNotify(p) <==> s.notify == Held(t))
    && (p.Idle? || (ControlPc(p) <==> t == CONTROL))
    && (p.WorkDeliver? && p.count > 0 ==> s.deliverOk)
    && (s.stopped ==> !p.StartNotify? && !p.StartNotifyHeld?)
    && (t == IRQ_THREAD && !p.Idle? ==> s.irqRequested)
    && (p.StartAsf? || p.StartAsfHeld? ==> s.deliverOk) && (p.StopNotify? || p.StopNotifyHeld? ==> !s.irqRequested)
  }

  /** What the thread still has in hand. */
  function InFlight(p: Pc): nat {
    if p.WorkNotify? || p.WorkCheck? || p.WorkDeliver? then p.count else 0
  }

  ghost predicate Inv(s: State) {
    && (forall t: Tid :: ThreadInv(s, t))
    && (s.stopped ==> !s.deliverOk)
    && true !in s.handed
  }

  /** What a thread collected is accounted for. */
  predicate Balanced(s: State, t: Tid) {
    BookOf(s, t).collected == BookOf(s, t).given + BookOf(s, t).refused + InFlight(PcOf(s, t))
  }

  lemma BeginKeepsInv(s: State, t: Tid, s': State)
    requires Inv(s) && Begins(s, t, s')
    ensures Inv(s')
  {
    forall u: Tid ensures ThreadInv(s', u) { assert ThreadInv(s, u); }
  }

  lemma TakeKeepsInv(s: State, t: Tid, s': State)
    requires Inv(s) && (TakesAsf(s, t, s') || TakesNotify(s, t, s'))
    ensures Inv(s')
  {
    forall u: Tid ensures ThreadInv(s', u) { assert ThreadInv(s, u) && ThreadInv(s, t); }
  }

  lemma LeaveKeepsInv(s: State, t: Tid, s': State)
    requires Inv(s) && (LeavesAsf(s, t, s') || FreesIrq(s, t, s'))
    ensures Inv(s')
  {
    forall u: Tid ensures ThreadInv(s', u) { assert ThreadInv(s, u) && ThreadInv(s, t); }
  }

  lemma ActKeepsThread(s: State, t: Tid, s': State, u: Tid)
    requires ThreadInv(s, t) && ThreadInv(s, u) && ActsUnderNotify(s, t, s')
    ensures ThreadInv(s', u)
  {
  }

  lemma ActKeepsInv(s: State, t: Tid, s': State)
    requires Inv(s) && ActsUnderNotify(s, t, s')
    ensures Inv(s')
  {
    assert ThreadInv(s, t);
    assert (s'.stopped ==> !s'.deliverOk) && true !in s'.handed;
    forall u: Tid ensures ThreadInv(s', u) {
      assert ThreadInv(s, u);
      hide ThreadInv, ActsUnderNotify;
      ActKeepsThread(s, t, s', u);
    }
  }

  lemma StepKeepsInv(s: State, t: Tid, s': State)
    requires Inv(s) && Step(s, t, s')
    ensures Inv(s')
  {
    hide Inv, Begins, TakesAsf, TakesNotify, LeavesAsf, ActsUnderNotify, FreesIrq;
    if Begins(s, t, s') { BeginKeepsInv(s, t, s'); }
    if TakesAsf(s, t, s') || TakesNotify(s, t, s') { TakeKeepsInv(s, t, s'); }
    if LeavesAsf(s, t, s') || FreesIrq(s, t, s') { LeaveKeepsInv(s, t, s'); }
    if ActsUnderNotify(s, t, s') { ActKeepsInv(s, t, s'); }
  }

  lemma {:induction false} RunKeepsInv(run: seq<State>)
    requires Run(run)
    ensures Inv(Last(run))
  {
    if |run| > 1 {
      RunKeepsInv(run[..|run| - 1]);
      assert Moves(run[|run| - 1 - 1], Last(run));
      var t: Tid :| Step(run[|run| - 2], t, Last(run));
      StepKeepsInv(run[|run| - 2], t, Last(run));
    }
  }

  /** The delivery fence: in no interleaving is a notification handed over between the return of stop and the next start. */
  lemma NothingIsHandedOverWhileStopped(run: seq<State>)
    requires Run(run)
    ensures true !in Last(run).handed
    ensures Last(run).stopped ==> forall t: Tid :: PcOf(Last(run), t).WorkDeliver? ==> PcOf(Last(run), t).count == 0
  {
    RunKeepsInv(run);
    forall t: Tid
      ensures Last(run).stopped && PcOf(Last(run), t).WorkDeliver? ==> PcOf(Last(run), t).count == 0
    {
      assert ThreadInv(Last(run), t);
    }
  }

  lemma StepKeepsBalance(s: State, t: Tid, s': State, u: Tid)
    requires Step(s, t, s') && Balanced(s, u)
    ensures Balanced(s', u)
  {
    hide Begins, TakesAsf, TakesNotify, LeavesAsf, ActsUnderNotify, FreesIrq, BookOf, InFlight, PcOf;
    if LeavesAsf(s, t, s') { LeaveBalances(s, t, s', u); }
    if ActsUnderNotify(s, t, s') { ActBalances(s, t, s', u); }
    if Begins(s, t, s') || FreesIrq(s, t, s') { BeginKeepsBooks(s, t, s', u); }
    if TakesAsf(s, t, s') || TakesNotify(s, t, s') { TakeKeepsBooks(s, t, s', u); }
  }

  lemma LeaveBalances(s: State, t: Tid, s': State, u: Tid)
    requires LeavesAsf(s, t, s') && Balanced(s, u)
    ensures Balanced(s', u)
  {
  }

  lemma ActBalances(s: State, t: Tid, s': State, u: Tid)
    requires ActsUnderNotify(s, t, s') && Balanced(s, u)
    ensures Balanced(s', u)
  {
  }

  /** Locks, starts and stops leave the books and what is in hand. */
  predicate SameBooks(s: State, s': State, u: Tid) {
    s'.handed == s.handed && BookOf(s', u) == BookOf(s, u) && InFlight(PcOf(s', u)) == InFlight(PcOf(s, u))
  }

  lemma BeginKeepsBooks(s: State, t: Tid, s': State, u: Tid)
    requires Begins(s, t, s') || FreesIrq(s, t, s')
    ensures SameBooks(s, s', u)
  {
  }

  lemma TakeKeepsBooks(s: State, t: Tid, s': State, u: Tid)
    requires TakesAsf(s, t, s') || TakesNotify(s, t, s')
    ensures SameBooks(s, s', u)
  {
  }

  /** Over every run: whatever a thread collected it has handed over, held back because delivery was off, or still has in hand. */
  lemma {:induction false} CollectedIsAccounted(run: seq<State>, t: Tid)
    requires Run(run)
    ensures var s := Last(run);
      BookOf(s, t).collected == BookOf(s, t).given + BookOf(s, t).refused + InFlight(PcOf(s, t))
  {
    hide Step;
    assert Balanced(run[0], t);
    if |run| > 1 {
      CollectedIsAccounted(run[..|run| - 1], t);
      assert Balanced(run[|run| - 2], t);
      assert Moves(run[|run| - 1 - 1], Last(run));
      var u: Tid :| Step(run[|run| - 2], u, Last(run));
      StepKeepsBalance(run[|run| - 2], u, Last(run), t);
    }
  }

  /** A worker may collect any number, and then goes on to deliver them. */
  lemma AnyNumberIsCollected(s: State, t: Tid, count: nat) returns (s': State)
    requires PcOf(s, t) == WorkAsfHeld
    ensures Step(s, t, s') && BookOf(s', t).collected == BookOf(s, t).collected + count
    ensures PcOf(s', t) == if count == 0 then Idle else WorkNotify(count)
  {
    s' := Collected(s, t, AfterWork(count), count).(asf := Free);
    assert LeavesAsf(s, t, s');
  }

  /** One step hands over one notification at most, holds back all a worker has or none, and only with delivery off. */
  lemma StepKeepsBooks(s: State, t: Tid, s': State, u: Tid)
    requires Step(s, t, s')
    ensures BookOf(s', u) != BookOf(s, u) ==> u == t
    ensures BookOf(s', u).refused != BookOf(s, u).refused ==>
              !s.deliverOk && PcOf(s, u).WorkCheck? && BookOf(s', u).refused == BookOf(s, u).refused + PcOf(s, u).count
    ensures |s'.handed| == |s.handed| + BookOf(s', t).given - BookOf(s, t).given
    ensures BookOf(s, u).given <= BookOf(s', u).given <= BookOf(s, u).given + 1
  {
    hide Begins, TakesAsf, TakesNotify, LeavesAsf, ActsUnderNotify, FreesIrq, BookOf, InFlight, PcOf;
    if Begins(s, t, s') || FreesIrq(s, t, s') { BeginKeepsBooks(s, t, s', u); BeginKeepsBooks(s, t, s', t); }
    if TakesAsf(s, t, s') || TakesNotify(s, t, s') { TakeKeepsBooks(s, t, s', u); TakeKeepsBooks(s, t, s', t); }
    if LeavesAsf(s, t, s') { LeaveKeepsBooks(s, t, s', u); LeaveKeepsBooks(s, t, s', t); }
    if ActsUnderNotify(s, t, s') { ActKeepsBooks(s, t, s', u); }
  }

  lemma LeaveKeepsBooks(s: State, t: Tid, s': State, u: Tid)
    requires LeavesAsf(s, t, s')
    ensures s'.handed == s.handed && (u != t ==> BookOf(s', u) == BookOf(s, u))
    ensures BookOf(s', u).given == BookOf(s, u).given && BookOf(s', u).refused == BookOf(s, u).refused
  {
  }

  lemma ActKeepsBooks(s: State, t: Tid, s': State, u: Tid)
    requires ActsUnderNotify(s, t, s')
    ensures u != t ==> BookOf(s', u) == BookOf(s, u)
    ensures BookOf(s', t).refused != BookOf(s, t).refused ==>
              !s.deliverOk && PcOf(s, t).WorkCheck? && BookOf(s', t).refused == BookOf(s, t).refused + PcOf(s, t).count
    ensures |s'.handed| == |s.handed| + BookOf(s', t).given - BookOf(s, t).given
    ensures BookOf(s, t).given <= BookOf(s', t).given <= BookOf(s, t).given + 1
  {
  }

  /** As long as delivery is on nothing is held back, so a worker that has finished has handed over all it collected since. */
  lemma {:induction false} NothingIsHeldBack(run: seq<State>, i: nat, t: Tid)
    requires Run(run) && i < |run| && forall k :: i <= k < |run| ==> run[k].deliverOk
    ensures BookOf(Last(run), t).refused == BookOf(run[i], t).refused
    ensures PcOf(run[i], t) == Idle && PcOf(Last(run), t) == Idle ==>
              BookOf(Last(run), t).given - BookOf(run[i], t).given == BookOf(Last(run), t).collected - BookOf(run[i], t).collected
    decreases |run|
  {
    hide Step;
    CollectedIsAccounted(run, t);
    assert run[..i + 1][i] == run[i];
    RunPrefix(run, i);
    CollectedIsAccounted(run[..i + 1], t);
    if i + 1 < |run| {
      var init := run[..|run| - 1];
      RunPrefix(run, |run| - 2);
      NothingIsHeldBack(init, i, t);
      assert Moves(run[|run| - 1 - 1], run[|run| - 1]);
      var u: Tid :| Step(run[|run| - 2], u, run[|run| - 1]);
      StepKeepsBooks(run[|run| - 2], u, run[|run| - 1], t);
    }
  }

  lemma RunPrefix(run: seq<State>, i: nat)
    requires Run(run) && i < |run|
    ensures Run(run[..i + 1])
  {
    hide Moves;
    var part := run[..i + 1];
    forall k | 0 < k < |part|
      ensures Moves(part[k - 1], part[k])
    {
      assert Moves(run[k - 1], run[k]);
    }
  }

  /** Only the control thread turns delivery on and off, on at the start and off at the stop, each time under the mutex. */
  lemma DeliveryFollowsControl(s: State, t: Tid, s': State)
    requires Inv(s) && Step(s, t, s')
    ensures s'.deliverOk != s.deliverOk ==> t == CONTROL && PcOf(s, t) == if s'.deliverOk then StartNotifyHeld else StopNotifyHeld
    ensures PcOf(s, t).StartNotifyHeld? ==> s'.deliverOk
    ensures PcOf(s, t).StopNotifyHeld? ==> !s'.deliverOk && s'.stopped && PcOf(s', t) == Idle
  {
    assert ThreadInv(s, t);
  }

  /** Once free_irq has returned, the IRQ thread is not running and stays away until the IRQ is requested again. */
  lemma NoIrqThreadAfterFreeIrq(run: seq<State>)
    requires Run(run)
    ensures !Last(run).irqRequested ==> PcOf(Last(run), IRQ_THREAD) == Idle
  {
    RunKeepsInv(run);
    assert ThreadInv(Last(run), IRQ_THREAD);
  }

  /** Each mutex has one holder and nobody holds both. */
  lemma MutualExclusion(run: seq<State>, t: Tid, u: Tid)
    requires Run(run)
    ensures var s := Last(run);
      && !(HoldsAsf(PcOf(s, t)) && HoldsNotify(PcOf(s, t)))
      && (t != u ==> !(HoldsAsf(PcOf(s, t)) && HoldsAsf(PcOf(s, u))) && !(HoldsNotify(PcOf(s, t)) && HoldsNotify(PcOf(s, u))))
  {
    RunKeepsInv(run);
    assert ThreadInv(Last(run), t) && ThreadInv(Last(run), u);
  }

  /** Thread `t` cannot go on before thread `u` has. */
  predicate WaitsFor(s: State, t: Tid, u: Tid) {
    || (WantsAsf(PcOf(s, t)) && s.asf == Held(u))
    || (WantsNotify(PcOf(s, t)) && s.notify == Held(u))
    || (PcOf(s, t) == StopFreeIrq && s.irqRequested && u == IRQ_THREAD && PcOf(s, u) != Idle)
  }

  function Rank(p: Pc): nat {
    if p.StopFreeIrq? then 2 else if WantsAsf(p) || WantsNotify(p) then 1 else 0
  }

  ghost predicate WaitChain(s: State, chain: seq<Tid>) {
    |chain| > 0 && forall i :: 0 < i < |chain| ==> WaitsFor(s, chain[i - 1], chain[i])
  }

  lemma {:induction false} ChainDescends(s: State, chain: seq<Tid>)
    requires Inv(s) && WaitChain(s, chain)
    ensures Rank(PcOf(s, chain[0])) >= Rank(PcOf(s, chain[|chain| - 1])) + |chain| - 1
  {
    if |chain| > 1 {
      ChainDescends(s, chain[1..]);
      assert WaitsFor(s, chain[1 - 1], chain[1]) && ThreadInv(s, chain[1]) && ThreadInv(s, chain[0]);
    }
  }

  /** No wait cycle: a chain of waiting threads has at most three members, and never returns to its start. */
  lemma NoWaitCycle(run: seq<State>, chain: seq<Tid>)
    requires Run(run) && WaitChain(Last(run), chain)
    ensures |chain| <= 3 && (|chain| > 1 ==> chain[0] != chain[|chain| - 1])
  {
    RunKeepsInv(run);
    ChainDescends(Last(run), chain);
  }

  /** No deadlock: from any thread that has not finished one can follow the waits to a thread that can step. */
  lemma SomeoneCanStep(run: seq<State>, t: Tid) returns (u: Tid, s': State)
    requires Run(run) && PcOf(Last(run), t) != Idle
    ensures PcOf(Last(run), u) != Idle && Step(Last(run), u, s')
  {
    RunKeepsInv(run);
    u, s' := FollowWaits(Last(run), t);
  }

  lemma FollowWaits(s: State, t: Tid) returns (u: Tid, s': State)
    requires Inv(s) && PcOf(s, t) != Idle
    ensures PcOf(s, u) != Idle && Step(s, u, s')
    decreases Rank(PcOf(s, t))
  {
    var p := PcOf(s, t);
    assert ThreadInv(s, t);
    if next :| WaitsFor(s, t, next) {
      assert ThreadInv(s, next);
      u, s' := FollowWaits(s, next);
    } else if WantsAsf(p) {
      assert s.asf.Held? ==> WaitsFor(s, t, s.asf.holder);
      u, s' := t, At(s, t, Taken(p)).(asf := Held(t));
    } else if WantsNotify(p) {
      assert s.notify.Held? ==> WaitsFor(s, t, s.notify.holder);
      u, s' := t, At(s, t, Taken(p)).(notify := Held(t));
    } else {
      u := t;
      match p {
        case StartAsfHeld => s' := At(s, t, Idle).(asf := Free);
        case StopAsfHeld => s' := At(s, t, StopFreeIrq).(asf := Free);
        case WorkAsfHeld =>
          s' := Collected(s, t, AfterWork(0), 0).(asf := Free);
        case StartNotifyHeld => s' := At(s, t, StartAsf).(deliverOk := true, notify := Free);
        case StopNotifyHeld => s' := At(s, t, Idle).(deliverOk := false, notify := Free, stopped := true);
        case WorkCheck(count) =>
          s' := if s.deliverOk then At(s, t, WorkDeliver(count)) else Refused(s, t, WorkDeliver(0), count);
        case WorkDeliver(count) =>
          s' := if count == 0 then At(s, t, Idle).(notify := Free)
                else Given(s, t, WorkDeliver(count - 1));
        case StopFreeIrq =>
          assert s.irqRequested && PcOf(s, IRQ_THREAD) != Idle ==> WaitsFor(s, t, IRQ_THREAD);
          s' := At(s, t, StopNotify).(irqRequested := false);
      }
    }
  }
}
