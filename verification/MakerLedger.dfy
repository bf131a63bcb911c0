/**
 Two ledgers kept beside a concurrent run of the market maker: what each order was placed with and
 how much of it was reported, read off the actions alone; and what requotes and cancels set out to
 withdraw (src/market_maker/engine.rs:543-621, 795-901).
 */
module MakerLedger {
  import opened Machine
  import opened Instruments
  import opened MakerSteps
  import opened MakerIndex

  // ---------------------------------------------------------------- placed and reported

  datatype Notice = Notice(id: OrderId, quantity: nat)

  /**
   The sizes orders were placed with and the executions to be notified, each in order, and the
   quantities reported so far. Ids and fills are numbered in that order.
   */
  datatype Tally = Tally(sizes: seq<nat>, notices: seq<Notice>, reported: map<OrderId, nat>)

  function Told(n: Tally, id: OrderId): nat { if id in n.reported then n.reported[id] else 0 }

  function Note(n: Tally, a: Action): Tally
  {
    match a
    case PlaceBid(_, size, _) => n.(sizes := n.sizes + [size])
    case PlaceAsk(_, size, _) => n.(sizes := n.sizes + [size])
    case Match(id, quantity, true) => n.(notices := n.notices + [Notice(id, quantity)])
    case Report(f) =>
      if f < |n.notices| then
        var told := n.notices[f];
        n.(reported := n.reported[told.id := Told(n, told.id) + told.quantity])
      else n
    case _ => n
  }

  function TallyOf(actions: seq<Action>): Tally
  {
    if actions == [] then Tally([], [], map[]) else Note(TallyOf(actions[..|actions| - 1]), actions[|actions| - 1])
  }

  // ---------------------------------------------------------------- the invariant

  /** A requote has placed `id` and not yet tracked it. */
  predicate Placing(pc: Pc, id: OrderId) { (pc.BidPlaced? || pc.AskPlaced?) && pc.id == id }

  ghost predicate PlacingAt(s: State, t: Thread, id: OrderId) { t in s.threads && Placing(s.threads[t], id) }

  predicate Numbered(s: State, n: Tally)
  {
    && s.nextId == |n.sizes| && s.nextFill == |n.notices|
    && forall f :: f in s.fills && !s.fills[f].Clearing? ==>
         f < |n.notices| && n.notices[f] == Notice(s.fills[f].id, s.fills[f].quantity)
  }

  /** Passed the gate, so it will be reported. */
  predicate Due(fills: map<FillId, Fill>, f: FillId, id: OrderId) { f in fills && fills[f].Gated? && fills[f].id == id }

  ghost predicate Untouched(s: State, n: Tally, id: OrderId)
  {
    id !in s.active && Told(n, id) == 0 && forall f :: !Due(s.fills, f, id)
  }

  /** What is tracked of an order and what was reported of it make up what it was placed with. */
  predicate Balanced(s: State, n: Tally, id: OrderId)
    requires id in s.active
  {
    id < |n.sizes| && s.active[id].quantity + Told(n, id) == n.sizes[id] && (s.active[id].quantity == 0 ==> n.sizes[id] == 0)
  }

  ghost predicate Conserves(s: State, n: Tally)
  {
    && Numbered(s, n)
    && (forall id: OrderId :: s.nextId <= id ==> Untouched(s, n, id))
    && (forall t: Thread, id: OrderId :: PlacingAt(s, t, id) ==> id < |n.sizes| && s.threads[t].size == n.sizes[id] && Untouched(s, n, id))
    && (forall id :: id in s.active ==> Balanced(s, n, id))
  }

  // ---------------------------------------------------------------- every step keeps it

  lemma PlacingIsMine(s: State, t: Thread, id: OrderId)
    ensures PlacingAt(s, t, id) ==> MineAt(s, t, id)
  {
  }

  lemma StepConserves(s: State, n: Tally, a: Action)
    requires Inv(s) && Apart(s) && Conserves(s, n) && Enabled(s, a)
    ensures Conserves(Next(s, a), Note(n, a))
  {
    hide Inv, Apart;
    match a
    case PlaceBid(_, _, _) => PlaceConserves(s, n, a);
    case PlaceAsk(_, _, _) => PlaceConserves(s, n, a);
    case TrackBid(_) => TrackConserves(s, n, a);
    case TrackAsk(_) => TrackConserves(s, n, a);
    case Match(_, _, _) => MatchConserves(s, n, a);
    case Gate(_) => GateConserves(s, n, a.f);
    case Report(_) => ReportConserves(s, n, a.f);
    case ClearFilled(_) => FramedConserves(s, n, a);
    case _ => FramedConserves(s, n, a);
  }

  predicate Framed(a: Action)
  {
    !a.PlaceBid? && !a.PlaceAsk? && !a.TrackBid? && !a.TrackAsk? && !a.Match? && !a.Gate? && !a.Report?
  }

  /** A step that places, tracks, matches and reports nothing touches nothing that is counted. */
  ghost predicate CountsSame(s: State, s': State)
  {
    && s'.nextId == s.nextId && s'.nextFill == s.nextFill
    && (forall f :: f in s'.fills && !s'.fills[f].Clearing? ==> f in s.fills && s'.fills[f] == s.fills[f])
    && (forall id :: id in s'.active ==> id in s.active && s'.active[id] == s.active[id])
    && (forall t: Thread, id: OrderId :: PlacingAt(s', t, id) ==> PlacingAt(s, t, id) && s'.threads[t] == s.threads[t])
  }

  lemma FramedSame(s: State, a: Action)
    requires Enabled(s, a) && Framed(a)
    ensures CountsSame(s, Next(s, a))
  {
  }

  lemma FramedConserves(s: State, n: Tally, a: Action)
    requires Conserves(s, n) && Enabled(s, a) && Framed(a)
    ensures Conserves(Next(s, a), n)
  {
    FramedSame(s, a);
    SameConserves(s, Next(s, a), n);
  }

  lemma SameConserves(s: State, s': State, n: Tally)
    requires Conserves(s, n) && CountsSame(s, s')
    ensures Conserves(s', n)
  {
    assert forall f: FillId, id: OrderId :: Due(s'.fills, f, id) ==> Due(s.fills, f, id);
    forall id: OrderId | Untouched(s, n, id) ensures Untouched(s', n, id) { }
    forall id: OrderId | s.nextId <= id ensures Untouched(s', n, id) { assert Untouched(s, n, id); }
    forall id | id in s'.active ensures Balanced(s', n, id) { assert Balanced(s, n, id); }
  }

  lemma PlaceConserves(s: State, n: Tally, a: Action)
    requires Conserves(s, n) && Enabled(s, a) && (a.PlaceBid? || a.PlaceAsk?)
    ensures Conserves(Next(s, a), Note(n, a))
  {
    var s', n' := Next(s, a), Note(n, a);
    assert Untouched(s, n, s.nextId);
    assert forall t: Thread, id: OrderId :: PlacingAt(s', t, id) ==> (t == a.t && id == s.nextId) || (PlacingAt(s, t, id) && s'.threads[t] == s.threads[t]);
    assert forall id: OrderId :: Untouched(s, n, id) ==> Untouched(s', n', id);
  }

  lemma TrackConserves(s: State, n: Tally, a: Action)
    requires Apart(s) && Conserves(s, n) && Enabled(s, a) && (a.TrackBid? || a.TrackAsk?)
    ensures Conserves(Next(s, a), n)
  {
    var s', placed := Next(s, a), s.threads[a.t].id;
    assert PlacingAt(s, a.t, placed) && placed < s.nextId;
    forall t: Thread, id: OrderId | PlacingAt(s', t, id) ensures PlacingAt(s, t, id) && s'.threads[t] == s.threads[t] && id != placed {
      PlacingIsMine(s, t, id);
      PlacingIsMine(s, a.t, placed);
    }
    hide Apart;
    assert forall f: FillId, id: OrderId :: Due(s'.fills, f, id) ==> Due(s.fills, f, id);
    forall id: OrderId | id != placed && Untouched(s, n, id) ensures Untouched(s', n, id) { }
    forall id: OrderId | s.nextId <= id ensures Untouched(s', n, id) { assert Untouched(s, n, id); }
  }

  lemma MatchConserves(s: State, n: Tally, a: Action)
    requires Conserves(s, n) && Enabled(s, a) && a.Match?
    ensures Conserves(Next(s, a), Note(n, a))
  {
    var s', n' := Next(s, a), Note(n, a);
    assert forall f: FillId, id: OrderId :: Due(s'.fills, f, id) ==> Due(s.fills, f, id);
    assert forall id: OrderId :: Untouched(s, n, id) ==> Untouched(s', n', id);
    assert forall t: Thread, id: OrderId :: PlacingAt(s', t, id) ==> PlacingAt(s, t, id);
  }

  lemma GateConserves(s: State, n: Tally, f: FillId)
    requires Conserves(s, n) && Enabled(s, Gate(f))
    ensures Conserves(Next(s, Gate(f)), n)
  {
    var s', gated := Next(s, Gate(f)), s.fills[f].id;
    assert forall g: FillId, id: OrderId :: Due(s'.fills, g, id) ==> Due(s.fills, g, id) || (id == gated && id in s.active);
    assert forall id: OrderId :: Untouched(s, n, id) ==> Untouched(s', n, id);
    assert forall t: Thread, id: OrderId :: PlacingAt(s', t, id) ==> PlacingAt(s, t, id);
  }

  lemma ReportBalanced(s: State, n: Tally, f: FillId, id: OrderId)
    requires Numbered(s, n) && Enabled(s, Report(f)) && id in Next(s, Report(f)).active
    requires id in s.active && Balanced(s, n, id)
    ensures Balanced(Next(s, Report(f)), Note(n, Report(f)), id)
  {
  }

  lemma ReportUntouched(s: State, n: Tally, f: FillId, id: OrderId)
    requires Numbered(s, n) && Enabled(s, Report(f)) && Untouched(s, n, id)
    ensures Untouched(Next(s, Report(f)), Note(n, Report(f)), id)
  {
    assert Due(s.fills, f, s.fills[f].id);
    assert forall g: FillId :: Due(Next(s, Report(f)).fills, g, id) ==> Due(s.fills, g, id);
  }

  lemma ReportNumbered(s: State, n: Tally, f: FillId)
    requires Numbered(s, n) && Enabled(s, Report(f))
    ensures var s', n' := Next(s, Report(f)), Note(n, Report(f));
            && Numbered(s', n') && s'.threads == s.threads && s'.nextId == s.nextId && n'.sizes == n.sizes
            && (forall id :: id in s'.active ==> id in s.active)
  {
  }

  lemma ReportConserves(s: State, n: Tally, f: FillId)
    requires Conserves(s, n) && Enabled(s, Report(f))
    ensures Conserves(Next(s, Report(f)), Note(n, Report(f)))
  {
    var s', n' := Next(s, Report(f)), Note(n, Report(f));
    ReportNumbered(s, n, f);
    forall id: OrderId | Untouched(s, n, id) ensures Untouched(s', n', id) { ReportUntouched(s, n, f, id); }
    forall id | id in s'.active ensures Balanced(s', n', id) { ReportBalanced(s, n, f, id); }
    hide Next, Note, Untouched, Balanced, Numbered;
    assert forall t: Thread, id: OrderId :: PlacingAt(s', t, id) ==> PlacingAt(s, t, id);
  }

  lemma {:induction false} RunConserves(actions: seq<Action>)
    requires Runs(actions)
    ensures Conserves(After(actions), TallyOf(actions))
    decreases |actions|
  {
    if actions != [] {
      var before := actions[..|actions| - 1];
      RunConserves(before);
      RunKeeps(before);
      RunApart(before);
      StepConserves(After(before), TallyOf(before), actions[|actions| - 1]);
    }
  }

  // ---------------------------------------------------------------- what it means

  /**
   Conservation: after every run the tracked quantity of an order and the quantities its reports
   carried add up to the size it was placed with, and an order reported in full is not tracked.
   */
  lemma TrackedPlusReported(actions: seq<Action>, id: OrderId)
    requires Runs(actions) && id in After(actions).active
    ensures var s, n := After(actions), TallyOf(actions);
            && id < |n.sizes| && s.active[id].quantity + Told(n, id) == n.sizes[id]
            && (n.sizes[id] > 0 ==> Told(n, id) < n.sizes[id])
  {
    RunConserves(actions);
    assert Balanced(After(actions), TallyOf(actions), id);
  }

  /** A report takes its order out of tracking if and only if it brings what was reported to what was placed. */
  lemma ReportRemovesIff(actions: seq<Action>, f: FillId)
    requires Runs(actions + [Report(f)]) && Runs(actions)
    ensures f < |TallyOf(actions).notices|
    ensures var id, n := TallyOf(actions).notices[f].id, TallyOf(actions + [Report(f)]);
            id in After(actions).active ==>
              id < |n.sizes| && (id !in After(actions + [Report(f)]).active <==> Told(n, id) == n.sizes[id])
  {
    var s, n := After(actions), TallyOf(actions);
    assert (actions + [Report(f)])[..|actions|] == actions;
    RunConserves(actions);
    RunKeeps(actions);
    var id, q := s.fills[f].id, s.fills[f].quantity;
    FillExposure(s, Report(f), id);
    hide Exposure;
    if id in s.active { assert Balanced(s, n, id) && Exposure(s, id) <= s.active[id].quantity; }
  }

  /** An order leaves tracking only by such a report, by a requote that found it recorded, or by being canceled. */
  lemma LeavesTracking(s: State, a: Action, id: OrderId)
    requires Enabled(s, a) && id in s.active && id !in Next(s, a).active
    ensures (a.Report? && s.fills[a.f].id == id) || (a.Untrack? && a.id == id) ||
            (a.Prune? && id in Ids(s.threads[a.t].slots.bid) + Ids(s.threads[a.t].slots.ask))
  {
  }

  // ---------------------------------------------------------------- what is withdrawn stays withdrawn

  /** What each thread at work set out to withdraw, and what finished threads withdrew. */
  datatype Marks = Marks(due: map<Thread, set<OrderId>>, gone: set<OrderId>)

  function Listed(index: Index, key: InstrumentKey): set<OrderId>
  {
    Ids(SlotsOf(index, key).bid) + Ids(SlotsOf(index, key).ask)
  }

  /** A requote sets out to withdraw what the index lists when it reads it, a cancel its one order. */
  function Mark(k: Marks, s: State, a: Action): Marks
  {
    match a
    case ReadStale(t, key) => k.(due := k.due[t := Listed(s.index, key)])
    case Untrack(t, id) => k.(due := k.due[t := {id}])
    case RecordIndex(t) => if t in k.due then Marks(k.due - {t}, k.gone + k.due[t]) else k
    case CancelRemoved(t) => if t in k.due then Marks(k.due - {t}, k.gone + k.due[t]) else k
    case _ => k
  }

  function MarksOf(actions: seq<Action>): Marks
    requires Runs(actions)
  {
    if actions == [] then Marks(map[], {})
    else Mark(MarksOf(actions[..|actions| - 1]), After(actions[..|actions| - 1]), actions[|actions| - 1])
  }

  /** Placed earlier and past the point where it could still be tracked: it never comes back. */
  ghost predicate Past(s: State, id: OrderId) { id < s.nextId && forall t :: !PlacingAt(s, t, id) }

  ghost predicate Absent(s: State, id: OrderId) { Past(s, id) && id !in s.active && id !in s.book }

  predicate Underway(s: State, pc: Pc, due: set<OrderId>)
  {
    match pc
    case Stale(_, slots) => due == Ids(slots.bid) + Ids(slots.ask)
    case BidCancelled(_, slots) => due == Ids(slots.bid) + Ids(slots.ask) && Ids(slots.bid) !! s.book.Keys
    case BothCancelled(_, slots) => due == Ids(slots.bid) + Ids(slots.ask) && due !! s.book.Keys
    case Removed(id, _, _) => due == {id} && due !! s.active.Keys
    case SlotCleared(id) => due == {id} && due !! s.active.Keys
    case _ => due !! s.active.Keys && due !! s.book.Keys
  }

  ghost predicate DueAt(s: State, k: Marks, t: Thread)
    requires t in s.threads
  {
    t in k.due && Underway(s, s.threads[t], k.due[t]) && forall id :: id in k.due[t] ==> Past(s, id)
  }

  ghost predicate Withdraws(s: State, k: Marks)
  {
    (forall t :: t in s.threads ==> DueAt(s, k, t)) && forall id :: id in k.gone ==> Absent(s, id)
  }

  /** A step puts nothing past back into tracking or onto a book. */
  ghost predicate BringsNothingBack(s: State, s': State)
  {
    forall id :: Past(s, id) ==> Past(s', id) && (id in s'.active ==> id in s.active) && (id in s'.book ==> id in s.book)
  }

  lemma NothingComesBack(s: State, a: Action)
    requires Enabled(s, a)
    ensures BringsNothingBack(s, Next(s, a))
  {
    var s' := Next(s, a);
    forall id | Past(s, id) ensures Past(s', id) && (id in s'.active ==> id in s.active) && (id in s'.book ==> id in s.book) {
      if a.TrackBid? || a.TrackAsk? { assert PlacingAt(s, a.t, s.threads[a.t].id); }
      assert forall t :: PlacingAt(s', t, id) ==> PlacingAt(s, t, id);
    }
  }

  lemma ElsewhereDue(s: State, s': State, k: Marks, k': Marks, t: Thread)
    requires BringsNothingBack(s, s') && t in s.threads && DueAt(s, k, t) && t in s'.threads && s'.threads[t] == s.threads[t]
    requires t in k'.due && k'.due[t] == k.due[t]
    ensures DueAt(s', k', t)
  {
  }

  lemma ListedPast(s: State, key: InstrumentKey)
    requires Apart(s)
    ensures forall id :: id in Listed(s.index, key) ==> Past(s, id)
  {
    forall id | id in Listed(s.index, key) ensures Past(s, id) {
      assert Slot(s, key, true) == Some(id) || Slot(s, key, false) == Some(id);
      forall t: Thread ensures !PlacingAt(s, t, id) { PlacingIsMine(s, t, id); }
    }
  }

  lemma TrackedPast(s: State, n: Tally, id: OrderId)
    requires Conserves(s, n) && id in s.active
    ensures Past(s, id)
  {
    assert Balanced(s, n, id);
    forall t: Thread ensures !PlacingAt(s, t, id) {
      assert PlacingAt(s, t, id) ==> Untouched(s, n, id);
    }
  }

  predicate ByThread(a: Action) { !a.WipeIndex? && !a.Match? && !a.Gate? && !a.Report? && !a.ClearFilled? }

  /** What the acting thread is about to withdraw, after its step. */
  lemma OwnDue(s: State, n: Tally, k: Marks, a: Action)
    requires Apart(s) && Conserves(s, n) && Withdraws(s, k) && Enabled(s, a) && ByThread(a)
    requires BringsNothingBack(s, Next(s, a))
    ensures a.t in Next(s, a).threads ==> DueAt(Next(s, a), Mark(k, s, a), a.t)
  {
    hide Apart, Conserves;
    match a
    case ReadStale(t, key) => ListedPast(s, key);
    case Untrack(t, id) => TrackedPast(s, n, id);
    case _ => OwnStep(s, k, a);
  }

  lemma OwnStep(s: State, k: Marks, a: Action)
    requires Enabled(s, a) && ByThread(a) && !a.ReadStale? && !a.Untrack? && DueAt(s, k, a.t)
    requires BringsNothingBack(s, Next(s, a))
    ensures a.t in Next(s, a).threads ==> DueAt(Next(s, a), Mark(k, s, a), a.t)
  {
    hide PlacingAt;
    var due, s' := k.due[a.t], Next(s, a);
    forall id | id in due
      ensures Past(s', id) && (id in s'.active ==> id in s.active) && (id in s'.book ==> id in s.book)
    {
      assert Past(s, id);
    }
    hide BringsNothingBack, Past;
    UnderwayNext(s, a, due);
  }

  lemma UnderwayNext(s: State, a: Action, due: set<OrderId>)
    requires Enabled(s, a) && ByThread(a) && !a.ReadStale? && !a.Untrack? && Underway(s, s.threads[a.t], due)
    requires forall id :: id in due ==> (id in Next(s, a).active ==> id in s.active) && (id in Next(s, a).book ==> id in s.book)
    ensures a.t in Next(s, a).threads ==> Underway(Next(s, a), Next(s, a).threads[a.t], due)
  {
  }

  lemma Finished(s: State, k: Marks, a: Action, id: OrderId)
    requires Withdraws(s, k) && Enabled(s, a) && BringsNothingBack(s, Next(s, a)) && id in Mark(k, s, a).gone
    ensures Absent(Next(s, a), id)
  {
    if id in k.gone {
      assert Absent(s, id);
    } else {
      assert DueAt(s, k, a.t) && id in k.due[a.t];
    }
  }

  lemma Others(s: State, a: Action, t: Thread)
    requires Enabled(s, a) && t in Next(s, a).threads && !(ByThread(a) && t == a.t)
    ensures t in s.threads && Next(s, a).threads[t] == s.threads[t]
  {
  }

  lemma OtherMarks(s: State, k: Marks, a: Action, t: Thread)
    requires !(ByThread(a) && t == a.t) && t in k.due
    ensures t in Mark(k, s, a).due && Mark(k, s, a).due[t] == k.due[t]
  {
  }

  lemma StepWithdraws(s: State, n: Tally, k: Marks, a: Action)
    requires Apart(s) && Conserves(s, n) && Withdraws(s, k) && Enabled(s, a)
    ensures Withdraws(Next(s, a), Mark(k, s, a))
  {
    hide Next, Mark, Conserves, Apart, Absent, Past, Underway, BringsNothingBack;
    var s', k' := Next(s, a), Mark(k, s, a);
    NothingComesBack(s, a);
    forall t | t in s'.threads ensures DueAt(s', k', t) {
      if ByThread(a) && t == a.t {
        OwnDue(s, n, k, a);
      } else {
        Others(s, a, t);
        OtherMarks(s, k, a, t);
        ElsewhereDue(s, s', k, k', t);
      }
    }
    forall id | id in k'.gone ensures Absent(s', id) { Finished(s, k, a, id); }
  }

  lemma {:induction false} RunWithdraws(actions: seq<Action>)
    requires Runs(actions)
    ensures Withdraws(After(actions), MarksOf(actions))
    decreases |actions|
  {
    if actions != [] {
      var before := actions[..|actions| - 1];
      RunWithdraws(before);
      RunApart(before);
      RunConserves(before);
      StepWithdraws(After(before), TallyOf(before), MarksOf(before), actions[|actions| - 1]);
    }
  }

  /**
   In every interleaving, what the index listed when a requote read it, and what a cancel untracked,
   is neither tracked nor resting once that requote or cancel is done, and never again.
   */
  lemma WithdrawnForGood(actions: seq<Action>, id: OrderId)
    requires Runs(actions) && id in MarksOf(actions).gone
    ensures id !in After(actions).active && id !in After(actions).book
  {
    RunWithdraws(actions);
    assert Absent(After(actions), id);
  }

  ghost function TrackedFor(s: State, key: InstrumentKey, leg: bool): set<OrderId>
  {
    set id | id in s.active && s.active[id].key == key && s.active[id].isBuy == leg
  }

  /** While no step takes away the record of a live quote, an instrument at rest has at most one tracked order a leg. */
  lemma AtMostOneALeg(actions: seq<Action>, key: InstrumentKey, leg: bool)
    requires Runs(actions) && NeverDrops(actions) && Quiet(After(actions))
    ensures |TrackedFor(After(actions), key, leg)| <= 1
  {
    ClaimHoldsIff(actions);
    var s := After(actions);
    var tracked := TrackedFor(s, key, leg);
    forall id | id in tracked ensures Slot(s, key, leg) == Some(id) { assert InPlace(s, key, leg, id); }
    if tracked != {} {
      var id :| id in tracked;
      assert tracked == {id};
    }
  }

  // ---------------------------------------------------------------- every requote ends

  /** At most how many steps a requote or a cancel still has to take. */
  function StepsLeft(pc: Pc): nat
  {
    match pc
    case Stale(_, _) => 9
    case BidCancelled(_, _) => 8
    case BothCancelled(_, _) => 7
    case Pruned(_) => 6
    case Cleared(_) => 5
    case BidPlaced(_, _, _) => 4
    case BidDone(_, _) => 3
    case AskPlaced(_, _, _, _) => 2
    case AskDone(_, _, _) => 1
    case Removed(_, _, _) => 2
    case SlotCleared(_) => 1
  }

  /** Whatever other threads do, a requote ends after at most nine further steps of its own, a cancel after two. */
  lemma OwnStepsRunOut(s: State, a: Action)
    requires Enabled(s, a) && ByThread(a)
    ensures var s' := Next(s, a);
            a.t in s'.threads ==>
              && (if a.t in s.threads then StepsLeft(s'.threads[a.t]) < StepsLeft(s.threads[a.t])
                  else StepsLeft(s'.threads[a.t]) <= if a.ReadStale? then 9 else 2)
    ensures forall t: Thread :: t != a.t ==>
              (t in s.threads <==> t in Next(s, a).threads) && (t in s.threads ==> Next(s, a).threads[t] == s.threads[t])
  {
  }
}
