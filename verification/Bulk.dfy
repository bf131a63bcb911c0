/** Atomic bulk submission and its best-effort rollback, on values (src/api/handlers.rs). */
module Bulk {
  import opened Machine
  import opened TopK
  import opened Instruments
  import opened Books
  import opened Exchange
  import opened Deltas
  import opened Tracking

  /** A bulk item has no time in force of its own: it is always good till cancelled. */
  type BulkItem = item: Item | item.timeInForce.Gtc? witness Item(Level(InstrumentKey("", Days(0.0), 0, Call), Buy, 0), 0, Gtc)

  /** An order of the batch the book accepted, with what filled on submit. */
  datatype AcceptedOrder = AcceptedOrder(index: nat, id: OrderId, filled: u64)

  datatype ItemStatus = ItemAccepted | ItemRejected

  /** Which message the item carries. */
  datatype Note = NoNote | SubmitFailed | NotAttempted | RolledBack | AlreadyFilled | NotResting | CancelFailed

  datatype ResultItem = ResultItem(index: nat, orderId: Option<OrderId>, status: ItemStatus, note: Note)

  datatype BulkResponse = BulkResponse(successCount: nat, failureCount: nat, results: seq<ResultItem>, rolledBack: bool, warnings: nat)

  datatype RollbackOutcome = Clean | Unrollbackable(id: OrderId, note: Note) | Phantom

  function OutcomeOf(a: AcceptedOrder, answered: bool, cancelled: bool): RollbackOutcome
  {
    if a.filled > 0 then Unrollbackable(a.id, AlreadyFilled)
    else if !answered then Unrollbackable(a.id, CancelFailed)
    else if cancelled then Clean
    else Phantom
  }

  function ResultOf(i: nat, outcomes: map<nat, RollbackOutcome>, failedIndex: nat): ResultItem
  {
    if i !in outcomes then ResultItem(i, None, ItemRejected, if i == failedIndex then SubmitFailed else NotAttempted)
    else match outcomes[i]
      case Unrollbackable(id, note) => ResultItem(i, Some(id), ItemAccepted, note)
      case Phantom => ResultItem(i, None, ItemRejected, NotResting)
      case Clean => ResultItem(i, None, ItemRejected, RolledBack)
  }

  function CountAccepted(results: seq<ResultItem>): nat
  {
    if results == [] then 0
    else CountAccepted(results[..|results| - 1]) + if results[|results| - 1].status.ItemAccepted? then 1 else 0
  }

  lemma {:induction false} CountIsSize(results: seq<ResultItem>, s: set<nat>)
    requires forall i: nat :: i in s <==> i < |results| && results[i].status.ItemAccepted?
    ensures CountAccepted(results) == |s|
    decreases |results|
  {
    if results == [] {
      assert s == {};
    } else {
      var last := |results| - 1;
      CountIsSize(results[..last], s - {last});
    }
  }

  // ---------------------------------------------------------------- the batch so far

  function Ids(accepted: seq<AcceptedOrder>): set<OrderId> { set a | a in accepted :: a.id }

  predicate NoFills(accepted: seq<AcceptedOrder>) { forall a :: a in accepted ==> a.filled == 0 }

  predicate DistinctIds(accepted: seq<AcceptedOrder>)
  {
    forall i, j :: 0 <= i < j < |accepted| ==> accepted[i].id != accepted[j].id
  }

  /** An accepted order as submitting left it, but for later fills against its resting part. */
  predicate Placed(x: Exchange, item: Item, a: AcceptedOrder)
  {
    && a.id in x.users && a.filled <= item.quantity
    && a.id in x.orders && x.orders[a.id].level == item.level
    && x.orders[a.id].originalQuantity == item.quantity && x.orders[a.id].filledQuantity == a.filled
    && !x.orders[a.id].status.Canceled?
    && (a.id in x.books ==> x.books[a.id].level == item.level && x.books[a.id].quantity <= item.quantity - a.filled)
  }

  /** Away from the batch's own ids, books and tracking are as before it. */
  predicate OnlyBatch(before: Exchange, x: Exchange, accepted: seq<AcceptedOrder>)
  {
    x.books - Ids(accepted) == before.books && x.orders - Ids(accepted) == before.orders
  }

  predicate Ordered(before: Exchange, items: seq<BulkItem>, accepted: seq<AcceptedOrder>)
  {
    && |accepted| <= |items| && DistinctIds(accepted)
    && forall k :: 0 <= k < |accepted| ==> accepted[k].index == k && Fresh(before, accepted[k].id)
  }

  /** All of `items[..|accepted|]` were accepted, in order. */
  predicate Batch(before: Exchange, x: Exchange, items: seq<BulkItem>, accepted: seq<AcceptedOrder>)
  {
    && Ordered(before, items, accepted)
    && (forall k :: 0 <= k < |accepted| ==> Placed(x, items[k], accepted[k]))
    && (NoFills(accepted) ==> OnlyBatch(before, x, accepted))
  }

  /**
   The first |answers| accepted orders have been rolled back, `answers` saying whose cancel was
   answered: those no longer rest, and are no longer tracked unless they filled on submit.
   */
  predicate Undone(before: Exchange, x: Exchange, items: seq<BulkItem>, accepted: seq<AcceptedOrder>, answers: seq<bool>)
  {
    && Ordered(before, items, accepted) && |answers| <= |accepted|
    && (forall k :: |answers| <= k < |accepted| ==> Placed(x, items[k], accepted[k]))
    && (NoFills(accepted) ==> OnlyBatch(before, x, accepted))
    && forall k :: 0 <= k < |answers| ==>
         && (answers[k] ==> accepted[k].id !in x.books)
         && (accepted[k].id in x.orders <==> accepted[k].filled > 0 || !answers[k])
  }

  predicate AllAnswered(answers: seq<bool>) { forall k :: 0 <= k < |answers| ==> answers[k] }

  lemma SubmitExtends(before: Exchange, x: Exchange, items: seq<BulkItem>, accepted: seq<AcceptedOrder>,
                                         id: OrderId, r: AddReply, now: u64)
    requires Batch(before, x, items, accepted) && |accepted| < |items| && r.Accepted?
    requires Legal(x, Add(id, items[|accepted|], r, now)) && Fresh(before, id)
    ensures Batch(before, Place(x, id, items[|accepted|], r, now), items,
                  accepted + [AcceptedOrder(|accepted|, id, Executed(r.trades))])
  {
    hide Place, AfterAdd;
    var item := items[|accepted|];
    var y, a := Place(x, id, item, r, now), AcceptedOrder(|accepted|, id, Executed(r.trades));
    var more := accepted + [a];
    PlaceShape(x, id, item, r, now);
    forall k | 0 <= k < |accepted| ensures accepted[k].id != id && Placed(y, items[k], more[k]) {
      assert Placed(x, items[k], accepted[k]);
      PlacedKept(x, y, id, item, r, now, items[k], accepted[k]);
    }
    AddShape(x.books, id, item.level, item.quantity, true, r, id);
    assert Placed(y, items[|accepted|], a);
    if NoFills(more) {
      UnfilledAdd(x, id, item, r, a, accepted);
      BatchOnly(before, x, y, item, accepted, a, r, now);
    }
  }

  /** Submitting another order leaves an accepted one as placed, but for fills against its resting part. */
  lemma PlacedKept(x: Exchange, y: Exchange, id: OrderId, item: Item, r: AddReply, now: u64, other: Item, a: AcceptedOrder)
    requires AddOk(x.books, id, item.level.book, item.level.side, item.quantity, r) && r.Accepted? && Fresh(x, id)
    requires y.books == AfterAdd(x.books, id, item.level, Rests(item.timeInForce), r)
    requires y.orders == x.orders[id := Track(item, r, now)] && y.users == x.users + {id}
    requires Placed(x, other, a)
    ensures a.id != id && Placed(y, other, a)
  {
    AddShape(x.books, id, item.level, item.quantity, Rests(item.timeInForce), r, a.id);
  }

  lemma BatchOnly(before: Exchange, x: Exchange, y: Exchange, item: Item, accepted: seq<AcceptedOrder>, a: AcceptedOrder,
                                     r: AddReply, now: u64)
    requires r.Accepted? && r.trades == [] && r.remaining == item.quantity && Fresh(x, a.id)
    requires y.books == AfterAdd(x.books, a.id, item.level, true, r) && y.orders == x.orders[a.id := Track(item, r, now)]
    requires OnlyBatch(before, x, accepted)
    ensures OnlyBatch(before, y, accepted + [a])
  {
  }

  lemma UnfilledAdd(x: Exchange, id: OrderId, item: Item, r: AddReply, a: AcceptedOrder, accepted: seq<AcceptedOrder>)
    requires AddOk(x.books, id, item.level.book, item.level.side, item.quantity, r) && r.Accepted?
    requires a.filled == Executed(r.trades) && NoFills(accepted + [a])
    ensures r.trades == [] && NoFills(accepted)
  {
  }

  /** A rollback step is a legal event of the run. */
  lemma RollbackLegal(before: Exchange, x: Exchange, items: seq<BulkItem>, accepted: seq<AcceptedOrder>, answers: seq<bool>,
                                         found: bool, cancel: CancelReply, now: u64)
    requires Undone(before, x, items, accepted, answers) && |answers| < |accepted|
    ensures var a, item := accepted[|answers|], items[|answers|];
            var e := Rollback(item, a.id, a.filled, found, cancel, now);
            Legal(x, e) && Apply(x, e) == RollbackOne(x, item, a.id, a.filled, found, cancel, now)
  {
  }

  lemma RollbackAdvances(before: Exchange, x: Exchange, items: seq<BulkItem>, accepted: seq<AcceptedOrder>, answers: seq<bool>,
                                            found: bool, cancel: CancelReply, now: u64)
    requires Undone(before, x, items, accepted, answers) && |answers| < |accepted|
    ensures var a, item := accepted[|answers|], items[|answers|];
            Undone(before, RollbackOne(x, item, a.id, a.filled, found, cancel, now), items, accepted, answers + [found && cancel.Answered?])
  {
  }

  lemma BatchIsUndone(before: Exchange, x: Exchange, items: seq<BulkItem>, accepted: seq<AcceptedOrder>)
    requires Batch(before, x, items, accepted)
    ensures Undone(before, x, items, accepted, [])
  {
  }

  /**
   If every cancel was answered no order of the batch is left resting; if moreover nothing
   filled on submit, books and tracking are exactly what they were before the batch.
   */
  lemma CleanRollback(before: Exchange, x: Exchange, items: seq<BulkItem>, accepted: seq<AcceptedOrder>, answers: seq<bool>)
    requires Undone(before, x, items, accepted, answers) && |answers| == |accepted| && AllAnswered(answers)
    ensures forall a :: a in accepted ==> a.id !in x.books
    ensures NoFills(accepted) ==> x.books == before.books && x.orders == before.orders
  {
  }

  // ---------------------------------------------------------------- what is reported

  /** What a rollback reports of one accepted order, given whether its cancel was answered. */
  predicate OutcomeFits(a: AcceptedOrder, outcome: RollbackOutcome, answered: bool)
  {
    if a.filled > 0 then outcome == Unrollbackable(a.id, AlreadyFilled)
    else if !answered then outcome == Unrollbackable(a.id, CancelFailed)
    else !outcome.Unrollbackable?
  }

  /** One result per item in order and counts that add up; exactly the orders that could not be undone are reported accepted. */
  predicate Reported(items: seq<BulkItem>, accepted: seq<AcceptedOrder>, resp: BulkResponse, answers: seq<bool>)
  {
    && resp.rolledBack && |resp.results| == |items| && |answers| == |accepted| < |items|
    && (forall i :: 0 <= i < |items| ==> resp.results[i].index == i)
    && resp.successCount == CountAccepted(resp.results) && resp.successCount + resp.failureCount == |items|
    && (forall k :: 0 <= k < |accepted| ==>
          if accepted[k].filled > 0 then resp.results[k] == ResultItem(k, Some(accepted[k].id), ItemAccepted, AlreadyFilled)
          else if !answers[k] then resp.results[k] == ResultItem(k, Some(accepted[k].id), ItemAccepted, CancelFailed)
          else resp.results[k].orderId == None && resp.results[k].status.ItemRejected?)
    && resp.results[|accepted|] == ResultItem(|accepted|, None, ItemRejected, SubmitFailed)
    && (forall i :: |accepted| < i < |items| ==> resp.results[i] == ResultItem(i, None, ItemRejected, NotAttempted))
  }

  /**
   Of the orders undone, those that still rested on `books` when the rollback began are reported rolled
   back and the others as not resting; each order not cleanly rolled back is warned of.
   */
  ghost predicate NotesTell(accepted: seq<AcceptedOrder>, resp: BulkResponse, answers: seq<bool>, books: Books)
  {
    && |answers| == |accepted| <= |resp.results|
    && (forall k :: 0 <= k < |accepted| && accepted[k].filled == 0 && answers[k] ==>
          resp.results[k].note == if accepted[k].id in books then RolledBack else NotResting)
    && resp.warnings == |set k: nat | k < |accepted| && resp.results[k].note != RolledBack|
  }

  /** Each order undone so far has the outcome its resting on `books` calls for. */
  ghost predicate UndoneAs(accepted: seq<AcceptedOrder>, outcomes: map<nat, RollbackOutcome>, answers: seq<bool>, books: Books)
  {
    && |answers| <= |accepted|
    && forall k: nat :: k < |answers| && accepted[k].filled == 0 && answers[k] && k in outcomes ==>
         outcomes[k] == if accepted[k].id in books then Clean else Phantom
  }

  /** Rollbacks so far left what is still to be rolled back resting as it did. */
  predicate RestAsBefore(x: Exchange, accepted: seq<AcceptedOrder>, done: nat, books: Books)
  {
    forall k :: done <= k < |accepted| ==> (accepted[k].id in x.books <==> accepted[k].id in books)
  }

  lemma NothingUndone(items: seq<BulkItem>, accepted: seq<AcceptedOrder>, x: Exchange)
    requires |accepted| <= |items|
    ensures OutcomesFit(accepted, map[], []) && UndoneAs(accepted, map[], [], x.books) && RestAsBefore(x, accepted, 0, x.books)
    ensures RollsBack([], items, accepted, 0) && AnswersOf([], [])
  {
  }

  /** The next order to be rolled back rests on its item's book or nowhere. */
  lemma RestsWherePlaced(before: Exchange, x: Exchange, items: seq<BulkItem>, accepted: seq<AcceptedOrder>, answers: seq<bool>, books: Books)
    requires Undone(before, x, items, accepted, answers) && |answers| < |accepted| && RestAsBefore(x, accepted, |answers|, books)
    ensures RestsIn(x.books, items[|answers|].level.book, accepted[|answers|].id) <==> accepted[|answers|].id in books
  {
    assert Placed(x, items[|answers|], accepted[|answers|]);
  }

  lemma RestStays(before: Exchange, x: Exchange, y: Exchange, items: seq<BulkItem>, accepted: seq<AcceptedOrder>, answers: seq<bool>, books: Books)
    requires Undone(before, x, items, accepted, answers) && |answers| < |accepted| && RestAsBefore(x, accepted, |answers|, books)
    requires y.books == x.books || y.books == x.books - {accepted[|answers|].id}
    ensures RestAsBefore(y, accepted, |answers| + 1, books)
  {
  }

  /** The accepted orders rolled back so far have an outcome each. */
  ghost predicate OutcomesFit(accepted: seq<AcceptedOrder>, outcomes: map<nat, RollbackOutcome>, answers: seq<bool>)
  {
    && |answers| <= |accepted| && (forall i: nat :: i in outcomes <==> i < |answers|)
    && forall i: nat :: i < |answers| ==> OutcomeFits(accepted[i], outcomes[i], answers[i])
  }

  lemma OutcomesStep(accepted: seq<AcceptedOrder>, outcomes: map<nat, RollbackOutcome>, answers: seq<bool>,
                                        answered: bool, cancelled: bool)
    requires OutcomesFit(accepted, outcomes, answers) && |answers| < |accepted|
    ensures OutcomesFit(accepted, outcomes[|answers| := OutcomeOf(accepted[|answers|], answered, cancelled)], answers + [answered])
  {
  }

  lemma UndoneAsStep(accepted: seq<AcceptedOrder>, outcomes: map<nat, RollbackOutcome>, answers: seq<bool>, books: Books,
                     answered: bool, cancelled: bool)
    requires UndoneAs(accepted, outcomes, answers, books) && |answers| < |accepted|
    requires cancelled <==> answered && accepted[|answers|].id in books
    ensures UndoneAs(accepted, outcomes[|answers| := OutcomeOf(accepted[|answers|], answered, cancelled)], answers + [answered], books)
  {
  }

  /** The results of a rolled-back batch, from the outcomes of its rollbacks. */
  function ResultsOf(n: nat, outcomes: map<nat, RollbackOutcome>, failedIndex: nat): seq<ResultItem>
  {
    seq(n, i requires 0 <= i < n => ResultOf(i, outcomes, failedIndex))
  }

  lemma ResultsTell(n: nat, accepted: seq<AcceptedOrder>, outcomes: map<nat, RollbackOutcome>, answers: seq<bool>, books: Books)
    requires OutcomesFit(accepted, outcomes, answers) && UndoneAs(accepted, outcomes, answers, books) && |answers| == |accepted| < n
    ensures var results := ResultsOf(n, outcomes, |accepted|);
            && (forall k :: 0 <= k < |accepted| && accepted[k].filled == 0 && answers[k] ==>
                  results[k].note == if accepted[k].id in books then RolledBack else NotResting)
            && (set i | i in outcomes && !outcomes[i].Clean?) == set k: nat | k < |accepted| && results[k].note != RolledBack
  {
    forall k: nat | k < |accepted| ensures outcomes[k].Clean? <==> ResultOf(k, outcomes, |accepted|).note == RolledBack {
      assert OutcomeFits(accepted[k], outcomes[k], answers[k]);
    }
  }

  /** The first `n` events submit the first `n` items under their ids, in order. */
  predicate Submits(events: seq<Event>, items: seq<BulkItem>, ids: seq<OrderId>, n: nat, now: u64)
  {
    && n <= |events| && n <= |items| && n <= |ids|
    && forall k :: 0 <= k < n ==>
         events[k].Add? && events[k].id == ids[k] && events[k].item == items[k] && events[k].now == now
  }

  /** The events are submissions the engine accepted, and `accepted` is what they gave. */
  predicate Accepts(events: seq<Event>, ids: seq<OrderId>, accepted: seq<AcceptedOrder>)
  {
    && |accepted| == |events| <= |ids|
    && forall k :: 0 <= k < |accepted| ==>
         && events[k].Add? && events[k].reply.Accepted?
         && accepted[k].id == ids[k] && accepted[k].filled == Executed(events[k].reply.trades)
  }

  /** Each result says what the engine answered to its submission. */
  predicate Answers(events: seq<Event>, results: seq<ResultItem>)
  {
    && |results| == |events|
    && forall k :: 0 <= k < |results| ==>
         results[k].index == k && events[k].Add? && (results[k].status.ItemAccepted? <==> events[k].reply.Accepted?)
  }

  lemma SubmitStep(events: seq<Event>, items: seq<BulkItem>, ids: seq<OrderId>, results: seq<ResultItem>,
                                      accepted: seq<AcceptedOrder>, r: AddReply, now: u64)
    requires Submits(events, items, ids, |events|, now) && |events| < |items| == |ids| && Answers(events, results)
    ensures var i := |events|;
            var more := events + [Add(ids[i], items[i], r, now)];
            && Submits(more, items, ids, i + 1, now)
            && Answers(more, results + [if r.Accepted? then ResultItem(i, Some(ids[i]), ItemAccepted, NoNote)
                                        else ResultItem(i, None, ItemRejected, SubmitFailed)])
            && (Accepts(events, ids, accepted) && r.Accepted? && Executed(r.trades) <= U64_MAX ==>
                  Accepts(more, ids, accepted + [AcceptedOrder(i, ids[i], Executed(r.trades))]))
  {
  }

  /** The events roll back the first `n` accepted orders, in order. */
  predicate RollsBack(events: seq<Event>, items: seq<BulkItem>, accepted: seq<AcceptedOrder>, n: nat)
  {
    && |events| == n <= |accepted| <= |items|
    && forall k :: 0 <= k < n ==>
         events[k].Rollback? && events[k].id == accepted[k].id && events[k].item == items[k] && events[k].filled == accepted[k].filled
  }

  lemma RollbackStep(events: seq<Event>, items: seq<BulkItem>, accepted: seq<AcceptedOrder>, answers: seq<bool>, e: Event)
    requires RollsBack(events, items, accepted, |events|) && |events| < |accepted| && AnswersOf(events, answers)
    requires e.Rollback? && e.id == accepted[|events|].id && e.item == items[|events|] && e.filled == accepted[|events|].filled
    ensures RollsBack(events + [e], items, accepted, |events| + 1)
    ensures AnswersOf(events + [e], answers + [e.found && e.cancel.Answered?])
  {
  }

  /** `answers` says of each rollback whether its book was found and its cancel answered. */
  predicate AnswersOf(events: seq<Event>, answers: seq<bool>)
  {
    && |answers| == |events|
    && forall k :: 0 <= k < |events| ==> events[k].Rollback? && answers[k] == (events[k].found && events[k].cancel.Answered?)
  }

  /** A failed atomic batch: submissions accepted up to one refused, then each accepted order rolled back. */
  predicate Aborts(events: seq<Event>, items: seq<BulkItem>, ids: seq<OrderId>, accepted: seq<AcceptedOrder>, answers: seq<bool>, now: u64)
  {
    var n := |accepted|;
    && n < |items| && |events| == 2 * n + 1 && Submits(events, items, ids, n + 1, now)
    && Accepts(events[..n], ids, accepted) && events[n].reply.Refused?
    && RollsBack(events[n + 1..], items, accepted, n) && AnswersOf(events[n + 1..], answers)
  }

  /** An item is reported accepted exactly when its order is tracked, and whatever rests is reported accepted. */
  predicate Truthful(x: Exchange, ids: seq<OrderId>, results: seq<ResultItem>)
  {
    && |results| <= |ids|
    && forall i :: 0 <= i < |results| ==>
         && (results[i].status.ItemAccepted? <==> ids[i] in x.orders)
         && (ids[i] in x.books ==> results[i].status.ItemAccepted?)
         && results[i].orderId == if results[i].status.ItemAccepted? then Some(ids[i]) else None
  }

  /** After a rollback the response tells the state of every order of the batch. */
  lemma ReportIsTruthful(before: Exchange, x: Exchange, items: seq<BulkItem>, accepted: seq<AcceptedOrder>,
                                            answers: seq<bool>, resp: BulkResponse, ids: seq<OrderId>)
    requires Undone(before, x, items, accepted, answers) && Reported(items, accepted, resp, answers) && |ids| == |items|
    requires forall k :: 0 <= k < |accepted| ==> accepted[k].id == ids[k]
    requires forall k :: |accepted| <= k < |ids| ==> ids[k] !in x.orders && ids[k] !in x.books
    ensures Truthful(x, ids, resp.results)
  {
  }

  /** Submitting touches the tracking of its own order only, and puts no other order on a book. */
  lemma SubmitShape(x: Exchange, id: OrderId, item: Item, r: AddReply, now: u64)
    requires Legal(x, Add(id, item, r, now))
    ensures var y := Place(x, id, item, r, now);
            && (id in y.orders <==> r.Accepted?) && (r.Refused? ==> id !in y.books)
            && y.users == (if r.Accepted? then x.users + {id} else x.users)
            && forall other :: other != id ==> (other in y.orders <==> other in x.orders) && (other in y.books ==> other in x.books)
  {
    if r.Accepted? {
      PlaceShape(x, id, item, r, now);
      hide Place;
      forall other | other != id && other in Place(x, id, item, r, now).books ensures other in x.books {
        AddShape(x.books, id, item.level, item.quantity, Rests(item.timeInForce), r, other);
      }
    }
  }

  lemma SubmitIsTruthful(x: Exchange, ids: seq<OrderId>, results: seq<ResultItem>, item: Item, r: AddReply, now: u64)
    requires |results| < |ids| && Legal(x, Add(ids[|results|], item, r, now)) && Truthful(x, ids, results)
    requires forall a, b :: 0 <= a < b < |ids| ==> ids[a] != ids[b]
    requires forall k :: |results| <= k < |ids| ==> Fresh(x, ids[k])
    ensures var y, i := Place(x, ids[|results|], item, r, now), |results|;
            && (forall k :: i < k < |ids| ==> Fresh(y, ids[k]))
            && Truthful(y, ids, results + [if r.Accepted? then ResultItem(i, Some(ids[i]), ItemAccepted, NoNote)
                                           else ResultItem(i, None, ItemRejected, SubmitFailed)])
            && (r.Refused? ==> Fresh(y, ids[i]))
  {
    SubmitShape(x, ids[|results|], item, r, now);
    hide Place;
    forall k | 0 <= k < |results| ensures ids[k] != ids[|results|] { }
  }
}
