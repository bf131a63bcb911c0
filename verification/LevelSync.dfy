/**
 The delta stream level by level, in runs that also hold market-maker calls and crossing modifies
 (src/api/handlers.rs): every published quantity is the current one, so a level is in sync as soon
 as it is published again.
 */
module LevelSync {
  import opened Machine
  import opened Instruments
  import opened Books
  import opened Exchange
  import opened Deltas
  import opened Tracking

  /** The view of a subscriber who took a snapshot at `from` agrees with `x` at one level. */
  ghost predicate SyncedAt(from: Exchange, x: Exchange, l: Level)
  {
    from.deltas <= x.deltas && Seen(x.deltas[|from.deltas|..], l, Visible(from.books, l)) == Visible(x.books, l)
  }

  predicate Said(deltas: seq<Delta>, l: Level) { exists i :: 0 <= i < |deltas| && deltas[i].level == l }

  /** The last delta of each level mentioned gives its quantity in `m`. */
  ghost predicate LastSays(deltas: seq<Delta>, m: Books)
  {
    forall l: Level :: Said(deltas, l) ==> Seen(deltas, l, 0) == Visible(m, l)
  }

  lemma {:induction false} SaidOverrides(deltas: seq<Delta>, l: Level, start: int)
    ensures Said(deltas, l) ==> Seen(deltas, l, start) == Seen(deltas, l, 0)
    ensures !Said(deltas, l) ==> Seen(deltas, l, start) == start
    decreases |deltas|
  {
    if deltas != [] {
      var before := deltas[..|deltas| - 1];
      SaidOverrides(before, l, start);
      assert Said(deltas, l) <==> Said(before, l) || deltas[|deltas| - 1].level == l by {
        if Said(before, l) {
          var i :| 0 <= i < |before| && before[i].level == l;
          assert deltas[i].level == l;
        }
        assert forall i :: 0 <= i < |before| ==> before[i] == deltas[i];
      }
    }
  }

  ghost function News(x: Exchange, y: Exchange): seq<Delta>
    requires x.deltas <= y.deltas
  {
    y.deltas[|x.deltas|..]
  }

  ghost predicate Current(x: Exchange, y: Exchange) { x.deltas <= y.deltas && LastSays(News(x, y), y.books) }

  lemma NothingSaid(x: Exchange, y: Exchange)
    requires y.deltas == x.deltas
    ensures Current(x, y)
  {
  }

  lemma PublishSays(x: Exchange, y: Exchange, l: Level)
    requires Current(x, y)
    ensures Current(x, Publish(y, l))
  {
    var news, more := News(x, y), News(x, Publish(y, l));
    assert more == news + [Delta(l, Visible(y.books, l))] && more[..|more| - 1] == news;
    forall k: Level | Said(more, k) ensures Seen(more, k, 0) == Visible(y.books, k) {
      if k != l {
        var i :| 0 <= i < |more| && more[i].level == k;
        assert news[i].level == k;
      }
    }
  }

  lemma {:induction false} PublishAllSays(x: Exchange, y: Exchange, book: BookId, side: Side, prices: seq<u128>)
    requires Current(x, y)
    ensures Current(x, PublishAll(y, book, side, prices)) && PublishAll(y, book, side, prices).books == y.books
    decreases |prices|
  {
    if prices != [] {
      PublishAllSays(x, y, book, side, prices[..|prices| - 1]);
      PublishSays(x, PublishAll(y, book, side, prices[..|prices| - 1]), Level(book, side, prices[|prices| - 1]));
    }
  }

  // ---------------------------------------------------------------- every step

  lemma PlaceSays(x: Exchange, e: Event)
    requires e.Add? && Legal(x, e)
    ensures Current(x, Apply(x, e))
  {
    hide Current;
    var r, own := e.reply, e.item.level;
    if r.Refused? {
      NothingSaid(x, x);
    } else {
      var placed := Exchange(AfterAdd(x.books, e.id, own, Rests(e.item.timeInForce), r),
                             x.orders[e.id := Track(e.item, r, e.now)], x.users + {e.id}, x.deltas);
      NothingSaid(x, placed);
      PublishAllSays(x, placed, own.book, own.side.Opposite(), Distinct(Prices(r.trades)));
      var consumed := if Executed(r.trades) > 0 then PublishConsumed(placed, own.book, own.side, r.trades) else placed;
      PublishSays(x, consumed, own);
    }
  }

  lemma TakeSays(x: Exchange, e: Event)
    requires e.Market? && Legal(x, e)
    ensures Current(x, Apply(x, e))
  {
    hide Current;
    if e.reply.Refused? {
      NothingSaid(x, x);
    } else {
      var hit := x.(books := AfterAdd(x.books, e.id, Level(e.book, e.side, 0), false, e.reply));
      NothingSaid(x, hit);
      PublishAllSays(x, hit, e.book, e.side.Opposite(), Distinct(Prices(e.reply.trades)));
    }
  }

  /** What a modify said of the old level still holds after the replacement trades, on the other side. */
  lemma ReplaceSays(x: Exchange, e: Event)
    requires e.Modify? && Legal(x, e) && Replaces(x, e)
    ensures Current(x, Replace(x, e))
  {
    hide Current;
    var oldLevel := x.books[e.id].level;
    var y, item := Withdrawn(x, e.id), NewItem(x, e);
    NothingSaid(x, y.(deltas := x.deltas));
    PublishSays(x, y.(deltas := x.deltas), oldLevel);
    assert Publish(y.(deltas := x.deltas), oldLevel) == y;
    if e.reply.Accepted? {
      var placed := Replace(x, e).(deltas := y.deltas);
      if oldLevel != item.level {
        assert oldLevel !in LevelsAt(item.level.book, item.level.side.Opposite(), Prices(e.reply.trades));
        AddTouches(y.books, e.newId, item.level, item.quantity, true, e.reply, oldLevel);
        SameThere(x, y, placed, oldLevel);
        PublishSays(x, placed, item.level);
      } else {
        SaidAgain(x, y, placed, oldLevel);
      }
      assert Publish(placed, item.level) == Replace(x, e);
    }
  }

  lemma SameThere(x: Exchange, y: Exchange, z: Exchange, l: Level)
    requires Current(x, y) && z.deltas == y.deltas && News(x, y) == [Delta(l, Visible(y.books, l))]
    requires Visible(z.books, l) == Visible(y.books, l)
    ensures Current(x, z)
  {
    forall k: Level | Said(News(x, z), k) ensures Seen(News(x, z), k, 0) == Visible(z.books, k) { assert k == l; }
  }

  lemma SaidAgain(x: Exchange, y: Exchange, z: Exchange, l: Level)
    requires x.deltas <= y.deltas && z.deltas == y.deltas && News(x, y) == [Delta(l, Visible(y.books, l))]
    ensures Current(x, Publish(z, l))
  {
    var more := News(x, Publish(z, l));
    assert more == [Delta(l, Visible(y.books, l)), Delta(l, Visible(z.books, l))];
    forall k: Level | Said(more, k) ensures Seen(more, k, 0) == Visible(z.books, k) { assert k == l; }
  }

  /** Whatever an event publishes of a level, it ends on the level's quantity after the event. */
  lemma StepSays(x: Exchange, e: Event)
    requires Legal(x, e)
    ensures Current(x, Apply(x, e))
  {
    hide Current;
    var y := Apply(x, e);
    match e
    case Add(_, _, _, _) => PlaceSays(x, e);
    case Market(_, _, _, _, _) => TakeSays(x, e);
    case Modify(_, _, _, _, _, _, _, _) => if Replaces(x, e) { ReplaceSays(x, e); } else { NothingSaid(x, y); }
    case Cancel(book, id, cancel, _) =>
      if cancel.Answered? && RestsIn(x.books, book, id) { RemovalSays(x, y, x.books[id].level); } else { NothingSaid(x, y); }
    case CancelTracked(id, _, _) =>
      if y == x { NothingSaid(x, y); } else { RemovalSays(x, y, x.orders[id].level); }
    case Rollback(item, id, _, found, cancel, _) =>
      if found && cancel.Answered? && RestsIn(x.books, item.level.book, id) { RemovalSays(x, y, item.level); } else { NothingSaid(x, y); }
    case Cleanup(_) => NothingSaid(x, y);
    case MakerAdd(_, _, _, _) => NothingSaid(x, y);
    case MakerCancel(_, _) => NothingSaid(x, y);
  }

  lemma RemovalSays(x: Exchange, y: Exchange, l: Level)
    requires y.deltas == x.deltas + [Delta(l, Visible(y.books, l))]
    ensures Current(x, y)
  {
    var news := News(x, y);
    assert news == [Delta(l, Visible(y.books, l))];
    forall k: Level | Said(news, k) ensures Seen(news, k, 0) == Visible(y.books, k) { assert k == l; }
  }

  // ---------------------------------------------------------------- whole runs, one level

  /** The event publishes the level. */
  ghost predicate Publishes(x: Exchange, e: Event, l: Level)
    requires Legal(x, e)
  {
    x.deltas <= Apply(x, e).deltas && Said(News(x, Apply(x, e)), l)
  }

  /** The event changes the level's visible quantity. */
  ghost predicate Changes(x: Exchange, e: Event, l: Level)
    requires Legal(x, e)
  {
    Visible(Apply(x, e).books, l) != Visible(x.books, l)
  }

  /** Whether the last publication of the level comes with or after its last change; `upToDate` says so of the start. */
  ghost predicate PublishedSinceChange(x: Exchange, events: seq<Event>, l: Level, upToDate: bool)
    requires LegalRun(x, events)
    decreases |events|
  {
    if events == [] then upToDate
    else
      var e := events[0];
      PublishedSinceChange(Apply(x, e), events[1..], l, Publishes(x, e, l) || (upToDate && !Changes(x, e, l)))
  }

  lemma StepSyncsLevel(from: Exchange, x: Exchange, e: Event, l: Level)
    requires Legal(x, e) && from.deltas <= x.deltas
    ensures from.deltas <= Apply(x, e).deltas
    ensures Publishes(x, e, l) ==> SyncedAt(from, Apply(x, e), l)
    ensures SyncedAt(from, x, l) && !Changes(x, e, l) ==> SyncedAt(from, Apply(x, e), l)
  {
    StepSays(x, e);
    hide Apply, Legal;
    var y := Apply(x, e);
    var news, before := News(x, y), x.deltas[|from.deltas|..];
    assert y.deltas[|from.deltas|..] == before + news;
    SeenConcat(before, news, l, Visible(from.books, l));
    SaidOverrides(news, l, Seen(before, l, Visible(from.books, l)));
  }

  /**
   In any run at all, crossing modifies and market-maker orders and cancels included, a subscriber
   holds the visible quantity of every level last published with or after its last change.
   */
  lemma {:induction false} LevelRefinesBooks(from: Exchange, x: Exchange, events: seq<Event>, l: Level, upToDate: bool)
    requires LegalRun(x, events) && from.deltas <= x.deltas && (upToDate ==> SyncedAt(from, x, l))
    requires PublishedSinceChange(x, events, l, upToDate)
    ensures SyncedAt(from, After(x, events), l)
    decreases |events|
  {
    hide SyncedAt, Publishes, Changes;
    if events != [] {
      var e := events[0];
      StepSyncsLevel(from, x, e, l);
      LevelRefinesBooks(from, Apply(x, e), events[1..], l, Publishes(x, e, l) || (upToDate && !Changes(x, e, l)));
    }
  }

  /** ... in particular one who takes a snapshot anywhere. */
  lemma SnapshotRefinesLevel(x: Exchange, events: seq<Event>, l: Level)
    requires LegalRun(x, events) && PublishedSinceChange(x, events, l, true)
    ensures SyncedAt(x, After(x, events), l)
  {
    assert x.deltas[|x.deltas|..] == [];
    LevelRefinesBooks(x, x, events, l, true);
  }
}
