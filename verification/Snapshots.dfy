/** Bounded retention of order-book snapshots (`insert_snapshot_bounded`, src/state.rs). */
module Snapshots {
  import opened Machine
  import opened TopK

  const MAX_RETAINED_SNAPSHOTS: nat := 16

  datatype StoredSnapshot = StoredSnapshot(createdAtMs: u64, infos: seq<string>, seqNo: nat)

  datatype Entry = Entry(id: string, snapshot: StoredSnapshot)

  ghost function Entries(m: map<string, StoredSnapshot>): set<Entry>
  {
    set id | id in m :: Entry(id, m[id])
  }

  /** `(created_at_ms, seq)` order: `a` is evicted before `b`. */
  predicate Earlier(a: Entry, b: Entry)
  {
    || a.snapshot.createdAtMs < b.snapshot.createdAtMs
    || (a.snapshot.createdAtMs == b.snapshot.createdAtMs && a.snapshot.seqNo < b.snapshot.seqNo)
  }

  /** Entries carry distinct ids and distinct creation sequence numbers. */
  ghost predicate Distinct(s: set<Entry>)
  {
    forall a, b :: a in s && b in s && a != b ==> a.id != b.id && a.snapshot.seqNo != b.snapshot.seqNo
  }

  lemma EarlierIsStrict(s: set<Entry>, all: set<Entry>)
    requires Distinct(all) && s <= all
    ensures StrictOrder(Earlier, s)
  {
  }

  /** As many as fit of the inserted snapshots are kept, and each one dropped is older, or as old and of a lower sequence number, than each kept. */
  ghost predicate KeepsLatest(m: map<string, StoredSnapshot>, inserted: set<Entry>)
  {
    && |m| == Min(|inserted|, 16) && (forall id :: id in m ==> Entry(id, m[id]) in inserted)
    && forall e, id :: e in inserted && !(e.id in m && m[e.id] == e.snapshot) && id in m ==>
         && e.snapshot.createdAtMs <= m[id].createdAtMs
         && (e.snapshot.createdAtMs == m[id].createdAtMs ==> e.snapshot.seqNo < m[id].seqNo)
  }

  class SnapshotStore {
    var snapshots: map<string, StoredSnapshot>
    ghost var inserted: set<Entry>

    /** What is retained is exactly the 16 latest snapshots ever inserted, ties broken by sequence. */
    ghost predicate Valid()
      reads this
    {
      && Distinct(inserted)
      && Entries(snapshots) == Top(Earlier, inserted, MAX_RETAINED_SNAPSHOTS)
    }

    constructor ()
      ensures Valid() && inserted == {}
    {
      snapshots, inserted := map[], {};
    }

    method InsertSnapshotBounded(id: string, snapshot: StoredSnapshot)
      requires Valid() && Distinct(inserted + {Entry(id, snapshot)}) && Entry(id, snapshot) !in inserted
      modifies this
      ensures Valid() && inserted == old(inserted) + {Entry(id, snapshot)}
      ensures KeepsLatest(snapshots, inserted)
    {
      hide Top, KeepsLatest, Distinct, StrictOrder;
      ghost var all := inserted + {Entry(id, snapshot)};
      EarlierIsStrict(all, all);
      TopInsert(Earlier, inserted, Entry(id, snapshot), MAX_RETAINED_SNAPSHOTS);
      FreshId(snapshots, inserted, id, snapshot);
      EntriesOfInsert(snapshots, id, snapshot);
      inserted := all;
      snapshots := snapshots[id := snapshot];
      while |snapshots| > MAX_RETAINED_SNAPSHOTS
        invariant Entries(snapshots) <= all && inserted == all
        invariant Top(Earlier, Entries(snapshots), MAX_RETAINED_SNAPSHOTS) == Top(Earlier, all, MAX_RETAINED_SNAPSHOTS)
        decreases |snapshots|
      {
        EarlierIsStrict(Entries(snapshots), all);
        OldestExists(snapshots);
        var oldest :| IsOldest(snapshots, oldest);
        EvictOldest(snapshots, oldest, MAX_RETAINED_SNAPSHOTS);
        snapshots := snapshots - {oldest};
      }
      EarlierIsStrict(Entries(snapshots), all);
      NothingToEvict(snapshots, MAX_RETAINED_SNAPSHOTS);
      TopKeepsLatest(snapshots, inserted);
    }
  }

  lemma TopKeepsLatest(m: map<string, StoredSnapshot>, inserted: set<Entry>)
    requires Distinct(inserted) && Entries(m) == Top(Earlier, inserted, MAX_RETAINED_SNAPSHOTS)
    ensures KeepsLatest(m, inserted)
  {
    EarlierIsStrict(inserted, inserted);
    EntryCount(m);
    TopSize(Earlier, inserted, MAX_RETAINED_SNAPSHOTS);
    forall id | id in m ensures Entry(id, m[id]) in inserted { assert Entry(id, m[id]) in Entries(m); }
    forall e, id | e in inserted && !(e.id in m && m[e.id] == e.snapshot) && id in m ensures Earlier(e, Entry(id, m[id])) {
      assert Entry(id, m[id]) in Entries(m) && e !in Entries(m);
      TopOutside(Earlier, inserted, MAX_RETAINED_SNAPSHOTS, e);
    }
  }

  lemma FreshId(m: map<string, StoredSnapshot>, inserted: set<Entry>, id: string, s: StoredSnapshot)
    requires Distinct(inserted + {Entry(id, s)}) && Entry(id, s) !in inserted
    requires Entries(m) == Top(Earlier, inserted, MAX_RETAINED_SNAPSHOTS)
    ensures id !in m && Entries(m) <= inserted
  {
  }

  predicate IsOldest(m: map<string, StoredSnapshot>, id: string)
  {
    id in m && forall other :: other in m && other != id ==> Earlier(Entry(id, m[id]), Entry(other, m[other]))
  }

  lemma EntriesOfInsert(m: map<string, StoredSnapshot>, id: string, s: StoredSnapshot)
    requires id !in m
    ensures Entries(m[id := s]) == Entries(m) + {Entry(id, s)} && Entry(id, s) !in Entries(m)
  {
    var next := m[id := s];
    forall e | e in Entries(m) + {Entry(id, s)} ensures e in Entries(next) {
      assert e.id in next && next[e.id] == e.snapshot;
    }
  }

  lemma EntriesOfRemove(m: map<string, StoredSnapshot>, id: string)
    requires id in m
    ensures Entries(m - {id}) == Entries(m) - {Entry(id, m[id])} && Entry(id, m[id]) in Entries(m)
  {
    EntriesOfInsert(m - {id}, id, m[id]);
    assert (m - {id})[id := m[id]] == m;
  }

  lemma {:induction false} EntryCount(m: map<string, StoredSnapshot>)
    ensures |Entries(m)| == |m|
    decreases |m|
  {
    if m != map[] {
      var id :| id in m;
      EntryCount(m - {id});
      EntriesOfRemove(m, id);
    }
  }

  lemma OldestExists(m: map<string, StoredSnapshot>)
    requires |m| > 0 && StrictOrder(Earlier, Entries(m))
    ensures exists id :: IsOldest(m, id)
  {
    EntryCount(m);
    var e := LeastExists(Earlier, Entries(m));
    forall other | other in m && other != e.id
      ensures Earlier(Entry(e.id, m[e.id]), Entry(other, m[other]))
    {
      assert Entry(other, m[other]) in Entries(m);
    }
    assert IsOldest(m, e.id);
  }

  lemma EvictOldest(m: map<string, StoredSnapshot>, id: string, k: nat)
    requires IsOldest(m, id) && StrictOrder(Earlier, Entries(m)) && k < |m|
    ensures Top(Earlier, Entries(m - {id}), k) == Top(Earlier, Entries(m), k)
    ensures Entries(m - {id}) <= Entries(m)
  {
    EntryCount(m);
    EntriesOfRemove(m, id);
    TopEvict(Earlier, Entries(m), Entry(id, m[id]), k);
  }

  lemma NothingToEvict(m: map<string, StoredSnapshot>, k: nat)
    requires StrictOrder(Earlier, Entries(m)) && |m| <= k
    ensures Top(Earlier, Entries(m), k) == Entries(m)
  {
    EntryCount(m);
    TopWhole(Earlier, Entries(m), k);
  }
}
