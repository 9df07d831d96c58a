/** The LRU sweep Manager.EvictTo (internal/streaming/cache.go) over the row table and the disk,
    run without interference; CacheProtocol interleaves it with everything else. */
module Eviction {
  import Sequences
  import opened CacheTable
  import opened RefCount

  /** The columns of a listed row that the sweep reads. */
  datatype Entry = Entry(id: string, key: string, bytes: nat, lastAccessed: int)

  /** LIMIT of ListCacheLRU as the sweep calls it. */
  const LIST_LIMIT: nat := 500

  ghost predicate IsReadyEntry(t: Table, e: Entry) {
    e.id in t && t[e.id] == Row(e.key, Ready, e.bytes, e.lastAccessed)
  }

  /** What ListCacheLRU can return: ready rows, oldest access first, all of them unless the limit
      cuts the list, and then no unlisted ready row is older than a listed one. */
  ghost predicate IsLruListing(t: Table, list: seq<Entry>) {
    && |list| <= LIST_LIMIT
    && (forall i :: 0 <= i < |list| ==> IsReadyEntry(t, list[i]))
    && (forall i, j :: 0 <= i < j < |list| ==> list[i].id != list[j].id && list[i].lastAccessed <= list[j].lastAccessed)
    && (forall id :: id in t && t[id].status == Ready && (forall i :: 0 <= i < |list| ==> list[i].id != id) ==>
          |list| == LIST_LIMIT && forall i :: 0 <= i < |list| ==> list[i].lastAccessed <= t[id].lastAccessed)
  }

  /** The entries of all ready rows. */
  ghost function ReadyIds(t: Table): set<string> {
    set id | id in t && t[id].status == Ready
  }

  function IdsOf(list: seq<Entry>): (ids: seq<string>)
    ensures |ids| == |list| && forall i :: 0 <= i < |list| ==> ids[i] == list[i].id
  {
    seq(|list|, i requires 0 <= i < |list| => list[i].id)
  }

  /** A listing has the five hundred ready rows read longest ago, or all of them if there are fewer. */
  lemma ListingIsTheOldest(t: Table, list: seq<Entry>)
    requires IsLruListing(t, list)
    ensures |list| == if |ReadyIds(t)| < 500 then |ReadyIds(t)| else 500
    ensures forall i, id :: 0 <= i < |list| && id in ReadyIds(t) ==>
      list[i].id in ReadyIds(t) && (id in IdsOf(list) || t[list[i].id].lastAccessed <= t[id].lastAccessed)
  {
    var ids := IdsOf(list);
    forall i | 0 <= i < |list| ensures ids[i] in ReadyIds(t) { assert IsReadyEntry(t, list[i]); }
    forall id | id in t && t[id].status == Ready && id !in ids ensures forall i :: 0 <= i < |list| ==> list[i].id != id {
      forall i | 0 <= i < |list| ensures list[i].id != id { assert ids[i] == list[i].id; }
    }
    Sequences.DistinctSize(ids, ReadyIds(t));
  }

  /** Which unlinks fail for another reason than "already gone", and which row deletes fail. */
  datatype Faults = Faults(unlink: set<string>, delete: set<string>)

  predicate Unlinkable(e: Entry, refs: map<string, int>, f: Faults) {
    !Busy(refs, e.id) && e.key !in f.unlink
  }

  predicate Removable(e: Entry, refs: map<string, int>, f: Faults) {
    Unlinkable(e, refs, f) && e.id !in f.delete
  }

  /** The sweep's variables: the table, the disk, its running total and its count. */
  datatype Progress = Progress(rows: Table, disk: set<string>, total: int, evicted: nat)

  function One(p: Progress, e: Entry, refs: map<string, int>, f: Faults): Progress {
    if Removable(e, refs, f) then Progress(Delete(p.rows, e.id), p.disk - {e.key}, p.total - e.bytes, p.evicted + 1)
    else if Unlinkable(e, refs, f) then p.(disk := p.disk - {e.key})
    else p
  }

  /** The sweep stops at the first point at or below the target. */
  function Swept(p: Progress, list: seq<Entry>, refs: map<string, int>, f: Faults, target: int): Progress
    decreases |list|
  {
    if list == [] || p.total <= target then p
    else Swept(One(p, list[0], refs, f), list[1..], refs, f, target)
  }

  lemma SweptNext(p: Progress, list: seq<Entry>, i: nat, refs: map<string, int>, f: Faults, target: int)
    requires i < |list| && p.total > target
    ensures Swept(p, list[i..], refs, f, target) == Swept(One(p, list[i], refs, f), list[i + 1..], refs, f, target)
  {
    assert list[i..][0] == list[i] && list[i..][1..] == list[i + 1..];
  }

  class Manager {
    var rows: Table
    var disk: set<string>     // cache keys whose file exists
    const readers: Registry

    constructor ()
      ensures rows == map[] && disk == {} && readers.Valid() && fresh(readers)
    {
      rows, disk := map[], {};
      readers := new Registry();
    }

    /** The loop of EvictTo over the listed entries. */
    method EvictListed(target: int, faults: Faults, total: int, list: seq<Entry>) returns (evicted: nat, ghost left: int)
      requires readers.Valid()
      modifies this
      ensures readers.Valid() && readers.refs == old(readers.refs)
      ensures Progress(rows, disk, left, evicted) ==
        Swept(Progress(old(rows), old(disk), total, 0), list, readers.refs, faults, target)
    {
      evicted := 0;
      var remaining := total;
      var i := 0;
      ghost var start, refs := Progress(rows, disk, total, 0), readers.refs;
      assert list[0..] == list;
      while i < |list| && remaining > target
        invariant 0 <= i <= |list| && readers.Valid() && readers.refs == refs
        invariant Swept(Progress(rows, disk, remaining, evicted), list[i..], refs, faults, target) ==
                  Swept(start, list, refs, faults, target)
      {
        var e := list[i];
        SweptNext(Progress(rows, disk, remaining, evicted), list, i, refs, faults, target);
        i := i + 1;
        var busy := readers.InUse(e.id);
        if busy { continue; }
        if e.key in faults.unlink { continue; }
        disk := disk - {e.key};
        if e.id !in faults.delete {
          rows := Delete(rows, e.id);
          remaining := remaining - e.bytes;
          evicted := evicted + 1;
        }
      }
      left := remaining;
    }

    /** total and list are what the two queries return; totalOk and listOk say whether they do. */
    method EvictTo(target: int, faults: Faults, totalOk: bool, total: int, listOk: bool, list: seq<Entry>)
      returns (evicted: nat, err: bool)
      requires readers.Valid()
      requires totalOk ==> total == Total(rows)
      requires listOk ==> IsLruListing(rows, list)
      modifies this
      ensures readers.Valid() && readers.refs == old(readers.refs)
      ensures err <==> !totalOk || (total > target && !listOk)
      ensures err ==> evicted == 0 && rows == old(rows) && disk == old(disk)
      ensures !err ==>
        exists left :: Progress(rows, disk, left, evicted) ==
          Swept(Progress(old(rows), old(disk), total, 0), list, readers.refs, faults, target)
    {
      evicted, err := 0, false;
      if !totalOk { return 0, true; }
      if total <= target {
        assert Progress(rows, disk, total, 0) == Swept(Progress(rows, disk, total, 0), list, readers.refs, faults, target);
        return;
      }
      if !listOk { return 0, true; }
      ghost var left;
      evicted, left := EvictListed(target, faults, total, list);
    }
  }

  /** What a sweep may start from: an exact total, and a listing of ready rows, each once. */
  ghost predicate Startable(p: Progress, list: seq<Entry>) {
    && p.total == Total(p.rows)
    && (forall i :: 0 <= i < |list| ==> IsReadyEntry(p.rows, list[i]))
    && (forall i, j :: 0 <= i < j < |list| ==> list[i].id != list[j].id)
  }

  lemma OneKeepsStartable(p: Progress, list: seq<Entry>, refs: map<string, int>, f: Faults)
    requires list != [] && Startable(p, list)
    ensures Startable(One(p, list[0], refs, f), list[1..])
  {
    TotalRemove(p.rows, list[0].id);
  }

  /** The running total is exact at the end, and the count is the number of rows gone. */
  lemma {:induction false} SweptTotalIsExact(p: Progress, list: seq<Entry>, refs: map<string, int>, f: Faults, target: int)
    requires Startable(p, list)
    ensures var q := Swept(p, list, refs, f, target);
      q.total == Total(q.rows) && q.evicted - p.evicted == |p.rows| - |q.rows|
    decreases |list|
  {
    if list != [] && p.total > target {
      OneKeepsStartable(p, list, refs, f);
      SweptTotalIsExact(One(p, list[0], refs, f), list[1..], refs, f, target);
    }
  }

  /** Only listed, unheld, removable entries go; every other row stays as it was, a gone row's file
      is gone with it, and a file goes only if it belongs to a listed entry that is not held. */
  lemma {:induction false} SweptOnlyUnheld(p: Progress, list: seq<Entry>, refs: map<string, int>, f: Faults, target: int)
    requires Startable(p, list)
    ensures var q := Swept(p, list, refs, f, target);
      && q.rows.Keys <= p.rows.Keys && q.disk <= p.disk
      && (forall id :: id in q.rows ==> q.rows[id] == p.rows[id])
      && (forall id :: id in p.rows && id !in q.rows ==>
            p.rows[id].cacheKey !in q.disk &&
            !Busy(refs, id) && p.rows[id].cacheKey !in f.unlink && id !in f.delete && exists i :: 0 <= i < |list| && list[i].id == id)
      && (forall k :: k in p.disk && k !in q.disk ==>
            k !in f.unlink && exists i :: 0 <= i < |list| && list[i].key == k && !Busy(refs, list[i].id))
    decreases |list|
  {
    if list != [] && p.total > target {
      var p', q := One(p, list[0], refs, f), Swept(p, list, refs, f, target);
      OneKeepsStartable(p, list, refs, f);
      SweptOnlyUnheld(p', list[1..], refs, f, target);
      forall id | id in p.rows && id !in q.rows
        ensures p.rows[id].cacheKey !in q.disk
        ensures !Busy(refs, id) && p.rows[id].cacheKey !in f.unlink && id !in f.delete
        ensures exists i :: 0 <= i < |list| && list[i].id == id
      {
        if id in p'.rows {
          var i :| 0 <= i < |list[1..]| && list[1..][i].id == id;
          assert list[i + 1] == list[1..][i];
        } else {
          assert list[0].id == id;
        }
      }
      forall k | k in p.disk && k !in q.disk
        ensures k !in f.unlink && exists i :: 0 <= i < |list| && list[i].key == k && !Busy(refs, list[i].id)
      {
        if k in p'.disk {
          var i :| 0 <= i < |list[1..]| && list[1..][i].key == k && !Busy(refs, list[1..][i].id);
          assert list[i + 1] == list[1..][i];
        } else {
          assert list[0].key == k;
        }
      }
    }
  }

  /** Least recently used first: when list[j] went, everything listed before it went or could not. */
  lemma {:induction false} SweptInOrder(p: Progress, list: seq<Entry>, refs: map<string, int>, f: Faults, target: int, i: nat, j: nat)
    requires Startable(p, list) && i < j < |list| && list[j].id !in Swept(p, list, refs, f, target).rows
    ensures list[i].id !in Swept(p, list, refs, f, target).rows || !Removable(list[i], refs, f)
    decreases |list|
  {
    var p' := One(p, list[0], refs, f);
    OneKeepsStartable(p, list, refs, f);
    if i == 0 {
      SweptOnlyUnheld(p', list[1..], refs, f, target);
    } else {
      assert list[1..][i - 1] == list[i] && list[1..][j - 1] == list[j];
      SweptInOrder(p', list[1..], refs, f, target, i - 1, j - 1);
    }
  }

  /** Never one more than needed: with the last entry to go put back, the total is above the target. */
  lemma {:induction false} SweptIsMinimal(p: Progress, list: seq<Entry>, refs: map<string, int>, f: Faults, target: int, j: nat)
    requires Startable(p, list) && j < |list| && list[j].id !in Swept(p, list, refs, f, target).rows
    requires forall i :: j < i < |list| ==> list[i].id in Swept(p, list, refs, f, target).rows
    ensures Swept(p, list, refs, f, target).total + list[j].bytes > target
    decreases |list|
  {
    var p' := One(p, list[0], refs, f);
    OneKeepsStartable(p, list, refs, f);
    forall i | 0 <= i < |list| - 1 ensures list[1..][i] == list[i + 1] {}
    if j == 0 {
      SweptOnlyUnheld(p', list[1..], refs, f, target);
      SweptKeepsTotalIfNoneGoes(p', list[1..], refs, f, target);
    } else {
      SweptIsMinimal(p', list[1..], refs, f, target, j - 1);
    }
  }

  lemma {:induction false} SweptKeepsTotalIfNoneGoes(p: Progress, list: seq<Entry>, refs: map<string, int>, f: Faults, target: int)
    requires Startable(p, list)
    requires forall i :: 0 <= i < |list| ==> list[i].id in Swept(p, list, refs, f, target).rows
    ensures Swept(p, list, refs, f, target).total == p.total
    decreases |list|
  {
    if list != [] && p.total > target {
      OneKeepsStartable(p, list, refs, f);
      SweptOnlyUnheld(One(p, list[0], refs, f), list[1..], refs, f, target);
      assert list[0].id in Swept(p, list, refs, f, target).rows;
      forall i | 0 <= i < |list[1..]| ensures list[1..][i].id in Swept(p, list, refs, f, target).rows { assert list[1..][i] == list[i + 1]; }
      SweptKeepsTotalIfNoneGoes(One(p, list[0], refs, f), list[1..], refs, f, target);
    }
  }

  /** If the sweep ends above its target, every listed entry went, was held, or could not go; and every file
      that nobody held and that could be unlinked is gone, even where its row could not be deleted. */
  lemma {:induction false} AboveTargetMeansExhausted(p: Progress, list: seq<Entry>, refs: map<string, int>, f: Faults, target: int, i: nat)
    requires Startable(p, list) && i < |list| && Swept(p, list, refs, f, target).total > target
    ensures list[i].id !in Swept(p, list, refs, f, target).rows || Busy(refs, list[i].id) ||
            list[i].key in f.unlink || list[i].id in f.delete
    ensures list[i].key in Swept(p, list, refs, f, target).disk ==> list[i].key !in p.disk || Busy(refs, list[i].id) || list[i].key in f.unlink
    decreases |list|
  {
    var p' := One(p, list[0], refs, f);
    OneKeepsStartable(p, list, refs, f);
    SweptOnlyUnheld(p', list[1..], refs, f, target);
    if i > 0 {
      assert list[1..][i - 1] == list[i];
      AboveTargetMeansExhausted(p', list[1..], refs, f, target, i - 1);
    }
  }

  /** A sweep never leaves a file without a row. */
  lemma SweepLeavesNoOrphanFile(p: Progress, list: seq<Entry>, refs: map<string, int>, f: Faults, target: int)
    requires Startable(p, list) && UniqueKeys(p.rows)
    requires forall k :: k in p.disk ==> HasKey(p.rows, k)
    ensures var q := Swept(p, list, refs, f, target); forall k :: k in q.disk ==> HasKey(q.rows, k)
  {
    SweptOnlyUnheld(p, list, refs, f, target);
    var q := Swept(p, list, refs, f, target);
    forall k | k in q.disk ensures HasKey(q.rows, k) {
      var id :| id in p.rows && p.rows[id].cacheKey == k;
      assert id in q.rows;
    }
  }

  lemma GoneWasListed(p: Progress, list: seq<Entry>, refs: map<string, int>, f: Faults, target: int, gone: string) returns (j: nat)
    requires Startable(p, list) && gone in p.rows && gone !in Swept(p, list, refs, f, target).rows
    ensures j < |list| && list[j].id == gone
  {
    SweptOnlyUnheld(p, list, refs, f, target);
    j :| 0 <= j < |list| && list[j].id == gone;
  }

  /** Over the whole table: no evicted row was accessed later than a ready row that could have gone
      and stayed, whether that row was listed or cut off by the limit. */
  lemma EvictsLeastRecentlyUsed(p: Progress, list: seq<Entry>, refs: map<string, int>, f: Faults, target: int, gone: string, kept: string)
    requires p.total == Total(p.rows) && IsLruListing(p.rows, list)
    requires gone in p.rows && gone !in Swept(p, list, refs, f, target).rows
    requires kept in Swept(p, list, refs, f, target).rows && kept in p.rows && p.rows[kept].status == Ready
    requires !Busy(refs, kept) && p.rows[kept].cacheKey !in f.unlink && kept !in f.delete
    ensures p.rows[gone].lastAccessed <= p.rows[kept].lastAccessed
  {
    var j := GoneWasListed(p, list, refs, f, target, gone);
    assert p.rows[gone].lastAccessed == list[j].lastAccessed by { assert IsReadyEntry(p.rows, list[j]); }
    if i :| 0 <= i < |list| && list[i].id == kept {
      assert IsReadyEntry(p.rows, list[i]);
      if i < j { SweptInOrder(p, list, refs, f, target, i, j); }
    }
  }
}
