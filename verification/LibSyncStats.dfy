/** What the numbers that a sync reports mean: the difference between the table before it and the table
    after it (internal/libsync/libsync.go, internal/store/portal_library.go). */
module LibSyncStats {
  import Sequences
  import opened LibSync

  /** Where the row of each backend library is. */
  ghost function HomeList(db: Db, list: seq<Library>, infos: seq<Info>, plugin: string): (home: seq<int>)
    ensures |home| == |infos| && forall j :: 0 <= j < |infos| ==> home[j] == Home(db, list, infos, plugin, j)
  {
    seq(|infos|, j requires 0 <= j < |infos| => Home(db, list, infos, plugin, j))
  }

  /** Of the first n backend libraries, the places of those with one fate. */
  ghost function Homes(home: seq<int>, m: map<int, Library>, infos: seq<Info>, fate: Fate, n: nat): set<int>
    requires n <= |infos| == |home|
  {
    if n == 0 then {}
    else Homes(home, m, infos, fate, n - 1) + (if FateOf(m, infos[n - 1]) == fate then {home[n - 1]} else {})
  }

  lemma {:induction false} HomesAre(home: seq<int>, m: map<int, Library>, infos: seq<Info>, fate: Fate, n: nat, id: int)
    requires n <= |infos| == |home|
    ensures id in Homes(home, m, infos, fate, n) <==> exists j :: 0 <= j < n && home[j] == id && FateOf(m, infos[j]) == fate
  {
    if n > 0 {
      HomesAre(home, m, infos, fate, n - 1, id);
    }
  }

  lemma OneMoreHome(home: seq<int>, m: map<int, Library>, infos: seq<Info>, fate: Fate, n: nat)
    requires n < |infos| == |home| && home[n] !in Homes(home, m, infos, fate, n)
    ensures |Homes(home, m, infos, fate, n + 1)| == |Homes(home, m, infos, fate, n)| + if FateOf(m, infos[n]) == fate then 1 else 0
  {
  }

  lemma {:induction false} HomesCounted(home: seq<int>, m: map<int, Library>, infos: seq<Info>, fate: Fate, n: nat)
    requires n <= |infos| == |home| && forall i, j :: 0 <= i < j < |home| ==> home[i] != home[j]
    ensures |Homes(home, m, infos, fate, n)| == Count(m, infos, fate, n)
  {
    if n > 0 {
      var last := n - 1;
      HomesCounted(home, m, infos, fate, last);
      HomesAre(home, m, infos, fate, last, home[last]);
      OneMoreHome(home, m, infos, fate, last);
      OneMoreCounted(m, infos, fate, last);
    }
  }

  lemma HomesApart(db: Db, list: seq<Library>, infos: seq<Info>, plugin: string, db': Db)
    requires Synced(db, list, infos, plugin, db')
    ensures var home := HomeList(db, list, infos, plugin); forall i, j :: 0 <= i < j < |home| ==> home[i] != home[j]
  {
    var home := HomeList(db, list, infos, plugin);
    forall i: nat, j: nat | i < j < |home| ensures home[i] != home[j] { SyncKeepsLibrariesApart(db, list, infos, plugin, db', i, j); }
  }

  /** The managed rows that the sync leaves with another name or type. */
  ghost function Rewritten(db: Db, db': Db, plugin: string): set<int> {
    set id | id in db.rows && id in db'.rows && Managed(db.rows[id], plugin) && db.rows[id] != db'.rows[id]
  }

  /** A library's row is new exactly when no row was there for it, and rewritten exactly when its name or
      type was another. */
  lemma FateShows(db: Db, list: seq<Library>, infos: seq<Info>, plugin: string, db': Db, j: nat)
    requires Synced(db, list, infos, plugin, db') && j < |infos|
    ensures var id, fate := Home(db, list, infos, plugin, j), FateOf(Index(list, plugin), infos[j]);
      && id in db'.rows
      && (fate == New <==> id !in db.rows)
      && (fate == Renamed <==> id in Rewritten(db, db', plugin))
  {
    HomeIs(db, list, infos, plugin, db', j);
    IndexedIffKnown(db.rows, list, plugin, infos[j].id);
    if Known(db.rows, infos[j].id, plugin) {
      SyncKeepsMatchedRow(db, list, infos, plugin, db', j);
      DesiredAt(list, infos, plugin, j);
    } else {
      SyncAppendsNewRow(db, list, infos, plugin, db', j);
    }
  }

  /** Every row that is new afterwards, or was managed and stays, is the row of a backend library. */
  lemma ComesFromALibrary(db: Db, list: seq<Library>, infos: seq<Info>, plugin: string, db': Db, id: int) returns (j: nat)
    requires Synced(db, list, infos, plugin, db') && id in db'.rows && (id in db.rows ==> Managed(db.rows[id], plugin))
    ensures j < |infos| && Home(db, list, infos, plugin, j) == id
  {
    if !Managed(db'.rows[id], plugin) { SyncMakesNoOthers(db, list, infos, plugin, db', id); }
    j := SyncLeavesNoOtherManaged(db, list, infos, plugin, db', id);
  }

  lemma CreatedAre(db: Db, list: seq<Library>, infos: seq<Info>, plugin: string, db': Db)
    requires Synced(db, list, infos, plugin, db')
    ensures Homes(HomeList(db, list, infos, plugin), Index(list, plugin), infos, New, |infos|) == db'.rows.Keys - db.rows.Keys
  {
    forall id ensures id in Homes(HomeList(db, list, infos, plugin), Index(list, plugin), infos, New, |infos|) <==> id in db'.rows && id !in db.rows {
      HomesAre(HomeList(db, list, infos, plugin), Index(list, plugin), infos, New, |infos|, id);
      if id in db'.rows && id !in db.rows {
        var j := ComesFromALibrary(db, list, infos, plugin, db', id);
        FateShows(db, list, infos, plugin, db', j);
      }
      if j :| 0 <= j < |infos| && HomeList(db, list, infos, plugin)[j] == id && FateOf(Index(list, plugin), infos[j]) == New {
        FateShows(db, list, infos, plugin, db', j);
      }
    }
  }

  lemma RewrittenAre(db: Db, list: seq<Library>, infos: seq<Info>, plugin: string, db': Db)
    requires Synced(db, list, infos, plugin, db')
    ensures Homes(HomeList(db, list, infos, plugin), Index(list, plugin), infos, Renamed, |infos|) == Rewritten(db, db', plugin)
  {
    forall id ensures id in Homes(HomeList(db, list, infos, plugin), Index(list, plugin), infos, Renamed, |infos|) <==> id in Rewritten(db, db', plugin) {
      HomesAre(HomeList(db, list, infos, plugin), Index(list, plugin), infos, Renamed, |infos|, id);
      if id in Rewritten(db, db', plugin) {
        var j := ComesFromALibrary(db, list, infos, plugin, db', id);
        FateShows(db, list, infos, plugin, db', j);
      }
      if j :| 0 <= j < |infos| && HomeList(db, list, infos, plugin)[j] == id && FateOf(Index(list, plugin), infos[j]) == Renamed {
        FateShows(db, list, infos, plugin, db', j);
      }
    }
  }

  lemma ListingSize(rows: map<int, Library>, list: seq<Library>)
    requires IsListing(rows, list)
    ensures |list| == |rows.Keys|
  {
    var ids := seq(|list|, i requires 0 <= i < |list| => list[i].id);
    forall id | id in rows ensures id in ids {
      var i :| 0 <= i < |list| && list[i].id == id;
      assert ids[i] == id;
    }
    Sequences.DistinctSize(ids, rows.Keys);
  }

  lemma ResultSize(db: Db, libs: seq<Library>)
    requires Clean(db, libs)
    ensures |Result(db, libs).rows.Keys| == |libs|
  {
    var ids := seq(|libs|, i requires 0 <= i < |libs| => Placed(db, libs, i));
    ResultIs(db, libs);
    forall i, j | 0 <= i < j < |ids| ensures ids[i] != ids[j] { PlacedIsInjective(db, libs, i, j); }
    forall id | id in Result(db, libs).rows ensures id in ids {
      var i :| 0 <= i < |libs| && Placed(db, libs, i) == id;
      assert ids[i] == id;
    }
    Sequences.DistinctSize(ids, Result(db, libs).rows.Keys);
  }

  lemma Sizes(a: set<int>, b: set<int>)
    ensures |a| == |a - b| + |a * b| && |b| == |b - a| + |a * b|
  {
    assert a == (a - b) + (a * b);
    assert b == (b - a) + (a * b);
  }

  lemma CreatedAndUpdated(db: Db, list: seq<Library>, infos: seq<Info>, plugin: string, db': Db)
    requires Synced(db, list, infos, plugin, db')
    ensures StatsOf(list, infos, plugin).created == |db'.rows.Keys - db.rows.Keys|
    ensures StatsOf(list, infos, plugin).updated == |Rewritten(db, db', plugin)|
  {
    var home := HomeList(db, list, infos, plugin);
    HomesApart(db, list, infos, plugin, db');
    HomesCounted(home, Index(list, plugin), infos, New, |infos|);
    HomesCounted(home, Index(list, plugin), infos, Renamed, |infos|);
    CreatedAre(db, list, infos, plugin, db');
    RewrittenAre(db, list, infos, plugin, db');
  }

  /** The rows before and after, by the numbers. */
  lemma RowsAddUp(db: Db, list: seq<Library>, infos: seq<Info>, plugin: string, db': Db)
    requires Synced(db, list, infos, plugin, db')
    ensures var st := StatsOf(list, infos, plugin);
      && |db'.rows.Keys| == st.kept + st.updated + st.created
      && |db.rows.Keys| + st.created == |db'.rows.Keys| + st.pruned
  {
    RowsAreConservedIff(list, infos, plugin);
    ResultIsCounted(list, infos, plugin);
    ListingSize(db.rows, list);
    DesiredIsClean(db, list, infos, plugin);
    ResultSize(db, Desired(list, infos, plugin));
  }

  /** The reported numbers are the difference between the two tables: rows created are the ones that came,
      rows pruned the ones that went, rows updated the managed ones that read otherwise than before, and
      rows kept all the others that stayed. */
  lemma StatsTellTheDifference(db: Db, list: seq<Library>, infos: seq<Info>, plugin: string, db': Db)
    requires Synced(db, list, infos, plugin, db')
    ensures var st := StatsOf(list, infos, plugin);
      && st.created == |db'.rows.Keys - db.rows.Keys| && st.pruned == |db.rows.Keys - db'.rows.Keys|
      && st.updated == |Rewritten(db, db', plugin)|
      && st.kept == |(db.rows.Keys * db'.rows.Keys) - Rewritten(db, db', plugin)|
  {
    var stayed, rewritten := db.rows.Keys * db'.rows.Keys, Rewritten(db, db', plugin);
    CreatedAndUpdated(db, list, infos, plugin, db');
    RowsAddUp(db, list, infos, plugin, db');
    Sizes(db.rows.Keys, db'.rows.Keys);
    Sizes(stayed, rewritten);
    assert rewritten - stayed == {} && stayed * rewritten == rewritten;
  }
}
