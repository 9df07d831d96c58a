/** Mirroring a backend's libraries into portal shelves: the reconcile step (internal/libsync/libsync.go)
    and the transactional replace (internal/store/portal_library.go).

    Functions over a list take the number of elements looked at, as the loops do. */
module LibSync {
  import opened Wrappers

  /** A portal_library row; id 0 stands for a row not inserted yet. */
  datatype Library = Library(id: int, name: string, mediaType: string, pluginID: string,
                             backendID: Option<int>, enabled: bool, sortOrder: int)

  /** What the backend says about one of its libraries; number is the id as %d prints it. */
  datatype Info = Info(id: int, name: string, mediaType: string, number: string)

  datatype Stats = Stats(created: nat, updated: nat, pruned: nat, kept: nat)

  predicate Managed(l: Library, plugin: string) {
    l.pluginID == plugin && l.backendID.Some?
  }

  function WantedName(bl: Info): string {
    if bl.name != "" then bl.name
    else "Library " + bl.number
  }

  function WantedType(bl: Info): string {
    if bl.mediaType == "" then "book" else bl.mediaType
  }

  /** The row bears the backend's name and type of the library, or the ones that stand in for an empty one. */
  predicate Names(l: Library, bl: Info) {
    && (bl.name != "" ==> l.name == bl.name) && (bl.name == "" ==> l.name == "Library " + bl.number)
    && (bl.mediaType != "" ==> l.mediaType == bl.mediaType) && (bl.mediaType == "" ==> l.mediaType == "book")
  }

  // ---------------------------------------------------------------- what Reconcile computes

  /** Rows the sync does not manage, in their order. */
  function Others(list: seq<Library>, plugin: string, n: nat): seq<Library>
    requires n <= |list|
  {
    if n == 0 then []
    else Others(list, plugin, n - 1) + (if Managed(list[n - 1], plugin) then [] else [list[n - 1]])
  }

  /** The managed row of each backend library; of several, the last. */
  function Canonical(list: seq<Library>, plugin: string, n: nat): map<int, Library>
    requires n <= |list|
  {
    if n == 0 then map[]
    else if Managed(list[n - 1], plugin) then Canonical(list, plugin, n - 1)[list[n - 1].backendID.value := list[n - 1]]
    else Canonical(list, plugin, n - 1)
  }

  function MaxSort(list: seq<Library>, n: nat): int
    requires n <= |list|
  {
    if n == 0 then -1
    else if list[n - 1].sortOrder > MaxSort(list, n - 1) then list[n - 1].sortOrder
    else MaxSort(list, n - 1)
  }

  predicate Changed(cur: Library, bl: Info) {
    cur.name != WantedName(bl) || cur.mediaType != WantedType(bl)
  }

  /** What one reported library counts as. */
  datatype Fate = New | Renamed | Same

  function FateOf(m: map<int, Library>, bl: Info): Fate {
    if bl.id !in m then New else if Changed(m[bl.id], bl) then Renamed else Same
  }

  function Count(m: map<int, Library>, infos: seq<Info>, fate: Fate, n: nat): nat
    requires n <= |infos|
  {
    if n == 0 then 0 else Count(m, infos, fate, n - 1) + (if FateOf(m, infos[n - 1]) == fate then 1 else 0)
  }

  /** The row for one backend library: only name and media type of a matched row change. */
  function WantedRow(m: map<int, Library>, bl: Info, plugin: string, sortOrder: int): Library {
    if bl.id in m then m[bl.id].(name := WantedName(bl), mediaType := WantedType(bl))
    else Library(0, WantedName(bl), WantedType(bl), plugin, Some(bl.id), true, sortOrder)
  }

  /** The row for infos[j]: new ones are numbered on from top. */
  function RowFor(m: map<int, Library>, infos: seq<Info>, plugin: string, top: int, j: nat): Library
    requires j < |infos|
  {
    WantedRow(m, infos[j], plugin, top + Count(m, infos, New, j + 1))
  }

  function WantedRows(m: map<int, Library>, infos: seq<Info>, plugin: string, top: int, n: nat): (rows: seq<Library>)
    requires n <= |infos|
    ensures |rows| == n && forall j :: 0 <= j < n ==> rows[j] == RowFor(m, infos, plugin, top, j)
  {
    seq(n, j requires 0 <= j < n => RowFor(m, infos, plugin, top, j))
  }

  function Ids(infos: seq<Info>, n: nat): set<int>
    requires n <= |infos|
  {
    if n == 0 then {} else Ids(infos, n - 1) + {infos[n - 1].id}
  }

  /** The canonical rows of a whole list. */
  function Index(list: seq<Library>, plugin: string): map<int, Library> {
    Canonical(list, plugin, |list|)
  }

  function Kept(list: seq<Library>, plugin: string): seq<Library> {
    Others(list, plugin, |list|)
  }

  function Desired(list: seq<Library>, infos: seq<Info>, plugin: string): (out: seq<Library>)
    ensures |out| == |Kept(list, plugin)| + |infos|
  {
    Kept(list, plugin) + WantedRows(Index(list, plugin), infos, plugin, MaxSort(list, |list|), |infos|)
  }

  function StatsOf(list: seq<Library>, infos: seq<Info>, plugin: string): Stats {
    var m, n := Index(list, plugin), |infos|;
    IndexSize(list, plugin, |list|);
    Stats(Count(m, infos, New, n), Count(m, infos, Renamed, n),
          |list| - |Kept(list, plugin)| - |m| + |m.Keys - Ids(infos, n)|,
          |Kept(list, plugin)| + Count(m, infos, Same, n))
  }

  lemma {:induction false} IndexSize(list: seq<Library>, plugin: string, n: nat)
    requires n <= |list|
    ensures |Others(list, plugin, n)| + |Canonical(list, plugin, n)| <= n
  {
    if n > 0 { IndexSize(list, plugin, n - 1); }
  }

  /** First loop: pass the rows of others through, index the managed ones, find the highest sort order. */
  method SplitExisting(existing: seq<Library>, plugin: string)
    returns (out: seq<Library>, managed: map<int, Library>, maxSort: int, pruned: nat, kept: nat)
    ensures out == Kept(existing, plugin) && managed == Index(existing, plugin) && maxSort == MaxSort(existing, |existing|)
    ensures kept == |out| && pruned + kept + |managed| == |existing|
  {
    out, managed, maxSort, pruned, kept := [], map[], -1, 0, 0;
    for i := 0 to |existing|
      invariant out == Others(existing, plugin, i) && kept == |out|
      invariant managed == Canonical(existing, plugin, i) && maxSort == MaxSort(existing, i)
      invariant pruned + kept + |managed| == i
    {
      var e := existing[i];
      if e.sortOrder > maxSort { maxSort := e.sortOrder; }
      if e.pluginID == plugin && e.backendID.Some? {
        if e.backendID.value in managed { pruned := pruned + 1; }
        managed := managed[e.backendID.value := e];
      } else {
        out := out + [e];
        kept := kept + 1;
      }
    }
  }

  /** One more library: which count goes up, which row is added. */
  lemma OneMoreCounted(m: map<int, Library>, infos: seq<Info>, fate: Fate, i: nat)
    requires i < |infos|
    ensures Count(m, infos, fate, i + 1) == Count(m, infos, fate, i) + (if FateOf(m, infos[i]) == fate then 1 else 0)
  {
  }

  /** Where the second loop stands after n backend libraries. */
  predicate WantedSoFar(m: map<int, Library>, infos: seq<Info>, plugin: string, top: int, n: nat,
                        rows: seq<Library>, created: nat, updated: nat, kept: nat)
    requires n <= |infos|
  {
    && rows == WantedRows(m, infos, plugin, top, n) && created == Count(m, infos, New, n)
    && updated == Count(m, infos, Renamed, n) && kept == Count(m, infos, Same, n)
  }

  lemma OneMoreSoFar(m: map<int, Library>, infos: seq<Info>, plugin: string, top: int, i: nat,
                     rows: seq<Library>, created: nat, updated: nat, kept: nat)
    requires i < |infos| && WantedSoFar(m, infos, plugin, top, i, rows, created, updated, kept)
    ensures var fate := FateOf(m, infos[i]);
            var created' := created + (if fate == New then 1 else 0);
            WantedSoFar(m, infos, plugin, top, i + 1, rows + [WantedRow(m, infos[i], plugin, top + created')], created',
                        updated + (if fate == Renamed then 1 else 0), kept + (if fate == Same then 1 else 0))
  {
    OneMoreCounted(m, infos, New, i);
    OneMoreCounted(m, infos, Renamed, i);
    OneMoreCounted(m, infos, Same, i);
  }

  method WantOne(managed: map<int, Library>, bl: Info, plugin: string, maxSort: int) returns (row: Library, fate: Fate)
    ensures fate == FateOf(managed, bl)
    ensures row == WantedRow(managed, bl, plugin, maxSort + (if fate == New then 1 else 0))
    ensures Names(row, bl)
  {
    var name := bl.name;
    if name == "" {
      name := "Library " + bl.number;
    }
    var mt := bl.mediaType;
    if mt == "" {
      mt := "book";
    }
    if bl.id in managed {
      var cur := managed[bl.id];
      var changed := cur.name != name || cur.mediaType != mt;
      return cur.(name := name, mediaType := mt), if changed then Renamed else Same;
    }
    return Library(0, name, mt, plugin, Some(bl.id), true, maxSort + 1), New;
  }

  /** Second loop: one row per backend library, matched or new. */
  method WantLibraries(managed: map<int, Library>, infos: seq<Info>, plugin: string, top: int)
    returns (rows: seq<Library>, seen: set<int>, created: nat, updated: nat, kept: nat)
    ensures rows == WantedRows(managed, infos, plugin, top, |infos|) && seen == Ids(infos, |infos|)
    ensures created == Count(managed, infos, New, |infos|)
    ensures updated == Count(managed, infos, Renamed, |infos|) && kept == Count(managed, infos, Same, |infos|)
  {
    rows, seen, created, updated, kept := [], {}, 0, 0, 0;
    var maxSort := top;
    for i := 0 to |infos|
      invariant WantedSoFar(managed, infos, plugin, top, i, rows, created, updated, kept)
      invariant seen == Ids(infos, i) && maxSort == top + created
    {
      seen := seen + {infos[i].id};
      OneMoreSoFar(managed, infos, plugin, top, i, rows, created, updated, kept);
      var row, fate := WantOne(managed, infos[i], plugin, maxSort);
      rows := rows + [row];
      match fate {
        case New =>
          maxSort := maxSort + 1;
          created := created + 1;
        case Renamed => updated := updated + 1;
        case Same => kept := kept + 1;
      }
    }
  }

  lemma SomeMember(s: set<int>)
    requires s != {}
    ensures exists k :: k in s
  {
    if forall k :: k !in s {
      assert false;
    }
  }

  lemma OneMoreGone(keys: set<int>, todo: set<int>, seen: set<int>, k: int)
    requires k in todo && todo <= keys
    ensures |(keys - (todo - {k})) - seen| == |(keys - todo) - seen| + (if k in seen then 0 else 1)
  {
    assert (keys - (todo - {k})) - seen == ((keys - todo) - seen) + (if k in seen then {} else {k});
  }

  /** Third loop: managed libraries the backend no longer has. */
  method CountGone(managed: map<int, Library>, seen: set<int>) returns (gone: nat)
    ensures gone == |managed.Keys - seen|
  {
    gone := 0;
    var keys := managed.Keys;
    var todo := keys;
    while todo != {}
      invariant todo <= keys && gone == |(keys - todo) - seen|
      decreases todo
    {
      SomeMember(todo);
      var k :| k in todo;
      OneMoreGone(keys, todo, seen, k);
      if k !in seen { gone := gone + 1; }
      todo := todo - {k};
    }
    assert keys - {} == keys;
  }

  method Reconcile(existing: seq<Library>, infos: seq<Info>, plugin: string) returns (out: seq<Library>, st: Stats)
    ensures out == Desired(existing, infos, plugin)
    ensures st == StatsOf(existing, infos, plugin)
  {
    var managed, maxSort, dups, others;
    out, managed, maxSort, dups, others := SplitExisting(existing, plugin);
    var rows, seen, created, updated, matched := WantLibraries(managed, infos, plugin, maxSort);
    out := out + rows;
    var gone := CountGone(managed, seen);
    st := Stats(created, updated, dups + gone, others + matched);
  }

  // ---------------------------------------------------------------- conservation

  lemma {:induction false} FatesAddUp(m: map<int, Library>, infos: seq<Info>, n: nat)
    requires n <= |infos|
    ensures Count(m, infos, New, n) + Count(m, infos, Renamed, n) + Count(m, infos, Same, n) == n
  {
    if n > 0 { FatesAddUp(m, infos, n - 1); }
  }

  /** Every row of the result is kept, updated or created; this needs no assumption on the ids. */
  lemma ResultIsCounted(list: seq<Library>, infos: seq<Info>, plugin: string)
    ensures var st := StatsOf(list, infos, plugin);
      |Desired(list, infos, plugin)| == st.kept + st.updated + st.created
  {
    FatesAddUp(Index(list, plugin), infos, |infos|);
  }

  predicate DistinctInfos(infos: seq<Info>) {
    forall i, j :: 0 <= i < j < |infos| ==> infos[i].id != infos[j].id
  }

  /** No managed library is reported twice among the first n. */
  predicate MatchedOnce(m: map<int, Library>, infos: seq<Info>, n: nat)
    requires n <= |infos|
  {
    forall i, j :: 0 <= i < j < n && infos[i].id in m ==> infos[i].id != infos[j].id
  }

  lemma {:induction false} IdsAre(infos: seq<Info>, id: int, n: nat)
    requires n <= |infos|
    ensures id in Ids(infos, n) <==> exists i :: 0 <= i < n && infos[i].id == id
  {
    if n > 0 { IdsAre(infos, id, n - 1); }
  }

  lemma MatchedOnceNext(m: map<int, Library>, infos: seq<Info>, n: nat)
    requires 0 < n <= |infos|
    ensures MatchedOnce(m, infos, n) <==>
      MatchedOnce(m, infos, n - 1) && (infos[n - 1].id in m ==> infos[n - 1].id !in Ids(infos, n - 1))
  {
    IdsAre(infos, infos[n - 1].id, n - 1);
  }

  lemma OneMoreMatched(keys: set<int>, ids: set<int>, id: int)
    ensures |keys * (ids + {id})| == |keys * ids| + (if id in keys && id !in ids then 1 else 0)
  {
    if id in keys && id !in ids {
      assert keys * (ids + {id}) == keys * ids + {id};
    } else {
      assert keys * (ids + {id}) == keys * ids;
    }
  }

  /** How many of the first n libraries are managed and reported for the first time. */
  function FirstMatches(keys: set<int>, infos: seq<Info>, n: nat): nat
    requires n <= |infos|
  {
    if n == 0 then 0
    else FirstMatches(keys, infos, n - 1) + (if infos[n - 1].id in keys && infos[n - 1].id !in Ids(infos, n - 1) then 1 else 0)
  }

  lemma {:induction false} FirstMatchesAreKeys(keys: set<int>, infos: seq<Info>, n: nat)
    requires n <= |infos|
    ensures |keys * Ids(infos, n)| == FirstMatches(keys, infos, n)
  {
    if n == 0 {
      assert keys * Ids(infos, n) == {};
    } else {
      FirstMatchesAreKeys(keys, infos, n - 1);
      OneMoreMatched(keys, Ids(infos, n - 1), infos[n - 1].id);
    }
  }

  lemma {:induction false} MatchedAtMost(m: map<int, Library>, infos: seq<Info>, n: nat)
    requires n <= |infos|
    ensures FirstMatches(m.Keys, infos, n) + Count(m, infos, New, n) <= n
  {
    if n > 0 { MatchedAtMost(m, infos, n - 1); }
  }

  lemma {:induction false} MatchedSize(m: map<int, Library>, infos: seq<Info>, n: nat)
    requires n <= |infos|
    ensures FirstMatches(m.Keys, infos, n) + Count(m, infos, New, n) == n <==> MatchedOnce(m, infos, n)
  {
    if n > 0 {
      MatchedSize(m, infos, n - 1);
      MatchedAtMost(m, infos, n - 1);
      MatchedOnceNext(m, infos, n);
    }
  }

  /** Rows are conserved, |existing| + Created = |out| + Pruned, exactly when the backend does not
      report a managed library twice; in particular when its ids are distinct. */
  lemma RowsAreConservedIff(list: seq<Library>, infos: seq<Info>, plugin: string)
    ensures var st := StatsOf(list, infos, plugin);
      |list| + st.created == |Desired(list, infos, plugin)| + st.pruned <==> MatchedOnce(Index(list, plugin), infos, |infos|)
    ensures DistinctInfos(infos) ==> MatchedOnce(Index(list, plugin), infos, |infos|)
  {
    var m, ids := Index(list, plugin), Ids(infos, |infos|);
    MatchedSize(m, infos, |infos|);
    FirstMatchesAreKeys(m.Keys, infos, |infos|);
    assert m.Keys == (m.Keys - ids) + (m.Keys * ids);
  }

  // ---------------------------------------------------------------- the replace

  /** The table by primary key, and the sequence behind BIGSERIAL. */
  datatype Db = Db(rows: map<int, Library>, nextID: int)

  ghost predicate DbOk(db: Db) {
    && (forall id :: id in db.rows ==> 0 < id < db.nextID && db.rows[id].id == id)
    && 0 < db.nextID
  }

  function WithType(l: Library): Library {
    if l.mediaType == "" then l.(mediaType := "book") else l
  }

  /** UPDATE of an existing id (a missing one matches nothing), INSERT ... RETURNING id otherwise. */
  function PutOne(db: Db, l: Library): Db {
    if l.id > 0 then (if l.id in db.rows then db.(rows := db.rows[l.id := WithType(l)]) else db)
    else Db(db.rows[db.nextID := WithType(l).(id := db.nextID)], db.nextID + 1)
  }

  function KeptID(db: Db, l: Library): int {
    if l.id > 0 then l.id else db.nextID
  }

  function PutAll(db: Db, libs: seq<Library>, n: nat): Db
    requires n <= |libs|
  {
    if n == 0 then db else PutOne(PutAll(db, libs, n - 1), libs[n - 1])
  }

  /** The id at which libs[i] is stored. */
  function Placed(db: Db, libs: seq<Library>, i: nat): int
    requires i < |libs|
  {
    KeptID(PutAll(db, libs, i), libs[i])
  }

  function KeptIDs(db: Db, libs: seq<Library>, n: nat): set<int>
    requires n <= |libs|
  {
    if n == 0 then {} else KeptIDs(db, libs, n - 1) + {Placed(db, libs, n - 1)}
  }

  /** The checks on a row that are made before the database is asked. */
  predicate Acceptable(libs: seq<Library>, n: nat)
    requires n <= |libs|
  {
    forall i :: 0 <= i < n ==> libs[i].name != "" && libs[i].pluginID != ""
  }

  /** Every row passes, and the database rejects no statement: the i-th row's, the delete, the commit. */
  predicate CanStore(libs: seq<Library>, failing: set<nat>) {
    Acceptable(libs, |libs|) && forall i: nat :: i <= |libs| ==> i !in failing
  }

  /** DELETE ... WHERE NOT (id = ANY(keep)), or of everything when keep is empty. */
  function Restricted(rows: map<int, Library>, keep: set<int>): map<int, Library> {
    map id | id in rows && id in keep :: rows[id]
  }

  function Result(db: Db, libs: seq<Library>): Db {
    Db(Restricted(PutAll(db, libs, |libs|).rows, KeptIDs(db, libs, |libs|)), PutAll(db, libs, |libs|).nextID)
  }

  class LibraryStore {
    var rows: map<int, Library>
    var nextID: int

    constructor ()
      ensures DbOk(Db(rows, nextID)) && rows == map[]
    {
      rows, nextID := map[], 1;
    }

    /** ReplacePortalLibraries: failing are the statements the database rejects, |libs| standing for
        the delete and the commit.  The sequence keeps what a rolled back transaction took from it. */
    method Replace(libs: seq<Library>, failing: set<nat>) returns (ok: bool)
      modifies this
      ensures ok <==> (forall i :: 0 <= i < |libs| ==> libs[i].name != "" && libs[i].pluginID != "") &&
                      (forall i: nat :: i <= |libs| ==> i !in failing)
      ensures ok ==> Db(rows, nextID) == Result(Db(old(rows), old(nextID)), libs)
      ensures !ok ==> rows == old(rows) && nextID >= old(nextID)
    {
      ghost var db := Db(rows, nextID);
      var tx := rows;
      var keep: set<int> := {};
      for i := 0 to |libs|
        invariant rows == db.rows && nextID >= db.nextID
        invariant Db(tx, nextID) == PutAll(db, libs, i) && keep == KeptIDs(db, libs, i)
        invariant Acceptable(libs, i) && forall j: nat :: j < i ==> j !in failing
      {
        var lib := libs[i];
        if lib.name == "" { return false; }
        if lib.pluginID == "" { return false; }
        if lib.mediaType == "" {
          lib := lib.(mediaType := "book");
        }
        if i in failing { return false; }
        if lib.id > 0 {
          if lib.id in tx {
            tx := tx[lib.id := lib];
          }
          keep := keep + {lib.id};
        } else {
          lib := lib.(id := nextID);
          nextID := nextID + 1;
          tx := tx[lib.id := lib];
          keep := keep + {lib.id};
        }
      }
      if |libs| in failing { return false; }
      rows := map id | id in tx && id in keep :: tx[id];
      return true;
    }

    /** Sync: a failed or empty fetch, or a failed listing, writes nothing.  list is what
        ListPortalLibraries returns. */
    method Sync(plugin: string, fetched: Option<seq<Info>>, list: Option<seq<Library>>, failing: set<nat>)
      returns (ok: bool, st: Stats)
      modifies this
      ensures ok <==> (plugin != "" && fetched.Some? && fetched.value != [] && list.Some? &&
                       CanStore(Desired(list.value, fetched.value, plugin), failing))
      ensures ok ==>
        && st == StatsOf(list.value, fetched.value, plugin)
        && Db(rows, nextID) == Result(Db(old(rows), old(nextID)), Desired(list.value, fetched.value, plugin))
      ensures !ok ==> rows == old(rows) && st == Stats(0, 0, 0, 0)
    {
      st := Stats(0, 0, 0, 0);
      if plugin == "" { return false, st; }
      if fetched.None? { return false, st; }
      if |fetched.value| == 0 { return false, st; }
      if list.None? { return false, st; }
      var desired;
      desired, st := Reconcile(list.value, fetched.value, plugin);
      ok := Replace(desired, failing);
      if !ok { st := Stats(0, 0, 0, 0); }
    }
  }

  // ---------------------------------------------------------------- what the replace does

  /** Rows to store: new ones, and existing ones each once. */
  ghost predicate Clean(db: Db, libs: seq<Library>) {
    && DbOk(db)
    && (forall i :: 0 <= i < |libs| ==> libs[i].id == 0 || libs[i].id in db.rows)
    && (forall i, j :: 0 <= i < j < |libs| && libs[i].id != 0 ==> libs[i].id != libs[j].id)
  }

  function Stored(db: Db, libs: seq<Library>, i: nat): Library
    requires i < |libs|
  {
    WithType(libs[i]).(id := Placed(db, libs, i))
  }

  lemma {:induction false} SequenceGrows(db: Db, libs: seq<Library>, i: nat, n: nat)
    requires i <= n <= |libs|
    ensures PutAll(db, libs, i).nextID <= PutAll(db, libs, n).nextID
    decreases n
  {
    if i < n { SequenceGrows(db, libs, i, n - 1); }
  }

  lemma PlacedIsFresh(db: Db, libs: seq<Library>, i: nat)
    requires Clean(db, libs) && i < |libs|
    ensures libs[i].id == 0 ==> db.nextID <= Placed(db, libs, i)
    ensures libs[i].id != 0 ==> Placed(db, libs, i) == libs[i].id < db.nextID
    ensures Placed(db, libs, i) < PutAll(db, libs, i + 1).nextID
  {
    SequenceGrows(db, libs, 0, i);
  }

  lemma PlacedIsInjective(db: Db, libs: seq<Library>, i: nat, j: nat)
    requires Clean(db, libs) && i < j < |libs|
    ensures Placed(db, libs, i) != Placed(db, libs, j)
  {
    PlacedIsFresh(db, libs, i);
    PlacedIsFresh(db, libs, j);
    SequenceGrows(db, libs, i + 1, j);
  }

  lemma {:induction false} KeptAre(db: Db, libs: seq<Library>, id: int, n: nat)
    requires n <= |libs|
    ensures id in KeptIDs(db, libs, n) <==> exists i :: 0 <= i < n && Placed(db, libs, i) == id
  {
    if n > 0 { KeptAre(db, libs, id, n - 1); }
  }

  lemma {:induction false} OldRowsStay(db: Db, libs: seq<Library>, id: int, n: nat)
    requires n <= |libs| && id in db.rows
    ensures id in PutAll(db, libs, n).rows
  {
    if n > 0 { OldRowsStay(db, libs, id, n - 1); }
  }

  lemma {:induction false} PutAllStores(db: Db, libs: seq<Library>, i: nat, n: nat)
    requires Clean(db, libs) && i < n <= |libs|
    ensures Placed(db, libs, i) in PutAll(db, libs, n).rows && PutAll(db, libs, n).rows[Placed(db, libs, i)] == Stored(db, libs, i)
  {
    if i < n - 1 {
      PutAllStores(db, libs, i, n - 1);
      PlacedIsInjective(db, libs, i, n - 1);
    } else if libs[i].id > 0 {
      OldRowsStay(db, libs, libs[i].id, i);
    }
  }

  /** After a successful replace the table holds exactly the given rows, each at its place. */
  lemma ResultIs(db: Db, libs: seq<Library>)
    requires Clean(db, libs)
    ensures forall i {:trigger Placed(db, libs, i)} :: 0 <= i < |libs| ==>
      Placed(db, libs, i) in Result(db, libs).rows && Result(db, libs).rows[Placed(db, libs, i)] == Stored(db, libs, i)
    ensures forall id :: id in Result(db, libs).rows ==> exists i :: 0 <= i < |libs| && Placed(db, libs, i) == id
    ensures DbOk(Result(db, libs))
  {
    forall i: nat | i < |libs|
      ensures Placed(db, libs, i) in Result(db, libs).rows && Result(db, libs).rows[Placed(db, libs, i)] == Stored(db, libs, i)
      ensures 0 < Placed(db, libs, i) < Result(db, libs).nextID
    {
      PutAllStores(db, libs, i, |libs|);
      KeptAre(db, libs, Placed(db, libs, i), |libs|);
      PlacedIsFresh(db, libs, i);
      SequenceGrows(db, libs, i + 1, |libs|);
    }
    forall id | id in Result(db, libs).rows ensures exists i :: 0 <= i < |libs| && Placed(db, libs, i) == id {
      KeptAre(db, libs, id, |libs|);
    }
    SequenceGrows(db, libs, 0, |libs|);
  }

  // ---------------------------------------------------------------- what Reconcile asks for

  /** ListPortalLibraries(false): every row once, by sort order and then id. */
  ghost predicate IsListing(rows: map<int, Library>, list: seq<Library>) {
    && (forall i :: 0 <= i < |list| ==> list[i].id in rows && rows[list[i].id] == list[i])
    && (forall i, j :: 0 <= i < j < |list| ==> list[i].id != list[j].id && list[i].sortOrder <= list[j].sortOrder)
    && (forall i, j :: 0 <= i < j < |list| && list[i].sortOrder == list[j].sortOrder ==> list[i].id < list[j].id)
    && (forall id :: id in rows ==> exists i :: 0 <= i < |list| && list[i].id == id)
  }

  lemma InListing(rows: map<int, Library>, list: seq<Library>, l: Library)
    requires IsListing(rows, list)
    ensures l in list <==> l.id in rows && rows[l.id] == l
  {
  }

  lemma {:induction false} OthersAre(list: seq<Library>, plugin: string, l: Library, n: nat)
    requires n <= |list|
    ensures l in Others(list, plugin, n) <==> !Managed(l, plugin) && exists i :: 0 <= i < n && list[i] == l
  {
    if n > 0 { OthersAre(list, plugin, l, n - 1); }
  }

  lemma {:induction false} OthersDistinct(list: seq<Library>, plugin: string, n: nat)
    requires n <= |list| && forall i, j :: 0 <= i < j < n ==> list[i].id != list[j].id
    ensures forall i, j :: 0 <= i < j < |Others(list, plugin, n)| ==> Others(list, plugin, n)[i].id != Others(list, plugin, n)[j].id
  {
    if n > 0 {
      OthersDistinct(list, plugin, n - 1);
      var others := Others(list, plugin, n - 1);
      forall i | 0 <= i < |others| ensures others[i].id != list[n - 1].id {
        assert others[i] in others;
        OthersAre(list, plugin, others[i], n - 1);
      }
    }
  }

  lemma {:induction false} CanonicalIs(list: seq<Library>, plugin: string, k: int, n: nat)
    requires n <= |list|
    ensures k in Canonical(list, plugin, n) ==>
      var l := Canonical(list, plugin, n)[k]; Managed(l, plugin) && l.backendID == Some(k) && exists i :: 0 <= i < n && list[i] == l
    ensures (exists i :: 0 <= i < n && Managed(list[i], plugin) && list[i].backendID == Some(k)) ==> k in Canonical(list, plugin, n)
  {
    if n > 0 { CanonicalIs(list, plugin, k, n - 1); }
  }

  lemma {:induction false} NewCountGrows(m: map<int, Library>, infos: seq<Info>, i: nat, n: nat)
    requires i <= n <= |infos|
    ensures Count(m, infos, New, i) <= Count(m, infos, New, n)
    ensures i < n && infos[n - 1].id !in m ==> Count(m, infos, New, i) < Count(m, infos, New, n)
    decreases n
  {
    if i < n { NewCountGrows(m, infos, i, n - 1); }
  }

  lemma {:induction false} MaxSortIsMax(list: seq<Library>, i: nat, n: nat)
    requires i < n <= |list|
    ensures list[i].sortOrder <= MaxSort(list, n)
  {
    if i < n - 1 { MaxSortIsMax(list, i, n - 1); }
  }

  /** Where the row of infos[j] stands in the desired list. */
  function Slot(list: seq<Library>, plugin: string, j: nat): nat {
    |Kept(list, plugin)| + j
  }

  lemma AppendRows(a: seq<Library>, m: map<int, Library>, infos: seq<Info>, plugin: string, top: int, j: nat)
    requires j < |infos|
    ensures (a + WantedRows(m, infos, plugin, top, |infos|))[|a| + j] == RowFor(m, infos, plugin, top, j)
  {
  }

  lemma DesiredAt(list: seq<Library>, infos: seq<Info>, plugin: string, j: nat)
    requires j < |infos|
    ensures Desired(list, infos, plugin)[Slot(list, plugin, j)] ==
      RowFor(Index(list, plugin), infos, plugin, MaxSort(list, |list|), j)
  {
    AppendRows(Kept(list, plugin), Index(list, plugin), infos, plugin, MaxSort(list, |list|), j);
  }

  /** The row l is one of the others, as the table has it. */
  predicate IsOther(db: Db, l: Library, plugin: string) {
    !Managed(l, plugin) && l.id in db.rows && db.rows[l.id] == l
  }

  /** The row l is to stand for bl: new, or with the id of a managed row of that backend library. */
  predicate StandsFor(db: Db, l: Library, bl: Info, plugin: string) {
    && Managed(l, plugin) && l.backendID == Some(bl.id) && Names(l, bl)
    && (l.id == 0 || (l.id in db.rows && Managed(db.rows[l.id], plugin) && db.rows[l.id].backendID == l.backendID))
  }

  lemma DesiredOther(db: Db, list: seq<Library>, infos: seq<Info>, plugin: string, i: nat)
    requires DbOk(db) && IsListing(db.rows, list) && i < |Kept(list, plugin)|
    ensures IsOther(db, Desired(list, infos, plugin)[i], plugin)
  {
    var l := Kept(list, plugin)[i];
    assert l in Kept(list, plugin);
    OthersAre(list, plugin, l, |list|);
    InListing(db.rows, list, l);
  }

  lemma DesiredStandsFor(db: Db, list: seq<Library>, infos: seq<Info>, plugin: string, j: nat)
    requires DbOk(db) && IsListing(db.rows, list) && j < |infos|
    ensures StandsFor(db, Desired(list, infos, plugin)[Slot(list, plugin, j)], infos[j], plugin)
  {
    DesiredAt(list, infos, plugin, j);
    var m := Index(list, plugin);
    if infos[j].id in m {
      CanonicalIs(list, plugin, infos[j].id, |list|);
      InListing(db.rows, list, m[infos[j].id]);
    }
  }

  lemma DesiredIsClean(db: Db, list: seq<Library>, infos: seq<Info>, plugin: string)
    requires DbOk(db) && IsListing(db.rows, list) && DistinctInfos(infos)
    ensures Clean(db, Desired(list, infos, plugin))
  {
    var libs, others := Desired(list, infos, plugin), Kept(list, plugin);
    OthersDistinct(list, plugin, |list|);
    forall i | 0 <= i < |others| ensures IsOther(db, libs[i], plugin) && libs[i] == others[i] { DesiredOther(db, list, infos, plugin, i); }
    forall i | |others| <= i < |libs| ensures StandsFor(db, libs[i], infos[i - |others|], plugin) {
      DesiredStandsFor(db, list, infos, plugin, i - |others|);
    }
  }

  // ---------------------------------------------------------------- what a sync promises

  /** One successful sync: a listing of the table, the backend's libraries, and the table afterwards. */
  ghost predicate Synced(db: Db, list: seq<Library>, infos: seq<Info>, plugin: string, db': Db) {
    && DbOk(db) && IsListing(db.rows, list) && DistinctInfos(infos)
    && db' == Result(db, Desired(list, infos, plugin))
  }

  /** The row that stands for infos[j] after the sync. */
  function Home(db: Db, list: seq<Library>, infos: seq<Info>, plugin: string, j: nat): int
    requires j < |infos|
  {
    Placed(db, Desired(list, infos, plugin), Slot(list, plugin, j))
  }

  lemma HomeIs(db: Db, list: seq<Library>, infos: seq<Info>, plugin: string, db': Db, j: nat)
    requires Synced(db, list, infos, plugin, db') && j < |infos|
    ensures var id, l := Home(db, list, infos, plugin, j), Desired(list, infos, plugin)[Slot(list, plugin, j)];
      && id in db'.rows && db'.rows[id] == l.(id := id)
      && (l.id != 0 ==> id == l.id) && (l.id == 0 ==> id >= db.nextID)
  {
    var libs, s := Desired(list, infos, plugin), Slot(list, plugin, j);
    DesiredIsClean(db, list, infos, plugin);
    ResultIs(db, libs);
    DesiredStandsFor(db, list, infos, plugin, j);
    PlacedIsFresh(db, libs, s);
    assert db'.rows[Placed(db, libs, s)] == Stored(db, libs, s);
  }

  /** Every backend library has its row, with its name and type. */
  lemma SyncGivesEachLibraryItsRow(db: Db, list: seq<Library>, infos: seq<Info>, plugin: string, db': Db, j: nat)
    requires Synced(db, list, infos, plugin, db') && j < |infos|
    ensures var id, bl := Home(db, list, infos, plugin, j), infos[j];
      && id in db'.rows && var l := db'.rows[id];
      && l.pluginID == plugin && l.backendID == Some(bl.id)
      && l.name == (if bl.name != "" then bl.name else "Library " + bl.number)
      && l.mediaType == (if bl.mediaType != "" then bl.mediaType else "book")
  {
    HomeIs(db, list, infos, plugin, db', j);
    DesiredStandsFor(db, list, infos, plugin, j);
  }

  /** Row id is one that the sync manages for that backend library. */
  predicate RowOf(rows: map<int, Library>, id: int, backendID: int, plugin: string) {
    id in rows && rows[id].pluginID == plugin && rows[id].backendID == Some(backendID)
  }

  ghost predicate Known(rows: map<int, Library>, backendID: int, plugin: string) {
    exists id :: RowOf(rows, id, backendID, plugin)
  }

  lemma IndexedIffKnown(rows: map<int, Library>, list: seq<Library>, plugin: string, k: int)
    requires IsListing(rows, list) && forall id :: id in rows ==> rows[id].id == id
    ensures k in Index(list, plugin) <==> Known(rows, k, plugin)
    ensures k in Index(list, plugin) ==> var l := Index(list, plugin)[k]; RowOf(rows, l.id, k, plugin) && rows[l.id] == l
  {
    CanonicalIs(list, plugin, k, |list|);
    if k in Index(list, plugin) {
      var l := Index(list, plugin)[k];
      assert l in list;
      InListing(rows, list, l);
      assert RowOf(rows, l.id, k, plugin);
    } else if id :| RowOf(rows, id, k, plugin) {
      InListing(rows, list, rows[id]);
      var i :| 0 <= i < |list| && list[i] == rows[id];
      assert Managed(list[i], plugin);
    }
  }

  /** Of several rows for one backend library the canonical one is listed last. */
  lemma {:induction false} CanonicalIsLast(list: seq<Library>, plugin: string, k: int, i: nat, n: nat)
    requires i < n <= |list| && Managed(list[i], plugin) && list[i].backendID == Some(k)
    ensures k in Canonical(list, plugin, n) && exists j :: i <= j < n && list[j] == Canonical(list, plugin, n)[k]
  {
    if i < n - 1 { CanonicalIsLast(list, plugin, k, i, n - 1); }
  }

  predicate NotAfter(a: Library, b: Library) {
    a.sortOrder < b.sortOrder || (a.sortOrder == b.sortOrder && a.id <= b.id)
  }

  lemma CanonicalComesLast(rows: map<int, Library>, list: seq<Library>, plugin: string, k: int, id: int)
    requires IsListing(rows, list) && (forall other :: other in rows ==> rows[other].id == other) && RowOf(rows, id, k, plugin)
    ensures k in Index(list, plugin) && NotAfter(rows[id], Index(list, plugin)[k])
  {
    InListing(rows, list, rows[id]);
    var i :| 0 <= i < |list| && list[i] == rows[id];
    CanonicalIsLast(list, plugin, k, i, |list|);
  }

  /** A matched row keeps its id, its enabled flag and its sort order; of several rows for one backend
      library it is the last one in the table's order. */
  lemma SyncKeepsMatchedRow(db: Db, list: seq<Library>, infos: seq<Info>, plugin: string, db': Db, j: nat)
    requires Synced(db, list, infos, plugin, db') && j < |infos| && Known(db.rows, infos[j].id, plugin)
    ensures var id, bl := Home(db, list, infos, plugin, j), infos[j];
      && RowOf(db.rows, id, bl.id, plugin) && id in db'.rows
      && db'.rows[id] == db.rows[id].(name := if bl.name != "" then bl.name else "Library " + bl.number,
                                      mediaType := if bl.mediaType != "" then bl.mediaType else "book")
      && (forall other :: RowOf(db.rows, other, bl.id, plugin) ==> NotAfter(db.rows[other], db.rows[id]))
  {
    HomeIs(db, list, infos, plugin, db', j);
    DesiredAt(list, infos, plugin, j);
    IndexedIffKnown(db.rows, list, plugin, infos[j].id);
    forall other | RowOf(db.rows, other, infos[j].id, plugin)
      ensures NotAfter(db.rows[other], db.rows[Home(db, list, infos, plugin, j)])
    {
      CanonicalComesLast(db.rows, list, plugin, infos[j].id, other);
    }
  }

  lemma OldRowsSortBelow(rows: map<int, Library>, list: seq<Library>)
    requires IsListing(rows, list)
    ensures forall id :: id in rows ==> rows[id].sortOrder <= MaxSort(list, |list|)
  {
    forall id | id in rows ensures rows[id].sortOrder <= MaxSort(list, |list|) {
      var i :| 0 <= i < |list| && list[i].id == id;
      MaxSortIsMax(list, i, |list|);
    }
  }

  lemma NewRowSort(db: Db, list: seq<Library>, infos: seq<Info>, plugin: string, db': Db, j: nat)
    requires Synced(db, list, infos, plugin, db') && j < |infos| && infos[j].id !in Index(list, plugin)
    ensures var id := Home(db, list, infos, plugin, j);
      id in db'.rows && db'.rows[id].sortOrder == MaxSort(list, |list|) + Count(Index(list, plugin), infos, New, j + 1)
  {
    HomeIs(db, list, infos, plugin, db', j);
    DesiredAt(list, infos, plugin, j);
  }

  lemma {:induction false} MaxSortIsOne(list: seq<Library>, n: nat)
    requires n <= |list|
    ensures MaxSort(list, n) >= -1
    ensures MaxSort(list, n) == -1 || exists i :: 0 <= i < n && list[i].sortOrder == MaxSort(list, n)
  {
    if n > 0 { MaxSortIsOne(list, n - 1); }
  }

  /** The highest sort order of the table, or -1 when there is none above it. */
  ghost predicate IsTop(rows: map<int, Library>, top: int) {
    && top >= -1 && (forall id :: id in rows ==> rows[id].sortOrder <= top)
    && (top == -1 || exists id :: id in rows && rows[id].sortOrder == top)
  }

  lemma MaxSortIsTop(rows: map<int, Library>, list: seq<Library>)
    requires IsListing(rows, list)
    ensures IsTop(rows, MaxSort(list, |list|))
  {
    OldRowsSortBelow(rows, list);
    MaxSortIsOne(list, |list|);
  }

  /** The libraries among the first n that have no row yet. */
  ghost function NewOnes(rows: map<int, Library>, infos: seq<Info>, plugin: string, n: nat): set<int>
    requires n <= |infos|
  {
    set i | 0 <= i < n && !Known(rows, infos[i].id, plugin)
  }

  lemma OneMoreNew(rows: map<int, Library>, infos: seq<Info>, plugin: string, n: nat)
    requires n < |infos|
    ensures |NewOnes(rows, infos, plugin, n + 1)| == |NewOnes(rows, infos, plugin, n)| + if Known(rows, infos[n].id, plugin) then 0 else 1
  {
    assert NewOnes(rows, infos, plugin, n + 1) == NewOnes(rows, infos, plugin, n) + if Known(rows, infos[n].id, plugin) then {} else {n};
  }

  lemma {:induction false} NewOnesCounted(rows: map<int, Library>, list: seq<Library>, infos: seq<Info>, plugin: string, n: nat)
    requires n <= |infos| && IsListing(rows, list) && forall id :: id in rows ==> rows[id].id == id
    ensures Count(Index(list, plugin), infos, New, n) == |NewOnes(rows, infos, plugin, n)|
  {
    if n > 0 {
      var last := n - 1;
      NewOnesCounted(rows, list, infos, plugin, last);
      IndexedIffKnown(rows, list, plugin, infos[last].id);
      OneMoreNew(rows, infos, plugin, last);
    }
  }

  /** An unmatched library gets a new row, enabled, and numbered on from the highest sort order there was,
      in the backend's order. */
  lemma SyncAppendsNewRow(db: Db, list: seq<Library>, infos: seq<Info>, plugin: string, db': Db, j: nat)
    requires Synced(db, list, infos, plugin, db') && j < |infos| && !Known(db.rows, infos[j].id, plugin)
    ensures var id := Home(db, list, infos, plugin, j);
      && id !in db.rows && id in db'.rows && db'.rows[id].enabled
      && (forall top :: IsTop(db.rows, top) ==>
            db'.rows[id].sortOrder == top + |NewOnes(db.rows, infos, plugin, j + 1)|)
      && (forall before :: before in db.rows ==> db.rows[before].sortOrder < db'.rows[id].sortOrder)
  {
    HomeIs(db, list, infos, plugin, db', j);
    DesiredAt(list, infos, plugin, j);
    IndexedIffKnown(db.rows, list, plugin, infos[j].id);
    MaxSortIsTop(db.rows, list);
    NewOnesCounted(db.rows, list, infos, plugin, j + 1);
    assert j in NewOnes(db.rows, infos, plugin, j + 1);
  }

  /** The entry of the desired list that a row afterwards comes from. */
  lemma OriginOf(db: Db, list: seq<Library>, infos: seq<Info>, plugin: string, db': Db, id: int) returns (i: nat)
    requires Synced(db, list, infos, plugin, db') && id in db'.rows
    ensures i < |Desired(list, infos, plugin)| && Placed(db, Desired(list, infos, plugin), i) == id
    ensures db'.rows[id] == Stored(db, Desired(list, infos, plugin), i)
  {
    var libs := Desired(list, infos, plugin);
    DesiredIsClean(db, list, infos, plugin);
    ResultIs(db, libs);
    i :| 0 <= i < |libs| && Placed(db, libs, i) == id;
  }

  /** Nothing else is managed: every managed row afterwards is the row of one backend library. */
  lemma SyncLeavesNoOtherManaged(db: Db, list: seq<Library>, infos: seq<Info>, plugin: string, db': Db, id: int) returns (j: nat)
    requires Synced(db, list, infos, plugin, db') && id in db'.rows && Managed(db'.rows[id], plugin)
    ensures j < |infos| && id == Home(db, list, infos, plugin, j)
  {
    var n := |Kept(list, plugin)|;
    var i := OriginOf(db, list, infos, plugin, db', id);
    if i < n { DesiredOther(db, list, infos, plugin, i); }
    j := i - n;
  }

  /** Rows of other backends and operator-made rows stay, unchanged but for an empty media type, which
      the replace turns into "book". */
  lemma SyncLeavesOthersAlone(db: Db, list: seq<Library>, infos: seq<Info>, plugin: string, db': Db, id: int)
    requires Synced(db, list, infos, plugin, db') && id in db.rows && !Managed(db.rows[id], plugin)
    ensures id in db'.rows
    ensures db'.rows[id] == db.rows[id].(mediaType := if db.rows[id].mediaType == "" then "book" else db.rows[id].mediaType)
    ensures db'.rows[id] == db.rows[id] <==> db.rows[id].mediaType != ""
  {
    var libs, others := Desired(list, infos, plugin), Kept(list, plugin);
    DesiredIsClean(db, list, infos, plugin);
    ResultIs(db, libs);
    InListing(db.rows, list, db.rows[id]);
    OthersAre(list, plugin, db.rows[id], |list|);
    var i :| 0 <= i < |others| && others[i] == db.rows[id];
    assert libs[i] == others[i];
    PlacedIsFresh(db, libs, i);
    assert db'.rows[Placed(db, libs, i)] == Stored(db, libs, i);
  }

  lemma OthersKeepTheirIds(db: Db, list: seq<Library>, infos: seq<Info>, plugin: string, i: nat)
    requires DbOk(db) && IsListing(db.rows, list) && DistinctInfos(infos) && i < |Kept(list, plugin)|
    ensures var id := Placed(db, Desired(list, infos, plugin), i); id in db.rows && !Managed(db.rows[id], plugin)
  {
    DesiredIsClean(db, list, infos, plugin);
    DesiredOther(db, list, infos, plugin, i);
    PlacedIsFresh(db, Desired(list, infos, plugin), i);
  }

  /** And the sync makes no row that it does not manage. */
  lemma SyncMakesNoOthers(db: Db, list: seq<Library>, infos: seq<Info>, plugin: string, db': Db, id: int)
    requires Synced(db, list, infos, plugin, db') && id in db'.rows && !Managed(db'.rows[id], plugin)
    ensures id in db.rows && !Managed(db.rows[id], plugin)
  {
    var i := OriginOf(db, list, infos, plugin, db', id);
    if i < |Kept(list, plugin)| {
      OthersKeepTheirIds(db, list, infos, plugin, i);
    } else {
      DesiredStandsFor(db, list, infos, plugin, i - |Kept(list, plugin)|);
    }
  }

  /** Two backend libraries never share a row... */
  lemma SyncKeepsLibrariesApart(db: Db, list: seq<Library>, infos: seq<Info>, plugin: string, db': Db, i: nat, j: nat)
    requires Synced(db, list, infos, plugin, db') && i < j < |infos|
    ensures Home(db, list, infos, plugin, i) != Home(db, list, infos, plugin, j)
  {
    DesiredIsClean(db, list, infos, plugin);
    PlacedIsInjective(db, Desired(list, infos, plugin), Slot(list, plugin, i), Slot(list, plugin, j));
  }

  /** ...and new rows are sorted as the backend lists them, so two never share a sort order. */
  lemma NewRowsSortApart(db: Db, list: seq<Library>, infos: seq<Info>, plugin: string, db': Db, i: nat, j: nat)
    requires Synced(db, list, infos, plugin, db') && i < j < |infos|
    requires !Known(db.rows, infos[i].id, plugin) && !Known(db.rows, infos[j].id, plugin)
    ensures var a, b := Home(db, list, infos, plugin, i), Home(db, list, infos, plugin, j);
      a in db'.rows && b in db'.rows && db'.rows[a].sortOrder < db'.rows[b].sortOrder
  {
    var m := Index(list, plugin);
    IndexedIffKnown(db.rows, list, plugin, infos[i].id);
    IndexedIffKnown(db.rows, list, plugin, infos[j].id);
    NewCountGrows(m, infos, i + 1, j + 1);
    assert Count(m, infos, New, i + 1) < Count(m, infos, New, j + 1);
    NewRowSort(db, list, infos, plugin, db', i);
    NewRowSort(db, list, infos, plugin, db', j);
  }

  // ---------------------------------------------------------------- no sync is refused for its rows

  /** Every row of the table passed the checks of the replace. */
  predicate AllNamed(rows: map<int, Library>) {
    forall id :: id in rows ==> rows[id].name != "" && rows[id].pluginID != ""
  }

  /** On a table of named rows a replace of the desired rows fails only if the database does, and then the
      table is again one of named rows; so only the guards and the database can stop a sync. */
  lemma OnlyTheDatabaseStopsASync(db: Db, list: seq<Library>, infos: seq<Info>, plugin: string, db': Db, failing: set<nat>)
    requires Synced(db, list, infos, plugin, db') && AllNamed(db.rows) && plugin != ""
    ensures var libs := Desired(list, infos, plugin);
      CanStore(libs, failing) <==> forall i: nat :: i <= |libs| ==> i !in failing
    ensures AllNamed(db'.rows)
  {
    var libs, n := Desired(list, infos, plugin), |Kept(list, plugin)|;
    forall i | 0 <= i < |libs| ensures libs[i].name != "" && libs[i].pluginID != "" {
      if i < n {
        DesiredOther(db, list, infos, plugin, i);
      } else {
        assert Slot(list, plugin, i - n) == i;
        DesiredStandsFor(db, list, infos, plugin, i - n);
      }
    }
    forall id | id in db'.rows ensures db'.rows[id].name != "" && db'.rows[id].pluginID != "" {
      var i := OriginOf(db, list, infos, plugin, db', id);
    }
  }

  lemma {:induction false} FirstOf(rows: map<int, Library>, ids: set<int>) returns (first: int)
    requires ids != {} && ids <= rows.Keys
    ensures first in ids && forall id :: id in ids ==> NotAfter(rows[first], rows[id])
    decreases |ids|
  {
    SomeMember(ids);
    first :| first in ids;
    if ids != {first} {
      var best := FirstOf(rows, ids - {first});
      if !NotAfter(rows[first], rows[best]) { first := best; }
    }
  }

  lemma {:induction false} ListRows(rows: map<int, Library>, ids: set<int>) returns (list: seq<Library>)
    requires ids <= rows.Keys && forall id :: id in rows ==> rows[id].id == id
    ensures forall i :: 0 <= i < |list| ==> list[i].id in ids && rows[list[i].id] == list[i]
    ensures forall i, j :: 0 <= i < j < |list| ==> list[i].id != list[j].id && NotAfter(list[i], list[j])
    ensures forall id :: id in ids ==> exists i :: 0 <= i < |list| && list[i].id == id
    decreases |ids|
  {
    list := [];
    if ids != {} {
      var first := FirstOf(rows, ids);
      var rest := ListRows(rows, ids - {first});
      list := [rows[first]] + rest;
      forall id | id in ids ensures exists i :: 0 <= i < |list| && list[i].id == id {
        if id == first {
          assert list[0].id == id;
        } else {
          assert id in ids - {first};
          var i :| 0 <= i < |rest| && rest[i].id == id;
          assert list[i + 1].id == id;
        }
      }
    }
  }

  /** Every table has its listing, so every table can be synced. */
  lemma EveryTableIsListed(db: Db) returns (list: seq<Library>)
    requires DbOk(db)
    ensures IsListing(db.rows, list)
  {
    list := ListRows(db.rows, db.rows.Keys);
  }

  // ---------------------------------------------------------------- an older listing

  /** A listing of some earlier state of the table: other writers may have come in between. */
  predicate OlderListing(list: seq<Library>) {
    && (forall i :: 0 <= i < |list| ==> list[i].id > 0)
    && (forall i, j :: 0 <= i < j < |list| ==> list[i].id != list[j].id)
  }

  predicate ListedAs(list: seq<Library>, l: Library) {
    exists i :: 0 <= i < |list| && list[i] == l
  }

  /** The k-th desired row is an unmanaged row of the listing, or has the id of a managed one, or none. */
  lemma DesiredIds(list: seq<Library>, infos: seq<Info>, plugin: string, k: nat)
    requires k < |Desired(list, infos, plugin)|
    ensures var l := Desired(list, infos, plugin)[k];
      if k < |Kept(list, plugin)| then !Managed(l, plugin) && ListedAs(list, l)
      else l.id == 0 || exists i :: 0 <= i < |list| && list[i].id == l.id && Managed(list[i], plugin)
  {
    if k < |Kept(list, plugin)| {
      var l := Kept(list, plugin)[k];
      assert l in Kept(list, plugin);
      OthersAre(list, plugin, l, |list|);
    } else {
      var j := k - |Kept(list, plugin)|;
      assert Slot(list, plugin, j) == k;
      DesiredAt(list, infos, plugin, j);
      CanonicalIs(list, plugin, infos[j].id, |list|);
    }
  }

  /** Where an unmanaged listed row stands in the desired rows: there and nowhere else. */
  lemma UnmanagedSlot(list: seq<Library>, infos: seq<Info>, plugin: string, i: nat) returns (k: nat)
    requires OlderListing(list) && i < |list| && !Managed(list[i], plugin)
    ensures k < |Desired(list, infos, plugin)| && Desired(list, infos, plugin)[k] == list[i]
    ensures forall n :: 0 <= n < |Desired(list, infos, plugin)| && n != k ==> Desired(list, infos, plugin)[n].id != list[i].id
  {
    var libs := Desired(list, infos, plugin);
    OthersAre(list, plugin, list[i], |list|);
    k := IndexIn(Kept(list, plugin), list[i]);
    OthersDistinct(list, plugin, |list|);
    forall n | 0 <= n < |libs| && n != k ensures libs[n].id != list[i].id {
      DesiredIds(list, infos, plugin, n);
      if n < |Kept(list, plugin)| { assert libs[n] == Kept(list, plugin)[n] && libs[k] == Kept(list, plugin)[k]; }
    }
  }

  /** An existing id is kept exactly when the desired rows name it. */
  lemma KeptIffNamed(db: Db, libs: seq<Library>, id: int)
    requires DbOk(db) && id in db.rows && forall k :: 0 <= k < |libs| ==> libs[k].id >= 0
    ensures id in Result(db, libs).rows <==> exists k :: 0 <= k < |libs| && libs[k].id == id
  {
    OldRowsStay(db, libs, id, |libs|);
    KeptAre(db, libs, id, |libs|);
    forall k | 0 <= k < |libs| ensures Placed(db, libs, k) == id <==> libs[k].id == id { SequenceGrows(db, libs, 0, k); }
  }

  /** The last row stored under an existing id is the one that stays. */
  lemma {:induction false} LastWriteStays(db: Db, libs: seq<Library>, k: nat, n: nat)
    requires DbOk(db) && k < n <= |libs| && libs[k].id > 0 && libs[k].id in db.rows
    requires forall m :: k < m < n ==> libs[m].id != libs[k].id
    ensures libs[k].id in PutAll(db, libs, n).rows && PutAll(db, libs, n).rows[libs[k].id] == WithType(libs[k])
  {
    OldRowsStay(db, libs, libs[k].id, n - 1);
    SequenceGrows(db, libs, 0, n - 1);
    if k < n - 1 { LastWriteStays(db, libs, k, n - 1); }
  }

  /** List and replace are no transaction.  A row that was unmanaged, if it was there at all, when the
      sync listed survives exactly when it was there, and then as it was listed: a row that the operator
      adds in between is deleted, and what the operator changes in between is lost. */
  lemma LateRowSurvivesIffListed(db: Db, list: seq<Library>, infos: seq<Info>, plugin: string, id: int)
    requires DbOk(db) && OlderListing(list) && id in db.rows
    requires forall i :: 0 <= i < |list| && list[i].id == id ==> !Managed(list[i], plugin)
    ensures id in Result(db, Desired(list, infos, plugin)).rows <==> exists i :: 0 <= i < |list| && list[i].id == id
    ensures forall i :: 0 <= i < |list| && list[i].id == id ==>
      && id in Result(db, Desired(list, infos, plugin)).rows
      && Result(db, Desired(list, infos, plugin)).rows[id] ==
           list[i].(mediaType := if list[i].mediaType == "" then "book" else list[i].mediaType)
  {
    var libs := Desired(list, infos, plugin);
    forall k | 0 <= k < |libs| ensures libs[k].id >= 0 && (libs[k].id == id ==> exists i :: 0 <= i < |list| && list[i].id == id) {
      DesiredIds(list, infos, plugin, k);
    }
    KeptIffNamed(db, libs, id);
    forall i | 0 <= i < |list| && list[i].id == id
      ensures id in Result(db, libs).rows && Result(db, libs).rows[id] == WithType(list[i])
    {
      var k := UnmanagedSlot(list, infos, plugin, i);
      LastWriteStays(db, libs, k, |libs|);
    }
  }

  // ---------------------------------------------------------------- the second sync

  predicate ShownAs(l: Library, bl: Info, plugin: string) {
    Managed(l, plugin) && l.backendID == Some(bl.id) && Names(l, bl)
  }

  /** The managed rows are exactly those at home, one per backend library, with the wanted name and
      type; and no row lacks a media type. */
  ghost predicate InStep(db: Db, infos: seq<Info>, plugin: string, home: seq<int>) {
    && DbOk(db) && DistinctInfos(infos) && |home| == |infos|
    && (forall j :: 0 <= j < |home| ==> home[j] in db.rows && ShownAs(db.rows[home[j]], infos[j], plugin))
    && (forall id :: id in db.rows && Managed(db.rows[id], plugin) ==> id in home)
    && (forall id :: id in db.rows ==> db.rows[id].mediaType != "")
  }

  /** A sync leaves no row without a media type. */
  lemma SyncLeavesTypes(db: Db, list: seq<Library>, infos: seq<Info>, plugin: string, db': Db, id: int)
    requires Synced(db, list, infos, plugin, db') && id in db'.rows
    ensures db'.rows[id].mediaType != ""
  {
    var i := OriginOf(db, list, infos, plugin, db', id);
  }

  lemma SyncBringsIntoStep(db: Db, list: seq<Library>, infos: seq<Info>, plugin: string, db': Db) returns (home: seq<int>)
    requires Synced(db, list, infos, plugin, db')
    ensures InStep(db', infos, plugin, home)
  {
    home := seq(|infos|, j requires 0 <= j < |infos| => Home(db, list, infos, plugin, j));
    assert DbOk(db') by {
      DesiredIsClean(db, list, infos, plugin);
      ResultIs(db, Desired(list, infos, plugin));
    }
    forall j: nat | j < |infos| ensures home[j] in db'.rows && ShownAs(db'.rows[home[j]], infos[j], plugin) {
      SyncGivesEachLibraryItsRow(db, list, infos, plugin, db', j);
    }
    forall id | id in db'.rows && Managed(db'.rows[id], plugin) ensures id in home {
      var j := SyncLeavesNoOtherManaged(db, list, infos, plugin, db', id);
      assert home[j] == id;
    }
    forall id | id in db'.rows ensures db'.rows[id].mediaType != "" {
      SyncLeavesTypes(db, list, infos, plugin, db', id);
    }
  }

  lemma {:induction false} IndexSizeExact(list: seq<Library>, plugin: string, n: nat)
    requires n <= |list|
    requires forall i, j :: 0 <= i < j < n && Managed(list[i], plugin) && Managed(list[j], plugin) ==> list[i].backendID != list[j].backendID
    ensures |Others(list, plugin, n)| + |Canonical(list, plugin, n)| == n
  {
    if n > 0 {
      IndexSizeExact(list, plugin, n - 1);
      if Managed(list[n - 1], plugin) { CanonicalIs(list, plugin, list[n - 1].backendID.value, n - 1); }
    }
  }

  lemma {:induction false} AllSame(m: map<int, Library>, infos: seq<Info>, n: nat)
    requires n <= |infos| && forall j :: 0 <= j < n ==> FateOf(m, infos[j]) == Same
    ensures Count(m, infos, New, n) == 0 && Count(m, infos, Renamed, n) == 0
  {
    if n > 0 { AllSame(m, infos, n - 1); }
  }

  /** In a table in step, a backend library has one managed row. */
  lemma HomeIsUnique(db: Db, infos: seq<Info>, plugin: string, home: seq<int>, a: int, b: int)
    requires InStep(db, infos, plugin, home) && a in db.rows && b in db.rows
    requires Managed(db.rows[a], plugin) && Managed(db.rows[b], plugin) && db.rows[a].backendID == db.rows[b].backendID
    ensures a == b
  {
    var i :| 0 <= i < |home| && home[i] == a;
    var j :| 0 <= j < |home| && home[j] == b;
  }

  /** And that row is the canonical one. */
  lemma CanonicalInStep(db: Db, list: seq<Library>, infos: seq<Info>, plugin: string, home: seq<int>, j: nat)
    requires InStep(db, infos, plugin, home) && IsListing(db.rows, list) && j < |infos|
    ensures infos[j].id in Index(list, plugin) && Index(list, plugin)[infos[j].id] == db.rows[home[j]]
    ensures FateOf(Index(list, plugin), infos[j]) == Same
  {
    var l := db.rows[home[j]];
    assert l.id == home[j];
    InListing(db.rows, list, l);
    var i :| 0 <= i < |list| && list[i] == l;
    CanonicalIs(list, plugin, infos[j].id, |list|);
    var c := Index(list, plugin)[infos[j].id];
    InListing(db.rows, list, c);
    HomeIsUnique(db, infos, plugin, home, l.id, c.id);
  }

  lemma IndexInStep(db: Db, list: seq<Library>, infos: seq<Info>, plugin: string, home: seq<int>)
    requires InStep(db, infos, plugin, home) && IsListing(db.rows, list)
    ensures |Kept(list, plugin)| + |Index(list, plugin)| == |list|
    ensures Index(list, plugin).Keys - Ids(infos, |infos|) == {}
  {
    forall i, j | 0 <= i < j < |list| && Managed(list[i], plugin) && Managed(list[j], plugin)
      ensures list[i].backendID != list[j].backendID
    {
      if list[i].backendID == list[j].backendID { HomeIsUnique(db, infos, plugin, home, list[i].id, list[j].id); }
    }
    IndexSizeExact(list, plugin, |list|);
    forall k | k in Index(list, plugin) ensures k in Ids(infos, |infos|) {
      CanonicalIs(list, plugin, k, |list|);
      InListing(db.rows, list, Index(list, plugin)[k]);
      var j :| 0 <= j < |home| && home[j] == Index(list, plugin)[k].id;
      IdsAre(infos, k, |infos|);
    }
  }

  /** Syncing again with the same answer creates, updates and prunes nothing. */
  lemma SecondSyncCountsNothing(db: Db, list: seq<Library>, infos: seq<Info>, plugin: string, home: seq<int>)
    requires InStep(db, infos, plugin, home) && IsListing(db.rows, list)
    ensures var st := StatsOf(list, infos, plugin); st.created == 0 && st.updated == 0 && st.pruned == 0 && st.kept == |list|
  {
    var m := Index(list, plugin);
    forall j | 0 <= j < |infos| ensures FateOf(m, infos[j]) == Same { CanonicalInStep(db, list, infos, plugin, home, j); }
    AllSame(m, infos, |infos|);
    IndexInStep(db, list, infos, plugin, home);
    RowsAreConservedIff(list, infos, plugin);
    ResultIsCounted(list, infos, plugin);
  }

  lemma {:induction false} PutAllUnchanged(db: Db, libs: seq<Library>, n: nat)
    requires n <= |libs| && forall i :: 0 <= i < n ==> libs[i].id > 0 && libs[i].id in db.rows && WithType(libs[i]) == db.rows[libs[i].id]
    ensures PutAll(db, libs, n) == db
  {
    if n > 0 { PutAllUnchanged(db, libs, n - 1); }
  }

  lemma RowIsSettled(db: Db, infos: seq<Info>, plugin: string, home: seq<int>, id: int)
    requires InStep(db, infos, plugin, home) && id in db.rows
    ensures db.rows[id].id == id > 0 && WithType(db.rows[id]) == db.rows[id]
  {
  }

  lemma DesiredIsARow(db: Db, list: seq<Library>, infos: seq<Info>, plugin: string, home: seq<int>, i: nat) returns (id: int)
    requires InStep(db, infos, plugin, home) && IsListing(db.rows, list) && i < |Desired(list, infos, plugin)|
    ensures id in db.rows && db.rows[id] == Desired(list, infos, plugin)[i]
  {
    var n, libs := |Kept(list, plugin)|, Desired(list, infos, plugin);
    if i < n {
      DesiredOther(db, list, infos, plugin, i);
      id := libs[i].id;
    } else {
      var j := i - n;
      assert Slot(list, plugin, j) == i;
      DesiredAtHome(db, list, infos, plugin, home, j);
      id := home[j];
    }
  }

  /** The i-th desired row of a table in step is a row of that table as it is. */
  lemma DesiredInStep(db: Db, list: seq<Library>, infos: seq<Info>, plugin: string, home: seq<int>, i: nat)
    requires InStep(db, infos, plugin, home) && IsListing(db.rows, list) && i < |Desired(list, infos, plugin)|
    ensures var l := Desired(list, infos, plugin)[i]; l.id > 0 && l.id in db.rows && l == db.rows[l.id] == WithType(l)
  {
    var id := DesiredIsARow(db, list, infos, plugin, home, i);
    RowIsSettled(db, infos, plugin, home, id);
  }

  lemma DesiredAtHome(db: Db, list: seq<Library>, infos: seq<Info>, plugin: string, home: seq<int>, j: nat)
    requires InStep(db, infos, plugin, home) && IsListing(db.rows, list) && j < |infos|
    ensures Desired(list, infos, plugin)[Slot(list, plugin, j)] == db.rows[home[j]]
  {
    CanonicalInStep(db, list, infos, plugin, home, j);
    DesiredAt(list, infos, plugin, j);
    assert ShownAs(db.rows[home[j]], infos[j], plugin);
  }

  /** Every row of a table in step is desired again. */
  lemma DesiredHas(db: Db, list: seq<Library>, infos: seq<Info>, plugin: string, home: seq<int>, id: int) returns (i: nat)
    requires InStep(db, infos, plugin, home) && IsListing(db.rows, list) && id in db.rows
    ensures i < |Desired(list, infos, plugin)| && Desired(list, infos, plugin)[i].id == id
  {
    if Managed(db.rows[id], plugin) {
      var j :| 0 <= j < |home| && home[j] == id;
      DesiredAtHome(db, list, infos, plugin, home, j);
      i := Slot(list, plugin, j);
    } else {
      InListing(db.rows, list, db.rows[id]);
      OthersAre(list, plugin, db.rows[id], |list|);
      i := IndexIn(Kept(list, plugin), db.rows[id]);
    }
  }

  lemma IndexIn(list: seq<Library>, l: Library) returns (i: nat)
    requires l in list
    ensures i < |list| && list[i] == l
  {
    i :| 0 <= i < |list| && list[i] == l;
  }

  lemma AllRowsUnchanged(db: Db, list: seq<Library>, infos: seq<Info>, plugin: string, home: seq<int>, n: nat)
    requires InStep(db, infos, plugin, home) && IsListing(db.rows, list) && n <= |Desired(list, infos, plugin)|
    ensures PutAll(db, Desired(list, infos, plugin), n) == db
  {
    var libs := Desired(list, infos, plugin);
    forall i | 0 <= i < n ensures libs[i].id > 0 && libs[i].id in db.rows && WithType(libs[i]) == db.rows[libs[i].id] {
      DesiredInStep(db, list, infos, plugin, home, i);
    }
    PutAllUnchanged(db, libs, n);
  }

  lemma RowIsKept(db: Db, list: seq<Library>, infos: seq<Info>, plugin: string, home: seq<int>, id: int)
    requires InStep(db, infos, plugin, home) && IsListing(db.rows, list) && id in db.rows
    ensures var libs := Desired(list, infos, plugin); id in KeptIDs(db, libs, |libs|)
  {
    var libs := Desired(list, infos, plugin);
    var i := DesiredHas(db, list, infos, plugin, home, id);
    DesiredInStep(db, list, infos, plugin, home, i);
    assert Placed(db, libs, i) == id;
    KeptAre(db, libs, id, |libs|);
  }

  lemma NothingRestricted(rows: map<int, Library>, keep: set<int>)
    requires rows.Keys <= keep
    ensures Restricted(rows, keep) == rows
  {
  }

  /** And it leaves the table as it is: one sync converges. */
  lemma SecondSyncChangesNothing(db: Db, list: seq<Library>, infos: seq<Info>, plugin: string, home: seq<int>)
    requires InStep(db, infos, plugin, home) && IsListing(db.rows, list)
    ensures Result(db, Desired(list, infos, plugin)) == db
  {
    var libs := Desired(list, infos, plugin);
    AllRowsUnchanged(db, list, infos, plugin, home, |libs|);
    forall id | id in db.rows ensures id in KeptIDs(db, libs, |libs|) { RowIsKept(db, list, infos, plugin, home, id); }
    NothingRestricted(db.rows, KeptIDs(db, libs, |libs|));
  }
}
