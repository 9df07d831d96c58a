/** The ebook_file_cache table: the effect of each query in internal/store/file_cache.go.

    The primary key is the row id; cache_key carries a UNIQUE constraint.  The columns that
    no decision reads (book, format, MIME type, advertised length, error text) are left out. */
module CacheTable {

  datatype Status = Pending | Ready | Failed

  datatype Row = Row(cacheKey: string, status: Status, bytes: nat, lastAccessed: int)

  type Table = map<string, Row>

  /** The UNIQUE constraint on cache_key. */
  ghost predicate UniqueKeys(t: Table) {
    forall i, j :: i in t && j in t && t[i].cacheKey == t[j].cacheKey ==> i == j
  }

  ghost predicate HasKey(t: Table, key: string) {
    exists id :: id in t && t[id].cacheKey == key
  }

  /** INSERT ... ON CONFLICT (cache_key) DO NOTHING. */
  ghost function Insert(t: Table, id: string, row: Row): Table {
    if HasKey(t, row.cacheKey) then t else t[id := row]
  }

  /** UPDATE ... WHERE id = $1: a missing id is not an error, it matches no row. */
  function UpdateStatus(t: Table, id: string, status: Status, bytes: nat): Table {
    if id in t then t[id := t[id].(status := status, bytes := bytes)] else t
  }

  function Delete(t: Table, id: string): Table {
    t - {id}
  }

  /** Manager.Lookup hits on id exactly when that row holds the key and is ready. */
  predicate Hits(t: Table, key: string, id: string) {
    id in t && t[id].cacheKey == key && t[id].status == Ready
  }

  ghost predicate LookupHits(t: Table, key: string) {
    exists id :: Hits(t, key, id)
  }

  /** Bytes one row adds to SUM(bytes_on_disk) WHERE status = 'ready'. */
  function ReadyBytes(r: Row): nat {
    if r.status == Ready then r.bytes else 0
  }

  ghost function Total(t: Table): nat {
    if t == map[] then 0
    else var id :| id in t; ReadyBytes(t[id]) + Total(t - {id})
  }

  /** The sum does not depend on the order in which rows are visited. */
  lemma {:induction false} TotalRemove(t: Table, id: string)
    requires id in t
    ensures Total(t) == ReadyBytes(t[id]) + Total(t - {id})
    decreases |t|
  {
    var first :| first in t && Total(t) == ReadyBytes(t[first]) + Total(t - {first});
    if first != id {
      TotalRemove(t - {first}, id);
      TotalRemove(t - {id}, first);
      assert t - {first} - {id} == t - {id} - {first};
    }
  }

  /** Row by row: a ready row adds its bytes, any other adds nothing, and no rows make nothing. */
  lemma TotalIs(t: Table, id: string, row: Row)
    requires id !in t
    ensures Total(t[id := row]) == Total(t) + if row.status == Ready then row.bytes else 0
    ensures Total(map[]) == 0
  {
    TotalRemove(t[id := row], id);
    assert t[id := row] - {id} == t;
  }
}
