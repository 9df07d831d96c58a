/** The multi-library catalog: one request fans out over every enabled library, and one composite
    cursor carries the position in each of them (internal/server/user_routes.go,
    internal/server/catalog_cursor.go).

    A backend is a paging function.  It may fail on any call; when it answers, it answers from a
    fixed chain of pages. */
module Catalog {
  import opened Wrappers
  import opened Base64Url
  import BookRef

  datatype Library = Library(id: int, name: string, mediaType: string, pluginID: string)

  datatype Item = Item(id: Bytes, libraryID: int, libraryName: string, mediaType: string, coverURL: string, title: string)

  datatype Page = Page(items: seq<Item>, next: string, total: int)

  datatype Reply = Failed | Answered(page: Page)

  /** Call number, library, backend cursor. */
  type Backend = (nat, Library, string) -> Reply

  /** signedCoverURL: raw URL, plugin, backend book id. */
  type Signer = (string, string, Bytes) -> string

  // ---------------------------------------------------------------- the composite cursor

  type Cursors = map<int, string>

  /** encoding/json on a map from library ids to backend cursors that are valid UTF-8. */
  datatype Json = Json(marshal: Cursors -> Bytes, unmarshal: Bytes -> Option<Cursors>)

  /** JSON reads back what it wrote, and never writes an empty text. */
  ghost predicate Faithful(json: Json) {
    forall m: Cursors :: json.unmarshal(json.marshal(m)) == Some(m) && json.marshal(m) != []
  }

  function EncodeCursor(m: Cursors, json: Json): Bytes {
    if m == map[] then [] else Encode(json.marshal(m))
  }

  function DecodeCursor(raw: Bytes, json: Json): Option<Cursors> {
    if raw == [] then None
    else
      var b := Decode(raw);
      if b.None? then None
      else
        var m := json.unmarshal(b.value);
        if m.None? || m.value == map[] then None else m
  }

  /** A token means its cursors, and only the empty map has the empty token: clients stop exactly
      when no library has more pages. */
  lemma CursorRoundTrip(m: Cursors, json: Json)
    requires Faithful(json)
    ensures DecodeCursor(EncodeCursor(m, json), json) == if m == map[] then None else Some(m)
    ensures EncodeCursor(m, json) == [] <==> m == map[]
  {
    if m != map[] {
      DecodeInvertsEncode(json.marshal(m));
    }
  }

  /** A text that is no token stands for the first page: it is not base64, or what it holds is no
      JSON map, or an empty one.  Every other text means the map that it holds. */
  lemma OnlyTokensArePositions(b: Bytes, json: Json)
    requires b != []
    ensures DecodeCursor(Encode(b), json) == if json.unmarshal(b) == Some(map[]) then None else json.unmarshal(b)
    ensures forall raw: Bytes :: Decode(raw) == None ==> DecodeCursor(raw, json) == None
  {
    DecodeInvertsEncode(b);
    assert Decode([]) == Some([]);
  }

  // ---------------------------------------------------------------- one request

  function WrapItem(item: Item, lib: Library, sign: Signer): Item {
    item.(coverURL := sign(item.coverURL, lib.pluginID, item.id), id := BookRef.EncodeRef(lib.id, item.id),
          libraryID := lib.id, libraryName := lib.name, mediaType := lib.mediaType)
  }

  function Wrapped(items: seq<Item>, lib: Library, sign: Signer): seq<Item> {
    seq(|items|, i requires 0 <= i < |items| => WrapItem(items[i], lib, sign))
  }

  /** What a client gets for a book of a library: the library's own columns, the backend's title, a
      reference that leads back to the backend's book, and a cover signed for the book that the
      reference leads to. */
  predicate ServedAs(out: Item, book: Item, lib: Library, sign: Signer) {
    && out.libraryID == lib.id && out.libraryName == lib.name && out.mediaType == lib.mediaType && out.title == book.title
    && (0 < lib.id <= BookRef.MAX_INT64 ==>
          && BookRef.DecodeRef(out.id) == BookRef.Decoded(lib.id, book.id, true)
          && out.coverURL == sign(book.coverURL, lib.pluginID, BookRef.DecodeRef(out.id).bookID))
    && (lib.id <= 0 ==> out.id == book.id && out.coverURL == sign(book.coverURL, lib.pluginID, out.id))
  }

  predicate AllServedAs(outs: seq<Item>, books: seq<Item>, lib: Library, sign: Signer) {
    |outs| == |books| && forall i :: 0 <= i < |outs| ==> ServedAs(outs[i], books[i], lib, sign)
  }

  lemma WrapItemServes(item: Item, lib: Library, sign: Signer)
    ensures ServedAs(WrapItem(item, lib, sign), item, lib, sign)
  {
    if 0 < lib.id <= BookRef.MAX_INT64 { BookRef.DecodeInvertsEncodeRef(lib.id, item.id); }
  }

  lemma WrappedServes(items: seq<Item>, lib: Library, sign: Signer)
    ensures AllServedAs(Wrapped(items, lib, sign), items, lib, sign)
  {
    forall i | 0 <= i < |items| ensures ServedAs(Wrapped(items, lib, sign)[i], items[i], lib, sign) {
      WrapItemServes(items[i], lib, sign);
    }
  }

  /** The cover is signed for the backend's own id, so it is rewritten before the id is. */
  method WrapCatalogItems(items: array<Item>, lib: Library, sign: Signer)
    modifies items
    ensures items[..] == Wrapped(old(items[..]), lib, sign)
    ensures AllServedAs(items[..], old(items[..]), lib, sign)
  {
    WrappedServes(items[..], lib, sign);
    for i := 0 to items.Length
      invariant forall j :: 0 <= j < i ==> items[j] == WrapItem(old(items[j]), lib, sign)
      invariant forall j :: i <= j < items.Length ==> items[j] == old(items[j])
    {
      var backendBookID := items[i].id;
      items[i] := items[i].(coverURL := sign(items[i].coverURL, lib.pluginID, backendBookID));
      items[i] := items[i].(id := BookRef.EncodeRef(lib.id, items[i].id));
      items[i] := items[i].(libraryID := lib.id, libraryName := lib.name, mediaType := lib.mediaType);
    }
  }

  /** A page as it is handed on: the items of its own list, wrapped. */
  method WrapPage(page: Page, lib: Library, sign: Signer) returns (items: seq<Item>)
    ensures items == Wrapped(page.items, lib, sign)
    ensures AllServedAs(items, page.items, lib, sign)
  {
    var env := new Item[|page.items|](j requires 0 <= j < |page.items| => page.items[j]);
    assert env[..] == page.items;
    WrapCatalogItems(env, lib, sign);
    items := env[..];
  }

  /** Where a walk stands: the first page (no valid token), or the libraries that still have pages. */
  datatype Position = FirstPage | Rest(cursors: Cursors)

  predicate Asked(lib: Library, pos: Position) {
    pos.FirstPage? || lib.id in pos.cursors
  }

  function CursorFor(lib: Library, pos: Position): string
    requires Asked(lib, pos)
  {
    if pos.FirstPage? then "" else pos.cursors[lib.id]
  }

  /** One library's part of one response. */
  function ItemsFrom(lib: Library, pos: Position, backend: Backend, call: nat, sign: Signer): seq<Item> {
    if !Asked(lib, pos) then []
    else match backend(call, lib, CursorFor(lib, pos))
      case Failed => []
      case Answered(page) => Wrapped(page.items, lib, sign)
  }

  function NextFrom(lib: Library, pos: Position, backend: Backend, call: nat): string {
    if !Asked(lib, pos) then ""
    else match backend(call, lib, CursorFor(lib, pos))
      case Failed => ""
      case Answered(page) => page.next
  }

  function PageItems(libs: seq<Library>, pos: Position, backend: Backend, call: nat, sign: Signer): seq<Item> {
    if libs == [] then []
    else PageItems(libs[..|libs| - 1], pos, backend, call, sign) + ItemsFrom(libs[|libs| - 1], pos, backend, call, sign)
  }

  function TotalFrom(lib: Library, pos: Position, backend: Backend, call: nat): int {
    if !Asked(lib, pos) then 0
    else match backend(call, lib, CursorFor(lib, pos))
      case Failed => 0
      case Answered(page) => page.total
  }

  function PageTotal(libs: seq<Library>, pos: Position, backend: Backend, call: nat): int {
    if libs == [] then 0
    else PageTotal(libs[..|libs| - 1], pos, backend, call) + TotalFrom(libs[|libs| - 1], pos, backend, call)
  }

  /** The libraries that still have pages, each with its own backend cursor. */
  function NextCursors(libs: seq<Library>, pos: Position, backend: Backend, call: nat): Cursors {
    if libs == [] then map[]
    else
      var last, m := libs[|libs| - 1], NextCursors(libs[..|libs| - 1], pos, backend, call);
      if NextFrom(last, pos, backend, call) != "" then m[last.id := NextFrom(last, pos, backend, call)] else m
  }

  predicate DistinctIds(libs: seq<Library>) {
    forall i, j :: 0 <= i < j < |libs| ==> libs[i].id != libs[j].id
  }

  datatype LibResult = LibResult(lib: Library, reply: Reply)

  function Merged(results: seq<LibResult>, sign: Signer): seq<Item> {
    if results == [] then []
    else
      var last := results[|results| - 1];
      Merged(results[..|results| - 1], sign) +
      (if last.reply.Failed? then [] else Wrapped(last.reply.page.items, last.lib, sign))
  }

  function MergedTotal(results: seq<LibResult>): int {
    if results == [] then 0
    else
      var last := results[|results| - 1];
      MergedTotal(results[..|results| - 1]) + (if last.reply.Failed? then 0 else last.reply.page.total)
  }

  /** Failed libraries are skipped; limit <= 0 turns truncation off. */
  method CombineCatalogResults(results: seq<LibResult>, limit: int, sign: Signer) returns (items: seq<Item>, total: int)
    ensures items == if 0 < limit < |Merged(results, sign)| then Merged(results, sign)[..limit] else Merged(results, sign)
    ensures total == MergedTotal(results)
  {
    items, total := [], 0;
    for i := 0 to |results|
      invariant items == Merged(results[..i], sign) && total == MergedTotal(results[..i])
    {
      assert results[..i + 1][..i] == results[..i];
      if results[i].reply.Failed? { continue; }
      var page := results[i].reply.page;
      var wrapped := WrapPage(page, results[i].lib, sign);
      items := items + wrapped;
      total := total + page.total;
    }
    assert results[..|results|] == results;
    if 0 < limit < |items| {
      items := items[..limit];
    }
  }

  lemma OneMoreResult(results: seq<LibResult>, x: LibResult, sign: Signer)
    ensures Merged(results + [x], sign) ==
            Merged(results, sign) + (if x.reply.Failed? then [] else Wrapped(x.reply.page.items, x.lib, sign))
    ensures MergedTotal(results + [x]) == MergedTotal(results) + (if x.reply.Failed? then 0 else x.reply.page.total)
  {
    assert (results + [x])[..|results|] == results;
  }

  /** What library i adds to a response. */
  lemma OneMoreLibrary(libs: seq<Library>, i: nat, pos: Position, backend: Backend, call: nat, sign: Signer)
    requires i < |libs|
    ensures PageItems(libs[..i + 1], pos, backend, call, sign) ==
            PageItems(libs[..i], pos, backend, call, sign) + ItemsFrom(libs[i], pos, backend, call, sign)
    ensures PageTotal(libs[..i + 1], pos, backend, call) == PageTotal(libs[..i], pos, backend, call) + TotalFrom(libs[i], pos, backend, call)
    ensures NextCursors(libs[..i + 1], pos, backend, call) ==
            if NextFrom(libs[i], pos, backend, call) == "" then NextCursors(libs[..i], pos, backend, call)
            else NextCursors(libs[..i], pos, backend, call)[libs[i].id := NextFrom(libs[i], pos, backend, call)]
  {
    assert libs[..i + 1][..i] == libs[..i];
  }

  function PositionOf(token: Bytes, json: Json): Position {
    if DecodeCursor(token, json).Some? then Rest(DecodeCursor(token, json).value) else FirstPage
  }

  /** Where the loop over the libraries stands after n of them. */
  predicate ListedSoFar(libs: seq<Library>, n: nat, pos: Position, backend: Backend, call: nat, sign: Signer,
                        results: seq<LibResult>, cursors: Cursors)
    requires n <= |libs|
  {
    && Merged(results, sign) == PageItems(libs[..n], pos, backend, call, sign)
    && MergedTotal(results) == PageTotal(libs[..n], pos, backend, call)
    && cursors == NextCursors(libs[..n], pos, backend, call)
  }

  lemma SkipKeepsListed(libs: seq<Library>, n: nat, pos: Position, backend: Backend, call: nat, sign: Signer,
                        results: seq<LibResult>, cursors: Cursors)
    requires n < |libs| && ListedSoFar(libs, n, pos, backend, call, sign, results, cursors) && !Asked(libs[n], pos)
    ensures ListedSoFar(libs, n + 1, pos, backend, call, sign, results, cursors)
  {
    OneMoreLibrary(libs, n, pos, backend, call, sign);
  }

  function WithNext(cursors: Cursors, lib: Library, reply: Reply): Cursors {
    if reply.Answered? && reply.page.next != "" then cursors[lib.id := reply.page.next] else cursors
  }

  lemma AskKeepsListed(libs: seq<Library>, n: nat, pos: Position, backend: Backend, call: nat, sign: Signer,
                       results: seq<LibResult>, cursors: Cursors)
    requires n < |libs| && ListedSoFar(libs, n, pos, backend, call, sign, results, cursors) && Asked(libs[n], pos)
    ensures var reply := backend(call, libs[n], CursorFor(libs[n], pos));
      ListedSoFar(libs, n + 1, pos, backend, call, sign, results + [LibResult(libs[n], reply)], WithNext(cursors, libs[n], reply))
  {
    OneMoreLibrary(libs, n, pos, backend, call, sign);
    OneMoreResult(results, LibResult(libs[n], backend(call, libs[n], CursorFor(libs[n], pos))), sign);
  }

  /** The multi-library branch of handleListCatalog. */
  method ListCatalog(libs: seq<Library>, token: Bytes, json: Json, backend: Backend, call: nat, sign: Signer)
    returns (items: seq<Item>, total: int, nextToken: Bytes)
    ensures var pos := PositionOf(token, json);
      && items == PageItems(libs, pos, backend, call, sign) && total == PageTotal(libs, pos, backend, call)
      && nextToken == EncodeCursor(NextCursors(libs, pos, backend, call), json)
  {
    var decoded := DecodeCursor(token, json);
    var paging := decoded.Some?;
    ghost var pos := PositionOf(token, json);
    var results: seq<LibResult> := [];
    var nextCursors: Cursors := map[];
    for i := 0 to |libs|
      invariant ListedSoFar(libs, i, pos, backend, call, sign, results, nextCursors)
    {
      var lib := libs[i];
      var backendCursor := "";
      if paging {
        if lib.id !in decoded.value {
          SkipKeepsListed(libs, i, pos, backend, call, sign, results, nextCursors);
          continue;
        }
        backendCursor := decoded.value[lib.id];
      }
      AskKeepsListed(libs, i, pos, backend, call, sign, results, nextCursors);
      var reply := backend(call, lib, backendCursor);
      results := results + [LibResult(lib, reply)];
      if reply.Answered? && reply.page.next != "" {
        nextCursors := nextCursors[lib.id := reply.page.next];
      }
    }
    assert libs[..|libs|] == libs;
    items, total := CombineCatalogResults(results, 0, sign);
    nextToken := EncodeCursor(nextCursors, json);
  }

  datatype Answer = NotFound | Served(items: seq<Item>, total: int, nextCursor: string)

  const NothingServed := Served([], 0, "")

  function AsText(raw: Bytes): string {
    seq(|raw|, i requires 0 <= i < |raw| => raw[i] as char)
  }

  /** The response of the libraries of a request, each asked for so many books. */
  predicate AnsweredBy(answer: Answer, libs: seq<Library>, limit: int, cursor: Bytes, json: Json,
                       backendOf: int -> Backend, call: nat, sign: Signer) {
    var backend, pos := backendOf(limit), PositionOf(cursor, json);
    answer == Served(PageItems(libs, pos, backend, call, sign), PageTotal(libs, pos, backend, call),
                     AsText(EncodeCursor(NextCursors(libs, pos, backend, call), json)))
  }

  /** handleListCatalog.  named is the library a positive libraryID names; shelves is None when the
      listing fails; backendOf is the backend asked for so many books a page. */
  method HandleListCatalog(libraryID: nat, named: Option<Library>, shelves: Option<seq<Library>>, fallback: Option<Library>,
                           limit: int, cursor: Bytes, json: Json, backendOf: int -> Backend, call: nat, sign: Signer)
    returns (answer: Answer)
    ensures libraryID > 0 && named.None? ==> answer == NotFound
    ensures libraryID > 0 && named.Some? ==>
      match backendOf(limit)(call, named.value, AsText(cursor))
      case Failed => answer == Served([], 0, "")
      case Answered(page) =>
        && answer.Served? && AllServedAs(answer.items, page.items, named.value, sign)
        && answer.total == page.total && answer.nextCursor == page.next
    ensures libraryID == 0 && shelves.Some? && |shelves.value| > 1 ==>
      AnsweredBy(answer, shelves.value, if limit > 20 then 20 else limit, cursor, json, backendOf, call, sign)
    ensures libraryID == 0 && shelves.Some? && |shelves.value| == 1 ==>
      AnsweredBy(answer, shelves.value, limit, cursor, json, backendOf, call, sign)
    ensures libraryID == 0 && (shelves.None? || shelves.value == []) ==>
      match fallback
      case None => answer == Served([], 0, "")
      case Some(lib) => AnsweredBy(answer, [lib], limit, cursor, json, backendOf, call, sign)
  {
    if libraryID > 0 {
      if named.None? { return NotFound; }
      var reply := backendOf(limit)(call, named.value, AsText(cursor));
      if reply.Failed? { return NothingServed; }
      var wrapped := WrapPage(reply.page, named.value, sign);
      return Served(wrapped, reply.page.total, reply.page.next);
    }
    var libs := [];
    if shelves.Some? { libs := shelves.value; }
    if |libs| == 0 {
      if fallback.None? { return NothingServed; }
      libs := [fallback.value];
    }
    var perLibraryLimit := limit;
    if |libs| > 1 && perLibraryLimit > 20 {
      perLibraryLimit := 20;
    }
    var items, total, next := ListCatalog(libs, cursor, json, backendOf(perLibraryLimit), call, sign);
    return Served(items, total, AsText(next));
  }

  // ---------------------------------------------------------------- following the cursor

  lemma {:induction false} NextCursorsAre(libs: seq<Library>, pos: Position, backend: Backend, call: nat, id: int)
    requires DistinctIds(libs)
    ensures var m := NextCursors(libs, pos, backend, call);
      && (forall i :: 0 <= i < |libs| && libs[i].id == id ==>
            (id in m <==> NextFrom(libs[i], pos, backend, call) != "") &&
            (id in m ==> m[id] == NextFrom(libs[i], pos, backend, call)))
      && ((forall i :: 0 <= i < |libs| ==> libs[i].id != id) ==> id !in m)
  {
    if libs != [] {
      var init := libs[..|libs| - 1];
      forall i | 0 <= i < |init| ensures init[i] == libs[i] {}
      NextCursorsAre(init, pos, backend, call, id);
    }
  }

  /** The position before call n of a walk that starts without a cursor and follows next_cursor. */
  function After(libs: seq<Library>, backend: Backend, n: nat): Position {
    if n == 0 then FirstPage else Rest(NextCursors(libs, After(libs, backend, n - 1), backend, n - 1))
  }

  predicate Finished(pos: Position) {
    pos == Rest(map[])
  }

  /** The items of response number n. */
  function Response(libs: seq<Library>, backend: Backend, sign: Signer, n: nat): seq<Item> {
    PageItems(libs, After(libs, backend, n), backend, n, sign)
  }

  /** Everything the first n responses held, in order; once the cursor is empty there is no request. */
  function Collected(libs: seq<Library>, backend: Backend, sign: Signer, n: nat): seq<Item> {
    if n == 0 then []
    else Collected(libs, backend, sign, n - 1) + Response(libs, backend, sign, n - 1)
  }

  /** The chain of pages behind a library: cursors non-empty until the last page. */
  ghost predicate IsChain(pages: seq<Page>) {
    && pages != []
    && (forall i :: 0 <= i < |pages| - 1 ==> pages[i].next != "")
    && pages[|pages| - 1].next == ""
  }

  function CursorOf(pages: seq<Page>, n: nat): string
    requires n < |pages|
  {
    if n == 0 then "" else pages[n - 1].next
  }

  /** A stable backend: on any call it fails or answers with the page its cursor names. */
  ghost predicate Stable(backend: Backend, lib: Library, pages: seq<Page>) {
    && IsChain(pages)
    && (forall call: nat, n: nat :: n < |pages| ==>
          backend(call, lib, CursorOf(pages, n)) == Failed || backend(call, lib, CursorOf(pages, n)) == Answered(pages[n]))
  }

  /** The library has a page for call n and answered on every call before it. */
  predicate Alive(backend: Backend, lib: Library, pages: seq<Page>, n: nat) {
    && n < |pages|
    && (forall m :: 0 <= m < n ==> backend(m, lib, CursorOf(pages, m)) != Failed)
  }

  /** The whole world of a walk: the libraries and the pages behind each. */
  ghost predicate World(libs: seq<Library>, backend: Backend, pages: map<int, seq<Page>>) {
    && DistinctIds(libs)
    && (forall i :: 0 <= i < |libs| ==> libs[i].id in pages && Stable(backend, libs[i], pages[libs[i].id]))
  }

  /** Before call n the cursor holds exactly the libraries still alive, each at its n-th page. */
  lemma {:induction false} CursorHoldsTheLiving(libs: seq<Library>, backend: Backend, pages: map<int, seq<Page>>, n: nat, i: nat)
    requires World(libs, backend, pages) && i < |libs|
    ensures Asked(libs[i], After(libs, backend, n)) <==> Alive(backend, libs[i], pages[libs[i].id], n)
    ensures Alive(backend, libs[i], pages[libs[i].id], n) ==>
      CursorFor(libs[i], After(libs, backend, n)) == CursorOf(pages[libs[i].id], n)
  {
    if n > 0 {
      CursorHoldsTheLiving(libs, backend, pages, n - 1, i);
      NextCursorsAre(libs, After(libs, backend, n - 1), backend, n - 1, libs[i].id);
    }
  }

  /** The cursor never names a library that is not there. */
  lemma NoStrangersInCursor(libs: seq<Library>, backend: Backend, n: nat, id: int)
    requires DistinctIds(libs) && n > 0 && id in After(libs, backend, n).cursors
    ensures exists i :: 0 <= i < |libs| && libs[i].id == id
  {
    NextCursorsAre(libs, After(libs, backend, n - 1), backend, n - 1, id);
  }

  lemma NonEmptyHasKey(m: Cursors)
    requires m != map[]
    ensures exists id :: id in m
  {
    if forall id :: id !in m {
      assert false;
    }
  }

  /** The walk ends at the first call for which no library has pages left; when nothing fails, that
      is after as many calls as the longest library has pages. */
  lemma WalkEndsIffNobodyAlive(libs: seq<Library>, backend: Backend, pages: map<int, seq<Page>>, n: nat)
    requires World(libs, backend, pages) && n > 0
    ensures Finished(After(libs, backend, n)) <==>
      forall i :: 0 <= i < |libs| ==> !Alive(backend, libs[i], pages[libs[i].id], n)
  {
    forall i | 0 <= i < |libs|
      ensures libs[i].id in After(libs, backend, n).cursors <==> Alive(backend, libs[i], pages[libs[i].id], n)
    {
      CursorHoldsTheLiving(libs, backend, pages, n, i);
    }
    if !Finished(After(libs, backend, n)) {
      NonEmptyHasKey(After(libs, backend, n).cursors);
      var id :| id in After(libs, backend, n).cursors;
      NoStrangersInCursor(libs, backend, n, id);
    }
  }

  lemma WalkLength(libs: seq<Library>, backend: Backend, pages: map<int, seq<Page>>, n: nat)
    requires World(libs, backend, pages) && n > 0
    requires forall i, m :: 0 <= i < |libs| && 0 <= m < |pages[libs[i].id]| ==>
      backend(m, libs[i], CursorOf(pages[libs[i].id], m)) != Failed
    ensures Finished(After(libs, backend, n)) <==> forall i :: 0 <= i < |libs| ==> |pages[libs[i].id]| <= n
  {
    WalkEndsIffNobodyAlive(libs, backend, pages, n);
    forall i | 0 <= i < |libs| ensures Alive(backend, libs[i], pages[libs[i].id], n) <==> n < |pages[libs[i].id]| {}
  }

  function OfLibrary(items: seq<Item>, id: int): seq<Item> {
    if items == [] then []
    else OfLibrary(items[..|items| - 1], id) + (if items[|items| - 1].libraryID == id then [items[|items| - 1]] else [])
  }

  lemma {:induction false} OfLibraryConcat(a: seq<Item>, b: seq<Item>, id: int)
    ensures OfLibrary(a + b, id) == OfLibrary(a, id) + OfLibrary(b, id)
  {
    if b == [] {
      assert a + b == a;
    } else {
      var c := b[..|b| - 1];
      assert (a + b)[..|a + b| - 1] == a + c;
      OfLibraryConcat(a, c, id);
    }
  }

  lemma {:induction false} OfLibraryUniform(items: seq<Item>, id: int, own: int)
    requires forall i :: 0 <= i < |items| ==> items[i].libraryID == own
    ensures OfLibrary(items, id) == if own == id then items else []
  {
    if items != [] {
      var init, last := items[..|items| - 1], items[|items| - 1];
      forall i | 0 <= i < |init| ensures init[i].libraryID == own {}
      OfLibraryUniform(init, id, own);
      assert items == init + [last] && last.libraryID == own;
    }
  }

  lemma LastLibraryAdds(libs: seq<Library>, pos: Position, backend: Backend, call: nat, sign: Signer, id: int)
    requires libs != []
    ensures var init, last := libs[..|libs| - 1], libs[|libs| - 1];
            OfLibrary(PageItems(libs, pos, backend, call, sign), id) ==
            OfLibrary(PageItems(init, pos, backend, call, sign), id) +
            (if last.id == id then ItemsFrom(last, pos, backend, call, sign) else [])
  {
    var init, last := libs[..|libs| - 1], libs[|libs| - 1];
    OfLibraryConcat(PageItems(init, pos, backend, call, sign), ItemsFrom(last, pos, backend, call, sign), id);
    OfLibraryUniform(ItemsFrom(last, pos, backend, call, sign), id, last.id);
  }

  lemma {:induction false} NothingOfOthers(libs: seq<Library>, pos: Position, backend: Backend, call: nat, sign: Signer, id: int)
    requires forall i :: 0 <= i < |libs| ==> libs[i].id != id
    ensures OfLibrary(PageItems(libs, pos, backend, call, sign), id) == []
  {
    if libs != [] {
      NothingOfOthers(libs[..|libs| - 1], pos, backend, call, sign, id);
      LastLibraryAdds(libs, pos, backend, call, sign, id);
    }
  }

  lemma LastIdIsOther(libs: seq<Library>, i: nat)
    requires DistinctIds(libs) && i < |libs| - 1
    ensures DistinctIds(libs[..|libs| - 1]) && libs[..|libs| - 1][i] == libs[i] && libs[|libs| - 1].id != libs[i].id
  {
  }

  lemma LastIdIsNew(libs: seq<Library>)
    requires DistinctIds(libs) && libs != []
    ensures var init := libs[..|libs| - 1]; forall k :: 0 <= k < |init| ==> init[k].id != libs[|libs| - 1].id
  {
  }

  lemma {:induction false} PageItemsOfLibrary(libs: seq<Library>, pos: Position, backend: Backend, call: nat, sign: Signer, i: nat)
    requires DistinctIds(libs) && i < |libs|
    ensures OfLibrary(PageItems(libs, pos, backend, call, sign), libs[i].id) == ItemsFrom(libs[i], pos, backend, call, sign)
  {
    LastLibraryAdds(libs, pos, backend, call, sign, libs[i].id);
    if i < |libs| - 1 {
      LastIdIsOther(libs, i);
      PageItemsOfLibrary(libs[..|libs| - 1], pos, backend, call, sign, i);
    } else {
      LastIdIsNew(libs);
      NothingOfOthers(libs[..|libs| - 1], pos, backend, call, sign, libs[i].id);
    }
  }

  /** What a library should contribute to call n: its n-th page, unless it fails now or failed before. */
  function Share(backend: Backend, lib: Library, pages: seq<Page>, sign: Signer, n: nat): seq<Item> {
    if Alive(backend, lib, pages, n) && backend(n, lib, CursorOf(pages, n)) != Failed
    then Wrapped(pages[n].items, lib, sign) else []
  }

  function Expected(backend: Backend, lib: Library, pages: seq<Page>, sign: Signer, n: nat): seq<Item> {
    if n == 0 then []
    else Expected(backend, lib, pages, sign, n - 1) + Share(backend, lib, pages, sign, n - 1)
  }

  /** The part of library id in the response to call n of the walk. */
  function PartOf(libs: seq<Library>, backend: Backend, sign: Signer, n: nat, id: int): seq<Item> {
    OfLibrary(Response(libs, backend, sign, n), id)
  }

  lemma CallDelivers(libs: seq<Library>, backend: Backend, pages: map<int, seq<Page>>, sign: Signer, n: nat, i: nat)
    requires World(libs, backend, pages) && i < |libs|
    ensures PartOf(libs, backend, sign, n, libs[i].id) == Share(backend, libs[i], pages[libs[i].id], sign, n)
  {
    CursorHoldsTheLiving(libs, backend, pages, n, i);
    PageItemsOfLibrary(libs, After(libs, backend, n), backend, n, sign, i);
  }

  lemma PartAdds(libs: seq<Library>, backend: Backend, sign: Signer, n: nat, id: int)
    ensures OfLibrary(Collected(libs, backend, sign, n + 1), id) ==
            OfLibrary(Collected(libs, backend, sign, n), id) + PartOf(libs, backend, sign, n, id)
  {
    OfLibraryConcat(Collected(libs, backend, sign, n), Response(libs, backend, sign, n), id);
  }

  lemma OneMorePart(libs: seq<Library>, backend: Backend, pages: seq<Page>, sign: Signer, n: nat, lib: Library)
    requires OfLibrary(Collected(libs, backend, sign, n), lib.id) == Expected(backend, lib, pages, sign, n)
    requires PartOf(libs, backend, sign, n, lib.id) == Share(backend, lib, pages, sign, n)
    ensures OfLibrary(Collected(libs, backend, sign, n + 1), lib.id) == Expected(backend, lib, pages, sign, n + 1)
  {
    PartAdds(libs, backend, sign, n, lib.id);
  }

  /** Before call n the library got its share on every call. */
  ghost predicate GotShares(libs: seq<Library>, backend: Backend, pages: seq<Page>, sign: Signer, n: nat, lib: Library) {
    forall m: nat {:trigger PartOf(libs, backend, sign, m, lib.id)} :: m < n ==>
      PartOf(libs, backend, sign, m, lib.id) == Share(backend, lib, pages, sign, m)
  }

  lemma {:induction false} PartsAddUp(libs: seq<Library>, backend: Backend, pages: seq<Page>, sign: Signer, n: nat, lib: Library)
    requires GotShares(libs, backend, pages, sign, n, lib)
    ensures OfLibrary(Collected(libs, backend, sign, n), lib.id) == Expected(backend, lib, pages, sign, n)
  {
    if n > 0 {
      var last := n - 1;
      PartsAddUp(libs, backend, pages, sign, last, lib);
      assert PartOf(libs, backend, sign, last, lib.id) == Share(backend, lib, pages, sign, last);
      OneMorePart(libs, backend, pages, sign, last, lib);
    }
  }

  /** In n calls every library contributes exactly its own pages, once and in order, up to its own
      first failure: what another library does, failures included, makes no difference. */
  lemma WalkDeliversEachLibrary(libs: seq<Library>, backend: Backend, pages: map<int, seq<Page>>, sign: Signer, n: nat, i: nat)
    requires World(libs, backend, pages) && i < |libs|
    ensures OfLibrary(Collected(libs, backend, sign, n), libs[i].id) ==
            Expected(backend, libs[i], pages[libs[i].id], sign, n)
  {
    forall m: nat | m < n
      ensures PartOf(libs, backend, sign, m, libs[i].id) == Share(backend, libs[i], pages[libs[i].id], sign, m)
    {
      CallDelivers(libs, backend, pages, sign, m, i);
    }
    PartsAddUp(libs, backend, pages[libs[i].id], sign, n, libs[i]);
  }

  /** All books of a library, in its order. */
  function Books(pages: seq<Page>, n: nat): seq<Item>
    requires n <= |pages|
  {
    if n == 0 then [] else Books(pages, n - 1) + pages[n - 1].items
  }

  lemma WrappedConcat(a: seq<Item>, b: seq<Item>, lib: Library, sign: Signer)
    ensures Wrapped(a + b, lib, sign) == Wrapped(a, lib, sign) + Wrapped(b, lib, sign)
  {
  }

  /** A library that is still alive and answers adds its next page. */
  lemma ShareExtends(backend: Backend, lib: Library, pages: seq<Page>, sign: Signer, n: nat)
    requires Alive(backend, lib, pages, n) && backend(n, lib, CursorOf(pages, n)) != Failed
    ensures Wrapped(Books(pages, n), lib, sign) + Share(backend, lib, pages, sign, n) == Wrapped(Books(pages, n + 1), lib, sign)
  {
    WrappedConcat(Books(pages, n), pages[n].items, lib, sign);
  }

  /** How many of its pages a library has delivered before call n. */
  function Delivered(backend: Backend, lib: Library, pages: seq<Page>, n: nat): (k: nat)
    ensures k <= n && k <= |pages|
  {
    if n == 0 then 0
    else if Alive(backend, lib, pages, n - 1) && backend(n - 1, lib, CursorOf(pages, n - 1)) != Failed then n
    else Delivered(backend, lib, pages, n - 1)
  }

  lemma LivingDeliversAll(backend: Backend, lib: Library, pages: seq<Page>, n: nat)
    requires Alive(backend, lib, pages, n)
    ensures Delivered(backend, lib, pages, n) == n
  {
  }

  /** Before call n the library has contributed what it has delivered. */
  predicate HasDelivered(backend: Backend, lib: Library, pages: seq<Page>, sign: Signer, n: nat) {
    Expected(backend, lib, pages, sign, n) == Wrapped(Books(pages, Delivered(backend, lib, pages, n)), lib, sign)
  }

  lemma OneMoreDelivered(backend: Backend, lib: Library, pages: seq<Page>, sign: Signer, n: nat)
    requires n > 0 && HasDelivered(backend, lib, pages, sign, n - 1)
    ensures HasDelivered(backend, lib, pages, sign, n)
  {
    if Alive(backend, lib, pages, n - 1) && backend(n - 1, lib, CursorOf(pages, n - 1)) != Failed {
      LivingDeliversAll(backend, lib, pages, n - 1);
      ShareExtends(backend, lib, pages, sign, n - 1);
    }
  }

  /** With failures a library still contributes a prefix of its pages. */
  lemma {:induction false} ExpectedIsPrefix(backend: Backend, lib: Library, pages: seq<Page>, sign: Signer, n: nat)
    ensures HasDelivered(backend, lib, pages, sign, n)
  {
    if n > 0 {
      ExpectedIsPrefix(backend, lib, pages, sign, n - 1);
      OneMoreDelivered(backend, lib, pages, sign, n);
    }
  }

  /** A library that never fails delivers a page a call, until it has none left. */
  lemma {:induction false} NeverFailingDelivers(backend: Backend, lib: Library, pages: seq<Page>, n: nat)
    requires forall m :: 0 <= m < |pages| ==> backend(m, lib, CursorOf(pages, m)) != Failed
    ensures Delivered(backend, lib, pages, n) == if n < |pages| then n else |pages|
  {
    if n > |pages| { NeverFailingDelivers(backend, lib, pages, n - 1); }
  }

  /** No loss and no duplication: once the cursor is empty, and if the library never failed, the walk
      has returned each of its books exactly once, in its order. */
  lemma EveryBookExactlyOnce(libs: seq<Library>, backend: Backend, pages: map<int, seq<Page>>, sign: Signer, n: nat, i: nat)
    requires World(libs, backend, pages) && i < |libs| && n > 0 && Finished(After(libs, backend, n))
    requires forall m :: 0 <= m < |pages[libs[i].id]| ==> backend(m, libs[i], CursorOf(pages[libs[i].id], m)) != Failed
    ensures AllServedAs(OfLibrary(Collected(libs, backend, sign, n), libs[i].id), Books(pages[libs[i].id], |pages[libs[i].id]|),
                        libs[i], sign)
  {
    WrappedServes(Books(pages[libs[i].id], |pages[libs[i].id]|), libs[i], sign);
    WalkEndsIffNobodyAlive(libs, backend, pages, n);
    assert !Alive(backend, libs[i], pages[libs[i].id], n);
    WalkDeliversEachLibrary(libs, backend, pages, sign, n, i);
    ExpectedIsPrefix(backend, libs[i], pages[libs[i].id], sign, n);
    NeverFailingDelivers(backend, libs[i], pages[libs[i].id], n);
  }

  /** With failures: what a walk of any length has returned of a library is a prefix of its books, each
      served as that book. */
  lemma WalkServesPrefix(libs: seq<Library>, backend: Backend, pages: map<int, seq<Page>>, sign: Signer, n: nat, i: nat)
    requires World(libs, backend, pages) && i < |libs|
    ensures var k, chain := Delivered(backend, libs[i], pages[libs[i].id], n), pages[libs[i].id];
      && Books(chain, k) <= Books(chain, |chain|)
      && AllServedAs(OfLibrary(Collected(libs, backend, sign, n), libs[i].id), Books(chain, k), libs[i], sign)
  {
    var chain := pages[libs[i].id];
    var k := Delivered(backend, libs[i], chain, n);
    WrappedServes(Books(chain, k), libs[i], sign);
    BooksPrefix(chain, k, |chain|);
    WalkDeliversEachLibrary(libs, backend, pages, sign, n, i);
    ExpectedIsPrefix(backend, libs[i], chain, sign, n);
  }

  // ---------------------------------------------------------------- the reported total

  /** How many of the items belong to one of the libraries. */
  function CountOf(items: seq<Item>, libs: seq<Library>): nat {
    if libs == [] then 0 else CountOf(items, libs[..|libs| - 1]) + |OfLibrary(items, libs[|libs| - 1].id)|
  }

  lemma {:induction false} CountOfNone(libs: seq<Library>)
    ensures CountOf([], libs) == 0
  {
    if libs != [] { CountOfNone(libs[..|libs| - 1]); }
  }

  ghost predicate HasId(libs: seq<Library>, id: int) {
    exists i :: 0 <= i < |libs| && libs[i].id == id
  }

  lemma LastHasId(libs: seq<Library>, id: int)
    requires libs != []
    ensures HasId(libs, id) <==> HasId(libs[..|libs| - 1], id) || libs[|libs| - 1].id == id
    ensures DistinctIds(libs) && libs[|libs| - 1].id == id ==> !HasId(libs[..|libs| - 1], id)
  {
    var init := libs[..|libs| - 1];
    if i :| 0 <= i < |libs| && libs[i].id == id && i < |init| { assert init[i].id == id; }
    if i :| 0 <= i < |init| && init[i].id == id { assert libs[i].id == id; }
  }

  lemma OneMoreOf(items: seq<Item>, x: Item, id: int)
    ensures |OfLibrary(items + [x], id)| == |OfLibrary(items, id)| + if x.libraryID == id then 1 else 0
  {
    OfLibraryConcat(items, [x], id);
    OfLibraryUniform([x], id, x.libraryID);
  }

  lemma {:induction false} CountOfOneMore(items: seq<Item>, x: Item, libs: seq<Library>)
    requires DistinctIds(libs)
    ensures CountOf(items + [x], libs) == CountOf(items, libs) + if HasId(libs, x.libraryID) then 1 else 0
  {
    if libs != [] {
      CountOfOneMore(items, x, libs[..|libs| - 1]);
      OneMoreOf(items, x, libs[|libs| - 1].id);
      LastHasId(libs, x.libraryID);
    }
  }

  /** Items of the libraries are counted once each. */
  lemma {:induction false} CountOfAll(items: seq<Item>, libs: seq<Library>)
    requires DistinctIds(libs) && FromLibraries(items, libs)
    ensures CountOf(items, libs) == |items|
  {
    if items == [] {
      CountOfNone(libs);
    } else {
      var init, x := items[..|items| - 1], items[|items| - 1];
      assert items == init + [x];
      forall a | 0 <= a < |init| ensures WrappedFor(init[a], libs) { assert WrappedFor(items[a], libs); }
      CountOfAll(init, libs);
      CountOfOneMore(init, x, libs);
      assert WrappedFor(x, libs) && HasId(libs, x.libraryID);
    }
  }

  /** Every page of the chain reports the number of its books. */
  ghost predicate TellsTotal(pages: seq<Page>) {
    forall i :: 0 <= i < |pages| ==> pages[i].total == |Books(pages, |pages|)|
  }

  /** The books of the libraries that still have a page for call n. */
  function LivingBooks(libs: seq<Library>, backend: Backend, pages: map<int, seq<Page>>, n: nat): nat
    requires forall i :: 0 <= i < |libs| ==> libs[i].id in pages
  {
    if libs == [] then 0
    else
      var chain := pages[libs[|libs| - 1].id];
      LivingBooks(libs[..|libs| - 1], backend, pages, n) +
      if n < |chain| then |Books(chain, |chain|)| else 0
  }

  ghost predicate NeverFails(libs: seq<Library>, backend: Backend, pages: map<int, seq<Page>>)
    requires forall i :: 0 <= i < |libs| ==> libs[i].id in pages
  {
    forall i, m :: 0 <= i < |libs| && 0 <= m < |pages[libs[i].id]| ==> backend(m, libs[i], CursorOf(pages[libs[i].id], m)) != Failed
  }

  lemma TotalOfOne(libs: seq<Library>, backend: Backend, pages: map<int, seq<Page>>, n: nat, i: nat)
    requires World(libs, backend, pages) && i < |libs| && NeverFails(libs, backend, pages) && TellsTotal(pages[libs[i].id])
    ensures TotalFrom(libs[i], After(libs, backend, n), backend, n) ==
            if n < |pages[libs[i].id]| then |Books(pages[libs[i].id], |pages[libs[i].id]|)| else 0
  {
    CursorHoldsTheLiving(libs, backend, pages, n, i);
  }

  lemma {:induction false} TotalsAddUp(libs: seq<Library>, k: nat, backend: Backend, pages: map<int, seq<Page>>, n: nat)
    requires World(libs, backend, pages) && k <= |libs| && NeverFails(libs, backend, pages)
    requires forall i :: 0 <= i < |libs| ==> TellsTotal(pages[libs[i].id])
    ensures PageTotal(libs[..k], After(libs, backend, n), backend, n) == LivingBooks(libs[..k], backend, pages, n)
  {
    if k > 0 {
      assert libs[..k][..k - 1] == libs[..k - 1];
      TotalsAddUp(libs, k - 1, backend, pages, n);
      TotalOfOne(libs, backend, pages, n, k - 1);
    }
  }

  lemma {:induction false} WholeCount(libs: seq<Library>, k: nat, backend: Backend, pages: map<int, seq<Page>>, sign: Signer, n: nat)
    requires World(libs, backend, pages) && k <= |libs| && NeverFails(libs, backend, pages)
    requires n > 0 && Finished(After(libs, backend, n))
    ensures CountOf(Collected(libs, backend, sign, n), libs[..k]) == LivingBooks(libs[..k], backend, pages, 0)
  {
    if k > 0 {
      assert libs[..k][..k - 1] == libs[..k - 1];
      WholeCount(libs, k - 1, backend, pages, sign, n);
      EveryBookExactlyOnce(libs, backend, pages, sign, n, k - 1);
    }
  }

  /** When backends tell their number of books on every page and none fails, the total of each response is
      the number of books of the libraries that still have a page; so the first response's total is the
      number of items that the whole walk returns. */
  lemma FirstTotalCountsTheWalk(libs: seq<Library>, backend: Backend, pages: map<int, seq<Page>>, sign: Signer, n: nat, m: nat)
    requires World(libs, backend, pages) && NeverFails(libs, backend, pages)
    requires forall i :: 0 <= i < |libs| ==> TellsTotal(pages[libs[i].id])
    requires n > 0 && Finished(After(libs, backend, n))
    ensures PageTotal(libs, After(libs, backend, m), backend, m) == LivingBooks(libs, backend, pages, m)
    ensures PageTotal(libs, FirstPage, backend, 0) == |Collected(libs, backend, sign, n)|
  {
    assert libs[..|libs|] == libs;
    TotalsAddUp(libs, |libs|, backend, pages, m);
    TotalsAddUp(libs, |libs|, backend, pages, 0);
    WholeCount(libs, |libs|, backend, pages, sign, n);
    CollectedFromLibraries(libs, backend, sign, n);
    CountOfAll(Collected(libs, backend, sign, n), libs);
  }

  // ---------------------------------------------------------------- distinct references

  predicate DistinctItems(items: seq<Item>) {
    forall a, b :: 0 <= a < b < |items| ==> items[a].id != items[b].id
  }

  /** Where the items at a < b of one library stand in the part of that library. */
  lemma {:induction false} PlaceInLibrary(items: seq<Item>, id: int, b: nat) returns (p: nat)
    requires b < |items| && items[b].libraryID == id
    ensures p < |OfLibrary(items, id)| && OfLibrary(items, id)[p] == items[b]
    ensures p == |OfLibrary(items[..b], id)|
  {
    assert items == items[..b] + items[b..] && items[b..] == [items[b]] + items[b + 1..];
    OfLibraryConcat(items[..b], items[b..], id);
    OfLibraryConcat([items[b]], items[b + 1..], id);
    OfLibraryUniform([items[b]], id, id);
    p := |OfLibrary(items[..b], id)|;
  }

  ghost predicate WrappedFor(item: Item, libs: seq<Library>) {
    exists i, id :: 0 <= i < |libs| && item.libraryID == libs[i].id && item.id == BookRef.EncodeRef(libs[i].id, id)
  }

  /** Every collected item is a wrapped book of one of the libraries. */
  ghost predicate FromLibraries(items: seq<Item>, libs: seq<Library>) {
    forall a :: 0 <= a < |items| ==> WrappedFor(items[a], libs)
  }

  lemma {:induction false} PageFromLibraries(libs: seq<Library>, all: seq<Library>, pos: Position, backend: Backend, call: nat, sign: Signer)
    requires libs <= all
    ensures FromLibraries(PageItems(libs, pos, backend, call, sign), all)
  {
    if libs != [] {
      var init, last := libs[..|libs| - 1], libs[|libs| - 1];
      PageFromLibraries(init, all, pos, backend, call, sign);
      var part := ItemsFrom(last, pos, backend, call, sign);
      forall a | 0 <= a < |part| ensures WrappedFor(part[a], all) {
        var page := backend(call, last, CursorFor(last, pos)).page;
        assert all[|libs| - 1] == last && part[a].id == BookRef.EncodeRef(last.id, page.items[a].id);
      }
    }
  }

  lemma FromLibrariesConcat(a: seq<Item>, b: seq<Item>, libs: seq<Library>)
    requires FromLibraries(a, libs) && FromLibraries(b, libs)
    ensures FromLibraries(a + b, libs)
  {
  }

  lemma ResponseFromLibraries(libs: seq<Library>, backend: Backend, sign: Signer, n: nat)
    ensures FromLibraries(Response(libs, backend, sign, n), libs)
  {
    PageFromLibraries(libs, libs, After(libs, backend, n), backend, n, sign);
  }

  lemma {:induction false} CollectedFromLibraries(libs: seq<Library>, backend: Backend, sign: Signer, n: nat)
    ensures FromLibraries(Collected(libs, backend, sign, n), libs)
  {
    if n > 0 {
      var last := n - 1;
      CollectedFromLibraries(libs, backend, sign, last);
      ResponseFromLibraries(libs, backend, sign, last);
      FromLibrariesConcat(Collected(libs, backend, sign, last), Response(libs, backend, sign, last), libs);
    }
  }

  /** Two collected items of one library differ in reference when its books differ in id. */
  lemma {:induction false} SameLibraryDistinct(items: seq<Item>, id: int, a: nat, b: nat)
    requires a < b < |items| && items[a].libraryID == items[b].libraryID == id && DistinctItems(OfLibrary(items, id))
    ensures items[a].id != items[b].id
  {
    var p := PlaceInLibrary(items, id, a);
    var q := PlaceInLibrary(items, id, b);
    assert items[..b][..a] == items[..a];
    var p' := PlaceInLibrary(items[..b], id, a);
    assert p < q;
  }

  /** Shelves have positive ids; a library without one comes alone. */
  predicate Referable(libs: seq<Library>) {
    && DistinctIds(libs)
    && (forall i :: 0 <= i < |libs| ==> libs[i].id <= BookRef.MAX_INT64)
    && (|libs| > 1 ==> forall i :: 0 <= i < |libs| ==> libs[i].id > 0)
  }

  /** References never collide: if no backend repeats a book id, all items of a walk have distinct ids. */
  lemma AllReferencesDistinct(libs: seq<Library>, backend: Backend, sign: Signer, n: nat)
    requires Referable(libs)
    requires forall i :: 0 <= i < |libs| ==> DistinctItems(OfLibrary(Collected(libs, backend, sign, n), libs[i].id))
    ensures DistinctItems(Collected(libs, backend, sign, n))
  {
    var items := Collected(libs, backend, sign, n);
    CollectedFromLibraries(libs, backend, sign, n);
    forall a, b | 0 <= a < b < |items| ensures items[a].id != items[b].id {
      assert WrappedFor(items[a], libs) && WrappedFor(items[b], libs);
      var i, x :| 0 <= i < |libs| && items[a].libraryID == libs[i].id && items[a].id == BookRef.EncodeRef(libs[i].id, x);
      var j, y :| 0 <= j < |libs| && items[b].libraryID == libs[j].id && items[b].id == BookRef.EncodeRef(libs[j].id, y);
      if libs[i].id == libs[j].id {
        SameLibraryDistinct(items, libs[i].id, a, b);
      } else if items[a].id == items[b].id {
        BookRef.EncodeRefIsInjective(libs[i].id, x, libs[j].id, y);
      }
    }
  }

  /** Wrapping keeps distinct book ids distinct. */
  lemma WrappedDistinct(items: seq<Item>, lib: Library, sign: Signer)
    requires DistinctItems(items) && lib.id <= BookRef.MAX_INT64
    ensures DistinctItems(Wrapped(items, lib, sign))
  {
    forall a, b | 0 <= a < b < |items| ensures Wrapped(items, lib, sign)[a].id != Wrapped(items, lib, sign)[b].id {
      if lib.id > 0 && Wrapped(items, lib, sign)[a].id == Wrapped(items, lib, sign)[b].id {
        BookRef.EncodeRefIsInjective(lib.id, items[a].id, lib.id, items[b].id);
      }
    }
  }

  lemma {:induction false} BooksPrefix(pages: seq<Page>, k: nat, n: nat)
    requires k <= n <= |pages|
    ensures Books(pages, k) <= Books(pages, n)
  {
    if k < n { BooksPrefix(pages, k, n - 1); }
  }

  /** No duplication over the whole response list: when no backend repeats a book id, all references
      of a walk of any length, failures included, are distinct. */
  lemma WalkHasDistinctReferences(libs: seq<Library>, backend: Backend, pages: map<int, seq<Page>>, sign: Signer, n: nat)
    requires World(libs, backend, pages) && Referable(libs)
    requires forall i :: 0 <= i < |libs| ==> DistinctItems(Books(pages[libs[i].id], |pages[libs[i].id]|))
    ensures DistinctItems(Collected(libs, backend, sign, n))
  {
    forall i | 0 <= i < |libs| ensures DistinctItems(OfLibrary(Collected(libs, backend, sign, n), libs[i].id)) {
      var chain := pages[libs[i].id];
      WalkDeliversEachLibrary(libs, backend, pages, sign, n, i);
      var k := Delivered(backend, libs[i], chain, n);
      ExpectedIsPrefix(backend, libs[i], chain, sign, n);
      BooksPrefix(chain, k, |chain|);
      WrappedDistinct(Books(chain, k), libs[i], sign);
    }
    AllReferencesDistinct(libs, backend, sign, n);
  }

  /** The opaque token carries the walk: what the client sends back means the position reached. */
  lemma TokenMeansPosition(libs: seq<Library>, backend: Backend, json: Json, n: nat)
    requires Faithful(json) && n > 0
    ensures var token := EncodeCursor(After(libs, backend, n).cursors, json);
      && (token == [] <==> Finished(After(libs, backend, n)))
      && (token != [] ==> DecodeCursor(token, json) == Some(After(libs, backend, n).cursors))
  {
    CursorRoundTrip(After(libs, backend, n).cursors, json);
  }

  // ---------------------------------------------------------------- every catalogue can be walked

  /** A chain whose pages can be told apart by their cursors. */
  ghost predicate IsNamedChain(pages: seq<Page>) {
    IsChain(pages) && forall m: nat, n: nat :: m < n < |pages| ==> CursorOf(pages, m) != CursorOf(pages, n)
  }

  /** The page among the first n that the cursor names. */
  function Find(pages: seq<Page>, cursor: string, n: nat): Reply
    requires n <= |pages|
  {
    if n == 0 then Failed else if CursorOf(pages, n - 1) == cursor then Answered(pages[n - 1]) else Find(pages, cursor, n - 1)
  }

  lemma {:induction false} FindsItsPage(pages: seq<Page>, m: nat, n: nat)
    requires IsNamedChain(pages) && m < n <= |pages|
    ensures Find(pages, CursorOf(pages, m), n) == Answered(pages[m])
  {
    if m < n - 1 { FindsItsPage(pages, m, n - 1); }
  }

  /** A backend that always answers. */
  function Answering(pages: map<int, seq<Page>>): Backend {
    (call: nat, lib: Library, cursor: string) => if lib.id in pages then Find(pages[lib.id], cursor, |pages[lib.id]|) else Failed
  }

  lemma AnsweringIsStable(lib: Library, pages: map<int, seq<Page>>)
    requires lib.id in pages && IsNamedChain(pages[lib.id])
    ensures Stable(Answering(pages), lib, pages[lib.id])
    ensures forall m: nat :: m < |pages[lib.id]| ==> Answering(pages)(m, lib, CursorOf(pages[lib.id], m)) != Failed
  {
    var chain := pages[lib.id];
    forall n: nat | n < |chain| ensures Find(chain, CursorOf(chain, n), |chain|) == Answered(chain[n]) { FindsItsPage(chain, n, |chain|); }
  }

  lemma {:induction false} LongEnough(libs: seq<Library>, pages: map<int, seq<Page>>, k: nat) returns (n: nat)
    requires k <= |libs| && forall i :: 0 <= i < |libs| ==> libs[i].id in pages
    ensures n > 0 && forall i :: 0 <= i < k ==> |pages[libs[i].id]| <= n
  {
    n := 1;
    if k > 0 {
      n := LongEnough(libs, pages, k - 1);
      if |pages[libs[k - 1].id]| > n { n := |pages[libs[k - 1].id]|; }
    }
  }

  /** Whatever books the libraries have, on however many pages each, a backend that answers is walked to
      its end, and by then every book of every library has been served once, in order. */
  lemma EveryCatalogueIsWalked(libs: seq<Library>, pages: map<int, seq<Page>>, sign: Signer) returns (n: nat)
    requires DistinctIds(libs) && forall i :: 0 <= i < |libs| ==> libs[i].id in pages && IsNamedChain(pages[libs[i].id])
    ensures Finished(After(libs, Answering(pages), n))
    ensures forall i :: 0 <= i < |libs| ==>
      var books := Books(pages[libs[i].id], |pages[libs[i].id]|);
      AllServedAs(OfLibrary(Collected(libs, Answering(pages), sign, n), libs[i].id), books, libs[i], sign)
  {
    var backend := Answering(pages);
    forall i | 0 <= i < |libs|
      ensures Stable(backend, libs[i], pages[libs[i].id])
      ensures forall m: nat :: m < |pages[libs[i].id]| ==> backend(m, libs[i], CursorOf(pages[libs[i].id], m)) != Failed
    {
      AnsweringIsStable(libs[i], pages);
    }
    n := LongEnough(libs, pages, |libs|);
    WalkLength(libs, backend, pages, n);
    forall i: nat | i < |libs|
      ensures AllServedAs(OfLibrary(Collected(libs, backend, sign, n), libs[i].id), Books(pages[libs[i].id], |pages[libs[i].id]|), libs[i], sign)
    {
      EveryBookExactlyOnce(libs, backend, pages, sign, n, i);
    }
  }
}
