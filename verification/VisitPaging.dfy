/**
 Keyset paging over the visit list: one page with its extra row, and what a client sees that follows
 `nextCursor` to the end while visits come, go and move between the pages.
 */
module VisitPaging {
  import opened Wrappers
  import opened VisitCursor

  /** What orders the list; ids are compared byte by byte. */
  datatype Key = Key(startAt: Instant, id: VisitId)

  /** The visits the query matches, each with its start, at the time a page is read. */
  type Matching = map<VisitId, Instant>

  ghost predicate MatchingOk(db: Matching) {
    forall id :: id in db ==> id != "" && IsByteString(id) && IsInstant(db[id])
  }

  function KeysOf(db: Matching): set<Key> {
    set id | id in db :: Key(db[id], id)
  }

  // ---------------------------------------------------------------------------
  // The order
  // ---------------------------------------------------------------------------

  function IdCodes(id: VisitId): seq<int> {
    seq(|id|, i requires 0 <= i < |id| => id[i] as int)
  }

  function TimeCodes(t: Instant): seq<int> {
    [t.year, t.month, t.day, t.hour, t.minute, t.second, t.nanos]
  }

  function Codes(k: Key): seq<int> {
    TimeCodes(k.startAt) + IdCodes(k.id)
  }

  predicate Less(a: seq<int>, b: seq<int>) {
    if b == [] then false
    else if a == [] then true
    else if a[0] != b[0] then a[0] < b[0]
    else Less(a[1..], b[1..])
  }

  /** Row comparison: first the start, then the id. */
  predicate Before(a: Key, b: Key) {
    Less(Codes(a), Codes(b))
  }

  lemma {:induction false} LessIsTotal(a: seq<int>, b: seq<int>)
    ensures a == b || Less(a, b) || Less(b, a)
    ensures !(Less(a, b) && Less(b, a)) && !Less(a, a)
    decreases |a| + |b|
  {
    if a != [] && b != [] && a[0] == b[0] {
      LessIsTotal(a[1..], b[1..]);
      assert a == [a[0]] + a[1..] && b == [b[0]] + b[1..];
    }
    if a != [] && b != a {
      LessIrreflexive(a);
    } else if a != [] {
      LessIrreflexive(a);
    }
  }

  lemma {:induction false} LessIrreflexive(a: seq<int>)
    ensures !Less(a, a)
  {
    if a != [] {
      LessIrreflexive(a[1..]);
    }
  }

  lemma {:induction false} LessIsTransitive(a: seq<int>, b: seq<int>, c: seq<int>)
    requires Less(a, b) && Less(b, c)
    ensures Less(a, c)
  {
    if a != [] && a[0] == b[0] && b[0] == c[0] {
      LessIsTransitive(a[1..], b[1..], c[1..]);
    }
  }

  lemma CodesAreInjective(a: Key, b: Key)
    requires Codes(a) == Codes(b)
    ensures a == b
  {
    assert forall i :: 0 <= i < 7 ==> Codes(a)[i] == Codes(b)[i];
    assert Codes(a)[7..] == IdCodes(a.id) && Codes(b)[7..] == IdCodes(b.id);
    assert |a.id| == |b.id|;
    forall i | 0 <= i < |a.id| ensures a.id[i] == b.id[i] {
      assert IdCodes(a.id)[i] == IdCodes(b.id)[i];
    }
  }

  lemma {:induction false} LessAppend(a: seq<int>, b: seq<int>, c: seq<int>, d: seq<int>)
    requires |a| == |b|
    ensures Less(a + c, b + d) <==> Less(a, b) || (a == b && Less(c, d))
  {
    if a == [] {
      assert a + c == c && b + d == d;
    } else {
      assert (a + c)[1..] == a[1..] + c && (b + d)[1..] == b[1..] + d;
      LessAppend(a[1..], b[1..], c, d);
      assert a == [a[0]] + a[1..] && b == [b[0]] + b[1..];
    }
  }

  /** The comparison is that of SQL rows: an earlier start, or the same start and a smaller id. */
  lemma RowComparison(a: Key, b: Key)
    ensures Before(a, b) <==>
            || Less(TimeCodes(a.startAt), TimeCodes(b.startAt))
            || (a.startAt == b.startAt && Less(IdCodes(a.id), IdCodes(b.id)))
  {
    LessAppend(TimeCodes(a.startAt), TimeCodes(b.startAt), IdCodes(a.id), IdCodes(b.id));
    if TimeCodes(a.startAt) == TimeCodes(b.startAt) {
      assert forall i :: 0 <= i < 7 ==> TimeCodes(a.startAt)[i] == TimeCodes(b.startAt)[i];
    }
  }

  lemma OrderIsTotal(a: Key, b: Key)
    ensures a == b || Before(a, b) || Before(b, a)
    ensures !(Before(a, b) && Before(b, a)) && !Before(a, a)
  {
    LessIsTotal(Codes(a), Codes(b));
    LessIrreflexive(Codes(a));
    if Codes(a) == Codes(b) {
      CodesAreInjective(a, b);
    }
  }

  lemma OrderIsTransitive(a: Key, b: Key, c: Key)
    requires Before(a, b) && Before(b, c)
    ensures Before(a, c)
  {
    LessIsTransitive(Codes(a), Codes(b), Codes(c));
  }

  ghost predicate Descending(keys: seq<Key>) {
    forall i, j :: 0 <= i < j < |keys| ==> Before(keys[j], keys[i])
  }

  // ---------------------------------------------------------------------------
  // One page
  // ---------------------------------------------------------------------------

  predicate IsLatest(k: Key, keys: set<Key>) {
    k in keys && forall other :: other in keys && other != k ==> Before(other, k)
  }

  lemma {:induction false} LatestExists(keys: set<Key>)
    requires keys != {}
    ensures exists k :: IsLatest(k, keys)
    decreases |keys|
  {
    var k :| k in keys;
    var rest := keys - {k};
    assert keys == rest + {k};
    if rest == {} {
      assert IsLatest(k, keys);
    } else {
      LatestExists(rest);
      var m :| IsLatest(m, rest);
      OrderIsTotal(k, m);
      if Before(k, m) {
        assert IsLatest(m, keys);
      } else {
        forall other | other in keys && other != k ensures Before(other, k) {
          if other != m {
            OrderIsTransitive(other, m, k);
          }
        }
        assert IsLatest(k, keys);
      }
    }
  }

  /** ORDER BY start_at DESC, id DESC. */
  ghost function Ordered(keys: set<Key>): (s: seq<Key>)
    ensures Descending(s) && |s| == |keys|
    ensures forall k :: k in s <==> k in keys
    decreases |keys|
  {
    if keys == {} then []
    else
      LatestExists(keys);
      var k :| IsLatest(k, keys);
      var rest := Ordered(keys - {k});
      LatestFirst(k, keys, rest);
      [k] + rest
  }

  lemma LatestFirst(k: Key, keys: set<Key>, rest: seq<Key>)
    requires IsLatest(k, keys) && Descending(rest)
    requires forall other :: other in rest <==> other in keys - {k}
    ensures Descending([k] + rest)
    ensures forall other :: other in [k] + rest <==> other in keys
  {
    var s := [k] + rest;
    forall i, j | 0 <= i < j < |s| ensures Before(s[j], s[i]) {
      assert s[j] == rest[j - 1] && s[j] in rest;
    }
  }

  /** The rows behind the cursor; a cursor that does not decode is no cursor. */
  ghost function Selected(db: Matching, cursor: string): set<Key> {
    match DecodeCursor(cursor)
    case None => KeysOf(db)
    case Some((startAt, id)) => set k | k in KeysOf(db) && Before(k, Key(startAt, id))
  }

  function PageSize(limit: int): nat {
    if limit < 1 then 100 else limit
  }

  function Front(rows: seq<Key>, n: nat): seq<Key> {
    if |rows| > n then rows[..n] else rows
  }

  predicate KeyOk(k: Key) {
    k.id != "" && IsByteString(k.id) && IsInstant(k.startAt)
  }

  predicate KeysOk(rows: seq<Key>) {
    forall i :: 0 <= i < |rows| ==> KeyOk(rows[i])
  }

  /** The last row kept, if there was one more. */
  function CursorBehind(rows: seq<Key>, size: nat): string
    requires KeysOk(rows) && size > 0
  {
    if |rows| > size then EncodeCursor(rows[size - 1].startAt, rows[size - 1].id) else ""
  }

  /** A hundred rows or as many as asked for, and a cursor at the last of them exactly if there are more. */
  predicate IsPage(rows: seq<Key>, limit: int, items: seq<Key>, nextCursor: string)
    requires KeysOk(rows)
  {
    var size := if limit < 1 then 100 else limit;
    && items <= rows && |items| == (if |rows| > size then size else |rows|)
    && nextCursor == if |rows| > size then EncodeCursor(rows[size - 1].startAt, rows[size - 1].id) else ""
  }

  lemma PageMeans(rows: seq<Key>, limit: int)
    requires KeysOk(rows)
    ensures IsPage(rows, limit, Front(rows, PageSize(limit)), CursorBehind(rows, PageSize(limit)))
  {
  }

  /** Collects the returned rows and cuts off the extra one. */
  method CollectPage(rows: seq<Key>, size: nat) returns (items: seq<Key>, more: bool)
    ensures items == Front(rows, size) && (more <==> |rows| > size)
  {
    items := [];
    for i := 0 to |rows|
      invariant items == rows[..i]
    {
      items := items + [rows[i]];
    }
    more := |items| > size;
    if more {
      items := items[..size];
    }
  }

  /** Turns the last row kept into a cursor if there was one more. */
  method QueryVisits(rows: seq<Key>, limit: int) returns (items: seq<Key>, nextCursor: string)
    requires KeysOk(rows)
    ensures items == Front(rows, PageSize(limit))
    ensures nextCursor == CursorBehind(rows, PageSize(limit))
    ensures IsPage(rows, limit, items, nextCursor)
  {
    PageMeans(rows, limit);
    var size := if limit < 1 then 100 else limit;
    var more;
    items, more := CollectPage(rows, size);
    if !more {
      return items, "";
    }
    var last := items[|items| - 1];
    assert last == rows[size - 1];
    nextCursor := EncodeCursor(last.startAt, last.id);
  }

  lemma SelectedOk(db: Matching, cursor: string)
    requires MatchingOk(db)
    ensures KeysOk(Ordered(Selected(db, cursor)))
  {
    var keys := Selected(db, cursor);
    assert forall k :: k in keys ==> k in KeysOf(db);
    forall i | 0 <= i < |Ordered(keys)| ensures KeyOk(Ordered(keys)[i]) {
      assert Ordered(keys)[i] in keys;
    }
  }

  /** What the database returns: one row more than the page shows. */
  ghost function Fetched(db: Matching, cursor: string, limit: int): (rows: seq<Key>)
    requires MatchingOk(db)
    ensures KeysOk(rows)
  {
    SelectedOk(db, cursor);
    Front(Ordered(Selected(db, cursor)), PageSize(limit) + 1)
  }

  ghost function Page(db: Matching, cursor: string, limit: int): seq<Key>
    requires MatchingOk(db)
  {
    Front(Fetched(db, cursor, limit), PageSize(limit))
  }

  ghost function NextCursor(db: Matching, cursor: string, limit: int): string
    requires MatchingOk(db)
  {
    CursorBehind(Fetched(db, cursor, limit), PageSize(limit))
  }

  lemma PrefixDescends(rows: seq<Key>, n: nat)
    requires Descending(rows) && 0 < n <= |rows|
    ensures Descending(rows[..n])
    ensures forall k :: k in rows && k !in rows[..n] ==> Before(k, rows[n - 1])
  {
    forall k | k in rows && k !in rows[..n] ensures Before(k, rows[n - 1]) {
      var i :| 0 <= i < |rows| && rows[i] == k;
      assert i < n ==> rows[..n][i] == k;
    }
  }

  /** One extra row is enough to tell a full page from the last one. */
  lemma ExtraRow(rows: seq<Key>, size: nat)
    requires size > 0 && KeysOk(rows)
    ensures Front(Front(rows, size + 1), size) == Front(rows, size)
    ensures KeysOk(Front(rows, size + 1))
    ensures CursorBehind(Front(rows, size + 1), size) == CursorBehind(rows, size)
  {
  }

  lemma CursorLeadsBack(rows: seq<Key>, size: nat)
    requires size > 0 && KeysOk(rows)
    ensures CursorBehind(rows, size) != "" <==> |rows| > size
    ensures |rows| > size ==>
              DecodeCursor(CursorBehind(rows, size)) == Some((rows[size - 1].startAt, rows[size - 1].id))
  {
    if |rows| > size {
      CursorRoundTrip(rows[size - 1].startAt, rows[size - 1].id);
    }
  }

  /** Every row of a page is behind the cursor; what is behind and missing is behind the next one. */
  lemma PageSplits(db: Matching, cursor: string, limit: int)
    requires MatchingOk(db)
    ensures Descending(Page(db, cursor, limit))
    ensures forall k :: k in Page(db, cursor, limit) ==> k in Selected(db, cursor)
    ensures NextCursor(db, cursor, limit) == "" ==>
              forall k :: k in Selected(db, cursor) ==> k in Page(db, cursor, limit)
    ensures NextCursor(db, cursor, limit) != "" ==>
              var page := Page(db, cursor, limit);
              && page != []
              && DecodeCursor(NextCursor(db, cursor, limit)) == Some((page[|page| - 1].startAt, page[|page| - 1].id))
              && forall k :: k in Selected(db, cursor) && k !in page ==> Before(k, page[|page| - 1])
  {
    var rows, size := Ordered(Selected(db, cursor)), PageSize(limit);
    SelectedOk(db, cursor);
    ExtraRow(rows, size);
    CursorLeadsBack(rows, size);
    if |rows| > size {
      PrefixDescends(rows, size);
    }
  }

  // ---------------------------------------------------------------------------
  // A walk over the pages
  // ---------------------------------------------------------------------------

  ghost predicate AllOk(dbs: seq<Matching>) {
    forall i :: 0 <= i < |dbs| ==> MatchingOk(dbs[i])
  }

  /** The visits a client has seen that reads one page of each database state in turn. */
  ghost function Walk(dbs: seq<Matching>, cursor: string, limit: int): seq<Key>
    requires AllOk(dbs)
    decreases |dbs|
  {
    if dbs == [] then []
    else
      var next := NextCursor(dbs[0], cursor, limit);
      Page(dbs[0], cursor, limit) + if next == "" then [] else Walk(dbs[1..], next, limit)
  }

  /** The walk came to a page without a next cursor. */
  ghost predicate Finished(dbs: seq<Matching>, cursor: string, limit: int)
    requires AllOk(dbs)
    decreases |dbs|
  {
    dbs != [] &&
    var next := NextCursor(dbs[0], cursor, limit);
    next == "" || Finished(dbs[1..], next, limit)
  }

  predicate Behind(k: Key, cursor: string) {
    match DecodeCursor(cursor)
    case None => true
    case Some((startAt, id)) => Before(k, Key(startAt, id))
  }

  lemma FurtherBehind(k: Key, last: Key, cursor: string)
    requires Before(k, last) && Behind(last, cursor)
    ensures Behind(k, cursor)
  {
    if DecodeCursor(cursor).Some? {
      OrderIsTransitive(k, last, Key(DecodeCursor(cursor).value.0, DecodeCursor(cursor).value.1));
    }
  }

  /** A visit that matches at every page with an unchanged schedule. */
  ghost predicate Stays(k: Key, dbs: seq<Matching>) {
    forall i :: 0 <= i < |dbs| ==> k in KeysOf(dbs[i])
  }

  lemma JoinDescending(a: seq<Key>, b: seq<Key>, last: Key)
    requires Descending(a) && Descending(b)
    requires a != [] && last == a[|a| - 1]
    requires forall k :: k in b ==> Before(k, last)
    ensures Descending(a + b)
  {
    var s := a + b;
    forall i, j | 0 <= i < j < |s| ensures Before(s[j], s[i]) {
      if i < |a| <= j {
        assert s[j] in b;
        if i < |a| - 1 {
          OrderIsTransitive(s[j], last, s[i]);
        }
      }
    }
  }

  /** Pages go down in strict order, whatever happens to the visits in between. */
  lemma {:induction false} WalkDescends(dbs: seq<Matching>, cursor: string, limit: int)
    requires AllOk(dbs)
    ensures Descending(Walk(dbs, cursor, limit))
    ensures forall k :: k in Walk(dbs, cursor, limit) ==> Behind(k, cursor)
    decreases |dbs|
  {
    if dbs != [] {
      PageSplits(dbs[0], cursor, limit);
      var page, next := Page(dbs[0], cursor, limit), NextCursor(dbs[0], cursor, limit);
      if next != "" {
        var last := page[|page| - 1];
        var rest := Walk(dbs[1..], next, limit);
        WalkDescends(dbs[1..], next, limit);
        JoinDescending(page, rest, last);
        forall k | k in rest ensures Behind(k, cursor) {
          assert last in page;
          FurtherBehind(k, last, cursor);
        }
      }
    }
  }

  /** A finished walk has shown every visit that stayed where it was. */
  lemma {:induction false} WalkShows(dbs: seq<Matching>, cursor: string, limit: int, k: Key)
    requires AllOk(dbs) && Finished(dbs, cursor, limit)
    requires Stays(k, dbs) && Behind(k, cursor)
    ensures k in Walk(dbs, cursor, limit)
    decreases |dbs|
  {
    PageSplits(dbs[0], cursor, limit);
    assert k in KeysOf(dbs[0]);
    assert k in Selected(dbs[0], cursor);
    if k !in Page(dbs[0], cursor, limit) {
      var next := NextCursor(dbs[0], cursor, limit);
      WalkShows(dbs[1..], next, limit, k);
    }
  }

  ghost function CountId(keys: seq<Key>, id: VisitId): nat {
    if keys == [] then 0 else CountId(keys[1..], id) + if keys[0].id == id then 1 else 0
  }

  /** What was shown was there when its page was read. */
  lemma {:induction false} WalkShowsOnlyMatches(dbs: seq<Matching>, cursor: string, limit: int)
    requires AllOk(dbs)
    ensures forall k :: k in Walk(dbs, cursor, limit) ==> exists i :: 0 <= i < |dbs| && k in KeysOf(dbs[i])
    decreases |dbs|
  {
    if dbs != [] {
      PageSplits(dbs[0], cursor, limit);
      var next := NextCursor(dbs[0], cursor, limit);
      if next != "" {
        WalkShowsOnlyMatches(dbs[1..], next, limit);
      }
      forall k | k in Walk(dbs, cursor, limit) ensures exists i :: 0 <= i < |dbs| && k in KeysOf(dbs[i]) {
        if k in Page(dbs[0], cursor, limit) {
          assert k in KeysOf(dbs[0]);
        } else {
          var i :| 0 <= i < |dbs[1..]| && k in KeysOf(dbs[1..][i]);
          assert dbs[i + 1] == dbs[1..][i];
        }
      }
    }
  }

  lemma {:induction false} AppearsOnce(keys: seq<Key>, k: Key)
    requires Descending(keys) && k in keys
    requires forall other :: other in keys && other.id == k.id ==> other == k
    ensures CountId(keys, k.id) == 1
  {
    if keys[0] == k {
      forall i | 0 <= i < |keys[1..]| ensures keys[1..][i].id != k.id {
        assert Before(keys[i + 1], keys[0]);
        OrderIsTotal(keys[i + 1], keys[0]);
        assert keys[i + 1] in keys;
      }
      NoSuchId(keys[1..], k.id);
    } else {
      assert keys[0] in keys;
      AppearsOnce(keys[1..], k);
    }
  }

  lemma {:induction false} NoSuchId(keys: seq<Key>, id: VisitId)
    requires forall i :: 0 <= i < |keys| ==> keys[i].id != id
    ensures CountId(keys, id) == 0
  {
    if keys != [] {
      NoSuchId(keys[1..], id);
    }
  }

  /**
   Following the cursor to the end gives a strictly descending list in which every visit that matched
   all along with one schedule appears exactly once.
   */
  lemma EveryStayingVisitOnce(dbs: seq<Matching>, limit: int, k: Key)
    requires AllOk(dbs) && Finished(dbs, "", limit) && Stays(k, dbs)
    ensures Descending(Walk(dbs, "", limit))
    ensures k in Walk(dbs, "", limit) && CountId(Walk(dbs, "", limit), k.id) == 1
  {
    var walk := Walk(dbs, "", limit);
    WalkDescends(dbs, "", limit);
    WalkShows(dbs, "", limit, k);
    WalkShowsOnlyMatches(dbs, "", limit);
    forall other | other in walk && other.id == k.id ensures other == k {
      var i :| 0 <= i < |dbs| && other in KeysOf(dbs[i]);
      assert k in KeysOf(dbs[i]);
    }
    AppearsOnce(walk, k);
  }

  // ---------------------------------------------------------------------------
  // Walks end
  // ---------------------------------------------------------------------------

  /** Once nothing changes any more, each page takes a full page off what is left. */
  lemma {:induction false} QuietWalkFinishes(dbs: seq<Matching>, db: Matching, cursor: string, limit: int)
    requires AllOk(dbs) && (forall i :: 0 <= i < |dbs| ==> dbs[i] == db)
    requires |Selected(db, cursor)| < |dbs|
    ensures Finished(dbs, cursor, limit)
    decreases |dbs|
  {
    assert MatchingOk(dbs[0]);
    PageSplits(db, cursor, limit);
    var next := NextCursor(db, cursor, limit);
    if next != "" {
      FewerLeft(db, cursor, limit);
      QuietWalkFinishes(dbs[1..], db, next, limit);
    }
  }

  /** Fewer visits are behind the next cursor than behind this one. */
  lemma FewerLeft(db: Matching, cursor: string, limit: int)
    requires MatchingOk(db) && NextCursor(db, cursor, limit) != ""
    ensures |Selected(db, NextCursor(db, cursor, limit))| < |Selected(db, cursor)|
  {
    PageSplits(db, cursor, limit);
    var page := Page(db, cursor, limit);
    FewerBehind(db, cursor, NextCursor(db, cursor, limit), page[|page| - 1]);
  }

  lemma FewerBehind(db: Matching, cursor: string, next: string, last: Key)
    requires last in Selected(db, cursor) && DecodeCursor(next) == Some((last.startAt, last.id))
    ensures |Selected(db, next)| < |Selected(db, cursor)|
  {
    forall k | k in Selected(db, next) ensures k in Selected(db, cursor) {
      FurtherBehind(k, last, cursor);
    }
    OrderIsTotal(last, last);
    assert last !in Selected(db, next);
    Smaller(Selected(db, next), Selected(db, cursor));
  }

  lemma {:induction false} Smaller<T>(a: set<T>, b: set<T>)
    requires a < b
    ensures |a| < |b|
  {
    var x :| x in b && x !in a;
    assert a + (b - a) == b;
    assert x in b - a;
  }

  lemma SelectedIsSmall(db: Matching, cursor: string)
    ensures |Selected(db, cursor)| <= |KeysOf(db)|
  {
    if Selected(db, cursor) != KeysOf(db) {
      Smaller(Selected(db, cursor), KeysOf(db));
    }
  }

  /** However long visits keep changing, the walk ends within a bounded number of pages after that. */
  lemma {:induction false} EveryWalkFinishes(changing: seq<Matching>, db: Matching, cursor: string, limit: int)
    requires AllOk(changing) && MatchingOk(db)
    ensures AllOk(changing + seq(|KeysOf(db)| + 1, _ => db))
    ensures Finished(changing + seq(|KeysOf(db)| + 1, _ => db), cursor, limit)
    decreases |changing|
  {
    var quiet := seq(|KeysOf(db)| + 1, _ => db);
    if changing == [] {
      assert changing + quiet == quiet;
      SelectedIsSmall(db, cursor);
      QuietWalkFinishes(quiet, db, cursor, limit);
    } else {
      assert (changing + quiet)[1..] == changing[1..] + quiet;
      assert (changing + quiet)[0] == changing[0];
      EveryWalkFinishes(changing[1..], db, NextCursor(changing[0], cursor, limit), limit);
    }
  }
}
