/**
 The two paginated readers of nix/docker-compose/outline-group-sync/sync.py against a server
 that may answer anything: a list comes back only when its keys are distinct and its length is
 the declared one, and an unchanging list comes back whole.
*/
module Pagination {
  import opened Wrappers

  // None stands for a request that failed or a payload of the wrong shape.
  datatype AuthentikPage<T> = AuthentikPage(totalPages: int, count: int, next: bool, results: seq<T>)
  datatype OutlinePage<T> = OutlinePage(total: int, data: seq<T>)

  ghost predicate DistinctKeys<T>(rows: seq<T>, key: T -> string) {
    forall i, j :: 0 <= i < j < |rows| ==> key(rows[i]) != key(rows[j])
  }

  ghost function Keys<T>(rows: seq<T>, key: T -> string): set<string> {
    set i | 0 <= i < |rows| :: key(rows[i])
  }

  /** The inner loop of both readers: no key may come twice. */
  method TakeBatch<T>(seen: set<string>, batch: seq<T>, key: T -> string) returns (r: Option<set<string>>)
    ensures r.Some? <==> DistinctKeys(batch, key) && Keys(batch, key) !! seen
    ensures r.Some? ==> r.value == seen + Keys(batch, key)
  {
    var now := seen;
    for i := 0 to |batch|
      invariant now == seen + Keys(batch[..i], key)
      invariant DistinctKeys(batch[..i], key) && Keys(batch[..i], key) !! seen
    {
      if key(batch[i]) in now {
        assert key(batch[i]) in Keys(batch, key);
        return None;
      }
      now := now + {key(batch[i])};
      assert batch[..i + 1] == batch[..i] + [batch[i]];
    }
    assert batch[..|batch|] == batch;
    return Some(now);
  }

  lemma ConcatKeys<T>(a: seq<T>, b: seq<T>, key: T -> string)
    ensures Keys(a + b, key) == Keys(a, key) + Keys(b, key)
    ensures DistinctKeys(a + b, key) <==> DistinctKeys(a, key) && DistinctKeys(b, key) && Keys(b, key) !! Keys(a, key)
  {
    var c := a + b;
    forall k | k in Keys(a, key) + Keys(b, key) ensures k in Keys(c, key) {
      if k in Keys(a, key) {
        var i :| 0 <= i < |a| && key(a[i]) == k;
        assert c[i] == a[i];
      } else {
        var i :| 0 <= i < |b| && key(b[i]) == k;
        assert c[|a| + i] == b[i];
      }
    }
    assert forall i :: 0 <= i < |a| ==> c[i] == a[i];
    assert forall i :: 0 <= i < |b| ==> c[|a| + i] == b[i];
    if DistinctKeys(c, key) {
      forall i, j | 0 <= i < j < |b| ensures key(b[i]) != key(b[j]) {
        assert c[|a| + i] == b[i] && c[|a| + j] == b[j];
      }
      forall i, j | 0 <= i < |a| && 0 <= j < |b| ensures key(a[i]) != key(b[j]) {
        assert c[i] == a[i] && c[|a| + j] == b[j];
      }
    }
    if DistinctKeys(a, key) && DistinctKeys(b, key) && Keys(b, key) !! Keys(a, key) {
      forall i, j | 0 <= i < j < |c| ensures key(c[i]) != key(c[j]) {
        if i < |a| <= j {
          assert key(a[i]) in Keys(a, key) && key(b[j - |a|]) in Keys(b, key);
        } else if |a| <= i {
          assert key(b[i - |a|]) != key(b[j - |a|]);
        }
      }
    }
  }

  // ----- authentik_list -----

  /** The concatenation of the batches of pages 1..n. */
  ghost function Pages<T>(respond: nat -> Option<AuthentikPage<T>>, n: nat): seq<T> {
    if n == 0 then []
    else Pages(respond, n - 1) + (if respond(n).Some? then respond(n).value.results else [])
  }

  /** Pages 1..n came, all with the totals of page 1, and only the n-th may be the last. */
  ghost predicate Consistent<T>(respond: nat -> Option<AuthentikPage<T>>, n: nat) {
    && (n >= 1 ==> respond(1).Some?)
    && (forall p :: 1 <= p <= n ==>
          && respond(p).Some?
          && respond(p).value.totalPages == respond(1).value.totalPages
          && respond(p).value.count == respond(1).value.count)
    && (forall p :: 1 <= p < n ==> respond(p).value.next && respond(p).value.results != []
                                   && p < respond(1).value.totalPages)
  }

  /** A whole list in n pages. */
  ghost predicate WholeList<T>(respond: nat -> Option<AuthentikPage<T>>, key: T -> string, n: nat) {
    && n >= 1 && Consistent(respond, n) && !respond(n).value.next
    && DistinctKeys(Pages(respond, n), key)
    && |Pages(respond, n)| == respond(1).value.count
    && n == (if respond(1).value.totalPages < 1 then 1 else respond(1).value.totalPages)
  }

  lemma PagesPrefix<T>(respond: nat -> Option<AuthentikPage<T>>, key: T -> string, m: nat, n: nat)
    requires m <= n && DistinctKeys(Pages(respond, n), key)
    ensures DistinctKeys(Pages(respond, m), key)
  {
    if m < n {
      ConcatKeys(Pages(respond, n - 1), if respond(n).Some? then respond(n).value.results else [], key);
      PagesPrefix(respond, key, m, n - 1);
    }
  }

  /** `authentik_list`: page after page until the last; `respond` is whatever the server answers. */
  method AuthentikList<T>(respond: nat -> Option<AuthentikPage<T>>, key: T -> string)
    returns (r: Option<seq<T>>, ghost n: nat)
    ensures r.Some? ==> WholeList(respond, key, n) && r.value == Pages(respond, n)
    ensures r.None? ==> forall m :: !WholeList(respond, key, m)
  {
    var rows: seq<T>, seen: set<string>, page := [], {}, 1;
    var pages, count := 0, 0;
    n := 0;
    while true
      invariant page == n + 1
      invariant rows == Pages(respond, n) && seen == Keys(rows, key) && DistinctKeys(rows, key)
      invariant n > 0 ==> respond(1).Some? && pages == respond(1).value.totalPages && count == respond(1).value.count
      invariant Consistent(respond, n)
      invariant forall p :: 1 <= p <= n ==> respond(p).value.next && respond(p).value.results != [] && p < pages
      decreases if n == 0 then 1 else 0, pages - page
    {
      var result := respond(page);
      if result.None? {
        return None, n;
      }
      if page == 1 {
        pages, count := result.value.totalPages, result.value.count;
      }
      if result.value.totalPages != pages || result.value.count != count {
        return None, n;
      }
      var batch := result.value.results;
      ConcatKeys(rows, batch, key);
      assert Pages(respond, page) == rows + batch;
      var now := TakeBatch(seen, batch, key);
      if now.None? {
        forall m: nat | m > n ensures !WholeList(respond, key, m) {
          if DistinctKeys(Pages(respond, m), key) {
            PagesPrefix(respond, key, page, m);
          }
        }
        return None, n;
      }
      seen, rows := now.value, rows + batch;
      if !result.value.next {
        if |rows| != count || page != (if pages < 1 then 1 else pages) {
          return None, n;
        }
        return Some(rows), page;
      }
      if batch == [] || page >= pages {
        return None, n;
      }
      n := page;
      page := page + 1;
    }
  }

  // ----- outline_list -----

  /** The rows of the calls made from `rows` on, if the list ends properly. */
  ghost function Listing<T>(respond: nat -> Option<OutlinePage<T>>, key: T -> string, total: int, rows: seq<T>)
    : (r: Option<seq<T>>)
    ensures r.Some? ==> DistinctKeys(r.value, key) && |r.value| == total && rows <= r.value
    decreases total - |rows|
  {
    var page := respond(|rows|);
    if page.None? || page.value.total != total || !DistinctKeys(rows + page.value.data, key) then None
    else
      var now := rows + page.value.data;
      if |now| == total then Some(now)
      else if page.value.data == [] || |now| > total then None
      else Listing(respond, key, total, now)
  }

  /** `outline_list`: call after call, each at the offset reached so far. */
  method OutlineList<T>(respond: nat -> Option<OutlinePage<T>>, key: T -> string) returns (r: Option<seq<T>>)
    ensures respond(0).None? ==> r.None?
    ensures respond(0).Some? ==> r == Listing(respond, key, respond(0).value.total, [])
  {
    var rows: seq<T>, seen: set<string>, total, first := [], {}, 0, true;
    while true
      invariant first ==> rows == [] && seen == {}
      invariant seen == Keys(rows, key) && DistinctKeys(rows, key)
      invariant !first ==> respond(0).Some? && total == respond(0).value.total && |rows| < total
      invariant !first ==> Listing(respond, key, total, []) == Listing(respond, key, total, rows)
      decreases if first then 1 else 0, total - |rows|
    {
      var result := respond(|rows|);
      if result.None? {
        return None;
      }
      if first {
        total, first := result.value.total, false;
      }
      if result.value.total != total {
        return None;
      }
      ConcatKeys(rows, result.value.data, key);
      var now := TakeBatch(seen, result.value.data, key);
      if now.None? {
        return None;
      }
      var before := rows;
      seen, rows := now.value, rows + result.value.data;
      if |rows| == total {
        return Some(rows);
      }
      if result.value.data == [] || |rows| > total {
        return None;
      }
    }
  }

  // ----- what a returned list is -----

  lemma {:induction false} KeyCount<T>(rows: seq<T>, key: T -> string)
    requires DistinctKeys(rows, key)
    ensures |Keys(rows, key)| == |rows|
  {
    if rows == [] {
      assert Keys(rows, key) == {};
    } else {
      var init, last := rows[..|rows| - 1], rows[|rows| - 1];
      assert rows == init + [last];
      ConcatKeys(init, [last], key);
      KeyCount(init, key);
      assert [last][0] == last;
      assert Keys([last], key) == {key(last)};
    }
  }

  lemma SubsetOfSameSize(a: set<string>, b: set<string>)
    requires a <= b && |a| == |b|
    ensures a == b
  {
    assert b == a + (b - a);
  }

  /** Rows all from a set of the declared size, none twice: nothing is missing. */
  lemma NothingMissing<T>(rows: seq<T>, key: T -> string, existing: set<string>)
    requires DistinctKeys(rows, key) && |rows| == |existing| && Keys(rows, key) <= existing
    ensures Keys(rows, key) == existing
  {
    KeyCount(rows, key);
    SubsetOfSameSize(Keys(rows, key), existing);
  }

  /** An Outline server whose list does not change, in calls of up to 100 rows. */
  function SteadyOutline<T>(list: seq<T>): nat -> Option<OutlinePage<T>> {
    (offset: nat) =>
      var from := if offset <= |list| then offset else |list|;
      var to := if from + 100 <= |list| then from + 100 else |list|;
      Some(OutlinePage(|list|, list[from..to]))
  }

  lemma {:induction false} SteadyListing<T>(list: seq<T>, key: T -> string, n: nat)
    requires DistinctKeys(list, key) && n <= |list| && (n == |list| ==> n == 0)
    ensures Listing(SteadyOutline(list), key, |list|, list[..n]) == Some(list)
    decreases |list| - n
  {
    var to := if n + 100 <= |list| then n + 100 else |list|;
    assert list[..n] + list[n..to] == list[..to];
    if to < |list| {
      SteadyListing(list, key, to);
    } else {
      assert list[..to] == list;
    }
  }

  /** An Authentik server whose list does not change, in pages of 100 rows. */
  function PageCount(rows: nat): nat {
    (rows + 99) / 100
  }

  function SteadyAuthentik<T>(list: seq<T>): nat -> Option<AuthentikPage<T>> {
    (page: nat) =>
      var from := if page >= 1 && 100 * (page - 1) <= |list| then 100 * (page - 1) else |list|;
      var to := if from + 100 <= |list| then from + 100 else |list|;
      Some(AuthentikPage(PageCount(|list|), |list|, page < PageCount(|list|), list[from..to]))
  }

  lemma {:induction false} SteadyPages<T>(list: seq<T>, n: nat)
    requires n <= PageCount(|list|)
    ensures Pages(SteadyAuthentik(list), n) == list[..if 100 * n <= |list| then 100 * n else |list|]
  {
    if n > 0 {
      SteadyPages(list, n - 1);
    }
  }

  /** Both readers return exactly an unchanging list of distinct rows. */
  lemma SteadyListsAreReadWhole<T>(list: seq<T>, key: T -> string)
    requires DistinctKeys(list, key)
    ensures Listing(SteadyOutline(list), key, |list|, []) == Some(list)
    ensures var n := if list == [] then 1 else PageCount(|list|);
      WholeList(SteadyAuthentik(list), key, n) && Pages(SteadyAuthentik(list), n) == list
  {
    SteadyListing(list, key, 0);
    assert list[..0] == [];
    if list == [] {
      assert Pages(SteadyAuthentik(list), 1) == [];
    } else {
      SteadyAuthentikWhole(list, key);
    }
  }

  lemma SteadyAuthentikWhole<T>(list: seq<T>, key: T -> string)
    requires DistinctKeys(list, key) && list != []
    ensures WholeList(SteadyAuthentik(list), key, PageCount(|list|)) &&
      Pages(SteadyAuthentik(list), PageCount(|list|)) == list
  {
    var n := PageCount(|list|);
    SteadyPages(list, n);
    assert list[..|list|] == list;
    forall p | 1 <= p < n ensures SteadyAuthentik(list)(p).value.results != [] {
      assert 100 * p < |list|;
    }
  }
}
