/** `search_after` pagination against a fixed result set in the order of its sort key. */
module SearchPages {
  import opened Wrappers

  datatype Error = RequestError | IndexError

  /** A hit with the caller's sort value and the `_id` that breaks ties. */
  datatype Hit = Hit(sort: int, id: int, source: int)

  predicate Before(a: Hit, b: Hit) {
    a.sort < b.sort || (a.sort == b.sort && a.id < b.id)
  }

  /** The order in which the server ranks the hits; equal keys may stand either way. */
  predicate Ranked(docs: seq<Hit>) {
    forall j, k :: 0 <= j < k < |docs| ==> !Before(docs[k], docs[j])
  }

  /** No two hits share both sort value and `_id`. */
  predicate Strict(docs: seq<Hit>) {
    forall j, k :: 0 <= j < k < |docs| ==> Before(docs[j], docs[k])
  }

  /** What is left of the ranking after the key of `h`. */
  function After(docs: seq<Hit>, h: Hit): seq<Hit> {
    if docs == [] || Before(h, docs[0]) then docs else After(docs[1..], h)
  }

  lemma {:induction false} AfterIsTail(docs: seq<Hit>, h: Hit)
    ensures var rest := After(docs, h);
      && |rest| <= |docs| && rest == docs[|docs| - |rest|..]
      && (forall j :: 0 <= j < |docs| - |rest| ==> !Before(h, docs[j]))
      && (|rest| > 0 ==> Before(h, rest[0]))
  {
    if docs != [] && !Before(h, docs[0]) {
      AfterIsTail(docs[1..], h);
      assert forall j :: 0 < j < |docs| ==> docs[j] == docs[1..][j - 1];
    }
  }

  function Take(docs: seq<Hit>, size: nat): seq<Hit> {
    if |docs| <= size then docs else docs[..size]
  }

  /** One search request. */
  function Search(docs: seq<Hit>, after: Option<Hit>, size: nat): seq<Hit> {
    Take(match after case None => docs case Some(h) => After(docs, h), size)
  }

  lemma AfterDropsPage(docs: seq<Hit>, size: nat)
    requires Ranked(docs) && 1 <= size <= |docs|
    ensures |After(docs, docs[size - 1])| <= |docs| - size
    ensures Ranked(After(docs, docs[size - 1]))
  {
    var rest := After(docs, docs[size - 1]);
    AfterIsTail(docs, docs[size - 1]);
    var k := |docs| - |rest|;
    assert forall j :: 0 <= j < |rest| ==> rest[j] == docs[k + j];
  }

  /** The ranking behind a full page. */
  function Behind(docs: seq<Hit>, size: nat): (rest: seq<Hit>)
    requires Ranked(docs) && 1 <= size <= |docs|
    ensures |rest| <= |docs| - size && Ranked(rest)
  {
    AfterDropsPage(docs, size);
    After(docs, docs[size - 1])
  }

  /** All pages of size `size`, one after the other. */
  function Pages(docs: seq<Hit>, size: nat): seq<Hit>
    requires Ranked(docs) && size >= 1
    decreases |docs|
  {
    if |docs| < size then docs else docs[..size] + Pages(Behind(docs, size), size)
  }

  /** Asking from the start of the ranking is asking from where the last page began. */
  lemma {:induction false} AfterAgain(docs: seq<Hit>, a: Hit, h: Hit)
    requires !Before(h, a)
    ensures After(After(docs, a), h) == After(docs, h)
  {
    if docs != [] && !Before(a, docs[0]) {
      AfterAgain(docs[1..], a, h);
    }
  }

  function PageSize(batch: int, maxRows: Option<int>): (size: int)
    ensures size <= batch && (maxRows.Some? ==> size <= maxRows.value)
    ensures size == batch || maxRows == Some(size)
  {
    if maxRows.Some? && maxRows.value < batch then maxRows.value else batch
  }

  /** `all_hits[:max_rows]`, once the request sizes are known to be acceptable. */
  function Limited(docs: seq<Hit>, maxRows: Option<int>): seq<Hit> {
    if maxRows.None? || maxRows.value < 0 then docs else Take(docs, maxRows.value)
  }

  /** The loop between two requests: what is collected and what the next request ranges over. */
  ghost predicate Collecting(docs: seq<Hit>, all: seq<Hit>, rest: seq<Hit>, after: Option<Hit>, size: nat) {
    && Ranked(docs) && Ranked(rest)
    && rest == (if after.None? then docs else After(docs, after.value))
    && (size >= 1 ==> all + Pages(rest, size) == Pages(docs, size))
    && (size == 0 ==> all == [])
  }

  lemma NextPage(docs: seq<Hit>, all: seq<Hit>, rest: seq<Hit>, after: Option<Hit>, size: nat)
    requires Collecting(docs, all, rest, after, size) && 1 <= size <= |rest|
    ensures var last := rest[size - 1];
      && Collecting(docs, all + rest[..size], Behind(rest, size), Some(last), size)
  {
    var last := rest[size - 1];
    var next := Behind(rest, size);
    if after.Some? {
      AfterIsTail(docs, after.value);
      AfterAgain(docs, after.value, last);
    }
    assert all + (rest[..size] + Pages(next, size)) == (all + rest[..size]) + Pages(next, size);
  }

  lemma LastPage(docs: seq<Hit>, all: seq<Hit>, rest: seq<Hit>, after: Option<Hit>, size: nat)
    requires Collecting(docs, all, rest, after, size) && |Take(rest, size)| < size
    ensures all + Take(rest, size) == Pages(docs, size)
  {
  }

  lemma FullPage(docs: seq<Hit>, all: seq<Hit>, rest: seq<Hit>, after: Option<Hit>, size: nat)
    requires Collecting(docs, all, rest, after, size) && 1 <= size <= |rest|
    ensures all + Take(rest, size) <= Pages(docs, size)
  {
    NextPage(docs, all, rest, after, size);
    assert Take(rest, size) == rest[..size];
  }

  lemma LimitOfPrefix(all: seq<Hit>, pages: seq<Hit>, maxRows: Option<int>)
    requires all == pages || (all <= pages && maxRows.Some? && 0 <= maxRows.value <= |all|)
    ensures Limited(all, maxRows) == Limited(pages, maxRows)
  {
  }

  /** Enough is collected: everything, or more than will be returned. */
  ghost predicate Sufficient(docs: seq<Hit>, all: seq<Hit>, size: nat, maxRows: Option<int>) {
    && Ranked(docs)
    && (size == 0 ==> all == [] && maxRows == Some(0))
    && (size >= 1 ==> Limited(all, maxRows) == Limited(Pages(docs, size), maxRows))
  }

  /** The request loop; None is the IndexError of an empty page that was not the last. */
  method CollectPages(docs: seq<Hit>, size: nat, maxRows: Option<int>) returns (r: Option<seq<Hit>>)
    requires Ranked(docs) && (maxRows.Some? ==> maxRows.value >= size)
    ensures r.None? <==> size == 0 && maxRows != Some(0)
    ensures r.Some? ==> Sufficient(docs, r.value, size, maxRows)
  {
    var all: seq<Hit> := [];
    var after := None;
    ghost var rest := docs;
    while true
      invariant Collecting(docs, all, rest, after, size)
      invariant maxRows.Some? ==> |all| < maxRows.value || all == []
      decreases |rest|
    {
      var page := Search(docs, after, size);
      assert page == Take(rest, size);
      ghost var past := all;
      all := all + page;
      if |page| < size {
        LastPage(docs, past, rest, after, size);
        return Some(all);
      }
      if size >= 1 {
        FullPage(docs, past, rest, after, size);
      }
      if maxRows.Some? && |all| >= maxRows.value {
        if size >= 1 {
          LimitOfPrefix(all, Pages(docs, size), maxRows);
        }
        return Some(all);
      }
      if page == [] {
        return None;
      }
      NextPage(docs, past, rest, after, size);
      rest := Behind(rest, size);
      after := Some(page[size - 1]);
    }
  }

  method SearchAllHits(docs: seq<Hit>, batch: int, maxRows: Option<int>) returns (r: Result<seq<Hit>, Error>)
    requires Ranked(docs)
    ensures PageSize(batch, maxRows) < 0 ==> r == Err(RequestError)
    ensures PageSize(batch, maxRows) == 0 ==> r == if maxRows == Some(0) then Ok([]) else Err(IndexError)
    ensures PageSize(batch, maxRows) > 0 ==> r == Ok(Limited(Pages(docs, PageSize(batch, maxRows)), maxRows))
    ensures FitsOnePage(docs, batch, maxRows) ==> r == Ok(FirstRows(docs, maxRows))
  {
    OnePageIsEnough(docs, batch, maxRows);
    var size := PageSize(batch, maxRows);
    if size < 0 {
      return Err(RequestError);
    }
    var collected := CollectPages(docs, size, maxRows);
    if collected.None? {
      return Err(IndexError);
    }
    var all := collected.value;
    if maxRows.Some? && |all| > maxRows.value {
      all := all[..maxRows.value];
    }
    return Ok(all);
  }

  /** Everything that is asked for is on the first page. */
  predicate FitsOnePage(docs: seq<Hit>, batch: int, maxRows: Option<int>) {
    && batch >= 1 && (maxRows.Some? ==> maxRows.value >= 0)
    && (|docs| < batch || (maxRows.Some? && maxRows.value <= batch))
  }

  function FirstRows(docs: seq<Hit>, maxRows: Option<int>): seq<Hit>
    requires maxRows.Some? ==> maxRows.value >= 0
  {
    if maxRows.None? || maxRows.value >= |docs| then docs else docs[..maxRows.value]
  }

  /** Then ties do not matter: fewer hits than a batch, or no more wanted than one. */
  lemma OnePageIsEnough(docs: seq<Hit>, batch: int, maxRows: Option<int>)
    requires Ranked(docs)
    ensures var size := PageSize(batch, maxRows);
      FitsOnePage(docs, batch, maxRows) && size >= 1 ==>
        Limited(Pages(docs, size), maxRows) == FirstRows(docs, maxRows)
  {
    var size := PageSize(batch, maxRows);
    if FitsOnePage(docs, batch, maxRows) && 1 <= size <= |docs| {
      assert maxRows == Some(size);
      assert (docs[..size] + Pages(Behind(docs, size), size))[..size] == docs[..size];
    }
  }

  /** A ranking without ties comes back whole, whatever the page size. */
  lemma {:induction false} StrictPagesAreWhole(docs: seq<Hit>, size: nat)
    requires Ranked(docs) && Strict(docs) && size >= 1
    ensures Pages(docs, size) == docs
    decreases |docs|
  {
    if |docs| >= size {
      StrictPage(docs, size);
      StrictPagesAreWhole(docs[size..], size);
    }
  }

  lemma StrictPage(docs: seq<Hit>, size: nat)
    requires Ranked(docs) && Strict(docs) && 1 <= size <= |docs|
    ensures After(docs, docs[size - 1]) == docs[size..] && Ranked(docs[size..]) && Strict(docs[size..])
  {
    AfterIsTail(docs, docs[size - 1]);
    assert size < |docs| ==> Before(docs[size - 1], docs[size]);
    assert forall j :: 0 <= j < |docs| - size ==> docs[size..][j] == docs[size + j];
  }

  /** Equal neighbours fall between two pages of the right size, and the second one is lost. */
  lemma TieIsLost(docs: seq<Hit>, k: nat)
    requires Ranked(docs) && k + 1 < |docs| && !Before(docs[k], docs[k + 1])
    ensures |Pages(docs, k + 1)| < |docs|
  {
    var rest := Behind(docs, k + 1);
    AfterIsTail(docs, docs[k]);
    assert |rest| > 0 ==> rest[0] == docs[|docs| - |rest|];
    NoLongerThan(rest, k + 1);
  }

  lemma {:induction false} NoLongerThan(docs: seq<Hit>, size: nat)
    requires Ranked(docs) && size >= 1
    ensures |Pages(docs, size)| <= |docs|
    decreases |docs|
  {
    if |docs| >= size {
      NoLongerThan(Behind(docs, size), size);
    }
  }

  lemma SomeNeighboursTie(docs: seq<Hit>) returns (k: nat)
    requires !Strict(docs)
    ensures k + 1 < |docs| && !Before(docs[k], docs[k + 1])
  {
    var i, j :| 0 <= i < j < |docs| && !Before(docs[i], docs[j]);
    k := i;
    while k + 1 < j && Before(docs[k], docs[k + 1])
      invariant i <= k < j && !Before(docs[k], docs[j])
    {
      k := k + 1;
    }
  }

  /** No tie stands across a page boundary of this size. */
  ghost predicate BoundariesApart(docs: seq<Hit>, size: nat)
    requires size >= 1
  {
    forall k :: 0 < k < |docs| && k % size == 0 ==> Before(docs[k - 1], docs[k])
  }

  lemma TimesBounds(d: int, size: nat)
    ensures (d >= 1 ==> d * size >= size) && (d <= -1 ==> d * size + size <= 0)
  {
    if d >= 1 {
      assert d * size == (d - 1) * size + size;
    } else if d <= -1 {
      assert d * size + size == (d + 1) * size;
    }
  }

  lemma RemainderIs(n: nat, size: nat, q: nat, r: nat)
    requires n == q * size + r && r < size
    ensures n % size == r
  {
    var d := q - n / size;
    assert d * size == n % size - r;
    TimesBounds(d, size);
  }

  lemma OnePageOn(k: nat, size: nat)
    requires size >= 1
    ensures (k + size) % size == k % size
  {
    assert k + size == (k / size + 1) * size + k % size;
    RemainderIs(k + size, size, k / size + 1, k % size);
  }

  lemma BoundariesBehind(docs: seq<Hit>, size: nat)
    requires 1 <= size < |docs| && BoundariesApart(docs, size)
    ensures Before(docs[size - 1], docs[size]) && BoundariesApart(docs[size..], size)
  {
    OnePageOn(0, size);
    var rest := docs[size..];
    forall k | 0 < k < |rest| && k % size == 0
      ensures Before(rest[k - 1], rest[k])
    {
      OnePageOn(k, size);
      assert Before(docs[k + size - 1], docs[k + size]);
    }
  }

  lemma BoundariesAhead(docs: seq<Hit>, size: nat)
    requires 1 <= size < |docs| && Before(docs[size - 1], docs[size]) && BoundariesApart(docs[size..], size)
    ensures BoundariesApart(docs, size)
  {
    var rest := docs[size..];
    forall k | 0 < k < |docs| && k % size == 0
      ensures Before(docs[k - 1], docs[k])
    {
      if k < size {
        RemainderIs(k, size, 0, k);
      } else if k > size {
        OnePageOn(k - size, size);
        assert Before(rest[k - size - 1], rest[k - size]);
      }
    }
  }

  lemma OnePageHasNoBoundary(docs: seq<Hit>, size: nat)
    requires size >= 1 && |docs| <= size
    ensures BoundariesApart(docs, size)
  {
    forall k | 0 < k < |docs|
      ensures k % size != 0
    {
      RemainderIs(k, size, 0, k);
    }
  }

  lemma NextPageIsTail(docs: seq<Hit>, size: nat)
    requires Ranked(docs) && 1 <= size < |docs| && Before(docs[size - 1], docs[size])
    ensures Behind(docs, size) == docs[size..]
  {
    AfterIsTail(docs, docs[size - 1]);
    assert forall j :: size <= j < |docs| ==> !Before(docs[j], docs[size]);
  }

  lemma TailPages(docs: seq<Hit>, size: nat)
    requires Ranked(docs) && 1 <= size < |docs| && Behind(docs, size) == docs[size..]
    ensures Pages(docs, size) == docs <==> Pages(docs[size..], size) == docs[size..]
  {
    var pages := Pages(docs[size..], size);
    assert (docs[..size] + pages)[size..] == pages;
    assert docs == docs[..size] + docs[size..];
  }

  lemma TieIsSkipped(docs: seq<Hit>, size: nat)
    requires Ranked(docs) && 1 <= size < |docs| && !Before(docs[size - 1], docs[size])
    ensures |Behind(docs, size)| < |docs| - size
  {
    AfterIsTail(docs, docs[size - 1]);
  }

  /** One page size returns everything exactly when no tie stands across its boundaries. */
  lemma {:induction false} NoLossAtIff(docs: seq<Hit>, size: nat)
    requires Ranked(docs) && size >= 1
    ensures Pages(docs, size) == docs <==> BoundariesApart(docs, size)
    decreases |docs|
  {
    if |docs| <= size {
      OnePageHasNoBoundary(docs, size);
      if |docs| == size {
        assert Behind(docs, size) == [] && docs[..size] == docs;
      }
    } else {
      var rest := Behind(docs, size);
      AfterIsTail(docs, docs[size - 1]);
      if Before(docs[size - 1], docs[size]) {
        NextPageIsTail(docs, size);
        NoLossAtIff(rest, size);
        TailPages(docs, size);
        if BoundariesApart(docs, size) {
          BoundariesBehind(docs, size);
        } else if BoundariesApart(rest, size) {
          BoundariesAhead(docs, size);
        }
      } else {
        NoLongerThan(rest, size);
        TieIsSkipped(docs, size);
        if BoundariesApart(docs, size) {
          BoundariesBehind(docs, size);
          assert false;
        }
      }
    }
  }

  /** Every page size returns everything exactly when no two hits share a key. */
  lemma NoLossIff(docs: seq<Hit>)
    requires Ranked(docs)
    ensures (forall size: nat :: size >= 1 ==> Pages(docs, size) == docs) <==> Strict(docs)
  {
    if Strict(docs) {
      forall size: nat | size >= 1
        ensures Pages(docs, size) == docs
      {
        StrictPagesAreWhole(docs, size);
      }
    } else {
      var k := SomeNeighboursTie(docs);
      TieIsLost(docs, k);
    }
  }

  /** Pagination is one query: without ties the whole ranking, or its first `max_rows` hits. */
  lemma OneQuery(docs: seq<Hit>, batch: int, maxRows: Option<int>)
    requires Ranked(docs) && Strict(docs) && PageSize(batch, maxRows) >= 1
    ensures Limited(Pages(docs, PageSize(batch, maxRows)), maxRows)
         == if maxRows.None? || maxRows.value > |docs| then docs else docs[..maxRows.value]
  {
    StrictPagesAreWhole(docs, PageSize(batch, maxRows));
  }
}
