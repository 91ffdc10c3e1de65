/** Paged AuthZEN searches: a page scans a window of the candidates, and its token names where to go on. */
module AuthzenPaging {
  import opened Options
  import opened Numbers

  const MAX_SCAN: nat := 5000

  /** A page's limit: at least one, at most 500. */
  function Limit(requested: nat, configured: int): (limit: nat)
    ensures requested >= 1 ==> 1 <= limit <= 500 && limit <= requested && limit <= Max(1, configured)
    ensures limit in {requested, Max(1, configured), 500}
  {
    Min(Min(requested, if configured < 1 then 1 else configured), 500)
  }

  /** The permitted candidates, in order. */
  function Permitted<T>(s: seq<T>, permitted: T -> bool): seq<T> {
    if s == [] then []
    else if permitted(s[|s| - 1]) then Permitted(s[..|s| - 1], permitted) + [s[|s| - 1]]
    else Permitted(s[..|s| - 1], permitted)
  }

  datatype Page<T> = Page(results: seq<T>, next: Option<nat>)

  /** The candidates a query from an offset brings: one more than a page may scan. */
  function Window<T>(all: seq<T>, offset: nat): seq<T> {
    if offset >= |all| then []
    else if |all| - offset <= MAX_SCAN + 1 then all[offset..]
    else all[offset..offset + MAX_SCAN + 1]
  }

  /** All that is left, or the first 5001 of it. */
  lemma WindowIs<T>(all: seq<T>, offset: nat)
    ensures offset >= |all| ==> Window(all, offset) == []
    ensures offset < |all| ==>
      && Window(all, offset) <= all[offset..]
      && (Window(all, offset) == all[offset..] <==> |all| - offset <= 5001) && (|all| - offset > 5001 ==> |Window(all, offset)| == 5001)
  {}

  /**
   A page of a scan of `consumed` candidates. It stops short of its window only when it is full, and
   it ends the search exactly when it scanned everything without filling up.
   */
  ghost predicate IsPage<T(!new)>(candidates: seq<T>, permitted: T -> bool, offset: nat, limit: nat, p: Page<T>, consumed: nat) {
    && consumed <= |candidates| && consumed <= MAX_SCAN
    && p.results == Permitted(candidates[..consumed], permitted) && |p.results| <= limit
    && (|p.results| < limit ==> consumed == Min(|candidates|, MAX_SCAN))
    && (|p.results| == limit && consumed > 0 ==> permitted(candidates[consumed - 1]))
    && p.next == if |candidates| <= MAX_SCAN && |p.results| < limit then None else Some(offset + consumed)
  }

  // ---------------------------------------------------------------- the pages of a search

  /** How many candidates a page consumes: up to the one that fills it. */
  function Consumed<T>(candidates: seq<T>, permitted: T -> bool, limit: nat, k: nat): (c: nat)
    requires k <= |candidates|
    ensures k <= c <= |candidates|
    decreases |candidates| - k
  {
    if |Permitted(candidates[..k], permitted)| >= limit || k == |candidates| then k
    else Consumed(candidates, permitted, limit, k + 1)
  }

  /** The page made of a window of candidates. */
  function PageOf<T>(w: seq<T>, permitted: T -> bool, offset: nat, limit: nat): Page<T> {
    var scan := if |w| <= MAX_SCAN then w else w[..MAX_SCAN];
    var c := Consumed(scan, permitted, limit, 0);
    var results := Permitted(scan[..c], permitted);
    Page(results, if |w| <= MAX_SCAN && |results| < limit then None else Some(offset + c))
  }

  /** The page at an offset of all candidates. */
  function PageAt<T>(all: seq<T>, permitted: T -> bool, offset: nat, limit: nat): Page<T> {
    PageOf(Window(all, offset), permitted, offset, limit)
  }

  lemma {:induction false} PermittedLength<T>(s: seq<T>, permitted: T -> bool, k: nat)
    requires k < |s|
    ensures |Permitted(s[..k + 1], permitted)| == |Permitted(s[..k], permitted)| + (if permitted(s[k]) then 1 else 0)
  {
    assert s[..k + 1][..k] == s[..k];
  }

  lemma {:induction false} ConsumedFills<T>(s: seq<T>, permitted: T -> bool, limit: nat, k: nat)
    requires k <= |s| && |Permitted(s[..k], permitted)| <= limit
    requires k > 0 && |Permitted(s[..k], permitted)| == limit ==> permitted(s[k - 1])
    ensures var c := Consumed(s, permitted, limit, k);
            && |Permitted(s[..c], permitted)| <= limit
            && (|Permitted(s[..c], permitted)| < limit ==> c == |s|)
            && (c > 0 && |Permitted(s[..c], permitted)| == limit ==> permitted(s[c - 1]))
    decreases |s| - k
  {
    if |Permitted(s[..k], permitted)| < limit && k < |s| {
      PermittedLength(s, permitted, k);
      ConsumedFills(s, permitted, limit, k + 1);
    }
  }

  lemma {:induction false} PermittedGrows<T>(s: seq<T>, permitted: T -> bool, a: nat, b: nat)
    requires a <= b <= |s|
    ensures |Permitted(s[..a], permitted)| <= |Permitted(s[..b], permitted)|
    ensures a < b && permitted(s[b - 1]) ==> |Permitted(s[..a], permitted)| < |Permitted(s[..b], permitted)|
    decreases b - a
  {
    if a < b {
      PermittedLength(s, permitted, b - 1);
      PermittedGrows(s, permitted, a, b - 1);
    }
  }

  /** A page's description fixes it. */
  lemma PageIsPageOf<T(!new)>(w: seq<T>, permitted: T -> bool, offset: nat, limit: nat, p: Page<T>, consumed: nat)
    requires limit >= 1 && |w| <= MAX_SCAN + 1 && IsPage(w, permitted, offset, limit, p, consumed)
    ensures p == PageOf(w, permitted, offset, limit)
  {
    var scan := if |w| <= MAX_SCAN then w else w[..MAX_SCAN];
    ConsumedFills(scan, permitted, limit, 0);
    var c := Consumed(scan, permitted, limit, 0);
    assert scan[..consumed] == w[..consumed];
    if consumed < c {
      PermittedGrows(scan, permitted, consumed, c);
    } else {
      PermittedGrows(scan, permitted, c, consumed);
    }
    assert c == consumed;
  }

  /** _page_results: the loop over the window. */
  method PageResults<T(!new)>(offset: nat, requested: nat, configured: int, candidates: seq<T>, permitted: T -> bool)
    returns (p: Page<T>)
    requires requested >= 1 && |candidates| <= MAX_SCAN + 1
    ensures p == PageOf(candidates, permitted, offset, Limit(requested, configured))
    ensures exists consumed: nat :: IsPage(candidates, permitted, offset, Limit(requested, configured), p, consumed)
  {
    var limit := Limit(requested, configured);
    var results: seq<T> := [];
    var k := 0;
    var exhausted := |candidates| <= MAX_SCAN;
    var scan := if exhausted then candidates else candidates[..MAX_SCAN];
    while k < |scan|
      invariant 0 <= k <= |scan|
      invariant results == Permitted(candidates[..k], permitted) && |results| < limit
      invariant exhausted == (|candidates| <= MAX_SCAN)
    {
      var candidate := scan[k];
      assert candidates[..k + 1][..k] == candidates[..k];
      k := k + 1;
      if permitted(candidate) {
        results := results + [candidate];
        if |results| >= limit {
          exhausted := false;
          break;
        }
      }
    }
    p := Page(results, if exhausted then None else Some(offset + k));
    assert IsPage(candidates, permitted, offset, limit, p, k);
    PageIsPageOf(candidates, permitted, offset, limit, p, k);
  }

  lemma PageAtIsPage<T(!new)>(all: seq<T>, permitted: T -> bool, offset: nat, limit: nat)
    requires limit >= 1
    ensures exists c: nat :: IsPage(Window(all, offset), permitted, offset, limit, PageAt(all, permitted, offset, limit), c)
  {
    var w := Window(all, offset);
    var scan := if |w| <= MAX_SCAN then w else w[..MAX_SCAN];
    ConsumedFills(scan, permitted, limit, 0);
    var c := Consumed(scan, permitted, limit, 0);
    assert scan[..c] == w[..c];
    assert IsPage(w, permitted, offset, limit, PageAt(all, permitted, offset, limit), c);
  }

  /** A page that goes on has consumed something, and stays inside the candidates. */
  lemma PageMovesOn<T(!new)>(all: seq<T>, permitted: T -> bool, offset: nat, limit: nat)
    requires limit >= 1
    ensures var p := PageAt(all, permitted, offset, limit);
            && |p.results| <= limit
            && (p.next.Some? ==> offset < p.next.value <= |all| && p.results == Permitted(all[offset..p.next.value], permitted))
            && (p.next.None? && offset <= |all| ==> p.results == Permitted(all[offset..], permitted))
  {
    PageAtIsPage(all, permitted, offset, limit);
    var w := Window(all, offset);
    var p := PageAt(all, permitted, offset, limit);
    var c: nat :| IsPage(w, permitted, offset, limit, p, c);
    assert w[..0] == [];
    assert offset + c <= |all| && p.next.Some? ==> w[..c] == all[offset..offset + c];
    assert p.next.None? && offset <= |all| ==> w[..c] == all[offset..];
  }

  /** All pages from an offset on, following next until it is missing. */
  function Pages<T(!new)>(all: seq<T>, permitted: T -> bool, offset: nat, limit: nat): seq<seq<T>>
    requires limit >= 1
    decreases if offset <= |all| then |all| - offset else 0
  {
    PageMovesOn(all, permitted, offset, limit);
    var p := PageAt(all, permitted, offset, limit);
    if p.next.None? then [p.results] else [p.results] + Pages(all, permitted, p.next.value, limit)
  }

  function Concat<T>(pages: seq<seq<T>>): seq<T> { if pages == [] then [] else pages[0] + Concat(pages[1..]) }

  lemma {:induction false} PermittedJoin<T>(a: seq<T>, b: seq<T>, permitted: T -> bool)
    ensures Permitted(a + b, permitted) == Permitted(a, permitted) + Permitted(b, permitted)
    decreases |b|
  {
    if b == [] {
      assert a + b == a;
    } else {
      assert (a + b)[..|a + b| - 1] == a + b[..|b| - 1];
      PermittedJoin(a, b[..|b| - 1], permitted);
    }
  }

  lemma ConcatFirst<T>(page: seq<T>, later: seq<seq<T>>)
    ensures Concat([page] + later) == page + Concat(later)
  {
    assert ([page] + later)[1..] == later;
  }

  /** No page is longer than its limit. */
  lemma {:induction false} PagesFit<T(!new)>(all: seq<T>, permitted: T -> bool, offset: nat, limit: nat)
    requires limit >= 1
    ensures forall page :: page in Pages(all, permitted, offset, limit) ==> |page| <= limit
    decreases if offset <= |all| then |all| - offset else 0
  {
    var p := PageAt(all, permitted, offset, limit);
    PageMovesOn(all, permitted, offset, limit);
    if p.next.Some? { PagesFit(all, permitted, p.next.value, limit); }
  }

  lemma JoinedWindow<T>(all: seq<T>, permitted: T -> bool, a: nat, b: nat)
    requires a <= b <= |all|
    ensures Permitted(all[a..b], permitted) + Permitted(all[b..], permitted) == Permitted(all[a..], permitted)
  {
    PermittedJoin(all[a..b], all[b..], permitted);
    assert all[a..b] + all[b..] == all[a..];
  }

  /** Following the pages ends, and together they are the permitted candidates in order, each once. */
  lemma {:induction false} PagesAreTheFilter<T(!new)>(all: seq<T>, permitted: T -> bool, offset: nat, limit: nat)
    requires limit >= 1 && offset <= |all|
    ensures Concat(Pages(all, permitted, offset, limit)) == Permitted(all[offset..], permitted)
    decreases |all| - offset
  {
    var p := PageAt(all, permitted, offset, limit);
    PageMovesOn(all, permitted, offset, limit);
    if p.next.Some? {
      var n := p.next.value;
      PagesAreTheFilter(all, permitted, n, limit);
      ConcatFirst(p.results, Pages(all, permitted, n, limit));
      JoinedWindow(all, permitted, offset, n);
    } else {
      ConcatFirst(p.results, []);
      assert [p.results] + [] == [p.results];
    }
  }
}
