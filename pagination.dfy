/** The arithmetic of the post listing (`getAllPosts` in
    post-service/src/controllers/post-controller.js): page and limit from
    the query string with their defaults, the number of posts to skip, the
    page count, and the page of posts the store returns. */
module Pagination {
  import opened Base
  import opened JsNumbers
  import opened Posts

  /** `parseInt(req.query.x)`: an absent query value reads as the text
      "undefined", which is NaN. */
  function QueryNumber(query: Option<string>): (n: Option<int>)
  {
    match query
    case None => None
    case Some(text) => ParseInt(text)
  }

  /** `n || fallback` for a Number: NaN and 0 are falsy. */
  function OrDefault(n: Option<int>, fallback: int): (r: int)
    ensures n.None? || n.value == 0 ==> r == fallback
    ensures n.Some? && n.value != 0 ==> r == n.value
  {
    if n.None? || n.value == 0 then fallback else n.value
  }

  const DefaultPage: int := 1
  const DefaultLimit: int := 10

  /** `parseInt(req.query.page) || 1`; never 0. */
  function PageNumber(query: Option<string>): (page: int)
    ensures page != 0
  {
    OrDefault(QueryNumber(query), DefaultPage)
  }

  /** `parseInt(req.query.limit) || 10`; never 0. */
  function PageLimit(query: Option<string>): (limit: int)
    ensures limit != 0
  {
    OrDefault(QueryNumber(query), DefaultLimit)
  }

  /** A decimal page number is read as itself, except that 0 falls back to
      page 1; an absent or non-numeric one also gives page 1. */
  lemma PageNumberOfQuery(n: int, text: string)
    requires !(exists i :: 0 <= i < |text| && '0' <= text[i] <= '9')
    ensures PageNumber(Some(IntToString(n))) == if n == 0 then 1 else n
    ensures PageNumber(None) == 1
    ensures PageNumber(Some(text)) == 1
  {
    ParseIntOfDecimalText(n, []);
    assert IntToString(n) + [] == IntToString(n);
    NoDigitIsNaN(text);
  }

  /** A limit given in decimal is read as itself, except that 0 falls back
      to 10; an absent or non-numeric one also gives 10. */
  lemma PageLimitOfQuery(n: int, text: string)
    requires !(exists i :: 0 <= i < |text| && '0' <= text[i] <= '9')
    ensures PageLimit(Some(IntToString(n))) == if n == 0 then 10 else n
    ensures PageLimit(None) == 10
    ensures PageLimit(Some(text)) == 10
  {
    ParseIntOfDecimalText(n, []);
    assert IntToString(n) + [] == IntToString(n);
    NoDigitIsNaN(text);
  }

  /** Text without a decimal digit parses to NaN. */
  lemma NoDigitIsNaN(text: string)
    requires !(exists i :: 0 <= i < |text| && '0' <= text[i] <= '9')
    ensures ParseInt(text) == None
  {
    var t := TrimStart(text);
    assert forall i :: 0 <= i < |t| ==> t[i] == text[|text| - |t| + i];
    if |t| > 0 && (t[0] == '-' || t[0] == '+') {
      UnsignedNoDigit(t[1..]);
    } else {
      UnsignedNoDigit(t);
    }
  }

  lemma UnsignedNoDigit(u: string)
    requires forall i :: 0 <= i < |u| ==> !('0' <= u[i] <= '9')
    ensures ParseUnsigned(u) == None
  {
    if |u| > 0 {
      assert DigitValue(u[0], 10).None?;
    }
  }

  /** `(page - 1) * limit`: how many posts the store skips. */
  function StartIndex(page: int, limit: int): (skip: int)
    ensures page == 1 ==> skip == 0
    ensures page >= 1 && limit >= 1 ==> skip >= 0
  {
    (page - 1) * limit
  }

  /** `Math.ceil(totalPosts / limit)`. */
  function TotalPages(totalPosts: nat, limit: int): (pages: int)
    requires limit != 0
  {
    CeilDiv(totalPosts, limit)
  }

  /** With a positive limit the page count is the least number of pages of
      `limit` posts that hold every post: no page when there is no post,
      and otherwise the last page is neither empty nor overfull. */
  lemma TotalPagesBounds(totalPosts: nat, limit: int)
    requires limit >= 1
    ensures totalPosts == 0 <==> TotalPages(totalPosts, limit) == 0
    ensures totalPosts > 0 ==> (TotalPages(totalPosts, limit) - 1) * limit < totalPosts
                               <= TotalPages(totalPosts, limit) * limit
  {
    var q := TotalPages(totalPosts, limit);
    assert (q - 1) * limit < totalPosts <= q * limit;
  }

  /** Consecutive pages start `limit` posts apart, the first at 0. */
  lemma {:induction false} StartIndexSteps(page: int, limit: int)
    ensures StartIndex(1, limit) == 0
    ensures StartIndex(page + 1, limit) == StartIndex(page, limit) + limit
    ensures page >= 1 && limit >= 1 ==> StartIndex(page, limit) >= 0
  {
    assert (page + 1 - 1) * limit == (page - 1) * limit + limit;
    if page >= 1 && limit >= 1 {
      assert (page - 1) * limit >= 0;
    }
  }

  /** `.skip(start).limit(limit)` on an ordered result: at most |limit|
      posts (the store reads a negative limit as its absolute value),
      starting at position `start`. */
  function Window(s: seq<Post>, start: nat, limit: int): (r: seq<Post>)
    requires limit != 0
    ensures |r| <= (if limit < 0 then -limit else limit)
    ensures start + |r| <= |s| || r == []
    ensures |r| == if start >= |s| then 0
                   else if start + (if limit < 0 then -limit else limit) <= |s|
                   then (if limit < 0 then -limit else limit) else |s| - start
    ensures forall k :: 0 <= k < |r| ==> r[k] == s[start + k]
  {
    var n := if limit < 0 then -limit else limit;
    if start >= |s| then []
    else if start + n <= |s| then s[start..start + n]
    else s[start..]
  }

  /** The listing body cached and returned by `getAllPosts`. */
  datatype Listing = Listing(posts: seq<Post>, currentPage: int, totalPages: int, totalPosts: nat)

  /** The listing for page `page` of `limit` posts, when the skip count is
      not negative. */
  function BuildListing(stored: seq<Post>, page: int, limit: int): (l: Listing)
    requires limit != 0 && StartIndex(page, limit) >= 0
    ensures l.currentPage == page && l.totalPosts == |stored|
    ensures l.totalPages == TotalPages(|stored|, limit)
    ensures multiset(l.posts) <= multiset(stored)
    ensures IsNewestFirst(l.posts)
  {
    var sorted := NewestFirst(stored);
    var start := StartIndex(page, limit);
    var window := Window(sorted, start, limit);
    WindowIsSlice(sorted, start, limit);
    Listing(window, page, TotalPages(|stored|, limit), |stored|)
  }

  /** A window keeps the order of what it is cut from and takes nothing
      that is not there. */
  lemma WindowIsSlice(s: seq<Post>, start: nat, limit: int)
    requires limit != 0 && IsNewestFirst(s)
    ensures multiset(Window(s, start, limit)) <= multiset(s)
    ensures IsNewestFirst(Window(s, start, limit))
  {
    var w := Window(s, start, limit);
    if w != [] {
      assert w == s[start..start + |w|];
      assert s == s[..start] + w + s[start + |w|..];
    }
  }

  /** With a positive limit and distinct creation times every stored post
      is listed exactly where its newest-first position puts it: on page
      `i / limit + 1`, which is one of the `totalPages` pages, at offset
      `i % limit`. Each page is a separate query; distinct times make every
      query return the same order (`StoreOrderIsNewestFirst`), so no post is
      listed twice or skipped across pages. */
  lemma EveryPostOnItsPage(stored: seq<Post>, limit: int, i: nat)
    requires limit >= 1 && i < |stored| && DistinctTimes(stored)
    ensures var page := i / limit + 1;
      StartIndex(page, limit) >= 0 &&
      1 <= page <= TotalPages(|stored|, limit) &&
      i % limit < |BuildListing(stored, page, limit).posts| &&
      BuildListing(stored, page, limit).posts[i % limit] == NewestFirst(stored)[i]
  {
    var d, m := i / limit, i % limit;
    DivModParts(i, limit);
    var page := d + 1;
    var start := StartIndex(page, limit);
    assert start == d * limit;
    TotalPagesBounds(|stored|, limit);
    var q := TotalPages(|stored|, limit);
    MulCancel(d, q, limit);
    var w := Window(NewestFirst(stored), start, limit);
    assert w == BuildListing(stored, page, limit).posts;
    assert w[m] == NewestFirst(stored)[start + m];
  }

  lemma DivModParts(i: nat, limit: int)
    requires limit >= 1
    ensures i == i / limit * limit + i % limit && 0 <= i % limit < limit && i / limit >= 0
    ensures StartIndex(i / limit + 1, limit) == i / limit * limit
  {
  }

  lemma MulCancel(a: int, b: int, c: int)
    requires c > 0 && a * c < b * c
    ensures a < b
  {
  }
}
