/** A stored post and the order the document store lists posts in
    (`sort({ createdAt: -1 })`). */
module Posts {

  /** A post document: its id, the id of its author (`user`), its text,
      the ids of its attached media, and its creation time in milliseconds. */
  datatype Post = Post(id: string, user: string, content: string, mediaIds: seq<string>, createdAt: int)

  /** Newest first: creation times never increase along `s`. */
  ghost predicate IsNewestFirst(s: seq<Post>)
  {
    forall i :: 0 <= i < |s| - 1 ==> s[i].createdAt >= s[i + 1].createdAt
  }

  /** Place `p` in a newest-first sequence, ahead of every post not newer
      than it. */
  function Insert(p: Post, s: seq<Post>): (r: seq<Post>)
    requires IsNewestFirst(s)
    ensures IsNewestFirst(r)
    ensures multiset(r) == multiset(s) + multiset{p}
    ensures |r| == |s| + 1
    ensures r[0] == p || (s != [] && r[0] == s[0])
  {
    if s == [] || p.createdAt >= s[0].createdAt then [p] + s
    else
      var rest := Insert(p, s[1..]);
      assert s == [s[0]] + s[1..];
      [s[0]] + rest
  }

  /** The store's newest-first listing of `posts`: the same posts,
      reordered by decreasing creation time. Among posts created at the
      same instant the earlier-stored one comes first; the store itself
      leaves that order unspecified. */
  function NewestFirst(posts: seq<Post>): (r: seq<Post>)
    ensures IsNewestFirst(r)
    ensures multiset(r) == multiset(posts)
    ensures |r| == |posts|
  {
    if posts == [] then []
    else
      assert posts == [posts[0]] + posts[1..];
      Insert(posts[0], NewestFirst(posts[1..]))
  }

  /** No two different posts in `s` were created at the same instant. */
  ghost predicate DistinctTimes(s: seq<Post>)
  {
    forall p, q :: p in s && q in s && p.createdAt == q.createdAt ==> p == q
  }

  /** Newest first between neighbours means newest first between any two. */
  lemma {:induction false} NewestFirstAnyTwo(s: seq<Post>, i: nat, j: nat)
    requires IsNewestFirst(s) && i <= j < |s|
    ensures s[i].createdAt >= s[j].createdAt
    decreases j - i
  {
    if i < j {
      NewestFirstAnyTwo(s, i + 1, j);
    }
  }

  /** With distinct creation times the newest-first order is forced: any
      two newest-first arrangements of the same posts are equal. So every
      query of the store returns the posts in the same order. */
  lemma {:induction false} NewestFirstIsUnique(a: seq<Post>, b: seq<Post>)
    requires IsNewestFirst(a) && IsNewestFirst(b)
    requires multiset(a) == multiset(b) && DistinctTimes(a)
    ensures a == b
  {
    if a == [] {
      assert |b| == |multiset(b)| == 0;
    } else {
      HeadsAgree(a, b);
      TailMultiset(a);
      TailMultiset(b);
      TailKeepsOrder(a);
      assert IsNewestFirst(b[1..]);
      NewestFirstIsUnique(a[1..], b[1..]);
    }
  }

  /** The newest post of two newest-first arrangements is the same one. */
  lemma HeadsAgree(a: seq<Post>, b: seq<Post>)
    requires IsNewestFirst(a) && IsNewestFirst(b)
    requires multiset(a) == multiset(b) && DistinctTimes(a) && a != []
    ensures b != [] && a[0] == b[0]
  {
    assert a[0] in multiset(b);
    var j :| 0 <= j < |b| && b[j] == a[0];
    assert b[0] in multiset(a);
    var i :| 0 <= i < |a| && a[i] == b[0];
    NewestFirstAnyTwo(a, 0, i);
    NewestFirstAnyTwo(b, 0, j);
  }

  lemma TailKeepsOrder(s: seq<Post>)
    requires s != [] && IsNewestFirst(s) && DistinctTimes(s)
    ensures IsNewestFirst(s[1..]) && DistinctTimes(s[1..])
  {
    forall p, q | p in s[1..] && q in s[1..] && p.createdAt == q.createdAt
      ensures p == q
    {
      assert p in s && q in s;
    }
  }

  lemma TailMultiset(s: seq<Post>)
    requires s != []
    ensures multiset(s[1..]) == multiset(s) - multiset{s[0]}
  {
    assert s == [s[0]] + s[1..];
  }

  /** With distinct creation times, whatever newest-first arrangement the
      store returns for `sort({ createdAt: -1 })` is `NewestFirst`. */
  lemma StoreOrderIsNewestFirst(stored: seq<Post>, returned: seq<Post>)
    requires DistinctTimes(stored)
    requires IsNewestFirst(returned) && multiset(returned) == multiset(stored)
    ensures returned == NewestFirst(stored)
  {
    var r := NewestFirst(stored);
    forall p, q | p in r && q in r && p.createdAt == q.createdAt
      ensures p == q
    {
      assert p in multiset(stored) && q in multiset(stored);
    }
    NewestFirstIsUnique(r, returned);
  }
}
