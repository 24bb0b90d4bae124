/** The post service's controller (post-service/src/controllers/post-controller.js)
    over three stores it reaches through `await`: the post collection (a
    table in natural order), the Redis cache (key to value and TTL), and
    the event exchange, seen as the log of events `publishEvent` sent. The
    ghost `trace` records every store operation in the order the handler
    awaits it, so the order "commit, publish, invalidate" is part of each
    contract. Redis values are JSON text in the service; here they are the
    documents themselves: the reply's JSON is the same whether the
    document comes from the cache or from the store. */
module PostController {
  import opened Base
  import opened JsNumbers
  import opened Posts
  import opened Pagination

  /** A JSON document this service stores in Redis or sends back. */
  datatype Doc = PostDoc(post: Post) | ListingDoc(listing: Listing)

  /** A cache entry: the document and the TTL in seconds it was set with
      (`setex`). Expiry itself is not modelled. */
  datatype Entry = Entry(value: Doc, ttl: nat)

  /** Event payloads, by routing key. */
  datatype Payload =
    | CreatedPayload(postId: string, userId: string, content: string, createdAt: int)
    | DeletedPayload(postId: string, userId: string, mediaIds: seq<string>)

  datatype Event = Event(routingKey: string, payload: Payload)

  /** One awaited store operation. */
  datatype Step =
    | CacheGet(key: string)
    | CacheKeys(pattern: string)
    | CacheDel(keys: set<string>)
    | CacheSetex(key: string, ttl: nat)
    | StoreFind
    | StoreCount
    | StoreFindById(id: string)
    | StoreSave(id: string)
    | StoreFindOneAndDelete(id: string, user: string)
    | Publish(routingKey: string)

  /** The request body of `createPost`; `mediaIds` may be absent. */
  datatype CreateBody = CreateBody(content: string, mediaIds: Option<seq<string>>)

  /** What a handler sends back. `ServerError` is a 500 carrying the
      store's own error message. */
  datatype Reply =
    | Failure(status: nat, message: string)
    | Json(doc: Doc)
    | Created
    | Deleted
    | ServerError

  const PostCreatedKey: string := "post.created"
  const PostDeletedKey: string := "post.deleted"
  const PostTtl: nat := 3600
  const ListingTtl: nat := 300
  const NotFound: string := "Post not found"

  /** The glob `invalidatePostCache` deletes, `posts:*`, as the prefix it matches. */
  const ListingPattern: string := "posts:"

  /** The key a single post is cached under. */
  function PostKey(id: string): (key: string)
    ensures StartsWith(key, "post:") && key[|"post:"|..] == id
    ensures !StartsWith(key, ListingPattern)
  {
    var key := "post:" + id;
    assert key[..5] == "post:";
    assert |key| >= 6 ==> key[..6][4] == ':' != ListingPattern[4];
    key
  }

  /** The key a listing page is cached under, as `getAllPosts` builds it. */
  function ListingKey(page: int): (key: string)
    ensures StartsWith(key, "Posts: ") && |key| > |"Posts: "|
  {
    "Posts: " + IntToString(page)
  }

  /** The cache after `invalidatePostCache(id)`: the post's key and every
      key matched by `posts:*` are gone, everything else is as it was. */
  function Invalidated(cache: map<string, Entry>, id: string): (r: map<string, Entry>)
    ensures PostKey(id) !in r
    ensures forall k :: k in r ==> !StartsWith(k, ListingPattern)
    ensures forall k :: k in r ==> k in cache && r[k] == cache[k]
    ensures forall k :: k in cache && k != PostKey(id) && !StartsWith(k, ListingPattern) ==> k in r
  {
    map k | k in cache && k != PostKey(id) && !StartsWith(k, ListingPattern) :: cache[k]
  }

  /** The steps `invalidatePostCache(id)` awaits: a single-key delete, the
      `keys` query, and a bulk delete only when it found something. */
  function InvalidationSteps(cache: map<string, Entry>, id: string): (steps: seq<Step>)
    ensures |steps| >= 2 && steps[0] == CacheDel({PostKey(id)}) && steps[1] == CacheKeys(ListingPattern)
    ensures |steps| == 3 <==> exists k :: k in cache && StartsWith(k, ListingPattern)
    ensures |steps| <= 3
  {
    var matched := set k | k in cache && k != PostKey(id) && StartsWith(k, ListingPattern);
    assert !StartsWith(PostKey(id), ListingPattern);
    assert forall k :: k in cache && StartsWith(k, ListingPattern) ==> k in matched;
    [CacheDel({PostKey(id)}), CacheKeys(ListingPattern)]
      + (if matched != {} then [CacheDel(matched)] else [])
  }

  /** No listing key is matched by `posts:*` (its first letter is upper
      case), and none is the key of a post. */
  lemma ListingKeyEscapesPattern(page: int, id: string)
    ensures !StartsWith(ListingKey(page), ListingPattern)
    ensures ListingKey(page) != PostKey(id)
  {
    assert ListingKey(page)[0] == 'P';
    assert PostKey(id)[0] == 'p';
  }

  /** Hence invalidation leaves every cached listing page in place, value
      and TTL unchanged. */
  lemma InvalidationKeepsListings(cache: map<string, Entry>, id: string, page: int)
    requires ListingKey(page) in cache
    ensures ListingKey(page) in Invalidated(cache, id)
    ensures Invalidated(cache, id)[ListingKey(page)] == cache[ListingKey(page)]
  {
    ListingKeyEscapesPattern(page, id);
  }

  /** Different pages are cached under different keys. */
  lemma ListingKeysDistinct(p1: int, p2: int)
    requires p1 != p2
    ensures ListingKey(p1) != ListingKey(p2)
  {
    if ListingKey(p1) == ListingKey(p2) {
      assert ListingKey(p1)[7..] == IntToString(p1);
      assert ListingKey(p2)[7..] == IntToString(p2);
      IntToStringInjective(p1, p2);
    }
  }

  /** The post in `posts` with id `id`, the first one if several. */
  function FindById(posts: seq<Post>, id: string): (r: Option<nat>)
    ensures r.Some? ==> r.value < |posts| && posts[r.value].id == id
    ensures r.None? <==> forall j :: 0 <= j < |posts| ==> posts[j].id != id
  {
    FirstIndex(posts, (p: Post) => p.id == id)
  }

  /** The first post with id `id` owned by `user`. */
  function FindOwned(posts: seq<Post>, id: string, user: string): (r: Option<nat>)
    ensures r.Some? ==> r.value < |posts| && posts[r.value].id == id && posts[r.value].user == user
    ensures r.None? <==> forall j :: 0 <= j < |posts| ==> !(posts[j].id == id && posts[j].user == user)
  {
    FirstIndex(posts, (p: Post) => p.id == id && p.user == user)
  }

  ghost function PostId(p: Post): string { p.id }

  class PostService {
    var posts: seq<Post>
    var cache: map<string, Entry>
    var events: seq<Event>
    ghost var trace: seq<Step>

    /** Post ids are unique, as the store's primary key makes them. */
    ghost predicate Valid()
      reads this
    {
      DistinctKeys(posts, PostId)
    }

    constructor ()
      ensures Valid()
      ensures posts == [] && cache == map[] && events == [] && trace == []
    {
      posts, cache, events, trace := [], map[], [], [];
    }

    /** `invalidatePostCache(req, input)`. */
    method InvalidatePostCache(input: string)
      requires Valid()
      modifies this
      ensures Valid()
      ensures cache == Invalidated(old(cache), input)
      ensures posts == old(posts) && events == old(events)
      ensures trace == old(trace) + InvalidationSteps(old(cache), input)
    {
      var key := PostKey(input);
      cache := cache - {key};
      trace := trace + [CacheDel({key})];
      var keys := set k | k in cache && StartsWith(k, ListingPattern);
      trace := trace + [CacheKeys(ListingPattern)];
      if |keys| > 0 {
        cache := cache - keys;
        trace := trace + [CacheDel(keys)];
      }
      assert keys == set k | k in old(cache) && k != PostKey(input) && StartsWith(k, ListingPattern);
      assert cache == Invalidated(old(cache), input);
    }

    /** `createPost`, for the user the auth middleware put in `req.user`.
        The body validator is `validate` (an error message, or `None`);
        `freshId` is the id the store gives the new document and `now` its
        creation time. */
    method CreatePost(userId: string, body: CreateBody, validate: CreateBody -> Option<string>,
                      freshId: string, now: int) returns (reply: Reply)
      requires Valid()
      requires FindById(posts, freshId).None?
      modifies this
      ensures Valid()
      ensures validate(body).Some? ==>
        reply == Failure(400, validate(body).value)
        && posts == old(posts) && cache == old(cache) && events == old(events) && trace == old(trace)
      ensures validate(body).None? ==>
        var post := Post(freshId, userId, body.content,
                         if body.mediaIds.Some? then body.mediaIds.value else [], now);
        && reply == Created
        && posts == old(posts) + [post]
        && events == old(events) + [Event(PostCreatedKey, CreatedPayload(freshId, userId, body.content, now))]
        && cache == Invalidated(old(cache), freshId)
        && trace == old(trace) + [StoreSave(freshId), Publish(PostCreatedKey)]
                    + InvalidationSteps(old(cache), freshId)
    {
      var error := validate(body);
      if error.Some? {
        return Failure(400, error.value);
      }
      var mediaIds := if body.mediaIds.Some? then body.mediaIds.value else [];
      var post := Post(freshId, userId, body.content, mediaIds, now);
      posts := posts + [post];
      trace := trace + [StoreSave(freshId)];
      events := events + [Event(PostCreatedKey, CreatedPayload(post.id, post.user, post.content, post.createdAt))];
      trace := trace + [Publish(PostCreatedKey)];
      InvalidatePostCache(post.id);
      reply := Created;
    }

    /** `getAllPosts` with the raw `page` and `limit` query values. A hit
        on the listing key answers from the cache; a miss queries the
        store and caches the listing for 300 seconds. A negative skip
        count makes the store reject the query (a 500). */
    method GetAllPosts(pageQuery: Option<string>, limitQuery: Option<string>) returns (reply: Reply)
      requires Valid()
      modifies this
      ensures Valid()
      ensures posts == old(posts) && events == old(events)
      ensures ListingKey(PageNumber(pageQuery)) in old(cache) ==>
        var key := ListingKey(PageNumber(pageQuery));
        reply == Json(old(cache)[key].value) && cache == old(cache)
        && trace == old(trace) + [CacheGet(key)]
      ensures ListingKey(PageNumber(pageQuery)) !in old(cache)
              && StartIndex(PageNumber(pageQuery), PageLimit(limitQuery)) < 0 ==>
        reply == ServerError && cache == old(cache)
        && trace == old(trace) + [CacheGet(ListingKey(PageNumber(pageQuery))), StoreFind]
      ensures ListingKey(PageNumber(pageQuery)) !in old(cache)
              && StartIndex(PageNumber(pageQuery), PageLimit(limitQuery)) >= 0 ==>
        var page, limit := PageNumber(pageQuery), PageLimit(limitQuery);
        var key := ListingKey(page);
        var listing := BuildListing(old(posts), page, limit);
        reply == Json(ListingDoc(listing))
        && cache == old(cache)[key := Entry(ListingDoc(listing), ListingTtl)]
        && trace == old(trace) + [CacheGet(key), StoreFind, StoreCount, CacheSetex(key, ListingTtl)]
    {
      var page := PageNumber(pageQuery);
      var limit := PageLimit(limitQuery);
      var startIndex := StartIndex(page, limit);
      var cacheKey := ListingKey(page);
      if cacheKey in cache {
        trace := trace + [CacheGet(cacheKey)];
        return Json(cache[cacheKey].value);
      }
      if startIndex < 0 {
        trace := trace + [CacheGet(cacheKey), StoreFind];
        return ServerError;
      }
      var result := BuildListing(posts, page, limit);
      cache := cache[cacheKey := Entry(ListingDoc(result), ListingTtl)];
      trace := trace + [CacheGet(cacheKey), StoreFind, StoreCount, CacheSetex(cacheKey, ListingTtl)];
      reply := Json(ListingDoc(result));
    }

    /** `getPost(id)`: a hit answers from the cache without touching the
        store; a miss on an unknown id is a 404 that caches nothing; a miss
        on a stored post caches it for an hour. */
    method GetPost(id: string) returns (reply: Reply)
      requires Valid()
      modifies this
      ensures Valid()
      ensures posts == old(posts) && events == old(events)
      ensures var key := PostKey(id);
        if key in old(cache) then
          reply == Json(old(cache)[key].value) && cache == old(cache)
          && trace == old(trace) + [CacheGet(key)]
        else if FindById(old(posts), id).None? then
          reply == Failure(404, NotFound) && cache == old(cache)
          && trace == old(trace) + [CacheGet(key), StoreFindById(id)]
        else
          var post := old(posts)[FindById(old(posts), id).value];
          post.id == id
          && reply == Json(PostDoc(post))
          && cache == old(cache)[key := Entry(PostDoc(post), PostTtl)]
          && trace == old(trace) + [CacheGet(key), StoreFindById(id), CacheSetex(key, PostTtl)]
    {
      var cacheKey := PostKey(id);
      trace := trace + [CacheGet(cacheKey)];
      if cacheKey in cache {
        return Json(cache[cacheKey].value);
      }
      var found := FindById(posts, id);
      trace := trace + [StoreFindById(id)];
      if found.None? {
        return Failure(404, NotFound);
      }
      var post := posts[found.value];
      cache := cache[cacheKey := Entry(PostDoc(post), PostTtl)];
      trace := trace + [CacheSetex(cacheKey, PostTtl)];
      reply := Json(PostDoc(post));
    }

    /** `deletePost(id)` for the requesting user: only a post with that id
        AND that owner is removed; then `post.deleted` is published with the
        post's media ids, and only after that is the cache invalidated. */
    method DeletePost(id: string, userId: string) returns (reply: Reply)
      requires Valid()
      modifies this
      ensures Valid()
      ensures FindOwned(old(posts), id, userId).None? ==>
        reply == Failure(404, NotFound)
        && posts == old(posts) && cache == old(cache) && events == old(events)
        && trace == old(trace) + [StoreFindOneAndDelete(id, userId)]
      ensures FindOwned(old(posts), id, userId).Some? ==>
        var i := FindOwned(old(posts), id, userId).value;
        && reply == Deleted
        && posts == RemoveAt(old(posts), i)
        && FindById(posts, id).None?
        && events == old(events) + [Event(PostDeletedKey, DeletedPayload(id, userId, old(posts)[i].mediaIds))]
        && cache == Invalidated(old(cache), id)
        && PostKey(id) !in cache
        && trace == old(trace) + [StoreFindOneAndDelete(id, userId), Publish(PostDeletedKey)]
                    + InvalidationSteps(old(cache), id)
    {
      var found := FindOwned(posts, id, userId);
      trace := trace + [StoreFindOneAndDelete(id, userId)];
      if found.None? {
        return Failure(404, NotFound);
      }
      var post := posts[found.value];
      RemoveAtKeepsDistinct(posts, found.value, PostId);
      posts := RemoveAt(posts, found.value);
      events := events + [Event(PostDeletedKey, DeletedPayload(post.id, userId, post.mediaIds))];
      trace := trace + [Publish(PostDeletedKey)];
      InvalidatePostCache(id);
      reply := Deleted;
    }
  }

  /** After a successful delete the post can no longer be read: its cache
      entry is gone, so the next `getPost` goes to the store and gets 404. */
  method DeleteThenGet(service: PostService, id: string, userId: string) returns (deleted: Reply, read: Reply)
    requires service.Valid()
    modifies service
    ensures deleted == Deleted <==> FindOwned(old(service.posts), id, userId).Some?
    ensures deleted == Deleted ==> read == Failure(404, NotFound)
  {
    deleted := service.DeletePost(id, userId);
    read := service.GetPost(id);
  }

  /** A listing never shows a post the store does not hold. */
  lemma ListingHoldsOnlyStoredPosts(stored: seq<Post>, page: int, limit: int, id: string)
    requires limit != 0 && StartIndex(page, limit) >= 0
    requires FindById(stored, id).None?
    ensures forall k :: 0 <= k < |BuildListing(stored, page, limit).posts| ==> BuildListing(stored, page, limit).posts[k].id != id
  {
    var listed := BuildListing(stored, page, limit).posts;
    forall k | 0 <= k < |listed| ensures listed[k].id != id {
      assert listed[k] in multiset(listed);
      assert listed[k] in multiset(stored);
      assert listed[k] in stored;
    }
  }

  /** `?page=1` with no limit asks for the first page of ten posts. */
  lemma FirstPageQuery()
    ensures PageNumber(Some("1")) == 1 && PageLimit(None) == 10 && StartIndex(1, 10) == 0
  {
    PageNumberOfQuery(1, "");
    assert IntToString(1) == "1";
    PageLimitOfQuery(10, "");
  }

  /** The stale listing: a page read before a post is created is served
      again, unchanged, after it, because the listing key escapes
      invalidation. When the page was not cached before, the page served
      afterwards was computed before the post existed and cannot hold it. */
  method ListingStaysStale(service: PostService, userId: string, body: CreateBody,
                           validate: CreateBody -> Option<string>, freshId: string, now: int)
    returns (before: Reply, created: Reply, after: Reply)
    requires service.Valid()
    requires FindById(service.posts, freshId).None?
    modifies service
    ensures created == Created <==> validate(body).None?
    ensures before.Json? && after == before
    ensures created == Created ==> FindById(service.posts, freshId).Some?
    ensures ListingKey(1) !in old(service.cache) ==>
      before.doc.ListingDoc? && forall k :: 0 <= k < |before.doc.listing.posts| ==> before.doc.listing.posts[k].id != freshId
  {
    FirstPageQuery();
    var key := ListingKey(1);
    if key !in service.cache {
      ListingHoldsOnlyStoredPosts(service.posts, 1, 10, freshId);
    }
    before := service.GetAllPosts(Some("1"), None);
    assert key in service.cache;
    ghost var cached := service.cache[key];
    assert before == Json(cached.value);
    ghost var beforeCreate := service.cache;
    created := service.CreatePost(userId, body, validate, freshId, now);
    if created == Created {
      InvalidationKeepsListings(beforeCreate, freshId, 1);
      assert FindById(service.posts, freshId).Some? by {
        assert service.posts[|service.posts| - 1].id == freshId;
      }
    }
    assert key in service.cache && service.cache[key] == cached;
    after := service.GetAllPosts(Some("1"), None);
  }
}
