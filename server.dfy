/**
 * The mapping of fetched server posts to quotes at the start of a sync:
 * only the first five posts are used, in order, each becoming a quote whose
 * id is `server-<post id>`, whose text is the post title and whose category
 * is `Server-<user id>`.
 */
module ServerPosts {
  import opened Wrappers
  import opened Decimal
  import opened Quotes

  /** One element of the JSON array the server returns, reduced to the fields the page reads. */
  datatype Post = Post(id: nat, title: string, userId: nat)

  /** How many posts one sync consumes. */
  const BATCH_LIMIT: nat := 5
  const SERVER_CATEGORY_PREFIX: string := "Server-"

  /** The quote a single post becomes. */
  function ToQuote(post: Post): (q: Quote)
    ensures ServerPostId(q.id) == Some(post.id)
    ensures q.text == post.title
    ensures q.category == SERVER_CATEGORY_PREFIX + DecimalString(post.userId)
  {
    ServerIdRoundTrip(post.id);
    Quote(ServerId(post.id), post.title, SERVER_CATEGORY_PREFIX + DecimalString(post.userId))
  }

  /** `posts.map(toQuote)`, element by element and in order. */
  function MapPosts(posts: seq<Post>): (r: seq<Quote>)
    ensures |r| == |posts|
    ensures forall i :: 0 <= i < |posts| ==> r[i] == ToQuote(posts[i])
  {
    if posts == [] then [] else [ToQuote(posts[0])] + MapPosts(posts[1..])
  }

  /** `serverData.slice(0, 5).map(...)`: the batch a sync reconciles. */
  function ServerQuotes(serverData: seq<Post>): (r: seq<Quote>)
    ensures |r| == if |serverData| < BATCH_LIMIT then |serverData| else BATCH_LIMIT
    ensures forall i :: 0 <= i < |r| ==> r[i] == ToQuote(serverData[i])
    ensures forall i :: 0 <= i < |r| ==> HasPrefix(r[i].id, SERVER_PREFIX)
  {
    var n := if |serverData| < BATCH_LIMIT then |serverData| else BATCH_LIMIT;
    MapPosts(serverData[..n])
  }

  /** No two of the first five posts share an id. */
  predicate DistinctLeadingPostIds(serverData: seq<Post>) {
    forall i, j :: 0 <= i < j < |serverData| && j < BATCH_LIMIT ==> serverData[i].id != serverData[j].id
  }

  /** Posts with distinct ids give a batch with distinct quote ids. */
  lemma ServerQuotesUniqueIds(serverData: seq<Post>)
    requires DistinctLeadingPostIds(serverData)
    ensures UniqueIds(ServerQuotes(serverData))
  {
  }
}
