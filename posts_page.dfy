/**
 * The dashboard's posts table: the search filter over title, slug and
 * tags, and the local list updates after a delete or a publish toggle,
 * given the server's answer. `processing` names the post whose request is
 * in flight.
 */
module PostsPage {
  import opened Options
  import opened Lists
  import opened Search

  datatype Post = Post(
    id: string,
    title: string,
    slug: string,
    content: string,
    tags: seq<string>,
    published: bool,
    createdAt: string,
    updatedAt: string)

  /** The search test of one post. */
  predicate PostMatches(p: Post, search: string)
  {
    Matches(p.title, search) || Matches(p.slug, search) || SomeMatches(p.tags, search)
  }

  /** `filteredPosts`. */
  function FilteredPosts(posts: seq<Post>, search: string): seq<Post>
  {
    Filter(posts, p => PostMatches(p, search))
  }

  /** A post is shown iff the search matches its title, its slug or one of
      its tags, ignoring case; the shown posts keep their order. */
  lemma FilteredPostsSpec(posts: seq<Post>, search: string)
    ensures forall k :: 0 <= k < |FilteredPosts(posts, search)| ==> PostMatches(FilteredPosts(posts, search)[k], search)
    ensures forall k :: 0 <= k < |posts| && PostMatches(posts[k], search) ==> posts[k] in FilteredPosts(posts, search)
    ensures IsSubsequence(FilteredPosts(posts, search), posts)
  {
    FilterIsSubsequence(posts, p => PostMatches(p, search));
  }

  /** The empty search shows every post. */
  lemma EmptySearchShowsAll(posts: seq<Post>)
    ensures FilteredPosts(posts, "") == posts
  {
    forall k | 0 <= k < |posts| ensures PostMatches(posts[k], "") {
      EmptySearchMatches(posts[k].title);
    }
    FilterAll(posts, p => PostMatches(p, ""));
  }

  /** The list after a successful delete. */
  function WithoutPost(posts: seq<Post>, id: string): seq<Post>
  {
    Filter(posts, (p: Post) => p.id != id)
  }

  /** A delete removes exactly the posts with that id, keeping the order of the rest. */
  lemma WithoutPostSpec(posts: seq<Post>, id: string)
    ensures forall k :: 0 <= k < |WithoutPost(posts, id)| ==> WithoutPost(posts, id)[k].id != id
    ensures forall k :: 0 <= k < |posts| && posts[k].id != id ==> posts[k] in WithoutPost(posts, id)
    ensures IsSubsequence(WithoutPost(posts, id), posts)
  {
    FilterIsSubsequence(posts, (p: Post) => p.id != id);
  }

  /** The list after a successful toggle: the post with that id replaced by
      the server's copy. */
  function ReplacePost(posts: seq<Post>, id: string, updated: Post): (r: seq<Post>)
    ensures |r| == |posts|
  {
    seq(|posts|, k requires 0 <= k < |posts| => if posts[k].id == id then updated else posts[k])
  }

  /** Only the positions holding that id change, each to the server's copy. */
  lemma ReplacePostSpec(posts: seq<Post>, id: string, updated: Post)
    ensures forall k :: 0 <= k < |posts| && posts[k].id != id ==> ReplacePost(posts, id, updated)[k] == posts[k]
    ensures forall k :: 0 <= k < |posts| && posts[k].id == id ==> ReplacePost(posts, id, updated)[k] == updated
    ensures (forall k :: 0 <= k < |posts| ==> posts[k].id != id) ==> ReplacePost(posts, id, updated) == posts
  {
  }

  class Page {
    var posts: seq<Post>
    var processing: Option<string>

    constructor ()
      ensures posts == [] && processing == None
    {
      posts, processing := [], None;
    }

    /** The fetch effect, when the response is ok. */
    method Loaded(data: seq<Post>)
      modifies this`posts
      ensures posts == data
    {
      posts := data;
    }

    /** `deletePost` up to its request: a declined confirmation stops it;
        otherwise the post is marked as processing. */
    method BeginDelete(id: string, confirmed: bool) returns (started: bool)
      modifies this`processing
      ensures started == confirmed
      ensures confirmed ==> processing == Some(id)
      ensures !confirmed ==> processing == old(processing)
    {
      started := confirmed;
      if confirmed {
        processing := Some(id);
      }
    }

    /** `deletePost` after its request: an ok response removes the post, a
        failed one leaves the list alone; either way nothing is processing. */
    method FinishDelete(id: string, ok: bool)
      modifies this
      ensures ok ==> posts == WithoutPost(old(posts), id)
      ensures !ok ==> posts == old(posts)
      ensures processing == None
    {
      if ok {
        posts := WithoutPost(posts, id);
      }
      processing := None;
    }

    /** `togglePublish` up to its request: the post is marked as processing
        and the request asks for the opposite of its current state. */
    method BeginToggle(post: Post) returns (requestedPublished: bool)
      modifies this`processing
      ensures requestedPublished == !post.published
      ensures processing == Some(post.id)
    {
      processing := Some(post.id);
      requestedPublished := !post.published;
    }

    /** `togglePublish` after its request: the server's post, when the
        response is ok, replaces the one with that id. */
    method FinishToggle(id: string, reply: Option<Post>)
      modifies this
      ensures reply.Some? ==> posts == ReplacePost(old(posts), id, reply.value)
      ensures reply.None? ==> posts == old(posts)
      ensures processing == None
    {
      if reply.Some? {
        posts := ReplacePost(posts, id, reply.value);
      }
      processing := None;
    }
  }
}
