/** The post routes of `limitless-backend` (routes/posts.js) over an
    in-memory `posts` collection. The caller is the authenticated athlete
    whose id the auth middleware put on the request. */
module Feed {
  import opened Common
  import opened Text
  import opened Lists
  import opened PostModel

  /** What every post of the collection satisfies. */
  predicate Stored(p: Post, nextId: Id) {
    p.id < nextId && SchemaValid(p) && NoDup(p.likes)
  }

  /** The collection invariant: every post is stored properly and ids are
      distinct. */
  ghost predicate ValidPosts(posts: seq<Post>, nextId: Id) {
    (forall i :: 0 <= i < |posts| ==> Stored(posts[i], nextId))
    && (forall i, j :: 0 <= i < j < |posts| ==> posts[i].id != posts[j].id)
  }

  /** Appending a post that takes the next id keeps the invariant. */
  lemma AppendKeepsValid(posts: seq<Post>, nextId: Id, p: Post)
    requires ValidPosts(posts, nextId)
    requires p.id == nextId && SchemaValid(p) && NoDup(p.likes)
    ensures ValidPosts(posts + [p], nextId + 1)
  {
    var ps := posts + [p];
    forall i | 0 <= i < |ps| ensures Stored(ps[i], nextId + 1) {
      if i < |posts| { assert Stored(posts[i], nextId); }
    }
    forall i, j | 0 <= i < j < |ps| ensures ps[i].id != ps[j].id {
      assert Stored(posts[i], nextId);
    }
  }

  /** Replacing a post by one with the same id that is still stored
      properly keeps the invariant. */
  lemma ReplaceKeepsValid(posts: seq<Post>, nextId: Id, i: nat, p: Post)
    requires ValidPosts(posts, nextId) && i < |posts|
    requires p.id == posts[i].id && SchemaValid(p) && NoDup(p.likes)
    ensures ValidPosts(posts[i := p], nextId)
  {
    assert Stored(posts[i], nextId);
  }

  /** The next id is not taken. */
  lemma FreshIdAbsent(posts: seq<Post>, nextId: Id)
    requires ValidPosts(posts, nextId)
    ensures PostIndex(posts, nextId) == -1
  {
    forall k | 0 <= k < |posts| ensures posts[k].id != nextId {
      assert Stored(posts[k], nextId);
    }
  }

  /** The response of POST /api/posts for the next id `nextId`: a missing
      or blank content gets 400; otherwise the caller's new post, whose
      content the route trims before the schema trims it again. */
  function CreateResponse(nextId: Id, caller: Id, content: Option<string>, image: Option<string>, now: int)
    : (r: Result<Post>)
    ensures r.Err? <==> content.None? || IsBlank(content.value)
    ensures r.Err? ==> r == Err(BadRequest("Post content cannot be empty", []))
    ensures r.Ok? ==>
      && r.value == NewPost(nextId, caller, content.value, image, now)
      && r.value.content == Trim(content.value)
      && SchemaValid(r.value)
      && r.value.id == nextId && r.value.likes == [] && r.value.comments == []
  {
    if content.None? || IsBlank(content.value) then Err(BadRequest("Post content cannot be empty", []))
    else
      PreTrimmedPostIsSame(nextId, caller, content.value, image, now);
      Ok(NewPost(nextId, caller, Trim(content.value), image, now))
  }

  class PostFeed {
    /** The collection, in natural (insertion) order. */
    var posts: seq<Post>
    /** The id the next created post receives. */
    var nextId: Id

    /** Every stored post passed schema validation, has an id below
        `nextId` and a like list without duplicates; ids are distinct. */
    ghost predicate Valid()
      reads this
    {
      ValidPosts(posts, nextId)
    }

    constructor ()
      ensures Valid() && posts == [] && nextId == 0
    {
      posts := [];
      nextId := 0;
    }

    /** POST /api/posts: a missing or blank content is refused before
        anything is stored; otherwise the trimmed post is appended. */
    method Create(caller: Id, content: Option<string>, image: Option<string>, now: int)
      returns (r: Result<Post>)
      requires Valid()
      modifies this
      ensures Valid()
      ensures r == CreateResponse(old(nextId), caller, content, image, now)
      ensures if r.Ok? then posts == old(posts) + [r.value] && nextId == old(nextId) + 1
        else posts == old(posts) && nextId == old(nextId)
      ensures r.Ok? ==> PostIndex(old(posts), r.value.id) == -1
    {
      r := CreateResponse(nextId, caller, content, image, now);
      if r.Ok? {
        FreshIdAbsent(posts, nextId);
        AppendKeepsValid(posts, nextId, r.value);
        posts := posts + [r.value];
        nextId := nextId + 1;
      }
    }

    /** GET /api/posts: every post, newest first. */
    method List() returns (r: seq<Post>)
      requires Valid()
      ensures SortedBy(r, NewestFirst)
      ensures multiset(r) == multiset(posts)
    {
      r := SortBy(posts, NewestFirst);
    }

    /** PUT /api/posts/:id/like: adds the caller's like when absent,
        otherwise removes it (`indexOf` then `push` or `splice`), and
        answers with the new like list. Because like lists never hold
        duplicates, this is also the legacy backend's `filter` toggle. */
    method ToggleLike(id: Id, caller: Id) returns (r: Result<seq<Id>>)
      requires Valid()
      modifies this
      ensures Valid() && nextId == old(nextId)
      ensures PostIndex(old(posts), id) == -1 ==>
        r == Err(NotFound("Post not found")) && posts == old(posts)
      ensures var i := PostIndex(old(posts), id);
        i != -1 ==>
          posts == old(posts)[i := old(posts)[i].(likes := ToggleFirst(old(posts)[i].likes, caller))]
          && r == Ok(posts[i].likes)
          && posts[i].likes == ToggleEvery(old(posts)[i].likes, caller)
          && (caller in posts[i].likes <==> caller !in old(posts)[i].likes)
    {
      var i := PostIndex(posts, id);
      if i == -1 {
        return Err(NotFound("Post not found"));
      }
      var post := posts[i];
      var likeIndex := IndexOf(post.likes, caller);
      if likeIndex == -1 {
        post := post.(likes := post.likes + [caller]);
      } else {
        post := post.(likes := RemoveAt(post.likes, likeIndex));
      }
      assert post.likes == ToggleFirst(posts[i].likes, caller);
      TogglesKeepNoDup(posts[i].likes, caller);
      TogglesAgreeWithoutDuplicates(posts[i].likes, caller);
      ReplaceKeepsValid(posts, nextId, i, post);
      posts := posts[i := post];
      r := Ok(post.likes);
    }

    /** POST /api/posts/:id/comments: a missing or blank content is refused
        first (even for an unknown post), then an unknown post; otherwise the
        trimmed comment goes to the front of the list, which is the answer. */
    method AddComment(id: Id, caller: Id, content: Option<string>, now: int)
      returns (r: Result<seq<Comment>>)
      requires Valid()
      modifies this
      ensures Valid() && nextId == old(nextId)
      ensures content.None? || IsBlank(content.value) ==>
        r == Err(BadRequest("Comment content cannot be empty", [])) && posts == old(posts)
      ensures content.Some? && !IsBlank(content.value) && PostIndex(old(posts), id) == -1 ==>
        r == Err(NotFound("Post not found")) && posts == old(posts)
      ensures var i := PostIndex(old(posts), id);
        content.Some? && !IsBlank(content.value) && i != -1 ==>
          posts == old(posts)[i := old(posts)[i].(comments :=
            [Comment(caller, Trim(content.value), now)] + old(posts)[i].comments)]
          && r == Ok(posts[i].comments)
    {
      if content.None? || IsBlank(content.value) {
        return Err(BadRequest("Comment content cannot be empty", []));
      }
      var i := PostIndex(posts, id);
      if i == -1 {
        return Err(NotFound("Post not found"));
      }
      var comment := Comment(caller, Trim(content.value), now);
      var post := posts[i].(comments := [comment] + posts[i].comments);
      assert Stored(posts[i], nextId);
      ReplaceKeepsValid(posts, nextId, i, post);
      posts := posts[i := post];
      r := Ok(post.comments);
    }
  }
}
