/** The post routes of the older `backend` service (backend/routes/posts.js).
    They share the post document shape of `PostModel` but validate and trim
    nothing, and toggle likes with `includes` / `filter` / `push`. */
module LegacyFeed {
  import opened Common
  import opened Lists
  import opened PostModel

  /** Ids are below `nextId` and distinct. */
  ghost predicate ValidIds(posts: seq<Post>, nextId: Id) {
    (forall i :: 0 <= i < |posts| ==> posts[i].id < nextId)
    && (forall i, j :: 0 <= i < j < |posts| ==> posts[i].id != posts[j].id)
  }

  class LegacyPostFeed {
    var posts: seq<Post>
    var nextId: Id

    ghost predicate Valid()
      reads this
    {
      ValidIds(posts, nextId)
    }

    constructor ()
      ensures Valid() && posts == [] && nextId == 0
    {
      posts := [];
      nextId := 0;
    }

    /** POST /api/posts: the post is stored with the content exactly as
        given, blank or not. */
    method Create(caller: Id, content: string, image: Option<string>, now: int)
      returns (r: Post)
      requires Valid()
      modifies this
      ensures Valid()
      ensures r == Post(old(nextId), caller, content, image, [], [], now)
      ensures posts == old(posts) + [r] && nextId == old(nextId) + 1
      ensures PostIndex(old(posts), r.id) == -1
    {
      r := Post(nextId, caller, content, image, [], [], now);
      posts := posts + [r];
      nextId := nextId + 1;
    }

    /** GET /api/posts: every post, newest first. */
    method List() returns (r: seq<Post>)
      requires Valid()
      ensures SortedBy(r, NewestFirst)
      ensures multiset(r) == multiset(posts)
    {
      r := SortBy(posts, NewestFirst);
    }

    /** PUT /api/posts/:id/like: when the caller already likes the post,
        every occurrence of the caller's id is filtered out; otherwise the
        id is pushed. Afterwards the caller likes the post exactly when they
        did not before, and nobody else's like changes. */
    method ToggleLike(id: Id, caller: Id) returns (r: Result<seq<Id>>)
      requires Valid()
      modifies this
      ensures Valid() && nextId == old(nextId)
      ensures PostIndex(old(posts), id) == -1 ==>
        r == Err(NotFound("Post not found")) && posts == old(posts)
      ensures var i := PostIndex(old(posts), id);
        i != -1 ==>
          posts == old(posts)[i := old(posts)[i].(likes := ToggleEvery(old(posts)[i].likes, caller))]
          && r == Ok(posts[i].likes)
    {
      var i := PostIndex(posts, id);
      if i == -1 {
        return Err(NotFound("Post not found"));
      }
      var post := posts[i];
      if caller in post.likes {
        post := post.(likes := RemoveAll(post.likes, caller));
      } else {
        post := post.(likes := post.likes + [caller]);
      }
      posts := posts[i := post];
      r := Ok(post.likes);
    }

    /** POST /api/posts/:id/comments: on a known post the comment, with the
        content verbatim, goes to the front of the list, which is returned. */
    method AddComment(id: Id, caller: Id, content: string, now: int)
      returns (r: Result<seq<Comment>>)
      requires Valid()
      modifies this
      ensures Valid() && nextId == old(nextId)
      ensures PostIndex(old(posts), id) == -1 ==>
        r == Err(NotFound("Post not found")) && posts == old(posts)
      ensures var i := PostIndex(old(posts), id);
        i != -1 ==>
          posts == old(posts)[i := old(posts)[i].(comments :=
            [Comment(caller, content, now)] + old(posts)[i].comments)]
          && r == Ok(posts[i].comments)
    {
      var i := PostIndex(posts, id);
      if i == -1 {
        return Err(NotFound("Post not found"));
      }
      var post := posts[i].(comments := [Comment(caller, content, now)] + posts[i].comments);
      posts := posts[i := post];
      r := Ok(post.comments);
    }
  }
}
