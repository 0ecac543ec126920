/** The `Post` document of `limitless-backend` (models/Post.js): its fields,
    the defaults the schema fills in, the `trim` setter on `content`, and the
    `required` checks that `save` applies. */
module PostModel {
  import opened Common
  import opened Text
  import opened Lists

  /** An entry of a post's `comments` array; `createdAt` defaults to the
      time the comment is added. */
  datatype Comment = Comment(user: Id, content: string, createdAt: int)

  /** A stored post. `image` is `null` (None) unless the author gave one;
      `likes` holds the ids of the athletes who like the post. */
  datatype Post = Post(
    id: Id,
    user: Id,
    content: string,
    image: Option<string>,
    likes: seq<Id>,
    comments: seq<Comment>,
    createdAt: int)

  /** What `save` accepts: a `required` string rejects the empty string,
      both for the post's content and for each comment's content. */
  predicate SchemaValid(p: Post) {
    p.content != [] && forall c :: c in p.comments ==> c.content != []
  }

  /** `new Post({ user, content, image })` at time `now`: the `trim` setter
      stores the content trimmed, and the arrays start empty. Such a post
      passes validation exactly when the content is not blank. */
  function NewPost(id: Id, user: Id, content: string, image: Option<string>, now: int): (p: Post)
    ensures p.id == id && p.user == user && p.image == image && p.createdAt == now
    ensures p.likes == [] && p.comments == []
    ensures p.content == Trim(content)
    ensures SchemaValid(p) <==> !IsBlank(content)
  {
    BlankIffTrimEmpty(content);
    Post(id, user, Trim(content), image, [], [], now)
  }

  /** The route trims the content before the schema's setter trims it
      again; the second trim changes nothing. */
  lemma PreTrimmedPostIsSame(id: Id, user: Id, content: string, image: Option<string>, now: int)
    ensures NewPost(id, user, Trim(content), image, now) == NewPost(id, user, content, image, now)
  {
    TrimIdempotent(content);
  }

  /** `Post.findById(id)`: the index of the post with that id, or -1. */
  function PostIndex(posts: seq<Post>, id: Id): (r: int)
    ensures r == -1 <==> forall k :: 0 <= k < |posts| ==> posts[k].id != id
    ensures r != -1 ==> 0 <= r < |posts| && posts[r].id == id
  {
    FindIndex(posts, (p: Post) => p.id == id)
  }

  /** The sort key of `sort({ createdAt: -1 })`: newest first. */
  function NewestFirst(p: Post): int {
    -p.createdAt
  }
}
