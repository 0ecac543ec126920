/** The state of one post card in the community feed
    (frontend/components/post-card.tsx): the optimistic like toggle and the
    local comment list. The parent's `onLike` / `onComment` callbacks are
    returned as values. */
module PostCardState {
  import opened Common
  import opened Text

  /** A comment shown on the card. */
  datatype CardComment = CardComment(
    id: string, userId: string, userName: string, userImage: string, content: string, date: string)

  /** The arguments of an `onComment(postId, comment)` call. */
  datatype CommentCall = CommentCall(postId: string, comment: string)

  /** The like state the card shows. */
  datatype LikeState = LikeState(isLiked: bool, likesCount: int)

  /** One click on the heart: the flag flips, and the count follows it up
      or down by one. */
  function LikeStep(s: LikeState): (r: LikeState)
    ensures r.isLiked == !s.isLiked
    ensures r.isLiked ==> r.likesCount == s.likesCount + 1
    ensures !r.isLiked ==> r.likesCount == s.likesCount - 1
  {
    var liked := !s.isLiked;
    LikeState(liked, if liked then s.likesCount + 1 else s.likesCount - 1)
  }

  /** Two clicks restore both the flag and the count. */
  lemma LikeTwiceRestores(s: LikeState)
    ensures LikeStep(LikeStep(s)) == s
  {
  }

  /** The shown count stays the server's count plus one exactly while the
      card says liked (started from a card that was not liked). */
  lemma {:induction false} CountTracksFlag(base: int, clicks: nat)
    ensures var s := LikeClicks(LikeState(false, base), clicks);
      s.likesCount == base + (if s.isLiked then 1 else 0)
      && (s.isLiked <==> clicks % 2 == 1)
  {
    if clicks > 0 {
      CountTracksFlag(base, clicks - 1);
    }
  }

  /** `clicks` consecutive clicks. */
  function LikeClicks(s: LikeState, clicks: nat): LikeState
    decreases clicks
  {
    if clicks == 0 then s else LikeStep(LikeClicks(s, clicks - 1))
  }

  const CurrentUser: string := "current-user"
  const CurrentUserName: string := "You"
  const PlaceholderImage: string := "/placeholder.svg?height=40&width=40"
  const JustNow: string := "Just now"

  class PostCard {
    const postId: string
    var isLiked: bool
    var likesCount: int
    var newComment: string
    var comments: seq<CardComment>

    /** `useState` initialisation from the post: not liked unless the post
        says so, and no comments unless it has some. */
    constructor (postId: string, liked: Option<bool>, likes: int, initial: Option<seq<CardComment>>)
      ensures this.postId == postId
      ensures isLiked == liked.GetOr(false) && likesCount == likes
      ensures comments == initial.GetOr([]) && newComment == ""
    {
      this.postId := postId;
      isLiked := liked.GetOr(false);
      likesCount := likes;
      newComment := "";
      comments := initial.GetOr([]);
    }

    /** `handleLike`: one `LikeStep`, then `onLike(post.id)`. */
    method HandleLike() returns (likedPost: string)
      modifies this
      ensures LikeState(isLiked, likesCount) == LikeStep(LikeState(old(isLiked), old(likesCount)))
      ensures comments == old(comments) && newComment == old(newComment)
      ensures likedPost == postId
    {
      var newLikedState := !isLiked;
      isLiked := newLikedState;
      likesCount := if newLikedState then likesCount + 1 else likesCount - 1;
      likedPost := postId;
    }

    /** Typing into the comment box. */
    method SetNewComment(text: string)
      modifies this
      ensures newComment == text
      ensures comments == old(comments) && isLiked == old(isLiked) && likesCount == old(likesCount)
    {
      newComment := text;
    }

    /** `handleComment` at the instant written `stamp`: a blank input does
        nothing; otherwise the input, untrimmed, is appended as the current
        user's comment, passed to `onComment`, and the box is cleared. */
    method HandleComment(stamp: string) returns (call: Option<CommentCall>)
      modifies this
      ensures isLiked == old(isLiked) && likesCount == old(likesCount)
      ensures IsBlank(old(newComment)) ==>
        call == None && comments == old(comments) && newComment == old(newComment)
      ensures !IsBlank(old(newComment)) ==>
        comments == old(comments)
          + [CardComment(stamp, CurrentUser, CurrentUserName, PlaceholderImage, old(newComment), JustNow)]
        && call == Some(CommentCall(postId, old(newComment)))
        && newComment == ""
      ensures |comments| == |old(comments)| + (if IsBlank(old(newComment)) then 0 else 1)
    {
      if IsBlank(newComment) {
        return None;
      }
      var comment := CardComment(stamp, CurrentUser, CurrentUserName, PlaceholderImage, newComment, JustNow);
      comments := comments + [comment];
      call := Some(CommentCall(postId, newComment));
      newComment := "";
    }
  }
}
