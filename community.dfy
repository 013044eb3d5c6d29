/**
 * The community feed: each post card keeps its own like counter, liked flag,
 * comment list and comment being typed.
 */
module Community {
  import opened JsString

  datatype Comment = Comment(user: string, text: string)

  datatype Post = Post(
    id: int, user: string, userImage: string, postImage: string, caption: string,
    initialLikes: int, initialComments: seq<Comment>)

  /** The author recorded for comments written on this page. */
  const CurrentUser := "나"

  /** The sample feed the page renders, one card per post. */
  const InitialPosts: seq<Post> := [
    Post(1, "냥집사123", "/placeholder.svg", "/placeholder.svg", "우리집 첫째 솜뭉치 🐱 #고양이 #냥스타그램", 125,
         [Comment("고양이언니", "너무 귀여워요!")]),
    Post(2, "고양이언니", "/placeholder.svg", "/placeholder.svg", "햇살 좋은 오후 ☀️", 230, []),
    Post(3, "집사생활", "/placeholder.svg", "/placeholder.svg", "새 장난감 사줬더니 신났어요! #캣토이", 98,
         [Comment("치즈태비", "어디서 사셨나요?")]),
    Post(4, "치즈태비", "/placeholder.svg", "/placeholder.svg", "꾹꾹이 장인", 542, [])
  ]

  /** The feed renders one card per sample post keyed by its id, and no two posts share an id. */
  lemma InitialPostKeysDistinct()
    ensures |InitialPosts| == 4
    ensures forall i, j :: 0 <= i < j < |InitialPosts| ==> InitialPosts[i].id != InitialPosts[j].id
  {
  }

  /** The state of one `PostCard`. */
  class PostCard {
    const post: Post
    var likes: int
    var isLiked: bool
    var comments: seq<Comment>
    var newComment: string

    /** The counter is the post's initial count plus one while the viewer likes it. */
    ghost predicate Valid()
      reads this
    {
      likes == post.initialLikes + (if isLiked then 1 else 0)
    }

    /** The initial `useState` values. */
    constructor (post: Post)
      ensures Valid()
      ensures this.post == post && likes == post.initialLikes && !isLiked
      ensures comments == post.initialComments && newComment == ""
    {
      this.post := post;
      likes, isLiked := post.initialLikes, false;
      comments, newComment := post.initialComments, "";
    }

    /** `handleLike`: flips the flag and moves the counter with it. */
    method HandleLike()
      requires Valid()
      modifies this`likes, this`isLiked
      ensures Valid()
      ensures isLiked == !old(isLiked)
      ensures likes == if old(isLiked) then old(likes) - 1 else old(likes) + 1
    {
      likes := if isLiked then likes - 1 else likes + 1;
      isLiked := !isLiked;
    }

    /** The comment field's `onChange`. */
    method EditComment(text: string)
      requires Valid()
      modifies this`newComment
      ensures Valid()
      ensures newComment == text
    {
      newComment := text;
    }

    /** The send button is disabled exactly when the typed comment is blank after trimming. */
    function SendDisabled(): (disabled: bool)
      reads this
      ensures disabled <==> AllWhitespace(newComment)
    {
      Trim(newComment) == ""
    }

    /**
     * `handleCommentSubmit`: a comment that is not blank is appended as
     * typed (untrimmed) and the field is cleared; a blank one changes nothing.
     * The likes are never touched and the list never shrinks.
     */
    method HandleCommentSubmit()
      requires Valid()
      modifies this`comments, this`newComment
      ensures Valid()
      ensures old(SendDisabled()) ==> comments == old(comments) && newComment == old(newComment)
      ensures !old(SendDisabled()) ==>
        comments == old(comments) + [Comment(CurrentUser, old(newComment))] && newComment == ""
      ensures |old(comments)| <= |comments| && comments[..|old(comments)|] == old(comments)
    {
      if Trim(newComment) != "" {
        comments := comments + [Comment(CurrentUser, newComment)];
        newComment := "";
      }
    }
  }

  /** Liking twice gives back the counter and the flag. */
  method LikeTwiceRestores(card: PostCard)
    requires card.Valid()
    modifies card
    ensures card.Valid()
    ensures card.likes == old(card.likes) && card.isLiked == old(card.isLiked)
    ensures card.comments == old(card.comments) && card.newComment == old(card.newComment)
  {
    card.HandleLike();
    card.HandleLike();
  }
}
