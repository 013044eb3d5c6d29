/**
 * A user's profile page: the gallery of that user's posts from the fixed
 * sample list, the post count shown above it, and the follow button.
 */
module UserProfile {

  datatype ProfilePost = ProfilePost(id: int, user: string, postImage: string, caption: string)

  /** The sample posts of the whole community. */
  const AllPosts: seq<ProfilePost> := [
    ProfilePost(1, "냥집사123", "/placeholder.svg", "우리집 첫째 솜뭉치 🐱"),
    ProfilePost(2, "고양이언니", "/placeholder.svg", "햇살 좋은 오후 ☀️"),
    ProfilePost(3, "냥집사123", "/placeholder.svg", "새 장난감!"),
    ProfilePost(4, "치즈태비", "/placeholder.svg", "꾹꾹이 장인"),
    ProfilePost(5, "냥집사123", "/placeholder.svg", "간식 내놔라 집사야"),
    ProfilePost(6, "고양이언니", "/placeholder.svg", "자는 모습도 천사")
  ]

  datatype ProfileUser = ProfileUser(
    name: string, image: string, bio: string, posts: nat, followers: nat, following: nat)

  const FollowingLabel := "팔로잉"
  const FollowLabelText := "팔로우"

  /** `posts.filter(post => post.user === username)` */
  function UserPosts(posts: seq<ProfilePost>, username: string): (r: seq<ProfilePost>)
    ensures |r| <= |posts|
    ensures forall i :: 0 <= i < |r| ==> r[i].user == username && r[i] in posts
  {
    if posts == [] then []
    else (if posts[0].user == username then [posts[0]] else []) + UserPosts(posts[1..], username)
  }

  /** A post is in the gallery exactly when it is in the list and is the user's. */
  lemma {:induction false} UserPostsMembership(posts: seq<ProfilePost>, username: string, p: ProfilePost)
    ensures p in UserPosts(posts, username) <==> p in posts && p.user == username
  {
    if posts != [] {
      UserPostsMembership(posts[1..], username, p);
      assert posts == [posts[0]] + posts[1..];
    }
  }

  /** The filter keeps the list's order: filtering a concatenation concatenates the filtered parts. */
  lemma {:induction false} UserPostsConcat(a: seq<ProfilePost>, b: seq<ProfilePost>, username: string)
    ensures UserPosts(a + b, username) == UserPosts(a, username) + UserPosts(b, username)
  {
    if a == [] {
      assert a + b == b;
    } else {
      var c := a + b;
      assert c[0] == a[0] && c[1..] == a[1..] + b;
      UserPostsConcat(a[1..], b, username);
      var head := if a[0].user == username then [a[0]] else [];
      var x, y := UserPosts(a[1..], username), UserPosts(b, username);
      assert UserPosts(c, username) == head + (x + y);
      assert head + (x + y) == (head + x) + y;
    }
  }

  /** A user with no posts gets an empty gallery. */
  lemma {:induction false} UserPostsNone(posts: seq<ProfilePost>, username: string)
    requires forall i :: 0 <= i < |posts| ==> posts[i].user != username
    ensures UserPosts(posts, username) == []
  {
    if posts != [] {
      UserPostsNone(posts[1..], username);
    }
  }

  /** The user record the page builds; its post count is the size of the gallery. */
  function Profile(username: string): (u: ProfileUser)
    ensures u.name == username && u.posts == |UserPosts(AllPosts, username)|
    ensures u.followers == 1254 && u.following == 150
  {
    ProfileUser(username, "/placeholder.svg", "고양이를 사랑하는 집사입니다. 우리 냥이들 보러오세요!",
                |UserPosts(AllPosts, username)|, 1254, 150)
  }

  /** The sample data: three posts for 냥집사123, in list order, and none for a feed author absent from the list. */
  lemma SampleProfiles()
    ensures UserPosts(AllPosts, "냥집사123") == [AllPosts[0], AllPosts[2], AllPosts[4]]
    ensures Profile("냥집사123").posts == 3
    ensures Profile("집사생활").posts == 0
  {
    UserPostsNone(AllPosts, "집사생활");
  }

  /** The follow button's label. */
  function FollowLabel(isFollowing: bool): (caption: string)
    ensures caption == FollowingLabel <==> isFollowing
    ensures !isFollowing ==> caption == FollowLabelText
  {
    if isFollowing then FollowingLabel else FollowLabelText
  }

  /** The state of one `UserProfileClient`. */
  class ProfileView {
    const username: string
    var isFollowing: bool

    constructor (username: string)
      ensures this.username == username && !isFollowing
    {
      this.username := username;
      isFollowing := false;
    }

    /** `handleFollow` */
    method HandleFollow()
      modifies this`isFollowing
      ensures isFollowing == !old(isFollowing)
    {
      isFollowing := !isFollowing;
    }
  }

  /** Following twice gives back the original state. */
  method FollowTwiceRestores(view: ProfileView)
    modifies view
    ensures view.isFollowing == old(view.isFollowing)
  {
    view.HandleFollow();
    view.HandleFollow();
  }
}
