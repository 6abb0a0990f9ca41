/** The filter queries the read views run against the storage layer. */
module Queries {
  import opened Domain
  import opened FollowTable

  /** `author.posts.all()`: the ids of the posts written by `author`. */
  function AuthorPosts(posts: map<PostId, Post>, author: Username): (r: set<PostId>)
    ensures forall id :: id in r <==> id in posts && posts[id].author == author
  {
    set id | id in posts && posts[id].author == author
  }

  /** `group.posts.all()`: the ids of the posts filed under the group `slug`. */
  function GroupPosts(posts: map<PostId, Post>, slug: Slug): (r: set<PostId>)
    ensures forall id :: id in r <==> id in posts && posts[id].group == Some(slug)
  {
    set id | id in posts && posts[id].group == Some(slug)
  }

  /** `User.objects.filter(following__user=user)`: the authors that `user` has a Follow row for. */
  function FollowedAuthors(rows: seq<Follow>, user: Username): (r: set<Username>)
    ensures forall a :: a in r <==> Follow(user, a) in rows
  {
    var r := set f | f in rows && f.user == user :: f.author;
    assert forall a :: Follow(user, a) in rows ==> a in r by {
      forall a | Follow(user, a) in rows ensures a in r {
        var f := Follow(user, a);
        assert f in rows && f.user == user;
      }
    }
    r
  }

  /**
   * `Post.objects.filter(author__in=authors)` over the followed authors: exactly the posts whose
   * author `user` follows.
   */
  function FollowFeed(posts: map<PostId, Post>, rows: seq<Follow>, user: Username): (r: set<PostId>)
    ensures forall id :: id in r <==> id in posts && Follow(user, posts[id].author) in rows
  {
    set id | id in posts && posts[id].author in FollowedAuthors(rows, user)
  }

  /** `post.comments.all()`: the comments on post `id`, in the order they were stored. */
  function PostComments(comments: seq<Comment>, id: PostId): (r: seq<Comment>)
    ensures forall c :: c in r <==> c in comments && c.post == id
    ensures |r| <= |comments|
  {
    if comments == [] then []
    else if comments[0].post == id then [comments[0]] + PostComments(comments[1..], id)
    else PostComments(comments[1..], id)
  }

  /**
   * The profile's `following` value: undefined for an anonymous visitor, otherwise whether the
   * visitor has a Follow row for `author`.
   */
  function IsFollowing(rows: seq<Follow>, visitor: Option<Username>, author: Username): (r: Option<bool>)
    ensures r.None? <==> visitor.None?
    ensures visitor.Some? ==> (r == Some(true) <==> author in FollowedAuthors(rows, visitor.value))
  {
    match visitor
    case None => None
    case Some(u) => Some(Follow(u, author) in rows)
  }

  /** Storing a post with a fresh id adds it to its author's posts and to no one else's. */
  lemma AuthorPostsAfterInsert(posts: map<PostId, Post>, id: PostId, p: Post, a: Username)
    requires id !in posts
    ensures AuthorPosts(posts[id := p], a) == AuthorPosts(posts, a) + (if p.author == a then {id} else {})
    ensures |AuthorPosts(posts[id := p], a)| == |AuthorPosts(posts, a)| + (if p.author == a then 1 else 0)
  {
  }

  /** Rewriting a post while keeping its author leaves every author's posts as they were. */
  lemma AuthorPostsAfterEdit(posts: map<PostId, Post>, id: PostId, p: Post, a: Username)
    requires id in posts && p.author == posts[id].author
    ensures AuthorPosts(posts[id := p], a) == AuthorPosts(posts, a)
  {
  }

  /**
   * Storing post `p` under `id`, fresh or existing, files `id` under `p`'s group and under no
   * other; every other post stays where it was.
   */
  lemma GroupPostsAfterStore(posts: map<PostId, Post>, id: PostId, p: Post, slug: Slug)
    ensures GroupPosts(posts[id := p], slug)
         == (GroupPosts(posts, slug) - {id}) + (if p.group == Some(slug) then {id} else {})
  {
  }

  /** A follow request adds the author's posts to the user's feed (unless it was a self-follow). */
  lemma FeedAfterFollow(posts: map<PostId, Post>, rows: seq<Follow>, user: Username, author: Username)
    ensures FollowFeed(posts, FollowRows(rows, user, author), user)
         == FollowFeed(posts, rows, user) + (if user == author then {} else AuthorPosts(posts, author))
  {
  }

  /** An unfollow request takes exactly the author's posts out of the user's feed. */
  lemma FeedAfterUnfollow(posts: map<PostId, Post>, rows: seq<Follow>, user: Username, author: Username)
    ensures FollowFeed(posts, RemoveRows(rows, Follow(user, author)), user)
         == FollowFeed(posts, rows, user) - AuthorPosts(posts, author)
  {
  }

  /** No other user's feed changes when `user` follows or unfollows. */
  lemma OtherFeedsUnchanged(posts: map<PostId, Post>, rows: seq<Follow>, user: Username, author: Username, other: Username)
    requires other != user
    ensures FollowFeed(posts, FollowRows(rows, user, author), other) == FollowFeed(posts, rows, other)
    ensures FollowFeed(posts, RemoveRows(rows, Follow(user, author)), other) == FollowFeed(posts, rows, other)
  {
  }

  /** Without self edges a user's own posts never appear in their follow feed. */
  lemma FeedExcludesOwnPosts(posts: map<PostId, Post>, rows: seq<Follow>, user: Username)
    requires NoSelfFollows(rows)
    ensures FollowFeed(posts, rows, user) * AuthorPosts(posts, user) == {}
  {
  }

  /** Storing a comment appends it to its post's comment list and leaves other posts' lists alone. */
  lemma {:induction false} CommentsAfterAppend(comments: seq<Comment>, c: Comment, id: PostId)
    ensures PostComments(comments + [c], id) == PostComments(comments, id) + (if c.post == id then [c] else [])
  {
    if comments == [] {
      assert comments + [c] == [c];
    } else {
      assert (comments + [c])[1..] == comments[1..] + [c];
      CommentsAfterAppend(comments[1..], c, id);
    }
  }

  /**
   * After a follow request the profile reports `following` for the user unless it is their own
   * profile; after an unfollow request it reports not following.
   */
  lemma FollowingAfterRequests(rows: seq<Follow>, user: Username, author: Username)
    requires NoSelfFollows(rows)
    ensures IsFollowing(FollowRows(rows, user, author), Some(user), author) == Some(user != author)
    ensures IsFollowing(RemoveRows(rows, Follow(user, author)), Some(user), author) == Some(false)
  {
  }
}
