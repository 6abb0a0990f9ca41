/** The read-only view handlers: each looks up its entity, runs its queries and renders a page. */
module Views {
  import opened Domain
  import opened Queries

  /** `profile`: the author's posts, how many there are, and the visitor's three-state `following`. */
  function ProfileView(db: Db, visitor: Option<Username>, username: Username): (r: Outcome)
    ensures r.NotFound? <==> username !in db.users
    ensures r.Render? <==> username in db.users
    ensures r.Render? ==> r.page.ProfilePage? && r.page.author == username
    ensures r.Render? ==> forall id :: id in r.page.posts <==> id in db.posts && db.posts[id].author == username
    ensures r.Render? ==> r.page.postsCount == |r.page.posts|
    ensures r.Render? ==> (r.page.following.None? <==> visitor.None?)
    ensures r.Render? && visitor.Some? ==> r.page.following == Some(Follow(visitor.value, username) in db.follows)
  {
    if username !in db.users then NotFound
    else
      var posts := AuthorPosts(db.posts, username);
      Render(ProfilePage(username, posts, |posts|, IsFollowing(db.follows, visitor, username)))
  }

  /** `post_detail`: the post, its author's post count (never zero) and the comments on it. */
  function PostDetailView(db: Db, id: PostId): (r: Outcome)
    ensures r.NotFound? <==> id !in db.posts
    ensures r.Render? <==> id in db.posts
    ensures r.Render? ==> r.page.PostDetailPage? && r.page.id == id && r.page.post == db.posts[id]
    ensures r.Render? ==> r.page.postsCount == |AuthorPosts(db.posts, db.posts[id].author)|
    ensures r.Render? ==> r.page.postsCount >= 1
    ensures r.Render? ==> forall c :: c in r.page.comments <==> c in db.comments && c.post == id
  {
    if id !in db.posts then NotFound
    else
      var post := db.posts[id];
      var own := AuthorPosts(db.posts, post.author);
      assert |own| >= 1 by {
        assert id in own;
        assert {id} <= own;
      }
      Render(PostDetailPage(id, post, |own|, PostComments(db.comments, id)))
  }

  /** `group_posts`: the group and exactly the posts filed under it. */
  function GroupView(db: Db, slug: Slug): (r: Outcome)
    ensures r.NotFound? <==> slug !in db.groups
    ensures r.Render? <==> slug in db.groups
    ensures r.Render? ==> r.page.GroupPage? && r.page.group == db.groups[slug]
    ensures r.Render? ==> forall id :: id in r.page.posts <==> id in db.posts && db.posts[id].group == Some(slug)
  {
    if slug !in db.groups then NotFound
    else Render(GroupPage(slug, db.groups[slug], GroupPosts(db.posts, slug)))
  }

  /** `follow_index` for a logged-in user: exactly the posts whose author the user follows. */
  function FollowIndexView(db: Db, user: Username): (r: Outcome)
    ensures r.Render? && r.page.FollowPage?
    ensures forall id :: id in r.page.posts <==> id in db.posts && Follow(user, db.posts[id].author) in db.follows
  {
    Render(FollowPage(FollowFeed(db.posts, db.follows, user)))
  }

  /** The detail page's post count is the one the author's profile shows. */
  lemma DetailCountIsProfileCount(db: Db, visitor: Option<Username>, id: PostId)
    requires id in db.posts && db.posts[id].author in db.users
    ensures PostDetailView(db, id).page.postsCount == ProfileView(db, visitor, db.posts[id].author).page.postsCount
  {
  }

  /** After `post_create` stores a post, its author's profile counts one post more. */
  lemma ProfileCountAfterCreate(db: Db, visitor: Option<Username>, id: PostId, p: Post)
    requires id !in db.posts && p.author in db.users
    ensures ProfileView(db.(posts := db.posts[id := p]), visitor, p.author).page.postsCount
         == ProfileView(db, visitor, p.author).page.postsCount + 1
  {
    AuthorPostsAfterInsert(db.posts, id, p, p.author);
  }

  /** After `add_comment` stores a comment, the post's detail page lists it last. */
  lemma DetailAfterComment(db: Db, c: Comment)
    requires c.post in db.posts
    ensures PostDetailView(db.(comments := db.comments + [c]), c.post).page.comments
         == PostDetailView(db, c.post).page.comments + [c]
  {
    CommentsAfterAppend(db.comments, c, c.post);
  }
}
