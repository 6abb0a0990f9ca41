/** The records of the blogging application and the outcomes of its view handlers. */
module Domain {

  datatype Option<+T> = None | Some(value: T)

  /** A user is identified by its unique username. */
  type Username = string
  type Slug = string
  /** The primary key of a post. */
  type PostId = nat

  datatype Group = Group(title: string, description: string)

  /** A post: its author is required, its group optional. Image and publication date are not modelled. */
  datatype Post = Post(author: Username, text: string, group: Option<Slug>)

  datatype Comment = Comment(post: PostId, author: Username, text: string)

  /** One row of the Follow table: `user` follows `author`. */
  datatype Follow = Follow(user: Username, author: Username)

  /**
   * A submitted request body as the form's cleaned data (any normalisation, such as stripping
   * whitespace, already applied). A PostForm binds only `text` and `group`, a CommentForm only
   * `text`: `author` and `post`, if present, are never read.
   */
  datatype Submission = Submission(text: string, group: Option<Slug>, author: Option<Username>, post: Option<PostId>)

  /** Targets of redirects, by URL name. */
  datatype Route = Profile(username: Username) | PostDetail(id: PostId)

  /** The context handed to a template. Feeds are the sets of post ids they draw from. */
  datatype Page =
    | ProfilePage(author: Username, posts: set<PostId>, postsCount: nat, following: Option<bool>)
    | PostDetailPage(id: PostId, post: Post, postsCount: nat, comments: seq<Comment>)
    | GroupPage(slug: Slug, group: Group, posts: set<PostId>)
    | FollowPage(posts: set<PostId>)
    | PostFormPage(isEdit: bool)

  /**
   * What a view handler answers; `NoResponse` is a handler that falls off its end, `ServerError`
   * an exception that escapes it.
   */
  datatype Outcome = Redirect(target: Route) | Render(page: Page) | NotFound | NoResponse | ServerError

  /** A snapshot of everything the storage layer holds. */
  datatype Db = Db(
    users: set<Username>,
    groups: map<Slug, Group>,
    posts: map<PostId, Post>,
    comments: seq<Comment>,
    follows: seq<Follow>)
}
