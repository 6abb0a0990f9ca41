# Yatube view rules in Dafny

Yatube is a small blogging site: users write posts, file them under groups, comment on posts
and follow other authors. The logic of its own making sits in the view handlers of
`yatube/posts/views.py`; everything around them (ORM, templates, sessions, page cache,
paginator) is framework. This project models the storage behind those handlers as one
in-memory store and each handler as an operation on it that answers with an abstract
outcome: `Redirect(route)`, `Render(page)`, `NotFound`, `NoResponse` for a handler that
returns nothing, or `ServerError` for an exception that escapes the handler.

- `domain.dfy` (module `Domain`): users (identified by username), groups, posts, comments,
  Follow rows, the submitted request body, routes, rendered pages, outcomes, and `Db`, a
  snapshot of the store.
- `follow_table.dfy` (module `FollowTable`): the Follow table as a sequence of rows. It holds
  the table invariant (each pair at most once, no self edges, both ends registered), the
  effect of a follow request (`FollowRows`) and the filtered delete of an unfollow request
  (`RemoveRows`). Lemmas prove that both keep the invariant, that a delete changes no other
  pair's multiplicity, and that following twice leaves exactly one row.
- `queries.dfy` (module `Queries`): the filter queries behind the read views: an author's
  posts, a group's posts, followed authors, the follow feed, a post's comments, and the
  three-state `following`. Lemmas prove how each handler's write changes what these queries
  return.
- `views.dfy` (module `Views`): `profile`, `post_detail`, `group_posts` and `follow_index` as
  functions over a `Db` snapshot.
- `handlers.dfy` (module `Handlers`): class `Store` with the tables as fields and the invariant
  `Valid()`. The mutating handlers `profile_follow`, `profile_unfollow`, `post_create`,
  `post_edit` and `add_comment` are methods. Each method's `modifies` clause names only the
  table it writes, so nothing else can change.
- `scenarios.dfy` (module `Scenarios`): three request sequences, checked by the verifier against the store's contracts:
  - two follow requests for the same author in a row;
  - a valid edit POST by someone who is not the author, which is redirected and leaves the post
    unchanged (`yatube/posts/tests/test_urls.py:131-136` checks only the redirect, for a GET);
  - a comment whose body names another author and another post, which is still stored under
    the session user and the URL's post (in `yatube/posts/tests/test_forms.py:227-267` the body
    names the session user and the URL's post, so that test cannot tell the two apart).

The model follows the code as written in two places:
- `add_comment` tests `form.is_valid` without calling it (`views.py:151`). The bound method is
  always truthy, so `form.save(commit=False)` always runs. Saving a form reads its errors, which
  gives three cases in `AddComment`. An empty or missing body leaves the form unbound, without
  errors, and an empty-text comment is stored. A bound form with errors makes the save raise, so
  the request fails (`ServerError`) and nothing is stored. A bound form without errors stores
  the body's text.
- `post_edit` returns nothing on an invalid POST by the author. This is the `NoResponse`
  outcome, and nothing changes.

Django's `@login_required` is modelled as the precondition that the requesting user is a
registered user (`user in users`). Form validity is external, so it is a boolean input. A valid
post form names only an existing group (its group field accepts nothing else), so `PostCreate`
and `PostEdit` require that of a valid form, and `Valid()` keeps every post's group registered. For a
comment the inputs are the body, absent when the form is unbound, and a flag for a bound form
with errors. The request method is a boolean `isPost`.

## Model

| member | source | states |
|---|---|---|
| Handlers.Store.ProfileFollow | yatube/posts/views.py:178-201 | An unknown author gives NotFound and changes nothing. Otherwise it redirects to the author's profile. The table is unchanged exactly when the author is unknown, is the user, or is already followed; otherwise exactly the row (user, author) is appended. The table invariant is kept. |
| Handlers.Store.ProfileUnfollow | yatube/posts/views.py:204-216 | An unknown author gives NotFound and changes nothing. Otherwise it redirects to the profile, no (user, author) row remains, every other pair keeps its multiplicity, and the invariant is kept. When the pair had no row the table is unchanged. |
| Handlers.Store.PostCreate | yatube/posts/views.py:85-107 | A GET or an invalid form renders the create form and stores nothing. A valid form stores one post under a fresh id, authored by the session user whatever author the body names, with the form's text and group. The post count grows by one and it redirects to the user's profile. |
| Handlers.Store.PostEdit | yatube/posts/views.py:110-137 | An unknown post gives NotFound. A non-author is redirected to the detail page and nothing changes. The author gets the edit form on GET. A valid POST replaces only that post's text and group, keeping its author and the set of post ids, and redirects to the detail page. An invalid POST gives NoResponse with no change. |
| Handlers.Store.AddComment | yatube/posts/views.py:140-157 | An unknown post gives NotFound. A bound form with errors gives ServerError and stores nothing. Otherwise exactly one comment is appended, with the body's text or empty text for an unbound form. It is attributed to the session user and to the post in the URL, whatever author or post the body names, and the handler redirects to the post's detail page. |
| Views.ProfileView | yatube/posts/views.py:45-65 | NotFound exactly for an unknown username. Otherwise it lists exactly that author's posts, with `postsCount` equal to how many there are. `following` is None exactly for an anonymous visitor, and otherwise tells whether the (visitor, author) row exists. |
| Views.PostDetailView | yatube/posts/views.py:68-82 | NotFound exactly for an unknown id. Otherwise it shows that post, a post count equal to the number of posts by its author (so at least one), and exactly the comments whose post is this one. |
| Views.DetailCountIsProfileCount | yatube/posts/views.py:72 | The detail page's post count equals the count on the author's profile. |
| Views.GroupView | yatube/posts/views.py:28-42 | NotFound exactly for an unknown slug. Otherwise it shows the group and exactly the posts filed under it. |
| Views.FollowIndexView | yatube/posts/views.py:160-175 | Always renders the follow page, and it holds exactly the posts whose author the user follows. |
| Views.ProfileCountAfterCreate | yatube/posts/views.py:104-107 | Storing a post under a fresh id raises its author's profile `postsCount` by exactly one. |
| Views.DetailAfterComment | yatube/posts/views.py:152-157 | Storing a comment on a post makes the post's detail page list that comment after the ones it listed before. |
| FollowTable.FollowRows | yatube/posts/views.py:187-199 | A follow request adds the pair (user, author) and nothing else, unless the two are the same user. The row count grows by one exactly when the pair was absent and is not a self-follow, and the old rows are kept as a prefix. |
| FollowTable.RemoveRows | yatube/posts/views.py:214 | The filtered delete keeps exactly the rows that differ from the deleted pair, and never grows the table. |
| FollowTable.RemoveRowsMultiplicity | yatube/posts/views.py:214 | After the delete the deleted pair occurs zero times, and every other pair as often as before. |
| FollowTable.RemoveAbsentRow | yatube/posts/views.py:214 | Deleting a pair that has no row leaves the table exactly as it was. |
| FollowTable.RemoveRowsKeepsOthers | yatube/posts/views.py:214 | Every pair other than the deleted one keeps its multiplicity. |
| FollowTable.PresentOnce | yatube/posts/views.py:191-193 | In a table without duplicates a pair occurs exactly once if present, and zero times otherwise. |
| FollowTable.RemoveRowsNoDuplicates | yatube/posts/views.py:214 | A delete never creates duplicate rows. |
| FollowTable.FollowRowsValid | yatube/posts/views.py:187-199 | A follow request between registered users keeps the table invariant: unique pairs, no self edges, registered ends. |
| FollowTable.RemoveRowsValid | yatube/posts/views.py:211-214 | An unfollow request keeps the table invariant. |
| FollowTable.FollowTwiceOneRow | yatube/posts/views.py:189-199 | Two follow requests in a row leave exactly one row for a pair of distinct users, and none for a self-follow. |
| Queries.AuthorPosts | yatube/posts/views.py:49 | A post id is selected exactly when the post exists and `author` wrote it. |
| Queries.GroupPosts | yatube/posts/views.py:32 | A post id is selected exactly when the post exists and is filed under the group. |
| Queries.GroupPostsAfterStore | yatube/posts/views.py:104-136 | Storing a post, new or edited, files its id under its own group only, and every other post keeps its group. |
| Queries.FollowedAuthors | yatube/posts/views.py:168 | An author is among the followed authors exactly when the (user, author) row exists. |
| Queries.FollowFeed | yatube/posts/views.py:168-169 | The two-step query selects a post exactly when it exists and the user follows its author. |
| Queries.PostComments | yatube/posts/views.py:73 | A comment is listed exactly when it is stored and belongs to the post, and the list is no longer than the table. |
| Queries.IsFollowing | yatube/posts/views.py:51-53 | None exactly for an anonymous visitor. For a logged-in visitor it is Some(true) exactly when the author is among the visitor's followed authors. |
| Queries.AuthorPostsAfterInsert | yatube/posts/views.py:104-106 | A new post under a fresh id joins its author's posts, and only its author's, so that author's count rises by one. |
| Queries.AuthorPostsAfterEdit | yatube/posts/views.py:130-136 | An edit that keeps the author leaves every author's posts, and so every count, unchanged. |
| Queries.FeedAfterFollow | yatube/posts/views.py:196-199 | After a follow request the user's feed is the old feed plus all of the author's posts, or the old feed for a self-follow. |
| Queries.FeedAfterUnfollow | yatube/posts/views.py:214 | After an unfollow request the user's feed is the old feed minus exactly the author's posts. |
| Queries.OtherFeedsUnchanged | yatube/posts/views.py:168-169 | Follow and unfollow requests by one user leave every other user's feed unchanged. |
| Queries.FeedExcludesOwnPosts | yatube/posts/views.py:188-190 | While the table has no self edges, a user's own posts never appear in their follow feed. |
| Queries.CommentsAfterAppend | yatube/posts/views.py:152-155 | Appending a comment appends it to its own post's comment list and leaves every other post's list as it was. |
| Queries.FollowingAfterRequests | yatube/posts/views.py:51-53 | After a follow request the profile's `following` is true unless it is the user's own profile. After an unfollow request it is false. |

## Left out

- The `index` view and its `@cache_page` decorator: the page cache is a time-based framework cache. The query itself (all posts) has nothing to prove.
- Pagination (`core/paginator.py`): it wraps Django's `Paginator.get_page`, whose page-range behaviour belongs to the framework. Feeds are modelled as sets of post ids, so page size and page numbers are not modelled.
- Feed ordering: the default ordering comes from the models' `Meta`. `models.py` is not part of this model, so feeds are sets and comment lists keep storage order.
- The login redirect of `@login_required`: it is modelled only as the precondition that the requester is a registered user.
- Form validation and the `PostForm`/`CommentForm` field lists: validity is a boolean input. The field lists show up only as the handlers reading `text` and `group` (posts) or `text` (comments) from the body, and never its `author` or `post`.
- Text normalisation by the form fields (a `CharField` strips surrounding whitespace): a `Submission` stands for the cleaned data after it.
- Images, media storage, publication dates and comment timestamps.
- Templates, template names and the context flags `index`/`follow`. Also the error pages of `core/views.py` and the `addclass` template filter.
- Creating users and groups: both come from outside the handlers (authentication and administration), so the store receives them at construction and never changes them.
- Handlers.Store.AddComment: which bodies make the form bound and which have errors is decided by Django's form machinery. Both are inputs: the body as an optional value, its errors as a flag.
- Concurrent requests: the model runs one request at a time. The exists-then-create in `profile_follow` (`views.py:192-199`) is not atomic, so `NoDuplicates` is proved only for serialised requests.
- A database-level uniqueness constraint on Follow, if `models.py` declares one, is not part of this model. Uniqueness here rests only on the handler's `exists()` check, for requests handled one at a time.
