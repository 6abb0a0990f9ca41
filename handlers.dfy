/** The storage layer as one object, and the view handlers that change it. */
module Handlers {
  import opened Domain
  import opened FollowTable

  class Store {
    var users: set<Username>
    var groups: map<Slug, Group>
    var posts: map<PostId, Post>
    var comments: seq<Comment>
    var follows: seq<Follow>
    /** The primary key the next stored post receives. */
    var nextId: PostId

    /** Referential integrity of the tables, fresh keys, and the Follow table invariant. */
    ghost predicate Valid()
      reads this
    {
      && (forall id :: id in posts ==> id < nextId && posts[id].author in users)
      && (forall id :: id in posts && posts[id].group.Some? ==> posts[id].group.value in groups)
      && (forall c :: c in comments ==> c.post in posts && c.author in users)
      && ValidTable(follows, users)
    }

    /** What a read view sees of the store. */
    function Snapshot(): Db
      reads this
    {
      Db(users, groups, posts, comments, follows)
    }

    /** Users and groups come from the authentication layer and the administration site. */
    constructor (users: set<Username>, groups: map<Slug, Group>)
      ensures Valid()
      ensures this.users == users && this.groups == groups
      ensures posts == map[] && comments == [] && follows == [] && nextId == 0
    {
      this.users, this.groups := users, groups;
      posts, comments, follows, nextId := map[], [], [], 0;
    }

    /**
     * `profile_follow`: an unknown author is NotFound; following oneself or an author already
     * followed changes nothing; otherwise exactly one row is added. Every found author redirects
     * to the author's profile.
     */
    method ProfileFollow(user: Username, username: Username) returns (r: Outcome)
      requires Valid() && user in users
      modifies this`follows
      ensures Valid()
      ensures username !in users ==> r == NotFound && follows == old(follows)
      ensures username in users ==> r == Redirect(Profile(username))
      ensures username in users ==> follows == FollowRows(old(follows), user, username)
      ensures follows == old(follows) <==> username !in users || user == username || Follow(user, username) in old(follows)
      ensures follows != old(follows) ==> follows == old(follows) + [Follow(user, username)]
    {
      if username !in users {
        return NotFound;
      }
      var target := Profile(username);
      if user == username {
        return Redirect(target);
      }
      if Follow(user, username) in follows {
        return Redirect(target);
      }
      FollowRowsValid(follows, users, user, username);
      follows := follows + [Follow(user, username)];
      r := Redirect(target);
    }

    /**
     * `profile_unfollow`: an unknown author is NotFound; otherwise every row for the pair is
     * deleted, whether or not there was one, and the visitor is redirected to the profile.
     */
    method ProfileUnfollow(user: Username, username: Username) returns (r: Outcome)
      requires Valid() && user in users
      modifies this`follows
      ensures Valid()
      ensures username !in users ==> r == NotFound && follows == old(follows)
      ensures username in users ==> r == Redirect(Profile(username))
      ensures username in users ==> follows == RemoveRows(old(follows), Follow(user, username))
      ensures Follow(user, username) !in follows
      ensures Follow(user, username) !in old(follows) ==> follows == old(follows)
      ensures forall g :: g != Follow(user, username) ==> multiset(follows)[g] == multiset(old(follows))[g]
    {
      if username !in users {
        return NotFound;
      }
      var f := Follow(user, username);
      RemoveRowsValid(follows, users, f);
      RemoveRowsKeepsOthers(follows, f);
      if f !in follows {
        RemoveAbsentRow(follows, f);
      }
      follows := RemoveRows(follows, f);
      r := Redirect(Profile(username));
    }

    /**
     * `post_create`: a GET or an invalid form renders the form; a valid form stores one new post
     * whose author is the logged-in user, whatever author the request body names, and redirects
     * to that user's profile.
     */
    method PostCreate(user: Username, isPost: bool, formValid: bool, data: Submission) returns (r: Outcome)
      requires Valid() && user in users
      // a valid form's group field only accepts an existing group
      requires isPost && formValid && data.group.Some? ==> data.group.value in groups
      modifies this`posts, this`nextId
      ensures Valid()
      ensures !(isPost && formValid) ==> r == Render(PostFormPage(false)) && posts == old(posts) && nextId == old(nextId)
      ensures isPost && formValid ==> r == Redirect(Profile(user))
      ensures isPost && formValid ==> old(nextId) !in old(posts) && posts == old(posts)[old(nextId) := Post(user, data.text, data.group)]
      ensures isPost && formValid ==> |posts| == |old(posts)| + 1
      ensures forall id :: id in posts && id !in old(posts) ==> posts[id].author == user
    {
      if !isPost {
        return Render(PostFormPage(false));
      }
      if !formValid {
        return Render(PostFormPage(false));
      }
      // form.save(commit=False) binds text and group; the author is then set from the session
      var post := Post(user, data.text, data.group);
      posts := posts[nextId := post];
      nextId := nextId + 1;
      r := Redirect(Profile(user));
    }

    /**
     * `post_edit`: an unknown post is NotFound; anyone but the author is sent to the detail page;
     * the author gets the form on GET, and on a valid POST the post's text and group are replaced
     * while its author and the set of posts stay. An invalid POST answers nothing.
     */
    method PostEdit(user: Username, id: PostId, isPost: bool, formValid: bool, data: Submission) returns (r: Outcome)
      requires Valid() && user in users
      // a valid form's group field only accepts an existing group
      requires isPost && formValid && data.group.Some? ==> data.group.value in groups
      modifies this`posts
      ensures Valid()
      ensures posts.Keys == old(posts).Keys
      ensures id !in old(posts) ==> r == NotFound && posts == old(posts)
      ensures id in old(posts) && user != old(posts)[id].author ==> r == Redirect(PostDetail(id)) && posts == old(posts)
      ensures id in old(posts) && user == old(posts)[id].author && !isPost ==> r == Render(PostFormPage(true)) && posts == old(posts)
      ensures id in old(posts) && user == old(posts)[id].author && isPost && formValid ==>
                r == Redirect(PostDetail(id)) && posts == old(posts)[id := Post(user, data.text, data.group)]
      ensures id in old(posts) && user == old(posts)[id].author && isPost && !formValid ==> r == NoResponse && posts == old(posts)
      ensures forall k :: k in posts ==> posts[k].author == old(posts)[k].author
    {
      if id !in posts {
        return NotFound;
      }
      var post := posts[id];
      if user != post.author {
        return Redirect(PostDetail(id));
      }
      if !isPost {
        return Render(PostFormPage(true));
      }
      if formValid {
        // form.save() on the bound instance rewrites the form's fields and keeps the author
        posts := posts[id := post.(text := data.text, group := data.group)];
        return Redirect(PostDetail(id));
      }
      r := NoResponse;
    }

    /**
     * `add_comment`: an unknown post is NotFound. The guard `form.is_valid` is the bound method,
     * always truthy, so `form.save(commit=False)` always runs, and saving a form reads its errors:
     * - an empty or missing body (`request.POST or None`) leaves the form unbound, without errors,
     *   and an empty-text comment is stored;
     * - a bound form with errors makes the save raise, so nothing is stored and the request fails;
     * - a bound form without errors stores a comment with the body's text.
     * A stored comment is always by the logged-in user on the post named in the URL, whatever the
     * body names, and the visitor is sent to the post's detail page.
     */
    method AddComment(user: Username, id: PostId, body: Option<Submission>, hasErrors: bool) returns (r: Outcome)
      requires Valid() && user in users
      modifies this`comments
      ensures Valid()
      ensures id !in posts ==> r == NotFound && comments == old(comments)
      ensures id in posts && body.Some? && hasErrors ==> r == ServerError && comments == old(comments)
      ensures id in posts && body.None? ==>
                r == Redirect(PostDetail(id)) && comments == old(comments) + [Comment(id, user, "")]
      ensures id in posts && body.Some? && !hasErrors ==>
                r == Redirect(PostDetail(id)) && comments == old(comments) + [Comment(id, user, body.value.text)]
    {
      if id !in posts {
        return NotFound;
      }
      // form.save(commit=False) raises on a bound form with errors
      if body.Some? && hasErrors {
        return ServerError;
      }
      var text := if body.Some? then body.value.text else "";
      var comment := Comment(id, user, text);
      comments := comments + [comment];
      r := Redirect(PostDetail(id));
    }
  }
}
