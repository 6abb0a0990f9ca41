/** Request sequences, checked by the verifier against the store's contracts. */
module Scenarios {
  import opened Domain
  import opened Handlers
  import opened Views

  /** User "A" sends two follow requests for author "B": one row persists and A's feed shows B's post. */
  method FollowTwiceScenario() {
    var s := new Store({"A", "B"}, map[]);
    var created := s.PostCreate("B", true, true, Submission("New post", None, Some("A"), None));
    assert s.posts == map[0 := Post("B", "New post", None)];
    var first := s.ProfileFollow("A", "B");
    var second := s.ProfileFollow("A", "B");
    assert first == second == Redirect(Profile("B"));
    assert s.follows == [Follow("A", "B")];
    var feed := FollowIndexView(s.Snapshot(), "A");
    assert feed.page.posts == {0};
    var own := FollowIndexView(s.Snapshot(), "B");
    assert own.page.posts == {};
  }

  /**
   * Another author's edit request is redirected to the detail page and the post is untouched.
   * yatube/posts/tests/test_urls.py:131-136 checks only the redirect, for a GET; this scenario
   * sends a valid POST and also checks that the post is unchanged.
   */
  method ForeignEditScenario() {
    var s := new Store({"author", "other"}, map[]);
    var _ := s.PostCreate("author", true, true, Submission("", None, None, None));
    var r := s.PostEdit("other", 0, true, true, Submission("Edited text", None, None, None));
    assert r == Redirect(PostDetail(0));
    assert s.posts[0] == Post("author", "", None);
  }

  /**
   * A comment whose body names another author and another post is stored under the session user
   * and the post in the URL. In yatube/posts/tests/test_forms.py:227-267 the body names the
   * session user and the URL's post; this scenario uses a different user and post.
   */
  method SpoofedCommentScenario() {
    var s := new Store({"author", "other"}, map[]);
    var _ := s.PostCreate("author", true, true, Submission("Post with comment", None, None, None));
    var r := s.AddComment("other", 0, Some(Submission("New comment", None, Some("author"), Some(7))), false);
    assert r == Redirect(PostDetail(0));
    assert s.comments == [Comment(0, "other", "New comment")];
  }
}
