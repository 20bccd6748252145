/** The post routes: create, read and delete a post, like and unlike it,
    add and delete comments. Each handler loads the post from the store,
    checks its guard, edits the `likes` or `comments` list with `unshift`
    or `indexOf` + `splice`, and writes the post back. */
module Posts {
  import opened Wrappers
  import opened Store
  import opened JsArray

  const TextRequired := "Text is required"
  const NoPostFound := "No Post found"
  const NoComment := "Comment does not exist"
  const PostRemoved := "Post Removed"

  /* ---------------------------------------------------------------
     Likes
     --------------------------------------------------------------- */

  /** `likes.map(like => like.user.toString())` */
  function LikeUsers(likes: seq<Like>): (r: seq<Id>)
    ensures |r| == |likes| && forall i :: 0 <= i < |likes| ==> r[i] == likes[i].user
  {
    seq(|likes|, i requires 0 <= i < |likes| => likes[i].user)
  }

  /** Some like on the list belongs to user `u`. */
  predicate HasLiked(likes: seq<Like>, u: Id) {
    exists i :: 0 <= i < |likes| && likes[i].user == u
  }

  /** `likes.filter(like => like.user.toString() === u)`: the likes of `u`,
      in order; the handlers test whether its length is zero. */
  function LikesBy(likes: seq<Like>, u: Id): (r: seq<Like>)
    ensures |r| <= |likes|
    ensures forall l :: l in r ==> l.user == u && l in likes
    ensures |r| > 0 <==> HasLiked(likes, u)
  {
    if likes == [] then []
    else
      var rest := LikesBy(likes[1..], u);
      assert HasLiked(likes, u) <==> likes[0].user == u || HasLiked(likes[1..], u) by {
        if HasLiked(likes[1..], u) {
          var i :| 0 <= i < |likes[1..]| && likes[1..][i].user == u;
          assert likes[i + 1].user == u;
        }
        if HasLiked(likes, u) && likes[0].user != u {
          var i :| 0 <= i < |likes| && likes[i].user == u;
          assert likes[1..][i - 1].user == u;
        }
      }
      if likes[0].user == u then [likes[0]] + rest else rest
  }

  /** What `unlike` leaves: `splice(likes.map(user).indexOf(u), 1)`. */
  function RemoveLike(likes: seq<Like>, u: Id): seq<Like> {
    SpliceOne(likes, IndexOf(LikeUsers(likes), u))
  }

  /** Liking prepends one like; when the user had not liked the post, no
      user appears twice afterwards. */
  lemma LikeKeepsLikersUnique(likes: seq<Like>, u: Id)
    requires UniqueLikers(likes) && !HasLiked(likes, u)
    ensures UniqueLikers([Like(u)] + likes)
  {
    var s := [Like(u)] + likes;
    forall i, j | 0 <= i < j < |s| ensures s[i].user != s[j].user {
      if i == 0 {
        assert s[j] == likes[j - 1];
      } else {
        assert s[i] == likes[i - 1] && s[j] == likes[j - 1];
      }
    }
  }

  /** Unlike removes exactly the first like by the caller; the likes before
      and after it keep their order. */
  lemma UnlikeRemovesFirstLike(likes: seq<Like>, u: Id)
    requires HasLiked(likes, u)
    ensures var k := IndexOf(LikeUsers(likes), u);
      && 0 <= k < |likes| && likes[k].user == u
      && (forall j :: 0 <= j < k ==> likes[j].user != u)
      && RemoveLike(likes, u) == likes[..k] + likes[k + 1..]
      && |RemoveLike(likes, u)| == |likes| - 1
  {
    var i :| 0 <= i < |likes| && likes[i].user == u;
    assert LikeUsers(likes)[i] == u;
  }

  /** On a list with one like per user, unlike takes away the caller's
      only like and keeps every other user's like exactly once. */
  lemma UnlikeKeepsLikersUnique(likes: seq<Like>, u: Id)
    requires UniqueLikers(likes) && HasLiked(likes, u)
    ensures UniqueLikers(RemoveLike(likes, u))
    ensures !HasLiked(RemoveLike(likes, u), u)
  {
    UnlikeRemovesFirstLike(likes, u);
    var k := IndexOf(LikeUsers(likes), u);
    var r := likes[..k] + likes[k + 1..];
    forall i, j | 0 <= i < j < |r| ensures r[i].user != r[j].user {
      RemovedAt(likes, k, i);
      RemovedAt(likes, k, j);
    }
    forall i | 0 <= i < |r| ensures r[i].user != u {
      RemovedAt(likes, k, i);
    }
  }

  /** Unliking right after a first like gives back the likes as they were. */
  lemma UnlikeUndoesLike(likes: seq<Like>, u: Id)
    requires !HasLiked(likes, u)
    ensures RemoveLike([Like(u)] + likes, u) == likes
  {
    assert LikeUsers([Like(u)] + likes)[0] == u;
  }

  /** Likes by A, B, C (newest first) unliked by B leave A, C. */
  lemma UnlikeMiddleLike(a: Id, b: Id, c: Id)
    requires a != b && b != c
    ensures RemoveLike([Like(a), Like(b), Like(c)], b) == [Like(a), Like(c)]
  {
    var likes := [Like(a), Like(b), Like(c)];
    assert LikeUsers(likes) == [a, b, c];
    assert IndexOf([a, b, c], b) == 1 by {
      assert [a, b, c][1..] == [b, c];
    }
  }

  /* ---------------------------------------------------------------
     Comments
     --------------------------------------------------------------- */

  /** `comments.map(comment => comment.id)` */
  function CommentIds(comments: seq<Comment>): (r: seq<Id>)
    ensures |r| == |comments| && forall i :: 0 <= i < |comments| ==> r[i] == comments[i].id
  {
    seq(|comments|, i requires 0 <= i < |comments| => comments[i].id)
  }

  /** `comments.map(comment => comment.user.toString())` */
  function CommentUsers(comments: seq<Comment>): (r: seq<Id>)
    ensures |r| == |comments| && forall i :: 0 <= i < |comments| ==> r[i] == comments[i].user
  {
    seq(|comments|, i requires 0 <= i < |comments| => comments[i].user)
  }

  /** `comments.find(comment => comment.id === id)`: the first comment with
      that id, if any. */
  function FindComment(comments: seq<Comment>, id: Id): (r: Option<Comment>)
    ensures r.None? <==> forall i :: 0 <= i < |comments| ==> comments[i].id != id
    ensures r.Some? ==> exists k :: 0 <= k < |comments| && comments[k] == r.value && r.value.id == id &&
                                     forall j :: 0 <= j < k ==> comments[j].id != id
  {
    var k := IndexOf(CommentIds(comments), id);
    if k < 0 then
      assert forall i :: 0 <= i < |comments| ==> CommentIds(comments)[i] != id;
      None
    else Some(comments[k])
  }

  /** What the delete-comment route leaves, as written: it splices at the
      index of the caller's FIRST comment, whichever comment was requested. */
  function RemoveCallersFirstComment(comments: seq<Comment>, u: Id): seq<Comment> {
    SpliceOne(comments, IndexOf(CommentUsers(comments), u))
  }

  /** The evidently intended deletion: remove the first comment with the
      requested id, and nothing when there is none. */
  function RemoveCommentById(comments: seq<Comment>, id: Id): seq<Comment> {
    var k := IndexOf(CommentIds(comments), id);
    if k < 0 then comments else comments[..k] + comments[k + 1..]
  }

  /** When the requested comment exists and belongs to the caller, the
      route as written removes exactly one comment: the caller's first
      one, which sits at or before the requested comment. */
  lemma DeleteCommentRemovesCallersFirst(comments: seq<Comment>, id: Id, u: Id)
    requires FindComment(comments, id).Some? && FindComment(comments, id).value.user == u
    ensures var k := IndexOf(CommentUsers(comments), u);
      && 0 <= k <= IndexOf(CommentIds(comments), id)
      && comments[k].user == u
      && (forall j :: 0 <= j < k ==> comments[j].user != u)
      && RemoveCallersFirstComment(comments, u) == comments[..k] + comments[k + 1..]
      && |RemoveCallersFirstComment(comments, u)| == |comments| - 1
  {
    var m := IndexOf(CommentIds(comments), id);
    assert comments[m].user == u;
    assert CommentUsers(comments)[m] == u;
  }

  /** The route as written deletes the requested comment if and only if
      the caller has no earlier comment on the post. */
  lemma DeleteCommentHitsRequestedIffFirst(comments: seq<Comment>, id: Id, u: Id)
    requires FindComment(comments, id).Some? && FindComment(comments, id).value.user == u
    ensures var m := IndexOf(CommentIds(comments), id);
      RemoveCallersFirstComment(comments, u) == RemoveCommentById(comments, id)
      <==> forall j :: 0 <= j < m ==> comments[j].user != u
  {
    DeleteCommentRemovesCallersFirst(comments, id, u);
    var ids := CommentIds(comments);
    var m := IndexOf(ids, id);
    var k := IndexOf(CommentUsers(comments), u);
    forall j | 0 <= j < m ensures comments[j].id != comments[m].id {
      assert ids[j] != id;
    }
    assert RemoveCommentById(comments, id) == comments[..m] + comments[m + 1..];
    FirstRemovalIff(comments, k, m, u);
  }

  /** Removing the caller's first comment (index `k`) and removing the
      first comment with the requested id (index `m`, owned by the caller)
      agree exactly when the caller has no comment before `m`. */
  lemma FirstRemovalIff(comments: seq<Comment>, k: nat, m: nat, u: Id)
    requires k <= m < |comments|
    requires comments[k].user == u && forall j :: 0 <= j < k ==> comments[j].user != u
    requires forall j :: 0 <= j < m ==> comments[j].id != comments[m].id
    ensures comments[..k] + comments[k + 1..] == comments[..m] + comments[m + 1..]
      <==> forall j :: 0 <= j < m ==> comments[j].user != u
  {
    if k < m {
      RemovalsDiffer(comments, k, m);
    }
  }

  /** An input that shows it: the caller wrote c1 then c2 (c2 is newer, so
      it comes first) and asks to delete c1; the route deletes c2. */
  lemma DeleteCommentRemovesWrongComment()
    ensures var c2 := Comment("c2", "u", "newer", "n", "a");
      var c1 := Comment("c1", "u", "older", "n", "a");
      && FindComment([c2, c1], "c1") == Some(c1)
      && RemoveCallersFirstComment([c2, c1], "u") == [c1]
      && RemoveCommentById([c2, c1], "c1") == [c2]
  {
    var c2 := Comment("c2", "u", "newer", "n", "a");
    var c1 := Comment("c1", "u", "older", "n", "a");
    assert CommentIds([c2, c1]) == ["c2", "c1"];
    assert CommentUsers([c2, c1]) == ["u", "u"];
    assert IndexOf(["c2", "c1"], "c1") == 1 by {
      assert ["c2", "c1"][1..] == ["c1"];
      assert "c2" != "c1";
    }
  }

  /** The corrected deletion removes exactly the requested comment; when
      comment ids are unique no comment with that id remains. */
  lemma RemoveCommentByIdExact(comments: seq<Comment>, id: Id)
    requires FindComment(comments, id).Some?
    ensures var m := IndexOf(CommentIds(comments), id);
      && 0 <= m < |comments| && Some(comments[m]) == FindComment(comments, id)
      && RemoveCommentById(comments, id) == comments[..m] + comments[m + 1..]
      && |RemoveCommentById(comments, id)| == |comments| - 1
    ensures (forall i, j :: 0 <= i < j < |comments| ==> comments[i].id != comments[j].id) ==>
      forall i :: 0 <= i < |RemoveCommentById(comments, id)| ==> RemoveCommentById(comments, id)[i].id != id
  {
    var m := IndexOf(CommentIds(comments), id);
    var r := comments[..m] + comments[m + 1..];
    if forall i, j :: 0 <= i < j < |comments| ==> comments[i].id != comments[j].id {
      forall i | 0 <= i < |r| ensures r[i].id != id {
        RemovedAt(comments, m, i);
        assert comments[m].id == id;
      }
    }
  }

  /** Deleting the comment just added, by its author, gives back the
      comments as they were, both as written and as intended. */
  lemma DeleteUndoesComment(c: Comment, comments: seq<Comment>)
    ensures RemoveCallersFirstComment([c] + comments, c.user) == comments
    ensures RemoveCommentById([c] + comments, c.id) == comments
  {
    assert CommentUsers([c] + comments)[0] == c.user;
    assert CommentIds([c] + comments)[0] == c.id;
  }

  /* ---------------------------------------------------------------
     Route handlers
     --------------------------------------------------------------- */

  /** POST /api/posts: validate the text, snapshot the caller's name and
      avatar, and store a new post under the generated id `newId`. */
  method CreatePost(db: Database, caller: Id, text: string, newId: Id) returns (r: Outcome<Post>)
    requires db.Valid() && IsObjectId(newId)
    modifies db`posts
    ensures db.Valid()
    ensures text == "" ==> r == ValidationError([TextRequired]) && db.posts == old(db.posts)
    ensures text != "" && (caller !in db.users || newId in old(db.posts)) ==>
      r == ServerError && db.posts == old(db.posts)
    ensures text != "" && caller in db.users && newId !in old(db.posts) ==>
      var p := Post(caller, text, db.users[caller].name, db.users[caller].avatar, [], []);
      r == Ok(p) && db.posts == old(db.posts)[newId := p]
  {
    if text == "" {
      return ValidationError([TextRequired]);
    }
    if caller !in db.users {
      // the user record is gone: `user.name` throws
      return ServerError;
    }
    if newId in db.posts {
      // saving under an id already taken is a duplicate-key error
      return ServerError;
    }
    var user := db.users[caller];
    var p := Post(caller, text, user.name, user.avatar, [], []);
    assert UniqueLikers(p.likes);
    db.posts := db.posts[newId := p];
    r := Ok(p);
  }

  /** GET /api/posts/:id: a malformed id and a missing post both answer 404. */
  method GetPost(db: Database, postId: Id) returns (r: Outcome<Post>)
    ensures postId in db.posts ==> r == Ok(db.posts[postId])
    ensures postId !in db.posts ==> r == NotFound(NoPostFound) && r.Status() == 404
  {
    if postId !in db.posts {
      return NotFound(NoPostFound);
    }
    r := Ok(db.posts[postId]);
  }

  /** DELETE /api/posts/:id, as written: the owner check dereferences the
      post before the null check, so a missing post with a well-formed id
      ends in a server error and the 404 branch is never reached for it. */
  method DeletePost(db: Database, caller: Id, postId: Id) returns (r: Outcome<string>)
    requires db.Valid()
    modifies db`posts
    ensures db.Valid()
    ensures !IsObjectId(postId) ==> r == NotFound(NoPostFound) && db.posts == old(db.posts)
    ensures IsObjectId(postId) && postId !in old(db.posts) ==> r == ServerError && db.posts == old(db.posts)
    ensures postId in old(db.posts) && old(db.posts)[postId].user != caller ==>
      r == Unauthorized && db.posts == old(db.posts)
    ensures postId in old(db.posts) && old(db.posts)[postId].user == caller ==>
      r == Ok(PostRemoved) && db.posts == old(db.posts) - {postId}
    ensures r.NotFound? ==> !IsObjectId(postId)
  {
    if !IsObjectId(postId) {
      // cast error of kind 'ObjectId'
      return NotFound(NoPostFound);
    }
    if postId !in db.posts {
      // `post.user` on a null post throws before `if (!post)` is reached
      return ServerError;
    }
    if db.posts[postId].user != caller {
      return Unauthorized;
    }
    db.posts := db.posts - {postId};
    r := Ok(PostRemoved);
  }

  /** PUT /api/posts/like/:id */
  method LikePost(db: Database, caller: Id, postId: Id) returns (r: Outcome<seq<Like>>)
    requires db.Valid()
    modifies db`posts
    ensures db.Valid()
    ensures postId !in old(db.posts) ==> r == ServerError && db.posts == old(db.posts)
    ensures postId in old(db.posts) && HasLiked(old(db.posts)[postId].likes, caller) ==>
      r == AlreadyLiked && db.posts == old(db.posts)
    ensures postId in old(db.posts) && !HasLiked(old(db.posts)[postId].likes, caller) ==>
      var post := old(db.posts)[postId];
      var likes := [Like(caller)] + post.likes;
      r == Ok(likes) && db.posts == old(db.posts)[postId := post.(likes := likes)]
  {
    if postId !in db.posts {
      return ServerError;
    }
    var post := db.posts[postId];
    if |LikesBy(post.likes, caller)| > 0 {
      return AlreadyLiked;
    }
    LikeKeepsLikersUnique(post.likes, caller);
    post := post.(likes := [Like(caller)] + post.likes);
    db.posts := db.posts[postId := post];
    r := Ok(post.likes);
  }

  /** PUT /api/posts/unlike/:id */
  method UnlikePost(db: Database, caller: Id, postId: Id) returns (r: Outcome<seq<Like>>)
    requires db.Valid()
    modifies db`posts
    ensures db.Valid()
    ensures postId !in old(db.posts) ==> r == ServerError && db.posts == old(db.posts)
    ensures postId in old(db.posts) && !HasLiked(old(db.posts)[postId].likes, caller) ==>
      r == NotLiked && db.posts == old(db.posts)
    ensures postId in old(db.posts) && HasLiked(old(db.posts)[postId].likes, caller) ==>
      var post := old(db.posts)[postId];
      var likes := RemoveLike(post.likes, caller);
      r == Ok(likes) && db.posts == old(db.posts)[postId := post.(likes := likes)]
  {
    if postId !in db.posts {
      return ServerError;
    }
    var post := db.posts[postId];
    if |LikesBy(post.likes, caller)| == 0 {
      return NotLiked;
    }
    UnlikeKeepsLikersUnique(post.likes, caller);
    post := post.(likes := RemoveLike(post.likes, caller));
    db.posts := db.posts[postId := post];
    r := Ok(post.likes);
  }

  /** POST /api/posts/comment/:id: prepend a comment with the generated id
      `newId` and a snapshot of the caller's name and avatar. */
  method AddComment(db: Database, caller: Id, postId: Id, text: string, newId: Id)
    returns (r: Outcome<seq<Comment>>)
    requires db.Valid()
    modifies db`posts
    ensures db.Valid()
    ensures text == "" ==> r == ValidationError([TextRequired]) && db.posts == old(db.posts)
    ensures text != "" && (caller !in db.users || postId !in old(db.posts)) ==>
      r == ServerError && db.posts == old(db.posts)
    ensures text != "" && caller in db.users && postId in old(db.posts) ==>
      var post := old(db.posts)[postId];
      var c := Comment(newId, caller, text, db.users[caller].name, db.users[caller].avatar);
      r == Ok([c] + post.comments) && db.posts == old(db.posts)[postId := post.(comments := [c] + post.comments)]
  {
    if text == "" {
      return ValidationError([TextRequired]);
    }
    if caller !in db.users || postId !in db.posts {
      return ServerError;
    }
    var user := db.users[caller];
    var post := db.posts[postId];
    var c := Comment(newId, caller, text, user.name, user.avatar);
    post := post.(comments := [c] + post.comments);
    db.posts := db.posts[postId := post];
    r := Ok(post.comments);
  }

  /** DELETE /api/posts/comment/:id/:comment_id, as written: after the
      existence and ownership checks on the requested comment, it removes
      the caller's first comment (see DeleteCommentHitsRequestedIffFirst). */
  method DeleteComment(db: Database, caller: Id, postId: Id, commentId: Id)
    returns (r: Outcome<seq<Comment>>)
    requires db.Valid()
    modifies db`posts
    ensures db.Valid()
    ensures postId !in old(db.posts) ==> r == ServerError && db.posts == old(db.posts)
    ensures postId in old(db.posts) ==>
      var post := old(db.posts)[postId];
      var found := FindComment(post.comments, commentId);
      if found.None? then r == NotFound(NoComment) && db.posts == old(db.posts)
      else if found.value.user != caller then r == Unauthorized && db.posts == old(db.posts)
      else
        var comments := RemoveCallersFirstComment(post.comments, caller);
        r == Ok(comments) && db.posts == old(db.posts)[postId := post.(comments := comments)]
  {
    if postId !in db.posts {
      return ServerError;
    }
    var post := db.posts[postId];
    var found := FindComment(post.comments, commentId);
    if found.None? {
      return NotFound(NoComment);
    }
    if found.value.user != caller {
      return Unauthorized;
    }
    post := post.(comments := RemoveCallersFirstComment(post.comments, caller));
    db.posts := db.posts[postId := post];
    r := Ok(post.comments);
  }

  /** The delete-comment route as evidently intended: the same checks,
      then the requested comment itself is removed. */
  method DeleteCommentById(db: Database, caller: Id, postId: Id, commentId: Id)
    returns (r: Outcome<seq<Comment>>)
    requires db.Valid()
    modifies db`posts
    ensures db.Valid()
    ensures postId !in old(db.posts) ==> r == ServerError && db.posts == old(db.posts)
    ensures postId in old(db.posts) ==>
      var post := old(db.posts)[postId];
      var found := FindComment(post.comments, commentId);
      if found.None? then r == NotFound(NoComment) && db.posts == old(db.posts)
      else if found.value.user != caller then r == Unauthorized && db.posts == old(db.posts)
      else
        var comments := RemoveCommentById(post.comments, commentId);
        r == Ok(comments) && db.posts == old(db.posts)[postId := post.(comments := comments)]
  {
    if postId !in db.posts {
      return ServerError;
    }
    var post := db.posts[postId];
    var found := FindComment(post.comments, commentId);
    if found.None? {
      return NotFound(NoComment);
    }
    if found.value.user != caller {
      return Unauthorized;
    }
    post := post.(comments := RemoveCommentById(post.comments, commentId));
    db.posts := db.posts[postId := post];
    r := Ok(post.comments);
  }
}
