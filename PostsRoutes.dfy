/** The handlers of routes/api/posts.js. Each takes the caller's id, which the
    auth middleware has already established, and the request fields. */
module PostsRoutes {
  import opened Model
  import opened PostLists
  import opened Store

  const ServerError := Response(500, Text("Server Error"))
  const PostNotFound := Response(404, Msg("Post not found"))
  const NotAuthorized := Response(401, Msg("User not authorized"))

  /** POST api/posts: a post by the caller, carrying the caller's name and avatar. */
  method CreatePost(db: Db, caller: UserId, text: Option<string>, now: int) returns (res: Response)
    requires db.Valid()
    modifies db`posts, db`nextId
    ensures db.Valid()
    ensures !Present(text) ==>
      res == Response(400, Errors(["Text is required"])) && db.posts == old(db.posts)
    ensures Present(text) && caller !in db.users ==>
      res == ServerError && db.posts == old(db.posts)
    ensures Present(text) && caller in db.users ==>
      var u := db.users[caller];
      var post := Post(old(db.nextId), caller, text.value, u.name, u.avatar, [], [], now);
      && post.id !in old(db.posts)
      && db.posts == old(db.posts)[post.id := post]
      && res == Response(200, PostBody(post))
  {
    if !Present(text) {
      return Response(400, Errors(["Text is required"]));
    }
    if caller !in db.users {
      // `user.name` on a missing user throws
      return ServerError;
    }
    var user := db.users[caller];
    var id := db.NewId();
    var post := Post(id, caller, text.value, user.name, user.avatar, [], [], now);
    db.posts := db.posts[id := post];
    res := Response(200, PostBody(post));
  }

  /** Posts ordered newest first. */
  predicate NewestFirst(ps: seq<Post>)
  {
    forall i, j :: 0 <= i < j < |ps| ==> ps[i].date >= ps[j].date
  }

  /** Puts `p` into a newest-first list ahead of every post that is not newer. */
  function InsertByDate(ps: seq<Post>, p: Post): (r: seq<Post>)
    requires NewestFirst(ps)
    ensures NewestFirst(r)
    ensures |r| == |ps| + 1
    ensures forall q :: q in r <==> q == p || q in ps
    ensures multiset(r) == multiset(ps) + multiset{p}
  {
    if ps == [] || p.date >= ps[0].date then [p] + ps
    else
      var rest := InsertByDate(ps[1..], p);
      assert ps == [ps[0]] + ps[1..];
      assert forall q :: q in rest ==> q.date <= ps[0].date;
      PrependNewest(ps[0], rest);
      [ps[0]] + rest
  }

  /** A post no older than every post of a newest-first list can go in front of it. */
  lemma PrependNewest(p: Post, ps: seq<Post>)
    requires NewestFirst(ps)
    requires forall q :: q in ps ==> q.date <= p.date
    ensures NewestFirst([p] + ps)
  {
    var r := [p] + ps;
    forall i, j | 0 <= i < j < |r|
      ensures r[i].date >= r[j].date
    {
      assert r[j] == ps[j - 1];
      if i > 0 { assert r[i] == ps[i - 1]; }
    }
  }

  /** GET api/posts: `Post.find().sort({ date: -1 })`. Every stored post appears
      once, and the list is newest first. */
  method ListPosts(db: Db) returns (res: Response)
    requires db.Valid()
    ensures res.status == 200 && res.body.PostsBody?
    ensures NewestFirst(res.body.posts)
    ensures |res.body.posts| == |db.posts|
    ensures forall k :: k in db.posts ==> db.posts[k] in res.body.posts
    ensures forall p :: p in res.body.posts ==> p.id in db.posts && db.posts[p.id] == p
  {
    var pending := db.posts.Keys;
    var listed: seq<Post> := [];
    while pending != {}
      invariant pending <= db.posts.Keys
      invariant NewestFirst(listed)
      invariant |listed| + |pending| == |db.posts|
      invariant forall k :: k in db.posts && k !in pending ==> db.posts[k] in listed
      invariant forall p :: p in listed ==> p.id in db.posts && db.posts[p.id] == p && p.id !in pending
      decreases pending
    {
      var k :| k in pending;
      listed := InsertByDate(listed, db.posts[k]);
      pending := pending - {k};
    }
    res := Response(200, PostsBody(listed));
  }

  /** GET api/posts/:post_id. */
  function GetPost(posts: map<PostId, Post>, postId: PostId): (r: Response)
    ensures r.status == 404 <==> postId !in posts
    ensures r.status == 404 ==> r == PostNotFound
    ensures r.status != 404 ==> r == Response(200, PostBody(posts[postId]))
  {
    if postId in posts then Response(200, PostBody(posts[postId])) else PostNotFound
  }

  /** DELETE api/posts/:post_id: only the post's owner may remove it. */
  method DeletePost(db: Db, caller: UserId, postId: PostId) returns (res: Response)
    requires db.Valid()
    modifies db`posts
    ensures db.Valid()
    ensures postId !in old(db.posts) ==> res == PostNotFound && db.posts == old(db.posts)
    ensures postId in old(db.posts) && old(db.posts)[postId].user != caller ==>
      res == NotAuthorized && db.posts == old(db.posts)
    ensures postId in old(db.posts) && old(db.posts)[postId].user == caller ==>
      && res == Response(200, Msg("Post Deleted Successfully"))
      && db.posts == old(db.posts) - {postId}
  {
    if postId !in db.posts {
      return PostNotFound;
    }
    var post := db.posts[postId];
    if post.user != caller {
      return NotAuthorized;
    }
    db.posts := db.posts - {postId};
    res := Response(200, Msg("Post Deleted Successfully"));
  }

  /** PUT api/posts/like/:postId: appends the caller's like unless there is one. */
  method LikePost(db: Db, caller: UserId, postId: PostId) returns (res: Response)
    requires db.Valid()
    modifies db`posts
    ensures db.Valid()
    ensures postId !in old(db.posts) ==> res == PostNotFound && db.posts == old(db.posts)
    ensures postId in old(db.posts) ==>
      var post := old(db.posts)[postId];
      if HasLiked(post.likes, caller) then
        res == Response(400, Msg("Post is already liked")) && db.posts == old(db.posts)
      else
        var likes := post.likes + [Like(caller)];
        && db.posts == old(db.posts)[postId := post.(likes := likes)]
        && res == Response(200, LikesBody(likes))
  {
    if postId !in db.posts {
      return PostNotFound;
    }
    var post := db.posts[postId];
    if HasLiked(post.likes, caller) {
      return Response(400, Msg("Post is already liked"));
    }
    LikeKeepsUnique(post.likes, caller);
    post := post.(likes := post.likes + [Like(caller)]);
    db.posts := db.posts[postId := post];
    res := Response(200, LikesBody(post.likes));
  }

  /** PUT api/posts/dislike/:postId: removes the caller's like, which must exist. */
  method DislikePost(db: Db, caller: UserId, postId: PostId) returns (res: Response)
    requires db.Valid()
    modifies db`posts
    ensures db.Valid()
    ensures postId !in old(db.posts) ==> res == PostNotFound && db.posts == old(db.posts)
    ensures postId in old(db.posts) ==>
      var post := old(db.posts)[postId];
      if !HasLiked(post.likes, caller) then
        res == Response(400, Msg("you haven't  liked this post")) && db.posts == old(db.posts)
      else
        var likes := RemoveLike(post.likes, caller);
        && db.posts == old(db.posts)[postId := post.(likes := likes)]
        && res == Response(200, LikesBody(likes))
  {
    if postId !in db.posts {
      return PostNotFound;
    }
    var post := db.posts[postId];
    if !HasLiked(post.likes, caller) {
      return Response(400, Msg("you haven't  liked this post"));
    }
    DislikeKeepsUnique(post.likes, caller);
    post := post.(likes := RemoveLike(post.likes, caller));
    db.posts := db.posts[postId := post];
    res := Response(200, LikesBody(post.likes));
  }

  /** POST api/posts/comment/:postId: puts the caller's comment at the front. */
  method AddComment(db: Db, caller: UserId, postId: PostId, text: Option<string>) returns (res: Response)
    requires db.Valid()
    modifies db`posts, db`nextId
    ensures db.Valid()
    ensures !Present(text) ==>
      res == Response(400, Errors(["Text is required"])) && db.posts == old(db.posts)
    ensures Present(text) && (caller !in db.users || postId !in old(db.posts)) ==>
      res == ServerError && db.posts == old(db.posts)
    ensures Present(text) && caller in db.users && postId in old(db.posts) ==>
      var u := db.users[caller];
      var post := old(db.posts)[postId];
      var c := Comment(old(db.nextId), caller, text.value, u.name, u.avatar);
      && (forall i :: 0 <= i < |post.comments| ==> post.comments[i].id != c.id)
      && db.posts == old(db.posts)[postId := post.(comments := [c] + post.comments)]
      && res == Response(200, CommentsBody([c] + post.comments))
  {
    if !Present(text) {
      return Response(400, Errors(["Text is required"]));
    }
    if caller !in db.users || postId !in db.posts {
      // `user.name` or `post.comments` on a missing document throws
      return ServerError;
    }
    var user := db.users[caller];
    var post := db.posts[postId];
    var id := db.NewId();
    var c := Comment(id, caller, text.value, user.name, user.avatar);
    post := post.(comments := [c] + post.comments);
    db.posts := db.posts[postId := post];
    res := Response(200, CommentsBody(post.comments));
  }

  /** DELETE api/posts/comment/:postId/:commentId: only the comment's author may
      remove it. */
  method DeleteComment(db: Db, caller: UserId, postId: PostId, commentId: CommentId) returns (res: Response)
    requires db.Valid()
    modifies db`posts
    ensures db.Valid()
    ensures postId !in old(db.posts) ==> res == PostNotFound && db.posts == old(db.posts)
    ensures postId in old(db.posts) ==>
      var post := old(db.posts)[postId];
      var i := CommentIndex(post.comments, commentId);
      if i == -1 then
        res == Response(404, Msg("Comment doesn't exist")) && db.posts == old(db.posts)
      else if post.comments[i].user != caller then
        res == NotAuthorized && db.posts == old(db.posts)
      else
        var comments := RemoveComment(post.comments, i);
        && db.posts == old(db.posts)[postId := post.(comments := comments)]
        && res == Response(200, CommentsBody(comments))
  {
    if postId !in db.posts {
      return PostNotFound;
    }
    var post := db.posts[postId];
    var i := CommentIndex(post.comments, commentId);
    if i == -1 {
      return Response(404, Msg("Comment doesn't exist"));
    }
    if post.comments[i].user != caller {
      return NotAuthorized;
    }
    post := post.(comments := RemoveComment(post.comments, i));
    db.posts := db.posts[postId := post];
    res := Response(200, CommentsBody(post.comments));
  }
}
