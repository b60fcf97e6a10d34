/** The list logic of the posts routes: a post's likes and its comments. */
module PostLists {
  import opened Model
  import JsArray

  // ----- likes -----

  /** `post.likes.filter(like => like.user === u).length > 0`. */
  function HasLiked(likes: seq<Like>, u: UserId): (b: bool)
    ensures b <==> exists i :: 0 <= i < |likes| && likes[i].user == u
  {
    JsArray.CountWhere(likes, (l: Like) => l.user == u) > 0
  }

  /** `post.likes.findIndex(like => like.user === u)`. */
  function LikeIndex(likes: seq<Like>, u: UserId): (r: int)
    ensures -1 <= r < |likes|
    ensures r == -1 <==> !HasLiked(likes, u)
    ensures 0 <= r ==> likes[r].user == u && forall j :: 0 <= j < r ==> likes[j].user != u
  {
    JsArray.FindIndex(likes, (l: Like) => l.user == u)
  }

  /** Each user appears at most once in a like list. */
  predicate UniqueLikers(likes: seq<Like>)
  {
    forall i, j :: 0 <= i < j < |likes| ==> likes[i].user != likes[j].user
  }

  /** The like list after a successful dislike: `likes.splice(likeIndex, 1)`. */
  function RemoveLike(likes: seq<Like>, u: UserId): (r: seq<Like>)
    requires HasLiked(likes, u)
    ensures |r| == |likes| - 1
    ensures var i := LikeIndex(likes, u);
      0 <= i && likes[i].user == u && r == likes[..i] + likes[i + 1..]
  {
    var i := LikeIndex(likes, u);
    JsArray.SpliceAt(likes, i);
    JsArray.Splice(likes, i)
  }

  /** Every like except those of `u`, in order: the reference a dislike is compared with. */
  function Without(likes: seq<Like>, u: UserId): (r: seq<Like>)
  {
    if likes == [] then []
    else if likes[0].user == u then Without(likes[1..], u)
    else [likes[0]] + Without(likes[1..], u)
  }

  lemma {:induction false} WithoutAbsent(likes: seq<Like>, u: UserId)
    requires !HasLiked(likes, u)
    ensures Without(likes, u) == likes
  {
    if likes != [] {
      assert !HasLiked(likes[1..], u);
      WithoutAbsent(likes[1..], u);
    }
  }

  /** A successful like keeps every user at most once in the list. */
  lemma LikeKeepsUnique(likes: seq<Like>, u: UserId)
    requires UniqueLikers(likes)
    requires !HasLiked(likes, u)
    ensures UniqueLikers(likes + [Like(u)])
  {
  }

  /** A successful dislike keeps the list duplicate-free and leaves no like of the caller. */
  lemma DislikeKeepsUnique(likes: seq<Like>, u: UserId)
    requires UniqueLikers(likes)
    requires HasLiked(likes, u)
    ensures UniqueLikers(RemoveLike(likes, u))
    ensures !HasLiked(RemoveLike(likes, u), u)
  {
    var i := LikeIndex(likes, u);
    var r := RemoveLike(likes, u);
    forall j | 0 <= j < |r|
      ensures r[j].user != u
    {
      if j < i { assert r[j] == likes[j]; } else { assert r[j] == likes[j + 1]; }
    }
  }

  /** On a duplicate-free list, a dislike removes exactly the caller's likes and
      keeps the others in their order. */
  lemma {:induction false} DislikeIsWithout(likes: seq<Like>, u: UserId)
    requires UniqueLikers(likes)
    requires HasLiked(likes, u)
    ensures RemoveLike(likes, u) == Without(likes, u)
  {
    var tail := likes[1..];
    assert UniqueLikers(tail);
    if likes[0].user == u {
      assert LikeIndex(likes, u) == 0;
      assert !HasLiked(tail, u);
      WithoutAbsent(tail, u);
    } else {
      var i := LikeIndex(likes, u);
      assert tail[i - 1].user == u;
      assert HasLiked(tail, u);
      assert LikeIndex(tail, u) == i - 1;
      DislikeIsWithout(tail, u);
      assert RemoveLike(likes, u) == [likes[0]] + RemoveLike(tail, u);
    }
  }

  /** A like followed by a dislike from the same user gives back the original list. */
  lemma LikeThenDislike(likes: seq<Like>, u: UserId)
    requires !HasLiked(likes, u)
    ensures HasLiked(likes + [Like(u)], u)
    ensures RemoveLike(likes + [Like(u)], u) == likes
  {
    var liked := likes + [Like(u)];
    assert liked[|likes|].user == u;
    assert LikeIndex(liked, u) == |likes|;
    assert liked[..|likes|] == likes;
  }

  // ----- comments -----

  /** `post.comments.indexOf(post.comments.find(c => c._id === id))`: the
      position of the first comment with that id, or -1. */
  function CommentIndex(comments: seq<Comment>, id: CommentId): (r: int)
    ensures -1 <= r < |comments|
    ensures r == -1 <==> forall i :: 0 <= i < |comments| ==> comments[i].id != id
    ensures 0 <= r ==> comments[r].id == id && forall j :: 0 <= j < r ==> comments[j].id != id
  {
    JsArray.FindIndex(comments, (c: Comment) => c.id == id)
  }

  /** The comment list after `comments.splice(index, 1)` at a found comment:
      exactly that comment is gone, the others keep their order. */
  function RemoveComment(comments: seq<Comment>, index: int): (r: seq<Comment>)
    requires 0 <= index < |comments|
    ensures |r| == |comments| - 1
    ensures r == comments[..index] + comments[index + 1..]
    ensures multiset(r) + multiset{comments[index]} == multiset(comments)
  {
    JsArray.SpliceAt(comments, index);
    JsArray.Splice(comments, index)
  }

  /** A comment put at the front under a fresh id is the one a delete by that id
      finds, and deleting it gives back the list before it was added. */
  lemma AddThenDeleteComment(comments: seq<Comment>, c: Comment)
    requires forall i :: 0 <= i < |comments| ==> comments[i].id != c.id
    ensures CommentIndex([c] + comments, c.id) == 0
    ensures RemoveComment([c] + comments, 0) == comments
  {
    assert ([c] + comments)[0].id == c.id;
  }
}
