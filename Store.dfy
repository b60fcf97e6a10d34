/** The document store the handlers read and write: the users, profiles and
    posts collections, and the generator of fresh ObjectIds. */
module Store {
  import opened Model
  import opened Accounts
  import opened PostLists

  /** A stored post sits under its own id, was created before `bound` was drawn,
      has each liker at most once, and every comment id was drawn before `bound`. */
  predicate PostValid(id: PostId, p: Post, bound: nat)
  {
    && p.id == id
    && id < bound
    && UniqueLikers(p.likes)
    && forall i :: 0 <= i < |p.comments| ==> p.comments[i].id < bound
  }

  /** A stored profile sits under its owner's id, and every experience id was
      drawn before `bound`. */
  predicate ProfileValid(owner: UserId, p: Profile, bound: nat)
  {
    && p.user == owner
    && forall i :: 0 <= i < |p.experience| ==> p.experience[i].id < bound
  }

  class Db {
    var users: map<UserId, User>
    /** `Profile.findOne({ user })` is a lookup by owner, so profiles are keyed by
        their owner: a user has at most one profile. */
    var profiles: map<UserId, Profile>
    var posts: map<PostId, Post>
    /** The next ObjectId; every id in use is smaller. */
    var nextId: nat

    ghost predicate Valid()
      reads this
    {
      && (forall k :: k in users ==> k < nextId)
      && EmailsUnique(users)
      && (forall k :: k in posts ==> PostValid(k, posts[k], nextId))
      && (forall k :: k in profiles ==> ProfileValid(k, profiles[k], nextId))
    }

    constructor ()
      ensures Valid()
      ensures users == map[] && profiles == map[] && posts == map[] && nextId == 0
    {
      users, profiles, posts, nextId := map[], map[], map[], 0;
    }

    /** A fresh ObjectId: larger than every id in use. */
    method NewId() returns (id: Id)
      requires Valid()
      modifies this`nextId
      ensures Valid()
      ensures id == old(nextId) && nextId == id + 1
    {
      id := nextId;
      nextId := nextId + 1;
    }
  }
}
