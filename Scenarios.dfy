/** Request sequences against a fresh store, stated through the handlers'
    contracts alone. */
module Scenarios {
  import opened Model
  import opened Accounts
  import opened Store
  import opened PostLists
  import opened UsersRoutes
  import opened AuthRoutes
  import opened PostsRoutes

  /** Alice's registration request passes the validators. */
  lemma AliceValid(isEmail: string -> bool)
    requires isEmail("a@x.com")
    ensures RegisterErrors(RegisterRequest(Some("Alice"), Some("a@x.com"), Some("secret1")), isEmail) == []
  {
    assert forall i :: 0 <= i < |"secret1"| ==> !IsVariationSelector("secret1"[i]);
  }

  /** Alice registers, registers again with the same email, logs in with a
      wrong password and then with her own. */
  method RegisterAndLogin(isEmail: string -> bool, gravatar: string -> string, bcrypt: Bcrypt, saltRandom: seq<bv8>)
    returns (first: Response, again: Response, wrong: Response, right: Response)
    requires Sound(bcrypt)
    requires isEmail("a@x.com")
    requires !bcrypt.compare("secret2", bcrypt.hash("secret1", Salt(SaltRounds, saltRandom)))
    ensures first == Response(200, TokenBody(IssueToken(0)))
    ensures again == Response(400, Errors(["Exists already exists"]))
    ensures wrong == Response(401, InvalidCredentials)
    ensures right == first
  {
    var db := new Db();
    var alice := RegisterRequest(Some("Alice"), Some("a@x.com"), Some("secret1"));
    AliceValid(isEmail);
    first := Register(db, alice, isEmail, gravatar, bcrypt, saltRandom);
    var stored := db.users;
    assert stored.Keys == {0};
    again := Register(db, alice, isEmail, gravatar, bcrypt, saltRandom);
    assert db.users == stored;
    var user := stored[0];
    assert user.email == "a@x.com";
    assert user.password == bcrypt.hash("secret1", Salt(SaltRounds, saltRandom));
    FindByUniqueEmail(stored, 0);
    wrong := Login(stored, LoginRequest(Some("a@x.com"), Some("secret2")), isEmail, bcrypt);
    assert map[] [0 := user] == stored;
    RegisterThenLogin(map[], 0, user, "secret1", Salt(SaltRounds, saltRandom), isEmail, bcrypt);
    right := Login(stored, LoginRequest(Some("a@x.com"), Some("secret1")), isEmail, bcrypt);
  }

  /** Bob cannot delete Alice's post, may like it once but not twice, and
      Alice can delete it. */
  method OwnershipAndLikes(alice: UserId, bob: UserId, author: User)
    returns (bobDelete: Response, firstLike: Response, secondLike: Response, aliceDelete: Response)
    requires alice != bob
    ensures bobDelete == Response(401, Msg("User not authorized"))
    ensures firstLike == Response(200, LikesBody([Like(bob)]))
    ensures secondLike == Response(400, Msg("Post is already liked"))
    ensures aliceDelete == Response(200, Msg("Post Deleted Successfully"))
  {
    var db := new Db();
    db.users := map[alice := author];
    db.nextId := if alice < bob then bob + 1 else alice + 1;
    var created := CreatePost(db, alice, Some("hello"), 0);
    var id := created.body.post.id;
    bobDelete := DeletePost(db, bob, id);
    assert id in db.posts;
    assert db.posts[id].likes == [];
    firstLike := LikePost(db, bob, id);
    assert [] + [Like(bob)] == [Like(bob)];
    secondLike := LikePost(db, bob, id);
    aliceDelete := DeletePost(db, alice, id);
    assert id !in db.posts;
  }
}
