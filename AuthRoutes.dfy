/** The handlers of routes/api/auth.js: the current user and login. Both only
    read the users collection. */
module AuthRoutes {
  import opened Model
  import opened Accounts

  /** GET api/auth: `User.findById(caller).select('-password')`; a missing user
      is answered with a JSON null. */
  function CurrentUser(users: map<UserId, User>, caller: UserId): (r: Response)
    ensures r.status == 200 && r.body.UserBody?
    ensures r.body.user.Some? <==> caller in users
    ensures r.body.user.Some? ==>
      var u := users[caller];
      r.body.user.value == PublicUser(caller, u.name, u.email, u.avatar)
  {
    if caller in users then
      var u := users[caller];
      Response(200, UserBody(Some(PublicUser(caller, u.name, u.email, u.avatar))))
    else Response(200, UserBody(None))
  }

  /** The body of POST api/auth. */
  datatype LoginRequest = LoginRequest(email: Option<string>, password: Option<string>)

  /** The checks of POST api/auth, in their declared order: a valid email and a
      password field that exists (it may be empty). */
  function LoginErrors(req: LoginRequest, isEmail: string -> bool): (errs: seq<string>)
    ensures errs == [] <==> ValidEmail(req.email, isEmail) && req.password.Some?
    ensures "Enter a valid email" in errs <==> !ValidEmail(req.email, isEmail)
    ensures "Password is required" in errs <==> req.password.None?
  {
    Require(ValidEmail(req.email, isEmail), "Enter a valid email")
      + Require(req.password.Some?, "Password is required")
  }

  /** The body of both credential failures. */
  const InvalidCredentials := Errors(["Invalid Credentials"])

  /** POST api/auth. An unknown email and a wrong password get the same body,
      with status 400 and 401 respectively; success is a token for the user
      whose email was given. */
  function Login(users: map<UserId, User>, req: LoginRequest, isEmail: string -> bool, bcrypt: Bcrypt): (r: Response)
    ensures r.status == 200 || r.status == 400 || r.status == 401
    ensures LoginErrors(req, isEmail) != [] ==> r == Response(400, Errors(LoginErrors(req, isEmail)))
    ensures LoginErrors(req, isEmail) == [] ==>
      var found := FindByEmail(users, req.email.value);
      && (found.None? ==> r == Response(400, InvalidCredentials))
      && (found.Some? && !bcrypt.compare(req.password.value, users[found.value].password) ==>
            r == Response(401, InvalidCredentials))
    ensures r.status == 200 ==>
      && LoginErrors(req, isEmail) == []
      && r.body.TokenBody?
      && r.body.token.expiresIn == TokenTtl
      && var id := r.body.token.payload.user.id;
      && id in users
      && users[id].email == req.email.value
      && bcrypt.compare(req.password.value, users[id].password)
  {
    var errs := LoginErrors(req, isEmail);
    if errs != [] then Response(400, Errors(errs))
    else
      match FindByEmail(users, req.email.value)
      case None => Response(400, InvalidCredentials)
      case Some(id) =>
        if !bcrypt.compare(req.password.value, users[id].password) then Response(401, InvalidCredentials)
        else Response(200, TokenBody(IssueToken(id)))
  }

  /** A user just stored by registration, with the bcrypt hash of `password`,
      logs in with that password and receives a token for its own id. */
  lemma RegisterThenLogin(users: map<UserId, User>, id: UserId, u: User, password: string,
                          salt: Salt, isEmail: string -> bool, bcrypt: Bcrypt)
    requires Sound(bcrypt)
    requires isEmail(u.email)
    requires FindByEmail(users, u.email) == None
    requires u.password == bcrypt.hash(password, salt)
    ensures Login(users[id := u], LoginRequest(Some(u.email), Some(password)), isEmail, bcrypt)
         == Response(200, TokenBody(IssueToken(id)))
  {
    var after := users[id := u];
    assert FindByEmail(after, u.email) == Some(id) by {
      forall k | k in after && after[k].email == u.email
        ensures k == id
      {
        if k != id {
          // `users[k]` would hold the email the lookup did not find
          assert false;
        }
      }
      assert id in after && after[id].email == u.email;
      var found := FindByEmail(after, u.email);
      assert found.Some?;
      assert found.value in after && after[found.value].email == u.email;
    }
  }

  /** With unique emails, login succeeds exactly for a stored user's email and a
      password that `compare` accepts against that user's hash. */
  lemma LoginSucceedsIff(users: map<UserId, User>, req: LoginRequest, isEmail: string -> bool, bcrypt: Bcrypt)
    requires EmailsUnique(users)
    ensures Login(users, req, isEmail, bcrypt).status == 200 <==>
      && LoginErrors(req, isEmail) == []
      && exists id :: id in users && users[id].email == req.email.value
                    && bcrypt.compare(req.password.value, users[id].password)
  {
    if LoginErrors(req, isEmail) == [] {
      var email, password := req.email.value, req.password.value;
      if exists id :: id in users && users[id].email == email && bcrypt.compare(password, users[id].password) {
        var id :| id in users && users[id].email == email && bcrypt.compare(password, users[id].password);
        FindByUniqueEmail(users, id);
      }
    }
  }
}
