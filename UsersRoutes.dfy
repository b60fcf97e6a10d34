/** The handler of routes/api/users.js: registration. */
module UsersRoutes {
  import opened Model
  import opened Accounts
  import opened Store

  /** The body of POST api/users. */
  datatype RegisterRequest = RegisterRequest(name: Option<string>, email: Option<string>, password: Option<string>)

  /** A variation selector (U+FE0E, U+FE0F), which validator.js's `isLength`
      leaves out of the count. */
  predicate IsVariationSelector(c: char)
  {
    c == '\U{FE0E}' || c == '\U{FE0F}'
  }

  /** The length validator.js's `isLength` measures: code points, so a surrogate
      pair counts once (a Dafny `char` is already a whole code point), without
      the variation selectors. */
  function ValidatorLength(s: string): (n: nat)
    ensures n <= |s|
    ensures (forall i :: 0 <= i < |s| ==> !IsVariationSelector(s[i])) ==> n == |s|
  {
    if s == [] then 0
    else
      (if IsVariationSelector(s[0]) then 0 else 1) + ValidatorLength(s[1..])
  }

  /** The measured length is the character count less the variation selectors. */
  lemma {:induction false} ValidatorLengthCount(s: string)
    ensures ValidatorLength(s) + multiset(s)['\U{FE0E}'] + multiset(s)['\U{FE0F}'] == |s|
  {
    if s != [] {
      ValidatorLengthCount(s[1..]);
      assert s == [s[0]] + s[1..];
    }
  }

  /** `isLength({ min: 6 })` on the password; a missing field is the empty string. */
  predicate LongEnough(password: Option<string>)
    ensures LongEnough(password) ==> password.Some? && |password.value| >= 6
    ensures password.Some? && |password.value| >= 6
            && (forall i :: 0 <= i < |password.value| ==> !IsVariationSelector(password.value[i]))
            ==> LongEnough(password)
  {
    password.Some? && ValidatorLength(password.value) >= 6
  }

  /** Three emoji outside the Basic Multilingual Plane are six UTF-16 units in
      JavaScript but three characters to the validator: too short. */
  lemma AstralCharactersCountOnce()
    ensures !LongEnough(Some("\U{1F600}\U{1F600}\U{1F600}"))
    ensures LongEnough(Some("\U{1F600}\U{1F600}\U{1F600}\U{1F600}\U{1F600}\U{1F600}"))
  {
  }

  /** The checks of POST api/users, in their declared order. */
  function RegisterErrors(req: RegisterRequest, isEmail: string -> bool): (errs: seq<string>)
    ensures errs == [] <==> Present(req.name) && ValidEmail(req.email, isEmail) && LongEnough(req.password)
    ensures "Name is Required" in errs <==> !Present(req.name)
    ensures "Enter a valid email" in errs <==> !ValidEmail(req.email, isEmail)
    ensures "Please enter a password with 6 or more characters" in errs <==> !LongEnough(req.password)
  {
    Require(Present(req.name), "Name is Required")
      + Require(ValidEmail(req.email, isEmail), "Enter a valid email")
      + Require(LongEnough(req.password), "Please enter a password with 6 or more characters")
  }

  /** POST api/users: validates, refuses a known email, stores the user with a
      hashed password under a fresh id, and answers with a token for that id.
      `gravatar` stands for `gravatar.url`, `saltRandom` for the bytes
      `bcrypt.genSalt(8)` draws. */
  method Register(db: Db, req: RegisterRequest, isEmail: string -> bool, gravatar: string -> string,
                  bcrypt: Bcrypt, saltRandom: seq<bv8>) returns (res: Response)
    requires db.Valid()
    modifies db`users, db`nextId
    ensures db.Valid()
    ensures RegisterErrors(req, isEmail) != [] ==>
      res == Response(400, Errors(RegisterErrors(req, isEmail))) && db.users == old(db.users)
    ensures RegisterErrors(req, isEmail) == [] && FindByEmail(old(db.users), req.email.value).Some? ==>
      res == Response(400, Errors(["Exists already exists"])) && db.users == old(db.users)
    ensures RegisterErrors(req, isEmail) == [] && FindByEmail(old(db.users), req.email.value).None? ==>
      var id := old(db.nextId);
      var email := req.email.value;
      var hashed := bcrypt.hash(req.password.value, Salt(SaltRounds, saltRandom));
      && id !in old(db.users)
      && db.users == old(db.users)[id := User(req.name.value, email, gravatar(email), hashed)]
      && |db.users| == |old(db.users)| + 1
      && FindByEmail(db.users, email) == Some(id)
      && res == Response(200, TokenBody(IssueToken(id)))
  {
    var errs := RegisterErrors(req, isEmail);
    if errs != [] {
      return Response(400, Errors(errs));
    }
    var name, email, password := req.name.value, req.email.value, req.password.value;
    if FindByEmail(db.users, email).Some? {
      return Response(400, Errors(["Exists already exists"]));
    }
    var avatar := gravatar(email);
    var user := User(name, email, avatar, password);
    var salt := Salt(SaltRounds, saltRandom);
    user := user.(password := bcrypt.hash(user.password, salt));
    var id := db.NewId();
    InsertKeepsEmailsUnique(db.users, id, user);
    db.users := db.users[id := user];
    res := Response(200, TokenBody(IssueToken(id)));
  }
}
