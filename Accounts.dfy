/** What registration and login share: the lookup of a user by email, the
    uniqueness of emails, and bcrypt seen through its two operations. */
module Accounts {
  import opened Model
  import JsString

  /** `bcrypt.genSalt(8)`: the cost factor and the random bytes it draws. */
  datatype Salt = Salt(rounds: nat, random: seq<bv8>)

  /** The cost factor registration asks `genSalt` for. */
  const SaltRounds: nat := 8

  /** A bcrypt implementation, seen only through `hash(plaintext, salt)` and
      `compare(plaintext, storedHash)`. */
  datatype Bcrypt = Bcrypt(hash: (string, Salt) -> string, compare: (string, string) -> bool)

  /** `compare` accepts every plaintext against its own hash, whatever the salt. */
  ghost predicate Sound(b: Bcrypt)
  {
    forall p: string, salt: Salt :: b.compare(p, b.hash(p, salt))
  }

  /** express-validator's `isEmail()` on a request field; the validator itself
      is the parameter `isEmail`. A missing field is not an email. */
  predicate ValidEmail(email: Option<string>, isEmail: string -> bool)
    ensures email.None? ==> !ValidEmail(email, isEmail)
    ensures email.Some? ==> (ValidEmail(email, isEmail) <==> isEmail(email.value))
  {
    email.Some? && isEmail(email.value)
  }

  /** No two users share an email. */
  ghost predicate EmailsUnique(users: map<UserId, User>)
  {
    forall a, b :: a in users && b in users && a != b ==> users[a].email != users[b].email
  }

  /** The smallest element of a non-empty set of ids. */
  ghost function LeastOf(s: set<nat>): (m: nat)
    requires s != {}
    ensures m in s && forall k :: k in s ==> m <= k
    decreases s
  {
    var x :| x in s;
    if s == {x} then x
    else
      var rest := s - {x};
      var m := LeastOf(rest);
      assert forall k :: k in s && k != x ==> k in rest;
      if x < m then x else m
  }

  /** The smallest element of a non-empty set of ids, computed. */
  function Least(s: set<nat>): (m: nat)
    requires s != {}
    ensures m in s && forall k :: k in s ==> m <= k
  {
    assert LeastOf(s) in s && forall k :: k in s ==> LeastOf(s) <= k;
    var m :| m in s && forall k :: k in s ==> m <= k;
    m
  }

  /** `User.findOne({ email })`: the earliest inserted user with that email (the
      collection's natural order is the order of the ids), or none. */
  function FindByEmail(users: map<UserId, User>, email: string): (r: Option<UserId>)
    ensures r.None? <==> forall k :: k in users ==> users[k].email != email
    ensures r.Some? ==> r.value in users && users[r.value].email == email
    ensures r.Some? ==> forall k :: k in users && users[k].email == email ==> r.value <= k
  {
    var matching := set k | k in users && users[k].email == email;
    assert forall k :: k in users && users[k].email == email ==> k in matching;
    if matching == {} then None else Some(Least(matching))
  }

  /** With unique emails, the lookup finds the one user holding the email. */
  lemma FindByUniqueEmail(users: map<UserId, User>, id: UserId)
    requires EmailsUnique(users)
    requires id in users
    ensures FindByEmail(users, users[id].email) == Some(id)
  {
  }

  /** Inserting a user whose email the lookup does not find keeps emails unique,
      and the lookup then finds the new user. */
  lemma InsertKeepsEmailsUnique(users: map<UserId, User>, id: UserId, u: User)
    requires EmailsUnique(users)
    requires id !in users
    requires FindByEmail(users, u.email) == None
    ensures EmailsUnique(users[id := u])
    ensures FindByEmail(users[id := u], u.email) == Some(id)
  {
    FindByUniqueEmail(users[id := u], id);
  }

  /** Removing users keeps emails unique. */
  lemma RemoveKeepsEmailsUnique(users: map<UserId, User>, id: UserId)
    requires EmailsUnique(users)
    ensures EmailsUnique(users - {id})
  {
  }
}
