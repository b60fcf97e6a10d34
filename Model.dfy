/** The documents of the DevConnect backend and the responses its handlers send. */
module Model {

  datatype Option<+T> = None | Some(value: T)

  /** Ids are the store's ObjectIds. They are drawn from one counter in ascending
      order (Store.Db.nextId), so a smaller id means an earlier insertion. */
  type Id = nat
  type UserId = Id
  type PostId = Id
  type CommentId = Id
  type ExperienceId = Id

  /** A request field that express-validator's `not().isEmpty()` accepts, which is
      also a field JavaScript treats as truthy: present and not the empty string. */
  predicate Present(field: Option<string>)
    ensures field.None? ==> !Present(field)
    ensures Present(field) <==> field.Some? && |field.value| > 0
  {
    field.Some? && field.value != ""
  }

  /** One express-validator check: its message when the check fails, nothing otherwise. */
  function Require(ok: bool, msg: string): (errs: seq<string>)
    ensures errs == [] <==> ok
    ensures !ok ==> errs == [msg]
  {
    if ok then [] else [msg]
  }

  // ----- users -----

  /** A User document; `password` holds the bcrypt hash once it is stored. */
  datatype User = User(name: string, email: string, avatar: string, password: string)

  /** A User document read with `select('-password')`. */
  datatype PublicUser = PublicUser(id: UserId, name: string, email: string, avatar: string)

  // ----- posts -----

  datatype Like = Like(user: UserId)

  datatype Comment = Comment(id: CommentId, user: UserId, text: string, name: string, avatar: string)

  datatype Post = Post(
    id: PostId,
    user: UserId,
    text: string,
    name: string,
    avatar: string,
    likes: seq<Like>,
    comments: seq<Comment>,
    date: int)

  // ----- profiles -----

  datatype Social = Social(
    youtube: Option<string>,
    twitter: Option<string>,
    facebook: Option<string>,
    linkedin: Option<string>,
    instagram: Option<string>)

  const NoSocial := Social(None, None, None, None, None)

  datatype Experience = Experience(
    id: ExperienceId,
    title: string,
    company: string,
    location: Option<string>,
    from: string,
    to: Option<string>,
    current: Option<bool>,
    description: Option<string>)

  datatype Profile = Profile(
    user: UserId,
    company: Option<string>,
    website: Option<string>,
    location: Option<string>,
    bio: Option<string>,
    status: Option<string>,
    githubusername: Option<string>,
    skills: seq<string>,
    social: Social,
    experience: seq<Experience>)

  // ----- tokens -----

  /** The JWT payload `{ user: { id } }`. */
  datatype PayloadUser = PayloadUser(id: UserId)
  datatype Payload = Payload(user: PayloadUser)

  /** A signed token, seen through what it carries: its payload and its `expiresIn`. */
  datatype Token = Token(payload: Payload, expiresIn: nat)

  /** `expiresIn` passed to `jwt.sign`, in seconds (100 hours). */
  const TokenTtl: nat := 360000

  function IssueToken(id: UserId): (t: Token)
    ensures t.payload.user.id == id && t.expiresIn == 360000
  {
    Token(Payload(PayloadUser(id)), TokenTtl)
  }

  // ----- responses -----

  /** A response body: `json({ msg })`, `json({ errors })` (only the messages),
      `send(text)`, `json(<string>)`, `json({ token })`, or a document or list. */
  datatype Body =
    | Msg(msg: string)
    | Errors(msgs: seq<string>)
    | Text(text: string)
    | JsonString(s: string)
    | TokenBody(token: Token)
    | PostBody(post: Post)
    | PostsBody(posts: seq<Post>)
    | LikesBody(likes: seq<Like>)
    | CommentsBody(comments: seq<Comment>)
    | ProfileBody(profile: Profile)
    | ProfilesBody(profiles: set<Profile>)
    | UserBody(user: Option<PublicUser>)

  datatype Response = Response(status: int, body: Body)
}
