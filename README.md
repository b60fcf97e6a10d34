# DevConnect API handlers in Dafny

A model of the request handlers of the DevConnect backend, an Express and
Mongoose service for a developer community: registration (`POST api/users`),
login and the current user (`api/auth`), developer profiles with their
experience entries (`api/profile`), and posts with likes and comments
(`api/posts`).

The three collections (users, profiles, posts) are the fields of one class,
`Store.Db`, together with the counter that hands out fresh ObjectIds in
ascending order. Each handler is a module-level method that takes the store
(or, for some of those that only read, a function of the collection it reads),
the id of the authenticated caller and the request fields, and returns the
status and body the handler sends. Its `ensures` clauses
state the new contents of every collection it writes and the response of every
branch, including the error branches the code reaches by dereferencing a
missing document. The invariant `Db.Valid()` (ids below the counter, emails
unique, each liker at most once per post, profiles keyed by their owner) is
kept by every handler.

The JavaScript the handlers lean on is modelled with its own rules:
`findIndex`, the `filter(...).length > 0` test, `splice(start, 1)` including
ECMAScript's treatment of a negative start, `split` on one character, and
`trim` with the ECMAScript whitespace set. The password rule `isLength({ min: 6 })`
counts as validator.js does: code points, so a character outside the Basic
Multilingual Plane counts once, and variation selectors U+FE0E and U+FE0F not
at all.

Behaviour of the code that the route comments do not suggest, kept as written:

- The owner checks of post and comment deletion answer 401 "User not authorized".
- Login answers 400 for an unknown email and 401 for a wrong password, both with
  the body `Invalid Credentials`.
- A duplicate registration is refused with the message "Exists already exists".
- Adding an experience without a profile answers 400 `Server Error`
  (routes/api/profile.js:196), while deleting one without a profile answers 500.
- Deleting an experience by an id that is not in the list computes index -1,
  and `splice(-1, 1)` then removes the last entry.
- Deleting the account removes the profile and the user but not the user's
  posts, although the route's description mentions posts.
- The dislike message has two spaces: "you haven't  liked this post".

Modules: `Model` (documents, responses), `JsArray` and `JsString` (the
JavaScript built-ins), `Accounts` (email lookup, bcrypt), `PostLists` and
`ProfileFields` (list and field logic without the store), `Store` (the
collections), `PostsRoutes`, `ProfileRoutes`, `UsersRoutes`, `AuthRoutes` (the
handlers), `Scenarios` (request sequences proved from the handlers' contracts).

## Model

| member | source | states |
|---|---|---|
| Model.Require | routes/api/users.js:14-22 | one validator check yields its message exactly when it fails, nothing when it passes |
| Model.Present | routes/api/users.js:15 | `not().isEmpty()` and truthiness: a field passes exactly when it is present and not the empty string |
| Model.IssueToken | routes/api/users.js:54-60 | the token payload carries the user's id and the token lives 360000 seconds |
| JsArray.FindIndex | routes/api/posts.js:145-147 | the result is -1 exactly when no element matches, otherwise the first matching index |
| JsArray.CountWhere | routes/api/posts.js:111-113 | the filtered count, as the handlers test it: at most the length and positive exactly when some element matches |
| JsArray.SpliceStart | routes/api/profile.js:213 | a negative start is the length plus the start, clamped at 0; a large one is clamped at the length; -1 is the last index |
| JsArray.Splice | routes/api/posts.js:148 | one element is removed at the normalised start, elements before it stay, those after shift down by one |
| JsArray.SpliceAt | routes/api/posts.js:218 | splicing at a valid index removes exactly that element (slices and multiset) |
| JsArray.SpliceMinusOne | routes/api/profile.js:213 | `splice(-1, 1)` drops the last element and leaves an empty array empty |
| JsString.TrimStart | routes/api/profile.js:67 | the result is a suffix whose removed prefix is all whitespace and which does not start with whitespace |
| JsString.TrimEnd | routes/api/profile.js:67 | the result is a prefix whose removed suffix is all whitespace and which does not end with whitespace |
| JsString.TrimStartEndSlice | routes/api/profile.js:67 | cutting leading then trailing whitespace leaves a slice of the input with only whitespace around it |
| JsString.Trim | routes/api/profile.js:67 | the result is the slice left after cutting whitespace on both sides, and neither end is whitespace |
| JsString.TrimKeepsOut | routes/api/profile.js:67 | trimming never introduces a character the string did not hold |
| JsString.TrimNoWhitespace | routes/api/profile.js:67 | a string without whitespace is its own trim |
| JsString.TrimIdempotent | routes/api/profile.js:67 | trimming twice equals trimming once |
| JsString.Split | routes/api/profile.js:67 | the number of pieces is the number of separators plus one and no piece holds the separator |
| JsString.SplitKeepsChars | routes/api/profile.js:67 | every character of a piece occurs in the split string |
| JsString.JoinSplit | routes/api/profile.js:67 | joining the pieces of a split with the separator gives back the string |
| JsString.SplitJoin | routes/api/profile.js:67 | splitting a join of separator-free pieces gives back the pieces |
| JsString.SplitNoSeparator | routes/api/profile.js:67 | a string without the separator splits into itself alone |
| JsString.SplitAppend | routes/api/profile.js:67 | splitting `a`, separator, `b` yields `a` followed by the pieces of `b` |
| Accounts.ValidEmail | routes/api/auth.js:28 | `isEmail()` on a field: a missing field fails, a present one passes exactly when the validator accepts it |
| Accounts.LeastOf | routes/api/users.js:27 | a non-empty id set has a member no larger than any other |
| Accounts.Least | routes/api/users.js:27 | the computed minimum is a member of the set and no larger than any member |
| Accounts.FindByEmail | routes/api/users.js:27 | none exactly when no user has the email; otherwise a user with that email, the earliest inserted one |
| Accounts.FindByUniqueEmail | routes/api/auth.js:39 | with unique emails the lookup of a stored user's email finds that user |
| Accounts.InsertKeepsEmailsUnique | routes/api/users.js:27-52 | storing a user whose email was not found keeps emails unique and makes the lookup find the new user |
| Accounts.RemoveKeepsEmailsUnique | routes/api/profile.js:141 | removing a user keeps emails unique |
| PostLists.HasLiked | routes/api/posts.js:111-113 | true exactly when some like in the list is the user's |
| PostLists.LikeIndex | routes/api/posts.js:145-147 | -1 exactly when the user has not liked, otherwise the position of the user's first like |
| PostLists.RemoveLike | routes/api/posts.js:145-148 | a dislike removes the user's first like and nothing else, in order |
| PostLists.WithoutAbsent | routes/api/posts.js:140-148 | removing the likes of a user who has none leaves the list unchanged |
| PostLists.LikeKeepsUnique | routes/api/posts.js:111-117 | appending the like of a user who had not liked keeps each liker once |
| PostLists.DislikeKeepsUnique | routes/api/posts.js:140-148 | a dislike keeps each liker once and leaves no like of the caller |
| PostLists.DislikeIsWithout | routes/api/posts.js:140-148 | on a duplicate-free list the dislike equals filtering out the caller's likes |
| PostLists.LikeThenDislike | routes/api/posts.js:111-148 | a like followed by a dislike from the same user restores the list |
| PostLists.CommentIndex | routes/api/posts.js:202-216 | -1 exactly when no comment has the id, otherwise the first comment with it |
| PostLists.RemoveComment | routes/api/posts.js:216-218 | the comment at the index is removed and the others keep their order (slices and multiset) |
| PostLists.AddThenDeleteComment | routes/api/posts.js:173-218 | a comment added at the front under a fresh id is found at 0 and deleting it restores the list |
| Store.Db.NewId | routes/api/users.js:52 | a fresh id is the counter value, the counter advances by one, the invariant is kept |
| PostsRoutes.CreatePost | routes/api/posts.js:12-37 | 400 without text, 500 when the caller's user is missing, otherwise a post under a fresh id with the caller's name and avatar and no likes or comments |
| PostsRoutes.InsertByDate | routes/api/posts.js:44 | inserting into a newest-first list keeps it newest first and adds exactly that post (length, membership and multiset) |
| PostsRoutes.PrependNewest | routes/api/posts.js:44 | a post no older than every post of a newest-first list may go in front of it |
| PostsRoutes.ListPosts | routes/api/posts.js:42-50 | the list holds every stored post, only stored posts, as many as are stored, newest first |
| PostsRoutes.GetPost | routes/api/posts.js:55-71 | 404 "Post not found" exactly when the id is not stored, otherwise that post |
| PostsRoutes.DeletePost | routes/api/posts.js:76-98 | 404 when missing, 401 when the caller is not the owner, otherwise the post is removed and nothing else changes |
| PostsRoutes.LikePost | routes/api/posts.js:103-127 | 404 when missing, 400 when already liked, otherwise the caller's like is appended and the new list returned |
| PostsRoutes.DislikePost | routes/api/posts.js:132-156 | 404 when missing, 400 when not liked, otherwise the caller's like is removed and the new list returned |
| PostsRoutes.AddComment | routes/api/posts.js:161-189 | 400 without text, 500 when user or post is missing, otherwise a comment with a fresh id at the front |
| PostsRoutes.DeleteComment | routes/api/posts.js:194-230 | 404 for a missing post or comment, 401 when the caller is not its author, otherwise exactly that comment is removed |
| ProfileFields.ProfileErrors | routes/api/profile.js:33-41 | no errors exactly when status and skills are present; each message exactly when its field is missing |
| ProfileFields.Skills | routes/api/profile.js:66-68 | one skill per comma-separated piece, each the trimmed piece, none holding a comma or outer whitespace |
| ProfileFields.SkillsJoin | routes/api/profile.js:67 | a skills string without whitespace is given back by joining its skills with commas |
| ProfileFields.IfTruthy | routes/api/profile.js:60-65 | a field is copied exactly when the request's value is truthy |
| ProfileFields.FieldsOf | routes/api/profile.js:57-76 | the fields object holds the caller and exactly the truthy request fields, skills transformed, social built the same way |
| ProfileFields.BuildProfileFields | routes/api/profile.js:57-76 | the step-by-step construction yields the fields object |
| ProfileFields.SetFields | routes/api/profile.js:82 | `$set` replaces each given field, keeps each absent one, replaces `social`, keeps the experience list |
| ProfileFields.NewProfile | routes/api/profile.js:88 | a new profile equals a `$set` of the fields on an empty profile |
| ProfileFields.Upsert | routes/api/profile.js:79-90 | only the caller's profile changes; an existing one keeps its experience, a new one has none |
| ProfileFields.UpsertIdempotent | routes/api/profile.js:79-90 | sending the same profile twice leaves what sending it once leaves |
| ProfileFields.ExperienceErrors | routes/api/profile.js:156-164 | no errors exactly when title, from and company are present; each message exactly when its field is missing |
| ProfileFields.ExperienceIndex | routes/api/profile.js:209-211 | -1 exactly when no entry has the id, otherwise the first entry with it |
| ProfileFields.RemoveExperience | routes/api/profile.js:209-213 | a present id removes exactly its entry; an absent id removes the last entry |
| ProfileFields.AddThenRemoveExperience | routes/api/profile.js:189-213 | an entry added at the front under a fresh id is the one its delete removes |
| ProfileRoutes.GetOwnProfile | routes/api/profile.js:13-25 | 400 exactly when the caller has no profile, otherwise the caller's profile |
| ProfileRoutes.UpsertProfile | routes/api/profile.js:30-95 | 400 with the validation messages, otherwise the profiles become the upsert of the caller's fields and the stored profile is returned |
| ProfileRoutes.ListProfiles | routes/api/profile.js:100-108 | the response holds exactly the stored profiles |
| ProfileRoutes.GetProfileByUser | routes/api/profile.js:113-130 | 400 "Profile not found" exactly when the user has no profile, otherwise that profile |
| ProfileRoutes.DeleteAccount | routes/api/profile.js:135-148 | the caller's profile and user are removed, nothing else, and "User deleted" is returned |
| ProfileRoutes.AddExperience | routes/api/profile.js:153-199 | 400 with the validation messages, 400 `Server Error` without a profile, otherwise the entry under a fresh id goes to the front |
| ProfileRoutes.DeleteExperience | routes/api/profile.js:204-222 | 500 without a profile, otherwise the experience list becomes its removal by the id |
| UsersRoutes.ValidatorLength | routes/api/users.js:17 | the length `isLength` measures is at most the character count, and equals it when no variation selector occurs |
| UsersRoutes.ValidatorLengthCount | routes/api/users.js:17 | the measured length is the character count less the number of U+FE0E and U+FE0F |
| UsersRoutes.LongEnough | routes/api/users.js:17 | a password passing `isLength({ min: 6 })` is present with at least 6 characters; 6 characters without variation selectors always pass |
| UsersRoutes.AstralCharactersCountOnce | routes/api/users.js:17 | three characters outside the Basic Multilingual Plane are too short, six are enough |
| UsersRoutes.RegisterErrors | routes/api/users.js:14-22 | no errors exactly when name is present, email valid and the password long enough by validator.js's count; each message exactly when its check fails |
| UsersRoutes.Register | routes/api/users.js:14-69 | 400 with the validation messages, 400 for a known email, otherwise the user with the hashed password under a fresh id, found by its email, and a token for that id |
| AuthRoutes.CurrentUser | routes/api/auth.js:13-21 | 200 with the caller's public fields, or null when the caller is not stored |
| AuthRoutes.LoginErrors | routes/api/auth.js:27-34 | no errors exactly when the email is valid and a password field exists |
| AuthRoutes.Login | routes/api/auth.js:27-70 | 400 on validation or unknown email, 401 on a rejected password; a token only for a stored user with that email whose hash accepts the password |
| AuthRoutes.RegisterThenLogin | routes/api/auth.js:39-61 | a newly registered user logs in with the registered password and gets a token for its own id |
| AuthRoutes.LoginSucceedsIff | routes/api/auth.js:39-61 | with unique emails, login succeeds exactly when a stored user has the email and its hash accepts the password |
| Scenarios.RegisterAndLogin | routes/api/users.js:27-60 | register gives a token for id 0, a second registration is refused, a wrong password gets 401, the right one the same token |
| Scenarios.OwnershipAndLikes | routes/api/posts.js:76-117 | another user cannot delete a post, may like it once but not twice, and the owner can delete it |

## Left out

- The `auth` middleware (middleware/auth.js is not part of this model): the caller's id is a parameter; token verification, expiry and tampering are not modelled.
- JWT signing: the token is the payload and its lifetime; the secret, the signature and the callback's error are not modelled.
- bcrypt internals: `hash` and `compare` are parameters; `genSalt` is reduced to its cost factor and the random bytes it draws, which are a parameter; a failing hash is not modelled.
- `gravatar.url` and express-validator's `isEmail` are parameters; a validation error is reduced to its message, without `param`, `location` and `value`.
- Mongoose `populate('user', ['name', 'avatar'])` on profiles: the profile is returned with its owner's id only.
- The catch-all 500 and 400 `Server Error` answers of failed database calls and the 404 or 400 answers for ids that are not valid ObjectIds: ids are numbers, and only the failures that come from dereferencing a missing document are modelled.
- Dates: the post's `date` is the parameter `now`; schema defaults other than empty lists (models/ is not part of this model) are not modelled.
- The GitHub proxy route `GET api/profile/github/:username` (routes/api/profile.js:227-250): it only forwards a network request.
- server.js: the Express wiring and the listening port.
- Concurrency: requests are modelled one after another; interleavings across `await` are not.
- Request values that are not strings (numbers, arrays, objects in the JSON body) are not modelled; every field is absent or a string, and `current` is absent or a boolean.
- ProfileRoutes.ListProfiles: returns the profiles as a set, so the order of `Profile.find()` is not stated.
- PostsRoutes.ListPosts: the order of posts with the same date is not stated.
- UsersRoutes.ValidatorLength: follows validator.js from version 13.6 on, which leaves out U+FE0E and U+FE0F; the package version is not part of this model, and older versions count those two characters.
- AuthRoutes.CurrentUser: the 400 `Something Went Wrong` answer of a failed lookup is not modelled.
- Accounts.FindByEmail: with several users sharing an email, the earliest inserted one is taken as the collection's natural order; the store keeps emails unique, so this does not arise through the handlers.
