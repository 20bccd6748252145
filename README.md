# Connectify: post and profile list edits, and the alert reducer

This project models the document-editing core of Connectify, a small
social-profile web application, and proves properties of it in Dafny.
It covers three parts:

- **Post routes** (`routes/api/posts.js`): create, read and delete a post;
  like and unlike it; add and delete comments. Each handler loads a post,
  checks a guard, edits the post's `likes` or `comments` list with `unshift`
  or with `indexOf` followed by `splice`, and writes the post back.
- **Profile routes** (`routes/api/profile.js`): build the `profileFields`
  map from the request body, with the skills string split on `,` and
  trimmed; create or update the caller's profile; read a profile; delete a
  profile together with its user; add and remove experience entries.
- **Alert reducer** (`client/src/reducers/alert.js`): the pure Redux
  reducer over the list of alerts.

The database is replaced by a `Database` object holding three maps: users,
profiles (keyed by the owning user's id) and posts (keyed by post id).
Each handler is a method that changes those maps and returns an `Outcome`.
The `Outcome` variants are Ok, ValidationError, AlreadyLiked, NotLiked,
NotFound, Unauthorized, BadRequest and ServerError. Each variant carries the
HTTP status and message the source sends. The list edits are pure functions
over sequences. They are built on exact models of JavaScript's
`Array.prototype.indexOf` and `splice(start, 1)`, including the rule that a
negative start counts back from the end.

Error paths follow the source:

- A post that cannot be found is dereferenced before any null check in
  like, unlike, comment and delete-comment, so those answer 500.
- In DELETE post, a malformed id is remapped to 404 through `err.kind`.
  A missing post with a well-formed id answers 500, because `post.user` is
  read at line 99 before the `!post` check at line 103.
- A caller whose user record is gone gets 500 from create-post and
  add-comment.

In two routes the code does something other than what the route evidently
intends. The model follows the code and adds a corrected handler for each,
listed under "## Findings":

- Delete-comment takes a `comment_id` (`routes/api/posts.js:235`) and
  finds that comment (lines 247-249), but then splices at the index of the
  caller's *first* comment (lines 261-265). So it can remove a different
  comment of the same author.
- Delete-experience takes an `exp_id` but does not check that
  `indexOf` found it (`routes/api/profile.js:255-259`). For an absent id
  the index is -1, and `splice(-1, 1)` removes the *last* entry.

Files: `wrappers.dfy` (Option), `js_array.dfy` (module JsArray),
`store.dfy` (module Store: entities, Outcome, Database), `posts.dfy`
(module Posts), `skills.dfy` (module Skills), `profile.dfy` (module
Profiles), `alert.dfy` (module AlertReducer).

## Model

| member | source | states |
|---|---|---|
| JsArray.IndexOf | routes/api/posts.js:178-180 | the result is -1 exactly when the value is absent; otherwise it is the first index holding the value |
| JsArray.SpliceOne | routes/api/posts.js:182 | `splice(start, 1)`: a start inside the array removes that element; -1 removes the last element; a start before the front removes the first; a start past the end changes nothing; the length drops by one exactly when something is removed |
| JsArray.SpliceAtIndexOf | routes/api/posts.js:178-182 | `splice(indexOf(x), 1)` with x present removes exactly the first element equal to x; the others keep their order |
| JsArray.SpliceAtMissingIndexDropsLast | routes/api/profile.js:255-259 | with x absent, `indexOf` gives -1 and `splice(-1, 1)` removes the last element of a non-empty array; an empty array stays empty |
| Store.Required | routes/api/posts.js:18 | a `not().isEmpty()` validator fails with exactly its message when the value is empty, and passes otherwise |
| Posts.LikesBy | routes/api/posts.js:134-137 | the filtered list holds only the caller's likes, and it is non-empty exactly when the caller has liked the post |
| Posts.LikeKeepsLikersUnique | routes/api/posts.js:134-141 | prepending a like for a user who has not liked the post keeps every user at most once in `likes` |
| Posts.UnlikeRemovesFirstLike | routes/api/posts.js:178-182 | unlike removes exactly the first like by the caller; the likes before and after it keep their order; the length drops by one |
| Posts.UnlikeKeepsLikersUnique | routes/api/posts.js:167-182 | on a one-like-per-user list, unlike leaves no like by the caller and keeps the list one-like-per-user |
| Posts.UnlikeUndoesLike | routes/api/posts.js:141-182 | unliking right after a first like gives back the original likes |
| Posts.UnlikeMiddleLike | routes/api/posts.js:178-182 | likes by A, B, C unliked by B leave A, C |
| Posts.FindComment | routes/api/posts.js:247-249 | `find` gives nothing exactly when no comment has the id; otherwise it gives the first comment with that id |
| Posts.DeleteCommentRemovesCallersFirst | routes/api/posts.js:261-265 | after the checks pass, exactly one comment is removed: the caller's first comment, at or before the requested one; the length drops by one |
| Posts.DeleteCommentHitsRequestedIffFirst | routes/api/posts.js:247-265 | the route removes the requested comment if and only if the caller has no earlier comment on the post |
| Posts.DeleteCommentRemovesWrongComment | routes/api/posts.js:247-265 | a concrete case: a caller with two comments who asks to delete the older one loses the newer one |
| Posts.RemoveCommentByIdExact | routes/api/posts.js:247-265 | the corrected deletion removes exactly the first comment with the requested id; when ids are unique, no comment with that id remains |
| Posts.DeleteUndoesComment | routes/api/posts.js:215-265 | deleting a comment just added by its author restores the comments, both as written and corrected |
| Posts.CreatePost | routes/api/posts.js:16-44 | empty text gives a "Text is required" validation error; a missing user record or a taken id gives a server error; otherwise the new post is stored with the caller as owner, the caller's name and avatar, and no likes or comments |
| Posts.GetPost | routes/api/posts.js:70-84 | a stored post is returned; anything else answers 404 "No Post found" |
| Posts.DeletePost | routes/api/posts.js:93-117 | a malformed id answers 404; a missing post with a well-formed id answers 500, since the 404 branch is unreachable for it; a non-owner gets 401 and the post stays; the owner removes exactly that post |
| Posts.LikePost | routes/api/posts.js:126-150 | a missing post gives 500; a caller who already liked gets "Post already liked" and the store is unchanged; otherwise exactly one like by the caller is prepended and nothing else changes |
| Posts.UnlikePost | routes/api/posts.js:159-191 | a missing post gives 500; a caller with no like gets "Post has not yet been liked" and the store is unchanged; otherwise the caller's first like is removed |
| Posts.AddComment | routes/api/posts.js:200-232 | empty text gives a validation error; a missing user or post gives 500; otherwise a comment is prepended with the caller as owner and the caller's name and avatar, and the old comments follow unchanged |
| Posts.DeleteComment | routes/api/posts.js:241-274 | no comment with the id gives 404 "Comment does not exist"; a comment owned by someone else gives 401; in both cases the store is unchanged; otherwise the caller's first comment is removed |
| Posts.DeleteCommentById | routes/api/posts.js:241-274 | the same checks, after which the requested comment itself is removed |
| Skills.Split | routes/api/profile.js:81 | `split(',')` gives at least one piece, and no piece contains a comma |
| Skills.SplitCount | routes/api/profile.js:81 | splitting gives the number of commas plus one pieces |
| Skills.JoinSplit | routes/api/profile.js:81 | joining the pieces with ',' gives back the input, so the pieces are in input order |
| Skills.SplitJoin | routes/api/profile.js:81 | splitting a join of comma-free pieces gives back the pieces |
| Skills.TrimShape | routes/api/profile.js:81 | `trim` removes a white-space prefix and suffix, and the result neither starts nor ends with white space |
| Skills.TrimUnique | routes/api/profile.js:81 | any cut that removes only white space from both ends and leaves no white space at either end equals `trim` |
| Skills.TrimIdempotent | routes/api/profile.js:81 | trimming twice is trimming once |
| Skills.ParseSkills | routes/api/profile.js:80-82 | the skills list has the number of commas plus one entries; entry i is the trimmed i-th piece; no entry has a comma or white space at either end |
| Profiles.ProfileFieldsPresence | routes/api/profile.js:72-92 | the field map always has `user` equal to the caller and a `social` map; each scalar field and each social link is present exactly when supplied with a truthy value, and then with that value |
| Profiles.BuildProfileFields | routes/api/profile.js:72-92 | the step-by-step build produces exactly the field map described above |
| Profiles.BuildSocial | routes/api/profile.js:87-92 | the `social` object holds exactly the supplied truthy links |
| Profiles.UpsertErrors | routes/api/profile.js:46-54 | validation fails exactly when `status` or `skills` is empty, naming each missing field |
| Profiles.ValidRequestSetsStatusAndSkills | routes/api/profile.js:46-82 | a request that passes validation sets `status` and a skills list of commas plus one entries |
| Profiles.Merge | routes/api/profile.js:98-102 | `$set` overwrites every key of the field map and keeps the other scalar fields; skills are replaced; `social` is replaced whole; experience is kept |
| Profiles.NewProfile | routes/api/profile.js:107-108 | a created profile holds the owner, the scalar fields, the parsed skills (none when skills were not supplied) and the social links of the field map, and no experience |
| Profiles.Populate | routes/api/profile.js:17-20 | the view joins the owner's name and avatar when the user record exists |
| Profiles.GetMyProfile | routes/api/profile.js:15-32 | the caller's profile is returned with its owner; without a profile the answer is 400 "There is no profile for this user" |
| Profiles.GetProfileByUser | routes/api/profile.js:143-159 | the user's profile is returned with its owner; otherwise the answer is 400 "Profile not found" |
| Profiles.UpsertProfile | routes/api/profile.js:41-117 | a failed validation leaves the profiles unchanged; otherwise an existing profile of the caller is merged and a missing one is created; afterwards the caller has exactly one profile, filed under the caller and owned by the caller, and no other profile changes |
| Profiles.DeleteProfile | routes/api/profile.js:168-181 | removes the caller's profile and user record, always answers "User Deleted", and leaves posts untouched |
| Profiles.ExperienceErrors | routes/api/profile.js:195-205 | validation fails exactly when title, from or company is empty, naming each missing field |
| Profiles.RemoveExperiencePresent | routes/api/profile.js:255-259 | a present id removes exactly the first entry with that id; the other entries keep their order |
| Profiles.RemoveExperienceAbsentDropsLast | routes/api/profile.js:255-259 | an absent id removes the last entry of a non-empty list; an empty list stays empty |
| Profiles.RemoveMissingExperienceExample | routes/api/profile.js:255-259 | a concrete case: entries e1, e2 and a request for e3 leave only e1 |
| Profiles.RemoveExperienceCheckedExact | routes/api/profile.js:255-259 | the corrected removal reports an absent id instead of deleting; otherwise it removes exactly the first entry with the id |
| Profiles.RemoveUndoesAddExperience | routes/api/profile.js:226-259 | removing the entry just added restores the list, both as written and corrected |
| Profiles.AddExperience | routes/api/profile.js:190-240 | a failed validation or a missing profile leaves the store unchanged, with 400 or 500; otherwise the new entry is prepended and the old entries follow unchanged |
| Profiles.DeleteExperience | routes/api/profile.js:249-268 | a missing profile gives 500; otherwise the experience list becomes `splice(indexOf(id), 1)` of the old one, and nothing else changes |
| Profiles.DeleteExperienceChecked | routes/api/profile.js:249-268 | the corrected route: an absent id answers 404 and leaves the profile unchanged; a present id removes its entry |
| AlertReducer.Without | client/src/reducers/alert.js:24 | the filtered list is no longer than the old state and holds no alert with the removed id |
| AlertReducer.Reduce | client/src/reducers/alert.js:17-30 | SET_ALERT appends the payload after the unchanged old state; REMOVE_ALERT leaves no alert with the id; any other action returns the state unchanged |
| AlertReducer.ReduceOrInit | client/src/reducers/alert.js:15-17 | an undefined state starts as the empty list |
| AlertReducer.RemoveAlertExact | client/src/reducers/alert.js:24 | REMOVE_ALERT keeps every alert whose id differs, as often as before and in the original order, and drops every alert with the id |
| AlertReducer.RemoveAbsentIsIdentity | client/src/reducers/alert.js:24 | removing an id no alert has returns the state unchanged |
| AlertReducer.RemoveAlertIdempotent | client/src/reducers/alert.js:24 | REMOVE_ALERT twice with one id equals REMOVE_ALERT once |
| AlertReducer.SetThenRemoveRestores | client/src/actions/alert.js:12-22 | SET_ALERT of an alert with a fresh id followed by REMOVE_ALERT of that id restores the state, as in one `setAlert` call |
| AlertReducer.RemoveAlertsCommute | client/src/reducers/alert.js:24 | two REMOVE_ALERT actions give the same state in either order, as pending timeouts may fire in any order |

## Findings

| source | as written | input that shows it | evidently intended | confidence | as-written member | corrected member |
|---|---|---|---|---|---|---|
| routes/api/posts.js:261-265 | after checking that the requested comment is the caller's, removes the caller's first comment, found with `indexOf` over comment authors | the caller has comments c2 (newer) and c1; deleting c1 removes c2 and keeps c1 | remove the comment with the requested id | high; not executed | Posts.DeleteCommentRemovesWrongComment | Posts.DeleteCommentById |
| routes/api/profile.js:255-259 | an id no entry has makes `indexOf` return -1, and `splice(-1, 1)` deletes the last entry | entries e1, e2; a request to delete e3 leaves only e1 | leave the list unchanged and answer "not found" | high; not executed | Profiles.RemoveMissingExperienceExample | Profiles.DeleteExperienceChecked |

## Left out

- Authentication (`middleware/auth.js`, JSON Web Token signing and
  verification): every handler takes the caller's id as a parameter.
- Registration and login (`routes/api/users.js`, `routes/api/auth.js`):
  they consist of password hashing, avatar URL generation and token
  signing, which are calls into libraries.
- GET /api/posts (all posts, newest first): the order comes from a
  database sort over creation dates (`routes/api/posts.js:55`), and those
  dates come from the clock.
- GET /api/profile (all profiles, `routes/api/profile.js:126-134`): it
  returns every profile, populated, in the database's natural order. A
  map has no such order.
- Dates (`date` fields) are clock values and are not modelled.
- Generated ids for posts, comments and experience entries are
  parameters. CreatePost requires its new id to be a well-formed ObjectId,
  as the id generator guarantees. The model does not assume comment or
  experience ids are fresh.
- Store.IsObjectId treats exactly the 24-hex-digit strings as castable.
  The driver's acceptance of other 12-character strings as raw ObjectIds
  is not modelled.
- Request bodies are strings, and "" stands for an absent or falsy value.
  The one exception is the experience `current` flag, which is a `bool`.
  Other non-string JSON values in the body, such as numbers or arrays,
  are not modelled.
- The caller id from a token is assumed well-formed. A malformed caller
  id would make the database lookups throw, which is not modelled.
- Profiles.Merge: `social` is replaced as a whole by `$set`. Merging
  social links key by key is not what the update does.
- Mongoose sub-document `_id` values on likes are not modelled, because
  the handlers never read them.
- The JSON bodies of the answers are not modelled beyond the returned
  list, profile or post, the message and the status.
- Concurrent requests on the same document (a read-modify-write race) are
  not modelled: each handler runs as one atomic step.
- Express routing, response plumbing, React components, Redux store
  wiring, server bootstrap, and the timer and random id in
  `client/src/actions/alert.js`: only the SET_ALERT / REMOVE_ALERT pair
  they produce is modelled.
