/** The documents the REST handlers work on, the responses they send, and
    the in-memory store that stands in for the document database. */
module Store {
  import opened Wrappers

  /** Document identifiers and user ids, as the strings the handlers compare. */
  type Id = string

  predicate IsHexDigit(c: char) {
    '0' <= c <= '9' || 'a' <= c <= 'f' || 'A' <= c <= 'F'
  }

  /** An id the database can cast to an ObjectId: 24 hexadecimal digits.
      Looking a document up by any other string fails with a cast error
      whose `kind` is 'ObjectId'. */
  predicate IsObjectId(s: string) {
    |s| == 24 && forall i :: 0 <= i < |s| ==> IsHexDigit(s[i])
  }

  /** A registered user; only the fields the handlers read are kept. */
  datatype User = User(name: string, email: string, avatar: string)

  /** One like on a post: the id of the user who liked it. */
  datatype Like = Like(user: Id)

  /** A comment, with a snapshot of its author's name and avatar. */
  datatype Comment = Comment(id: Id, user: Id, text: string, name: string, avatar: string)

  /** A post, with a snapshot of its author's name and avatar; likes and
      comments are kept newest first. */
  datatype Post = Post(user: Id, text: string, name: string, avatar: string,
                       likes: seq<Like>, comments: seq<Comment>)

  /** One experience entry of a profile. */
  datatype Experience = Experience(id: Id, title: string, company: string, location: string,
                                   from: string, to: string, current: bool, description: string)

  /** A profile: the scalar fields (company, website, location, bio,
      status, githubusername) that have been set, the skills list, the
      social links, and the experience entries, newest first. */
  datatype Profile = Profile(user: Id, fields: map<string, string>, skills: seq<string>,
                             social: map<string, string>, experience: seq<Experience>)

  /** What a handler answers. `Ok` carries the JSON body of a 200 answer. */
  datatype Outcome<T> =
    | Ok(value: T)
    | ValidationError(errors: seq<string>)
    | AlreadyLiked
    | NotLiked
    | NotFound(msg: string)
    | Unauthorized
    | BadRequest(msg: string)
    | ServerError
  {
    /** The HTTP status code the handler sends. */
    function Status(): int {
      match this
      case Ok(_) => 200
      case ValidationError(_) => 400
      case AlreadyLiked => 400
      case NotLiked => 400
      case NotFound(_) => 404
      case Unauthorized => 401
      case BadRequest(_) => 400
      case ServerError => 500
    }

    /** The `msg` (or plain-text body) sent with a failure. */
    function Message(): string {
      match this
      case Ok(_) => ""
      case ValidationError(_) => ""
      case AlreadyLiked => "Post already liked"
      case NotLiked => "Post has not yet been liked"
      case NotFound(m) => m
      case Unauthorized => "User not authorized"
      case BadRequest(m) => m
      case ServerError => "Server Error"
    }
  }

  /** The error list of one `check(field, msg).not().isEmpty()` validator:
      an absent or empty value fails with `msg`. */
  function Required(value: string, msg: string): (errs: seq<string>)
    ensures errs == [] <==> value != ""
    ensures errs != [] ==> errs == [msg]
  {
    if value == "" then [msg] else []
  }

  /** No user appears twice among a post's likes. */
  ghost predicate UniqueLikers(likes: seq<Like>) {
    forall i, j :: 0 <= i < j < |likes| ==> likes[i].user != likes[j].user
  }

  /** The three collections, each keyed by document id (profiles by the id
      of the user they belong to). */
  class Database {
    var users: map<Id, User>
    var profiles: map<Id, Profile>
    var posts: map<Id, Post>

    /** Every stored post has a castable id and at most one like per user;
        every profile is filed under its own user. */
    ghost predicate Valid()
      reads this
    {
      && (forall id :: id in posts ==> IsObjectId(id))
      && (forall id :: id in posts ==> UniqueLikers(posts[id].likes))
      && (forall u :: u in profiles ==> profiles[u].user == u)
    }

    constructor (users: map<Id, User>)
      ensures Valid()
      ensures this.users == users && profiles == map[] && posts == map[]
    {
      this.users := users;
      profiles := map[];
      posts := map[];
    }
  }
}
