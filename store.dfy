/** The MongoDB collections the handlers read and write (`users`, `videos`, `comments`,
    `likes`, `subscriptions`), each a table from id to record, and the queries the
    aggregation pipelines run over them. */
module Store {
  import opened Base
  import Jwt

  /** A document of `users`. `password` stands for the salted hash the unseen model stores;
      `refreshToken` is the single stored refresh token, absent after logout. */
  datatype User = User(
    username: string,
    email: string,
    fullname: string,
    password: string,
    avatar: string,
    coverImage: string,
    refreshToken: Option<string>,
    watchHistory: seq<Id>)

  /** A user as `select("-password -refreshToken")` returns it: it has no field for either. */
  datatype PublicUser = PublicUser(
    id: Id,
    username: string,
    email: string,
    fullname: string,
    avatar: string,
    coverImage: string,
    watchHistory: seq<Id>)

  function Public(id: Id, u: User): (p: PublicUser)
    ensures p.id == id && p.username == u.username && p.email == u.email
    ensures p.fullname == u.fullname && p.avatar == u.avatar && p.coverImage == u.coverImage
    ensures p.watchHistory == u.watchHistory
  {
    PublicUser(id, u.username, u.email, u.fullname, u.avatar, u.coverImage, u.watchHistory)
  }

  /** A file held by the media store: its URL and its `public_id`. */
  datatype Asset = Asset(url: string, publicId: string)

  /** What `uploadOnCloudinary` returned: the stored file and, for a video, its duration. */
  datatype Upload = Upload(url: string, publicId: string, duration: nat) {
    function AsAsset(): Asset {
      Asset(url, publicId)
    }
  }

  /** A file field of a multipart request: not sent, sent but the upload failed, or
      uploaded. */
  datatype FileUpload = NoFile | UploadFailed | Uploaded(upload: Upload)

  /** A document of `videos`. `createdAt` is the creation timestamp. */
  datatype Video = Video(
    title: string,
    description: string,
    duration: nat,
    videoFile: Asset,
    thumbnail: Asset,
    owner: Id,
    views: nat,
    isPublished: bool,
    createdAt: nat)

  /** A document of `comments` (backend/src/models/comment.models.js). */
  datatype Comment = Comment(content: string, video: Id, owner: Id, createdAt: nat)

  /** A document of `likes`: the liked video or comment, under the field names the lookups
      use, and the liking user. */
  datatype Like = Like(video: Option<Id>, comment: Option<Id>, likedBy: Id)

  /** A document of `subscriptions`: `subscriber` follows `channel`. */
  datatype Subscription = Subscription(channel: Id, subscriber: Id)

  /** The whole store, with the two counters the model adds: the next fresh ObjectId and the
      serial of the next token issued. */
  datatype State = State(
    users: map<Id, User>,
    videos: map<Id, Video>,
    comments: map<Id, Comment>,
    likes: map<Id, Like>,
    subscriptions: map<Id, Subscription>,
    nextId: nat,
    nextSerial: nat)

  predicate KeysBelow<T>(m: map<Id, T>, n: nat) {
    forall k :: k in m ==> k < n
  }

  /** A stored refresh token, if it verifies at all, was issued before serial `n`. */
  predicate IssuedBefore(token: Option<string>, n: nat) {
    match token
    case None => true
    case Some(t) =>
      match Jwt.Verify(t, Jwt.RefreshTokenSecret)
      case None => true
      case Some(c) => c.serial < n
  }

  /** The invariant every handler keeps: ids handed out so far are below `nextId`, and every
      stored refresh token was issued before `nextSerial`. */
  predicate Consistent(s: State) {
    && KeysBelow(s.users, s.nextId)
    && KeysBelow(s.videos, s.nextId)
    && KeysBelow(s.comments, s.nextId)
    && KeysBelow(s.likes, s.nextId)
    && KeysBelow(s.subscriptions, s.nextId)
    && forall k :: k in s.users ==> IssuedBefore(s.users[k].refreshToken, s.nextSerial)
  }

  /** The database connection: every table is a field the handlers reassign. */
  class Database {
    var users: map<Id, User>
    var videos: map<Id, Video>
    var comments: map<Id, Comment>
    var likes: map<Id, Like>
    var subscriptions: map<Id, Subscription>
    var nextId: nat
    var nextSerial: nat

    function Snapshot(): State
      reads this
    {
      State(users, videos, comments, likes, subscriptions, nextId, nextSerial)
    }

    predicate Valid()
      reads this
    {
      Consistent(Snapshot())
    }

    constructor ()
      ensures Valid()
      ensures Snapshot() == State(map[], map[], map[], map[], map[], 0, 0)
    {
      users, videos, comments, likes, subscriptions := map[], map[], map[], map[], map[];
      nextId, nextSerial := 0, 0;
    }
  }

  /** The likes whose `video` is `video`: the `$lookup` of likes on `foreignField: "video"`. */
  function LikesOfVideo(likes: map<Id, Like>, video: Id): (r: set<Id>)
  {
    set k | k in likes && likes[k].video == Some(video)
  }

  /** The likes whose `comment` is `comment`. */
  function LikesOfComment(likes: map<Id, Like>, comment: Id): (r: set<Id>)
  {
    set k | k in likes && likes[k].comment == Some(comment)
  }

  /** `$in: [viewer, "$likes.likedBy"]` over the likes `keys`. */
  predicate LikedBy(likes: map<Id, Like>, keys: set<Id>, viewer: Option<Id>) {
    viewer.Some? && exists k :: k in keys && k in likes && likes[k].likedBy == viewer.value
  }

  /** The subscriptions whose `channel` is `channel`: the channel's subscribers. */
  function SubscribersOf(subs: map<Id, Subscription>, channel: Id): (r: set<Id>)
  {
    set k | k in subs && subs[k].channel == channel
  }

  /** The subscriptions whose `subscriber` is `user`: the channels the user follows. */
  function SubscriptionsBy(subs: map<Id, Subscription>, user: Id): (r: set<Id>)
  {
    set k | k in subs && subs[k].subscriber == user
  }

  /** `$in: [viewer, "$subscribers.subscriber"]`: the viewer follows `channel`. */
  predicate Subscribed(subs: map<Id, Subscription>, channel: Id, viewer: Option<Id>) {
    viewer.Some? && exists k :: k in subs && subs[k].channel == channel && subs[k].subscriber == viewer.value
  }
}
