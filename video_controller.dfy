/** The single-video handlers of backend/src/controllers/video.controller.js: publishing,
    the detail view with its two side effects, and the owner-guarded update, delete and
    publish toggle. */
module VideoController {
  import opened Base
  import opened Text
  import opened Store

  const AllFieldsRequired: string := "All fields are required"
  const VideoPathRequired: string := "videoFileLocalPath is required"
  /** What reading `[0]` of a field `req.files` lacks throws. */
  const MissingFieldTypeError: string := "TypeError: Cannot read properties of undefined (reading '0')"
  const VideoFileNotFound: string := "Videos file not found"
  const ThumbnailNotFound: string := "Thumbnail not found"
  const InvalidVideoId: string := "Invalid videoId"
  const InvalidUserId: string := "Invalid userId"
  const TitleAndDescriptionRequired: string := "title and description are required"
  const NoVideoFound: string := "No video found"
  const NotOwnerEdit: string := "You can't edit this video as you are not the owner"
  const ThumbnailRequired: string := "thumbnail is required"
  const UploadedThumbnailNotFound: string := "thumbnail not found"
  const NotOwnerDelete: string := "You can't delete this video as you are not the owner"
  const VideosNotFound: string := "Videos not found"
  const NotOwnerToggle: string := "You can't toogle publish status as you are not the owner"

  // ---------------------------------------------------------------- publish

  /** The record `Videos.create` stores: unpublished, owned by the caller, not yet viewed. */
  function NewVideo(title: string, description: string, file: Upload, thumbnail: Upload, owner: Id, now: nat)
    : (v: Video)
    ensures !v.isPublished && v.owner == owner && v.views == 0 && v.createdAt == now
    ensures v.title == title && v.description == description && v.duration == file.duration
    ensures v.videoFile == Asset(file.url, file.publicId) && v.thumbnail == Asset(thumbnail.url, thumbnail.publicId)
  {
    Video(title, description, file.duration, file.AsAsset(), thumbnail.AsAsset(), owner, 0, false, now)
  }

  /** The `req.files` object of a publish request: absent when the request carries no file
      at all, otherwise what each of the two fields received (`NoFile` when the field is
      missing from the object). */
  datatype PublishFiles = NoFiles | Fields(videoFile: FileUpload, thumbnail: FileUpload)

  /** The first failure `publishAVideo` meets, in the order it checks: blank fields, then the
      two local paths, then the two uploads. Both paths are read before either is checked:
      without `req.files` both are undefined and the video-path check fires; with it, a
      missing field throws a TypeError, so the thumbnail-path check is never reached. */
  function PublishError(title: string, description: string, files: PublishFiles)
    : (e: Option<ApiError>)
    ensures (Blank(title) || Blank(description)) <==> e == Some(Fail(400, AllFieldsRequired))
    ensures !Blank(title) && !Blank(description) && files.NoFiles? <==> e == Some(Fail(400, VideoPathRequired))
    ensures (e.Some? && e.value.Thrown?) <==>
      !Blank(title) && !Blank(description) && files.Fields? && (files.videoFile.NoFile? || files.thumbnail.NoFile?)
    ensures e.None? <==>
      !Blank(title) && !Blank(description) && files.Fields? && files.videoFile.Uploaded? && files.thumbnail.Uploaded?
    ensures e.Some? && e.value.Fail? ==> e.value.status == 400
    ensures (!Blank(title) && !Blank(description) && files.Fields? && files.videoFile.UploadFailed?
             && !files.thumbnail.NoFile?) ==> e == Some(Fail(400, VideoFileNotFound))
    ensures (!Blank(title) && !Blank(description) && files.Fields? && files.videoFile.Uploaded?
             && files.thumbnail.UploadFailed?) ==> e == Some(Fail(400, ThumbnailNotFound))
  {
    if Blank(title) || Blank(description) then Some(Fail(400, AllFieldsRequired))
    else if files.NoFiles? then Some(Fail(400, VideoPathRequired))
    else if files.videoFile.NoFile? || files.thumbnail.NoFile? then Some(Thrown(MissingFieldTypeError))
    else if files.videoFile.UploadFailed? then Some(Fail(400, VideoFileNotFound))
    else if files.thumbnail.UploadFailed? then Some(Fail(400, ThumbnailNotFound))
    else None
  }

  /** `publishAVideo`: on success a new unpublished video owned by the caller is stored
      under a fresh id; nothing else changes. */
  method PublishAVideo(db: Database, caller: Id, title: string, description: string,
                       files: PublishFiles, now: nat)
    returns (r: Result<(Id, Video)>)
    requires db.Valid()
    modifies db
    ensures db.Valid()
    ensures r.Err? <==> PublishError(title, description, files).Some?
    ensures r.Err? ==>
      r.error == PublishError(title, description, files).value && db.Snapshot() == old(db.Snapshot())
    ensures r.Ok? ==>
      var v := NewVideo(title, description, files.videoFile.upload, files.thumbnail.upload, caller, now);
      && r.value == (old(db.nextId), v)
      && old(db.nextId) !in old(db.videos)
      && db.Snapshot() == old(db.Snapshot()).(videos := old(db.videos)[old(db.nextId) := v], nextId := old(db.nextId) + 1)
  {
    if Blank(title) || Blank(description) {
      return Err(Fail(400, AllFieldsRequired));
    }
    if files.NoFiles? {
      return Err(Fail(400, VideoPathRequired));
    }
    var file, thumbnail := files.videoFile, files.thumbnail;
    if file.NoFile? || thumbnail.NoFile? {
      return Err(Thrown(MissingFieldTypeError));
    }
    if file.UploadFailed? {
      return Err(Fail(400, VideoFileNotFound));
    }
    if thumbnail.UploadFailed? {
      return Err(Fail(400, ThumbnailNotFound));
    }
    var id := db.nextId;
    var v := NewVideo(title, description, file.upload, thumbnail.upload, caller, now);
    db.videos := db.videos[id := v];
    db.nextId := id + 1;
    r := Ok((id, v));
  }

  // ---------------------------------------------------------------- detail

  /** The owner as the detail's nested lookup projects it. */
  datatype OwnerProfile = OwnerProfile(id: Id, username: string, subscribersCount: nat, isSubscribed: bool)

  /** The projected detail document (`$project` keeps `_id`; `videoFile.url` of the stored
      file; the schema has no `comments` field, so that projection selects nothing). */
  datatype VideoDetail = VideoDetail(
    id: Id,
    videoFileUrl: string,
    title: string,
    description: string,
    views: nat,
    createdAt: nat,
    duration: nat,
    owner: Option<OwnerProfile>,
    likesCount: nat,
    isLiked: bool)

  /** The owner profile of the nested lookup: the owner's subscribers (subscriptions whose
      `channel` is the owner) counted, and whether the viewer is among them. */
  function ProfileOf(s: State, owner: Id, viewer: Id): (r: Option<OwnerProfile>)
    ensures r.Some? <==> owner in s.users
    ensures r.Some? ==> r.value.id == owner && r.value.username == s.users[owner].username
    ensures r.Some? ==> r.value.subscribersCount == |SubscribersOf(s.subscriptions, owner)|
    ensures r.Some? ==> (r.value.isSubscribed <==>
      exists k :: k in s.subscriptions && s.subscriptions[k].channel == owner && s.subscriptions[k].subscriber == viewer)
  {
    if owner !in s.users then None
    else Some(OwnerProfile(owner, s.users[owner].username, |SubscribersOf(s.subscriptions, owner)|,
                           Subscribed(s.subscriptions, owner, Some(viewer))))
  }

  /** The aggregate's first element: the video, its likes counted, whether the viewer liked
      it, and its owner's profile. `None` when no video has that id. */
  function DetailOf(s: State, id: Id, viewer: Id): (r: Option<VideoDetail>)
    ensures r.Some? <==> id in s.videos
    ensures r.Some? ==>
      var v := s.videos[id];
      && r.value.id == id && r.value.title == v.title && r.value.description == v.description
      && r.value.views == v.views && r.value.createdAt == v.createdAt && r.value.duration == v.duration
      && r.value.videoFileUrl == v.videoFile.url
      && r.value.owner == ProfileOf(s, v.owner, viewer)
      && r.value.likesCount == |LikesOfVideo(s.likes, id)|
      && (r.value.isLiked <==> exists k :: k in s.likes && s.likes[k].video == Some(id) && s.likes[k].likedBy == viewer)
  {
    if id !in s.videos then None
    else
      var v := s.videos[id];
      var likes := LikesOfVideo(s.likes, id);
      Some(VideoDetail(id, v.videoFile.url, v.title, v.description, v.views, v.createdAt, v.duration,
                       ProfileOf(s, v.owner, viewer), |likes|, LikedBy(s.likes, likes, Some(viewer))))
  }

  /** `$inc: { views: 1 }` on video `id`; a missing video is left missing. */
  function IncrementViews(videos: map<Id, Video>, id: Id): (r: map<Id, Video>)
    ensures r.Keys == videos.Keys
    ensures id in videos ==> r[id] == videos[id].(views := videos[id].views + 1)
    ensures forall k :: k in videos && k != id ==> r[k] == videos[k]
  {
    if id in videos then videos[id := videos[id].(views := videos[id].views + 1)] else videos
  }

  /** `$addToSet: { watchHistory: videoId }`: appended unless already present. */
  function AddToSet(history: seq<Id>, id: Id): (r: seq<Id>)
    ensures id in r
    ensures forall x :: x in r <==> x in history || x == id
    ensures id in history ==> r == history
    ensures id !in history ==> r == history + [id]
  {
    if id in history then history else history + [id]
  }

  /** The watch history of user `user` gains `id`; a missing user is left missing. */
  function AddToWatchHistory(users: map<Id, User>, user: Id, id: Id): (r: map<Id, User>)
    ensures r.Keys == users.Keys
    ensures user in users ==> r[user] == users[user].(watchHistory := AddToSet(users[user].watchHistory, id))
    ensures forall k :: k in users && k != user ==> r[k] == users[k]
  {
    if user in users then users[user := users[user].(watchHistory := AddToSet(users[user].watchHistory, id))]
    else users
  }

  predicate NoDuplicates(s: seq<Id>) {
    forall i, j :: 0 <= i < j < |s| ==> s[i] != s[j]
  }

  /** The set semantics of `$addToSet`: a second add changes nothing, and a history without
      duplicates keeps none. */
  lemma AddToSetIsSetInsert(history: seq<Id>, id: Id)
    ensures AddToSet(AddToSet(history, id), id) == AddToSet(history, id)
    ensures NoDuplicates(history) ==> NoDuplicates(AddToSet(history, id))
  {
  }

  lemma WatchHistoryIdempotent(users: map<Id, User>, user: Id, id: Id)
    ensures AddToWatchHistory(AddToWatchHistory(users, user, id), user, id) == AddToWatchHistory(users, user, id)
  {
    AddToSetIsSetInsert(if user in users then users[user].watchHistory else [], id);
  }

  /** `getVideoById`: a malformed video id or a caller without a valid id fails 400 with no
      change. Otherwise the detail is read first, then the views of that video rise by one
      and the id joins the caller's watch history; the emptiness check on the aggregate's
      array never fails, so both happen even when no video has that id. */
  method GetVideoById(db: Database, videoId: RawId, caller: Option<Id>) returns (r: Result<Option<VideoDetail>>)
    requires db.Valid()
    modifies db
    ensures db.Valid()
    ensures videoId.Malformed? <==> r == Err(Fail(400, InvalidVideoId))
    ensures videoId.ObjectId? && caller.None? <==> r == Err(Fail(400, InvalidUserId))
    ensures r.Ok? <==> videoId.ObjectId? && caller.Some?
    ensures r.Err? ==> db.Snapshot() == old(db.Snapshot())
    ensures r.Ok? ==>
      && r.value == DetailOf(old(db.Snapshot()), videoId.id, caller.value)
      && db.Snapshot() == old(db.Snapshot()).(
           videos := IncrementViews(old(db.videos), videoId.id),
           users := AddToWatchHistory(old(db.users), caller.value, videoId.id))
  {
    if videoId.Malformed? {
      return Err(Fail(400, InvalidVideoId));
    }
    if caller.None? {
      return Err(Fail(400, InvalidUserId));
    }
    var id, viewer := videoId.id, caller.value;
    var detail := DetailOf(db.Snapshot(), id, viewer);
    db.videos := IncrementViews(db.videos, id);
    db.users := AddToWatchHistory(db.users, viewer, id);
    r := Ok(detail);
  }

  /** Two views of a video raise its count by two; the history holds it once. */
  lemma TwoViews(users: map<Id, User>, videos: map<Id, Video>, user: Id, id: Id)
    requires id in videos && user in users
    ensures IncrementViews(IncrementViews(videos, id), id)[id].views == videos[id].views + 2
    ensures AddToWatchHistory(AddToWatchHistory(users, user, id), user, id)[user].watchHistory
         == AddToSet(users[user].watchHistory, id)
  {
    WatchHistoryIdempotent(users, user, id);
  }

  /** A request for an id no video has still records it in the caller's history. */
  lemma MissingVideoEntersHistory(s: State, user: Id, id: Id)
    requires id !in s.videos && user in s.users
    ensures DetailOf(s, id, user).None?
    ensures id in AddToWatchHistory(s.users, user, id)[user].watchHistory
    ensures IncrementViews(s.videos, id) == s.videos
  {
  }

  /** A new like on the video by the viewer adds one to `likesCount` and sets `isLiked`. */
  lemma NewLikeCounts(s: State, k: Id, id: Id, viewer: Id)
    requires id in s.videos && k !in s.likes
    ensures var s' := s.(likes := s.likes[k := Like(Some(id), None, viewer)]);
      && DetailOf(s', id, viewer).value.likesCount == DetailOf(s, id, viewer).value.likesCount + 1
      && DetailOf(s', id, viewer).value.isLiked
  {
    var likes' := s.likes[k := Like(Some(id), None, viewer)];
    assert LikesOfVideo(likes', id) == LikesOfVideo(s.likes, id) + {k};
  }

  // ---------------------------------------------------------------- update

  /** `$set: { title, description, thumbnail }`: only those three fields change. */
  function EditVideo(v: Video, title: string, description: string, thumbnail: Upload): (r: Video)
    ensures r.title == title && r.description == description && r.thumbnail == thumbnail.AsAsset()
    ensures r.(title := v.title, description := v.description, thumbnail := v.thumbnail) == v
  {
    v.(title := title, description := description, thumbnail := thumbnail.AsAsset())
  }

  /** The first failure `updateVideo` meets. */
  function UpdateError(videos: map<Id, Video>, caller: Id, videoId: RawId,
                       title: Option<string>, description: Option<string>, thumbnail: FileUpload)
    : (e: Option<ApiError>)
    ensures e.None? <==>
      && videoId.ObjectId? && Truthy(title) && Truthy(description) && videoId.id in videos
      && videos[videoId.id].owner == caller && thumbnail.Uploaded?
    ensures videoId.ObjectId? && Truthy(title) && Truthy(description) && videoId.id !in videos ==>
      e == Some(Fail(404, NoVideoFound))
    ensures (videoId.ObjectId? && Truthy(title) && Truthy(description) && videoId.id in videos
      && videos[videoId.id].owner != caller) ==> e == Some(Fail(400, NotOwnerEdit))
    ensures e.Some? && e.value != Fail(404, NoVideoFound) ==> e.value.Fail? && e.value.status == 400
  {
    if videoId.Malformed? then Some(Fail(400, InvalidVideoId))
    else if !(Truthy(title) && Truthy(description)) then Some(Fail(400, TitleAndDescriptionRequired))
    else if videoId.id !in videos then Some(Fail(404, NoVideoFound))
    else if videos[videoId.id].owner != caller then Some(Fail(400, NotOwnerEdit))
    else if thumbnail.NoFile? then Some(Fail(400, ThumbnailRequired))
    else if thumbnail.UploadFailed? then Some(Fail(400, UploadedThumbnailNotFound))
    else None
  }

  /** `updateVideo`: the owner replaces title, description and thumbnail; every failure
      leaves the store as it was. */
  method UpdateVideo(db: Database, caller: Id, videoId: RawId, title: Option<string>, description: Option<string>,
                     thumbnail: FileUpload)
    returns (r: Result<Video>)
    requires db.Valid()
    modifies db
    ensures db.Valid()
    ensures r.Err? <==> UpdateError(old(db.videos), caller, videoId, title, description, thumbnail).Some?
    ensures r.Err? ==>
      r.error == UpdateError(old(db.videos), caller, videoId, title, description, thumbnail).value && db.Snapshot() == old(db.Snapshot())
    ensures r.Ok? ==>
      var v := EditVideo(old(db.videos)[videoId.id], title.value, description.value, thumbnail.upload);
      && r.value == v
      && db.Snapshot() == old(db.Snapshot()).(videos := old(db.videos)[videoId.id := v])
  {
    if videoId.Malformed? {
      return Err(Fail(400, InvalidVideoId));
    }
    if !(Truthy(title) && Truthy(description)) {
      return Err(Fail(400, TitleAndDescriptionRequired));
    }
    var id := videoId.id;
    if id !in db.videos {
      return Err(Fail(404, NoVideoFound));
    }
    if db.videos[id].owner != caller {
      return Err(Fail(400, NotOwnerEdit));
    }
    if thumbnail.NoFile? {
      return Err(Fail(400, ThumbnailRequired));
    }
    if thumbnail.UploadFailed? {
      return Err(Fail(400, UploadedThumbnailNotFound));
    }
    var v := EditVideo(db.videos[id], title.value, description.value, thumbnail.upload);
    db.videos := db.videos[id := v];
    r := Ok(v);
  }

  // ---------------------------------------------------------------- delete

  /** The table without the records `drop` selects. */
  function WithoutLikesOfVideo(likes: map<Id, Like>, id: Id): (r: map<Id, Like>)
  {
    map k | k in likes && likes[k].video != Some(id) :: likes[k]
  }

  function WithoutCommentsOfVideo(comments: map<Id, Comment>, id: Id): (r: map<Id, Comment>)
  {
    map k | k in comments && comments[k].video != id :: comments[k]
  }

  /** The first failure `deleteVideo` meets. */
  function DeleteError(videos: map<Id, Video>, caller: Id, videoId: RawId): (e: Option<ApiError>)
    ensures e.None? <==> videoId.ObjectId? && videoId.id in videos && videos[videoId.id].owner == caller
    ensures videoId.ObjectId? && videoId.id !in videos <==> e == Some(Fail(404, NoVideoFound))
    ensures videoId.ObjectId? && videoId.id in videos && videos[videoId.id].owner != caller <==>
      e == Some(Fail(400, NotOwnerDelete))
  {
    if videoId.Malformed? then Some(Fail(400, InvalidVideoId))
    else if videoId.id !in videos then Some(Fail(404, NoVideoFound))
    else if videos[videoId.id].owner != caller then Some(Fail(400, NotOwnerDelete))
    else None
  }

  /** `deleteVideo`: the owner removes the video, its likes and its comments; the other
      tables and every other record are untouched. */
  method DeleteVideo(db: Database, caller: Id, videoId: RawId) returns (r: Result<()>)
    requires db.Valid()
    modifies db
    ensures db.Valid()
    ensures r.Err? <==> DeleteError(old(db.videos), caller, videoId).Some?
    ensures r.Err? ==>
      r.error == DeleteError(old(db.videos), caller, videoId).value && db.Snapshot() == old(db.Snapshot())
    ensures r.Ok? ==> db.Snapshot() == old(db.Snapshot()).(
      videos := old(db.videos) - {videoId.id},
      likes := WithoutLikesOfVideo(old(db.likes), videoId.id),
      comments := WithoutCommentsOfVideo(old(db.comments), videoId.id))
  {
    if videoId.Malformed? {
      return Err(Fail(400, InvalidVideoId));
    }
    var id := videoId.id;
    if id !in db.videos {
      return Err(Fail(404, NoVideoFound));
    }
    if db.videos[id].owner != caller {
      return Err(Fail(400, NotOwnerDelete));
    }
    db.videos := db.videos - {id};
    db.likes := WithoutLikesOfVideo(db.likes, id);
    db.comments := WithoutCommentsOfVideo(db.comments, id);
    r := Ok(());
  }

  /** After the cascade nothing refers to the deleted video: no like, no comment, and its
      detail is gone. */
  lemma DeleteLeavesNoTrace(s: State, id: Id, viewer: Id)
    ensures var s' := s.(videos := s.videos - {id},
                         likes := WithoutLikesOfVideo(s.likes, id),
                         comments := WithoutCommentsOfVideo(s.comments, id));
      && LikesOfVideo(s'.likes, id) == {}
      && (forall k :: k in s'.comments ==> s'.comments[k].video != id)
      && DetailOf(s', id, viewer).None?
  {
    var likes' := WithoutLikesOfVideo(s.likes, id);
    forall k | k in likes' ensures likes'[k].video != Some(id) {
      assert likes'[k] == s.likes[k];
    }
  }

  // ---------------------------------------------------------------- toggle

  /** `$set: { isPublished: !video.isPublished }` on video `id`. */
  function TogglePublished(videos: map<Id, Video>, id: Id): (r: map<Id, Video>)
    requires id in videos
    ensures r.Keys == videos.Keys
    ensures r[id] == videos[id].(isPublished := !videos[id].isPublished)
    ensures forall k :: k in videos && k != id ==> r[k] == videos[k]
  {
    videos[id := videos[id].(isPublished := !videos[id].isPublished)]
  }

  /** Toggling twice restores the table. */
  lemma ToggleInvolution(videos: map<Id, Video>, id: Id)
    requires id in videos
    ensures TogglePublished(TogglePublished(videos, id), id) == videos
  {
    var r := TogglePublished(TogglePublished(videos, id), id);
    assert forall k :: k in r ==> r[k] == videos[k];
  }

  /** The first failure `togglePublishStatus` meets. */
  function ToggleError(videos: map<Id, Video>, caller: Id, videoId: RawId): (e: Option<ApiError>)
    ensures e.None? <==> videoId.ObjectId? && videoId.id in videos && videos[videoId.id].owner == caller
    ensures videoId.ObjectId? && videoId.id !in videos <==> e == Some(Fail(404, VideosNotFound))
    ensures videoId.ObjectId? && videoId.id in videos && videos[videoId.id].owner != caller <==>
      e == Some(Fail(400, NotOwnerToggle))
  {
    if videoId.Malformed? then Some(Fail(400, InvalidVideoId))
    else if videoId.id !in videos then Some(Fail(404, VideosNotFound))
    else if videos[videoId.id].owner != caller then Some(Fail(400, NotOwnerToggle))
    else None
  }

  /** `togglePublishStatus`: the owner flips `isPublished` and gets the new value back. */
  method TogglePublishStatus(db: Database, caller: Id, videoId: RawId) returns (r: Result<bool>)
    requires db.Valid()
    modifies db
    ensures db.Valid()
    ensures r.Err? <==> ToggleError(old(db.videos), caller, videoId).Some?
    ensures r.Err? ==>
      r.error == ToggleError(old(db.videos), caller, videoId).value && db.Snapshot() == old(db.Snapshot())
    ensures r.Ok? ==>
      && r.value == !old(db.videos)[videoId.id].isPublished
      && db.Snapshot() == old(db.Snapshot()).(videos := TogglePublished(old(db.videos), videoId.id))
  {
    if videoId.Malformed? {
      return Err(Fail(400, InvalidVideoId));
    }
    var id := videoId.id;
    if id !in db.videos {
      return Err(Fail(404, VideosNotFound));
    }
    if db.videos[id].owner != caller {
      return Err(Fail(400, NotOwnerToggle));
    }
    db.videos := TogglePublished(db.videos, id);
    r := Ok(db.videos[id].isPublished);
  }
}
