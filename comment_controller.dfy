/** The comment handlers of backend/src/controllers/comment.controller.js: the paged
    comment feed of a video, and adding, editing and deleting comments. */
module CommentController {
  import opened Base
  import opened Text
  import opened Store
  import opened Pagination
  import Sorting

  /** `new apiError("Video not founded")` passes the message where the status code goes. */
  const VideoNotFounded: string := "Video not founded"
  const ContentIsRequired: string := "Content is required"
  const VideoNotFound: string := "Video not found"
  const ContentRequired: string := "content is required"
  const CommentNotFound: string := "Comment not found"
  const NotOwnerEdit: string := "only comment owner can edit their comment"
  const NotOwnerDelete: string := "only comment owner can delete their comment"

  // ---------------------------------------------------------------- feed

  /** The owner as the nested projection `owner: { username: 1, fullName: 1, "avatar.url": 1 }`
      keeps it: only `username`. An embedded document keeps no `_id` unless it is named, the
      stored name field is `fullname`, not `fullName`, and `avatar` is a URL string. */
  datatype CommentOwner = CommentOwner(username: string)

  /** An entry of the comment feed. `isLiked` is computed with the operator `$cont`, which
      has no meaning, so the model has no such field. */
  datatype CommentView = CommentView(
    id: Id,
    content: string,
    createdAt: nat,
    likesCount: nat,
    owner: Option<CommentOwner>)

  /** The comments that `$match: { video }` selects. */
  function CommentsOf(comments: map<Id, Comment>, video: Id): (r: set<Id>)
  {
    set k | k in comments && comments[k].video == video
  }

  /** The entry of comment `k`: its likes counted over `comment` and its first owner. */
  function ViewOf(s: State, k: Id): (c: CommentView)
    requires k in s.comments
    ensures c.id == k && c.content == s.comments[k].content && c.createdAt == s.comments[k].createdAt
    ensures c.likesCount == |LikesOfComment(s.likes, k)|
    ensures c.owner.Some? <==> s.comments[k].owner in s.users
    ensures c.owner.Some? ==> c.owner.value == CommentOwner(s.users[s.comments[k].owner].username)
  {
    var o := s.comments[k].owner;
    CommentView(k, s.comments[k].content, s.comments[k].createdAt, |LikesOfComment(s.likes, k)|,
                if o in s.users then Some(CommentOwner(s.users[o].username)) else None)
  }

  /** `$sort: { createdAt: -1 }`. */
  function NewestFirst(): CommentView -> int {
    (c: CommentView) => -(c.createdAt as int)
  }

  /** The entries of the comments of `video`, in natural order. */
  function Matched(s: State, video: Id): (r: seq<CommentView>)
    ensures |r| == |CommentsOf(s.comments, video)|
    ensures forall c :: c in r ==> c.id in s.comments && s.comments[c.id].video == video && c == ViewOf(s, c.id)
  {
    var ids := Ascending(CommentsOf(s.comments, video));
    assert forall i :: 0 <= i < |ids| ==> ids[i] in CommentsOf(s.comments, video);
    seq(|ids|, i requires 0 <= i < |ids| => ViewOf(s, ids[i]))
  }

  /** The comments of `video` before paging, newest first. */
  function CommentFeed(s: State, video: Id): (r: seq<CommentView>)
    ensures forall i, j :: 0 <= i < j < |r| ==> r[i].createdAt >= r[j].createdAt
  {
    var r := Sorting.SortBy(Matched(s, video), NewestFirst());
    assert forall i, j :: 0 <= i < j < |r| ==> NewestFirst()(r[i]) <= NewestFirst()(r[j]);
    r
  }

  /** The `i`-th matched entry is the view of the `i`-th comment in natural order. */
  lemma MatchedAt(s: State, video: Id, i: int)
    requires 0 <= i < |Ascending(CommentsOf(s.comments, video))|
    ensures var ids := Ascending(CommentsOf(s.comments, video));
      i < |Matched(s, video)| && ids[i] in s.comments && Matched(s, video)[i] == ViewOf(s, ids[i])
  {
    var ids := Ascending(CommentsOf(s.comments, video));
    assert ids[i] in CommentsOf(s.comments, video);
  }

  /** Sorting the matched entries keeps their number and exactly their members. */
  lemma CommentFeedSorts(s: State, video: Id)
    ensures |CommentFeed(s, video)| == |Matched(s, video)|
    ensures forall c :: c in CommentFeed(s, video) <==> c in Matched(s, video)
  {
    var matched := Matched(s, video);
    var r := CommentFeed(s, video);
    Sorting.SortByMembers(matched, NewestFirst());
    assert |multiset(r)| == |multiset(matched)|;
  }

  /** Every comment of the video has its entry among the matched ones. */
  lemma MatchedComplete(s: State, video: Id, k: Id)
    requires k in s.comments && s.comments[k].video == video
    ensures ViewOf(s, k) in Matched(s, video)
  {
    var ids := Ascending(CommentsOf(s.comments, video));
    assert k in ids;
    var i :| 0 <= i < |ids| && ids[i] == k;
    MatchedAt(s, video, i);
  }

  /** The feed holds exactly the video's comments, one entry each. */
  lemma CommentFeedContents(s: State, video: Id)
    ensures var r := CommentFeed(s, video);
      && |r| == |CommentsOf(s.comments, video)|
      && (forall c :: c in r ==> c.id in s.comments && s.comments[c.id].video == video && c == ViewOf(s, c.id))
      && (forall k :: k in s.comments && s.comments[k].video == video ==> ViewOf(s, k) in r)
  {
    CommentFeedSorts(s, video);
    forall k | k in s.comments && s.comments[k].video == video ensures ViewOf(s, k) in CommentFeed(s, video) {
      MatchedComplete(s, video, k);
    }
  }

  /** `getVideoComments`: the requested page of the comment feed. A malformed id fails the
      cast in `findById`; an id no video has is refused. */
  function GetVideoComments(s: State, videoId: RawId, page: Option<int>, limit: Option<int>)
    : (r: Result<Page<CommentView>>)
    ensures videoId.Malformed? <==> r == Err(Thrown(CastErrorMessage))
    ensures videoId.ObjectId? && videoId.id !in s.videos <==> r == Err(Thrown(VideoNotFounded))
    ensures r.Ok? <==> videoId.ObjectId? && videoId.id in s.videos
    ensures r.Ok? ==> r.value == Paginate(CommentFeed(s, videoId.id), RequestOptions(page, limit))
  {
    if videoId.Malformed? then Err(Thrown(CastErrorMessage))
    else if videoId.id !in s.videos then Err(Thrown(VideoNotFounded))
    else Ok(Paginate(CommentFeed(s, videoId.id), RequestOptions(page, limit)))
  }

  /** A page of a newest-first list is newest first. */
  lemma PageNewestFirst(feed: seq<CommentView>, o: Options)
    requires forall i, j :: 0 <= i < j < |feed| ==> feed[i].createdAt >= feed[j].createdAt
    ensures var docs := Paginate(feed, o).docs;
      forall i, j :: 0 <= i < j < |docs| ==> docs[i].createdAt >= docs[j].createdAt
  {
    var docs := Paginate(feed, o).docs;
    forall i, j | 0 <= i < j < |docs| ensures docs[i].createdAt >= docs[j].createdAt {
      assert docs[i] == feed[Offset(o) + i] && docs[j] == feed[Offset(o) + j];
    }
  }

  /** Every entry of a page is one of the video's comments, and the page is newest first. */
  lemma CommentPageBelongsToVideo(s: State, video: Id, page: Option<int>, limit: Option<int>)
    requires video in s.videos
    ensures var p := GetVideoComments(s, ObjectId(video), page, limit).value;
      && (forall c :: c in p.docs ==> c.id in s.comments && s.comments[c.id].video == video)
      && (forall i, j :: 0 <= i < j < |p.docs| ==> p.docs[i].createdAt >= p.docs[j].createdAt)
  {
    var feed := CommentFeed(s, video);
    var o := RequestOptions(page, limit);
    CommentFeedContents(s, video);
    PageDrawnFrom(feed, o);
    PageNewestFirst(feed, o);
  }

  /** A new like on a comment raises that comment's `likesCount` by one. */
  lemma CommentLikeCounts(s: State, k: Id, like: Id, user: Id)
    requires k in s.comments && like !in s.likes
    ensures var s' := s.(likes := s.likes[like := Like(None, Some(k), user)]);
      ViewOf(s', k).likesCount == ViewOf(s, k).likesCount + 1
  {
    var likes' := s.likes[like := Like(None, Some(k), user)];
    var before, after := LikesOfComment(s.likes, k), LikesOfComment(likes', k);
    assert like !in before;
    assert after == before + {like};
  }

  // ---------------------------------------------------------------- add

  /** `addComment`: 400 without content, a cast error for a malformed id, 404 for a missing
      video; otherwise the caller's comment on the video is stored under a fresh id. */
  method AddComment(db: Database, caller: Id, videoId: RawId, content: Option<string>, now: nat)
    returns (r: Result<(Id, Comment)>)
    requires db.Valid()
    modifies db
    ensures db.Valid()
    ensures !Truthy(content) <==> r == Err(Fail(400, ContentIsRequired))
    ensures Truthy(content) && videoId.Malformed? <==> r == Err(Thrown(CastErrorMessage))
    ensures Truthy(content) && videoId.ObjectId? && videoId.id !in old(db.videos) <==>
      r == Err(Fail(404, VideoNotFound))
    ensures r.Ok? <==> Truthy(content) && videoId.ObjectId? && videoId.id in old(db.videos)
    ensures r.Err? ==> db.Snapshot() == old(db.Snapshot())
    ensures r.Ok? ==>
      var c := Comment(content.value, videoId.id, caller, now);
      && r.value == (old(db.nextId), c)
      && old(db.nextId) !in old(db.comments)
      && db.Snapshot() == old(db.Snapshot()).(comments := old(db.comments)[old(db.nextId) := c],
                                               nextId := old(db.nextId) + 1)
  {
    if !Truthy(content) {
      return Err(Fail(400, ContentIsRequired));
    }
    if videoId.Malformed? {
      return Err(Thrown(CastErrorMessage));
    }
    if videoId.id !in db.videos {
      return Err(Fail(404, VideoNotFound));
    }
    var id := db.nextId;
    var c := Comment(content.value, videoId.id, caller, now);
    db.comments := db.comments[id := c];
    db.nextId := id + 1;
    r := Ok((id, c));
  }

  /** A comment just added is in its video's feed, first when it is the newest. */
  lemma AddedCommentIsListed(s: State, k: Id, c: Comment)
    requires k !in s.comments && c.video in s.videos
    ensures var s' := s.(comments := s.comments[k := c]);
      ViewOf(s', k) in CommentFeed(s', c.video)
  {
    CommentFeedContents(s.(comments := s.comments[k := c]), c.video);
  }

  // ---------------------------------------------------------------- update, delete

  /** The first failure a comment handler meets on looking up `commentId` for `caller`. */
  function OwnedComment(comments: map<Id, Comment>, caller: Id, commentId: RawId, notOwner: string)
    : (r: Result<Id>)
    ensures r.Ok? <==> commentId.ObjectId? && commentId.id in comments && comments[commentId.id].owner == caller
    ensures r.Ok? ==> r.value == commentId.id
    ensures commentId.Malformed? <==> r == Err(Thrown(CastErrorMessage))
    ensures commentId.ObjectId? && commentId.id !in comments <==> r == Err(Fail(404, CommentNotFound))
    ensures commentId.ObjectId? && commentId.id in comments && comments[commentId.id].owner != caller <==>
      r == Err(Fail(400, notOwner))
  {
    if commentId.Malformed? then Err(Thrown(CastErrorMessage))
    else if commentId.id !in comments then Err(Fail(404, CommentNotFound))
    else if comments[commentId.id].owner != caller then Err(Fail(400, notOwner))
    else Ok(commentId.id)
  }

  /** `updateComment`: 400 without content, then the owner check; only `content` changes. */
  method UpdateComment(db: Database, caller: Id, commentId: RawId, content: Option<string>)
    returns (r: Result<Comment>)
    requires db.Valid()
    modifies db
    ensures db.Valid()
    ensures !Truthy(content) <==> r == Err(Fail(400, ContentRequired))
    ensures Truthy(content) && OwnedComment(old(db.comments), caller, commentId, NotOwnerEdit).Err? ==>
      r == Err(OwnedComment(old(db.comments), caller, commentId, NotOwnerEdit).error)
    ensures r.Ok? <==> Truthy(content) && OwnedComment(old(db.comments), caller, commentId, NotOwnerEdit).Ok?
    ensures r.Err? ==> db.Snapshot() == old(db.Snapshot())
    ensures r.Ok? ==>
      var c := old(db.comments)[commentId.id].(content := content.value);
      && r.value == c
      && db.Snapshot() == old(db.Snapshot()).(comments := old(db.comments)[commentId.id := c])
  {
    if !Truthy(content) {
      return Err(Fail(400, ContentRequired));
    }
    var owned := OwnedComment(db.comments, caller, commentId, NotOwnerEdit);
    if owned.Err? {
      return Err(owned.error);
    }
    var id := owned.value;
    var c := db.comments[id].(content := content.value);
    db.comments := db.comments[id := c];
    r := Ok(c);
  }

  /** The likes `Like.deleteMany({ comment, likedBy })` leaves: all but the caller's likes
      on the comment. */
  function WithoutOwnLikes(likes: map<Id, Like>, comment: Id, user: Id): (r: map<Id, Like>)
  {
    map k | k in likes && !(likes[k].comment == Some(comment) && likes[k].likedBy == user) :: likes[k]
  }

  /** `deleteComment`: the owner removes the comment and the likes they gave it. */
  method DeleteComment(db: Database, caller: Id, commentId: RawId) returns (r: Result<Id>)
    requires db.Valid()
    modifies db
    ensures db.Valid()
    ensures r.Err? <==> OwnedComment(old(db.comments), caller, commentId, NotOwnerDelete).Err?
    ensures r.Err? ==>
      r.error == OwnedComment(old(db.comments), caller, commentId, NotOwnerDelete).error
      && db.Snapshot() == old(db.Snapshot())
    ensures r.Ok? ==>
      && r.value == commentId.id
      && db.Snapshot() == old(db.Snapshot()).(
           comments := old(db.comments) - {commentId.id},
           likes := WithoutOwnLikes(old(db.likes), commentId.id, caller))
  {
    var owned := OwnedComment(db.comments, caller, commentId, NotOwnerDelete);
    if owned.Err? {
      return Err(owned.error);
    }
    var id := owned.value;
    db.comments := db.comments - {id};
    db.likes := WithoutOwnLikes(db.likes, id, caller);
    r := Ok(id);
  }

  /** Likes other users gave the deleted comment survive it: exactly the caller's are gone. */
  lemma OthersLikesSurviveDelete(likes: map<Id, Like>, comment: Id, caller: Id)
    ensures var left := WithoutOwnLikes(likes, comment, caller);
      && (forall k :: k in LikesOfComment(left, comment) ==> left[k].likedBy != caller)
      && (forall k :: k in LikesOfComment(likes, comment) && likes[k].likedBy != caller ==> k in LikesOfComment(left, comment))
  {
  }
}
