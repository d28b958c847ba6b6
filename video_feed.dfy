/** `getAllVideos` (backend/src/controllers/video.controller.js): the handler pushes the
    stages of an aggregation pipeline one by one, runs the pipeline over `videos` and pages
    the result. The stages are modelled as data and their meaning as functions over
    sequences of documents in natural (ascending id) order. */
module VideoFeed {
  import opened Base
  import opened Text
  import opened Store
  import opened Pagination
  import Sorting

  const InvalidUserId: string := "Invalid userId"

  /** The owner as the `$lookup` projects it: `_id` and `username`. The stored `avatar` is a
      URL string, so the projection `"avatar.url"` selects nothing. */
  datatype OwnerCard = OwnerCard(id: Id, username: string)

  /** A document flowing through the pipeline. `ownerDetails` is the array the lookup
      attaches; it is empty before the lookup. */
  datatype FeedDoc = FeedDoc(id: Id, video: Video, ownerDetails: seq<OwnerCard>)

  datatype Stage =
    | Search(query: string)
    | MatchOwner(owner: Id)
    | MatchPublished
    | SortOn(field: string, ascending: bool)
    | LookupOwner
    | UnwindOwner

  /** The `$search` relevance test of the Atlas index over title and description. */
  type SearchIndex = (string, string, string) -> bool

  /** The sort key of `field`: the three numeric fields the handler documents. Any other
      field is a key every document shares. */
  function Key(field: string, v: Video): int {
    if field == "views" then v.views
    else if field == "createdAt" then v.createdAt
    else if field == "duration" then v.duration
    else 0
  }

  /** Position in sort order: the key, negated for a descending sort. */
  function Rank(field: string, ascending: bool, d: FeedDoc): int {
    if ascending then Key(field, d.video) else -Key(field, d.video)
  }

  function RankOf(field: string, ascending: bool): FeedDoc -> int {
    d => Rank(field, ascending, d)
  }

  predicate SortedBy(docs: seq<FeedDoc>, field: string, ascending: bool) {
    Sorting.Sorted(docs, RankOf(field, ascending))
  }

  /** No video appears twice. */
  predicate DistinctIds(docs: seq<FeedDoc>) {
    forall i, j :: 0 <= i < j < |docs| ==> docs[i].id != docs[j].id
  }

  /** Whether a filtering stage keeps `d`. `$unwind` keeps a document whose owner array is
      non-empty; since the array holds at most one owner, it passes that owner on as is. */
  predicate Passes(st: Stage, d: FeedDoc, index: SearchIndex) {
    match st
    case Search(q) => index(q, d.video.title, d.video.description)
    case MatchOwner(o) => d.video.owner == o
    case MatchPublished => d.video.isPublished
    case UnwindOwner => d.ownerDetails != []
    case _ => true
  }

  /** The documents of `docs` that the filtering stage `st` keeps, in their order. */
  function Keep(docs: seq<FeedDoc>, st: Stage, index: SearchIndex): (r: seq<FeedDoc>)
    ensures forall x :: x in r <==> x in docs && Passes(st, x, index)
  {
    if docs == [] then []
    else if Passes(st, docs[0], index) then [docs[0]] + Keep(docs[1..], st, index)
    else Keep(docs[1..], st, index)
  }

  lemma DistinctTail(s: seq<FeedDoc>)
    requires s != [] && DistinctIds(s)
    ensures DistinctIds(s[1..])
    ensures forall x :: x in s[1..] ==> x.id != s[0].id
  {
    var rest := s[1..];
    forall i, j | 0 <= i < j < |rest| ensures rest[i].id != rest[j].id {
      assert rest[i] == s[i + 1] && rest[j] == s[j + 1];
    }
    forall x | x in rest ensures x.id != s[0].id {
      var j :| 0 <= j < |rest| && rest[j] == x;
      assert s[j + 1] == x;
    }
  }

  /** A document in front of a sequence without its id. */
  lemma DistinctCons(d: FeedDoc, s: seq<FeedDoc>)
    requires DistinctIds(s)
    requires forall x :: x in s ==> x.id != d.id
    ensures DistinctIds([d] + s)
  {
    var r := [d] + s;
    forall i, j | 0 <= i < j < |r| ensures r[i].id != r[j].id {
      assert r[j] == s[j - 1];
      if i > 0 { assert r[i] == s[i - 1]; }
    }
  }

  lemma {:induction false} KeepSorted(docs: seq<FeedDoc>, st: Stage, index: SearchIndex, field: string, ascending: bool)
    requires SortedBy(docs, field, ascending)
    ensures SortedBy(Keep(docs, st, index), field, ascending)
  {
    if docs != [] {
      Sorting.SortedTail(docs, RankOf(field, ascending));
      KeepSorted(docs[1..], st, index, field, ascending);
      if Passes(st, docs[0], index) {
        Sorting.SortedCons(docs[0], Keep(docs[1..], st, index), RankOf(field, ascending));
      }
    }
  }

  lemma {:induction false} KeepDistinct(docs: seq<FeedDoc>, st: Stage, index: SearchIndex)
    requires DistinctIds(docs)
    ensures DistinctIds(Keep(docs, st, index))
  {
    if docs != [] {
      DistinctTail(docs);
      KeepDistinct(docs[1..], st, index);
      if Passes(st, docs[0], index) {
        DistinctCons(docs[0], Keep(docs[1..], st, index));
      }
    }
  }

  lemma {:induction false} InsertDistinct(d: FeedDoc, s: seq<FeedDoc>, rank: FeedDoc -> int)
    requires Sorting.Sorted(s, rank) && DistinctIds(s)
    requires forall x :: x in s ==> x.id != d.id
    ensures DistinctIds(Sorting.Insert(d, s, rank))
  {
    if s == [] || rank(d) <= rank(s[0]) {
      DistinctCons(d, s);
    } else {
      Sorting.SortedTail(s, rank);
      DistinctTail(s);
      InsertDistinct(d, s[1..], rank);
      var t := Sorting.Insert(d, s[1..], rank);
      forall x | x in t ensures x.id != s[0].id {
        assert x in multiset(t);
      }
      DistinctCons(s[0], t);
    }
  }

  lemma {:induction false} SortByDistinct(s: seq<FeedDoc>, rank: FeedDoc -> int)
    ensures DistinctIds(s) ==> DistinctIds(Sorting.SortBy(s, rank))
  {
    if s != [] && DistinctIds(s) {
      assert s == [s[0]] + s[1..];
      DistinctTail(s);
      SortByDistinct(s[1..], rank);
      var t := Sorting.SortBy(s[1..], rank);
      forall x | x in t ensures x.id != s[0].id {
        assert x in multiset(t);
        assert x in s[1..];
      }
      InsertDistinct(s[0], t, rank);
    }
  }

  /** `$sort: { [field]: ascending ? 1 : -1 }`; no video is duplicated or lost. */
  function SortDocs(s: seq<FeedDoc>, field: string, ascending: bool): (r: seq<FeedDoc>)
    ensures SortedBy(r, field, ascending)
    ensures multiset(r) == multiset(s)
    ensures DistinctIds(s) ==> DistinctIds(r)
  {
    SortByDistinct(s, RankOf(field, ascending));
    Sorting.SortBy(s, RankOf(field, ascending))
  }

  /** The owner array `$lookup` of `users` on `_id` yields: the one user with that id, or
      none. */
  function OwnerCards(users: map<Id, User>, owner: Id): (r: seq<OwnerCard>)
  {
    if owner in users then [OwnerCard(owner, users[owner].username)] else []
  }

  function LookupOwners(docs: seq<FeedDoc>, users: map<Id, User>): (r: seq<FeedDoc>)
  {
    seq(|docs|, i requires 0 <= i < |docs| => docs[i].(ownerDetails := OwnerCards(users, docs[i].video.owner)))
  }

  function Apply(st: Stage, docs: seq<FeedDoc>, users: map<Id, User>, index: SearchIndex): seq<FeedDoc> {
    match st
    case SortOn(field, ascending) => SortDocs(docs, field, ascending)
    case LookupOwner => LookupOwners(docs, users)
    case _ => Keep(docs, st, index)
  }

  /** Every document of `r` is a document of `docs`, as far as its id and its video go. */
  predicate DrawnFrom(r: seq<FeedDoc>, docs: seq<FeedDoc>) {
    forall x :: x in r ==> exists y :: y in docs && y.id == x.id && y.video == x.video
  }

  lemma {:induction false} KeepShrinks(docs: seq<FeedDoc>, st: Stage, index: SearchIndex)
    ensures |Keep(docs, st, index)| <= |docs|
  {
    if docs != [] {
      KeepShrinks(docs[1..], st, index);
    }
  }

  /** One stage adds no document and invents no video: it filters, reorders, or attaches
      owners. */
  lemma ApplyDrawnFrom(st: Stage, docs: seq<FeedDoc>, users: map<Id, User>, index: SearchIndex)
    ensures |Apply(st, docs, users, index)| <= |docs|
    ensures DrawnFrom(Apply(st, docs, users, index), docs)
  {
    var r := Apply(st, docs, users, index);
    match st
    case SortOn(field, ascending) =>
      assert |multiset(r)| == |multiset(docs)|;
      forall x | x in r ensures exists y :: y in docs && y.id == x.id && y.video == x.video {
        assert x in multiset(r);
      }
    case LookupOwner =>
      forall x | x in r ensures exists y :: y in docs && y.id == x.id && y.video == x.video {
        var i :| 0 <= i < |r| && r[i] == x;
        assert docs[i] in docs;
      }
    case _ =>
      KeepShrinks(docs, st, index);
  }

  /** `Videos.aggregate(pipeline)`: the stages applied in the order they were pushed. */
  function Run(stages: seq<Stage>, docs: seq<FeedDoc>, users: map<Id, User>, index: SearchIndex): seq<FeedDoc> {
    if stages == [] then docs
    else Apply(stages[|stages| - 1], Run(stages[..|stages| - 1], docs, users, index), users, index)
  }

  lemma RunPush(stages: seq<Stage>, st: Stage, docs: seq<FeedDoc>, users: map<Id, User>, index: SearchIndex)
    ensures Run(stages + [st], docs, users, index) == Apply(st, Run(stages, docs, users, index), users, index)
  {
    assert (stages + [st])[..|stages|] == stages;
  }

  /** The aggregate returns at most the documents it started from, each carrying the id and
      the video of one of them. */
  lemma {:induction false} RunDrawnFrom(stages: seq<Stage>, docs: seq<FeedDoc>, users: map<Id, User>, index: SearchIndex)
    ensures |Run(stages, docs, users, index)| <= |docs|
    ensures DrawnFrom(Run(stages, docs, users, index), docs)
    decreases |stages|
  {
    if stages != [] {
      var init := stages[..|stages| - 1];
      var mid := Run(init, docs, users, index);
      RunDrawnFrom(init, docs, users, index);
      ApplyDrawnFrom(stages[|stages| - 1], mid, users, index);
    }
  }

  /** The collection in natural order, before any stage. */
  function InitialDocs(videos: map<Id, Video>): (r: seq<FeedDoc>)
    ensures |r| == |videos|
    ensures forall i :: 0 <= i < |r| ==> r[i].id in videos && r[i] == FeedDoc(r[i].id, videos[r[i].id], [])
  {
    var ids := Ascending(videos.Keys);
    seq(|ids|, i requires 0 <= i < |ids| => FeedDoc(ids[i], videos[ids[i]], []))
  }

  /** The `i`-th initial document is the `i`-th video in natural order. */
  lemma InitialDocsAt(videos: map<Id, Video>, i: int)
    requires 0 <= i < |InitialDocs(videos)|
    ensures var ids := Ascending(videos.Keys);
      i < |ids| && InitialDocs(videos)[i] == FeedDoc(ids[i], videos[ids[i]], [])
  {
  }

  /** Every video enters the pipeline exactly once. */
  lemma InitialDocsContents(videos: map<Id, Video>)
    ensures forall x :: x in InitialDocs(videos) <==> x.id in videos && x == FeedDoc(x.id, videos[x.id], [])
    ensures DistinctIds(InitialDocs(videos))
  {
    var ids := Ascending(videos.Keys);
    var r := InitialDocs(videos);
    forall x: FeedDoc | x.id in videos && x == FeedDoc(x.id, videos[x.id], []) ensures x in r {
      var i :| 0 <= i < |ids| && ids[i] == x.id;
      InitialDocsAt(videos, i);
    }
    forall i, j | 0 <= i < j < |r| ensures r[i].id != r[j].id {
      InitialDocsAt(videos, i);
      InitialDocsAt(videos, j);
    }
  }

  /** The owner filter `userId` asks for: a truthy, valid id. */
  function OwnerFilter(userId: Option<RawId>): (o: Option<Id>)
    ensures o.Some? <==> userId.Some? && userId.value.ObjectId?
    ensures o.Some? ==> userId.value == ObjectId(o.value)
  {
    if userId.Some? && userId.value.ObjectId? then Some(userId.value.id) else None
  }

  /** `userId` was given but is no ObjectId. */
  predicate InvalidOwner(userId: Option<RawId>) {
    userId.Some? && userId.value.Truthy() && userId.value.Malformed?
  }

  /** The order of the feed: `sortBy` ascending iff `sortType` is `"asc"` when both are given,
      newest first otherwise. */
  function FeedOrder(sortBy: Option<string>, sortType: Option<string>): (o: (string, bool))
    ensures Truthy(sortBy) && Truthy(sortType) ==> o == (sortBy.value, sortType.value == "asc")
    ensures !(Truthy(sortBy) && Truthy(sortType)) ==> o == ("createdAt", false)
  {
    if Truthy(sortBy) && Truthy(sortType) then (sortBy.value, sortType.value == "asc") else ("createdAt", false)
  }

  /** The optional stages at the head of the pipeline: the search, then the owner match. */
  function Filters(query: Option<string>, owner: Option<Id>): seq<Stage> {
    (if Truthy(query) then [Search(query.value)] else [])
    + (if owner.Some? then [MatchOwner(owner.value)] else [])
  }

  /** The pipeline `getAllVideos` pushes, stage after stage. */
  function FeedStages(query: Option<string>, userId: Option<RawId>, sortBy: Option<string>, sortType: Option<string>)
    : Result<seq<Stage>>
  {
    if InvalidOwner(userId) then Err(Fail(400, InvalidUserId))
    else
      var order := FeedOrder(sortBy, sortType);
      Ok(Filters(query, OwnerFilter(userId)) + [MatchPublished] + [SortOn(order.0, order.1)] + [LookupOwner] + [UnwindOwner])
  }

  /** The pipeline's shape: `$search` first when a query is given (Atlas Search admits it
      only as the first stage), then the published match, the sort, the lookup and the
      unwind, in that order. */
  lemma FeedStagesShape(query: Option<string>, userId: Option<RawId>, sortBy: Option<string>, sortType: Option<string>)
    ensures var r := FeedStages(query, userId, sortBy, sortType);
      && (r.Err? <==> InvalidOwner(userId))
      && (r.Err? ==> r.error == Fail(400, InvalidUserId))
      && (r.Ok? ==>
            var st := r.value;
            var order := FeedOrder(sortBy, sortType);
            && |st| >= 4
            && st[|st| - 4..] == [MatchPublished, SortOn(order.0, order.1), LookupOwner, UnwindOwner]
            && (Truthy(query) ==> st[0] == Search(query.value)))
  {
    var r := FeedStages(query, userId, sortBy, sortType);
    if r.Ok? {
      var order := FeedOrder(sortBy, sortType);
      var s1 := if Truthy(query) then [Search(query.value)] else [];
      var s2 := if OwnerFilter(userId).Some? then [MatchOwner(OwnerFilter(userId).value)] else [];
      var tail := [MatchPublished, SortOn(order.0, order.1), LookupOwner, UnwindOwner];
      assert r.value == s1 + s2 + tail;
      ThreeParts(s1, s2, tail);
    }
  }

  /** The optional stages: a search exactly for a truthy query, an owner match exactly for a
      given owner. */
  lemma FiltersMembers(query: Option<string>, owner: Option<Id>)
    ensures forall q :: Search(q) in Filters(query, owner) <==> Truthy(query) && q == query.value
    ensures forall o: Id :: MatchOwner(o) in Filters(query, owner) <==> owner == Some(o)
  {
    var s1 := if Truthy(query) then [Search(query.value)] else [];
    var s2 := if owner.Some? then [MatchOwner(owner.value)] else [];
    assert Filters(query, owner) == s1 + s2;
  }

  /** The pipeline holds a search exactly for a truthy query and an owner match exactly for
      a valid `userId`. */
  lemma FeedStagesFilters(query: Option<string>, userId: Option<RawId>, sortBy: Option<string>, sortType: Option<string>)
    requires FeedStages(query, userId, sortBy, sortType).Ok?
    ensures var st := FeedStages(query, userId, sortBy, sortType).value;
      && (forall q :: Search(q) in st <==> Truthy(query) && q == query.value)
      && (forall o: Id :: MatchOwner(o) in st <==> OwnerFilter(userId) == Some(o))
  {
    var order := FeedOrder(sortBy, sortType);
    var f := Filters(query, OwnerFilter(userId));
    FiltersMembers(query, OwnerFilter(userId));
    var tail := [MatchPublished] + [SortOn(order.0, order.1)] + [LookupOwner] + [UnwindOwner];
    assert FeedStages(query, userId, sortBy, sortType).value == f + tail;
    assert forall q :: Search(q) !in tail;
    assert forall o: Id :: MatchOwner(o) !in tail;
  }

  /** Where the parts of a three-part pipeline end up. */
  lemma ThreeParts(s1: seq<Stage>, s2: seq<Stage>, tail: seq<Stage>)
    requires |tail| == 4
    ensures var st := s1 + s2 + tail;
      && st[|st| - 4..] == tail
      && (s1 != [] ==> st[0] == s1[0])
  {
    var st := s1 + s2 + tail;
    assert st[|st| - 4..] == tail;
  }

  /** The handler's own construction of the pipeline, by `push`. */
  method BuildFeedPipeline(query: Option<string>, userId: Option<RawId>, sortBy: Option<string>, sortType: Option<string>)
    returns (r: Result<seq<Stage>>)
    ensures r == FeedStages(query, userId, sortBy, sortType)
    ensures r.Err? <==> InvalidOwner(userId)
    ensures r.Ok? ==> MatchPublished in r.value && LookupOwner in r.value && UnwindOwner in r.value
  {
    var pipeline: seq<Stage> := [];
    if Truthy(query) {
      pipeline := pipeline + [Search(query.value)];
    }
    assert pipeline == if Truthy(query) then [Search(query.value)] else [];
    if userId.Some? && userId.value.Truthy() {
      if !userId.value.ObjectId? {
        return Err(Fail(400, InvalidUserId));
      }
      pipeline := pipeline + [MatchOwner(userId.value.id)];
    }
    assert pipeline == Filters(query, OwnerFilter(userId));
    pipeline := pipeline + [MatchPublished];
    ghost var filtered := pipeline;
    var order := FeedOrder(sortBy, sortType);
    if Truthy(sortBy) && Truthy(sortType) {
      pipeline := pipeline + [SortOn(sortBy.value, sortType.value == "asc")];
    } else {
      pipeline := pipeline + [SortOn("createdAt", false)];
    }
    assert pipeline == filtered + [SortOn(order.0, order.1)];
    ghost var sorted := pipeline;
    pipeline := pipeline + [LookupOwner, UnwindOwner];
    assert pipeline == sorted + [LookupOwner] + [UnwindOwner];
    assert MatchPublished in filtered;
    r := Ok(pipeline);
  }

  /** A video the feed lists: published, matching the search when one is given, owned by
      the requested owner when one is given, and owned by an existing user. */
  predicate Eligible(videos: map<Id, Video>, users: map<Id, User>, index: SearchIndex,
                     query: Option<string>, owner: Option<Id>, k: Id)
  {
    && k in videos
    && videos[k].isPublished
    && (Truthy(query) ==> index(query.value, videos[k].title, videos[k].description))
    && (owner.Some? ==> videos[k].owner == owner.value)
    && videos[k].owner in users
  }

  /** The document the feed lists for video `k`. */
  function Listed(videos: map<Id, Video>, users: map<Id, User>, k: Id): FeedDoc
    requires k in videos
  {
    FeedDoc(k, videos[k], OwnerCards(users, videos[k].owner))
  }

  /** The feed `getAllVideos` pages through. */
  function Feed(videos: map<Id, Video>, users: map<Id, User>, index: SearchIndex, stages: seq<Stage>)
    : seq<FeedDoc>
  {
    Run(stages, InitialDocs(videos), users, index)
  }

  /** Pushing one filtering stage keeps exactly the documents that pass it, each once. */
  lemma {:induction false} FilterStep(stages: seq<Stage>, st: Stage, docs: seq<FeedDoc>, users: map<Id, User>, index: SearchIndex)
    requires !st.SortOn? && !st.LookupOwner?
    requires DistinctIds(Run(stages, docs, users, index))
    ensures var before := Run(stages, docs, users, index);
      var after := Run(stages + [st], docs, users, index);
      && DistinctIds(after)
      && forall x :: x in after <==> x in before && Passes(st, x, index)
  {
    RunPush(stages, st, docs, users, index);
    KeepDistinct(Run(stages, docs, users, index), st, index);
  }

  /** A stage that only filters: everything but the sort and the lookup. */
  predicate FilterStage(st: Stage) {
    !st.SortOn? && !st.LookupOwner?
  }

  /** `d` passes every stage of `stages`. */
  predicate PassesAll(stages: seq<Stage>, d: FeedDoc, index: SearchIndex) {
    forall i :: 0 <= i < |stages| ==> Passes(stages[i], d, index)
  }

  /** A pipeline of filtering stages keeps exactly the documents that pass all of them, and
      never introduces a duplicate id. */
  lemma {:induction false} RunFilters(stages: seq<Stage>, docs: seq<FeedDoc>, users: map<Id, User>, index: SearchIndex)
    requires forall i :: 0 <= i < |stages| ==> FilterStage(stages[i])
    requires DistinctIds(docs)
    ensures DistinctIds(Run(stages, docs, users, index))
    ensures forall x :: x in Run(stages, docs, users, index) <==> x in docs && PassesAll(stages, x, index)
    decreases |stages|
  {
    if stages != [] {
      var init, last := stages[..|stages| - 1], stages[|stages| - 1];
      assert stages == init + [last];
      RunFilters(init, docs, users, index);
      FilterStep(init, last, docs, users, index);
      forall x ensures PassesAll(stages, x, index) <==> PassesAll(init, x, index) && Passes(last, x, index) {
        if PassesAll(init, x, index) && Passes(last, x, index) {
          forall i | 0 <= i < |stages| ensures Passes(stages[i], x, index) {
            if i < |init| { assert stages[i] == init[i]; }
          }
        }
        if PassesAll(stages, x, index) {
          forall i | 0 <= i < |init| ensures Passes(init[i], x, index) {
            assert init[i] == stages[i];
          }
          assert Passes(stages[|stages| - 1], x, index);
        }
      }
    }
  }

  /** The head of the feed pipeline only filters. */
  lemma FeedFiltersOnlyFilter(query: Option<string>, owner: Option<Id>)
    ensures var stages := Filters(query, owner) + [MatchPublished];
      forall i :: 0 <= i < |stages| ==> FilterStage(stages[i])
  {
    var s1 := if Truthy(query) then [Search(query.value)] else [];
    var s2 := if owner.Some? then [MatchOwner(owner.value)] else [];
    var stages := s1 + s2 + [MatchPublished];
    assert forall i :: 0 <= i < |stages| ==> stages[i] == (if i < |s1| then s1[i] else if i < |s1| + |s2| then s2[i - |s1|] else MatchPublished);
  }

  /** Passing the optional filters and the published match means matching the query when
      one is given, having the owner when one is given, and being published. */
  lemma PassesFeedFilters(query: Option<string>, owner: Option<Id>, x: FeedDoc, index: SearchIndex)
    ensures PassesAll(Filters(query, owner) + [MatchPublished], x, index) <==>
            && (Truthy(query) ==> index(query.value, x.video.title, x.video.description))
            && (owner.Some? ==> x.video.owner == owner.value)
            && x.video.isPublished
  {
    var s1 := if Truthy(query) then [Search(query.value)] else [];
    var s2 := if owner.Some? then [MatchOwner(owner.value)] else [];
    var stages := s1 + s2 + [MatchPublished];
    assert forall i :: 0 <= i < |stages| ==> stages[i] == (if i < |s1| then s1[i] else if i < |s1| + |s2| then s2[i - |s1|] else MatchPublished);
    if Truthy(query) { assert stages[0] == Search(query.value); }
    if owner.Some? { assert stages[|s1|] == MatchOwner(owner.value); }
    assert stages[|stages| - 1] == MatchPublished;
  }

  /** The documents the optional filters and the published match let through: untouched
      records of `videos` that pass all three. */
  lemma {:induction false} FilterPhase(videos: map<Id, Video>, users: map<Id, User>, index: SearchIndex,
                    query: Option<string>, owner: Option<Id>)
    ensures var docs := Run(Filters(query, owner) + [MatchPublished], InitialDocs(videos), users, index);
      && DistinctIds(docs)
      && forall x :: x in docs <==>
           && x.id in videos && x == FeedDoc(x.id, videos[x.id], [])
           && (Truthy(query) ==> index(query.value, x.video.title, x.video.description))
           && (owner.Some? ==> x.video.owner == owner.value)
           && x.video.isPublished
  {
    var stages := Filters(query, owner) + [MatchPublished];
    InitialDocsContents(videos);
    FeedFiltersOnlyFilter(query, owner);
    RunFilters(stages, InitialDocs(videos), users, index);
    forall x ensures x in Run(stages, InitialDocs(videos), users, index) <==>
           && x.id in videos && x == FeedDoc(x.id, videos[x.id], [])
           && (Truthy(query) ==> index(query.value, x.video.title, x.video.description))
           && (owner.Some? ==> x.video.owner == owner.value)
           && x.video.isPublished
    {
      PassesFeedFilters(query, owner, x, index);
    }
  }

  /** The lookup changes neither ids nor videos, so order and distinctness survive it. */
  lemma LookupKeepsOrder(s: seq<FeedDoc>, users: map<Id, User>, field: string, ascending: bool)
    requires SortedBy(s, field, ascending) && DistinctIds(s)
    ensures SortedBy(LookupOwners(s, users), field, ascending) && DistinctIds(LookupOwners(s, users))
  {
    var r := LookupOwners(s, users);
    forall i, j | 0 <= i < j < |r|
      ensures Rank(field, ascending, r[i]) <= Rank(field, ascending, r[j]) && r[i].id != r[j].id
    {
      assert r[i].video == s[i].video && r[j].video == s[j].video;
    }
  }

  /** The lookup followed by the unwind keeps the documents whose owner exists and
      attaches that owner. */
  lemma LookupUnwindMembers(s: seq<FeedDoc>, users: map<Id, User>, index: SearchIndex)
    requires forall y :: y in s ==> y.ownerDetails == []
    ensures forall x :: x in Keep(LookupOwners(s, users), UnwindOwner, index) <==>
      x.video.owner in users && x.ownerDetails == OwnerCards(users, x.video.owner) && x.(ownerDetails := []) in s
  {
    var looked := LookupOwners(s, users);
    forall x ensures x in looked && x.ownerDetails != [] <==>
      x.video.owner in users && x.ownerDetails == OwnerCards(users, x.video.owner) && x.(ownerDetails := []) in s
    {
      if x in looked {
        var i :| 0 <= i < |looked| && looked[i] == x;
        assert s[i] in s;
      }
      if x.video.owner in users && x.ownerDetails == OwnerCards(users, x.video.owner) && x.(ownerDetails := []) in s {
        var i :| 0 <= i < |s| && s[i] == x.(ownerDetails := []);
        assert looked[i] == x;
      }
    }
  }

  /** Sorting, the owner lookup and the unwind: the documents whose owner exists, with the
      owner attached, in sort order. */
  lemma TailPhase(docs: seq<FeedDoc>, users: map<Id, User>, index: SearchIndex, field: string, ascending: bool)
    requires DistinctIds(docs)
    requires forall y :: y in docs ==> y.ownerDetails == []
    ensures var feed := Keep(LookupOwners(SortDocs(docs, field, ascending), users), UnwindOwner, index);
      && SortedBy(feed, field, ascending)
      && DistinctIds(feed)
      && forall x :: x in feed <==>
           x.video.owner in users && x.ownerDetails == OwnerCards(users, x.video.owner)
           && x.(ownerDetails := []) in docs
  {
    var sorted := SortDocs(docs, field, ascending);
    assert forall y :: y in sorted <==> y in docs by {
      forall y ensures y in sorted <==> y in docs {
        assert y in sorted <==> y in multiset(sorted);
      }
    }
    var looked := LookupOwners(sorted, users);
    LookupKeepsOrder(sorted, users, field, ascending);
    KeepSorted(looked, UnwindOwner, index, field, ascending);
    KeepDistinct(looked, UnwindOwner, index);
    LookupUnwindMembers(sorted, users, index);
  }

  /** The sort, lookup and unwind stages pushed after `stages` apply in push order. */
  lemma RunTailStages(stages: seq<Stage>, field: string, ascending: bool, docs: seq<FeedDoc>,
                      users: map<Id, User>, index: SearchIndex)
    ensures Run(stages + [SortOn(field, ascending)] + [LookupOwner] + [UnwindOwner], docs, users, index)
         == Keep(LookupOwners(SortDocs(Run(stages, docs, users, index), field, ascending), users), UnwindOwner, index)
  {
    var s3 := stages + [SortOn(field, ascending)];
    RunPush(stages, SortOn(field, ascending), docs, users, index);
    RunPush(s3, LookupOwner, docs, users, index);
    RunPush(s3 + [LookupOwner], UnwindOwner, docs, users, index);
  }

  /** The feed is the filtered documents, sorted, then looked up and unwound. */
  lemma {:induction false} FeedShape(videos: map<Id, Video>, users: map<Id, User>, index: SearchIndex,
                  query: Option<string>, userId: Option<RawId>, sortBy: Option<string>, sortType: Option<string>)
    requires FeedStages(query, userId, sortBy, sortType).Ok?
    ensures var order := FeedOrder(sortBy, sortType);
      var filtered := Run(Filters(query, OwnerFilter(userId)) + [MatchPublished], InitialDocs(videos), users, index);
      Feed(videos, users, index, FeedStages(query, userId, sortBy, sortType).value)
        == Keep(LookupOwners(SortDocs(filtered, order.0, order.1), users), UnwindOwner, index)
  {
    var order := FeedOrder(sortBy, sortType);
    RunTailStages(Filters(query, OwnerFilter(userId)) + [MatchPublished], order.0, order.1, InitialDocs(videos), users, index);
  }

  /** The two phases together: a document is in the feed exactly when it is the listing of
      an eligible video. */
  lemma CombinePhases(videos: map<Id, Video>, users: map<Id, User>, index: SearchIndex,
                      query: Option<string>, owner: Option<Id>, filtered: seq<FeedDoc>, feed: seq<FeedDoc>)
    requires forall y :: y in filtered <==>
      && y.id in videos && y == FeedDoc(y.id, videos[y.id], [])
      && (Truthy(query) ==> index(query.value, y.video.title, y.video.description))
      && (owner.Some? ==> y.video.owner == owner.value)
      && y.video.isPublished
    requires forall x :: x in feed <==>
      x.video.owner in users && x.ownerDetails == OwnerCards(users, x.video.owner) && x.(ownerDetails := []) in filtered
    ensures forall x :: x in feed <==> Eligible(videos, users, index, query, owner, x.id) && x == Listed(videos, users, x.id)
  {
    forall x ensures x in feed <==> Eligible(videos, users, index, query, owner, x.id) && x == Listed(videos, users, x.id) {
      if Eligible(videos, users, index, query, owner, x.id) && x == Listed(videos, users, x.id) {
        assert x.(ownerDetails := []) == FeedDoc(x.id, videos[x.id], []);
      }
    }
  }

  /** What the feed is: exactly the eligible videos, each once, in the requested order. */
  lemma {:induction false} FeedContents(videos: map<Id, Video>, users: map<Id, User>, index: SearchIndex,
                                        query: Option<string>, userId: Option<RawId>,
                                        sortBy: Option<string>, sortType: Option<string>)
    requires FeedStages(query, userId, sortBy, sortType).Ok?
    ensures var feed := Feed(videos, users, index, FeedStages(query, userId, sortBy, sortType).value);
      var owner := OwnerFilter(userId);
      && (forall d :: d in feed ==> Eligible(videos, users, index, query, owner, d.id) && d == Listed(videos, users, d.id))
      && (forall k :: Eligible(videos, users, index, query, owner, k) ==> Listed(videos, users, k) in feed)
      && SortedBy(feed, FeedOrder(sortBy, sortType).0, FeedOrder(sortBy, sortType).1)
      && DistinctIds(feed)
  {
    var owner := OwnerFilter(userId);
    var order := FeedOrder(sortBy, sortType);
    var filtered := Run(Filters(query, owner) + [MatchPublished], InitialDocs(videos), users, index);
    FilterPhase(videos, users, index, query, owner);
    FeedShape(videos, users, index, query, userId, sortBy, sortType);
    TailPhase(filtered, users, index, order.0, order.1);
    var feed := Keep(LookupOwners(SortDocs(filtered, order.0, order.1), users), UnwindOwner, index);
    CombinePhases(videos, users, index, query, owner, filtered, feed);
    forall k | Eligible(videos, users, index, query, owner, k) ensures Listed(videos, users, k) in feed {
      assert Listed(videos, users, k).id == k;
    }
  }

  /** `getAllVideos`: a malformed `userId` fails 400; otherwise the requested page of the
      feed, with page and limit defaulting to 1 and 10. */
  method GetAllVideos(db: Database, page: Option<int>, limit: Option<int>, query: Option<string>,
                      sortBy: Option<string>, sortType: Option<string>, userId: Option<RawId>,
                      index: SearchIndex)
    returns (r: Result<Page<FeedDoc>>)
    ensures r.Err? <==> InvalidOwner(userId)
    ensures r.Err? ==> r.error == Fail(400, InvalidUserId)
    ensures r.Ok? ==> r.value == Paginate(Feed(db.videos, db.users, index, FeedStages(query, userId, sortBy, sortType).value),
                                          RequestOptions(page, limit))
  {
    var pipeline := BuildFeedPipeline(query, userId, sortBy, sortType);
    if pipeline.Err? {
      return Err(pipeline.error);
    }
    var docs := Run(pipeline.value, InitialDocs(db.videos), db.users, index);
    r := Ok(Paginate(docs, RequestOptions(page, limit)));
  }

  /** A page of a sorted feed is sorted. */
  lemma PageSorted(feed: seq<FeedDoc>, o: Options, field: string, ascending: bool)
    requires SortedBy(feed, field, ascending)
    ensures SortedBy(Paginate(feed, o).docs, field, ascending)
    ensures forall d :: d in Paginate(feed, o).docs ==> d in feed
  {
    var p := Paginate(feed, o);
    forall i, j | 0 <= i < j < |p.docs| ensures Rank(field, ascending, p.docs[i]) <= Rank(field, ascending, p.docs[j]) {
      assert p.docs[i] == feed[Offset(o) + i] && p.docs[j] == feed[Offset(o) + j];
    }
    forall d | d in p.docs ensures d in feed {
      var j :| 0 <= j < |p.docs| && p.docs[j] == d;
      assert feed[Offset(o) + j] == d;
    }
  }

  /** Without query parameters the first page of ten holds published videos of existing
      owners, newest first. */
  lemma DefaultFeedIsNewestFirst(videos: map<Id, Video>, users: map<Id, User>, index: SearchIndex)
    ensures var feed := Feed(videos, users, index, FeedStages(None, None, None, None).value);
      var p := Paginate(feed, RequestOptions(None, None));
      && p.page == 1 && p.limit == 10
      && (forall i, j :: 0 <= i < j < |p.docs| ==> p.docs[i].video.createdAt >= p.docs[j].video.createdAt)
      && (forall d :: d in p.docs ==> d.video.isPublished && d.video.owner in users)
  {
    FeedContents(videos, users, index, None, None, None, None);
    var feed := Feed(videos, users, index, FeedStages(None, None, None, None).value);
    assert FeedOrder(None, None) == ("createdAt", false);
    PageSorted(feed, RequestOptions(None, None), "createdAt", false);
  }
}
