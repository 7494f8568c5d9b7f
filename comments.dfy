/**
 * Comment aggregation across a channel's videos, the recency filter, the
 * argument checks of `get`, and the mapping of comments to Orbit activities.
 * Every call to the YouTube client is replaced by its outcome, given as input.
 */
module Comments {
  import opened Common

  // ---------------------------------------------------------------------------
  // Data model

  datatype Author = Author(username: string, channelId: string, channelUrl: string)

  /**
   * A comment as the YouTube client returns it. `text` stands for
   * `text.original`; `datePublished` is a point in time in milliseconds;
   * `videoTitle` is absent until aggregation stamps the comment.
   */
  datatype Comment = Comment(
    id: string,
    url: string,
    text: string,
    datePublished: int,
    author: Author,
    videoTitle: Option<string>)

  datatype Video = Video(id: string, title: string)

  /** What `youtube.getVideoComments(video, 0)` settles with: the comments, or the error it rejects with, as `String(error)`. */
  datatype FetchOutcome = Fetched(comments: seq<Comment>) | FetchFailed(message: string)

  // ---------------------------------------------------------------------------
  // getCommentsFromVideos

  const COMMENT_THREADS_NOT_FOUND := "commentThreads not found"
  const DISABLED_COMMENTS := "disabled comments"

  /** A fetch error that only means the video has no readable comments. */
  predicate Tolerated(message: string) {
    Includes(message, COMMENT_THREADS_NOT_FOUND) || Includes(message, DISABLED_COMMENTS)
  }

  /** A fetch outcome that aborts the whole aggregation. */
  predicate Fatal(outcome: FetchOutcome) {
    outcome.FetchFailed? && !Tolerated(outcome.message)
  }

  /** Copies of the comments with `videoTitle` set to `title`. */
  function WithTitle(comments: seq<Comment>, title: string): seq<Comment> {
    seq(|comments|, i requires 0 <= i < |comments| => comments[i].(videoTitle := Some(title)))
  }

  /** What one video adds to the aggregate when its outcome is not fatal. */
  function Contribution(video: Video, outcome: FetchOutcome): seq<Comment> {
    if outcome.Fetched? then WithTitle(outcome.comments, video.title) else []
  }

  /** One iteration of the loop: the accumulator after looking at one more video. */
  function Step(acc: Result<seq<Comment>, string>, video: Video, outcome: FetchOutcome): Result<seq<Comment>, string> {
    match acc
    case Err(e) => Err(e)
    case Ok(c) =>
      if Fatal(outcome) then Err(outcome.message)
      else Ok(c + Contribution(video, outcome))
  }

  /**
   * The aggregate over the videos in order: the concatenation of each
   * video's contribution, or the message of a fatal outcome.
   */
  function Aggregate(videos: seq<Video>, outcomes: seq<FetchOutcome>): Result<seq<Comment>, string>
    requires |videos| == |outcomes|
  {
    if videos == [] then Ok([])
    else
      var n := |videos| - 1;
      Step(Aggregate(videos[..n], outcomes[..n]), videos[n], outcomes[n])
  }

  /** Sequential composition of two aggregation results: the first error wins. */
  function Join(first: Result<seq<Comment>, string>, second: Result<seq<Comment>, string>): Result<seq<Comment>, string> {
    match first
    case Err(e) => Err(e)
    case Ok(a) =>
      match second
      case Err(e) => Err(e)
      case Ok(b) => Ok(a + b)
  }

  lemma StepAfterJoin(first: Result<seq<Comment>, string>, second: Result<seq<Comment>, string>, video: Video, outcome: FetchOutcome)
    ensures Step(Join(first, second), video, outcome) == Join(first, Step(second, video, outcome))
  {
    if first.Ok? && second.Ok? && !Fatal(outcome) {
      var extra := Contribution(video, outcome);
      assert first.value + second.value + extra == first.value + (second.value + extra);
    }
  }

  /** Aggregating a run of videos is aggregating its first part, then the rest, in order. */
  lemma {:induction false} AggregateAppend(v1: seq<Video>, o1: seq<FetchOutcome>, v2: seq<Video>, o2: seq<FetchOutcome>)
    requires |v1| == |o1| && |v2| == |o2|
    ensures Aggregate(v1 + v2, o1 + o2) == Join(Aggregate(v1, o1), Aggregate(v2, o2))
    decreases |v2|
  {
    if v2 == [] {
      assert v1 + v2 == v1 && o1 + o2 == o1;
      if Aggregate(v1, o1).Ok? {
        assert Aggregate(v1, o1).value + [] == Aggregate(v1, o1).value;
      }
    } else {
      var n := |v2| - 1;
      var vs, os := v1 + v2, o1 + o2;
      var m := |vs| - 1;
      assert vs[..m] == v1 + v2[..n] && os[..m] == o1 + o2[..n];
      assert vs[m] == v2[n] && os[m] == o2[n];
      AggregateAppend(v1, o1, v2[..n], o2[..n]);
      StepAfterJoin(Aggregate(v1, o1), Aggregate(v2[..n], o2[..n]), v2[n], o2[n]);
    }
  }

  /** The aggregation succeeds exactly when no video's outcome is fatal. */
  lemma {:induction false} AggregateSucceedsIffNoFatal(videos: seq<Video>, outcomes: seq<FetchOutcome>)
    requires |videos| == |outcomes|
    ensures Aggregate(videos, outcomes).Ok? <==> forall i :: 0 <= i < |outcomes| ==> !Fatal(outcomes[i])
  {
    if videos != [] {
      var n := |videos| - 1;
      AggregateSucceedsIffNoFatal(videos[..n], outcomes[..n]);
      assert forall i :: 0 <= i < n ==> outcomes[..n][i] == outcomes[i];
    }
  }

  /** A failed aggregation reports the message of the first fatal outcome, and only that. */
  lemma {:induction false} AggregateFailsWithFirstFatal(videos: seq<Video>, outcomes: seq<FetchOutcome>, k: nat)
    requires |videos| == |outcomes| && k < |outcomes|
    requires Fatal(outcomes[k]) && forall j :: 0 <= j < k ==> !Fatal(outcomes[j])
    ensures Aggregate(videos, outcomes) == Err(outcomes[k].message)
  {
    var n := |videos| - 1;
    var vs, os := videos[..n], outcomes[..n];
    if k == n {
      assert Aggregate(vs, os).Ok? by {
        AggregateSucceedsIffNoFatal(vs, os);
        assert forall j :: 0 <= j < n ==> os[j] == outcomes[j];
      }
    } else {
      assert forall j :: 0 <= j <= k ==> os[j] == outcomes[j];
      AggregateFailsWithFirstFatal(vs, os, k);
    }
  }

  /** A video whose fetch failed with a tolerated message contributes nothing, wherever it stands. */
  lemma AggregateSkipsTolerated(
    v1: seq<Video>, o1: seq<FetchOutcome>, video: Video, message: string, v2: seq<Video>, o2: seq<FetchOutcome>)
    requires |v1| == |o1| && |v2| == |o2|
    requires Tolerated(message)
    ensures Aggregate(v1 + [video] + v2, o1 + [FetchFailed(message)] + o2) == Aggregate(v1 + v2, o1 + o2)
  {
    var skipped, failure := [video], [FetchFailed(message)];
    assert Aggregate(skipped, failure) == Ok([]) by {
      assert skipped[..0] == [] && failure[..0] == [];
    }
    AggregateAppend(v1, o1, skipped, failure);
    assert Aggregate(v1 + skipped, o1 + failure) == Aggregate(v1, o1) by {
      match Aggregate(v1, o1)
      case Err(e) =>
      case Ok(a) => assert a + [] == a;
    }
    AggregateAppend(v1 + skipped, o1 + failure, v2, o2);
    AggregateAppend(v1, o1, v2, o2);
  }

  /** Every aggregated comment is a fetched comment of some video, stamped with that video's title. */
  lemma {:induction false} AggregateProvenance(videos: seq<Video>, outcomes: seq<FetchOutcome>, k: nat)
    requires |videos| == |outcomes|
    requires Aggregate(videos, outcomes).Ok? && k < |Aggregate(videos, outcomes).value|
    ensures exists i, j ::
      && 0 <= i < |outcomes| && outcomes[i].Fetched? && 0 <= j < |outcomes[i].comments|
      && Aggregate(videos, outcomes).value[k] == outcomes[i].comments[j].(videoTitle := Some(videos[i].title))
  {
    var n := |videos| - 1;
    var acc := Aggregate(videos[..n], outcomes[..n]).value;
    if k < |acc| {
      AggregateProvenance(videos[..n], outcomes[..n], k);
      var i, j :| 0 <= i < n && outcomes[..n][i].Fetched? && 0 <= j < |outcomes[..n][i].comments|
        && acc[k] == outcomes[..n][i].comments[j].(videoTitle := Some(videos[..n][i].title));
      assert outcomes[..n][i] == outcomes[i] && videos[..n][i] == videos[i];
    } else {
      var j := k - |acc|;
      assert outcomes[n].Fetched?;
      assert Aggregate(videos, outcomes).value[k] == outcomes[n].comments[j].(videoTitle := Some(videos[n].title));
    }
  }

  /**
   * `getCommentsFromVideos`: walks the videos in order, appending each
   * successful fetch stamped with the video's title; a tolerated failure
   * is skipped and any other failure rejects the whole call.
   */
  method GetCommentsFromVideos(videos: seq<Video>, outcomes: seq<FetchOutcome>) returns (r: Result<seq<Comment>, string>)
    requires |videos| == |outcomes|
    ensures r == Aggregate(videos, outcomes)
  {
    var c: seq<Comment> := [];
    for i := 0 to |videos|
      invariant Aggregate(videos[..i], outcomes[..i]) == Ok(c)
    {
      assert videos[..i + 1][..i] == videos[..i] && outcomes[..i + 1][..i] == outcomes[..i];
      ghost var before := c;
      var comments: Option<seq<Comment>> := None;
      match outcomes[i] {
        case FetchFailed(e) =>
          var commentThreadsNotFound := Includes(e, COMMENT_THREADS_NOT_FOUND);
          var disabledComments := Includes(e, DISABLED_COMMENTS);
          if !commentThreadsNotFound && !disabledComments {
            assert Aggregate(videos, outcomes) == Err(e) by {
              assert Aggregate(videos[..i + 1], outcomes[..i + 1]) == Err(e);
              AggregateAppend(videos[..i + 1], outcomes[..i + 1], videos[i + 1..], outcomes[i + 1..]);
              assert videos[..i + 1] + videos[i + 1..] == videos;
              assert outcomes[..i + 1] + outcomes[i + 1..] == outcomes;
            }
            return Err(e);
          }
        case Fetched(cs) =>
          comments := Some(cs);
      }
      if comments.Some? {
        var commentsWithTitle := WithTitle(comments.value, videos[i].title);
        c := c + commentsWithTitle;
      }
      assert c == before + Contribution(videos[i], outcomes[i]);
    }
    assert videos[..|videos|] == videos && outcomes[..|outcomes|] == outcomes;
    r := Ok(c);
  }

  // ---------------------------------------------------------------------------
  // filterOutOldComments

  const MS_PER_HOUR := 3600000

  /** Integer division truncating toward zero, as moment's `diff` does. */
  function TruncDiv(a: int, b: int): int
    requires b > 0
  {
    if a >= 0 then a / b else -((-a) / b)
  }

  /** `moment(now).diff(moment(published), 'hours')`: the age in whole hours, truncated. */
  function AgeInHours(now: int, published: int): int {
    TruncDiv(now - published, MS_PER_HOUR)
  }

  /** A comment the filter keeps: its whole-hour age is not above `hours`. */
  predicate IsRecent(comment: Comment, now: int, hours: int) {
    AgeInHours(now, comment.datePublished) <= hours
  }

  /** `filterOutOldComments` with the clock read once, as `now`, for the whole list. */
  function FilterOutOldComments(comments: seq<Comment>, now: int, hours: int): (r: seq<Comment>)
    ensures |r| <= |comments|
    ensures forall c :: c in r ==> c in comments && IsRecent(c, now, hours)
  {
    if comments == [] then []
    else
      (if IsRecent(comments[0], now, hours) then [comments[0]] else [])
      + FilterOutOldComments(comments[1..], now, hours)
  }

  /** `r` is `s` with some elements removed and the rest kept in order. */
  ghost predicate IsSubsequence<T>(r: seq<T>, s: seq<T>)
    decreases |s|
  {
    r == [] || (s != [] && ((r[0] == s[0] && IsSubsequence(r[1..], s[1..])) || IsSubsequence(r, s[1..])))
  }

  /** The filter keeps the surviving comments in their original order. */
  lemma {:induction false} FilterIsSubsequence(comments: seq<Comment>, now: int, hours: int)
    ensures IsSubsequence(FilterOutOldComments(comments, now, hours), comments)
  {
    if comments != [] {
      FilterIsSubsequence(comments[1..], now, hours);
      var rest := FilterOutOldComments(comments[1..], now, hours);
      if IsRecent(comments[0], now, hours) {
        assert ([comments[0]] + rest)[1..] == rest;
      } else {
        assert [] + rest == rest;
      }
    }
  }

  /** Each comment is kept with all its occurrences if recent, and dropped entirely otherwise. */
  lemma {:induction false} FilterKeepsExactlyRecent(comments: seq<Comment>, now: int, hours: int, c: Comment)
    ensures multiset(FilterOutOldComments(comments, now, hours))[c]
      == if IsRecent(c, now, hours) then multiset(comments)[c] else 0
  {
    if comments != [] {
      FilterKeepsExactlyRecent(comments[1..], now, hours, c);
      assert comments == [comments[0]] + comments[1..];
      assert multiset(comments) == multiset([comments[0]]) + multiset(comments[1..]);
    }
  }

  /** With a non-negative window, the truncated age is within it exactly when less than `hours + 1` full hours have passed. */
  lemma RecentIffWithinWindow(comment: Comment, now: int, hours: int)
    requires hours >= 0
    ensures IsRecent(comment, now, hours) <==> now - comment.datePublished < (hours + 1) * MS_PER_HOUR
  {
    var a := now - comment.datePublished;
    if a >= 0 {
      var q := a / MS_PER_HOUR;
      assert q * MS_PER_HOUR <= a < (q + 1) * MS_PER_HOUR;
      if q <= hours {
        assert (q + 1) * MS_PER_HOUR <= (hours + 1) * MS_PER_HOUR;
      } else {
        assert (hours + 1) * MS_PER_HOUR <= q * MS_PER_HOUR;
      }
    }
  }

  // ---------------------------------------------------------------------------
  // get: argument checks

  /** The options object of `get`; an absent property is `None`. */
  datatype GetOptions = GetOptions(channelId: Option<string>, hours: Option<int>)

  const ERR_NO_OPTIONS := "You must provide an options object"
  const ERR_NO_CHANNEL := "You must provide channelId"
  const ERR_NO_HOURS := "You must provide hours"

  /** JavaScript truthiness of a possibly-undefined number. */
  predicate TruthyNumber(n: Option<int>) {
    n.Some? && n.value != 0
  }

  /** The three guards of `get`, in order; on success, the channel id and window. */
  function CheckGetOptions(options: Option<GetOptions>): (r: Result<(string, int), string>)
    ensures r.Ok? <==> options.Some? && Truthy(options.value.channelId) && TruthyNumber(options.value.hours)
    ensures r.Ok? ==> r.value == (options.value.channelId.value, options.value.hours.value)
    ensures options.None? ==> r == Err(ERR_NO_OPTIONS)
    ensures options.Some? && !Truthy(options.value.channelId) ==> r == Err(ERR_NO_CHANNEL)
    ensures options.Some? && Truthy(options.value.channelId) && !TruthyNumber(options.value.hours) ==> r == Err(ERR_NO_HOURS)
  {
    if options.None? then Err(ERR_NO_OPTIONS)
    else if !Truthy(options.value.channelId) then Err(ERR_NO_CHANNEL)
    else if !TruthyNumber(options.value.hours) then Err(ERR_NO_HOURS)
    else Ok((options.value.channelId.value, options.value.hours.value))
  }

  /** Each guard's message names what is missing. */
  lemma GuardMessagesNameTheirArgument()
    ensures Includes(ERR_NO_OPTIONS, "object")
    ensures Includes(ERR_NO_CHANNEL, "channel")
    ensures Includes(ERR_NO_HOURS, "hours")
  {
    assert OccursAt(ERR_NO_OPTIONS, "object", 28);
    IncludesAt(ERR_NO_OPTIONS, "object", 28);
    assert OccursAt(ERR_NO_CHANNEL, "channel", 17);
    IncludesAt(ERR_NO_CHANNEL, "channel", 17);
    assert OccursAt(ERR_NO_HOURS, "hours", 17);
    IncludesAt(ERR_NO_HOURS, "hours", 17);
  }

  /**
   * `get` as written: the guards, then the uploads lookup (given as its
   * outcome), after which it resolves with `undefined`, written `()`.
   */
  function Get(options: Option<GetOptions>, uploads: Result<seq<Video>, string>): (r: Result<(), string>)
    ensures CheckGetOptions(options).Err? ==> r == Err(CheckGetOptions(options).error)
    ensures CheckGetOptions(options).Ok? ==> (r.Ok? <==> uploads.Ok?)
    ensures CheckGetOptions(options).Ok? && uploads.Err? ==> r == Err(uploads.error)
  {
    match CheckGetOptions(options)
    case Err(e) => Err(e)
    case Ok(_) =>
      match uploads
      case Err(e) => Err(e)
      case Ok(_) => Ok(())
  }

  // ---------------------------------------------------------------------------
  // prepare

  datatype Member = Member(name: string)

  datatype Activity = Activity(
    description: string,
    link: string,
    linkText: string,
    title: string,
    tags: seq<string>,
    activityType: string,
    key: string,
    occurredAt: int,
    member: Member)

  datatype Identity = Identity(source: string, sourceHost: string, username: string, url: string, uid: string)

  /** One element of `prepare`'s result: `{activity, identity}`. */
  datatype PreparedComment = PreparedComment(activity: Activity, identity: Identity)

  const LINK_TEXT := "See comment on YouTube"
  const TAGS := ["channel:youtube"]
  const ACTIVITY_TYPE := "youtube:comment"
  const KEY_PREFIX := "youtube-comment-"
  const TITLE_PREFIX := "Commented on "
  const SOURCE := "YouTube"
  const SOURCE_HOST := "youtube.com"

  /** `${value}` for a possibly-undefined string. */
  function Interpolate(value: Option<string>): string {
    if value.Some? then value.value else "undefined"
  }

  /** The activity key of a comment id. */
  function ActivityKey(id: string): string {
    KEY_PREFIX + id
  }

  /** The comment id an activity key was built from. */
  function KeyOwner(key: string): Option<string> {
    if KEY_PREFIX <= key then Some(key[|KEY_PREFIX|..]) else None
  }

  /** The constant fields every prepared element carries, and its member named as its identity. */
  predicate WellFormed(p: PreparedComment) {
    && p.activity.linkText == LINK_TEXT
    && p.activity.tags == TAGS
    && p.activity.activityType == ACTIVITY_TYPE
    && p.identity.source == SOURCE
    && p.identity.sourceHost == SOURCE_HOST
    && p.activity.member.name == p.identity.username
    && KeyOwner(p.activity.key).Some?
  }

  /** The `{activity, identity}` pair of one comment. */
  function PrepareComment(c: Comment): (p: PreparedComment)
    ensures WellFormed(p)
    ensures KeyOwner(p.activity.key) == Some(c.id)
  {
    PreparedComment(
      Activity(
        c.text,
        c.url,
        LINK_TEXT,
        TITLE_PREFIX + Interpolate(c.videoTitle),
        TAGS,
        ACTIVITY_TYPE,
        ActivityKey(c.id),
        c.datePublished,
        Member(c.author.username)),
      Identity(SOURCE, SOURCE_HOST, c.author.username, c.author.channelUrl, c.author.channelId))
  }

  /** `prepare`: one element per comment, in order. */
  function Prepare(comments: seq<Comment>): (r: seq<PreparedComment>)
    ensures |r| == |comments|
    ensures forall i :: 0 <= i < |r| ==> KeyOwner(r[i].activity.key) == Some(comments[i].id)
  {
    seq(|comments|, i requires 0 <= i < |comments| => PrepareComment(comments[i]))
  }

  /** Keys identify their comment: the key round-trips to the id, so distinct ids never share a key. */
  lemma ActivityKeyRoundTrip(id: string)
    ensures KeyOwner(ActivityKey(id)) == Some(id)
  {
    assert (KEY_PREFIX + id)[|KEY_PREFIX|..] == id;
  }

  lemma ActivityKeyInjective(id1: string, id2: string)
    requires id1 != id2
    ensures ActivityKey(id1) != ActivityKey(id2)
  {
    ActivityKeyRoundTrip(id1);
    ActivityKeyRoundTrip(id2);
  }

  /** `prepare` is length-preserving and maps each comment, in place, to its fields. */
  lemma PrepareMapsEachComment(comments: seq<Comment>, i: nat)
    requires i < |comments|
    ensures |Prepare(comments)| == |comments|
    ensures var p, c := Prepare(comments)[i], comments[i];
      && WellFormed(p)
      && p.activity.key == KEY_PREFIX + c.id
      && p.activity.title == TITLE_PREFIX + Interpolate(c.videoTitle)
      && p.activity.description == c.text
      && p.activity.link == c.url
      && p.activity.occurredAt == c.datePublished
      && p.activity.member.name == c.author.username
      && p.identity.uid == c.author.channelId
      && p.identity.url == c.author.channelUrl
  {
  }

  /** Comments with pairwise distinct ids get pairwise distinct activity keys. */
  lemma PrepareKeysDistinct(comments: seq<Comment>)
    requires forall i, j :: 0 <= i < j < |comments| ==> comments[i].id != comments[j].id
    ensures forall i, j :: 0 <= i < j < |Prepare(comments)| ==>
      Prepare(comments)[i].activity.key != Prepare(comments)[j].activity.key
  {
    forall i, j | 0 <= i < j < |comments|
      ensures Prepare(comments)[i].activity.key != Prepare(comments)[j].activity.key
    {
      ActivityKeyInjective(comments[i].id, comments[j].id);
    }
  }

  /** Preparing an aggregate is preparing each part: the order of videos survives into the activities. */
  lemma PrepareAppend(a: seq<Comment>, b: seq<Comment>)
    ensures Prepare(a + b) == Prepare(a) + Prepare(b)
  {
  }
}
