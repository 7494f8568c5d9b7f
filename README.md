# YouTube comments to Orbit activities — a Dafny model

This project models the core of `community-js-youtube-orbit`. The tool is a batch job. It collects the comments posted on a YouTube channel's videos, keeps the recent ones, and turns each into an Orbit `{activity, identity}` pair. It then submits the pairs to an Orbit workspace and reports how many were added and how many were duplicates.

Every network call is replaced by its outcome, given as input:

- the YouTube client's per-video comment fetch becomes a `FetchOutcome` per video;
- the uploads lookup of `get` becomes a `Result`;
- the axios requests become the sequence of settled results `Promise.allSettled` would produce;
- the wall clock becomes an integer `now`, and the process environment a `map`.

Modules, one per source file, plus a shared one:

- `Common` (`common.dfy`) holds `Option` and `Result`, `Includes` (`String.prototype.includes`) with its positional characterisation, and `Decimal` (how a template literal renders a count) with its read-back.
- `Comments` (`comments.dfy`) models `src/comments.js`:
  - `GetCommentsFromVideos`, a loop proved against the specification function `Aggregate`;
  - `FilterOutOldComments`, with moment's truncating hour difference written out as `TruncDiv`;
  - the guards of `get`, in `CheckGetOptions` and `Get`;
  - `Prepare` and `PrepareComment`.
- `Orbit` (`orbit.dfy`) models `src/orbit.js`. `AddActivities` builds the requests, then runs the counting loop over the settled results against the specification functions `Classify`, `Tally` and `Reply`.
- `Client` (`client.dfy`) models `src/index.js`: `SetCredentials`, and the `OrbitYouTube` class whose `Create` stores its result.

The model follows the code as written:

- A comment without `videoTitle` is titled `Commented on undefined` (src/comments.js:81).
- The activity key is `youtube-comment-<id>` (src/comments.js:84).
- A rejection that is not a 422 duplicate aborts the pass (src/orbit.js:27); the stats hold only `added` and `duplicates`.
- Every request is created before any result is classified; results are classified in input order (src/orbit.js:7-19).
- `get` resolves with `undefined` after its uploads lookup, because the rest of its pipeline is commented out. The stages are modelled one by one.

## Model

| member | source | states |
|---|---|---|
| `Common.IncludesIffOccurs` | src/comments.js:23-25 | `e.includes(s)` holds exactly when `s` occurs at some position of `e` |
| `Common.Decimal` | src/orbit.js:34-35 | a rendered count is a non-empty digit string, with a leading `0` only for zero |
| `Common.DecimalRoundTrip` | src/orbit.js:34-35 | reading a rendered count back gives the count |
| `Comments.GetCommentsFromVideos` | src/comments.js:17-40 | the loop over the videos yields exactly `Aggregate(videos, outcomes)`: the accumulated stamped comments, or the first fatal error |
| `Comments.AggregateAppend` | src/comments.js:20-33 | aggregating a run of videos is aggregating its first part and then the rest, with the comments concatenated in video order and the first error winning |
| `Comments.AggregateSucceedsIffNoFatal` | src/comments.js:22-28 | aggregation succeeds iff no fetch failed with a message lacking both `commentThreads not found` and `disabled comments` |
| `Comments.AggregateFailsWithFirstFatal` | src/comments.js:26 | any other failure rejects the whole call with that failure's message and no partial result, and the first such failure is the one reported |
| `Comments.AggregateSkipsTolerated` | src/comments.js:22-28 | a video whose fetch failed with a tolerated message contributes nothing, and the videos after it are still processed |
| `Comments.AggregateProvenance` | src/comments.js:28-32 | every aggregated comment is a comment fetched for some video, copied with `videoTitle` set to that video's title |
| `Comments.FilterOutOldComments` | src/comments.js:42-54 | the filtered list is no longer than the input and holds only input comments whose truncated hour age is `<= hours` |
| `Comments.FilterIsSubsequence` | src/comments.js:45-48 | the kept comments keep their original relative order |
| `Comments.FilterKeepsExactlyRecent` | src/comments.js:45-48 | against one clock reading `now`, a comment is kept, with every occurrence, iff its truncated hour age is `<= hours`; otherwise it is dropped entirely |
| `Comments.RecentIffWithinWindow` | src/comments.js:46 | for a window `hours >= 0`, a comment is kept iff it is less than `hours + 1` full hours old, since the hour difference truncates |
| `Comments.CheckGetOptions` | src/comments.js:59-61 | a missing options object, then a falsy `channelId`, then a falsy `hours` (so `0` too) are rejected in that order with their own messages; otherwise the channel id and window pass |
| `Comments.GuardMessagesNameTheirArgument` | src/comments.js:59-61 | the three messages contain `object`, `channel` and `hours` respectively |
| `Comments.Get` | src/comments.js:56-72 | a failed guard rejects before the uploads lookup; otherwise `get` rejects iff the lookup rejects, and resolves with `undefined` |
| `Comments.PrepareComment` | src/comments.js:76-97 | every prepared pair carries the constant type, link text, tags, source and host, names its member as its identity, and has a key that reads back to the comment id |
| `Comments.ActivityKeyRoundTrip` | src/comments.js:84 | stripping `youtube-comment-` from a key gives back the comment id |
| `Comments.ActivityKeyInjective` | src/comments.js:84 | distinct comment ids give distinct keys |
| `Comments.Prepare` | src/comments.js:74-98 | one pair per comment, in order (so none for an empty list), each key reading back to its comment's id; the fields of each pair are stated by `PrepareMapsEachComment`, and keys' distinctness by `PrepareKeysDistinct` |
| `Comments.PrepareMapsEachComment` | src/comments.js:74-98 | `prepare` gives one pair per comment, in order: key, title, description, link, occurrence time, member name, uid and url come from that comment |
| `Comments.PrepareKeysDistinct` | src/comments.js:74-98 | comments with pairwise distinct ids are prepared into activities with pairwise distinct keys |
| `Comments.PrepareAppend` | src/comments.js:74-75 | preparing a concatenation is concatenating the preparations |
| `Orbit.BuildRequests` | src/orbit.js:7-17 | one request per activity, in order (so none for an empty list), each carrying that activity; the URL, method and headers are stated by `BuildRequestsOnePerActivity` |
| `Orbit.BuildRequestsOnePerActivity` | src/orbit.js:7-17 | exactly one request per activity, in input order: a POST of that activity to `options.BASE_URL/workspace/activities` with `Bearer <key>` and the versioned User-Agent |
| `Orbit.Classify` | src/orbit.js:23-31 | a result counts as added iff it is fulfilled, and a thrown error carries the rejection's `response.data.errors`; the duplicate case is stated by `DuplicateIff422WithKey`, the consequences for the pass by `TallyFailsWithFirstAbort` |
| `Orbit.DuplicateIff422WithKey` | src/orbit.js:23-25 | a settled result counts as a duplicate iff it is a rejection with status 422 and a truthy `errors.key` |
| `Orbit.TallyErrSticky` | src/orbit.js:26-27 | once the pass has thrown, the results after it change nothing |
| `Orbit.TallySucceedsIffNoAbort` | src/orbit.js:22-32 | the pass completes iff every result is fulfilled or a duplicate |
| `Orbit.TallyFailsWithFirstAbort` | src/orbit.js:26-27 | a failing pass throws the fault of the first result that is neither fulfilled nor a duplicate |
| `Orbit.TallyCounts` | src/orbit.js:20-32 | after a completed pass, `added` counts the fulfilled results and `duplicates` the duplicates, and together they account for every activity |
| `Orbit.AllFulfilledAddsAll` | src/orbit.js:20-32 | if every result is fulfilled, `added` is the number of activities and `duplicates` is 0 |
| `Orbit.ReplyShape` | src/orbit.js:34-35 | the summary starts with the `Added … Orbit workspace.` sentence and carries the duplicates sentence exactly when `duplicates > 0` |
| `Orbit.ReplyReportsAdded` | src/orbit.js:34 | the number after `Added ` in the summary reads back as the count of added activities |
| `Orbit.RenderReply` | src/orbit.js:34-35 | the `let reply` / `reply +=` construction yields exactly `Reply(stats, workspace)` |
| `Orbit.NothingToSubmit` | src/orbit.js:20-35 | an empty activity list yields `Added 0 activities to the <workspace> Orbit workspace.` and no duplicates sentence |
| `Orbit.AddActivities` | src/orbit.js:4-43 | the method builds `BuildRequests(...)` and settles with `Summarize(results, workspace)`; on success `added + duplicates` equals the number of activities |
| `Client.SetCredentials` | src/index.js:8-19 | an error is one of the four missing-credential messages, and on success all four credentials are non-empty; the order of the guards and the argument-over-environment choice are stated by `SetCredentialsFailsOnFirstMissing` and `SetCredentialsPrefersArguments` |
| `Client.SetCredentialsFailsOnFirstMissing` | src/index.js:9-12 | construction fails iff some credential is falsy in both its argument and its environment variable, and the error names the first such one in the order workspace id, Orbit key, YouTube key, channel id |
| `Client.SetCredentialsPrefersArguments` | src/index.js:13-18 | on success every credential is non-empty, equal to its argument when that is truthy and to its environment variable otherwise |
| `Client.OrbitYouTube.Create` | src/index.js:4-6 | construction throws `setCredentials`'s error, or stores exactly its result in `credentials` |

## Left out

- `getChannelUploads` and every call into the YouTube client (src/comments.js:3-15, 22). They are network I/O in a foreign library. Each fetch is an input outcome, and the `console.log` of the playlist is dropped.
- The network half of `get` (src/comments.js:63-67) is only the outcome of the uploads lookup. The commented-out pipeline is not modelled.
- `moment` date parsing and the clock (src/comments.js:46). Publication times and `now` are integer milliseconds.
- Comments.FilterOutOldComments: reads the clock once, as `now`, for the whole list, where the source calls `moment()` once per comment; two copies of a comment judged on either side of an hour boundary can be split by the source but not by the model, so `FilterKeepsExactlyRecent` holds only for a single reading.
- `new Date(...)` in `prepare` (src/comments.js:85). `occurred_at` is an opaque copy of `datePublished`.
- axios and the concurrent dispatch of the requests (src/orbit.js:8-19) are not modelled. The settled results are an input with one entry per request, in request order.
- A rejection whose `response.data` is itself missing is not distinguished from one whose `data.errors` is missing.
- Orbit.AddActivities: the throw inside the `.then` callback leaves the outer promise unsettled in JavaScript; the model reports it as an `Err` outcome instead.
- The package version in the User-Agent header is a parameter, because `package.json` is not part of this model.
- `src/bin.js` (command-line parsing, usage text, console output, the `--hours` default of 24 and its number check) is not part of this model.
- The test suite's mocking and environment setup are not modelled. The tests only inform the properties above.
- JavaScript values other than strings, integers and their absence are not modelled. A falsy string is `None` or `Some("")`, a falsy number is `None` or `Some(0)`, and `NaN` is not represented.
