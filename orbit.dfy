/**
 * Submission of prepared activities to an Orbit workspace: one POST
 * request per activity, then a pass over the settled results that counts
 * added and duplicate activities and renders a summary. The HTTP client
 * is replaced by the settled results, given as input.
 */
module Orbit {
  import opened Common
  import opened Comments
  import Client

  /** The `options` of `addActivities`. */
  datatype AddOptions = AddOptions(baseUrl: string, credentials: Client.Credentials)

  /** The axios request configuration built for one activity. */
  datatype Request = Request(url: string, httpMethod: string, authorization: string, userAgent: string, data: PreparedComment)

  const USER_AGENT_PREFIX := "community-js-youtube-orbit/"

  function ActivitiesUrl(baseUrl: string, workspaceId: string): string {
    baseUrl + "/" + workspaceId + "/activities"
  }

  /** The requests of `addActivities`; `version` is the package version. */
  function BuildRequests(activities: seq<PreparedComment>, options: AddOptions, version: string): (r: seq<Request>)
    ensures |r| == |activities|
    ensures forall i :: 0 <= i < |r| ==> r[i].data == activities[i]
  {
    seq(|activities|, i requires 0 <= i < |activities| =>
      Request(
        ActivitiesUrl(options.baseUrl, options.credentials.orbitWorkspaceId),
        "POST",
        "Bearer " + options.credentials.orbitApiKey,
        USER_AGENT_PREFIX + version,
        activities[i]))
  }

  /** Exactly one request per activity, in order, each a POST of that activity to the workspace with its bearer token. */
  lemma BuildRequestsOnePerActivity(activities: seq<PreparedComment>, options: AddOptions, version: string, i: nat)
    requires i < |activities|
    ensures |BuildRequests(activities, options, version)| == |activities|
    ensures var r := BuildRequests(activities, options, version)[i];
      && r.data == activities[i]
      && r.httpMethod == "POST"
      && r.url == options.baseUrl + "/" + options.credentials.orbitWorkspaceId + "/activities"
      && r.authorization == "Bearer " + options.credentials.orbitApiKey
      && r.userAgent == USER_AGENT_PREFIX + version
  {
    assert BuildRequests(activities, options, version)[i].url
      == ActivitiesUrl(options.baseUrl, options.credentials.orbitWorkspaceId);
  }

  // ---------------------------------------------------------------------------
  // Settled results and their classification

  /** `response.data.errors` of a rejection; `keyTruthy` is whether `errors.key` is truthy. */
  datatype ErrorPayload = ErrorPayload(keyTruthy: bool, rendered: string)

  /** `reason.response` of a rejection, assuming `response.data` is present. */
  datatype ErrorResponse = ErrorResponse(status: int, errors: Option<ErrorPayload>)

  /** One entry of `Promise.allSettled`; a rejection may carry no response at all. */
  datatype Settled = Fulfilled | Rejected(response: Option<ErrorResponse>)

  /**
   * Why the pass over the results throws: a property read on a missing
   * value (a TypeError), or `new Error(response.data.errors)`.
   */
  datatype Fault = Unreadable | Thrown(errors: Option<ErrorPayload>)

  datatype Verdict = Added | Duplicate | Abort(fault: Fault)

  /** What the loop body does with one settled result. */
  function Classify(result: Settled): (v: Verdict)
    ensures v == Added <==> result.Fulfilled?
    ensures v.Abort? && v.fault.Thrown? ==>
      result.Rejected? && result.response.Some? && v.fault.errors == result.response.value.errors
  {
    match result
    case Fulfilled => Added
    case Rejected(None) => Abort(Unreadable)
    case Rejected(Some(response)) =>
      if response.status == 422 then
        match response.errors
        case None => Abort(Unreadable)
        case Some(payload) => if payload.keyTruthy then Duplicate else Abort(Thrown(response.errors))
      else Abort(Thrown(response.errors))
  }

  /** A rejection counts as a duplicate exactly when it is a 422 whose `errors.key` is truthy. */
  lemma DuplicateIff422WithKey(result: Settled)
    ensures Classify(result) == Duplicate <==>
      result.Rejected? && result.response.Some? && result.response.value.status == 422
      && result.response.value.errors.Some? && result.response.value.errors.value.keyTruthy
  {
  }

  datatype Stats = Stats(added: nat, duplicates: nat)

  /** One iteration of the loop: the stats after classifying one more result. */
  function Record(acc: Result<Stats, Fault>, verdict: Verdict): Result<Stats, Fault> {
    match acc
    case Err(f) => Err(f)
    case Ok(s) =>
      match verdict
      case Added => Ok(Stats(s.added + 1, s.duplicates))
      case Duplicate => Ok(Stats(s.added, s.duplicates + 1))
      case Abort(f) => Err(f)
  }

  /** The `stats` object after the loop over `results`, or the fault that stops it. */
  function Tally(results: seq<Settled>): Result<Stats, Fault> {
    if results == [] then Ok(Stats(0, 0))
    else
      var n := |results| - 1;
      Record(Tally(results[..n]), Classify(results[n]))
  }

  function Verdicts(results: seq<Settled>): seq<Verdict> {
    seq(|results|, i requires 0 <= i < |results| => Classify(results[i]))
  }

  /** Once the pass has thrown, later results change nothing. */
  lemma {:induction false} TallyErrSticky(results: seq<Settled>, k: nat)
    requires k <= |results| && Tally(results[..k]).Err?
    ensures Tally(results) == Tally(results[..k])
    decreases |results| - k
  {
    if k < |results| {
      var n := |results| - 1;
      assert results[..n][..k] == results[..k];
      TallyErrSticky(results[..n], k);
    } else {
      assert results[..k] == results;
    }
  }

  /** The pass succeeds exactly when every result is fulfilled or a duplicate. */
  lemma {:induction false} TallySucceedsIffNoAbort(results: seq<Settled>)
    ensures Tally(results).Ok? <==> forall i :: 0 <= i < |results| ==> !Classify(results[i]).Abort?
  {
    if results != [] {
      var n := |results| - 1;
      TallySucceedsIffNoAbort(results[..n]);
      assert forall i :: 0 <= i < n ==> results[..n][i] == results[i];
    }
  }

  /** A failing pass throws the fault of the first result that is neither fulfilled nor a duplicate. */
  lemma TallyFailsWithFirstAbort(results: seq<Settled>, k: nat)
    requires k < |results| && Classify(results[k]).Abort?
    requires forall j :: 0 <= j < k ==> !Classify(results[j]).Abort?
    ensures Tally(results) == Err(Classify(results[k]).fault)
  {
    TallySucceedsIffNoAbort(results[..k]);
    assert results[..k + 1][..k] == results[..k];
    TallyErrSticky(results, k + 1);
  }

  /** After a successful pass, `added` counts fulfilled results, `duplicates` counts duplicates, and together they cover every result. */
  lemma {:induction false} TallyCounts(results: seq<Settled>)
    requires Tally(results).Ok?
    ensures Tally(results).value.added == multiset(Verdicts(results))[Added]
    ensures Tally(results).value.duplicates == multiset(Verdicts(results))[Duplicate]
    ensures Tally(results).value.added + Tally(results).value.duplicates == |results|
  {
    if results != [] {
      var n := |results| - 1;
      TallyCounts(results[..n]);
      assert Verdicts(results) == Verdicts(results[..n]) + [Classify(results[n])];
    }
  }

  /** If every request succeeded, all activities are counted as added and none as duplicates. */
  lemma {:induction false} AllFulfilledAddsAll(results: seq<Settled>)
    requires forall i :: 0 <= i < |results| ==> results[i] == Fulfilled
    ensures Tally(results) == Ok(Stats(|results|, 0))
  {
    if results != [] {
      var n := |results| - 1;
      AllFulfilledAddsAll(results[..n]);
    }
  }

  // ---------------------------------------------------------------------------
  // The summary

  const ADDED_PREFIX := "Added "

  /** The first sentence of the summary. */
  function Headline(added: nat, workspaceId: string): string {
    ADDED_PREFIX + Decimal(added) + " activities to the " + workspaceId + " Orbit workspace."
  }

  /** The sentence appended when there were duplicates. */
  function DuplicatesSentence(duplicates: nat): string {
    " Your activity list had " + Decimal(duplicates) + " duplicates which were not imported"
  }

  /** The summary string `addActivities` resolves with. */
  function Reply(stats: Stats, workspaceId: string): string {
    Headline(stats.added, workspaceId) + (if stats.duplicates > 0 then DuplicatesSentence(stats.duplicates) else "")
  }

  /** The summary starts with the headline and carries the duplicates sentence exactly when there were duplicates. */
  lemma ReplyShape(stats: Stats, workspaceId: string)
    ensures Headline(stats.added, workspaceId) <= Reply(stats, workspaceId)
    ensures stats.duplicates > 0 <==> |Reply(stats, workspaceId)| > |Headline(stats.added, workspaceId)|
    ensures stats.duplicates > 0 ==>
      Reply(stats, workspaceId)[|Headline(stats.added, workspaceId)|..] == DuplicatesSentence(stats.duplicates)
  {
    var h := Headline(stats.added, workspaceId);
    if stats.duplicates > 0 {
      assert (h + DuplicatesSentence(stats.duplicates))[|h|..] == DuplicatesSentence(stats.duplicates);
    } else {
      assert h + "" == h;
    }
  }

  /** The number after "Added " reads back as the count of added activities. */
  lemma ReplyReportsAdded(stats: Stats, workspaceId: string)
    ensures ADDED_PREFIX <= Reply(stats, workspaceId)
    ensures var rest := Reply(stats, workspaceId)[|ADDED_PREFIX|..];
      DecimalValue(LeadingDigits(rest)) == stats.added
  {
    var reply := Reply(stats, workspaceId);
    var digits := Decimal(stats.added);
    var counted := ADDED_PREFIX + digits;
    var spaced := counted + " activities to the ";
    var headline := Headline(stats.added, workspaceId);
    assert spaced <= headline;
    assert headline <= reply;
    var n := |ADDED_PREFIX|;
    var rest := reply[n..];
    forall i | 0 <= i < |digits| ensures rest[i] == digits[i] {
      assert rest[i] == spaced[n + i] == counted[n + i];
    }
    assert rest[|digits|] == spaced[|counted|] == ' ';
    LeadingDigitsOfNumeral(digits, rest);
    DecimalRoundTrip(stats.added);
  }

  /** What `addActivities` settles with: the summary, or the fault that stopped the pass. */
  function Summarize(results: seq<Settled>, workspaceId: string): Result<string, Fault> {
    match Tally(results)
    case Err(f) => Err(f)
    case Ok(s) => Ok(Reply(s, workspaceId))
  }

  /** With nothing to submit, the summary reports zero added and no duplicates. */
  lemma NothingToSubmit(workspaceId: string)
    ensures Summarize([], workspaceId) == Ok("Added 0 activities to the " + workspaceId + " Orbit workspace.")
  {
    assert Decimal(0) == "0";
    assert ADDED_PREFIX + "0" + " activities to the " == "Added 0 activities to the ";
    assert Headline(0, workspaceId) + "" == Headline(0, workspaceId);
  }

  /**
   * `addActivities`: builds one request per activity, then walks the
   * settled results (one per request, in order), counting added and
   * duplicate activities, and renders the summary.
   */
  method AddActivities(activities: seq<PreparedComment>, options: AddOptions, version: string, results: seq<Settled>)
    returns (requests: seq<Request>, outcome: Result<string, Fault>)
    requires |results| == |activities|
    ensures requests == BuildRequests(activities, options, version)
    ensures outcome == Summarize(results, options.credentials.orbitWorkspaceId)
    ensures outcome.Ok? ==> Tally(results).value.added + Tally(results).value.duplicates == |activities|
  {
    requests := BuildRequests(activities, options, version);
    var added, duplicates := 0, 0;
    for i := 0 to |results|
      invariant Tally(results[..i]) == Ok(Stats(added, duplicates))
    {
      assert results[..i + 1][..i] == results[..i];
      var result := results[i];
      var fault: Option<Fault> := None;
      if !result.Fulfilled? {
        if result.response.None? {
          fault := Some(Unreadable);
        } else if result.response.value.status == 422 && result.response.value.errors.None? {
          fault := Some(Unreadable);
        } else if result.response.value.status == 422 && result.response.value.errors.value.keyTruthy {
          duplicates := duplicates + 1;
        } else {
          fault := Some(Thrown(result.response.value.errors));
        }
      } else {
        added := added + 1;
      }
      if fault.Some? {
        assert Tally(results[..i + 1]) == Err(fault.value);
        TallyErrSticky(results, i + 1);
        outcome := Err(fault.value);
        return;
      }
    }
    assert Tally(results) == Ok(Stats(added, duplicates)) by {
      assert results[..|results|] == results;
    }
    TallyCounts(results);
    var reply := RenderReply(Stats(added, duplicates), options.credentials.orbitWorkspaceId);
    outcome := Ok(reply);
  }

  /** The summary as `addActivities` builds it: the headline, then the duplicates sentence if there were duplicates. */
  method RenderReply(stats: Stats, workspaceId: string) returns (reply: string)
    ensures reply == Reply(stats, workspaceId)
  {
    reply := ADDED_PREFIX + Decimal(stats.added) + " activities to the " + workspaceId + " Orbit workspace.";
    if stats.duplicates > 0 {
      reply := reply + " Your activity list had " + Decimal(stats.duplicates) + " duplicates which were not imported";
      assert reply == Headline(stats.added, workspaceId) + DuplicatesSentence(stats.duplicates);
    } else {
      assert reply == reply + "";
    }
  }
}
