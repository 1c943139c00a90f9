/**
 * The LinkedIn side of the server: `fetch_linkedin_profile` and
 * `fetch_linkedin_posts`, which start an Agent.ai scraping agent and poll
 * its status until a result arrives, and the endpoints
 * `POST /linkedin-profile` and `POST /linkedin-posts`, which turn a failure
 * into status 408 or 500.
 *
 * The two fetch functions differ only in their webhook and messages, so
 * they are one model with an `Agent` parameter. The requests are not made:
 * the answer to the start request is a parameter `start`, and `polls` holds
 * the answers to the status requests the loop makes before its deadline
 * passes, so running out of `polls` is the timeout. Poll intervals are
 * counted in half-seconds: the source's 2 seconds is 4, its cap of 5 is 10.
 */
module LinkedIn {
  import opened Wrappers
  import opened PyStr
  import opened Format
  import opened JsonValue
  import opened Http

  /** Which webhook: the profile scraper or the posts scraper. */
  datatype Agent = ProfileAgent | PostsAgent

  const StartFailedPrefix: string := "Failed to start agent: "
  const NoRunId: string := "Failed to start agent: No run_id received"
  const UnexpectedErrorPrefix: string := "Unexpected error: "
  const UnexpectedStatusPrefix: string := "Unexpected status code: "

  /** The first poll interval, 2 seconds, in half-seconds. */
  const FirstInterval: nat := 4
  /** The largest poll interval, 5 seconds, in half-seconds. */
  const MaxInterval: nat := 10

  /** What the start request `requests.post(start_url, ...)` gives. */
  datatype StartAnswer =
    /** A response that passed `raise_for_status`, with its decoded body. */
    | Started(body: Json)
    /** A `requests.RequestException` (a failed request or an error status), with its text. */
    | StartRequestError(message: string)
    /** Any other exception, with its text. */
    | StartError(message: string)

  /** What one status request `requests.get(status_url, ...)` gives. */
  datatype PollAnswer =
    /** A response, with its status code and, for a 200, its decoded body. */
    | Status(code: int, body: Json)
    /** A `requests.RequestException`, with its text. */
    | PollRequestError(message: string)
    /** Any other exception, with its text. */
    | PollError(message: string)

  /** The dictionary the fetch functions return; `runId` is `None` where the dictionary has no `run_id` key. */
  datatype AgentResult = AgentResult(success: bool, data: Option<Json>, error: Option<string>, runId: Option<Json>)

  /** The result of a fetch and the intervals it slept, in order. */
  datatype Run = Run(result: AgentResult, sleeps: seq<nat>)

  function Failure(error: string, runId: Option<Json>): AgentResult {
    AgentResult(false, None, Some(error), runId)
  }

  /** `min(poll_interval + 0.5, 5)` */
  function NextInterval(h: nat): nat {
    if h + 1 < MaxInterval then h + 1 else MaxInterval
  }

  /** The name Python gives the type of a non-object JSON value. */
  function TypeName(v: Json): string {
    match v
    case JNull => "NoneType"
    case JBool(_) => "bool"
    case JInt(_) => "int"
    case JStr(_) => "str"
    case JArray(_) => "list"
    case JObject(_) => "dict"
  }

  /** The text of the `AttributeError` that `v.get(...)` raises on a non-dictionary. */
  function NoGet(v: Json): string {
    "'" + TypeName(v) + "' object has no attribute 'get'"
  }

  /** `f"Timeout after {max_wait_seconds} seconds. ... may still be processing."` */
  function TimeoutMessage(agent: Agent, maxWait: int): string {
    "Timeout after " + IntStr(maxWait) + " seconds. "
    + (if agent == ProfileAgent then "Profile" else "Posts") + " may still be processing."
  }

  // ---------------------------------------------------------------------
  // The poll loop
  // ---------------------------------------------------------------------

  /** An answer after which the loop polls again: a 204, a request error, or a 200 whose `response` is empty. */
  predicate Waiting(a: PollAnswer) {
    || a.PollRequestError?
    || (a.Status? && a.code == 204)
    || (a.Status? && a.code == 200 && a.body.JObject? && !Truthy(Get(a.body.fields, "response", JNull)))
  }

  /** An answer after which the loop sleeps before polling again. */
  predicate Sleeps(a: PollAnswer) {
    a.PollRequestError? || (a.Status? && a.code == 204)
  }

  /** The result an answer that is not waiting ends the loop with. */
  function Decision(a: PollAnswer, runId: Json): AgentResult
    requires !Waiting(a)
  {
    match a
    case PollError(message) => Failure(UnexpectedErrorPrefix + message, None)
    case Status(code, body) =>
      if code == 200 then
        if body.JObject? then AgentResult(true, Some(Get(body.fields, "response", JNull)), None, Some(runId))
        else Failure(UnexpectedErrorPrefix + NoGet(body), None)
      else Failure(UnexpectedStatusPrefix + IntStr(code), Some(runId))
  }

  /** The poll loop from answer `i` on, with the current interval `h`. */
  function PollFrom(agent: Agent, polls: seq<PollAnswer>, maxWait: int, runId: Json, i: nat, h: nat): Run
    requires i <= |polls|
    decreases |polls| - i
  {
    if i == |polls| then Run(Failure(TimeoutMessage(agent, maxWait), Some(runId)), [])
    else
      var a := polls[i];
      if !Waiting(a) then Run(Decision(a, runId), [])
      else
        var rest := PollFrom(agent, polls, maxWait, runId, i + 1, if a.Status? && a.code == 204 then NextInterval(h) else h);
        if Sleeps(a) then Run(rest.result, [h] + rest.sleeps) else rest
  }

  /** The poll loop as the fetch functions start it. */
  function PollLoop(agent: Agent, polls: seq<PollAnswer>, maxWait: int, runId: Json): Run {
    PollFrom(agent, polls, maxWait, runId, 0, FirstInterval)
  }

  /** A run preceded by the sleeps `done`. */
  function After(done: seq<nat>, r: Run): Run {
    Run(r.result, done + r.sleeps)
  }

  lemma AfterStep(done: seq<nat>, h: nat, r: Run)
    ensures After(done + [h], r) == After(done, Run(r.result, [h] + r.sleeps))
  {
    assert done + [h] + r.sleeps == done + ([h] + r.sleeps);
  }

  /** The status loop of `fetch_linkedin_profile` / `fetch_linkedin_posts`. */
  method PollStatus(agent: Agent, polls: seq<PollAnswer>, maxWait: int, runId: Json)
    returns (r: AgentResult, sleeps: seq<nat>)
    ensures Run(r, sleeps) == PollLoop(agent, polls, maxWait, runId)
  {
    var interval := FirstInterval;
    var i := 0;
    sleeps := [];
    while i < |polls|
      invariant i <= |polls|
      invariant After(sleeps, PollFrom(agent, polls, maxWait, runId, i, interval)) == PollLoop(agent, polls, maxWait, runId)
      decreases |polls| - i
    {
      var a := polls[i];
      if a.PollError? {
        return Failure(UnexpectedErrorPrefix + a.message, None), sleeps;
      }
      if a.PollRequestError? {
        AfterStep(sleeps, interval, PollFrom(agent, polls, maxWait, runId, i + 1, interval));
        sleeps := sleeps + [interval];
        i := i + 1;
        continue;
      }
      if a.code == 200 {
        if !a.body.JObject? {
          return Failure(UnexpectedErrorPrefix + NoGet(a.body), None), sleeps;
        }
        var data := Get(a.body.fields, "response", JNull);
        if Truthy(data) {
          return AgentResult(true, Some(data), None, Some(runId)), sleeps;
        }
      } else if a.code == 204 {
        AfterStep(sleeps, interval, PollFrom(agent, polls, maxWait, runId, i + 1, NextInterval(interval)));
        sleeps := sleeps + [interval];
        interval := NextInterval(interval);
        i := i + 1;
        continue;
      } else {
        return Failure(UnexpectedStatusPrefix + IntStr(a.code), Some(runId)), sleeps;
      }
      i := i + 1;
    }
    r := Failure(TimeoutMessage(agent, maxWait), Some(runId));
  }

  // ---------------------------------------------------------------------
  // The whole fetch and the endpoint
  // ---------------------------------------------------------------------

  /** What `fetch_linkedin_profile` / `fetch_linkedin_posts` return, with the sleeps. */
  function FetchRun(agent: Agent, start: StartAnswer, polls: seq<PollAnswer>, maxWait: int): Run {
    match start
    case StartRequestError(message) => Run(Failure(StartFailedPrefix + message, None), [])
    case StartError(message) => Run(Failure(UnexpectedErrorPrefix + message, None), [])
    case Started(body) =>
      if !body.JObject? then Run(Failure(UnexpectedErrorPrefix + NoGet(body), None), [])
      else
        var runId := Get(body.fields, "run_id", JNull);
        if !Truthy(runId) then Run(Failure(NoRunId, None), [])
        else PollLoop(agent, polls, maxWait, runId)
  }

  /** `fetch_linkedin_profile(user_input, max_wait)` / `fetch_linkedin_posts(user_input, max_wait)` */
  method FetchAgent(agent: Agent, start: StartAnswer, polls: seq<PollAnswer>, maxWait: int)
    returns (r: AgentResult, sleeps: seq<nat>)
    ensures Run(r, sleeps) == FetchRun(agent, start, polls, maxWait)
  {
    if start.StartRequestError? {
      return Failure(StartFailedPrefix + start.message, None), [];
    }
    if start.StartError? {
      return Failure(UnexpectedErrorPrefix + start.message, None), [];
    }
    if !start.body.JObject? {
      return Failure(UnexpectedErrorPrefix + NoGet(start.body), None), [];
    }
    var runId := Get(start.body.fields, "run_id", JNull);
    if !Truthy(runId) {
      return Failure(NoRunId, None), [];
    }
    r, sleeps := PollStatus(agent, polls, maxWait, runId);
  }

  /** The answer of a successful endpoint: `{"success": True, "profile" or "posts": data, "run_id": ...}`. */
  datatype AgentReply = AgentReply(key: string, data: Json, runId: Option<Json>)

  /** The failure status: 408 when the error mentions `Timeout`, else 500. */
  function FailureStatus(error: string): int {
    if Contains(error, "Timeout") then 408 else 500
  }

  /** A result as the fetch functions build it: success with data, or failure with an error. */
  predicate Complete(r: AgentResult) {
    if r.success then r.data.Some? else r.error.Some?
  }

  /** The endpoint's answer for a fetch result. */
  function Respond(agent: Agent, r: AgentResult): Result<AgentReply, HttpError>
    requires Complete(r)
  {
    if !r.success then Err(HttpError(FailureStatus(r.error.value), r.error.value))
    else Ok(AgentReply(if agent == ProfileAgent then "profile" else "posts", r.data.value, r.runId))
  }

  /** `get_linkedin_profile(request, max_wait)` / `get_linkedin_posts(request, max_wait)` */
  method GetLinkedIn(agent: Agent, start: StartAnswer, polls: seq<PollAnswer>, maxWait: int)
    returns (r: Result<AgentReply, HttpError>, sleeps: seq<nat>)
    ensures FetchRunComplete(agent, start, polls, maxWait) && r == Respond(agent, FetchRun(agent, start, polls, maxWait).result)
    ensures sleeps == FetchRun(agent, start, polls, maxWait).sleeps
  {
    var result;
    result, sleeps := FetchAgent(agent, start, polls, maxWait);
    FetchComplete(agent, start, polls, maxWait);
    if !result.success {
      return Err(HttpError(FailureStatus(result.error.value), result.error.value)), sleeps;
    }
    r := Ok(AgentReply(if agent == ProfileAgent then "profile" else "posts", result.data.value, result.runId));
  }

  predicate FetchRunComplete(agent: Agent, start: StartAnswer, polls: seq<PollAnswer>, maxWait: int) {
    Complete(FetchRun(agent, start, polls, maxWait).result)
  }

  // ---------------------------------------------------------------------
  // A reference definition of the loop
  // ---------------------------------------------------------------------

  /** The number of 204 answers in `polls`. */
  function Processing(polls: seq<PollAnswer>): (n: nat)
    ensures n <= |polls|
  {
    if polls == [] then 0
    else Processing(polls[..|polls| - 1]) + (if polls[|polls| - 1].Status? && polls[|polls| - 1].code == 204 then 1 else 0)
  }

  /** The interval after the 204 answers of `polls`: 2 seconds, half a second more per 204, at most 5. */
  function IntervalAfter(polls: seq<PollAnswer>): nat {
    if FirstInterval + Processing(polls) < MaxInterval then FirstInterval + Processing(polls) else MaxInterval
  }

  /** The sleeps of a loop that has waited through `polls`: one per 204 or request error, each the interval after the 204s before it. */
  function Schedule(polls: seq<PollAnswer>): seq<nat> {
    if polls == [] then []
    else
      var init := polls[..|polls| - 1];
      Schedule(init) + (if Sleeps(polls[|polls| - 1]) then [IntervalAfter(init)] else [])
  }

  /** The index of the first answer from `i` on that is not waiting, or `|polls|`. */
  function FirstDecisive(polls: seq<PollAnswer>, i: nat): (k: nat)
    requires i <= |polls|
    ensures i <= k <= |polls|
    ensures forall j :: i <= j < k ==> Waiting(polls[j])
    ensures k < |polls| ==> !Waiting(polls[k])
    decreases |polls| - i
  {
    if i == |polls| || !Waiting(polls[i]) then i else FirstDecisive(polls, i + 1)
  }

  /**
   * What the loop should do: wait through every answer up to the first one
   * that is not waiting, sleeping by `Schedule`, then decide by that answer,
   * or time out when there is none.
   */
  function Expected(agent: Agent, polls: seq<PollAnswer>, maxWait: int, runId: Json): Run {
    var k := FirstDecisive(polls, 0);
    var result := if k == |polls| then Failure(TimeoutMessage(agent, maxWait), Some(runId)) else Decision(polls[k], runId);
    Run(result, Schedule(polls[..k]))
  }

  lemma ProcessingStep(polls: seq<PollAnswer>, i: nat)
    requires i < |polls|
    ensures Processing(polls[..i + 1]) == Processing(polls[..i]) + (if polls[i].Status? && polls[i].code == 204 then 1 else 0)
    ensures Schedule(polls[..i + 1]) == Schedule(polls[..i]) + (if Sleeps(polls[i]) then [IntervalAfter(polls[..i])] else [])
  {
    assert polls[..i + 1][..i] == polls[..i];
  }

  lemma {:induction false} PollFromExpected(agent: Agent, polls: seq<PollAnswer>, maxWait: int, runId: Json, i: nat)
    requires i <= FirstDecisive(polls, 0)
    ensures After(Schedule(polls[..i]), PollFrom(agent, polls, maxWait, runId, i, IntervalAfter(polls[..i])))
         == Expected(agent, polls, maxWait, runId)
    decreases |polls| - i
  {
    var k := FirstDecisive(polls, 0);
    if i == k {
      assert Schedule(polls[..i]) + [] == Schedule(polls[..i]);
    } else {
      var a := polls[i];
      assert Waiting(a);
      ProcessingStep(polls, i);
      var h := IntervalAfter(polls[..i]);
      assert IntervalAfter(polls[..i + 1]) == (if a.Status? && a.code == 204 then NextInterval(h) else h);
      PollFromExpected(agent, polls, maxWait, runId, i + 1);
      var rest := PollFrom(agent, polls, maxWait, runId, i + 1, IntervalAfter(polls[..i + 1]));
      if Sleeps(a) {
        AfterStep(Schedule(polls[..i]), h, rest);
      }
    }
  }

  /** The poll loop does what the reference definition says. */
  lemma PollLoopIsExpected(agent: Agent, polls: seq<PollAnswer>, maxWait: int, runId: Json)
    ensures PollLoop(agent, polls, maxWait, runId) == Expected(agent, polls, maxWait, runId)
  {
    var none := polls[..0];
    assert none == [];
    assert Schedule(none) == [] && IntervalAfter(none) == FirstInterval;
    PollFromExpected(agent, polls, maxWait, runId, 0);
    var r := PollLoop(agent, polls, maxWait, runId);
    assert After([], r) == r by {
      assert [] + r.sleeps == r.sleeps;
    }
  }

  // ---------------------------------------------------------------------
  // Properties of the schedule
  // ---------------------------------------------------------------------

  /** Every interval slept is between 2 and the interval after all the 204s so far, and they never shrink. */
  lemma {:induction false} ScheduleBounds(polls: seq<PollAnswer>)
    ensures forall j :: 0 <= j < |Schedule(polls)| ==> FirstInterval <= Schedule(polls)[j] <= IntervalAfter(polls)
    ensures forall j, j' :: 0 <= j < j' < |Schedule(polls)| ==> Schedule(polls)[j] <= Schedule(polls)[j']
    decreases |polls|
  {
    if polls != [] {
      ScheduleBounds(polls[..|polls| - 1]);
    }
  }

  /** The intervals slept are at most 5 seconds. */
  lemma ScheduleCapped(polls: seq<PollAnswer>)
    ensures forall j :: 0 <= j < |Schedule(polls)| ==> FirstInterval <= Schedule(polls)[j] <= MaxInterval
  {
    ScheduleBounds(polls);
  }

  /** One sleep per 204 or request error. */
  lemma {:induction false} ScheduleLength(polls: seq<PollAnswer>)
    ensures |Schedule(polls)| == |set j | 0 <= j < |polls| && Sleeps(polls[j])|
    decreases |polls|
  {
    if polls != [] {
      var n := |polls| - 1;
      var init := polls[..n];
      ScheduleLength(init);
      SleepIndicesSnoc(polls);
      if Sleeps(polls[n]) {
        var before := set j | 0 <= j < n && Sleeps(init[j]);
        assert n !in before;
      }
    }
  }

  /** The answers that sleep among `polls`: those among all but the last, and the last when it sleeps. */
  lemma SleepIndicesSnoc(polls: seq<PollAnswer>)
    requires polls != []
    ensures var n := |polls| - 1;
      (set j | 0 <= j < |polls| && Sleeps(polls[j]))
      == (set j | 0 <= j < n && Sleeps(polls[..n][j])) + (if Sleeps(polls[n]) then {n} else {})
  {
    var n := |polls| - 1;
    assert forall j :: 0 <= j < n ==> polls[..n][j] == polls[j];
  }

  /** Only a 204 lengthens the interval: as long as none arrives, every sleep is the first interval of 2 seconds. */
  lemma {:induction false} ErrorsKeepFirstInterval(polls: seq<PollAnswer>)
    requires forall j :: 0 <= j < |polls| ==> !(polls[j].Status? && polls[j].code == 204)
    ensures Processing(polls) == 0
    ensures forall j :: 0 <= j < |Schedule(polls)| ==> Schedule(polls)[j] == FirstInterval
    decreases |polls|
  {
    if polls != [] {
      ErrorsKeepFirstInterval(polls[..|polls| - 1]);
    }
  }

  /** When the agent keeps answering 204, the loop sleeps 2, 2.5, 3, ... seconds, then 5 seconds each time, and times out. */
  lemma {:induction false} StillProcessingSchedule(polls: seq<PollAnswer>)
    requires forall j :: 0 <= j < |polls| ==> polls[j].Status? && polls[j].code == 204
    ensures |Schedule(polls)| == |polls|
    ensures forall k :: 0 <= k < |polls| ==>
              Schedule(polls)[k] == (if FirstInterval + k < MaxInterval then FirstInterval + k else MaxInterval)
    decreases |polls|
  {
    if polls != [] {
      var init := polls[..|polls| - 1];
      StillProcessingSchedule(init);
      AllProcessing(init);
    }
  }

  lemma {:induction false} AllProcessing(polls: seq<PollAnswer>)
    requires forall j :: 0 <= j < |polls| ==> polls[j].Status? && polls[j].code == 204
    ensures Processing(polls) == |polls|
    decreases |polls|
  {
    if polls != [] {
      AllProcessing(polls[..|polls| - 1]);
    }
  }

  // ---------------------------------------------------------------------
  // Properties of the outcome
  // ---------------------------------------------------------------------

  /** A 200 with a non-empty `response` object ends the loop with success and that data. */
  lemma {:induction false} ResponseSucceeds(agent: Agent, polls: seq<PollAnswer>, maxWait: int, runId: Json, k: nat)
    requires k < |polls| && forall j :: 0 <= j < k ==> Waiting(polls[j])
    requires polls[k].Status? && polls[k].code == 200 && polls[k].body.JObject?
    requires Truthy(Get(polls[k].body.fields, "response", JNull))
    ensures PollLoop(agent, polls, maxWait, runId).result
         == AgentResult(true, Some(Get(polls[k].body.fields, "response", JNull)), None, Some(runId))
  {
    PollLoopIsExpected(agent, polls, maxWait, runId);
    FirstDecisiveIs(polls, k);
  }

  /** Any status other than 200 and 204 ends the loop with failure naming the code. */
  lemma {:induction false} OtherStatusFails(agent: Agent, polls: seq<PollAnswer>, maxWait: int, runId: Json, k: nat)
    requires k < |polls| && forall j :: 0 <= j < k ==> Waiting(polls[j])
    requires polls[k].Status? && polls[k].code != 200 && polls[k].code != 204
    ensures PollLoop(agent, polls, maxWait, runId).result
         == Failure(UnexpectedStatusPrefix + IntStr(polls[k].code), Some(runId))
  {
    PollLoopIsExpected(agent, polls, maxWait, runId);
    FirstDecisiveIs(polls, k);
  }

  /** When every answer is waiting, the loop times out after sleeping by the schedule. */
  lemma {:induction false} WaitingTimesOut(agent: Agent, polls: seq<PollAnswer>, maxWait: int, runId: Json)
    requires forall j :: 0 <= j < |polls| ==> Waiting(polls[j])
    ensures PollLoop(agent, polls, maxWait, runId) == Run(Failure(TimeoutMessage(agent, maxWait), Some(runId)), Schedule(polls))
  {
    PollLoopIsExpected(agent, polls, maxWait, runId);
    assert polls[..|polls|] == polls;
  }

  lemma {:induction false} FirstDecisiveIs(polls: seq<PollAnswer>, k: nat)
    requires k < |polls| && forall j :: 0 <= j < k ==> Waiting(polls[j])
    requires !Waiting(polls[k])
    ensures FirstDecisive(polls, 0) == k
  {
  }

  /** Every fetch result is complete: success carries data, failure carries an error. */
  lemma FetchComplete(agent: Agent, start: StartAnswer, polls: seq<PollAnswer>, maxWait: int)
    ensures Complete(FetchRun(agent, start, polls, maxWait).result)
  {
    if start.Started? && start.body.JObject? && Truthy(Get(start.body.fields, "run_id", JNull)) {
      var runId := Get(start.body.fields, "run_id", JNull);
      PollLoopIsExpected(agent, polls, maxWait, runId);
    }
  }

  /** A string without the letter `c` contains no string that starts with `c`. */
  lemma {:induction false} AbsentLetter(s: string, p: string)
    requires |p| > 0 && forall j :: 0 <= j < |s| ==> s[j] != p[0]
    ensures !Contains(s, p)
    decreases |s|
  {
    if |s| > 0 {
      AbsentLetter(s[1..], p);
      if |p| <= |s| {
        assert s[..|p|][0] != p[0];
      }
    }
  }

  /** The endpoints answer 408 exactly when the error mentions `Timeout`, and 500 for every other failure. */
  lemma RespondStatus(agent: Agent, r: AgentResult)
    requires Complete(r)
    ensures Respond(agent, r).Err? <==> !r.success
    ensures !r.success ==> Respond(agent, r).error.detail == r.error.value
    ensures !r.success ==> (Respond(agent, r).error.status == 408 <==> Contains(r.error.value, "Timeout"))
    ensures !r.success ==> (Respond(agent, r).error.status == 500 <==> !Contains(r.error.value, "Timeout"))
  {
  }

  /** A poll loop that runs out of time answers 408. */
  lemma TimeoutAnswers408(agent: Agent, maxWait: int, runId: Json)
    ensures Respond(agent, Failure(TimeoutMessage(agent, maxWait), Some(runId))) == Err(HttpError(408, TimeoutMessage(agent, maxWait)))
  {
    var m := TimeoutMessage(agent, maxWait);
    assert m[..7] == "Timeout";
    ContainsAt(m, "Timeout", 0);
  }

  /** An unexpected status code answers 500. */
  lemma UnexpectedStatusAnswers500(agent: Agent, code: int, runId: Json)
    ensures var m := UnexpectedStatusPrefix + IntStr(code);
            Respond(agent, Failure(m, Some(runId))) == Err(HttpError(500, m))
  {
    var m := UnexpectedStatusPrefix + IntStr(code);
    assert forall j :: 0 <= j < |m| ==> m[j] != 'T';
    AbsentLetter(m, "Timeout");
  }

  /** A start answer without a `run_id` answers 500. */
  lemma NoRunIdAnswers500(agent: Agent, start: StartAnswer, polls: seq<PollAnswer>, maxWait: int)
    requires start.Started? && start.body.JObject? && !Truthy(Get(start.body.fields, "run_id", JNull))
    ensures Respond(agent, FetchRun(agent, start, polls, maxWait).result) == Err(HttpError(500, NoRunId))
  {
    assert forall j :: 0 <= j < |NoRunId| ==> NoRunId[j] != 'T';
    AbsentLetter(NoRunId, "Timeout");
  }
}
