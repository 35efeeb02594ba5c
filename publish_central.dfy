/** scripts/publish_central.py: upload a release bundle to the Central
    publisher API, then poll the deployment's status until it is PUBLISHED,
    FAILED, or ten minutes have passed. */
module PublishCentral {
  import opened Base
  import opened Json
  import opened Http

  // ---------------------------------------------------------------------------
  // Deployment id extraction: resp.text.strip().replace('"', '')
  // ---------------------------------------------------------------------------

  /** Python's `str.isspace` for one character. */
  predicate IsSpace(c: char)
  {
    var n := c as int;
    (9 <= n <= 13) || (28 <= n <= 32) || n == 0x85 || n == 0xA0 || n == 0x1680 ||
    (0x2000 <= n <= 0x200A) || n == 0x2028 || n == 0x2029 || n == 0x202F ||
    n == 0x205F || n == 0x3000
  }

  predicate AllSpace(s: string)
  {
    forall i :: 0 <= i < |s| ==> IsSpace(s[i])
  }

  /** The length of the longest whitespace prefix of `s`. */
  function LeadingSpaces(s: string): (n: nat)
    ensures n <= |s|
    ensures forall k :: 0 <= k < n ==> IsSpace(s[k])
    ensures n < |s| ==> !IsSpace(s[n])
  {
    if s != [] && IsSpace(s[0]) then 1 + LeadingSpaces(s[1..]) else 0
  }

  /** The length of the longest whitespace suffix of `s`. */
  function TrailingSpaces(s: string): (n: nat)
    ensures n <= |s|
    ensures forall k :: |s| - n <= k < |s| ==> IsSpace(s[k])
    ensures n < |s| ==> !IsSpace(s[|s| - n - 1])
  {
    if s != [] && IsSpace(s[|s| - 1]) then
      var init := s[..|s| - 1];
      var m := TrailingSpaces(init);
      assert forall k :: |s| - 1 - m <= k < |s| - 1 ==> s[k] == init[k];
      1 + m
    else 0
  }

  /** `str.strip()`: `s` without its whitespace prefix and suffix. The result
      sits between a whitespace prefix and a whitespace suffix of `s`, and
      neither starts nor ends with whitespace itself. */
  function Strip(s: string): (r: string)
    ensures exists i ::
              0 <= i <= |s| - |r| && r == s[i..i + |r|] && AllSpace(s[..i]) && AllSpace(s[i + |r|..])
    ensures r == [] || (!IsSpace(r[0]) && !IsSpace(r[|r| - 1]))
  {
    var lead := LeadingSpaces(s);
    var rest := s[lead..];
    var trail := TrailingSpaces(rest);
    var r := rest[..|rest| - trail];
    assert r == s[lead..lead + |r|];
    assert s[lead + |r|..] == rest[|rest| - trail..];
    assert AllSpace(s[..lead]);
    r
  }

  predicate NotQuote(c: char)
  {
    c != '"'
  }

  /** `str.replace('"', '')`. */
  function RemoveQuotes(s: string): (r: string)
    ensures '"' !in r
    ensures |r| <= |s|
  {
    FilterKeeps(NotQuote, s);
    FilterByPositions(NotQuote, s);
    Filter(NotQuote, s)
  }

  /** The deployment id taken from the upload response text (line 33). */
  function ExtractId(text: string): (id: string)
    ensures '"' !in id
    ensures forall c :: c in id ==> c in text
  {
    var stripped := Strip(text);
    FilterByPositions(NotQuote, stripped);
    var id := RemoveQuotes(stripped);
    assert forall c :: c in id ==> c in stripped;
    id
  }

  /** The whitespace prefix of `before + y` is `before`, when `y` does not
      start with whitespace. */
  lemma LeadingOfPadded(before: string, y: string)
    requires AllSpace(before) && y != [] && !IsSpace(y[0])
    ensures LeadingSpaces(before + y) == |before|
  {
    var s := before + y;
    var n := LeadingSpaces(s);
    assert s[|before|] == y[0];
  }

  /** The whitespace suffix of `y + after` is `after`, when `y` does not end
      with whitespace. */
  lemma TrailingOfPadded(y: string, after: string)
    requires AllSpace(after) && y != [] && !IsSpace(y[|y| - 1])
    ensures TrailingSpaces(y + after) == |after|
  {
    var s := y + after;
    var n := TrailingSpaces(s);
    assert s[|y| - 1] == y[|y| - 1];
  }

  /** Stripping whitespace padding returns the padded text, when it neither
      starts nor ends with whitespace. */
  lemma StripPadded(before: string, x: string, after: string)
    requires AllSpace(before) && AllSpace(after)
    requires x == [] || (!IsSpace(x[0]) && !IsSpace(x[|x| - 1]))
    ensures Strip(before + x + after) == x
  {
    var s := before + x + after;
    if x == [] {
      assert AllSpace(s);
      assert LeadingSpaces(s) == |s|;
    } else {
      assert s == before + (x + after);
      LeadingOfPadded(before, x + after);
      assert s[|before|..] == x + after;
      TrailingOfPadded(x, after);
      assert (x + after)[..|x|] == x;
    }
  }

  /** The plain-text form of the upload response: an id without quotes,
      possibly padded with whitespace, is returned as it is. */
  lemma ExtractIdOfBareText(before: string, id: string, after: string)
    requires AllSpace(before) && AllSpace(after) && '"' !in id
    requires id == [] || (!IsSpace(id[0]) && !IsSpace(id[|id| - 1]))
    ensures ExtractId(before + id + after) == id
  {
    StripPadded(before, id, after);
    FilterKeepsAll(NotQuote, id);
  }

  /** Quotes around a quote-free text are removed and nothing else is. */
  lemma RemoveSurroundingQuotes(id: string)
    requires '"' !in id
    ensures RemoveQuotes(['"'] + id + ['"']) == id
  {
    FilterAppend(NotQuote, ['"'] + id, ['"']);
    FilterAppend(NotQuote, ['"'], id);
    FilterKeepsAll(NotQuote, id);
    assert ['"'][..0] == [];
  }

  /** The JSON-string form of the upload response: a quoted id without
      quotes inside, possibly padded with whitespace, is returned without its
      quotes, whatever whitespace the id itself holds. */
  lemma ExtractIdOfQuotedText(before: string, id: string, after: string)
    requires AllSpace(before) && AllSpace(after) && '"' !in id
    ensures ExtractId(before + ['"'] + id + ['"'] + after) == id
  {
    var quoted := ['"'] + id + ['"'];
    assert before + ['"'] + id + ['"'] + after == before + quoted + after;
    assert quoted[0] == '"' && quoted[|quoted| - 1] == '"';
    StripPadded(before, quoted, after);
    RemoveSurroundingQuotes(id);
  }

  /** Removing the quotes after stripping can expose whitespace: the id is
      not always free of surrounding whitespace. */
  lemma ExtractIdKeepsInnerPadding()
    ensures ExtractId("\" 42\"") == " 42"
  {
    ExtractIdOfQuotedText("", " 42", "");
    assert "" + ['"'] + " 42" + ['"'] + "" == "\" 42\"";
  }

  // ---------------------------------------------------------------------------
  // One status poll (lines 52-67)
  // ---------------------------------------------------------------------------

  /** What one poll decides. */
  datatype Verdict =
    | Pending                       // sleep 10 s and poll again
    | Published                     // sys.exit(0)
    | Failed(errors: seq<Value>)    // print each error, sys.exit(1)

  /** The decision taken on the reply to one status request. The HTTP status
      code is never inspected. Any exception in the `try` block (the request,
      a body that is not JSON, a body that is not an object and so has no
      `.get`, an `errors` value that cannot be iterated) is caught and leads
      to another poll; `sys.exit` is not caught, so PUBLISHED and FAILED end
      the run. */
  function PollVerdict(reply: Reply): (v: Verdict)
    ensures v != Pending ==> reply.Answered? && reply.body.Some? && reply.body.value.Object?
    ensures v == Published ==> Member(reply.body.value, "deploymentState") == Some(Str("PUBLISHED"))
    ensures v.Failed? ==> Member(reply.body.value, "deploymentState") == Some(Str("FAILED"))
  {
    match reply
    case Raised => Pending
    case Answered(_, _, body) =>
      if body.None? || !body.value.Object? then Pending
      else
        var fields := body.value.fields;
        var state := GetOr(fields, "deploymentState", Str("UNKNOWN"));
        if state == Str("PUBLISHED") then Published
        else if state == Str("FAILED") then
          match Iterate(GetOr(fields, "errors", Array([])))
          case Some(errors) => Failed(errors)
          case None => Pending
        else Pending
  }

  /** The poll ends the run with success exactly when the body is an object
      whose `deploymentState` is the string PUBLISHED. */
  lemma PublishedIff(reply: Reply)
    ensures PollVerdict(reply) == Published <==>
      reply.Answered? && reply.body.Some? && reply.body.value.Object? &&
      Get(reply.body.value.fields, "deploymentState") == Some(Str("PUBLISHED"))
  {
  }

  /** The poll ends the run with failure exactly when the state is FAILED and
      `errors` (default: the empty list) can be iterated; the errors reported
      are what iterating it visits. */
  lemma FailedIff(reply: Reply, errors: seq<Value>)
    ensures PollVerdict(reply) == Failed(errors) <==>
      reply.Answered? && reply.body.Some? && reply.body.value.Object? &&
      Get(reply.body.value.fields, "deploymentState") == Some(Str("FAILED")) &&
      Iterate(GetOr(reply.body.value.fields, "errors", Array([]))) == Some(errors)
  {
  }

  /** A state that is missing (read as UNKNOWN) or any other than PUBLISHED
      and FAILED keeps the loop polling, and so does a FAILED state whose
      `errors` is null, a boolean or a number. */
  lemma OtherStatesKeepPolling(status: int, text: string, fields: seq<(string, Value)>)
    requires Get(fields, "deploymentState") != Some(Str("PUBLISHED"))
    requires Get(fields, "deploymentState") != Some(Str("FAILED")) ||
             Get(fields, "errors") in {Some(Null), Some(Bool(false)), Some(Bool(true))} ||
             (Get(fields, "errors").Some? && Get(fields, "errors").value.Number?)
    ensures PollVerdict(Answered(status, text, Some(Object(fields)))) == Pending
  {
  }

  /** The decision ignores the HTTP status code and the raw text. */
  lemma PollIgnoresStatusCode(s1: int, t1: string, s2: int, t2: string, body: Option<Value>)
    ensures PollVerdict(Answered(s1, t1, body)) == PollVerdict(Answered(s2, t2, body))
  {
  }

  // ---------------------------------------------------------------------------
  // The whole run: main()
  // ---------------------------------------------------------------------------

  /** OSSRH_USERNAME, OSSRH_PASSWORD and ZIP_FILE_PATH. */
  datatype Environment = Environment(username: Option<string>, password: Option<string>, zipPath: Option<string>)

  predicate Configured(env: Environment)
  {
    Present(env.username) && Present(env.password) && Present(env.zipPath)
  }

  /** Which terminal branch of main() was taken. */
  datatype Ending =
    | MissingEnvironment          // line 14
    | BundleUnreadable            // open() raised, line 38
    | UploadRaised                // the upload request raised, line 38
    | UploadRejected(status: int) // line 31
    | Success                     // line 60
    | DeploymentFailed            // line 67
    | TimedOut                    // line 49

  /** The exit code, the requests issued in order, the branch taken and the
      errors printed for a FAILED deployment. */
  datatype Run = Run(exitCode: int, requests: seq<Request>, ending: Ending, reported: seq<Value>)

  /** `time.time()` readings: clock(0) is `start_time`, clock(k + 1) the
      reading taken before the k-th poll. */
  type Clock = nat -> real

  const TimeoutSeconds: real := 600.0
  const SleepSeconds: real := 10.0
  /** No poll is issued at or after this many polls when the clock advances
      by SleepSeconds per sleep: 10 * 61 > 600. */
  const MaxPolls: nat := 61

  /** The clock never goes back, and each `time.sleep(10)` (taken between the
      reading before a poll and the next reading) lasts at least 10 s. */
  ghost predicate SleepsAdvance(clock: Clock)
  {
    (forall j: nat :: clock(j) <= clock(j + 1)) &&
    (forall j: nat :: 1 <= j ==> clock(j) + SleepSeconds <= clock(j + 1))
  }

  function StatusPolls(id: string, auth: Header, n: nat): (polls: seq<Request>)
    ensures |polls| == n
    ensures forall k :: 0 <= k < n ==> polls[k] == StatusRequest(id, auth)
  {
    seq(n, _ => StatusRequest(id, auth))
  }

  predicate UploadAccepted(reply: Reply)
  {
    reply.Answered? && reply.status == 201
  }

  /** The polling loop (lines 43-72) for the deployment `id`: the reply to
      the k-th poll (k from 1) is script(k), and clock(k) is read just before
      it. Every poll is issued within the timeout and every poll but the last
      was answered with a non-terminal verdict; the loop stops on the first
      terminal verdict or at the first reading past the timeout. */
  method PollStatus(id: string, auth: Header, script: Script, clock: Clock)
    returns (polls: nat, ending: Ending, reported: seq<Value>)
    requires SleepsAdvance(clock)
    ensures ending in {Success, DeploymentFailed, TimedOut}
    ensures polls <= MaxPolls
    ensures forall k :: 1 <= k <= polls ==> clock(k) - clock(0) <= TimeoutSeconds
    ensures forall k :: 1 <= k < polls ==> PollVerdict(script(k)) == Pending
    ensures ending == Success ==> polls >= 1 && PollVerdict(script(polls)) == Published
    ensures ending == DeploymentFailed ==> polls >= 1 && PollVerdict(script(polls)) == Failed(reported)
    ensures ending == TimedOut ==>
      clock(polls + 1) - clock(0) > TimeoutSeconds && (polls >= 1 ==> PollVerdict(script(polls)) == Pending)
    ensures ending != DeploymentFailed ==> reported == []
  {
    var start := clock(0);
    polls := 0;
    while true
      invariant polls <= MaxPolls
      invariant clock(polls + 1) >= start + SleepSeconds * polls as real
      invariant forall k :: 1 <= k <= polls ==> clock(k) - start <= TimeoutSeconds
      invariant forall k :: 1 <= k <= polls ==> PollVerdict(script(k)) == Pending
      decreases MaxPolls - polls
    {
      if clock(polls + 1) - start > TimeoutSeconds {
        return polls, TimedOut, [];
      }
      var verdict := PollVerdict(script(polls + 1));
      if verdict == Published {
        return polls + 1, Success, [];
      }
      if verdict.Failed? {
        return polls + 1, DeploymentFailed, verdict.errors;
      }
      assert clock(polls + 2) >= clock(polls + 1) + SleepSeconds;
      polls := polls + 1;
    }
  }

  /** main(). `bundleReadable` says whether `open(zip_path, 'rb')` succeeds;
      the reply to the upload is script(0), the reply to the k-th poll is
      script(k). */
  method Publish(env: Environment, bundleReadable: bool, script: Script, clock: Clock) returns (run: Run)
    requires SleepsAdvance(clock)
    // Exit code 0 only on a PUBLISHED state; every other ending is 1.
    ensures run.exitCode == (if run.ending == Success then 0 else 1)
    ensures run.ending != DeploymentFailed ==> run.reported == []
    // Missing or empty environment variables: exit before any request.
    ensures run.ending == MissingEnvironment <==> !Configured(env)
    ensures !Configured(env) ==> run.requests == []
    ensures Configured(env) && !bundleReadable ==> run.ending == BundleUnreadable && run.requests == []
    // Upload failures: exactly the upload request, never a poll.
    ensures Configured(env) && bundleReadable ==>
      |run.requests| >= 1 &&
      run.requests[0] == UploadRequest(env.zipPath.value, UserToken(env.username.value, env.password.value))
    ensures Configured(env) && bundleReadable && script(0).Raised? ==>
      run.ending == UploadRaised && |run.requests| == 1
    ensures Configured(env) && bundleReadable && script(0).Answered? && script(0).status != 201 ==>
      run.ending == UploadRejected(script(0).status) && |run.requests| == 1
    // Accepted upload: the polls all carry the extracted id and follow PollStatus.
    ensures Configured(env) && bundleReadable && UploadAccepted(script(0)) ==>
      var auth := UserToken(env.username.value, env.password.value);
      var polls := |run.requests| - 1;
      && run.requests[1..] == StatusPolls(ExtractId(script(0).text), auth, polls)
      && run.ending in {Success, DeploymentFailed, TimedOut}
      && polls <= MaxPolls
      && (forall k :: 1 <= k <= polls ==> clock(k) - clock(0) <= TimeoutSeconds)
      && (forall k :: 1 <= k < polls ==> PollVerdict(script(k)) == Pending)
      && (run.ending == Success ==> polls >= 1 && PollVerdict(script(polls)) == Published)
      && (run.ending == DeploymentFailed ==> polls >= 1 && PollVerdict(script(polls)) == Failed(run.reported))
      && (run.ending == TimedOut ==> clock(polls + 1) - clock(0) > TimeoutSeconds &&
                                     (polls >= 1 ==> PollVerdict(script(polls)) == Pending))
    // No drop request on any path.
    ensures forall k :: 0 <= k < |run.requests| ==> !run.requests[k].DropRequest?
  {
    if !Configured(env) {
      return Run(1, [], MissingEnvironment, []);
    }
    var auth := UserToken(env.username.value, env.password.value);
    if !bundleReadable {
      return Run(1, [], BundleUnreadable, []);
    }
    var upload := script(0);
    if upload.Raised? {
      return Run(1, [UploadRequest(env.zipPath.value, auth)], UploadRaised, []);
    }
    if upload.status != 201 {
      return Run(1, [UploadRequest(env.zipPath.value, auth)], UploadRejected(upload.status), []);
    }
    var id := ExtractId(upload.text);
    var polls, ending, reported := PollStatus(id, auth, script, clock);
    var requests := [UploadRequest(env.zipPath.value, auth)] + StatusPolls(id, auth, polls);
    assert requests[1..] == StatusPolls(id, auth, polls);
    run := Run(if ending == Success then 0 else 1, requests, ending, reported);
  }
}
