/** Concrete runs of scripts/publish_central.py, derived from the contract of
    PublishCentral.Publish alone. */
module PublishScenarios {
  import opened Base
  import opened Json
  import opened Http
  import opened PublishCentral

  const Env := Environment(Some("ci-user"), Some("ci-token"), Some("bundle.zip"))

  function Auth(): Header
  {
    UserToken("ci-user", "ci-token")
  }

  /** A status response whose body is `{"deploymentState": state}`. */
  function StateReply(state: string): Reply
  {
    Answered(200, "", Some(Object([("deploymentState", Str(state))])))
  }

  lemma StateReplyVerdict(state: string)
    ensures PollVerdict(StateReply(state)) ==
      if state == "PUBLISHED" then Published else if state == "FAILED" then Failed([]) else Pending
  {
    assert Get([("deploymentState", Str(state))], "deploymentState") == Some(Str(state));
    assert Get([("deploymentState", Str(state))], "errors") == None;
  }

  /** The upload response `"<id>"`, as the service sends it. */
  function UploadReply(id: string): Reply
  {
    Answered(201, "\"" + id + "\"", None)
  }

  /** 10 s between successive polls, starting at 0. */
  function TenSecondTicks(k: nat): real
  {
    if k == 0 then 0.0 else 10.0 * (k - 1) as real
  }

  lemma TenSecondTicksAdvance()
    ensures SleepsAdvance(TenSecondTicks)
  {
  }

  lemma QuotedUploadId(id: string)
    requires '"' !in id
    ensures ExtractId(UploadReply(id).text) == id
  {
    ExtractIdOfQuotedText("", id, "");
    assert "" + ['"'] + id + ['"'] + "" == "\"" + id + "\"";
  }

  /** VALIDATING, PUBLISHING, then PUBLISHED. */
  function ThreeStates(id: string, k: nat): Reply
  {
    if k == 0 then UploadReply(id)
    else if k == 1 then StateReply("VALIDATING")
    else if k == 2 then StateReply("PUBLISHING")
    else StateReply("PUBLISHED")
  }

  /** Upload accepted with a quoted id (abc123, say), then VALIDATING,
      PUBLISHING, PUBLISHED: exit 0 after exactly three polls, all for that
      id, and no drop. */
  method PublishedOnThirdPoll(id: string) returns (run: Run)
    requires '"' !in id
    ensures run.exitCode == 0
    ensures run.requests == [UploadRequest("bundle.zip", Auth())] + StatusPolls(id, Auth(), 3)
  {
    TenSecondTicksAdvance();
    QuotedUploadId(id);
    StateReplyVerdict("VALIDATING");
    StateReplyVerdict("PUBLISHING");
    StateReplyVerdict("PUBLISHED");
    var script := (k: nat) => ThreeStates(id, k);
    assert Configured(Env) && UploadAccepted(script(0));
    run := Publish(Env, true, script, TenSecondTicks);
    var polls := |run.requests| - 1;
    assert PollVerdict(script(1)) == Pending && PollVerdict(script(2)) == Pending;
    assert PollVerdict(script(3)) == Published;
    assert polls <= 3;
    assert run.ending != TimedOut;
    assert run.ending == Success;
    assert polls == 3;
    assert run.requests == [run.requests[0]] + run.requests[1..];
  }

  /** FAILED with errors ["bad pom"]. */
  function FailsWithBadPom(id: string, k: nat): Reply
  {
    if k == 0 then UploadReply(id)
    else Answered(200, "", Some(Object([("deploymentState", Str("FAILED")),
                                        ("errors", Array([Str("bad pom")]))])))
  }

  lemma BadPomVerdict(id: string)
    ensures PollVerdict(FailsWithBadPom(id, 1)) == Failed([Str("bad pom")])
  {
    var fields := FailsWithBadPom(id, 1).body.value.fields;
    assert fields[..1] == [("deploymentState", Str("FAILED"))];
    assert Get(fields, "deploymentState") == Some(Str("FAILED"));
    assert Get(fields, "errors") == Some(Array([Str("bad pom")]));
  }

  /** Upload accepted with a quoted id (xyz, say), then FAILED with errors
      ["bad pom"]: exit 1 after one poll, the error is reported, and the
      deployment is not dropped. */
  method FailedOnFirstPoll(id: string) returns (run: Run)
    requires '"' !in id
    ensures run.exitCode == 1 && run.ending == DeploymentFailed
    ensures run.reported == [Str("bad pom")]
    ensures run.requests == [UploadRequest("bundle.zip", Auth()), StatusRequest(id, Auth())]
  {
    TenSecondTicksAdvance();
    QuotedUploadId(id);
    var script := (k: nat) => FailsWithBadPom(id, k);
    assert Configured(Env) && UploadAccepted(script(0));
    run := Publish(Env, true, script, TenSecondTicks);
    BadPomVerdict(id);
    assert PollVerdict(script(1)) == Failed([Str("bad pom")]);
    var polls := |run.requests| - 1;
    assert polls <= 1;
    assert run.ending != TimedOut;
    assert polls == 1;
    assert run.requests == [run.requests[0]] + run.requests[1..];
  }

  /** VALIDATING for ever. */
  function StaysValidating(id: string, k: nat): Reply
  {
    if k == 0 then UploadReply(id) else StateReply("VALIDATING")
  }

  /** A deployment that stays VALIDATING, polled every 10 s: exactly 61 polls
      (at elapsed 0, 10, ..., 600 s), then exit 1 on the timeout. */
  method TimesOutAfterSixtyOnePolls(id: string) returns (run: Run)
    requires '"' !in id
    ensures run.exitCode == 1 && run.ending == TimedOut
    ensures |run.requests| == 1 + MaxPolls
  {
    TenSecondTicksAdvance();
    QuotedUploadId(id);
    StateReplyVerdict("VALIDATING");
    var script := (k: nat) => StaysValidating(id, k);
    assert Configured(Env) && UploadAccepted(script(0));
    run := Publish(Env, true, script, TenSecondTicks);
    var polls := |run.requests| - 1;
    assert polls >= 1 ==> PollVerdict(script(polls)) == Pending;
    assert run.ending == TimedOut;
    assert TenSecondTicks(polls + 1) > TimeoutSeconds;
  }

  /** An upload answered 400: exit 1, and the upload is the only request. */
  method RejectedUpload() returns (run: Run)
    ensures run.exitCode == 1 && run.ending == UploadRejected(400)
    ensures run.requests == [UploadRequest("bundle.zip", Auth())]
  {
    var script := (k: nat) => if k == 0 then Answered(400, "bad bundle", None) else StateReply("PUBLISHED");
    TenSecondTicksAdvance();
    run := Publish(Env, true, script, TenSecondTicks);
  }

  /** ZIP_FILE_PATH set but empty: exit 1 before any request. */
  method EmptyBundlePath() returns (run: Run)
    ensures run.exitCode == 1 && run.requests == []
  {
    var script := (k: nat) => StateReply("PUBLISHED");
    TenSecondTicksAdvance();
    run := Publish(Environment(Some("ci-user"), Some("ci-token"), Some("")), true, script, TenSecondTicks);
  }
}
