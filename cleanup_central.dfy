/** scripts/cleanup_central.py: list the deployments on the Central
    publisher API, show or drop one of them, or drop every FAILED (or every
    non-PUBLISHED) deployment. */
module CleanupCentral {
  import opened Base
  import opened Json
  import opened Http

  /** OSSRH_USERNAME and OSSRH_PASSWORD. */
  datatype Credentials = Credentials(username: Option<string>, password: Option<string>)

  /** get_auth_header (lines 34-45); `None` stands for its `sys.exit(1)`. */
  function AuthHeader(env: Credentials): (h: Option<Header>)
    ensures h.None? <==> !Present(env.username) || !Present(env.password)
    ensures h.Some? ==> h.value.scheme == "UserToken"
    ensures h.Some? ==> h.value.token.text == env.username.value + ":" + env.password.value
  {
    if !Present(env.username) || !Present(env.password) then None
    else Some(UserToken(env.username.value, env.password.value))
  }

  /** The exit code, the requests issued in order, and what each
      drop_deployment call returned. */
  datatype Run = Run(exitCode: int, requests: seq<Request>, dropResults: seq<bool>)

  // ---------------------------------------------------------------------------
  // Response classification
  // ---------------------------------------------------------------------------

  /** drop_deployment's return value (lines 132-145): true exactly on a 200 or
      204 response; any other status and any exception give false, so the
      call never raises. */
  function DropSucceeded(reply: Reply): (ok: bool)
    ensures ok ==> reply.Answered? && (reply.status == 200 || reply.status == 204)
    ensures reply.Answered? && (reply.status == 200 || reply.status == 204) ==> ok
  {
    match reply
    case Raised => false
    case Answered(status, _, _) => status in {200, 204}
  }

  /** get_deployment_status's return value (lines 111-122): the decoded body
      of a 200 response; `None` for any other status, for an exception and
      for a 200 whose body is not JSON (`.json()` raises inside the `try`). */
  function StatusResult(reply: Reply): (r: Option<Value>)
    ensures r.Some? <==> reply.Answered? && reply.status == 200 && reply.body.Some?
    ensures r.Some? ==> r == reply.body
  {
    match reply
    case Raised => None
    case Answered(status, _, body) => if status == 200 then body else None
  }

  /** Whether the table row of a listed entry can be printed (lines 72-87):
      the entry is a dict, and its id, state and name (each defaulting to the
      string 'unknown') accept a width in the format spec. */
  predicate Listable(d: Value)
    ensures Listable(d) <==>
      (d.Object? && Printable(Member(d, "deploymentId")) &&
       Printable(Member(d, "deploymentState")) && Printable(Member(d, "deploymentName")))
  {
    d.Object? &&
    Formattable(GetOr(d.fields, "deploymentId", Str("unknown"))) &&
    Formattable(GetOr(d.fields, "deploymentState", Str("unknown"))) &&
    Formattable(GetOr(d.fields, "deploymentName", Str("unknown")))
  }

  /** A column of the table: a missing member prints its default, a present
      one must accept a width. */
  predicate Printable(v: Option<Value>)
  {
    v.None? || Formattable(v.value)
  }

  /** list_deployments's return value (lines 58-104). On a 200 response a
      falsy body gives `[]`; a non-empty list whose rows all print is returned
      as it is; anything else raises inside the `try` (`len` of a number,
      `.get` on a string or a key, a width on None, a list or a dict) and
      gives `None`, as do 404, every other status and an exception. */
  function ListResult(reply: Reply): (r: Option<seq<Value>>)
    ensures r.Some? ==> reply.Answered? && reply.status == 200 && reply.body.Some?
    ensures r.Some? ==> forall i :: 0 <= i < |r.value| ==> Listable(r.value[i])
    ensures r.Some? && r.value != [] ==> reply.body.value == Array(r.value)
    ensures reply.Answered? && reply.status == 200 && reply.body.Some? && !Truthy(reply.body.value) ==> r == Some([])
    ensures r == Some([]) ==> reply.Answered? && reply.body.Some? && !Truthy(reply.body.value)
  {
    match reply
    case Raised => None
    case Answered(status, _, body) =>
      if status != 200 || body.None? then None
      else if !Truthy(body.value) then Some([])
      else if body.value.Array? && forall i :: 0 <= i < |body.value.items| ==> Listable(body.value.items[i])
      then Some(body.value.items)
      else None
  }

  /** A 200 response carrying a list of printable deployments is listed as
      it is, and one with a falsy body as the empty list. */
  lemma ListingRoundTrip(text: string, ds: seq<Value>)
    requires forall i :: 0 <= i < |ds| ==> Listable(ds[i])
    ensures ListResult(Answered(200, text, Some(Array(ds)))) == Some(ds)
  {
  }

  /** The listing fails (`None`) on 404, and on any status but 200. */
  lemma ListingNeedsOk(reply: Reply)
    requires reply.Answered? && reply.status != 200
    ensures ListResult(reply).None?
  {
  }

  // ---------------------------------------------------------------------------
  // Selection (lines 154 and 175)
  // ---------------------------------------------------------------------------

  /** `d.get('deploymentState')`. */
  function StateOf(d: Value): Option<Value>
  {
    Member(d, "deploymentState")
  }

  /** `d.get('deploymentState') == 'FAILED'`. */
  predicate IsFailed(d: Value)
  {
    StateOf(d) == Some(Str("FAILED"))
  }

  /** `d.get('deploymentState') != 'PUBLISHED'`. */
  predicate NotPublished(d: Value)
  {
    StateOf(d) != Some(Str("PUBLISHED"))
  }

  /** An entry without a state is never FAILED, and is always selected by
      the non-PUBLISHED filter. */
  lemma MissingStateSelection(d: Value)
    requires StateOf(d).None?
    ensures !IsFailed(d) && NotPublished(d)
  {
  }

  /** The id shown as `dep_id[:8]` and passed to drop_deployment. Of the
      values a listed entry can hold there (a string, a number, a boolean or
      nothing), only a string can be sliced; the others raise `TypeError`. */
  function IdText(d: Value): (r: Option<string>)
    ensures r.Some? <==> Member(d, "deploymentId").Some? && Member(d, "deploymentId").value.Str?
    ensures r.Some? ==> Member(d, "deploymentId") == Some(Str(r.value))
  {
    match Member(d, "deploymentId")
    case Some(Str(s)) => Some(s)
    case _ => None
  }

  /** The ids of the longest prefix of `selection` whose ids can be sliced. */
  function DropIds(selection: seq<Value>): (ids: seq<string>)
    ensures |ids| <= |selection|
    ensures forall i :: 0 <= i < |ids| ==> IdText(selection[i]) == Some(ids[i])
    ensures |ids| < |selection| ==> IdText(selection[|ids|]).None?
  {
    if selection == [] then []
    else match IdText(selection[0])
      case None => []
      case Some(id) => [id] + DropIds(selection[1..])
  }

  function DropRequests(ids: seq<string>, auth: Header): (rs: seq<Request>)
    ensures |rs| == |ids|
    ensures forall i :: 0 <= i < |ids| ==> rs[i] == DropRequest(ids[i], auth)
  {
    seq(|ids|, i requires 0 <= i < |ids| => DropRequest(ids[i], auth))
  }

  /** What drop_deployment returns for the requests numbered first, ...,
      first + n - 1. */
  function DropResults(script: Script, first: nat, n: nat): (oks: seq<bool>)
    ensures |oks| == n
    ensures forall i :: 0 <= i < n ==> oks[i] == DropSucceeded(script(first + i))
  {
    seq(n, i requires 0 <= i < n => DropSucceeded(script(first + i)))
  }

  /** The `for` loop of clean_failed and clean_all over the selection, when
      its first drop is the request numbered `first`: one drop per entry
      until the first entry whose id cannot be sliced, where the uncaught
      `TypeError` ends the process with exit code 1. A failed drop does not
      stop the loop. */
  function DropPhase(selection: seq<Value>, auth: Header, script: Script, first: nat): Run
  {
    var ids := DropIds(selection);
    Run(if |ids| < |selection| then 1 else 0,
        DropRequests(ids, auth),
        DropResults(script, first, |ids|))
  }

  /** The drop loop over the entries of `ds` that `keep` selects: the j-th
      drop is for the entry at the j-th selected position, the positions
      increase (list order, each entry once), they are exactly the selected
      ones, and only an entry whose id cannot be sliced cuts the loop short. */
  lemma SelectedDrops(keep: Value -> bool, ds: seq<Value>, auth: Header, script: Script, first: nat)
    ensures var drops := DropPhase(Filter(keep, ds), auth, script, first).requests;
            var at := KeptPositions(keep, ds);
            && |drops| <= |at|
            && (forall j :: 0 <= j < |at| ==> at[j] < |ds|)
            && (forall j :: 0 <= j < |drops| ==>
                  keep(ds[at[j]]) &&
                  drops[j] == DropRequest(drops[j].deploymentId, auth) &&
                  IdText(ds[at[j]]) == Some(drops[j].deploymentId))
            && (forall j, k :: 0 <= j < k < |at| ==> at[j] < at[k])
            && (forall i :: 0 <= i < |ds| && keep(ds[i]) ==> i in at)
            && (DropPhase(Filter(keep, ds), auth, script, first).exitCode == 0 <==> |drops| == |at|)
            && (|drops| < |at| ==> IdText(ds[at[|drops|]]).None?)
  {
    FilterByPositions(keep, ds);
  }

  // ---------------------------------------------------------------------------
  // The drop loops
  // ---------------------------------------------------------------------------

  /** The loop body of lines 162-166 and 192-197, run over `selection`. */
  method DropEach(selection: seq<Value>, auth: Header, script: Script, first: nat) returns (run: Run)
    ensures run == DropPhase(selection, auth, script, first)
  {
    ghost var ids := DropIds(selection);
    var requests: seq<Request> := [];
    var results: seq<bool> := [];
    for i := 0 to |selection|
      invariant i <= |ids|
      invariant requests == DropRequests(ids[..i], auth)
      invariant results == DropResults(script, first, i)
    {
      var id := IdText(selection[i]);
      if id.None? {
        assert |ids| == i;
        assert ids[..i] == ids;
        return Run(1, requests, results);
      }
      assert i < |ids| && ids[i] == id.value;
      assert ids[..i + 1] == ids[..i] + [id.value];
      requests := requests + [DropRequest(id.value, auth)];
      results := results + [DropSucceeded(script(first + i))];
    }
    assert ids[..|selection|] == ids;
    return Run(0, requests, results);
  }

  /** clean_failed (lines 147-166): request 0 lists the deployments, the
      following requests drop the FAILED ones. */
  function CleanFailedRun(env: Credentials, script: Script): Run
  {
    match AuthHeader(env)
    case None => Run(1, [], [])
    case Some(auth) =>
      var listed := ListResult(script(0));
      if listed.None? || listed.value == [] then Run(0, [ListRequest(auth)], [])
      else
        var drops := DropPhase(Filter(IsFailed, listed.value), auth, script, 1);
        Run(drops.exitCode, [ListRequest(auth)] + drops.requests, drops.dropResults)
  }

  method CleanFailed(env: Credentials, script: Script) returns (run: Run)
    ensures run == CleanFailedRun(env, script)
  {
    var auth := AuthHeader(env);
    if auth.None? {
      return Run(1, [], []);
    }
    var listed := ListResult(script(0));
    if listed.None? || listed.value == [] {
      return Run(0, [ListRequest(auth.value)], []);
    }
    var failed := Filter(IsFailed, listed.value);
    var drops := DropEach(failed, auth.value, script, 1);
    run := Run(drops.exitCode, [ListRequest(auth.value)] + drops.requests, drops.dropResults);
  }

  /** Python's `str.lower` on the characters that matter here: ASCII capitals
      become lower case. No other character lowercases to 'y', 'e' or 's',
      so comparing with "yes" is unaffected by the rest of Unicode. */
  function LowerChar(c: char): char
  {
    if 'A' <= c <= 'Z' then (c as int + 32) as char else c
  }

  function Lower(s: string): string
  {
    seq(|s|, i requires 0 <= i < |s| => LowerChar(s[i]))
  }

  /** `confirm.lower() == 'yes'` (line 188). */
  predicate Confirmed(answer: string)
    ensures Confirmed(answer) <==>
      |answer| == 3 && LowerChar(answer[0]) == 'y' && LowerChar(answer[1]) == 'e' && LowerChar(answer[2]) == 's'
  {
    assert |answer| == 3 ==> Lower(answer) == [LowerChar(answer[0]), LowerChar(answer[1]), LowerChar(answer[2])];
    Lower(answer) == "yes"
  }

  /** Exactly the eight spellings of yes in any mix of case confirm. */
  lemma ConfirmedSpellings(answer: string)
    ensures Confirmed(answer) <==>
      answer in {"yes", "yeS", "yEs", "yES", "Yes", "YeS", "YEs", "YES"}
  {
    if Confirmed(answer) {
      assert |answer| == 3;
      assert Lower(answer)[0] == 'y' && Lower(answer)[1] == 'e' && Lower(answer)[2] == 's';
      assert LowerChar(answer[0]) == 'y' && LowerChar(answer[1]) == 'e' && LowerChar(answer[2]) == 's';
      assert answer == [answer[0], answer[1], answer[2]];
    }
  }

  /** clean_all (lines 168-197). `answer` is what `input()` returns; `None`
      stands for end of input, whose `EOFError` is not caught (exit code 1).
      The question is only asked when something is to be dropped. */
  function CleanAllRun(env: Credentials, answer: Option<string>, script: Script): Run
  {
    match AuthHeader(env)
    case None => Run(1, [], [])
    case Some(auth) =>
      var listed := ListResult(script(0));
      if listed.None? || listed.value == [] then Run(0, [ListRequest(auth)], [])
      else
        var toClean := Filter(NotPublished, listed.value);
        if toClean == [] then Run(0, [ListRequest(auth)], [])
        else match answer
          case None => Run(1, [ListRequest(auth)], [])
          case Some(text) =>
            if !Confirmed(text) then Run(0, [ListRequest(auth)], [])
            else
              var drops := DropPhase(toClean, auth, script, 1);
              Run(drops.exitCode, [ListRequest(auth)] + drops.requests, drops.dropResults)
  }

  method CleanAll(env: Credentials, answer: Option<string>, script: Script) returns (run: Run)
    ensures run == CleanAllRun(env, answer, script)
  {
    var auth := AuthHeader(env);
    if auth.None? {
      return Run(1, [], []);
    }
    var listed := ListResult(script(0));
    if listed.None? || listed.value == [] {
      return Run(0, [ListRequest(auth.value)], []);
    }
    var toClean := Filter(NotPublished, listed.value);
    if toClean == [] {
      return Run(0, [ListRequest(auth.value)], []);
    }
    if answer.None? {
      return Run(1, [ListRequest(auth.value)], []);
    }
    if !Confirmed(answer.value) {
      return Run(0, [ListRequest(auth.value)], []);
    }
    var drops := DropEach(toClean, auth.value, script, 1);
    run := Run(drops.exitCode, [ListRequest(auth.value)] + drops.requests, drops.dropResults);
  }

  // ---------------------------------------------------------------------------
  // Properties of the two clean-ups
  // ---------------------------------------------------------------------------

  /** clean_failed drops the FAILED entries of the listing and nothing else:
      the j-th drop is for the j-th FAILED entry in list order, every FAILED
      entry is dropped once unless an id that cannot be sliced stops the run
      with exit code 1, and entries in any other state (or none) are never
      dropped. */
  lemma CleanFailedDropsFailed(env: Credentials, script: Script)
    requires AuthHeader(env).Some? && ListResult(script(0)).Some?
    ensures var run := CleanFailedRun(env, script);
            var ds := ListResult(script(0)).value;
            var at := KeptPositions(IsFailed, ds);
            var drops := run.requests[1..];
            && run.requests[0] == ListRequest(AuthHeader(env).value)
            && |drops| <= |at|
            && (forall j :: 0 <= j < |drops| ==>
                  at[j] < |ds| && IsFailed(ds[at[j]]) &&
                  drops[j] == DropRequest(drops[j].deploymentId, AuthHeader(env).value) &&
                  IdText(ds[at[j]]) == Some(drops[j].deploymentId))
            && (forall j, k :: 0 <= j < k < |at| ==> at[j] < at[k])
            && (forall i :: 0 <= i < |ds| && IsFailed(ds[i]) ==> i in at)
            && (forall j :: 0 <= j < |at| ==> at[j] < |ds|)
            && (run.exitCode == 0 <==> |drops| == |at|)
            && (|drops| < |at| ==> IdText(ds[at[|drops|]]).None?)
  {
    var auth := AuthHeader(env).value;
    var ds := ListResult(script(0)).value;
    SelectedDrops(IsFailed, ds, auth, script, 1);
    if ds == [] {
      assert KeptPositions(IsFailed, ds) == [];
    }
  }

  /** clean_all with a confirmation drops the non-PUBLISHED entries of the
      listing, entries without a state included, in list order. */
  lemma CleanAllDropsUnpublished(env: Credentials, answer: string, script: Script)
    requires AuthHeader(env).Some? && ListResult(script(0)).Some? && Confirmed(answer)
    ensures var run := CleanAllRun(env, Some(answer), script);
            var ds := ListResult(script(0)).value;
            var at := KeptPositions(NotPublished, ds);
            var drops := run.requests[1..];
            && run.requests[0] == ListRequest(AuthHeader(env).value)
            && |drops| <= |at|
            && (forall j :: 0 <= j < |drops| ==>
                  at[j] < |ds| && NotPublished(ds[at[j]]) &&
                  drops[j] == DropRequest(drops[j].deploymentId, AuthHeader(env).value) &&
                  IdText(ds[at[j]]) == Some(drops[j].deploymentId))
            && (forall j, k :: 0 <= j < k < |at| ==> at[j] < at[k])
            && (forall i :: 0 <= i < |ds| && NotPublished(ds[i]) ==> i in at)
            && (forall j :: 0 <= j < |at| ==> at[j] < |ds|)
            && (run.exitCode == 0 <==> |drops| == |at|)
            && (|drops| < |at| ==> IdText(ds[at[|drops|]]).None?)
  {
    var auth := AuthHeader(env).value;
    var ds := ListResult(script(0)).value;
    SelectedDrops(NotPublished, ds, auth, script, 1);
    if ds == [] {
      assert KeptPositions(NotPublished, ds) == [];
    } else if Filter(NotPublished, ds) == [] {
      FilterByPositions(NotPublished, ds);
    }
  }

  /** Without a confirmation (or with nothing to clean) clean_all issues the
      listing request only. */
  lemma CleanAllNeedsConfirmation(env: Credentials, answer: Option<string>, script: Script)
    requires AuthHeader(env).Some?
    requires answer.None? || !Confirmed(answer.value)
    ensures CleanAllRun(env, answer, script).requests == [ListRequest(AuthHeader(env).value)]
    ensures CleanAllRun(env, answer, script).dropResults == []
    ensures CleanAllRun(env, answer, script).exitCode ==
      (if answer.None? && ListResult(script(0)).Some? && Filter(NotPublished, ListResult(script(0)).value) != [] then 1 else 0)
  {
  }

  /** When the listing fails or is empty, neither clean-up drops anything. */
  lemma NothingListedNothingDropped(env: Credentials, answer: Option<string>, script: Script)
    requires AuthHeader(env).Some?
    requires ListResult(script(0)).None? || ListResult(script(0)) == Some([])
    ensures CleanFailedRun(env, script) == Run(0, [ListRequest(AuthHeader(env).value)], [])
    ensures CleanAllRun(env, answer, script) == Run(0, [ListRequest(AuthHeader(env).value)], [])
  {
  }

  /** The replies to the drops neither change which drops are issued nor the
      exit code: a failed drop is only reported. */
  lemma DropRepliesIgnored(env: Credentials, answer: Option<string>, s1: Script, s2: Script)
    requires s1(0) == s2(0)
    ensures CleanFailedRun(env, s1).requests == CleanFailedRun(env, s2).requests
    ensures CleanFailedRun(env, s1).exitCode == CleanFailedRun(env, s2).exitCode
    ensures CleanAllRun(env, answer, s1).requests == CleanAllRun(env, answer, s2).requests
    ensures CleanAllRun(env, answer, s1).exitCode == CleanAllRun(env, answer, s2).exitCode
  {
  }

  // ---------------------------------------------------------------------------
  // main (lines 199-238)
  // ---------------------------------------------------------------------------

  /** The parsed command line: `--list`, `--drop ID`, `--status ID`,
      `--clean-failed`, `--clean-all`. */
  datatype Args = Args(list: bool, drop: Option<string>, status: Option<string>, cleanFailed: bool, cleanAll: bool)

  datatype Action =
    | ListAll
    | DropOne(id: string)
    | ShowStatus(id: string)
    | CleanFailedAction
    | CleanAllAction
    | Help

  /** The `if`/`elif` chain of main: an empty ID is falsy and skipped. */
  function ChooseAction(args: Args): (a: Action)
    ensures a.DropOne? ==> args.drop == Some(a.id) && a.id != ""
    ensures a.ShowStatus? ==> args.status == Some(a.id) && a.id != ""
    ensures a == Help ==> !args.list && !args.cleanFailed && !args.cleanAll
  {
    if args.list then ListAll
    else if Present(args.drop) then DropOne(args.drop.value)
    else if Present(args.status) then ShowStatus(args.status.value)
    else if args.cleanFailed then CleanFailedAction
    else if args.cleanAll then CleanAllAction
    else Help
  }

  /** Each action runs exactly when every option before it in the chain is
      unset or empty. */
  lemma DispatchPriority(args: Args)
    ensures ChooseAction(args) == ListAll <==> args.list
    ensures ChooseAction(args).DropOne? <==> !args.list && Present(args.drop)
    ensures ChooseAction(args).ShowStatus? <==> !args.list && !Present(args.drop) && Present(args.status)
    ensures ChooseAction(args) == CleanFailedAction <==>
      !args.list && !Present(args.drop) && !Present(args.status) && args.cleanFailed
    ensures ChooseAction(args) == CleanAllAction <==>
      !args.list && !Present(args.drop) && !Present(args.status) && !args.cleanFailed && args.cleanAll
    ensures ChooseAction(args) == Help <==>
      !args.list && !Present(args.drop) && !Present(args.status) && !args.cleanFailed && !args.cleanAll
  {
  }

  /** The action taken, its run, and the status printed by `--status`
      (only a truthy one is printed). */
  datatype Invocation = Invocation(action: Action, run: Run, shown: Option<Value>)

  function InvocationOf(args: Args, env: Credentials, answer: Option<string>, script: Script): Invocation
  {
    var action := ChooseAction(args);
    match action
    case Help => Invocation(action, Run(0, [], []), None)
    case CleanFailedAction => Invocation(action, CleanFailedRun(env, script), None)
    case CleanAllAction => Invocation(action, CleanAllRun(env, answer, script), None)
    case ListAll =>
      (match AuthHeader(env)
       case None => Invocation(action, Run(1, [], []), None)
       case Some(auth) => Invocation(action, Run(0, [ListRequest(auth)], []), None))
    case DropOne(id) =>
      (match AuthHeader(env)
       case None => Invocation(action, Run(1, [], []), None)
       case Some(auth) => Invocation(action, Run(0, [DropRequest(id, auth)], [DropSucceeded(script(0))]), None))
    case ShowStatus(id) =>
      (match AuthHeader(env)
       case None => Invocation(action, Run(1, [], []), None)
       case Some(auth) =>
         var status := StatusResult(script(0));
         Invocation(action, Run(0, [StatusRequest(id, auth)], []),
                    if status.Some? && Truthy(status.value) then status else None))
  }

  /** main(): one action per invocation. */
  method Invoke(args: Args, env: Credentials, answer: Option<string>, script: Script) returns (inv: Invocation)
    ensures inv == InvocationOf(args, env, answer, script)
  {
    var action := ChooseAction(args);
    if action == Help {
      return Invocation(action, Run(0, [], []), None);
    }
    if action == CleanFailedAction {
      var run := CleanFailed(env, script);
      return Invocation(action, run, None);
    }
    if action == CleanAllAction {
      var run := CleanAll(env, answer, script);
      return Invocation(action, run, None);
    }
    var auth := AuthHeader(env);
    if auth.None? {
      return Invocation(action, Run(1, [], []), None);
    }
    match action {
      case ListAll =>
        var _ := ListResult(script(0));
        inv := Invocation(action, Run(0, [ListRequest(auth.value)], []), None);
      case DropOne(id) =>
        var ok := DropSucceeded(script(0));
        inv := Invocation(action, Run(0, [DropRequest(id, auth.value)], [ok]), None);
      case ShowStatus(id) =>
        var status := StatusResult(script(0));
        var shown := if status.Some? && Truthy(status.value) then status else None;
        inv := Invocation(action, Run(0, [StatusRequest(id, auth.value)], []), shown);
    }
  }

  /** Credentials are only read by an action that talks to the service: help
      needs none, and every other action exits with code 1 before any request
      when either credential is missing or empty. */
  lemma MissingCredentials(args: Args, env: Credentials, answer: Option<string>, script: Script)
    requires !Present(env.username) || !Present(env.password)
    ensures var inv := InvocationOf(args, env, answer, script);
            inv.run.requests == [] && (inv.run.exitCode == 1 <==> inv.action != Help)
  {
  }

  /** With credentials, the exit code is 1 only when a clean-up stops on an
      uncaught exception; a failed listing, status query or drop still exits
      with 0, and at most one request is issued unless a clean-up runs. */
  lemma ExitCodeWithCredentials(args: Args, env: Credentials, answer: Option<string>, script: Script)
    requires Present(env.username) && Present(env.password)
    ensures var inv := InvocationOf(args, env, answer, script);
            && inv.run.exitCode in {0, 1}
            && (inv.run.exitCode == 1 ==> inv.action in {CleanFailedAction, CleanAllAction})
            && (inv.action !in {CleanFailedAction, CleanAllAction} ==> |inv.run.requests| <= 1)
  {
  }
}
