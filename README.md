# Maven Central publishing scripts, modelled in Dafny

Two Python scripts talk to the Central publisher API of Maven Central.
`scripts/publish_central.py` uploads a release bundle, takes the deployment
id from the reply, and polls the status endpoint until the deployment is
PUBLISHED (exit code 0), FAILED (exit code 1) or ten minutes have passed
(exit code 1). `scripts/cleanup_central.py` lists deployments, shows or
drops one of them, and drops every FAILED deployment, or, after typing
`yes`, every deployment that is not PUBLISHED.

The model treats every HTTP exchange as data. A `Script` gives the reply
to the k-th request of a run. A reply is either an exception or a response
with a status code, a text and the result of `.json()`. A run returns its
exit code and the list of requests it issued, so every property below is
about which requests are sent, in which order and with which ids, and how
the run ends.

Files:

- `base.dfy` (module `Base`): `Option`, and the filter behind Python's
  list comprehensions with the lemma that says which positions it keeps.
- `json.dfy` (module `Json`): decoded JSON values and the Python operations
  the scripts use on them: `dict.get`, truthiness, `for` iteration, and
  formatting with a width.
- `http.dfy` (module `Http`): requests, replies, the
  `Authorization: UserToken …` header, and `Present` for an environment
  variable that is set and not empty.
- `publish_central.dfy` (module `PublishCentral`): the deployment-id
  extraction, the verdict of one status poll, the polling loop, and `main`
  as the method `Publish`.
- `publish_scenarios.dfy` (module `PublishScenarios`): concrete runs derived
  from `Publish`'s contract only.
- `cleanup_central.dfy` (module `CleanupCentral`): response
  classification, the two selections, the drop loop, `clean_failed`,
  `clean_all`, and `main` as the method `Invoke`.

`publish_central.py` is imperative. `PollStatus` is a method holding the
`while` loop, and `Publish` is the method for `main` that calls it. In `cleanup_central.py` the classifications and
selections are functions. The drop loop is the method `DropEach`, and
`CleanFailed`, `CleanAll` and `Invoke` are methods proved equal to the pure
functions `CleanFailedRun`, `CleanAllRun` and `InvocationOf`. The lemmas
state the properties of those functions.

`publish_central.py` never drops a deployment: the `Publish` contract
rules out a drop request on every path. It keeps no error counter either.
An exception while polling is retried until the 600 s timeout. The status
code of a status reply is never read (`PollIgnoresStatusCode`).

## Model

| member | source | states |
|---|---|---|
| `Base.FilterByPositions` | scripts/cleanup_central.py:154 | a list comprehension keeps, in list order and once each, exactly the elements that satisfy its condition: its j-th element is at the j-th kept position, and the kept positions increase |
| `Http.UserToken` | scripts/publish_central.py:16-18 | the header scheme is `UserToken` and the encoded text is `username:password` |
| `Json.Get` | scripts/publish_central.py:54 | `dict.get` finds the value of the last member with the key, as `json.loads` keeps the last duplicate, and finds nothing only when no member has that key |
| `Json.DistinctKeys` | scripts/publish_central.py:64-66 | iterating a decoded dict visits each member name once, in order of first occurrence |
| `Json.Iterate` | scripts/publish_central.py:64-66 | `for err in errors` visits the items of a list, the characters of a string, or the distinct keys of a dict in `DistinctKeys` order, and raises on null, booleans and numbers |
| `PublishCentral.LeadingSpaces` | scripts/publish_central.py:33 | the length of the longest prefix made only of Python whitespace |
| `PublishCentral.TrailingSpaces` | scripts/publish_central.py:33 | the length of the longest suffix made only of Python whitespace |
| `PublishCentral.Strip` | scripts/publish_central.py:33 | `strip()` returns the part of the text between a whitespace prefix and a whitespace suffix, and that part neither starts nor ends with whitespace |
| `PublishCentral.StripPadded` | scripts/publish_central.py:33 | stripping whitespace padding gives back the padded text when that text has no whitespace at its ends |
| `PublishCentral.RemoveQuotes` | scripts/publish_central.py:33 | `replace('"', '')` leaves no `"` and never lengthens the text |
| `PublishCentral.ExtractId` | scripts/publish_central.py:33 | the deployment id contains no `"`, and every character of it comes from the response text |
| `PublishCentral.ExtractIdOfBareText` | scripts/publish_central.py:33 | a quote-free id padded with whitespace is extracted unchanged |
| `PublishCentral.ExtractIdOfQuotedText` | scripts/publish_central.py:33 | a quote-free id sent as a JSON string, with optional padding, is extracted without its quotes |
| `PublishCentral.ExtractIdKeepsInnerPadding` | scripts/publish_central.py:33 | whitespace inside the quotes survives, so the id can start with a space |
| `PublishCentral.PollVerdict` | scripts/publish_central.py:51-72 | one step of the polling loop: only a JSON object can end the run, success needs `deploymentState` PUBLISHED and failure needs FAILED; `PublishedIff`, `FailedIff` and `OtherStatesKeepPolling` give the converses |
| `PublishCentral.PublishedIff` | scripts/publish_central.py:51-60 | a poll ends the run with success exactly when the body is an object whose `deploymentState` is PUBLISHED |
| `PublishCentral.FailedIff` | scripts/publish_central.py:62-67 | a poll ends the run with failure exactly when the state is FAILED and `errors` (default `[]`) can be iterated; the reported errors are what iterating visits |
| `PublishCentral.OtherStatesKeepPolling` | scripts/publish_central.py:54-72 | a missing state (read as UNKNOWN) or any state other than PUBLISHED or FAILED means another poll, as does FAILED with a non-iterable `errors` |
| `PublishCentral.PollIgnoresStatusCode` | scripts/publish_central.py:52-54 | the poll verdict does not depend on the HTTP status code or the raw text |
| `PublishCentral.PollStatus` | scripts/publish_central.py:43-72 | the loop ends PUBLISHED, FAILED or timed out; every poll is issued while elapsed time is at most 600 s; every poll before the last was non-terminal; a timeout happens only once elapsed time exceeds 600 s; at most 61 polls |
| `PublishCentral.Publish` | scripts/publish_central.py:7-72 | exit 1 with no request when a variable is missing or empty; exit 1 after the upload alone when the upload raises or is not 201; otherwise every poll carries the extracted id and the run ends as `PollStatus` says; exit 0 exactly on PUBLISHED; never a drop request |
| `PublishScenarios.PublishedOnThirdPoll` | scripts/publish_central.py:43-72 | VALIDATING, PUBLISHING, PUBLISHED gives exit 0 after exactly three polls for the uploaded id |
| `PublishScenarios.FailedOnFirstPoll` | scripts/publish_central.py:62-67 | FAILED with `errors: ["bad pom"]` gives exit 1 after one poll, reports the error, and issues no drop |
| `PublishScenarios.TimesOutAfterSixtyOnePolls` | scripts/publish_central.py:46-49 | a deployment that stays VALIDATING and is polled every 10 s gets exactly 61 polls, then exit 1 |
| `PublishScenarios.RejectedUpload` | scripts/publish_central.py:29-31 | an upload answered 400 gives exit 1 and no poll |
| `PublishScenarios.EmptyBundlePath` | scripts/publish_central.py:12-14 | an empty ZIP_FILE_PATH gives exit 1 before any request |
| `CleanupCentral.AuthHeader` | scripts/cleanup_central.py:34-45 | exit (no header) exactly when the username or the password is missing or empty; otherwise the header is `UserToken` with the encoding of `username:password` |
| `CleanupCentral.DropSucceeded` | scripts/cleanup_central.py:124-145 | `drop_deployment` returns true exactly on 200 or 204, false on any other status or an exception, and never raises |
| `CleanupCentral.StatusResult` | scripts/cleanup_central.py:106-122 | `get_deployment_status` returns the decoded body exactly on a 200 whose body is JSON, and None otherwise |
| `CleanupCentral.ListResult` | scripts/cleanup_central.py:58-104 | a listing exists only for a 200 with a JSON body; every listed entry is a dict whose table row can be printed; a non-empty listing is exactly the body's list; a falsy body (null, `{}`, `""`, 0, false) gives `[]` and only a falsy body does, so a truthy body that is not a list of printable entries (`[null]`, say) gives None |
| `CleanupCentral.Listable` | scripts/cleanup_central.py:72-87 | a table row prints exactly when the entry is a dict and each of its id, state and name is missing (printed as `unknown`) or accepts a width |
| `CleanupCentral.ListingRoundTrip` | scripts/cleanup_central.py:61-89 | a 200 response carrying a list of printable deployments is listed unchanged |
| `CleanupCentral.ListingNeedsOk` | scripts/cleanup_central.py:91-100 | 404 and every other status apart from 200 give None |
| `CleanupCentral.MissingStateSelection` | scripts/cleanup_central.py:154-175 | an entry without a state is never FAILED, and is always chosen by the non-PUBLISHED filter |
| `CleanupCentral.IdText` | scripts/cleanup_central.py:163-165 | for a listed entry, `dep_id[:8]` succeeds exactly when `deploymentId` is present and a string, and the id passed on is that string |
| `CleanupCentral.DropIds` | scripts/cleanup_central.py:162-166 | the ids of the longest prefix of the selection whose `deploymentId` is a string that can be sliced |
| `CleanupCentral.SelectedDrops` | scripts/cleanup_central.py:162-197 | the drop loop over a filtered listing drops the j-th selected entry at step j, in list order with each entry once, covers every selected entry, and stops early (exit 1) only at an entry whose id cannot be sliced |
| `CleanupCentral.DropEach` | scripts/cleanup_central.py:162-166 | the drop `for` loop issues exactly the requests and returns exactly the results of the drop phase |
| `CleanupCentral.CleanFailed` | scripts/cleanup_central.py:147-166 | the method issues exactly the requests of `clean_failed` and ends with its exit code |
| `CleanupCentral.CleanFailedDropsFailed` | scripts/cleanup_central.py:147-166 | after the listing, `clean_failed` drops the FAILED entries and no others, in list order and once each; the loop stops early (exit 1) only at a FAILED entry whose id cannot be sliced, so when every id is a string all of them are dropped |
| `CleanupCentral.CleanAll` | scripts/cleanup_central.py:168-197 | the method issues exactly the requests of `clean_all` and ends with its exit code |
| `CleanupCentral.CleanAllDropsUnpublished` | scripts/cleanup_central.py:168-197 | once confirmed, `clean_all` drops the entries that are not PUBLISHED (entries without a state included) and no others, in list order and once each; the loop stops early (exit 1) only at a selected entry whose id cannot be sliced |
| `CleanupCentral.CleanAllNeedsConfirmation` | scripts/cleanup_central.py:187-190 | without a confirmation `clean_all` issues only the listing request and drops nothing; an answer other than `yes` exits 0 (cancelled), and end of input at `input()` exits 1 when there was something to clean |
| `CleanupCentral.Confirmed` | scripts/cleanup_central.py:188 | `confirm.lower() == 'yes'` holds exactly for a three-character answer whose characters lower to y, e and s |
| `CleanupCentral.ConfirmedSpellings` | scripts/cleanup_central.py:187-188 | the answer confirms exactly when it is one of the eight upper/lower-case spellings of `yes` |
| `CleanupCentral.NothingListedNothingDropped` | scripts/cleanup_central.py:149-152 | a failed or empty listing makes both clean-ups stop after the listing request, with exit 0 |
| `CleanupCentral.DropRepliesIgnored` | scripts/cleanup_central.py:162-166 | the replies to the drops change neither the requests issued nor the exit code |
| `CleanupCentral.ChooseAction` | scripts/cleanup_central.py:219-238 | `--drop` and `--status` run with the ID given, never an empty one; help only when none of the flags is set; `DispatchPriority` gives the full priority order |
| `CleanupCentral.DispatchPriority` | scripts/cleanup_central.py:219-238 | `--list`, then a non-empty `--drop`, then a non-empty `--status`, then `--clean-failed`, then `--clean-all`, otherwise help: exactly one action per invocation |
| `CleanupCentral.Invoke` | scripts/cleanup_central.py:199-238 | `main` runs the chosen action, and only that one |
| `CleanupCentral.MissingCredentials` | scripts/cleanup_central.py:39-41 | without credentials no request is issued, and the exit code is 1 exactly when the action is not help |
| `CleanupCentral.ExitCodeWithCredentials` | scripts/cleanup_central.py:199-238 | with credentials the exit code is 0 or 1, and 1 only for a clean-up action; every other action issues at most one request and exits 0 even when that request fails. Which exceptions end a clean-up with 1 is stated by `CleanFailedDropsFailed`, `CleanAllDropsUnpublished` and `CleanAllNeedsConfirmation` |

## Left out

- Real HTTP, the `requests` library, JSON decoding and file contents. A reply's text and its `.json()` result are given independently. Whether the bundle file opens is a boolean.
- The base64 encoding of the credentials (RFC 4648, section 4) is kept symbolic as `Base64Of(text)`.
- Console output is not modelled: messages, emoji, ANSI colours, column padding, the `[:8]` id truncation and the JSON dump of a status. What output can change the control flow is modelled: a width spec that raises inside `list_deployments` (the listing becomes None), and `dep_id[:8]` on an id that is not a string (an uncaught `TypeError` that ends a clean-up with exit code 1).
- `argparse`, `os.environ` and `input()` become the values `Args`, `Environment` / `Credentials` and `answer`. End of input (`EOFError`, uncaught) is `answer == None`.
- `PublishCentral.Publish`: wall-clock time and `time.sleep` become a `Clock` of readings. The contract requires readings that never go back and sleeps that last at least 10 s. A wall clock that jumps backwards is not modelled; without this requirement the loop need not terminate.
- `PublishCentral.PollStatus`: same clock requirement as `Publish`.
- `CleanupCentral.LowerChar`: only ASCII capitals are lowered. No other Unicode character lowercases to `y`, `e` or `s`, so the comparison with `yes` is unaffected.
- Python `int` and `float` are both `Json.Number`. When an object repeats a key, lookups take the last value, as `json.loads` does. Iteration visits each key once, in first-occurrence order.
- `get_auth_header` runs before every request in `cleanup_central.py`. Its result depends only on the environment, so the model computes it once per action.
- Under `--list`, `main` ignores what `list_deployments` returns, and the table is printed inside `list_deployments`, so the model keeps just the request.
