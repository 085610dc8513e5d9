# nio_command: the NioCommand block in Dafny

The `NioCommand` block of the n.io platform sends a command to a n.io
service over its REST interface for every incoming signal. It builds the
command URL, `http://{host}:{port}/services/{service}[/{block}]/{command}?{query}`,
from three name expressions and a list of URL parameters evaluated against
the signal. It sends the request headers for its security method: none,
HTTP Basic, or an OAuth2 access token. It turns the decoded response into
output signals. For OAUTH it acquires the token when it is configured and
keeps a one-shot re-authentication job that acquires it again after
`reauth_interval` (default 2400 seconds).

The model, module by module:

- `Wrappers`: `Option` and `Result`.
- `Text`: decimal formatting of an integer (`'{}'.format(port)`), `sep.join` and `str.split`, each with a round-trip lemma.
- `Encoding`: `str.encode('ascii')`, and base64 with the alphabet and padding of section 4 of RFC 4648. It includes a reference decoder and proves that decoding inverts encoding.
- `Headers`: `_get_headers` as a map-valued function, and the `SecurityMethod` enum. The `BASIC` branch builds the header of section 2 of RFC 7617.
- `Params`: `_get_params` as a method with its `for` loop, proved against the function `ParamsOf`. The Python dict is an association list in insertion order, with distinct keys. `urlencode` is `k=v` items joined by `&`.
- `CommandUrl`: `_get_url` as a function over the evaluated names, the parameter dict and the header outcome.
- `Signals`: `_build_signals`, as a recursive method with the list branch's loop, proved against the function `Flattened`.
- `NioCommandBlock`: the block itself as a class. It has the properties, the token (`_access_token`) and the job handle (`_reauth_job`). It also records the set of jobs created, so that "at most one job is pending" is an invariant (`Valid`). This module also holds `configure`'s OAUTH gate, `_init_access_token`, the timer firing the job, and `_get_url` over the block's own fields, plus the source's tests and further scenarios of `_init_access_token` as methods.

These collaborators of the block are parameters of the model:

- `get_access_token` of the OAuth2 mixin is a total function `string -> Result<string, OAuth2Error>`.
- `get_access_token_headers` is a total function `Option<string> -> map<string, string>`.
- The evaluation of an expression property is an `Option<string>`, where `None` means the evaluation raised.
- The scheduler's timer is the method `FireReauthJob`, which a caller invokes when the pending job's delay has elapsed.

A failed acquisition (nio_command_block.py:116-119) only clears the token.
It neither cancels nor replaces `_reauth_job`. After a failed scheduled
refresh nothing is pending (`FireReauthJob`). After a failed second
`configure`, the job scheduled by the first stays pending
(`FailedReacquisitionKeepsJob`).

## Model

| member | source | states |
|---|---|---|
| Headers.GetHeaders | nio_command_block.py:164-173 | Content-Type is always present and is application/json unless the OAUTH token headers replace it. NONE gives exactly Content-Type, with no Authorization. OAUTH adds exactly the token headers' keys, and their values win. BASIC gives Content-Type and `Authorization: Basic` followed by the base64 of the ASCII user-pass. BASIC fails exactly when the user-pass is not ASCII, and no other method fails. |
| Headers.UserPass | nio_command_block.py:169-170 | The user-pass is the username, a ':' at the username's length, then the password. |
| Headers.BasicCredentialsRecoverable | nio_command_block.py:168-172 | Stripping "Basic " from the BASIC Authorization value and base64-decoding the rest gives back the ASCII bytes of `username:password`. |
| Headers.AdminAdminHeader | tests/test_nio_command_block.py:118-124 | Username and password "Admin" give exactly Content-Type and `Authorization: Basic QWRtaW46QWRtaW4=`. |
| Headers.OAuthBearerHeader | tests/test_nio_command_block.py:125-132 | Under OAUTH, token headers that present the token as `Bearer <token>` give exactly Content-Type and that Authorization. |
| Encoding.AsciiEncode | nio_command_block.py:171 | `encode('ascii')` succeeds exactly when every character is below 128, and then gives one byte per character with the character's code. |
| Encoding.Base64EncodeShape | nio_command_block.py:171 | The output has 4 characters per started 3-byte group. Every character is in the RFC 4648 alphabet or is '='. Padding appears only in the last two positions, and never when the length is a multiple of 3. |
| Encoding.CharOf | nio_command_block.py:171 | Each 6-bit value maps to a character of Table 1 of RFC 4648 that is not the padding, and the table's inverse maps that character back to the value. |
| Encoding.Base64RoundTrip | nio_command_block.py:171 | The reference base64 decoder gives back exactly the encoded bytes. |
| Headers.AdminAdminBase64 | tests/test_nio_command_block.py:124 | The ASCII bytes of "Admin:Admin" encode to "QWRtaW46QWRtaW4=". |
| Text.NatToDecimal | nio_command_block.py:146-148 | `'{}'.format(n)` gives at least one character, all of them digits, with no leading zero. |
| Text.NatToDecimalRoundTrip | nio_command_block.py:146-148 | Reading the formatted digits back gives the number. |
| Text.IntToDecimal | nio_command_block.py:146-148 | `'{}'.format(i)` for an integer: a minus sign exactly when i is negative, then at least one digit, with no leading zero unless i is 0. |
| Text.IntToDecimalRoundTrip | nio_command_block.py:146-148 | The port as formatted (minus sign only for negatives) reads back as the same integer. |
| Text.SplitJoin | nio_command_block.py:145-159 | Splitting a join on a separator that no part contains gives back the parts. |
| Params.Store | nio_command_block.py:126 | `params[name] = value`: an existing key keeps its position and a new key goes at the end. The key now maps to the value, every other key keeps its lookup, and keys stay distinct. |
| Params.ParamsOf | nio_command_block.py:121-130 | The collected dict has distinct keys. |
| Params.GetParams | nio_command_block.py:121-130 | The loop over the parameter entries returns `ParamsOf` of the entries. |
| Params.ParamsOfHasKey | nio_command_block.py:121-130 | A key is in the dict exactly when some entry's name and value both evaluated and the name gave that key; entries that raised are skipped. |
| Params.ParamsOfLastWins | nio_command_block.py:124-126 | A key maps to the value of the last entry that assigned it. |
| Params.ParamsOfKeepsOrder | nio_command_block.py:124-126 | Later entries never move or drop the keys that earlier entries placed. |
| Params.TwoParams | tests/test_nio_command_block.py:145-163 | The entries param1=value1 and param2=value2 give exactly those two items, in order. |
| Params.QueryRoundTrip | nio_command_block.py:151 | Items with no '&' or '=' in a key and no '&' in a value are read back from the unescaped query, in dict order. |
| Params.QueryOfParsed | nio_command_block.py:151 | Every query whose '&'-pieces each hold a '=' is the unescaped query `Query` gives for the dict it reads as, so the query string and the items it carries determine each other. |
| Params.QueryExamples | tests/test_nio_command_block.py:86-93 | The ordered items p1=v1, p2=v2 give "p1=v1&p2=v2", and no parameters give the empty query. |
| CommandUrl.BuildUrl | nio_command_block.py:132-162 | The result is `(None, None)` exactly when an evaluation raised or the service or command is empty. It raises only when the names are usable and `_get_headers` raises. Otherwise the headers returned are `_get_headers`'s. |
| CommandUrl.UrlSegments | nio_command_block.py:145-159 | With no '/' in the host, service, block, command or query, the URL split on '/' is the scheme, the authority `host:port`, "services", the service, the block (only when non-empty), then the command with its query, in that order. |
| CommandUrl.TestGetUrlNoBlock | tests/test_nio_command_block.py:47-64 | With no block, the URL is the test's template `http://{}:{}/services/{}/{}?` filled with 127.0.0.1, 8181, service and start. |
| CommandUrl.TestGetUrlBlock | tests/test_nio_command_block.py:65-77 | With block "block", the URL is the template `http://{}:{}/services/{}/{}/{}?` filled in, i.e. ending `/service/block/start?`. |
| CommandUrl.TestGetUrlParams | tests/test_nio_command_block.py:78-94 | With the ordered params p1=v1, p2=v2, the URL is the block URL followed by `p1=v1&p2=v2`. |
| Signals.Emit | nio_command_block.py:93-99 | A dict becomes a Signal carrying the dict. Any other non-list value becomes `{'resp': data}` carrying that value. |
| Signals.BuildSignals | nio_command_block.py:91-100 | The recursive method with its `extend` loop returns `Flattened(data)`. |
| Signals.FlattenedIsLeaves | nio_command_block.py:91-100 | The k-th signal is `Emit` of the k-th non-list leaf of the response, depth first. So the signal count is the number of non-list leaves. |
| Signals.FlattenedAllAppend | nio_command_block.py:95-97 | The signals of a concatenated list are the two lists' signals, concatenated in order. |
| Signals.NestedListsFlatten | nio_command_block.py:95-97 | An empty list gives no signals, and a list nested in a list gives the same signals as its elements spliced in. |
| Signals.DictGivesOneSignal | nio_command_block.py:93-94 | A dict gives exactly one Signal. |
| Signals.ScalarGivesResp | nio_command_block.py:98-99 | A value that is neither dict nor list gives exactly one `{'resp': data}`. |
| Signals.ProcessResponseExample | tests/test_nio_command_block.py:134-143 | `{'asdf': 'qwer'}` gives one signal whose `asdf` is 'qwer'. |
| NioCommandBlock.DefaultProperties | nio_command_block.py:42-56 | A default configuration has security method BASIC and a 2400-second re-authentication interval. |
| NioCommandBlock.TokenOf | nio_command_block.py:104-119 | The token left behind is the endpoint's value on success and `None` on `OAuth2Exception`. |
| NioCommandBlock.Job.Cancel | nio_command_block.py:108-109 | After `cancel()` the job is cancelled, and whether it already ran is unchanged. |
| NioCommandBlock.Job.Fire | nio_command_block.py:112-114 | A pending one-shot job runs once: afterwards it has fired, and it is cancelled exactly when it was before. |
| NioCommandBlock.NioCommand.constructor | nio_command_block.py:58-61 | A new block has no token, no job, and no pending job. |
| NioCommandBlock.NioCommand.AtMostOneLiveJob | nio_command_block.py:110-114 | In every valid state the only job that can be pending is the one in `_reauth_job`, so at most one is pending. |
| NioCommandBlock.NioCommand.InitAccessToken | nio_command_block.py:102-119 | The token becomes the endpoint's answer for scope "openid email", or `None` on `OAuth2Exception`. On success the previous job is cancelled. A fresh one-shot job with the interval as delay becomes the only pending job exactly when the interval is positive; otherwise none is pending. On failure the job field and every job are unchanged. The at-most-one-pending invariant is kept throughout. |
| NioCommandBlock.NioCommand.Configure | nio_command_block.py:63-66 | The properties take the configured values. A token is acquired, with `InitAccessToken`'s outcome, exactly when the method is OAUTH. Otherwise the token and the jobs are untouched. |
| NioCommandBlock.NioCommand.FireReauthJob | nio_command_block.py:102-119 | The pending job runs once and is no longer pending, and it re-runs the acquisition. After a failed refresh no job is pending, and the fired handle stays in the field and is not cancelled. After a successful one the fired handle is cancelled. With a positive interval a fresh one-shot job is then the only pending one; otherwise the fired handle stays in the field and nothing is pending. |
| NioCommandBlock.NioCommand.GetUrl | nio_command_block.py:132-162 | The block's `_get_url` equals `BuildUrl` over its host, port and the collected `ParamsOf`, with `GetHeaders` over its security method, token and credentials. |
| NioCommandBlock.InitAccessTokenScenario | tests/test_nio_command_block.py:30-37 | OAUTH with an endpoint answering "asdf1234" stores that token and leaves a pending job. |
| NioCommandBlock.DefaultNeverAcquires | tests/test_nio_command_block.py:39-45 | With the default properties, even a failing endpoint leaves no token and no job, because it is never asked. |
| NioCommandBlock.FailedFirstAcquisition | nio_command_block.py:116-119 | OAUTH with a raising endpoint from the initial state leaves no token and no job. |
| NioCommandBlock.RefreshScenario | nio_command_block.py:102-114 | After an acquisition and its job's refresh, the second token replaces the first. The first job is no longer pending and a new one is. |
| NioCommandBlock.FailedRefresh | nio_command_block.py:113-119 | A refresh that raises clears the token and leaves nothing pending. |
| NioCommandBlock.FailedReacquisitionKeepsJob | nio_command_block.py:116-119 | A failing second `configure` clears the token, and the job scheduled by the first stays pending. |

## Left out

- `process_signals` and `requests.get` (nio_command_block.py:68-77): network I/O inside a catch-all log loop. `GetUrl`'s `Raised` outcome is where that loop would catch `_get_headers`' exception.
- `_process_response` (nio_command_block.py:79-89): the status check only logs. JSON-or-text decoding is a library call, so `BuildSignals` takes the decoded value as a `Json`. JSON floats are not modelled, and the text fallback is a `JString`.
- The OAuth2 mixin (`get_access_token`, `get_access_token_headers`, `OAuth2Exception`) is not part of this model. It enters only as the function parameters above, with no Bearer format assumed except in `OAuthBearerHeader`'s precondition.
- The scheduler's timing and threads are left out. A job is a handle with a delay, a one-shot flag, and `cancel()`. Races between a refresh and a concurrent header read are concurrency, and are not modelled.
- Expression and property evaluation are taken as already evaluated. A name that evaluates to a non-string value (Python `None`, a number) is represented only by its truthiness: falsy is the empty string.
- Params.Query: `urlencode`'s percent-encoding is a library call, so the query is the unescaped `k=v` items joined by '&'. `QueryRoundTrip` requires only that keys hold no '&' or '=' and values no '&'. Items that `urlencode` would escape (a space, '/', or '=' in a value) still satisfy that, and the model reads them back unescaped.
- Headers.UserPass: Python formats unset credentials (`None`) as the text "None". Here the credentials are always strings.
- `get_access_token` raising anything other than `OAuth2Exception` is not modelled. `_init_access_token` (nio_command_block.py:102-119) catches only that exception, so any other error propagates out of `configure`, and inside a scheduled refresh it leaves the old token with no job pending. The endpoint parameter can only succeed or raise `OAuth2Exception`.
- Logging is left out, since it has no observable effect.
