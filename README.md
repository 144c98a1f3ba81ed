# Fitbit OAuth2 client, modelled in Dafny

This project models `Fitbit`, the one class of `fitbit.php`. It is a small
client for the Fitbit web API. It exchanges an authorization code or a refresh
token for tokens, and it keeps the latest token set. It reads the user's
profile and activity data. It also creates, deletes and lists webhook
subscriptions. Every call passes its decoded response through
`isResponseOk`, which records the upstream `errors` entry as the client's
message.

Layout:

- `values.dfy`, module `PhpValues`: decoded JSON as `json_decode($body, true)`
  gives it to PHP (`Value`). It also holds `Response`: either `Undecodable`
  (PHP's `null`) or `Decoded(value)`. `Offset` is PHP's `$response[$key]`
  and `Isset` is PHP's `isset`.
- `base64.dfy`, module `Base64`: the encoder of section 4 of RFC 4648, as PHP's
  `base64_encode` computes it, with a reference decoder. The round trip is proved.
- `requests.dfy`, module `FitbitRequests`: the request records handed to the
  transport. It builds the token endpoint's Basic header (section 2 of
  RFC 7617) and the two grant bodies (sections 4.1.3 and 6 of RFC 6749). It
  also builds the bearer headers, the subscription ids and all resource URLs.
- `responses.dfy`, module `FitbitResponses`: the `isResponseOk` test, the token
  sets the client stores, and how a run of responses sets the subscription
  status map and the message.
- `client.dfy`, module `FitbitClient`: class `Fitbit`. Its fields are `id`,
  `secret`, `redirectUrl`, `message` and `latestTokens`, plus a ghost `log` of
  issued requests. Each network method takes the decoded response as a
  parameter, in place of the transport. Its helper `Send` stands in for
  `curl_request`. It appends `Request(url, postData, headers, httpMethod)` to
  the log, with the method defaulting to `"post"` as `curl_request` defaults it
  (fitbit.php:213).
  Module `FitbitScenarios` holds two caller-side methods. They show what the
  contracts let a caller conclude.

Each method's `modifies` clause is its frame. Only `GetAccessToken` and
`RefreshToken` may change `latestTokens`. Only `SetMessage`, and `IsResponseOk` and the network
calls that reach it through `SetMessage`, may change `message`. Only
the constructor and the two setters may change `id`, `secret` and
`redirectUrl`.

Behaviour of the code worth noting:

- A body that fails to decode counts as success. `isset` on a `null`
  response is false. A cURL failure returns the `curl_error` text, which
  `json_decode` also turns into `null`.
- `getProfile`, `getSubscriptionUpdatedData` and `addSubscriptions` use the
  transport's default method `post`.
- Every resource call passes an empty form; `curl_request` sends the form
  as a body only for method `post`.
- The token and read calls return `false` on an error response, and so
  does `deleteSubscription`; `addSubscriptions` always returns its status
  array, marking each failing collection `false`.

## Model

| member | source | states |
|---|---|---|
| `PhpValues.Offset` | fitbit.php:80-83 | `$response[$key]` is the entry when the response is an associative array that holds the key, and null in every other case |
| `FitbitResponses.ResponseOk` | fitbit.php:184-190 | a response fails exactly when it decoded to an associative array whose `errors` entry exists and is not null; an undecodable body passes |
| `FitbitResponses.MessageAfterAllOk` | fitbit.php:184-190 | a run of passing responses leaves the message as it was |
| `FitbitResponses.MessageAfterAllLastError` | fitbit.php:184-190 | after a run of responses, the message is the non-null `errors` value of the last failing one |
| `FitbitResponses.StatusOfKeys` | fitbit.php:139-152 | the status array has one key for each collection passed in and no other key |
| `FitbitResponses.StatusOfLastResponse` | fitbit.php:139-152 | a collection's status is true iff the response to its last request passed `isResponseOk`; other collections' failures do not affect it |
| `Base64.Encode` | fitbit.php:61 | `base64_encode` yields 4·⌈n/3⌉ characters, each from the base64 alphabet or the `=` pad |
| `Base64.DecodeEncode` | fitbit.php:61 | decoding the encoded bytes gives back exactly those bytes |
| `FitbitRequests.BasicHeaderCarriesCredentials` | fitbit.php:59-66 | a token call has two headers. The second is the form content type. The first is `Authorization: Basic ` followed by base64. When the id holds no colon, a server decodes that base64 and splits it at the first colon, getting back exactly the client id and the secret |
| `FitbitRequests.FormValue` | fitbit.php:67-73 | reading a form field returns a value exactly when the key is among the form's keys, and it is a value the form pairs with that key |
| `FitbitRequests.AuthorizationCodeFormFields` | fitbit.php:67-73 | the authorization-code body has exactly the keys `code, client_id, client_secret, grant_type, redirect_uri`, in that order, holding the code, id, secret, `authorization_code` and the redirect URL |
| `FitbitRequests.RefreshFormFields` | fitbit.php:98-102 | the refresh body has exactly the keys `refresh_token, client_id, grant_type`, holding the refresh token, the id and `refresh_token`, and has no `client_secret` |
| `FitbitRequests.SubscriptionRequests` | fitbit.php:141-147 | `addSubscriptions` issues one request per collection, in order. The i-th targets `.../1/user/-/{c}/apiSubscriptions/{id}-{userId}-{c}.json` for the i-th collection c, with the bearer header, no fields and method `post` |
| `FitbitRequests.SubscriptionIdInjective` | fitbit.php:142 | for user ids without a hyphen, two subscription ids of one client are equal iff their user ids and collections are equal |
| `FitbitRequests.SubscriptionUrlInjective` | fitbit.php:143 | for collections without a slash, two subscription URLs are equal iff their collections and subscription ids are equal |
| `FitbitRequests.SubscriptionResources` | fitbit.php:139-162 | adding and deleting a subscription address the same URL, with methods `post` and `delete`; for collections without a slash, different collections of one user get different URLs |
| `FitbitClient.Fitbit.constructor` | fitbit.php:16-30 | sets `id`, `secret` and `redirectUrl` (each defaulting to the empty string); the message starts as `""`, the tokens as two empty strings with no `expires_in`, and the log is empty |
| `FitbitClient.Fitbit.SetMessage` | fitbit.php:32-34 | replaces the message and nothing else |
| `FitbitClient.Fitbit.GetMessage` | fitbit.php:36-38 | returns the current message |
| `FitbitClient.Fitbit.GetLatestTokens` | fitbit.php:44-46 | returns the current token set |
| `FitbitClient.Fitbit.SetCredentials` | fitbit.php:48-51 | changes `id` and `secret` only |
| `FitbitClient.Fitbit.SetRedirectUrl` | fitbit.php:53-55 | changes `redirectUrl` only |
| `FitbitClient.Fitbit.Send` | fitbit.php:213 | the transport's stand-in: appends one request record (method defaulting to `post`) to the log and hands back the given decoded body |
| `FitbitClient.Fitbit.IsResponseOk` | fitbit.php:184-190 | returns `ResponseOk(response)`. On failure the message becomes the `errors` value; otherwise it is unchanged |
| `FitbitClient.Fitbit.GetAccessToken` | fitbit.php:58-86 | logs one POST to the token URL with the Basic header and the authorization-code form. On an error response it returns false and keeps the tokens. Otherwise it returns, and stores, exactly the response's `access_token` and `refresh_token` |
| `FitbitClient.Fitbit.RefreshToken` | fitbit.php:89-115 | logs one POST to the token URL with the Basic header and the refresh form. On an error response it returns false and keeps the tokens. Otherwise it returns, and stores, exactly `access_token`, `refresh_token` and `expires_in` from the response |
| `FitbitClient.Fitbit.GetProfile` | fitbit.php:118-129 | logs one `post` to `.../1/user/-/profile.json` with the bearer header. It returns false on an error response and the decoded response otherwise; tokens are untouched |
| `FitbitClient.Fitbit.AddSubscriptions` | fitbit.php:139-152 | logs the requests of `SubscriptionRequests`. It returns the status map `StatusOf(collections, responses)`, and the message is the last failing response's errors; tokens are untouched |
| `FitbitClient.Fitbit.DeleteSubscription` | fitbit.php:154-163 | logs one `delete` to the subscription URL derived as in `addSubscriptions`, and returns true iff the response passes |
| `FitbitClient.Fitbit.ListSubscriptions` | fitbit.php:166-177 | logs one `get` to `.../1/user/-/apiSubscriptions.json`; returns false on an error response and the decoded response otherwise |
| `FitbitClient.Fitbit.GetSubscriptionUpdatedData` | fitbit.php:193-204 | logs one `post` to `.../1/user/{ownerId}/activities/date/{date}.json`; returns false on an error response and the decoded response otherwise |
| `FitbitClient.Fitbit.ValidateToken` | fitbit.php:207-210 | issues the same request as `getProfile` and returns exactly what `getProfile` returns |

## Left out

- `curl_request` (fitbit.php:213-235) is cURL I/O and is not modelled. That
  covers the option setting, verbose mode, disabled TLS verification and the
  `curl_error` fallback. `Send` records its four parameters and returns the
  decoded body given by the caller.
- `json_decode` is not modelled: each network method receives its result as a
  `Response`. JSON numbers are modelled as integers only; floats and PHP's
  integer overflow to float are left out.
- `http_build_query` is not modelled: the log keeps the ordered form fields
  that `curl_request` receives, not the URL-encoded body text.
- `Undecodable` and `Decoded(Null)` are one PHP value, `null`, but the read
  calls return them as the distinct `Answered(Undecodable)` and
  `Answered(Decoded(Null))`. Likewise a body that decodes to `false` gives
  `Answered(Decoded(Boolean(false)))`, which PHP's caller cannot tell apart
  from the error result `false`. As a consequence of the contracts, a token
  call whose body is undecodable (a cURL failure included) passes:
  `getAccessToken` stores `Tokens(Null, Null, None)` and `refreshToken`
  stores `Tokens(Null, Null, Some(Null))`.
- Reading a field of a response that decoded to a bare JSON string: PHP's
  string-offset behaviour depends on its version. The model reads such a
  field, like any field of a non-array, as null.
- `FitbitClient.Fitbit.AddSubscriptions`: the status is a `map`, so the
  insertion order of PHP's `$status` array is not kept.
- `FitbitClient.Fitbit.constructor`: `id` and `secret` are typed
  `ByteString`, strings whose characters are all below 256. PHP strings
  are byte strings, and base64 works on bytes. PHP's loose typing of
  arguments (numbers or arrays passed where a string is expected) is not
  modelled.
- The unused `$oauth` property is not modelled. Neither are the property
  defaults `app_id`, `app_secret` and `redirect_uri`, which the constructor
  always overwrites.
- The class is modelled for sequential use only; concurrency is not modelled.
