/** How the client reads a decoded response: the isResponseOk gate, the
    token sets it keeps, and the effect of a run of responses on the status
    map and the message. */
module FitbitResponses {
  import opened PhpValues

  /** isResponseOk's test, `!isset($response['errors'])`: a response fails
      only when it is an associative array whose "errors" entry is not null.
      A body that did not decode, and a null "errors" entry, both pass. */
  function ResponseOk(r: Response): (ok: bool)
    ensures ok <==> match r
      case Decoded(Object(fields)) => "errors" !in fields || fields["errors"] == Null
      case _ => true
  {
    !Isset(Offset(r, "errors"))
  }

  /** What setMessage receives from a failing response. */
  function ErrorsOf(r: Response): Value {
    Offset(r, "errors")
  }

  /** The message after isResponseOk has looked at `r`. */
  function MessageAfter(message: Value, r: Response): Value {
    if ResponseOk(r) then message else ErrorsOf(r)
  }

  /** The message after isResponseOk has looked at each of `rs` in turn. */
  function MessageAfterAll(message: Value, rs: seq<Response>): Value
    decreases |rs|
  {
    if |rs| == 0 then message
    else MessageAfter(MessageAfterAll(message, rs[..|rs| - 1]), rs[|rs| - 1])
  }

  /** A run of passing responses leaves the message alone. */
  lemma {:induction false} MessageAfterAllOk(message: Value, rs: seq<Response>)
    requires forall i | 0 <= i < |rs| :: ResponseOk(rs[i])
    ensures MessageAfterAll(message, rs) == message
    decreases |rs|
  {
    if |rs| > 0 {
      MessageAfterAllOk(message, rs[..|rs| - 1]);
    }
  }

  /** After a run of responses the message holds the errors of the last
      failing one. */
  lemma {:induction false} MessageAfterAllLastError(message: Value, rs: seq<Response>, i: nat)
    requires i < |rs| && !ResponseOk(rs[i])
    requires forall j | i < j < |rs| :: ResponseOk(rs[j])
    ensures MessageAfterAll(message, rs) == ErrorsOf(rs[i]) != Null
    decreases |rs|
  {
    if i < |rs| - 1 {
      MessageAfterAllLastError(message, rs[..|rs| - 1], i);
    }
  }

  /** The token array the client keeps: access and refresh token, and
      `expires_in` only after a refresh. */
  datatype Tokens = Tokens(accessToken: Value, refreshToken: Value, expiresIn: Option<Value>)

  /** Both tokens empty strings, no expiry entry. */
  const InitialTokens := Tokens(Text(""), Text(""), None)

  /** The tokens getAccessToken takes from a passing response. */
  function GrantedTokens(r: Response): Tokens {
    Tokens(Offset(r, "access_token"), Offset(r, "refresh_token"), None)
  }

  /** The tokens refreshToken takes from a passing response. */
  function RefreshedTokens(r: Response): Tokens {
    Tokens(Offset(r, "access_token"), Offset(r, "refresh_token"), Some(Offset(r, "expires_in")))
  }

  /** The status array addSubscriptions builds: `$status[$collection]` is
      assigned in turn for each collection. */
  function StatusOf(collections: seq<string>, responses: seq<Response>): map<string, bool>
    requires |collections| == |responses|
    decreases |collections|
  {
    if |collections| == 0 then map[]
    else
      var n := |collections| - 1;
      StatusOf(collections[..n], responses[..n])[collections[n] := ResponseOk(responses[n])]
  }

  /** The status array has one key per distinct collection and no other. */
  lemma {:induction false} StatusOfKeys(collections: seq<string>, responses: seq<Response>)
    requires |collections| == |responses|
    ensures forall c :: c in StatusOf(collections, responses) <==> c in collections
    decreases |collections|
  {
    if |collections| > 0 {
      var n := |collections| - 1;
      StatusOfKeys(collections[..n], responses[..n]);
      assert collections == collections[..n] + [collections[n]];
    }
  }

  /** A collection's status is whether the response to its last request passed. */
  lemma {:induction false} StatusOfLastResponse(collections: seq<string>, responses: seq<Response>, i: nat)
    requires |collections| == |responses| && i < |collections|
    requires forall j | i < j < |collections| :: collections[j] != collections[i]
    ensures collections[i] in StatusOf(collections, responses)
    ensures StatusOf(collections, responses)[collections[i]] == ResponseOk(responses[i])
    decreases |collections|
  {
    var n := |collections| - 1;
    if i < n {
      StatusOfLastResponse(collections[..n], responses[..n], i);
    }
  }
}
