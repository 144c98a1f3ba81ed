/** The Fitbit client object: credentials, the last error message and the
    latest tokens, updated in place by its calls. Each network call takes
    the decoded response its transport would return; the requests it issues
    are recorded in a ghost log. */
module FitbitClient {
  import opened PhpValues
  import opened Base64
  import opened FitbitRequests
  import opened FitbitResponses

  /** What the read calls return: false, or the decoded response (which is
      null when the body did not decode). */
  datatype Reply = Failed | Answered(response: Response)

  class Fitbit {
    var id: ByteString
    var secret: ByteString
    var redirectUrl: string
    var message: Value
    var latestTokens: Tokens
    /** The requests handed to the transport so far, oldest first. */
    ghost var log: seq<Request>

    constructor (id: ByteString := "", secret: ByteString := "", url: string := "")
      ensures this.id == id && this.secret == secret && redirectUrl == url
      ensures message == Text("") && latestTokens == InitialTokens && log == []
    {
      this.id := id;
      this.secret := secret;
      redirectUrl := url;
      message := Text("");
      latestTokens := InitialTokens;
      log := [];
    }

    method SetMessage(msg: Value)
      modifies this`message
      ensures message == msg
    {
      message := msg;
    }

    method GetMessage() returns (msg: Value)
      ensures msg == message
    {
      msg := message;
    }

    method GetLatestTokens() returns (tokens: Tokens)
      ensures tokens == latestTokens
    {
      tokens := latestTokens;
    }

    method SetCredentials(id: ByteString, secret: ByteString)
      modifies this`id, this`secret
      ensures this.id == id && this.secret == secret
    {
      this.id := id;
      this.secret := secret;
    }

    method SetRedirectUrl(url: string)
      modifies this`redirectUrl
      ensures redirectUrl == url
    {
      redirectUrl := url;
    }

    /** The transport: records the request and hands back the decoded
        response given for it. */
    method Send(response: Response, url: string, postData: Form, headers: seq<string>, httpMethod: string := "post")
      returns (decoded: Response)
      modifies this`log
      ensures log == old(log) + [Request(url, postData, headers, httpMethod)]
      ensures decoded == response
    {
      log := log + [Request(url, postData, headers, httpMethod)];
      decoded := response;
    }

    /** False exactly when the response carries a non-null "errors" entry,
        which then becomes the message. */
    method IsResponseOk(response: Response) returns (ok: bool)
      modifies this`message
      ensures ok == ResponseOk(response)
      ensures message == MessageAfter(old(message), response)
    {
      var errors := Offset(response, "errors");
      if Isset(errors) {
        SetMessage(errors);
        return false;
      }
      return true;
    }

    /** The authorization-code grant. */
    method GetAccessToken(code: string, response: Response) returns (tokens: Option<Tokens>)
      modifies this`latestTokens, this`message, this`log
      ensures log == old(log) + [AuthorizationCodeRequest(id, secret, redirectUrl, code)]
      ensures message == MessageAfter(old(message), response)
      ensures ResponseOk(response) ==> tokens == Some(GrantedTokens(response)) && latestTokens == GrantedTokens(response)
      ensures !ResponseOk(response) ==> tokens == None && latestTokens == old(latestTokens)
    {
      var auth := BasicCredentials(id, secret);
      var headers := [BasicPrefix + auth, FormContentType];
      var postData := AuthorizationCodeForm(code, id, secret, redirectUrl);
      var decoded := Send(response, TokenUrl, postData, headers);
      var ok := IsResponseOk(decoded);
      if !ok {
        return None;
      }
      var granted := Tokens(Offset(decoded, "access_token"), Offset(decoded, "refresh_token"), None);
      latestTokens := granted;
      return Some(granted);
    }

    /** The refresh grant. */
    method RefreshToken(refreshToken: string, response: Response) returns (tokens: Option<Tokens>)
      modifies this`latestTokens, this`message, this`log
      ensures log == old(log) + [RefreshRequest(id, secret, refreshToken)]
      ensures message == MessageAfter(old(message), response)
      ensures ResponseOk(response) ==> tokens == Some(RefreshedTokens(response)) && latestTokens == RefreshedTokens(response)
      ensures !ResponseOk(response) ==> tokens == None && latestTokens == old(latestTokens)
    {
      var auth := BasicCredentials(id, secret);
      var headers := [BasicPrefix + auth, FormContentType];
      var postData := RefreshForm(refreshToken, id);
      var decoded := Send(response, TokenUrl, postData, headers);
      var ok := IsResponseOk(decoded);
      if !ok {
        return None;
      }
      var refreshed := Tokens(Offset(decoded, "access_token"), Offset(decoded, "refresh_token"),
                              Some(Offset(decoded, "expires_in")));
      latestTokens := refreshed;
      return Some(refreshed);
    }

    method GetProfile(accessToken: string, response: Response) returns (reply: Reply)
      modifies this`message, this`log
      ensures log == old(log) + [ProfileRequest(accessToken)]
      ensures message == MessageAfter(old(message), response)
      ensures reply == if ResponseOk(response) then Answered(response) else Failed
    {
      var decoded := Send(response, ProfileUrl, [], BearerHeaders(accessToken));
      var ok := IsResponseOk(decoded);
      if !ok {
        return Failed;
      }
      return Answered(decoded);
    }

    /** One subscription request per collection, in order; the status of a
        collection is whether its response passed. */
    method AddSubscriptions(accessToken: string, userId: string, collections: seq<string>, responses: seq<Response>)
      returns (status: map<string, bool>)
      requires |responses| == |collections|
      modifies this`message, this`log
      ensures log == old(log) + SubscriptionRequests(accessToken, id, userId, collections)
      ensures message == MessageAfterAll(old(message), responses)
      ensures status == StatusOf(collections, responses)
    {
      status := map[];
      var k := 0;
      while k < |collections|
        invariant 0 <= k <= |collections|
        invariant log == old(log) + SubscriptionRequests(accessToken, id, userId, collections[..k])
        invariant message == MessageAfterAll(old(message), responses[..k])
        invariant status == StatusOf(collections[..k], responses[..k])
      {
        var collection := collections[k];
        var subscriptionId := SubscriptionId(id, userId, collection);
        var url := SubscriptionUrl(collection, subscriptionId);
        var decoded := Send(responses[k], url, [], BearerHeaders(accessToken));
        var ok := IsResponseOk(decoded);
        status := status[collection := ok];
        assert collections[..k + 1][..k] == collections[..k];
        assert responses[..k + 1][..k] == responses[..k];
        assert SubscriptionRequests(accessToken, id, userId, collections[..k + 1])
          == SubscriptionRequests(accessToken, id, userId, collections[..k])
             + [AddSubscriptionRequest(accessToken, id, userId, collection)];
        k := k + 1;
      }
      assert collections[..k] == collections && responses[..k] == responses;
    }

    method DeleteSubscription(accessToken: string, userId: string, collection: string, response: Response)
      returns (ok: bool)
      modifies this`message, this`log
      ensures log == old(log) + [DeleteSubscriptionRequest(accessToken, id, userId, collection)]
      ensures message == MessageAfter(old(message), response)
      ensures ok == ResponseOk(response)
    {
      var subscriptionId := SubscriptionId(id, userId, collection);
      var url := SubscriptionUrl(collection, subscriptionId);
      var decoded := Send(response, url, [], BearerHeaders(accessToken), "delete");
      ok := IsResponseOk(decoded);
    }

    method ListSubscriptions(accessToken: string, response: Response) returns (reply: Reply)
      modifies this`message, this`log
      ensures log == old(log) + [ListSubscriptionsRequest(accessToken)]
      ensures message == MessageAfter(old(message), response)
      ensures reply == if ResponseOk(response) then Answered(response) else Failed
    {
      var decoded := Send(response, SubscriptionsUrl, [], BearerHeaders(accessToken), "get");
      var ok := IsResponseOk(decoded);
      if !ok {
        return Failed;
      }
      return Answered(decoded);
    }

    method GetSubscriptionUpdatedData(accessToken: string, ownerId: string, date: string, response: Response)
      returns (reply: Reply)
      modifies this`message, this`log
      ensures log == old(log) + [UpdatedDataRequest(accessToken, ownerId, date)]
      ensures message == MessageAfter(old(message), response)
      ensures reply == if ResponseOk(response) then Answered(response) else Failed
    {
      var url := ActivitiesUrl(ownerId, date);
      var decoded := Send(response, url, [], BearerHeaders(accessToken));
      var ok := IsResponseOk(decoded);
      if !ok {
        return Failed;
      }
      return Answered(decoded);
    }

    /** Exactly what getProfile returns. */
    method ValidateToken(accessToken: string, response: Response) returns (reply: Reply)
      modifies this`message, this`log
      ensures log == old(log) + [ProfileRequest(accessToken)]
      ensures message == MessageAfter(old(message), response)
      ensures reply == if ResponseOk(response) then Answered(response) else Failed
    {
      reply := GetProfile(accessToken, response);
    }
  }
}

/** A caller's view: what the contracts above let a client of the class
    conclude, without looking at the method bodies. */
module FitbitScenarios {
  import opened PhpValues
  import opened Base64
  import opened FitbitResponses
  import opened FitbitClient

  /** One rejected collection does not affect the other. */
  method SubscribeTwoCollections(accessToken: string, userId: string)
  {
    var client := new Fitbit("app", "shh");
    var rejected := Decoded(Object(map["errors" := List([Text("invalid_request")])]));
    var accepted := Decoded(Object(map["collectionType" := Text("activities")]));
    var status := client.AddSubscriptions(accessToken, userId, ["activities", "sleep"], [accepted, rejected]);
    assert status == map["activities" := true, "sleep" := false];
    assert |client.log| == 2;
    assert client.message == List([Text("invalid_request")]);
    assert client.latestTokens == InitialTokens;
  }

  /** A rejected exchange keeps the tokens; a granted one replaces them. */
  method ExchangeCode(id: ByteString, secret: ByteString)
  {
    var client := new Fitbit(id, secret);
    var rejected := Decoded(Object(map["errors" := List([Text("invalid_grant")])]));
    var none := client.GetAccessToken("code", rejected);
    assert none == None && client.latestTokens == InitialTokens;
    var granted := Decoded(Object(map["access_token" := Text("a1"), "refresh_token" := Text("r1")]));
    var tokens := client.GetAccessToken("code", granted);
    assert tokens == Some(Tokens(Text("a1"), Text("r1"), None)) && client.latestTokens == tokens.value;
    var profile := client.ValidateToken("a1", Undecodable);
    assert profile == Answered(Undecodable);
  }
}
