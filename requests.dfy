/** The requests the client hands to its transport: URLs, headers and form
    fields, built from the client's credentials and the caller's arguments. */
module FitbitRequests {
  import opened PhpValues
  import opened Base64

  /** Form fields in the order the client lists them; the transport turns
      them into the body with PHP's http_build_query. */
  type Form = seq<(string, string)>

  /** One call of the transport: its URL, form fields, header lines and
      method, which defaults to "post". */
  datatype Request = Request(url: string, postData: Form, headers: seq<string>, httpMethod: string)

  const TokenUrl := "https://api.fitbit.com/oauth2/token"
  const ProfileUrl := "https://api.fitbit.com/1/user/-/profile.json"
  const SubscriptionsUrl := "https://api.fitbit.com/1/user/-/apiSubscriptions.json"
  const SubscriptionPrefix := "https://api.fitbit.com/1/user/-/"
  const FormContentType := "Content-Type: application/x-www-form-urlencoded"
  const BasicPrefix := "Authorization: Basic "

  function FormKeys(f: Form): (keys: seq<string>)
    ensures |keys| == |f|
    ensures forall i | 0 <= i < |f| :: keys[i] == f[i].0
  {
    seq(|f|, i requires 0 <= i < |f| => f[i].0)
  }

  /** The value of the first field named `key`, as a server reads the form. */
  function FormValue(f: Form, key: string): (v: Option<string>)
    ensures v.None? <==> key !in FormKeys(f)
    ensures v.Some? ==> (key, v.value) in f
  {
    FormValueFrom(f, key, 0)
  }

  function FormValueFrom(f: Form, key: string, i: nat): (v: Option<string>)
    requires i <= |f|
    ensures v.None? <==> forall j | i <= j < |f| :: f[j].0 != key
    ensures v.Some? ==> exists j | i <= j < |f| :: f[j] == (key, v.value)
    decreases |f| - i
  {
    if i == |f| then None
    else if f[i].0 == key then Some(f[i].1)
    else FormValueFrom(f, key, i + 1)
  }

  // ---------------------------------------------------------------------
  // Token calls: HTTP Basic authentication (section 2 of RFC 7617) and the
  // grants of sections 4.1.3 and 6 of RFC 6749.

  /** base64("{id}:{secret}"). */
  function BasicCredentials(id: ByteString, secret: ByteString): string {
    ConcatIsByteString(id, ":");
    ConcatIsByteString(id + ":", secret);
    Encode(ToBytes(id + ":" + secret))
  }

  function TokenHeaders(id: ByteString, secret: ByteString): seq<string> {
    [BasicPrefix + BasicCredentials(id, secret), FormContentType]
  }

  /** The body of the authorization-code grant. */
  function AuthorizationCodeForm(code: string, id: string, secret: string, redirectUrl: string): Form {
    [("code", code), ("client_id", id), ("client_secret", secret),
     ("grant_type", "authorization_code"), ("redirect_uri", redirectUrl)]
  }

  /** The body of the refresh grant. */
  function RefreshForm(refreshToken: string, id: string): Form {
    [("refresh_token", refreshToken), ("client_id", id), ("grant_type", "refresh_token")]
  }

  /** The authorization-code body holds five fields: the four parameters of
      section 4.1.3 of RFC 6749 and the client password of section 2.3.1. */
  lemma AuthorizationCodeFormFields(code: string, id: string, secret: string, redirectUrl: string)
    ensures var f := AuthorizationCodeForm(code, id, secret, redirectUrl);
      FormKeys(f) == ["code", "client_id", "client_secret", "grant_type", "redirect_uri"] &&
      FormValue(f, "code") == Some(code) &&
      FormValue(f, "client_id") == Some(id) &&
      FormValue(f, "client_secret") == Some(secret) &&
      FormValue(f, "grant_type") == Some("authorization_code") &&
      FormValue(f, "redirect_uri") == Some(redirectUrl)
  {
    var f := AuthorizationCodeForm(code, id, secret, redirectUrl);
    FirstField(f, "code", 0);
    FirstField(f, "client_id", 1);
    FirstField(f, "client_secret", 2);
    FirstField(f, "grant_type", 3);
    FirstField(f, "redirect_uri", 4);
  }

  /** The value of a field is that of its first occurrence. */
  lemma FirstField(f: Form, key: string, i: nat)
    requires i < |f| && f[i].0 == key
    requires forall j | 0 <= j < i :: f[j].0 != key
    ensures FormValue(f, key) == Some(f[i].1)
  {
    FirstFieldFrom(f, key, 0, i);
  }

  lemma {:induction false} FirstFieldFrom(f: Form, key: string, k: nat, i: nat)
    requires k <= i < |f| && f[i].0 == key
    requires forall j | k <= j < i :: f[j].0 != key
    ensures FormValueFrom(f, key, k) == Some(f[i].1)
    decreases i - k
  {
    if k < i {
      FirstFieldFrom(f, key, k + 1, i);
    }
  }

  /** The refresh body holds the fields of section 6 of RFC 6749 and the
      client id, and no client secret. */
  lemma RefreshFormFields(refreshToken: string, id: string)
    ensures var f := RefreshForm(refreshToken, id);
      FormKeys(f) == ["refresh_token", "client_id", "grant_type"] &&
      FormValue(f, "refresh_token") == Some(refreshToken) &&
      FormValue(f, "client_id") == Some(id) &&
      FormValue(f, "grant_type") == Some("refresh_token") &&
      FormValue(f, "client_secret") == None
  {
  }

  function AuthorizationCodeRequest(id: ByteString, secret: ByteString, redirectUrl: string, code: string): Request {
    Request(TokenUrl, AuthorizationCodeForm(code, id, secret, redirectUrl), TokenHeaders(id, secret), "post")
  }

  function RefreshRequest(id: ByteString, secret: ByteString, refreshToken: string): Request {
    Request(TokenUrl, RefreshForm(refreshToken, id), TokenHeaders(id, secret), "post")
  }

  /** What a server reading a Basic credential does: split the decoded
      user-pass at the first colon (58). */
  function SplitAtColon(b: seq<byte>): (r: Option<(seq<byte>, seq<byte>)>)
    ensures r.Some? ==> b == r.value.0 + [58 as byte] + r.value.1 && 58 as byte !in r.value.0
  {
    if |b| == 0 then None
    else if b[0] == 58 then Some(([], b[1..]))
    else
      match SplitAtColon(b[1..])
      case None => None
      case Some(parts) => Some(([b[0]] + parts.0, parts.1))
  }

  lemma ToBytesConcat(a: ByteString, b: ByteString)
    ensures IsByteString(a + b)
    ensures ToBytes(a + b) == ToBytes(a) + ToBytes(b)
  {
    ConcatIsByteString(a, b);
  }

  lemma {:induction false} SplitAtFirstColon(u: seq<byte>, p: seq<byte>)
    requires 58 as byte !in u
    ensures SplitAtColon(u + [58 as byte] + p) == Some((u, p))
  {
    if |u| == 0 {
      assert u + [58 as byte] + p == [58 as byte] + p;
    } else {
      assert (u + [58 as byte] + p)[1..] == u[1..] + [58 as byte] + p;
      SplitAtFirstColon(u[1..], p);
      assert [u[0]] + u[1..] == u;
    }
  }

  /** The first header of a token call carries an RFC 7617 credential from
      which the server recovers exactly the client id and secret, provided
      the id has no colon (which section 2 of RFC 7617 forbids in a user-id). */
  lemma {:induction false} BasicHeaderCarriesCredentials(id: ByteString, secret: ByteString)
    requires ':' !in id
    ensures |TokenHeaders(id, secret)| == 2
    ensures TokenHeaders(id, secret)[1] == FormContentType
    ensures var h := TokenHeaders(id, secret)[0];
      |h| >= |BasicPrefix| && h[..|BasicPrefix|] == BasicPrefix &&
      match Decode(h[|BasicPrefix|..])
      case None => false
      case Some(pass) => SplitAtColon(pass) == Some((ToBytes(id), ToBytes(secret)))
  {
    var h := TokenHeaders(id, secret)[0];
    var cred := BasicCredentials(id, secret);
    assert h == BasicPrefix + cred;
    assert h[..|BasicPrefix|] == BasicPrefix && h[|BasicPrefix|..] == cred;
    ToBytesConcat(id, ":");
    ToBytesConcat(id + ":", secret);
    var pass := ToBytes(id + ":" + secret);
    DecodeEncode(pass);
    assert ToBytes(":") == [58 as byte];
    assert 58 as byte !in ToBytes(id) by {
      forall i | 0 <= i < |id| ensures ToBytes(id)[i] != 58 as byte {
        assert id[i] != ':';
      }
    }
    SplitAtFirstColon(ToBytes(id), ToBytes(secret));
  }

  // ---------------------------------------------------------------------
  // Resource calls: bearer authentication and the subscription resources.

  function BearerHeaders(accessToken: string): seq<string> {
    ["Authorization: Bearer " + accessToken]
  }

  /** The subscription id `{id}-{userId}-{collection}`. */
  function SubscriptionId(id: string, userId: string, collection: string): string {
    id + "-" + userId + "-" + collection
  }

  function SubscriptionUrl(collection: string, subscriptionId: string): string {
    SubscriptionPrefix + collection + "/apiSubscriptions/" + subscriptionId + ".json"
  }

  function ActivitiesUrl(ownerId: string, date: string): string {
    "https://api.fitbit.com/1/user/" + ownerId + "/activities/date/" + date + ".json"
  }

  function ProfileRequest(accessToken: string): Request {
    Request(ProfileUrl, [], BearerHeaders(accessToken), "post")
  }

  function AddSubscriptionRequest(accessToken: string, id: string, userId: string, collection: string): Request {
    Request(SubscriptionUrl(collection, SubscriptionId(id, userId, collection)), [], BearerHeaders(accessToken), "post")
  }

  function DeleteSubscriptionRequest(accessToken: string, id: string, userId: string, collection: string): Request {
    Request(SubscriptionUrl(collection, SubscriptionId(id, userId, collection)), [], BearerHeaders(accessToken), "delete")
  }

  function ListSubscriptionsRequest(accessToken: string): Request {
    Request(SubscriptionsUrl, [], BearerHeaders(accessToken), "get")
  }

  function UpdatedDataRequest(accessToken: string, ownerId: string, date: string): Request {
    Request(ActivitiesUrl(ownerId, date), [], BearerHeaders(accessToken), "post")
  }

  /** The requests addSubscriptions issues, one per collection, in order. */
  function SubscriptionRequests(accessToken: string, id: string, userId: string, collections: seq<string>): (rs: seq<Request>)
    ensures |rs| == |collections|
    ensures forall i | 0 <= i < |collections| :: rs[i] == AddSubscriptionRequest(accessToken, id, userId, collections[i])
  {
    seq(|collections|, i requires 0 <= i < |collections| => AddSubscriptionRequest(accessToken, id, userId, collections[i]))
  }

  /** Two words joined by a separator that neither first word holds can be
      told apart. */
  lemma SeparatorSplits(a1: string, b1: string, a2: string, b2: string, sep: char)
    requires sep !in a1 && sep !in a2
    requires a1 + [sep] + b1 == a2 + [sep] + b2
    ensures a1 == a2 && b1 == b2
  {
    var s := a1 + [sep] + b1;
    assert s[|a1|] == sep && s == a2 + [sep] + b2 && s[|a2|] == sep;
    assert forall i | 0 <= i < |a1| :: s[i] == a1[i] != sep;
    assert forall i | 0 <= i < |a2| :: s[i] == a2[i] != sep;
    assert a1 == s[..|a1|] == a2;
    assert b1 == s[|a1| + 1..] == b2;
  }

  /** Distinct users or collections get distinct subscription ids, for user
      ids without a hyphen. */
  lemma SubscriptionIdInjective(id: string, u1: string, c1: string, u2: string, c2: string)
    requires '-' !in u1 && '-' !in u2
    ensures SubscriptionId(id, u1, c1) == SubscriptionId(id, u2, c2) <==> u1 == u2 && c1 == c2
  {
    if SubscriptionId(id, u1, c1) == SubscriptionId(id, u2, c2) {
      var p := id + "-";
      assert SubscriptionId(id, u1, c1) == p + (u1 + "-" + c1);
      assert SubscriptionId(id, u2, c2) == p + (u2 + "-" + c2);
      assert u1 + "-" + c1 == (p + (u1 + "-" + c1))[|p|..];
      assert u2 + "-" + c2 == (p + (u2 + "-" + c2))[|p|..];
      SeparatorSplits(u1, c1, u2, c2, '-');
    }
  }

  /** A subscription URL names its collection and its subscription id, for
      collections without a slash. */
  lemma SubscriptionUrlInjective(c1: string, s1: string, c2: string, s2: string)
    requires '/' !in c1 && '/' !in c2
    ensures SubscriptionUrl(c1, s1) == SubscriptionUrl(c2, s2) <==> c1 == c2 && s1 == s2
  {
    if SubscriptionUrl(c1, s1) == SubscriptionUrl(c2, s2) {
      Bracketed(SubscriptionPrefix, c1, s1, c2, s2, "/apiSubscriptions/", ".json");
    }
  }

  /** `p + c + m + s + e` determines `c` and `s` when `m` starts with a
      character that `c` does not hold. */
  lemma Bracketed(p: string, c1: string, s1: string, c2: string, s2: string, m: string, e: string)
    requires |m| > 0 && m[0] !in c1 && m[0] !in c2
    requires p + c1 + m + s1 + e == p + c2 + m + s2 + e
    ensures c1 == c2 && s1 == s2
  {
    var r1, r2 := m[1..] + s1 + e, m[1..] + s2 + e;
    assert p + c1 + m + s1 + e == p + (c1 + [m[0]] + r1);
    assert p + c2 + m + s2 + e == p + (c2 + [m[0]] + r2);
    DropPrefix(p, c1 + [m[0]] + r1, c2 + [m[0]] + r2);
    SeparatorSplits(c1, r1, c2, r2, m[0]);
    Unwrap(m[1..], s1, e);
    Unwrap(m[1..], s2, e);
  }

  lemma DropPrefix(p: string, x: string, y: string)
    requires p + x == p + y
    ensures x == y
  {
    assert x == (p + x)[|p|..];
    assert y == (p + y)[|p|..];
  }

  lemma Unwrap(p: string, x: string, q: string)
    ensures (p + x + q)[|p|..|p + x + q| - |q|] == x
  {
  }

  /** addSubscriptions and deleteSubscription address the same resource for
      a user and collection, with methods "post" and "delete"; resources of
      different collections without a slash differ. */
  lemma SubscriptionResources(accessToken: string, id: string, userId: string, c1: string, c2: string)
    ensures AddSubscriptionRequest(accessToken, id, userId, c1).url == DeleteSubscriptionRequest(accessToken, id, userId, c1).url
    ensures AddSubscriptionRequest(accessToken, id, userId, c1).httpMethod == "post"
    ensures DeleteSubscriptionRequest(accessToken, id, userId, c1).httpMethod == "delete"
    ensures '/' !in c1 && '/' !in c2 && c1 != c2 ==>
      AddSubscriptionRequest(accessToken, id, userId, c1).url != AddSubscriptionRequest(accessToken, id, userId, c2).url
  {
    if '/' !in c1 && '/' !in c2 {
      SubscriptionUrlInjective(c1, SubscriptionId(id, userId, c1), c2, SubscriptionId(id, userId, c2));
    }
  }
}
