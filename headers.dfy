/**
 * `NioCommand._get_headers`: the request headers for the block's security
 * method. The block's fields it reads (the method, the cached access token and
 * the Basic credentials) are parameters here; the OAuth2 mixin's
 * `get_access_token_headers` is the parameter `tokenHeaders`, of which
 * nothing is assumed.
 */
module Headers {
  import opened Wrappers
  import opened Encoding

  /** The `SecurityMethod` enum: 'none', 'basic' and 'oauth'. */
  datatype SecurityMethod = NoSecurity | Basic | OAuth

  /** The `BasicAuthCreds` property holder. */
  datatype BasicAuthCreds = BasicAuthCreds(username: string, password: string)

  /** What `_get_headers` can raise: `.encode('ascii')` on non-ASCII credentials. */
  datatype HeaderError = UnicodeEncodeError

  type HeaderMap = map<string, string>

  /** `get_access_token_headers`: the header set presenting a token (or no token). */
  type TokenHeaders = Option<string> -> HeaderMap

  const ContentType: string := "Content-Type"
  const ApplicationJson: string := "application/json"
  const Authorization: string := "Authorization"
  const BasicPrefix: string := "Basic "

  /** The user-pass of section 2 of RFC 7617: `'{}:{}'.format(username, password)`. */
  function UserPass(creds: BasicAuthCreds): (s: string)
    ensures |s| == |creds.username| + 1 + |creds.password|
    ensures s[|creds.username|] == ':'
  {
    creds.username + ":" + creds.password
  }

  /**
   * `_get_headers`. Content-Type is set first; OAUTH then merges the token
   * headers (they win on a shared key); BASIC then sets Authorization to
   * "Basic " and the base64 of the ASCII user-pass, and raises when the
   * user-pass is not ASCII.
   */
  function GetHeaders(security: SecurityMethod, token: Option<string>, creds: BasicAuthCreds,
                      tokenHeaders: TokenHeaders): (r: Result<HeaderMap, HeaderError>)
    // only BASIC can fail, and exactly when the credentials are not ASCII
    ensures r.Failure? <==> security == Basic && AsciiEncode(UserPass(creds)).None?
    // Content-Type is always present; it is application/json unless the token headers replace it
    ensures r.Success? ==> ContentType in r.value
    ensures r.Success? && !(security == OAuth && ContentType in tokenHeaders(token)) ==>
              r.value[ContentType] == ApplicationJson
    ensures security == NoSecurity ==> r == Success(map[ContentType := ApplicationJson])
    ensures security == NoSecurity ==> Authorization !in r.value
    ensures security == OAuth ==>
              && r.Success?
              && r.value.Keys == {ContentType} + tokenHeaders(token).Keys
              && forall k :: k in tokenHeaders(token) ==> r.value[k] == tokenHeaders(token)[k]
    ensures security == Basic && r.Success? ==>
              && r.value.Keys == {ContentType, Authorization}
              && r.value[Authorization] == BasicPrefix + Base64Encode(AsciiEncode(UserPass(creds)).value)
  {
    var headers := map[ContentType := ApplicationJson];
    var headers := if security == OAuth then headers + tokenHeaders(token) else headers;
    if security == Basic then
      match AsciiEncode(UserPass(creds))
      case None => Failure(UnicodeEncodeError)
      case Some(bytes) => Success(headers[Authorization := BasicPrefix + Base64Encode(bytes)])
    else
      Success(headers)
  }

  /**
   * A server that strips "Basic " and base64-decodes the rest recovers the
   * ASCII bytes of the user-pass, as section 2 of RFC 7617 intends.
   */
  lemma BasicCredentialsRecoverable(token: Option<string>, creds: BasicAuthCreds, tokenHeaders: TokenHeaders)
    requires GetHeaders(Basic, token, creds, tokenHeaders).Success?
    ensures var value := GetHeaders(Basic, token, creds, tokenHeaders).value[Authorization];
            && |value| >= |BasicPrefix|
            && value[..|BasicPrefix|] == BasicPrefix
            && Base64Decode(value[|BasicPrefix|..]) == AsciiEncode(UserPass(creds))
  {
    var bytes := AsciiEncode(UserPass(creds)).value;
    var value := GetHeaders(Basic, token, creds, tokenHeaders).value[Authorization];
    assert value == BasicPrefix + Base64Encode(bytes);
    assert value[|BasicPrefix|..] == Base64Encode(bytes);
    Base64RoundTrip(bytes);
  }

  const AdminAdminBytes: seq<byte> := [65, 100, 109, 105, 110, 58, 65, 100, 109, 105, 110]

  lemma AdminAdminAscii()
    ensures AsciiEncode("Admin:Admin") == Some(AdminAdminBytes)
  {
    var userPass: string := ['A', 'd', 'm', 'i', 'n', ':', 'A', 'd', 'm', 'i', 'n'];
    assert "Admin:Admin" == userPass;
    assert forall k | 0 <= k < |userPass| :: userPass[k] as int == AdminAdminBytes[k] as int < 128;
    var encoded := AsciiEncode(userPass);
    assert encoded.Some?;
    assert forall k | 0 <= k < |AdminAdminBytes| :: encoded.value[k] == AdminAdminBytes[k];
    assert encoded.value == AdminAdminBytes;
  }

  lemma AdminGroup()
    ensures EncodeGroup(65, 100, 109) == "QWRt"
  {
  }

  lemma InColonGroup()
    ensures EncodeGroup(105, 110, 58) == "aW46"
  {
  }

  lemma InTail()
    ensures Base64Encode([105, 110]) == "aW4="
  {
  }

  lemma AdminAdminBase64()
    ensures Base64Encode(AdminAdminBytes) == "QWRtaW46QWRtaW4="
  {
    var s0: seq<byte> := [105, 110];
    var s1: seq<byte> := [65, 100, 109] + s0;
    var s2: seq<byte> := [105, 110, 58] + s1;
    var s3: seq<byte> := [65, 100, 109] + s2;
    AdminGroup();
    InColonGroup();
    InTail();
    EncodeFirstGroup(s1);
    assert s1[3..] == s0;
    EncodeFirstGroup(s2);
    assert s2[3..] == s1;
    EncodeFirstGroup(s3);
    assert s3[3..] == s2;
    assert s3 == AdminAdminBytes;
    assert "QWRt" + ("aW46" + ("QWRt" + "aW4=")) == "QWRtaW46QWRtaW4=";
  }

  /** With ASCII credentials, BASIC gives exactly Content-Type and the Basic Authorization. */
  lemma BasicHeaderOf(creds: BasicAuthCreds, token: Option<string>, tokenHeaders: TokenHeaders, bytes: seq<byte>)
    requires AsciiEncode(UserPass(creds)) == Some(bytes)
    ensures GetHeaders(Basic, token, creds, tokenHeaders) ==
            Success(map[ContentType := ApplicationJson, Authorization := BasicPrefix + Base64Encode(bytes)])
  {
  }

  lemma AdminAdminUserPass()
    ensures UserPass(BasicAuthCreds("Admin", "Admin")) == "Admin:Admin"
  {
  }

  /** Username and password "Admin" give "Basic " followed by "QWRtaW46QWRtaW4=". */
  lemma AdminAdminHeader(token: Option<string>, tokenHeaders: TokenHeaders)
    ensures GetHeaders(Basic, token, BasicAuthCreds("Admin", "Admin"), tokenHeaders) ==
            Success(map[ContentType := ApplicationJson, Authorization := BasicPrefix + "QWRtaW46QWRtaW4="])
  {
    AdminAdminUserPass();
    AdminAdminAscii();
    BasicHeaderOf(BasicAuthCreds("Admin", "Admin"), token, tokenHeaders, AdminAdminBytes);
    AdminAdminBase64();
  }

  /**
   * OAUTH with token headers presenting the token as a bearer credential:
   * Content-Type and that Authorization, nothing else.
   */
  lemma OAuthBearerHeader(token: string, creds: BasicAuthCreds, tokenHeaders: TokenHeaders)
    requires tokenHeaders(Some(token)) == map[Authorization := "Bearer " + token]
    ensures GetHeaders(OAuth, Some(token), creds, tokenHeaders) ==
            Success(map[ContentType := ApplicationJson, Authorization := "Bearer " + token])
  {
    var r := GetHeaders(OAuth, Some(token), creds, tokenHeaders).value;
    var expected := map[ContentType := ApplicationJson, Authorization := "Bearer " + token];
    assert ContentType != Authorization by { assert ContentType[0] != Authorization[0]; }
    assert r.Keys == expected.Keys;
    assert r[Authorization] == expected[Authorization];
    assert r[ContentType] == expected[ContentType];
    assert r == expected;
  }
}
