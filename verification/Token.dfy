/** Compact access tokens (section 3.1 of RFC 7519): printing, parsing and the checks of the reader. */
module Token {
  import opened Wrappers
  import opened Text
  import opened Base64
  import Json
  import StringOrder

  datatype Principal = Principal(subject: string, tenant: string, roles: set<string>)

  /** mac stands for HMAC-SHA256: the secret and the message give the signature bytes. */
  datatype Settings = Settings(secret: string, issuer: string, audience: string, mac: (string, string) -> seq<Byte>)

  datatype TokenError =
    | Invalid | Unsupported | Incomplete | WrongScope | Expired | InvalidSubject | InvalidRoles

  // ---- printing

  function ToBytes(s: string): (b: seq<Byte>)
    requires Json.IsAscii(s)
  {
    seq(|s|, i requires 0 <= i < |s| => s[i] as int)
  }

  function EncodeBytes(b: seq<Byte>): string {
    TrimPadding(Encode(b, UrlSafe))
  }

  function EncodeObject(o: seq<Json.Member>): string {
    Json.ObjectIsAscii(o);
    EncodeBytes(ToBytes(Json.PrintObject(o)))
  }

  const HEADER := [Json.Member("alg", Json.Text("HS256")), Json.Member("typ", Json.Text("JWT"))]

  /** The claims in the order of their sorted keys. */
  function Claims(p: Principal, settings: Settings, expiry: nat): seq<Json.Member> {
    [Json.Member("aud", Json.Text(settings.audience)),
     Json.Member("exp", Json.Number(expiry)),
     Json.Member("iss", Json.Text(settings.issuer)),
     Json.Member("roles", Json.Texts(StringOrder.Sorted(p.roles))),
     Json.Member("sub", Json.Text(p.subject)),
     Json.Member("tenant_id", Json.Text(p.tenant))]
  }

  /** The clock is cut to whole seconds before the lifetime is added. */
  function Expiry(clock: real, lifetime: nat): nat
    requires clock >= 0.0
  {
    clock.Floor + lifetime
  }

  function EncodeToken(p: Principal, settings: Settings, clock: real, lifetime: nat): string
    requires clock >= 0.0
  {
    var header, payload := EncodeObject(HEADER), EncodeObject(Claims(p, settings, Expiry(clock, lifetime)));
    var message := header + "." + payload;
    message + "." + EncodeBytes(settings.mac(settings.secret, message))
  }

  // ---- parsing

  function DecodePart(value: string): Result<seq<Byte>, Malformed> {
    Decode(AddPadding(value), UrlSafe, false)
  }

  function FromAscii(b: seq<Byte>): Option<string> {
    if exists i :: 0 <= i < |b| && b[i] >= 128 then None
    else Some(seq(|b|, i requires 0 <= i < |b| => b[i] as char))
  }

  /** Later members override earlier ones with the same key. */
  function ToMap(o: seq<Json.Member>): map<string, Json.Value> {
    if o == [] then map[] else ToMap(o[..|o| - 1])[o[|o| - 1].key := o[|o| - 1].value]
  }

  function DecodeObject(value: string): Option<map<string, Json.Value>> {
    match DecodePart(value)
    case Err(_) => None
    case Ok(b) =>
      match FromAscii(b)
      case None => None
      case Some(text) =>
        match Json.ReadObject(text)
        case None => None
        case Some(o) => Some(ToMap(o))
  }

  function DecodeToken(token: string, settings: Settings, clock: real): Result<Principal, TokenError> {
    var parts := Split(token, '.');
    if |parts| != 3 then Err(Invalid)
    else
      var header, payload, signature := DecodeObject(parts[0]), DecodeObject(parts[1]), DecodePart(parts[2]);
      if header.None? || payload.None? || signature.Err? then Err(Invalid)
      else if header.value != ToMap(HEADER) then Err(Unsupported)
      else if signature.value != settings.mac(settings.secret, parts[0] + "." + parts[1]) then Err(Invalid)
      else CheckClaims(payload.value, settings, clock)
  }

  function CheckClaims(claims: map<string, Json.Value>, settings: Settings, clock: real): Result<Principal, TokenError> {
    if !({"sub", "tenant_id", "roles", "exp", "iss", "aud"} <= claims.Keys) then Err(Incomplete)
    else if claims["iss"] != Json.Text(settings.issuer) || claims["aud"] != Json.Text(settings.audience) then Err(WrongScope)
    else if !claims["exp"].Number? || claims["exp"].n as real <= clock then Err(Expired)
    else if !NonEmptyText(claims["sub"]) || !NonEmptyText(claims["tenant_id"]) then Err(InvalidSubject)
    else if !claims["roles"].Texts? then Err(InvalidRoles)
    else Ok(Principal(claims["sub"].s, claims["tenant_id"].s, set r | r in claims["roles"].list))
  }

  predicate NonEmptyText(v: Json.Value) {
    v.Text? && v.s != ""
  }

  // ---- each part is read back

  lemma PartRoundTrip(b: seq<Byte>)
    ensures DecodePart(EncodeBytes(b)) == Ok(b)
    ensures '.' !in EncodeBytes(b)
  {
    PaddingRestored(b, UrlSafe);
    DecodeEncode(b, UrlSafe, false);
  }

  lemma ObjectRoundTrip(o: seq<Json.Member>)
    ensures DecodeObject(EncodeObject(o)) == Some(ToMap(o))
    ensures '.' !in EncodeObject(o)
  {
    var text := Json.PrintObject(o);
    Json.ObjectIsAscii(o);
    Json.ObjectRoundTrip(o);
    var b := ToBytes(text);
    PartRoundTrip(b);
    hide DecodePart, EncodeBytes;
    var back: string := seq(|b|, i requires 0 <= i < |b| => b[i] as char);
    assert back == text;
    assert FromAscii(b) == Some(back);
  }

  lemma ThreeParts(a: string, b: string, c: string)
    requires '.' !in a && '.' !in b && '.' !in c
    ensures Split(a + "." + b + "." + c, '.') == [a, b, c]
  {
    SplitWithout(c, '.');
    SplitAt(b, '.', c);
    SplitAt(a, '.', b + ['.'] + c);
    assert a + "." + b + "." + c == a + ['.'] + (b + ['.'] + c);
  }

  /** The claims as the reader's dictionary. */
  lemma ClaimsMap(p: Principal, settings: Settings, expiry: nat)
    ensures ToMap(Claims(p, settings, expiry))
         == map["aud" := Json.Text(settings.audience), "exp" := Json.Number(expiry), "iss" := Json.Text(settings.issuer),
                "roles" := Json.Texts(StringOrder.Sorted(p.roles)), "sub" := Json.Text(p.subject), "tenant_id" := Json.Text(p.tenant)]
  {
    var o := Claims(p, settings, expiry);
    ToMapStep(o, 0);
    ToMapStep(o, 1);
    ToMapStep(o, 2);
    ToMapStep(o, 3);
    ToMapStep(o, 4);
    ToMapStep(o, 5);
    assert o[..6] == o;
  }

  lemma ToMapStep(o: seq<Json.Member>, n: nat)
    requires n < |o|
    ensures ToMap(o[..n + 1]) == ToMap(o[..n])[o[n].key := o[n].value]
    ensures ToMap(o[..0]) == map[]
  {
    assert o[..n + 1][..n] == o[..n];
  }

  lemma ClaimLookups(p: Principal, settings: Settings, expiry: nat)
    ensures var m := ToMap(Claims(p, settings, expiry));
            && {"sub", "tenant_id", "roles", "exp", "iss", "aud"} <= m.Keys
            && m["iss"] == Json.Text(settings.issuer) && m["aud"] == Json.Text(settings.audience)
            && m["exp"] == Json.Number(expiry) && m["roles"] == Json.Texts(StringOrder.Sorted(p.roles))
            && m["sub"] == Json.Text(p.subject) && m["tenant_id"] == Json.Text(p.tenant)
  {
    ClaimsMap(p, settings, expiry);
    hide Claims;
    assert "aud"[0] == 'a' && "exp"[0] == 'e' && "iss"[0] == 'i' && "roles"[0] == 'r' && "sub"[0] == 's' && "tenant_id"[0] == 't';
  }

  lemma ClaimsAccepted(p: Principal, settings: Settings, expiry: nat, reader: Settings, clock: real)
    ensures CheckClaims(ToMap(Claims(p, settings, expiry)), reader, clock)
         == if reader.issuer != settings.issuer || reader.audience != settings.audience then Err(WrongScope)
            else if expiry as real <= clock then Err(Expired)
            else if p.subject == "" || p.tenant == "" then Err(InvalidSubject)
            else Ok(p)
  {
    ClaimLookups(p, settings, expiry);
    hide Claims;
    assert (set r | r in StringOrder.Sorted(p.roles)) == p.roles;
  }

  /** Three parts that decode are read in the order header, signature, claims. */
  lemma PartsRead(a: string, b: string, c: string, claims: map<string, Json.Value>, signature: seq<Byte>, reader: Settings, clock: real)
    requires '.' !in a && '.' !in b && '.' !in c
    requires DecodeObject(a) == Some(ToMap(HEADER)) && DecodeObject(b) == Some(claims) && DecodePart(c) == Ok(signature)
    ensures DecodeToken(a + "." + b + "." + c, reader, clock)
         == if signature != reader.mac(reader.secret, a + "." + b) then Err(Invalid) else CheckClaims(claims, reader, clock)
  {
    hide DecodeObject, DecodePart, CheckClaims, ToMap;
    ThreeParts(a, b, c);
  }

  /**
   * Whatever settings a token is read with: without the issuer's signature of the same message it is invalid, for another
   * issuer or audience it is out of scope, and otherwise it gives back its principal until the issue time, cut to whole
   * seconds, and the lifetime have passed. An empty subject or tenant is refused.
   */
  lemma TokenRoundTrip(p: Principal, settings: Settings, issued: real, lifetime: nat, reader: Settings, clock: real)
    returns (message: string)
    requires issued >= 0.0
    ensures var token := EncodeToken(p, settings, issued, lifetime);
            && token == message + "." + EncodeBytes(settings.mac(settings.secret, message))
            && DecodeToken(token, reader, clock)
               == if reader.mac(reader.secret, message) != settings.mac(settings.secret, message) then Err(Invalid)
                  else if reader.issuer != settings.issuer || reader.audience != settings.audience then Err(WrongScope)
                  else if clock >= (issued.Floor + lifetime) as real then Err(Expired)
                  else if p.subject == "" || p.tenant == "" then Err(InvalidSubject)
                  else Ok(p)
  {
    hide DecodeToken, EncodeBytes, DecodePart, DecodeObject, Claims, CheckClaims;
    var claims := Claims(p, settings, Expiry(issued, lifetime));
    var a, b := EncodeObject(HEADER), EncodeObject(claims);
    message := a + "." + b;
    var signature := settings.mac(settings.secret, message);
    ObjectRoundTrip(HEADER);
    ObjectRoundTrip(claims);
    PartRoundTrip(signature);
    ClaimsAccepted(p, settings, Expiry(issued, lifetime), reader, clock);
    hide EncodeObject;
    PartsRead(a, b, EncodeBytes(signature), ToMap(claims), signature, reader, clock);
  }

  /** The header and the claims that a token carries, under the names of sections 4.1 and 5.1 of RFC 7519. */
  lemma TokenCarries(p: Principal, settings: Settings, issued: real, lifetime: nat)
    requires issued >= 0.0
    ensures var parts := Split(EncodeToken(p, settings, issued, lifetime), '.');
            && |parts| == 3
            && DecodeObject(parts[0]) == Some(map["alg" := Json.Text("HS256"), "typ" := Json.Text("JWT")])
            && DecodeObject(parts[1])
               == Some(map["aud" := Json.Text(settings.audience), "exp" := Json.Number(issued.Floor + lifetime),
                           "iss" := Json.Text(settings.issuer), "roles" := Json.Texts(StringOrder.Sorted(p.roles)),
                           "sub" := Json.Text(p.subject), "tenant_id" := Json.Text(p.tenant)])
  {
    hide EncodeToken, DecodeObject, Claims, ToMap;
    TokenParts(p, settings, issued, lifetime);
    ClaimsMap(p, settings, issued.Floor + lifetime);
    HeaderMap();
  }

  lemma TokenParts(p: Principal, settings: Settings, issued: real, lifetime: nat)
    requires issued >= 0.0
    ensures var parts := Split(EncodeToken(p, settings, issued, lifetime), '.');
            && |parts| == 3 && DecodeObject(parts[0]) == Some(ToMap(HEADER))
            && DecodeObject(parts[1]) == Some(ToMap(Claims(p, settings, issued.Floor + lifetime)))
  {
    hide EncodeBytes, DecodePart, DecodeObject, Claims, ToMap, EncodeToken, EncodeObject, HEADER;
    var claims := Claims(p, settings, issued.Floor + lifetime);
    var a, b, signature := TokenText(p, settings, issued, lifetime);
    ObjectRoundTrip(HEADER);
    ObjectRoundTrip(claims);
    PartRoundTrip(signature);
    ThreeParts(a, b, EncodeBytes(signature));
  }

  lemma TokenText(p: Principal, settings: Settings, issued: real, lifetime: nat) returns (a: string, b: string, signature: seq<Byte>)
    requires issued >= 0.0
    ensures a == EncodeObject(HEADER) && b == EncodeObject(Claims(p, settings, issued.Floor + lifetime))
    ensures EncodeToken(p, settings, issued, lifetime) == a + "." + b + "." + EncodeBytes(signature)
  {
    hide EncodeObject, EncodeBytes, Claims;
    a, b := EncodeObject(HEADER), EncodeObject(Claims(p, settings, issued.Floor + lifetime));
    signature := settings.mac(settings.secret, a + "." + b);
  }

  lemma HeaderMap()
    ensures ToMap(HEADER) == map["alg" := Json.Text("HS256"), "typ" := Json.Text("JWT")]
  {
    ToMapStep(HEADER, 0);
    ToMapStep(HEADER, 1);
    assert HEADER[..2] == HEADER;
  }

  /**
   * Whatever text is presented, an accepted token is signed over its parts and in scope, unexpired at every earlier time
   * too, and the principal is the one its claims name.
   */
  lemma AcceptedTokensAreSigned(token: string, settings: Settings, clock: real) returns (header: string, payload: string, signature: string)
    requires DecodeToken(token, settings, clock).Ok?
    ensures Split(token, '.') == [header, payload, signature]
    ensures DecodePart(signature) == Ok(settings.mac(settings.secret, header + "." + payload))
    ensures DecodeObject(header) == Some(map["alg" := Json.Text("HS256"), "typ" := Json.Text("JWT")])
    ensures var p, claims := DecodeToken(token, settings, clock).value, DecodeObject(payload);
            && claims.Some? && {"sub", "tenant_id", "roles", "exp", "iss", "aud"} <= claims.value.Keys
            && claims.value["iss"] == Json.Text(settings.issuer) && claims.value["aud"] == Json.Text(settings.audience)
            && claims.value["exp"].Number? && clock < claims.value["exp"].n as real
            && claims.value["sub"] == Json.Text(p.subject) && p.subject != ""
            && claims.value["tenant_id"] == Json.Text(p.tenant) && p.tenant != ""
            && claims.value["roles"].Texts? && forall r :: r in p.roles <==> r in claims.value["roles"].list
    ensures forall later: real :: later <= clock ==> DecodeToken(token, settings, later) == DecodeToken(token, settings, clock)
  {
    hide DecodeObject, DecodePart, ToMap;
    HeaderMap();
    var parts := Split(token, '.');
    header, payload, signature := parts[0], parts[1], parts[2];
    assert parts == [header, payload, signature];
  }
}
