/**
 * The Tally webhook handler (`exports.handler` of
 * netlify/functions/tally-webhook.js): the method gate, the configuration
 * check, the field mapping, the email check, the request metadata, and the
 * choice of response from what the store answered.
 */
module Webhook {
  import opened Optional
  import opened JsText
  import opened Tally
  import opened MapperSpec
  import MapperProperties
  import FieldMapper

  // ---------------------------------------------------------------- inputs

  /** The environment: the store's URL, its privileged key and its restricted key. */
  datatype Env = Env(supabaseUrl: Option<string>, serviceKey: Option<string>, anonKey: Option<string>)

  /** A JavaScript string value that is truthy: present and not empty. */
  predicate Truthy(s: Option<string>) {
    s.Some? && s.value != ""
  }

  /** `SUPABASE_SERVICE_KEY || SUPABASE_ANON_KEY`. */
  function SelectedKey(env: Env): Option<string> {
    if Truthy(env.serviceKey) then env.serviceKey else env.anonKey
  }

  /** The check of lines 21-27 passes. */
  predicate ConfigPresent(env: Env) {
    Truthy(env.supabaseUrl) && Truthy(SelectedKey(env))
  }

  /** The request body after `JSON.parse`: unparseable, or an envelope whose `data.fields` may be missing. */
  datatype Payload = Unparseable(message: string) | Envelope(fields: Option<seq<Field>>)

  /** The Netlify event: HTTP method, headers (lower-case names), parsed body. */
  datatype Request = Request(httpMethod: string, headers: map<string, string>, body: Payload)

  /** `data.data?.fields || []`. */
  function FieldList(p: Payload): seq<Field>
    requires p.Envelope?
  {
    if p.fields.Some? then p.fields.value else []
  }

  /** `event.headers[name]`. */
  function Header(headers: map<string, string>, name: string): Option<string> {
    if name in headers then Some(headers[name]) else None
  }

  /** What the store answered to `.insert([formData]).select()`. */
  datatype InsertResult = Inserted(userId: Option<string>) | InsertError(code: string, message: string)

  /** Line 155: a unique violation whose message mentions the email column. */
  predicate IsDuplicateEmail(res: InsertResult) {
    res.InsertError? && res.code == "23505" && Contains(res.message, "email")
  }

  // ---------------------------------------------------------------- metadata

  const ReferralSource: string := "tally_form"

  /**
   * `s.split(',')[0].trim()`: the first entry of a comma-separated list, that
   * is the text before the first comma (all of s when there is none) with the
   * whitespace around it removed.
   */
  function FirstAddress(s: string): (a: string)
    ensures IsTrimmed(a) && ',' !in a
    ensures IsEntryStretch(s, a)
  {
    FirstAddressIsEntry(s);
    Trim(FirstSegment(s, ','))
  }

  /** n is the index of the first comma of s, or |s| when there is none. */
  predicate FirstEntry(s: string, n: int) {
    0 <= n <= |s| && ',' !in s[..n] && (n == |s| || s[n] == ',')
  }

  /**
   * a is the first entry of s (the text before its first comma, or all of s)
   * with the whitespace around it removed.
   */
  predicate IsEntryStretch(s: string, a: string) {
    exists n :: 0 <= n <= |s| && FirstEntry(s, n) && IsStretchOf(s[..n], a)
  }

  /** `split(',')[0].trim()` is the first entry of s with the whitespace around it removed. */
  lemma FirstAddressIsEntry(s: string)
    ensures IsEntryStretch(s, Trim(FirstSegment(s, ',')))
  {
    var seg := FirstSegment(s, ',');
    assert seg == s[..|seg|];
    assert FirstEntry(s, |seg|);
  }

  /**
   * Lines 129-135: the client address from `x-forwarded-for`, else from
   * `x-real-ip`, else null.
   */
  function ClientIp(headers: map<string, string>): (ip: Prop)
    ensures !ip.Unset?
    ensures ip.Null? <==> !Truthy(Header(headers, "x-forwarded-for")) && !Truthy(Header(headers, "x-real-ip"))
    ensures Truthy(Header(headers, "x-forwarded-for")) ==> ip == Text(FirstAddress(headers["x-forwarded-for"]))
    ensures !Truthy(Header(headers, "x-forwarded-for")) && Truthy(Header(headers, "x-real-ip")) ==>
      ip == Text(FirstAddress(headers["x-real-ip"]))
  {
    var forwarded := Header(headers, "x-forwarded-for");
    var raw := if Truthy(forwarded) then forwarded else Header(headers, "x-real-ip");
    if Truthy(raw) then Text(FirstAddress(raw.value)) else Null
  }

  /** Line 137: `event.headers['user-agent']`, missing when the header is. */
  function UserAgent(headers: map<string, string>): Prop {
    if "user-agent" in headers then Text(headers["user-agent"]) else Unset
  }

  /**
   * Lines 126-137: the mapped record with its metadata added. Only the three
   * metadata properties change; the referral is the constant marker, the
   * address is never left unset, and the user agent is set exactly when the
   * header is present.
   */
  function Enrich(r: Record, headers: map<string, string>): (e: Record)
    ensures e == r.(referralSource := e.referralSource, ipAddress := e.ipAddress, userAgent := e.userAgent)
    ensures e.referralSource == Text("tally_form")
    ensures e.ipAddress == ClientIp(headers) && !e.ipAddress.Unset?
    ensures e.userAgent.Unset? <==> "user-agent" !in headers
    ensures "user-agent" in headers ==> e.userAgent == Text(headers["user-agent"])
  {
    r.(referralSource := Text(ReferralSource), ipAddress := ClientIp(headers), userAgent := UserAgent(headers))
  }

  // ---------------------------------------------------------------- outcomes

  /** The ways a request can end. */
  datatype Outcome =
    | MethodNotAllowed
    | ConfigurationMissing
    | InternalError(message: string)
    | ValidationFailure
    | DuplicateEmail
    | PersistenceFailure(details: string)
    | Success(userId: Option<string>)

  /** The JSON bodies the handler sends. */
  datatype Body =
    | ErrorBody(error: string)
    | ErrorDetailsBody(error: string, details: string)
    | ErrorMessageBody(error: string, message: string)
    | DuplicateBody(message: string, status: string)
    | SuccessBody(message: string, userId: Option<string>, status: string)

  /** statusCode, whether `Content-Type: application/json` is set, and body. */
  datatype Response = Response(statusCode: int, jsonContentType: bool, body: Body)

  /** The record the handler maps from a parsed body. */
  function Mapped(p: Payload): Record
    requires p.Envelope?
  {
    MapAll(EmptyRecord, FieldList(p))
  }

  /** The handler reaches the insert (line 146): a POST, configured, parsed, with an email. */
  predicate InsertAttempted(req: Request, env: Env) {
    req.httpMethod == "POST" && ConfigPresent(env) && req.body.Envelope? && HasEmail(Mapped(req.body))
  }

  /**
   * The decision table of the handler, in the order its checks run: each
   * outcome happens exactly when every earlier check passed and its own fails.
   */
  function Classify(req: Request, env: Env, store: InsertResult): (o: Outcome)
    ensures o.MethodNotAllowed? <==> req.httpMethod != "POST"
    ensures o.ConfigurationMissing? <==> req.httpMethod == "POST" && !ConfigPresent(env)
    ensures o.InternalError? <==> req.httpMethod == "POST" && ConfigPresent(env) && req.body.Unparseable?
    ensures o.InternalError? ==> o.message == req.body.message
    ensures o.ValidationFailure? <==>
      req.httpMethod == "POST" && ConfigPresent(env) && req.body.Envelope? && !HasEmail(Mapped(req.body))
    ensures o.Success? || o.DuplicateEmail? || o.PersistenceFailure? <==> InsertAttempted(req, env)
    ensures o.Success? <==> InsertAttempted(req, env) && store.Inserted?
    ensures o.Success? ==> o.userId == store.userId
    ensures o.DuplicateEmail? <==> InsertAttempted(req, env) && IsDuplicateEmail(store)
    ensures o.PersistenceFailure? <==> InsertAttempted(req, env) && store.InsertError? && !IsDuplicateEmail(store)
    ensures o.PersistenceFailure? ==> o.details == store.message
  {
    if req.httpMethod != "POST" then MethodNotAllowed
    else if !ConfigPresent(env) then ConfigurationMissing
    else if req.body.Unparseable? then InternalError(req.body.message)
    else if !HasEmail(Mapped(req.body)) then ValidationFailure
    else if store.Inserted? then Success(store.userId)
    else if IsDuplicateEmail(store) then DuplicateEmail
    else PersistenceFailure(store.message)
  }

  /** Lines 9-12, 23-26, 119-122, 156-168, 176-186, 190-196: the response for each outcome. */
  function Respond(o: Outcome): (resp: Response)
    ensures resp.statusCode == 200 <==> o.DuplicateEmail? || o.Success?
    ensures resp.statusCode == 400 <==> o.ValidationFailure?
    ensures resp.statusCode == 405 <==> o.MethodNotAllowed?
    ensures resp.statusCode == 500 <==> o.ConfigurationMissing? || o.InternalError? || o.PersistenceFailure?
    ensures resp.jsonContentType <==> o.Success?
    ensures resp.body.ErrorBody? <==> o.MethodNotAllowed? || o.ConfigurationMissing? || o.ValidationFailure?
    ensures o.MethodNotAllowed? ==> resp.body.error == "Method Not Allowed"
    ensures o.ConfigurationMissing? ==> resp.body.error == "Server configuration error"
    ensures o.ValidationFailure? ==> resp.body.error == "Email is required"
    ensures o.Success? ==> resp.body.SuccessBody? && resp.body.userId == o.userId && resp.body.status == "success"
                           && resp.body.message == "Waitlist signup successful!"
    ensures o.DuplicateEmail? ==> resp.body.DuplicateBody? && resp.body.status == "duplicate"
                                  && resp.body.message == "Email already registered"
    ensures o.PersistenceFailure? ==> resp.body.ErrorDetailsBody? && resp.body.details == o.details
                                      && resp.body.error == "Database insertion failed"
    ensures o.InternalError? ==> resp.body.ErrorMessageBody? && resp.body.message == o.message
                                 && resp.body.error == "Internal server error"
  {
    match o
    case MethodNotAllowed => Response(405, false, ErrorBody("Method Not Allowed"))
    case ConfigurationMissing => Response(500, false, ErrorBody("Server configuration error"))
    case InternalError(m) => Response(500, false, ErrorMessageBody("Internal server error", m))
    case ValidationFailure => Response(400, false, ErrorBody("Email is required"))
    case DuplicateEmail => Response(200, false, DuplicateBody("Email already registered", "duplicate"))
    case PersistenceFailure(d) => Response(500, false, ErrorDetailsBody("Database insertion failed", d))
    case Success(id) => Response(200, true, SuccessBody("Waitlist signup successful!", id, "success"))
  }

  // ---------------------------------------------------------------- the handler

  /**
   * `exports.handler`: the response, and the record handed to the insert
   * (None when no insert is attempted). `store` is what the insert answers.
   */
  method Handle(req: Request, env: Env, store: InsertResult) returns (resp: Response, written: Option<Record>)
    ensures resp == Respond(Classify(req, env, store))
    ensures written.Some? <==> InsertAttempted(req, env)
    ensures written.Some? ==> written.value == Enrich(Mapped(req.body), req.headers)
    ensures written.Some? ==> HasEmail(written.value) && IsNormalisedEmail(written.value.email.value)
                              && written.value.referralSource == Text(ReferralSource)
  {
    written := None;
    var outcome: Outcome;
    if req.httpMethod != "POST" {
      outcome := MethodNotAllowed;
    } else if !ConfigPresent(env) {
      outcome := ConfigurationMissing;
    } else if req.body.Unparseable? {
      outcome := InternalError(req.body.message);
    } else {
      var formData := FieldMapper.MapFields(FieldList(req.body));
      if !HasEmail(formData) {
        outcome := ValidationFailure;
      } else {
        MapperProperties.StoredEmailOrigin(FieldList(req.body));
        formData := formData.(referralSource := Text(ReferralSource));
        formData := formData.(ipAddress := ClientIp(req.headers));
        formData := formData.(userAgent := UserAgent(req.headers));
        written := Some(formData);
        match store {
          case InsertError(code, message) =>
            if code == "23505" && Contains(message, "email") {
              outcome := DuplicateEmail;
            } else {
              outcome := PersistenceFailure(message);
            }
          case Inserted(userId) =>
            outcome := Success(userId);
        }
      }
    }
    assert outcome == Classify(req, env, store);
    resp := Respond(outcome);
  }

  // ---------------------------------------------------------------- properties

  /** The method gate runs first: any other method gets 405, whatever else holds, and nothing is written. */
  lemma MethodGateFirst(req: Request, env: Env, store: InsertResult)
    requires req.httpMethod != "POST"
    ensures Classify(req, env, store) == MethodNotAllowed && !InsertAttempted(req, env)
    ensures Respond(Classify(req, env, store)).statusCode == 405
  {
  }

  /** A missing URL or key gives 500 before the body is even parsed; the privileged key is preferred. */
  lemma ConfigurationGate(req: Request, env: Env, store: InsertResult)
    ensures ConfigPresent(env) <==> Truthy(env.supabaseUrl) && (Truthy(env.serviceKey) || Truthy(env.anonKey))
    ensures Truthy(env.serviceKey) ==> SelectedKey(env) == env.serviceKey
    ensures req.httpMethod == "POST" && !ConfigPresent(env) ==>
      Classify(req, env, store) == ConfigurationMissing && Respond(ConfigurationMissing).statusCode == 500
  {
  }

  /**
   * A parsed POST to a configured handler is refused with 400, and nothing is
   * written, exactly when no field offers a non-empty email.
   */
  lemma {:induction false} MissingEmailIs400(req: Request, env: Env, store: InsertResult)
    requires req.httpMethod == "POST" && ConfigPresent(env) && req.body.Envelope?
    ensures (Classify(req, env, store) == ValidationFailure)
            <==> forall k :: 0 <= k < |FieldList(req.body)| ==> !NonEmptyCandidate(FieldList(req.body)[k])
    ensures InsertAttempted(req, env) <==> Classify(req, env, store) != ValidationFailure
  {
    MapperProperties.EmailFoundIff(FieldList(req.body));
  }

  /**
   * Once the insert is attempted: success gives 200 with the new id; a unique
   * violation on the email gives 200 "duplicate", never 500; any other store
   * error gives 500 with the store's message.
   */
  lemma StoreOutcome(req: Request, env: Env, store: InsertResult)
    requires InsertAttempted(req, env)
    ensures store.Inserted? ==> Classify(req, env, store) == Success(store.userId)
    ensures IsDuplicateEmail(store) ==>
      Classify(req, env, store) == DuplicateEmail && Respond(Classify(req, env, store)).statusCode == 200
    ensures store.InsertError? && !IsDuplicateEmail(store) ==>
      Classify(req, env, store) == PersistenceFailure(store.message)
      && Respond(Classify(req, env, store)).statusCode == 500
  {
  }

  /** `"1.2.3.4, 5.6.7.8"` in `x-forwarded-for` is stored as `"1.2.3.4"`, ahead of `x-real-ip`. */
  lemma ForwardedForExample(realIp: string)
    ensures ClientIp(map["x-forwarded-for" := "1.2.3.4, 5.6.7.8", "x-real-ip" := realIp]) == Text("1.2.3.4")
  {
    var headers := map["x-forwarded-for" := "1.2.3.4, 5.6.7.8", "x-real-ip" := realIp];
    assert Header(headers, "x-forwarded-for") == Some("1.2.3.4, 5.6.7.8");
    FirstOfTwoAddresses();
  }

  /** The first entry of a two-entry forwarding chain. */
  lemma FirstOfTwoAddresses()
    ensures FirstAddress("1.2.3.4, 5.6.7.8") == "1.2.3.4"
  {
    var forwarded := "1.2.3.4, 5.6.7.8";
    assert forwarded[..7] == "1.2.3.4";
    assert ',' !in "1.2.3.4";
    FirstSegmentAt(forwarded, ',', 7);
    SampleAddressTrimmed();
  }

  /** "1.2.3.4" has no surrounding whitespace. */
  lemma SampleAddressTrimmed()
    ensures Trim("1.2.3.4") == "1.2.3.4"
  {
    assert IsTrimmed("1.2.3.4") by {
      assert "1.2.3.4"[0] == '1' && "1.2.3.4"[6] == '4';
    }
    TrimOfTrimmed("1.2.3.4");
  }

  /**
   * A POST whose only field is an INPUT_EMAIL "a@b.com" inserts a record with
   * that email and referral "tally_form", and answers 200 "success" with the id.
   */
  lemma SingleEmailSubmission(env: Env, id: string)
    requires ConfigPresent(env)
    ensures var req := Request("POST", map[], Envelope(Some([Field("email", None, "INPUT_EMAIL", Str("a@b.com"), None)])));
      && InsertAttempted(req, env)
      && Enrich(Mapped(req.body), req.headers).email == Some("a@b.com")
      && Enrich(Mapped(req.body), req.headers).referralSource == Text("tally_form")
      && Enrich(Mapped(req.body), req.headers).ipAddress == Null
      && Classify(req, env, Inserted(Some(id))) == Success(Some(id))
      && Respond(Success(Some(id))) == Response(200, true, SuccessBody("Waitlist signup successful!", Some(id), "success"))
  {
    SampleFieldMapped();
  }

  /** Mapping that one field records "a@b.com" as the email. */
  lemma SampleFieldMapped()
    ensures MapAll(EmptyRecord, [Field("email", None, "INPUT_EMAIL", Str("a@b.com"), None)]).email == Some("a@b.com")
  {
    var f := Field("email", None, "INPUT_EMAIL", Str("a@b.com"), None);
    SampleCandidate();
    MapperProperties.EmailFirstWins([f], 0);
  }

  /** The sample field offers "a@b.com". */
  lemma SampleCandidate()
    ensures EmailCandidate(Field("email", None, "INPUT_EMAIL", Str("a@b.com"), None)) == Some("a@b.com")
  {
    var f := Field("email", None, "INPUT_EMAIL", Str("a@b.com"), None);
    assert f.fieldType == "INPUT_EMAIL" && f.value.Str?;
    assert EmailCandidate(f) == Some(NormaliseEmail("a@b.com"));
    SampleEmailNormalised();
  }

  /** "a@b.com" is already trimmed and lower-case. */
  lemma SampleEmailNormalised()
    ensures NormaliseEmail("a@b.com") == "a@b.com"
  {
    NormaliseIdempotent("a@b.com");
  }
}
