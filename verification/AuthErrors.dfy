/**
  The error vocabulary of the auth crate: stable codes, rendered messages, and
  the reconstruction of an error from its wire form (code, message, payload).
 */
module AuthErrors {
  import opened Prelude

  /** The stable codes; any other text a peer may send is `Unrecognised`. */
  datatype Code =
    | REQUEST_ERROR | ACCESS_DENIED | INVALID_GRANT | INVALID_CLIENT | INVALID_URL
    | INVALID_REGION | INVALID_CRN | WORKSPACE_MISMATCH | INVALID_WORKSPACE_ID
    | MISSING_WORKSPACE_CRN | NOT_AUTHENTICATED | EXPIRED_TOKEN | INVALID_ACCESS_KEY
    | INVALID_TOKEN | USAGE_LIMIT_EXCEEDED | ORG_NOT_PROVISIONED | SERVER_ERROR
    | ALREADY_CONSUMED | INTERNAL_ERROR | CUSTOM | STORE_ERROR
    | Unrecognised(text: string)

  /**
    A rendered message: either text kept verbatim, or the crate's own fixed
    wording for a code around the details it quotes. A fixed wording is named
    by its code instead of being spelled out; it is never blank.
   */
  datatype Text = Verbatim(text: string) | Worded(code: Code, details: seq<string>) {
    predicate IsBlank() { Verbatim? && forall i :: 0 <= i < |text| ==> IsSpace(text[i]) }
  }

  /** Sixteen base32 characters. */
  predicate IsWorkspaceId(s: string) {
    |s| == 16 && forall i :: 0 <= i < 16 ==> 'A' <= s[i] <= 'Z' || '2' <= s[i] <= '7'
  }

  type WorkspaceId = s: string | IsWorkspaceId(s) witness "AAAAAAAAAAAAAAAA"

  /** A variant that wraps a foreign error carries that error's rendered text. */
  datatype AuthError =
    | Request(noTransport: bool)
    | AccessDenied
    | InvalidGrant
    | InvalidClient
    | InvalidUrl(cause: string)
    | Region(cause: string)
    | InvalidCrn(cause: string)
    | WorkspaceMismatch(expected: WorkspaceId, actual: WorkspaceId)
    | InvalidWorkspaceId(cause: string)
    | MissingWorkspaceCrn
    | NotAuthenticated
    | TokenExpired
    | InvalidAccessKey(cause: string)
    | InvalidToken(cause: string)
    | UsageLimitExceeded(text: Text)
    | OrgNotProvisioned(text: Text)
    | Server(cause: string)
    | AlreadyConsumed
    | Internal(cause: string)
    | Custom(text: Text)
    | Store(cause: string)

  function ErrorCode(e: AuthError): (c: Code)
  {
    match e
    case Request(_) => REQUEST_ERROR
    case AccessDenied => ACCESS_DENIED
    case InvalidGrant => INVALID_GRANT
    case InvalidClient => INVALID_CLIENT
    case InvalidUrl(_) => INVALID_URL
    case Region(_) => INVALID_REGION
    case InvalidCrn(_) => INVALID_CRN
    case WorkspaceMismatch(_, _) => WORKSPACE_MISMATCH
    case InvalidWorkspaceId(_) => INVALID_WORKSPACE_ID
    case MissingWorkspaceCrn => MISSING_WORKSPACE_CRN
    case NotAuthenticated => NOT_AUTHENTICATED
    case TokenExpired => EXPIRED_TOKEN
    case InvalidAccessKey(_) => INVALID_ACCESS_KEY
    case InvalidToken(_) => INVALID_TOKEN
    case UsageLimitExceeded(_) => USAGE_LIMIT_EXCEEDED
    case OrgNotProvisioned(_) => ORG_NOT_PROVISIONED
    case Server(_) => SERVER_ERROR
    case AlreadyConsumed => ALREADY_CONSUMED
    case Internal(_) => INTERNAL_ERROR
    case Custom(_) => CUSTOM
    case Store(_) => STORE_ERROR
  }

  /** The `Display` text of an error. */
  function Message(e: AuthError): (m: Text)
  {
    match e
    case UsageLimitExceeded(text) => text
    case OrgNotProvisioned(text) => text
    case Custom(text) => text
    case Request(noTransport) => Worded(REQUEST_ERROR, if noTransport then ["no transport"] else [])
    case WorkspaceMismatch(expected, actual) => Worded(WORKSPACE_MISMATCH, [expected, actual])
    case InvalidUrl(cause) => Worded(INVALID_URL, [cause])
    case Region(cause) => Worded(INVALID_REGION, [cause])
    case InvalidCrn(cause) => Worded(INVALID_CRN, [cause])
    case InvalidWorkspaceId(cause) => Worded(INVALID_WORKSPACE_ID, [cause])
    case InvalidAccessKey(cause) => Worded(INVALID_ACCESS_KEY, [cause])
    case InvalidToken(cause) => Worded(INVALID_TOKEN, [cause])
    case Server(cause) => Worded(SERVER_ERROR, [cause])
    case Internal(cause) => Worded(INTERNAL_ERROR, [cause])
    case Store(cause) => Worded(STORE_ERROR, [cause])
    case _ => Worded(ErrorCode(e), [])
  }

  /** A fixed wording is the one of the error's own code, and quotes what the error wraps. */
  lemma WordingIsOfTheCode(e: AuthError)
    ensures Message(e).Worded? && !IsAccountRefusal(e) && !e.Custom? ==>
              Message(e).code == ErrorCode(e) && match e
                case Request(noTransport) => Message(e).details == if noTransport then ["no transport"] else []
                case WorkspaceMismatch(expected, actual) => Message(e).details == [expected, actual]
                case InvalidUrl(cause) => Message(e).details == [cause]
                case Region(cause) => Message(e).details == [cause]
                case InvalidCrn(cause) => Message(e).details == [cause]
                case InvalidWorkspaceId(cause) => Message(e).details == [cause]
                case InvalidAccessKey(cause) => Message(e).details == [cause]
                case InvalidToken(cause) => Message(e).details == [cause]
                case Server(cause) => Message(e).details == [cause]
                case Internal(cause) => Message(e).details == [cause]
                case Store(cause) => Message(e).details == [cause]
                case _ => Message(e).details == []
  {
  }

  /** The structured fields an error carries across the boundary. */
  function Payload(e: AuthError): (p: map<string, string>) {
    match e
    case WorkspaceMismatch(expected, actual) => map["expected" := expected, "actual" := actual]
    case _ => map[]
  }

  /** A refusal of the account, as opposed to the credential presented. */
  predicate IsAccountRefusal(e: AuthError) {
    e.UsageLimitExceeded? || e.OrgNotProvisioned?
  }

  /** A store error means the exchange itself succeeded: the credential is spent. */
  predicate CredentialConsumed(e: AuthError) {
    e.Store?
  }

  // ----- blank text -----

  /** Unicode `White_Space`, the characters `str::trim` removes. */
  predicate IsSpace(c: char) {
    var n := c as int;
    9 <= n <= 13 || n == 0x20 || n == 0x85 || n == 0xA0 || n == 0x1680 || 0x2000 <= n <= 0x200A ||
    n == 0x2028 || n == 0x2029 || n == 0x202F || n == 0x205F || n == 0x3000
  }

  /** Nothing but white space, which is what trimming leaves nothing of. */
  predicate IsBlank(s: string) {
    forall i :: 0 <= i < |s| ==> IsSpace(s[i])
  }

  type CharTest = char -> bool

  predicate AllPass(f: CharTest, s: string) { forall i :: 0 <= i < |s| ==> f(s[i]) }

  /** Text without its leading characters that pass, and what was taken off passes. */
  function DropStart(f: CharTest, s: string): (r: string)
    ensures |r| <= |s| && r == s[|s| - |r|..] && AllPass(f, s[..|s| - |r|])
    ensures r != [] ==> !f(r[0])
  {
    if s != [] && f(s[0]) then DropStart(f, s[1..]) else s
  }

  function DropEnd(f: CharTest, s: string): (r: string)
    ensures r <= s && AllPass(f, s[|r|..])
    ensures r != [] ==> !f(r[|r| - 1])
  {
    if s != [] && f(s[|s| - 1]) then DropEnd(f, s[..|s| - 1]) else s
  }

  function Trim(s: string): (r: string) { DropEnd(IsSpace, DropStart(IsSpace, s)) }

  lemma DropsStart(f: CharTest, s: string) returns (before: string)
    ensures AllPass(f, before) && s == before + DropStart(f, s)
  {
    before := s[..|s| - |DropStart(f, s)|];
  }

  lemma DropsEnd(f: CharTest, s: string) returns (after: string)
    ensures AllPass(f, after) && s == DropEnd(f, s) + after
  {
    after := s[|DropEnd(f, s)|..];
  }

  lemma Around(f: CharTest, before: string, r: string, after: string)
    requires AllPass(f, before) && AllPass(f, after) && (r != [] ==> !f(r[0]))
    ensures before + (r + after) == before + r + after
    ensures r == [] <==> AllPass(f, before + r + after)
  {
    var s := before + r + after;
    if r == [] {
      assert forall i :: 0 <= i < |s| ==> s[i] == if i < |before| then before[i] else after[i - |before|];
    } else {
      assert s[|before|] == r[0];
    }
  }

  /** `r` is a text without what passes at its ends; it is empty exactly for a text that passes throughout. */
  predicate IsMiddle(f: CharTest, s: string, before: string, r: string, after: string) {
    && s == before + r + after && AllPass(f, before) && AllPass(f, after)
    && (r != [] ==> !f(r[0]) && !f(r[|r| - 1])) && (r == [] <==> AllPass(f, s))
  }

  lemma DropsBothEnds(f: CharTest, s: string) returns (before: string, after: string)
    ensures IsMiddle(f, s, before, DropEnd(f, DropStart(f, s)), after)
  {
    before := DropsStart(f, s);
    after := DropsEnd(f, DropStart(f, s));
    Around(f, before, DropEnd(f, DropStart(f, s)), after);
  }

  /** Trimming takes off exactly the white space at both ends. */
  lemma TrimsBothEnds(s: string) returns (before: string, after: string)
    ensures IsMiddle(IsSpace, s, before, Trim(s), after)
    ensures Trim(s) == [] <==> IsBlank(s)
  {
    before, after := DropsBothEnds(IsSpace, s);
    BlankPasses(s);
  }

  lemma BlankPasses(s: string)
    ensures AllPass(IsSpace, s) <==> IsBlank(s)
  {
  }

  // ----- reconstruction -----

  const USAGE_LIMIT_TEXT := Worded(USAGE_LIMIT_EXCEEDED, [])
  const NOT_PROVISIONED_TEXT := Worded(ORG_NOT_PROVISIONED, [])

  /** `message`, unless trimming leaves nothing of it. */
  function DefaultIfBlank(message: Text, fallback: Text): (r: Text)
    ensures message.IsBlank() ==> r == fallback
    ensures !message.IsBlank() ==> r == message
  {
    if message.Verbatim? && IsBlank(message.text) then fallback else message
  }

  function WorkspaceMismatchFromPayload(payload: map<string, string>): (r: Option<AuthError>) {
    if "expected" in payload && IsWorkspaceId(payload["expected"]) &&
       "actual" in payload && IsWorkspaceId(payload["actual"])
    then Some(WorkspaceMismatch(payload["expected"], payload["actual"]))
    else None
  }

  function FromErrorCode(code: Code, message: Text, payload: map<string, string>): (e: AuthError)
  {
    match code
    case NOT_AUTHENTICATED => NotAuthenticated
    case EXPIRED_TOKEN => TokenExpired
    case ACCESS_DENIED => AccessDenied
    case INVALID_GRANT => InvalidGrant
    case INVALID_CLIENT => InvalidClient
    case MISSING_WORKSPACE_CRN => MissingWorkspaceCrn
    case ALREADY_CONSUMED => AlreadyConsumed
    case USAGE_LIMIT_EXCEEDED => UsageLimitExceeded(DefaultIfBlank(message, USAGE_LIMIT_TEXT))
    case ORG_NOT_PROVISIONED => OrgNotProvisioned(DefaultIfBlank(message, NOT_PROVISIONED_TEXT))
    case WORKSPACE_MISMATCH =>
      var rebuilt := WorkspaceMismatchFromPayload(payload);
      if rebuilt.Some? then rebuilt.value else Custom(message)
    case _ => Custom(message)
  }

  /** An error taken apart into its wire form and put together again. */
  function Rebuilt(e: AuthError): (r: AuthError) {
    FromErrorCode(ErrorCode(e), Message(e), Payload(e))
  }

  /** The same trip without the payload: what a sticky denial and a parked caller see. */
  function Replayed(e: AuthError): (r: AuthError) {
    FromErrorCode(ErrorCode(e), Message(e), map[])
  }

  /** The errors that own a constructor from (code, message, payload). */
  predicate IsReconstructible(e: AuthError) {
    match e
    case UsageLimitExceeded(text) => !text.IsBlank()
    case OrgNotProvisioned(text) => !text.IsBlank()
    case AccessDenied | InvalidGrant | InvalidClient | MissingWorkspaceCrn | NotAuthenticated
       | TokenExpired | AlreadyConsumed | Custom(_) | WorkspaceMismatch(_, _) => true
    case _ => false
  }

  /**
    Rebuilding loses nothing exactly on the reconstructible errors; on the rest it
    yields CUSTOM with the very same text, except that a blank refusal gains its
    default wording. Rebuilding twice is rebuilding once.
   */
  lemma RebuiltIsExact(e: AuthError)
    ensures Rebuilt(e) == e <==> IsReconstructible(e)
    ensures Rebuilt(Rebuilt(e)) == Rebuilt(e)
    ensures Message(Rebuilt(e)) == Message(e) <==> !(IsAccountRefusal(e) && Message(e).IsBlank())
    ensures ErrorCode(Rebuilt(e)) == ErrorCode(e) || ErrorCode(Rebuilt(e)) == CUSTOM
  {
  }

  /** A parked caller's view: the same text, and the same error unless it needed a payload. */
  lemma ReplayedKeepsTheText(e: AuthError)
    ensures Replayed(e) == e <==> IsReconstructible(e) && !e.WorkspaceMismatch?
    ensures !(IsAccountRefusal(e) && Message(e).IsBlank()) ==> Message(Replayed(e)) == Message(e)
    ensures IsAccountRefusal(Replayed(e)) <==> IsAccountRefusal(e)
    ensures Replayed(Replayed(e)) == Replayed(e)
  {
  }

  // ----- classification of a refused issuance -----

  /** A parsed response body, as far as the classifier looks into it. */
  datatype Json = Object(fields: map<string, Json>) | Text(text: string) | Other

  const CODE_FIELD := "cs_code"
  const DESCRIPTION_FIELD := "error_description"
  const CS_USAGE_LIMIT := "USAGE_LIMIT_EXCEEDED"
  const CS_NOT_PROVISIONED := "ORG_NOT_PROVISIONED"

  /** A non-blank string field, trimmed. */
  function TextField(fields: map<string, Json>, name: string): (r: Option<string>)
    ensures r.Some? ==> !IsBlank(r.value)
  {
    if name in fields && fields[name].Text? && !IsBlank(fields[name].text)
    then TrimmedIsNotBlank(fields[name].text); Some(Trim(fields[name].text)) else None
  }

  lemma TrimmedIsNotBlank(s: string)
    requires !IsBlank(s)
    ensures !IsBlank(Trim(s))
  {
    var before, after := TrimsBothEnds(s);
  }

  function OrElse(o: Option<string>, fallback: Text): (r: Text) {
    if o.Some? then Verbatim(o.value) else fallback
  }

  /** The refusal a `cs_code` names, in the server's words where it has any. */
  function RefusalNamed(code: string, description: Option<string>): (r: Option<AuthError>)
    requires description.Some? ==> !IsBlank(description.value)
    ensures r.Some? ==> IsAccountRefusal(r.value) && !Message(r.value).IsBlank()
  {
    if code == CS_USAGE_LIMIT then Some(UsageLimitExceeded(OrElse(description, USAGE_LIMIT_TEXT)))
    else if code == CS_NOT_PROVISIONED then Some(OrgNotProvisioned(OrElse(description, NOT_PROVISIONED_TEXT)))
    else None
  }

  /** The refusal a parsed body describes; a body without a `cs_code` is a usage limit. */
  function ClassifyRefusal(code: Option<Json>, description: Option<string>): (r: Option<AuthError>)
    requires description.Some? ==> !IsBlank(description.value)
    ensures r.Some? ==> IsAccountRefusal(r.value) && !Message(r.value).IsBlank()
  {
    if code.None? then Some(UsageLimitExceeded(OrElse(description, USAGE_LIMIT_TEXT)))
    else RefusalNamed(if code.value.Text? then Trim(code.value.text) else "", description)
  }

  /**
    Classify a failed issuance: `parsed` is what the JSON parser made of `body`.
    `None` sends the caller to its own generic handling.
   */
  function ClassifyIssuanceFailure(status: nat, body: string, parsed: Option<Json>): (r: Option<AuthError>) {
    if status != 402 then None
    else if IsBlank(body) then Some(UsageLimitExceeded(USAGE_LIMIT_TEXT))
    else if parsed.None? || !parsed.value.Object? then None
    else
      var fields := parsed.value.fields;
      ClassifyRefusal(if CODE_FIELD in fields then Some(fields[CODE_FIELD]) else None, TextField(fields, DESCRIPTION_FIELD))
  }

  /** A 402 with a body names its refusal by `cs_code`, and without one it is a usage limit; nothing else is classified. */
  lemma ClassifiedByCode(status: nat, body: string, parsed: Option<Json>)
    ensures var r := ClassifyIssuanceFailure(status, body, parsed);
            && (status != 402 ==> r.None?)
            && (status == 402 && IsBlank(body) ==> r == Some(UsageLimitExceeded(USAGE_LIMIT_TEXT)))
            && (status == 402 && !IsBlank(body) && (parsed.None? || !parsed.value.Object?) ==> r.None?)
  {
  }

  lemma ClassifiedByBody(body: string, fields: map<string, Json>)
    requires !IsBlank(body)
    ensures var r := ClassifyIssuanceFailure(402, body, Some(Object(fields)));
            var text := TextField(fields, "error_description");
            && (text == if "error_description" in fields && fields["error_description"].Text? && !IsBlank(fields["error_description"].text)
                        then Some(Trim(fields["error_description"].text)) else None)
            && ("cs_code" !in fields ==> r == Some(UsageLimitExceeded(if text.Some? then Verbatim(text.value) else USAGE_LIMIT_TEXT)))
            && ("cs_code" in fields && !fields["cs_code"].Text? ==> r.None?)
            && ("cs_code" in fields && fields["cs_code"].Text? ==> r == RefusalNamed(Trim(fields["cs_code"].text), text))
  {
    assert !("" == CS_USAGE_LIMIT) && !("" == CS_NOT_PROVISIONED);
  }

  lemma CodesByName(code: string, text: string)
    requires !IsBlank(text)
    ensures RefusalNamed("USAGE_LIMIT_EXCEEDED", Some(text)) == Some(UsageLimitExceeded(Verbatim(text)))
    ensures RefusalNamed("USAGE_LIMIT_EXCEEDED", None) == Some(UsageLimitExceeded(Worded(USAGE_LIMIT_EXCEEDED, [])))
    ensures RefusalNamed("ORG_NOT_PROVISIONED", Some(text)) == Some(OrgNotProvisioned(Verbatim(text)))
    ensures RefusalNamed("ORG_NOT_PROVISIONED", None) == Some(OrgNotProvisioned(Worded(ORG_NOT_PROVISIONED, [])))
    ensures code != "USAGE_LIMIT_EXCEEDED" && code != "ORG_NOT_PROVISIONED" ==> RefusalNamed(code, Some(text)).None? && RefusalNamed(code, None).None?
  {
  }

  /** Every classified refusal replays unchanged, code and text, from a sticky denial. */
  lemma ClassifiedRefusalReplays(status: nat, body: string, parsed: Option<Json>)
    ensures var r := ClassifyIssuanceFailure(status, body, parsed);
            r.Some? ==> IsAccountRefusal(r.value) && Replayed(r.value) == r.value && Rebuilt(r.value) == r.value
  {
    var r := ClassifyIssuanceFailure(status, body, parsed);
    if r.Some? {
      ClassifiedIsWorded(status, body, parsed);
      WordedRefusalReplays(r.value);
    }
  }

  lemma ClassifiedIsWorded(status: nat, body: string, parsed: Option<Json>)
    ensures var r := ClassifyIssuanceFailure(status, body, parsed);
            r.Some? ==> IsAccountRefusal(r.value) && !Message(r.value).IsBlank()
  {
  }

  lemma WordedRefusalReplays(e: AuthError)
    requires IsAccountRefusal(e) && !Message(e).IsBlank()
    ensures Replayed(e) == e && Rebuilt(e) == e
  {
    RebuiltIsExact(e);
    ReplayedKeepsTheText(e);
  }
}
