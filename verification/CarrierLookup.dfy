/** The carrier's lookup: a staged pipeline that emits an event per stage, and what those events and
    the response tell about the secrets it handles. */
module CarrierLookup {
  import opened Events

  type Payload = map<string, Value>

  datatype Value = Text(s: string) | Number(n: int) | Other(json: string)

  datatype TraceEvent = TraceEvent(ty: string, payload: Payload)

  datatype Response = BadRequest | BadGateway(why: string) | NotFound | Found(row: string)

  datatype Answer<T> = Ok(value: T) | Err(message: string)

  /** A JWT-SVID with what is read off it. */
  datatype JwtSvid = JwtSvid(raw: string, exp: int, spiffeId: string, alg: string, kid: string, iss: Value, iat: Value, jti: Value, typ: string)
  datatype AuthnMeta = AuthnMeta(url: string, httpMethod: string, status: int, ttl: int, scope: string)
  datatype SecretMeta = SecretMeta(url: string, httpMethod: string, status: int, secretId: string, version: string, policyScope: string)
  datatype Authn = Authn(token: string, meta: AuthnMeta)
  datatype Secret = Secret(bytes: seq<char>, meta: SecretMeta)

  /** What the world answers, stage by stage. */
  datatype World = World(jwt: Answer<JwtSvid>, authn: Answer<Authn>, secret: Answer<Secret>, fixtures: map<string, string>)

  const REDACTED := "...REDACTED"

  function RedactBearer(token: string): string {
    if |token| < 4 then token else token[..4] + REDACTED
  }

  function ErrEvent(ty: string, message: string): TraceEvent {
    TraceEvent(ty, map["err" := Text(message)])
  }

  function IdEvent(ty: string, id: string): TraceEvent {
    TraceEvent(ty, map["id" := Text(id)])
  }

  function JwtIssued(j: JwtSvid): TraceEvent {
    TraceEvent("jwt_svid.issued", map[
      "aud" := Text("conjur"), "exp" := Number(j.exp), "spiffe_id" := Text(j.spiffeId),
      "alg" := Text(j.alg), "kid" := Text(j.kid), "iss" := j.iss, "iat" := j.iat, "jti" := j.jti,
      "typ" := Text(j.typ), "raw" := Text(j.raw)])
  }

  function AuthnOk(a: Authn): TraceEvent {
    TraceEvent("sm.authn_jwt.ok", map[
      "url" := Text(a.meta.url), "method" := Text(a.meta.httpMethod), "status" := Number(a.meta.status),
      "token_redacted" := Text(RedactBearer(a.token)), "token_ttl_seconds" := Number(a.meta.ttl),
      "scope" := Text(a.meta.scope), "token_len" := Number(|a.token|)])
  }

  function SecretOk(s: Secret): TraceEvent {
    TraceEvent("sm.secret_fetched.ok", map[
      "url" := Text(s.meta.url), "method" := Text(s.meta.httpMethod), "status" := Number(s.meta.status),
      "secret_id" := Text(s.meta.secretId), "version" := Text(s.meta.version),
      "policy_scope" := Text(s.meta.policyScope), "bytes" := Number(|s.bytes|)])
  }

  /** Everything an observer of the trace and of the response sees. */
  datatype Observation = Observation(log: seq<TraceEvent>, response: Response)

  function Then(ev: TraceEvent, rest: Observation): Observation {
    Observation([ev] + rest.log, rest.response)
  }

  function Lookup(id: string, w: World): Observation {
    if id == "" || '/' in id then Observation([], BadRequest)
    else Then(IdEvent("request.received", id), Attest(id, w))
  }

  function Attest(id: string, w: World): Observation {
    match w.jwt
    case Err(message) => Observation([ErrEvent("jwt_svid.error", message)], BadGateway("agent unreachable"))
    case Ok(j) => Then(JwtIssued(j), Authenticate(id, w))
  }

  function Authenticate(id: string, w: World): Observation {
    match w.authn
    case Err(message) => Observation([ErrEvent("sm.authn_jwt.err", message)], BadGateway("identity rejected"))
    case Ok(a) => Then(AuthnOk(a), Fetch(id, w))
  }

  function Fetch(id: string, w: World): Observation {
    match w.secret
    case Err(message) => Observation([ErrEvent("sm.secret_fetched.err", message)], BadGateway("policy denies access"))
    case Ok(s) =>
      if s.bytes == [] then Observation([TraceEvent("sm.secret_fetched.empty", map[])], BadGateway("empty secret"))
      else Then(SecretOk(s), Resolve(id, w))
  }

  function Resolve(id: string, w: World): Observation {
    if id in w.fixtures then Observation([IdEvent("carrier.lookup.ok", id)], Found(w.fixtures[id]))
    else Observation([IdEvent("carrier.lookup.miss", id)], NotFound)
  }

  class Handler {
    var log: seq<TraceEvent>

    constructor ()
      ensures log == []
    {
      log := [];
    }

    method Emit(ev: TraceEvent)
      modifies this
      ensures log == old(log) + [ev]
    {
      log := log + [ev];
    }

    method HandleLookup(id: string, w: World) returns (r: Response)
      modifies this
      ensures log == old(log) + Lookup(id, w).log && r == Lookup(id, w).response
    {
      hide JwtIssued, AuthnOk, SecretOk, ErrEvent, IdEvent;
      if id == "" || '/' in id { return BadRequest; }
      Emit(IdEvent("request.received", id));
      if w.jwt.Err? {
        Emit(ErrEvent("jwt_svid.error", w.jwt.message));
        return BadGateway("agent unreachable");
      }
      Emit(JwtIssued(w.jwt.value));
      if w.authn.Err? {
        Emit(ErrEvent("sm.authn_jwt.err", w.authn.message));
        return BadGateway("identity rejected");
      }
      Emit(AuthnOk(w.authn.value));
      if w.secret.Err? {
        Emit(ErrEvent("sm.secret_fetched.err", w.secret.message));
        return BadGateway("policy denies access");
      }
      if |w.secret.value.bytes| == 0 {
        Emit(TraceEvent("sm.secret_fetched.empty", map[]));
        return BadGateway("empty secret");
      }
      Emit(SecretOk(w.secret.value));
      if id !in w.fixtures {
        Emit(IdEvent("carrier.lookup.miss", id));
        return NotFound;
      }
      Emit(IdEvent("carrier.lookup.ok", id));
      return Found(w.fixtures[id]);
    }
  }

  // ---- What the trace tells of the response ----

  predicate StagesOk(w: World) {
    w.jwt.Ok? && w.authn.Ok? && w.secret.Ok? && w.secret.value.bytes != []
  }

  /** The response is a bad gateway exactly if the trace ends in an error event, and no event before
      the last is one. */
  ghost predicate EndsRight(o: Observation) {
    && o.log != []
    && (o.response.BadGateway? <==> IsErrorType(o.log[|o.log| - 1].ty))
    && (forall i | 0 <= i < |o.log| - 1 :: !IsErrorType(o.log[i].ty))
  }

  /** A lookup of a well-formed id fails with a bad gateway exactly if a stage does, and then its trace
      ends in an error event; no trace holds an error event anywhere else. */
  lemma FailureEndsTheTrace(id: string, w: World)
    requires id != "" && '/' !in id
    ensures var o := Lookup(id, w);
      && EndsRight(o)
      && (o.response.BadGateway? <==> !StagesOk(w))
      && (o.response.Found? <==> StagesOk(w) && id in w.fixtures)
      && (StagesOk(w) <==> |o.log| == 5)
  {
    hide JwtIssued, AuthnOk, SecretOk, ErrEvent, IdEvent, EndsRight;
    OneEnds(IdEvent("carrier.lookup.ok", id), if id in w.fixtures then Found(w.fixtures[id]) else NotFound);
    OneEnds(IdEvent("carrier.lookup.miss", id), NotFound);
    OneEnds(TraceEvent("sm.secret_fetched.empty", map[]), BadGateway("empty secret"));
    NamesOfEvents(id, w);
    if w.secret.Err? { OneEnds(ErrEvent("sm.secret_fetched.err", w.secret.message), BadGateway("policy denies access")); }
    if w.secret.Ok? { ThenEnds(SecretOk(w.secret.value), Resolve(id, w)); }
    if w.authn.Err? { OneEnds(ErrEvent("sm.authn_jwt.err", w.authn.message), BadGateway("identity rejected")); }
    if w.authn.Ok? { ThenEnds(AuthnOk(w.authn.value), Fetch(id, w)); }
    if w.jwt.Err? { OneEnds(ErrEvent("jwt_svid.error", w.jwt.message), BadGateway("agent unreachable")); }
    if w.jwt.Ok? { ThenEnds(JwtIssued(w.jwt.value), Authenticate(id, w)); }
    ThenEnds(IdEvent("request.received", id), Attest(id, w));
  }

  lemma OneEnds(ev: TraceEvent, r: Response)
    ensures EndsRight(Observation([ev], r)) <==> (r.BadGateway? <==> IsErrorType(ev.ty))
  {}

  lemma ThenEnds(ev: TraceEvent, rest: Observation)
    ensures EndsRight(rest) && !IsErrorType(ev.ty) ==> EndsRight(Then(ev, rest))
    ensures |Then(ev, rest).log| == 1 + |rest.log| && Then(ev, rest).response == rest.response
  {
    var all := [ev] + rest.log;
    assert forall i | 0 < i < |all| :: all[i] == rest.log[i - 1];
  }

  lemma NamesOfEvents(id: string, w: World)
    ensures w.jwt.Err? ==> IsErrorType(ErrEvent("jwt_svid.error", w.jwt.message).ty)
    ensures w.authn.Err? ==> IsErrorType(ErrEvent("sm.authn_jwt.err", w.authn.message).ty)
    ensures w.secret.Err? ==> IsErrorType(ErrEvent("sm.secret_fetched.err", w.secret.message).ty)
    ensures IsErrorType("sm.secret_fetched.empty")
    ensures !IsErrorType(IdEvent("request.received", id).ty)
    ensures w.jwt.Ok? ==> !IsErrorType(JwtIssued(w.jwt.value).ty)
    ensures w.authn.Ok? ==> !IsErrorType(AuthnOk(w.authn.value).ty)
    ensures w.secret.Ok? ==> !IsErrorType(SecretOk(w.secret.value).ty)
    ensures !IsErrorType(IdEvent("carrier.lookup.ok", id).ty) && !IsErrorType(IdEvent("carrier.lookup.miss", id).ty)
  {
    hide IsErrorType;
    ErrorName("jwt_svid.error", "jwt_svid", ".error");
    ErrorName("sm.authn_jwt.err", "sm.authn_jwt", ".err");
    ErrorName("sm.secret_fetched.err", "sm.secret_fetched", ".err");
    ErrorName("sm.secret_fetched.empty", "sm.secret_fetched", ".empty");
    OtherName("request.received");
    OtherName("jwt_svid.issued");
    OtherName("sm.authn_jwt.ok");
    OtherName("sm.secret_fetched.ok");
    OtherName("carrier.lookup.ok");
    OtherName("carrier.lookup.miss");
  }

  lemma ErrorName(ty: string, stem: string, ending: string)
    requires ty == stem + ending && ending in {".err", ".error", ".empty"}
    ensures IsErrorType(ty)
  {
    assert ty[|stem|..] == ending;
  }

  /** An error type ends in r or y. */
  lemma OtherName(ty: string)
    requires ty != "" && ty[|ty| - 1] != 'r' && ty[|ty| - 1] != 'y'
    ensures !IsErrorType(ty)
  {}

  // ---- What the trace and the response are ----

  function Types(log: seq<TraceEvent>): seq<string> {
    seq(|log|, i requires 0 <= i < |log| => log[i].ty)
  }

  /** How many of the three stages are passed, one after the other. */
  function Passed(w: World): (n: nat)
    ensures n <= 3 && (n == 3 <==> StagesOk(w))
  {
    if w.jwt.Err? then 0 else if w.authn.Err? then 1 else if w.secret.Err? || w.secret.value.bytes == [] then 2 else 3
  }

  const MILESTONES := ["request.received", "jwt_svid.issued", "sm.authn_jwt.ok", "sm.secret_fetched.ok"]

  /** The event after the last milestone, and the response, by how far the lookup gets. */
  predicate Concludes(id: string, w: World, last: TraceEvent, r: Response) {
    match Passed(w)
    case 0 => last == ErrEvent("jwt_svid.error", w.jwt.message) && r == BadGateway("agent unreachable")
    case 1 => last == ErrEvent("sm.authn_jwt.err", w.authn.message) && r == BadGateway("identity rejected")
    case 2 =>
      if w.secret.Err? then
        last == ErrEvent("sm.secret_fetched.err", w.secret.message) && r == BadGateway("policy denies access")
      else last == TraceEvent("sm.secret_fetched.empty", map[]) && r == BadGateway("empty secret")
    case _ =>
      if id in w.fixtures then
        last == TraceEvent("carrier.lookup.ok", map["id" := Text(id)]) && r == Found(w.fixtures[id])
      else last == TraceEvent("carrier.lookup.miss", map["id" := Text(id)]) && r == NotFound
  }

  /** The trace is the milestones passed, in order, each with what it is to show, and one event that says how
      the lookup ended. A malformed id leaves no trace. */
  lemma TraceIs(id: string, w: World)
    ensures var o := Lookup(id, w);
      if id == "" || '/' in id then o == Observation([], BadRequest) else
      && |o.log| == Passed(w) + 2
      && Types(o.log[..Passed(w) + 1]) == MILESTONES[..Passed(w) + 1]
      && Concludes(id, w, o.log[Passed(w) + 1], o.response)
      && o.log[0].payload == map["id" := Text(id)]
      && (Passed(w) >= 1 ==> ShowsToken(o.log[1].payload, w.jwt.value))
      && (Passed(w) >= 2 ==> ShowsAuthn(o.log[2].payload, w.authn.value))
      && (Passed(w) >= 3 ==> ShowsSecret(o.log[3].payload, w.secret.value))
  {
    hide Lookup, Concludes, ShowsToken, ShowsAuthn, ShowsSecret;
    if id == "" || '/' in id {
      MalformedIs(id, w);
    } else {
      MilestonesAre(id, w);
      ConclusionIs(id, w);
      PayloadsAre(id, w);
    }
  }

  lemma MalformedIs(id: string, w: World)
    requires id == "" || '/' in id
    ensures Lookup(id, w) == Observation([], BadRequest)
  {}

  lemma MilestonesAre(id: string, w: World)
    requires id != "" && '/' !in id
    ensures var log := Lookup(id, w).log;
      |log| == Passed(w) + 2 && Types(log[..Passed(w) + 1]) == MILESTONES[..Passed(w) + 1]
  {
    hide JwtIssued, AuthnOk, SecretOk, ErrEvent;
    if w.jwt.Ok? { TokenIsShown(w.jwt.value); }
    if w.authn.Ok? { AuthnIsShown(w.authn.value); }
    if w.secret.Ok? { SecretIsShown(w.secret.value); }
  }

  lemma ConclusionIs(id: string, w: World)
    requires id != "" && '/' !in id
    ensures var o := Lookup(id, w);
      |o.log| == Passed(w) + 2 && Concludes(id, w, o.log[Passed(w) + 1], o.response)
  {
    hide JwtIssued, AuthnOk, SecretOk;
  }

  lemma PayloadsAre(id: string, w: World)
    requires id != "" && '/' !in id
    ensures var log := Lookup(id, w).log;
      && |log| == Passed(w) + 2 && log[0].payload == map["id" := Text(id)]
      && (Passed(w) >= 1 ==> ShowsToken(log[1].payload, w.jwt.value))
      && (Passed(w) >= 2 ==> ShowsAuthn(log[2].payload, w.authn.value))
      && (Passed(w) >= 3 ==> ShowsSecret(log[3].payload, w.secret.value))
  {
    hide JwtIssued, AuthnOk, SecretOk, ErrEvent, ShowsToken, ShowsAuthn, ShowsSecret;
    if w.jwt.Ok? { TokenIsShown(w.jwt.value); }
    if w.authn.Ok? { AuthnIsShown(w.authn.value); }
    if w.secret.Ok? { SecretIsShown(w.secret.value); }
  }

  lemma TokenIsShown(j: JwtSvid)
    ensures JwtIssued(j).ty == "jwt_svid.issued" && ShowsToken(JwtIssued(j).payload, j)
  {}

  lemma AuthnIsShown(a: Authn)
    ensures AuthnOk(a).ty == "sm.authn_jwt.ok" && ShowsAuthn(AuthnOk(a).payload, a)
  {}

  lemma SecretIsShown(s: Secret)
    ensures SecretOk(s).ty == "sm.secret_fetched.ok" && ShowsSecret(SecretOk(s).payload, s)
  {}

  /** Each field of an event shows what it is named after. */
  predicate ShowsToken(p: Payload, j: JwtSvid) {
    && p.Keys == {"aud", "exp", "spiffe_id", "alg", "kid", "iss", "iat", "jti", "typ", "raw"}
    && p["aud"] == Text("conjur") && p["exp"] == Number(j.exp) && p["spiffe_id"] == Text(j.spiffeId)
    && p["alg"] == Text(j.alg) && p["kid"] == Text(j.kid) && p["iss"] == j.iss && p["iat"] == j.iat
    && p["jti"] == j.jti && p["typ"] == Text(j.typ) && p["raw"] == Text(j.raw)
  }

  predicate ShowsAuthn(p: Payload, a: Authn) {
    && p.Keys == {"url", "method", "status", "token_redacted", "token_ttl_seconds", "scope", "token_len"}
    && p["url"] == Text(a.meta.url) && p["method"] == Text(a.meta.httpMethod) && p["status"] == Number(a.meta.status)
    && p["token_ttl_seconds"] == Number(a.meta.ttl) && p["scope"] == Text(a.meta.scope)
    && p["token_len"] == Number(|a.token|)
    && p["token_redacted"] == Text(if |a.token| < 4 then a.token else a.token[..4] + "...REDACTED")
  }

  predicate ShowsSecret(p: Payload, s: Secret) {
    && p.Keys == {"url", "method", "status", "secret_id", "version", "policy_scope", "bytes"}
    && p["url"] == Text(s.meta.url) && p["method"] == Text(s.meta.httpMethod) && p["status"] == Number(s.meta.status)
    && p["secret_id"] == Text(s.meta.secretId) && p["version"] == Text(s.meta.version)
    && p["policy_scope"] == Text(s.meta.policyScope) && p["bytes"] == Number(|s.bytes|)
  }

  /** Two lookups that pass every stage and differ only in the shipments answer alike exactly if both
      miss the id or both hold the same row for it; and the answer is that row. */
  lemma AnswerIsTheRow(id: string, w: World, fixtures: map<string, string>)
    requires id != "" && '/' !in id && StagesOk(w)
    ensures var o, o' := Lookup(id, w), Lookup(id, w.(fixtures := fixtures));
      && (o == o' <==> (id in w.fixtures <==> id in fixtures) && (id in w.fixtures && id in fixtures ==> w.fixtures[id] == fixtures[id]))
      && (id in w.fixtures ==> o.response == Found(w.fixtures[id]))
  {
    TraceIs(id, w);
    TraceIs(id, w.(fixtures := fixtures));
  }

  // ---- Two runs ----

  /** The lookup gets as far as fetching the secret. */
  predicate ReachesSecret(id: string, w: World) {
    id != "" && '/' !in id && w.jwt.Ok? && w.authn.Ok?
  }

  /** Two runs that differ only in the secret are told apart exactly by its length. */
  lemma SecretShowsOnlyItsLength(id: string, w: World, bytes: seq<char>)
    requires ReachesSecret(id, w) && w.secret.Ok?
    ensures Lookup(id, w) == Lookup(id, w.(secret := Ok(w.secret.value.(bytes := bytes))))
      <==> |bytes| == |w.secret.value.bytes|
  {
    var w' := w.(secret := Ok(w.secret.value.(bytes := bytes)));
    var f, f' := Fetch(id, w), Fetch(id, w');
    if |bytes| != |w.secret.value.bytes| {
      if bytes != [] && w.secret.value.bytes != [] {
        assert f.log[0].payload["bytes"] != f'.log[0].payload["bytes"];
      } else {
        assert f.response == BadGateway("empty secret") <==> w.secret.value.bytes == [];
        assert f.log[0].ty != f'.log[0].ty by { assert |"sm.secret_fetched.empty"| != |"sm.secret_fetched.ok"|; }
      }
      assert f.log[0] != f'.log[0];
      SameFront(id, w, w');
    }
  }

  /** Up to the fetch, the events depend on the answers so far only. */
  lemma SameFront(id: string, w: World, w': World)
    requires ReachesSecret(id, w) && w'.jwt == w.jwt && w'.authn == w.authn
    ensures Lookup(id, w) == Lookup(id, w') ==> Fetch(id, w).log == Fetch(id, w').log
  {
    var front := [IdEvent("request.received", id), JwtIssued(w.jwt.value), AuthnOk(w.authn.value)];
    assert Lookup(id, w).log == front + Fetch(id, w).log;
    assert Lookup(id, w').log == front + Fetch(id, w').log;
    assert Lookup(id, w).log[3..] == Fetch(id, w).log && Lookup(id, w').log[3..] == Fetch(id, w').log;
  }

  function Shown(token: string): string {
    if |token| < 4 then token else token[..4]
  }

  /** Two runs that differ only in the bearer token, the answers to it being the same, are told apart
      exactly by its length and its first four characters. */
  lemma TokenShowsOnlyItsStart(id: string, w: World, token: string)
    requires ReachesSecret(id, w)
    ensures Lookup(id, w) == Lookup(id, w.(authn := Ok(w.authn.value.(token := token))))
      <==> |token| == |w.authn.value.token| && Shown(token) == Shown(w.authn.value.token)
  {
    var a := w.authn.value;
    var a' := a.(token := token);
    var w' := w.(authn := Ok(a'));
    assert Fetch(id, w) == Fetch(id, w');
    var e, e' := AuthnOk(a), AuthnOk(a');
    if |token| == |a.token| { RedactionShows(a.token, token); }
    assert Lookup(id, w).log[2] == e && Lookup(id, w').log[2] == e';
    if e == e' {
      assert e.payload["token_len"] == e'.payload["token_len"];
      assert e.payload["token_redacted"] == e'.payload["token_redacted"];
    }
  }

  /** Redaction keeps the first four characters of a token and nothing else of it; a shorter one is kept whole. */
  lemma RedactionShows(a: string, b: string)
    requires |a| == |b|
    ensures RedactBearer(a) == RedactBearer(b) <==> Shown(a) == Shown(b)
  {
    if |a| >= 4 {
      assert RedactBearer(a)[..4] == a[..4] && RedactBearer(b)[..4] == b[..4];
    }
  }
}
