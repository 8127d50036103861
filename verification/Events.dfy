/** Optional values. */
module Options {
  datatype Option<+T> = None | Some(value: T) {
    function GetOr(default: T): T {
      match this
      case None => default
      case Some(v) => v
    }
  }
}

/** Trace events as the portal page sees them, and what it reads off an event's type. */
module Events {
  import opened Options

  datatype Json =
    | Null
    | Bool(b: bool)
    | Num(n: real)
    | Str(s: string)
    | Arr(items: seq<Json>)
    | Obj(fields: Fields)

  type Fields = map<string, Json>

  datatype Event = Event(ty: string, payload: Option<Fields>)

  /** What arrives at the queue: an event, or a value that has no string `type`. */
  datatype Incoming = Untyped | Typed(ev: Event)

  const RESOLVE_REQUESTED := "portal.resolve.requested"
  const PEER_URI_SEEN := "mtls.peer_uri_seen"
  const HANDSHAKE_ERR := "mtls.handshake.err"
  const FORWARDED := "carrier.event.raw"

  /** JavaScript truthiness. */
  predicate Truthy(j: Json) {
    match j
    case Null => false
    case Bool(b) => b
    case Num(n) => n != 0.0
    case Str(s) => s != ""
    case Arr(_) | Obj(_) => true
  }

  const FALSY := {Null, Bool(false), Num(0.0), Str("")}

  lemma TruthyIff(j: Json)
    ensures Truthy(j) <==> j !in FALSY
  {}

  predicate EndsWith(s: string, suffix: string) {
    |suffix| <= |s| && s[|s| - |suffix|..] == suffix
  }

  predicate IsErrorType(ty: string) {
    EndsWith(ty, ".err") || EndsWith(ty, ".error") || EndsWith(ty, ".empty")
  }

  /** An error type is anything with one of the three endings. */
  lemma ErrorTypeIff(ty: string)
    ensures IsErrorType(ty) <==> exists stem: string :: ty in [stem + ".err", stem + ".error", stem + ".empty"]
  {
    if IsErrorType(ty) {
      var n := if EndsWith(ty, ".err") then 4 else 6;
      var stem := ty[..|ty| - n];
      assert ty == stem + ty[|ty| - n..];
      assert ty in [stem + ".err", stem + ".error", stem + ".empty"];
    } else {
      forall stem: string ensures ty !in [stem + ".err", stem + ".error", stem + ".empty"] {
        assert (stem + ".err")[|stem|..] == ".err" && (stem + ".error")[|stem|..] == ".error";
        assert (stem + ".empty")[|stem|..] == ".empty";
      }
    }
  }

  predicate IsError(ev: Event) {
    IsErrorType(ev.ty)
  }

  /** The stage an event belongs to, or -1. */
  function EventToStage(ty: string): (stage: int)
    ensures -1 <= stage <= 5
  {
    match ty
    case "portal.resolve.requested" => 0
    case "mtls.handshake.start" => 1
    case "mtls.peer_uri_seen" => 1
    case "mtls.handshake.ok" => 1
    case "jwt_svid.issued" => 2
    case "sm.authn_jwt.ok" => 3
    case "sm.secret_fetched.ok" => 4
    case "portal.resolve.ok" => 5
    case "mtls.handshake.err" => 1
    case "mtls.handshake.error" => 1
    case _ => -1
  }

  /** One level of unwrapping of a forwarded carrier frame. `decode` is JSON.parse of the
      frame's text; None means that it throws, and then the wrapper itself is kept. */
  function Unwrap(raw: Incoming, decode: Json -> Option<Incoming>): Incoming {
    if raw.Typed? && raw.ev.ty == FORWARDED && raw.ev.payload.Some?
       && "frame" in raw.ev.payload.value && Truthy(raw.ev.payload.value["frame"])
    then
      match decode(raw.ev.payload.value["frame"])
      case None => raw
      case Some(inner) => inner
    else raw
  }
}
