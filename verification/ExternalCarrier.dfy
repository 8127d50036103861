/** What an external resolve emits: the request handler's events around those of the dial. */
module ExternalCarrier {
  import opened Options
  import opened Events
  import M = BusModel
  import TraceBus

  /** The outcome of the TLS dial: refused, with the URIs of the rejected certificate if it was the
      certificate that was refused; or accepted, which the demo does not expect. */
  datatype Dial = Rejected(uris: seq<string>, err: string) | NetworkError(err: string) | Accepted

  function Simple(ty: string, name: string, value: string): Event {
    Event(ty, Some(map[name := Str(value)]))
  }

  function Start(addr: string): Event {
    Simple("mtls.handshake.start", "peer_host", addr)
  }

  function PeerUriSeen(uri: string): Event {
    Simple(PEER_URI_SEEN, "uri", uri)
  }

  function HandshakeErr(err: string): Event {
    Simple(HANDSHAKE_ERR, "err", err)
  }

  /** The events of a dial, in the order of emission. */
  function ResolveScript(addr: string, dial: Dial): seq<Event> {
    match dial
    case Rejected(uris, err) =>
      if uris == [] then [Start(addr), HandshakeErr(err)]
      else [Start(addr), PeerUriSeen(uris[0]), HandshakeErr(err)]
    case NetworkError(err) => [Start(addr), HandshakeErr(err)]
    case Accepted => [Start(addr), Simple("mtls.handshake.unexpected_ok", "peer_host", addr)]
  }

  function Requested(id: string): Event {
    Event(RESOLVE_REQUESTED, Some(map["id" := Str(id), "carrier" := Str("external")]))
  }

  /** Every outcome of the dial is an error to the handler, the unexpected success too, so its branch for
      a resolve without an error is never taken. */
  const RESOLVE_REJECTED := Simple("portal.resolve.rejected", "reason", "trust_boundary")

  /** The events of the whole request; the response is a 502 whatever the dial's outcome. */
  function RequestScript(id: string, addr: string, dial: Dial): seq<Event> {
    [Requested(id)] + ResolveScript(addr, dial) + [RESOLVE_REJECTED]
  }

  /** What the portal says of a resolve, by the outcome of the dial: that it starts; the foreign URI exactly
      if a certificate with URIs was refused; the error exactly if the dial was not accepted. */
  lemma ScriptIs(id: string, addr: string, dial: Dial)
    ensures var evs := RequestScript(id, addr, dial);
      && evs[0] == Event("portal.resolve.requested", Some(map["id" := Str(id), "carrier" := Str("external")]))
      && evs[1] == Event("mtls.handshake.start", Some(map["peer_host" := Str(addr)]))
      && evs[|evs| - 1] == Event("portal.resolve.rejected", Some(map["reason" := Str("trust_boundary")]))
      && |evs| == (if dial.Rejected? && dial.uris != [] then 5 else 4)
      && (dial.Rejected? && dial.uris != [] ==>
            evs[2] == Event("mtls.peer_uri_seen", Some(map["uri" := Str(dial.uris[0])])))
      && evs[|evs| - 2] == (if dial.Accepted? then Event("mtls.handshake.unexpected_ok", Some(map["peer_host" := Str(addr)]))
                            else Event("mtls.handshake.err", Some(map["err" := Str(dial.err)])))
  {}

  datatype Verdict = Untrusted | DialFailed | UnexpectedlyTrusted

  method Resolve(bus: TraceBus.Bus, addr: string, dial: Dial) returns (v: Verdict)
    requires bus.Valid()
    modifies bus.subs
    ensures bus.Valid() && bus.View() == M.EmitAll(old(bus.View()), ResolveScript(addr, dial))
    ensures v == match dial case Rejected(_, _) => Untrusted case NetworkError(_) => DialFailed case Accepted => UnexpectedlyTrusted
  {
    ghost var b := bus.View();
    ghost var script := ResolveScript(addr, dial);
    EmitAllOne(b, script);
    bus.Emit(Start(addr));
    match dial
    case Accepted =>
      EmitAllNext(b, script, 1);
      bus.Emit(Simple("mtls.handshake.unexpected_ok", "peer_host", addr));
      v := UnexpectedlyTrusted;
    case NetworkError(err) =>
      EmitAllNext(b, script, 1);
      bus.Emit(HandshakeErr(err));
      v := DialFailed;
    case Rejected(uris, err) =>
      EmitAllNext(b, script, 1);
      if |uris| > 0 {
        bus.Emit(PeerUriSeen(uris[0]));
        EmitAllNext(b, script, 2);
      }
      bus.Emit(HandshakeErr(err));
      v := Untrusted;
    assert script[..|script|] == script;
  }

  lemma EmitAllOne<K>(b: M.Bus<K>, script: seq<Event>)
    requires script != []
    ensures M.EmitAll(b, script[..1]) == M.Step(b, M.Emit(script[0]))
  {
    EmitAllNext(b, script, 0);
    assert script[..0] == [];
  }

  lemma EmitAllNext<K>(b: M.Bus<K>, script: seq<Event>, i: nat)
    requires i < |script|
    ensures M.EmitAll(b, script[..i + 1]) == M.Step(M.EmitAll(b, script[..i]), M.Emit(script[i]))
  {
    assert script[..i + 1][..i] == script[..i];
  }
}
