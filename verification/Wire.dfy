// internal/wire/envelope.go: what a reply copies from its request.
module Wire {
  import opened Options

  const STATUS_OK: string := "ok"
  const STATUS_ERROR: string := "error"

  // The payload is the JSON text; the empty text stands for no payload.
  datatype Envelope = Envelope(
    kind: string,
    correlationID: string,
    replyTo: string,
    status: string,
    error: string,
    payload: string)

  // A payload as json.Marshal leaves it: text, or a marshalling error.
  type Encoded = Option<string>

  function NewEnvelope(kind: string, payload: Encoded): Option<Envelope> {
    match payload
    case Some(text) => Some(Envelope(kind, "", "", "", "", text))
    case None => None
  }

  function ReplyOK(req: Envelope, payload: Encoded): Option<Envelope> {
    match NewEnvelope(req.kind, payload)
    case Some(env) => Some(env.(correlationID := req.correlationID, status := STATUS_OK))
    case None => None
  }

  function ReplyErr(req: Envelope, message: string): Envelope {
    Envelope(req.kind, req.correlationID, "", STATUS_ERROR, message, "")
  }

  // env answers req: it was made by ReplyOK or ReplyErr from that request.
  ghost predicate Answers(req: Envelope, env: Envelope) {
    || (exists payload: Encoded :: ReplyOK(req, payload) == Some(env))
    || (exists message: string :: ReplyErr(req, message) == env)
  }

  // What Call returns for the envelope it received.
  datatype CallResult =
    | Payload(text: string)
    | RemoteError(message: string)
    | SendFailed
    | TimedOut

  function Interpret(env: Envelope): CallResult {
    if env.status == STATUS_ERROR then
      RemoteError(if env.error != "" then env.error else "request failed")
    else Payload(env.payload)
  }

  // A reply carries its request's id and type and asks for no reply itself. The
  // caller can tell the two kinds apart and gets the payload or the message that
  // the service put in; an empty message reads as "request failed".
  lemma ReplyCarries(req: Envelope, env: Envelope)
    requires Answers(req, env)
    ensures env.correlationID == req.correlationID && env.kind == req.kind && env.replyTo == ""
    ensures forall text: string :: Interpret(env) == Payload(text) <==> ReplyOK(req, Some(text)) == Some(env)
    ensures Interpret(env).RemoteError? <==> exists message: string :: ReplyErr(req, message) == env
    ensures forall message: string :: ReplyErr(req, message) == env ==>
              Interpret(env) == RemoteError(if message == "" then "request failed" else message)
  {
    assert STATUS_OK[0] != STATUS_ERROR[0];
    if payload: Encoded :| ReplyOK(req, payload) == Some(env) {
      assert payload.Some? && ReplyOK(req, Some(payload.value)) == Some(env);
    }
  }
}
