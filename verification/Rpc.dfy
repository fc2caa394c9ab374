/** JSON-RPC lines between a client and the leader. A line is text that is not
    JSON, or a JSON value; a JSON text and its value are not told apart. */
module Rpc {
  import opened Prelude

  datatype Json =
    | Null
    | Bool(value: bool)
    | Number(literal: string)
    | Str(text: string)
    | Array(items: seq<Json>)
    | Object(fields: map<string, Json>)

  datatype Line = Garbage(bytes: string) | Parsed(json: Json)

  function Get(j: Json, key: string): Option<Json> {
    if j.Object? && key in j.fields then Some(j.fields[key]) else None
  }

  /** A field of the line's top-level object. */
  function Field(l: Line, key: string): Option<Json> {
    if l.Parsed? then Get(l.json, key) else None
  }

  function AsText(j: Option<Json>): Option<string> {
    if j.Some? && j.value.Str? then Some(j.value.text) else None
  }

  predicate Calls(l: Line, name: string) {
    AsText(Field(l, "method")) == Some(name)
  }

  /** A field of an optional object. */
  function Within(j: Option<Json>, key: string): Option<Json> {
    if j.Some? then Get(j.value, key) else None
  }

  /** The session an object names, under either spelling; the second spelling is
      looked at only when the first is missing. */
  function SessionId(j: Option<Json>): Option<string> {
    AsText(if Within(j, "sessionId").Some? then Within(j, "sessionId") else Within(j, "session_id"))
  }

  // ----- the lines the cache looks at

  predicate IsInitialize(l: Line) {
    Calls(l, "initialize")
  }

  predicate IsNew(l: Line) {
    Calls(l, "session/new")
  }

  function LoadTarget(l: Line): Option<string> {
    if Calls(l, "session/load") then SessionId(Field(l, "params")) else None
  }

  function CloseTarget(l: Line): Option<string> {
    if Calls(l, "x.ai/session/close") || Calls(l, "_x.ai/session/close")
    then SessionId(Field(l, "params"))
    else None
  }

  /** The session id an answer assigns. */
  function AssignedId(l: Line): Option<string> {
    SessionId(Field(l, "result"))
  }

  datatype Outcome = Succeeded | Rejected | Failed

  /** The outcome `l` reports for the request with this id, when it is its answer. */
  function ReplyTo(l: Line, id: Json): Option<Outcome> {
    if Field(l, "method").Some? || Field(l, "id") != Some(id) then None
    else if Field(l, "error").Some? then Some(Rejected)
    else Some(Succeeded)
  }

  // ----- the same, on the members of the objects themselves

  /** Which lines answer a request, and how: objects with its id and no method; the
      `error` key decides, whatever else is there. */
  lemma ReplyIs(fields: map<string, Json>, id: Json)
    ensures var reply := ReplyTo(Parsed(Object(fields)), id);
            && ("method" in fields ==> reply.None?)
            && ("id" !in fields || fields["id"] != id ==> reply.None?)
            && ("method" !in fields && "id" in fields && fields["id"] == id ==>
                  reply == Some(if "error" in fields then Rejected else Succeeded))
    ensures forall l: Line :: !l.Parsed? || !l.json.Object? ==> ReplyTo(l, id).None?
  {
  }

  /** A session is named by a text under the first spelling, or under the second when
      the first key is missing; anything else names none. */
  lemma SessionIdIs(fields: map<string, Json>, sid: string)
    ensures SessionId(Some(Object(fields))) == Some(sid) <==>
            || ("sessionId" in fields && fields["sessionId"] == Str(sid))
            || ("sessionId" !in fields && "session_id" in fields && fields["session_id"] == Str(sid))
    ensures SessionId(None).None?
  {
  }
}
