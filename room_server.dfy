/**
 * The real-time room protocol of backend/server.js: the handshake gate that admits a socket, the room
 * registry (project id -> connected sockets) and the `project-message` router with its `@ai` directive.
 * Every `emit` is recorded in an outbox together with the set of sockets it reaches.
 */
module RoomServer {
  import opened Wrappers
  import opened JsValues
  import opened Text
  import opened ExternalCalls

  type SocketId = nat

  /** What a connecting client presents: `auth.token`, the Authorization header and `query.projectId`. */
  datatype Handshake = Handshake(authToken: Option<string>, authorization: Option<string>, projectId: Option<string>)

  /** The stored project as the gate sees it: only its `_id`, as a string. */
  datatype ProjectDoc = ProjectDoc(id: string)

  /** `Project.findById`: the project, `null`, or the error the store throws. */
  datatype Lookup = Found(project: ProjectDoc) | NotFound | LookupThrew(msg: string)

  /** The error the gate passes to `next`: its two own messages, or whatever a callee threw. */
  datatype GateError = InvalidProjectId | AuthenticationError | Thrown(msg: string)

  /** What the gate attaches to an admitted socket (`socket.project`, `socket.user`). */
  datatype Admission = Admission(project: Option<ProjectDoc>, user: Json)

  type ProjectFinder = string -> Lookup
  /** `generateContent`: the parsed reply, or the message of the error it throws. */
  type Generator = string -> Result<Json, string>

  const Event := "project-message"
  const ValidPromptNotice := "Please provide a valid prompt for AI."
  const BusyNotice := "Server Busy, please try again later."

  /** `handshake.auth?.token || handshake.headers.authorization?.split(' ')[1]`. */
  function HandshakeToken(h: Handshake): (r: Option<string>)
    ensures h.authToken.Some? && h.authToken.value != "" ==> r == h.authToken
    ensures (h.authToken.None? || h.authToken.value == "") ==>
              r == if h.authorization.Some? then SecondWord(h.authorization.value) else None
  {
    if h.authToken.Some? && h.authToken.value != "" then h.authToken
    else if h.authorization.Some? then SecondWord(h.authorization.value)
    else None
  }

  /** A bearer header is used when no handshake token is given. */
  lemma BearerHeaderSuppliesToken(h: Handshake, credential: string)
    requires h.authToken.None? || h.authToken.value == ""
    requires h.authorization == Some("Bearer " + credential) && ' ' !in credential
    ensures HandshakeToken(h) == Some(credential)
  {
    SecondWordOfSchemeAndCredential("Bearer", credential);
    assert "Bearer" + " " + credential == "Bearer " + credential;
  }

  /**
   * The `io.use` middleware: the id format first, then the project lookup, then token presence, then
   * token verification. A missing project is not a rejection: the admission carries no project.
   */
  function Gate(h: Handshake, isValid: IdCheck, find: ProjectFinder, verify: Verifier): (r: Result<Admission, GateError>)
    ensures (h.projectId.None? || !isValid(h.projectId.value)) ==> r == Failure(InvalidProjectId)
    ensures r == Failure(AuthenticationError) ==>
              h.projectId.Some? && isValid(h.projectId.value) && !find(h.projectId.value).LookupThrew?
    ensures r.Success? <==>
              && h.projectId.Some? && isValid(h.projectId.value)
              && !find(h.projectId.value).LookupThrew?
              && HandshakeToken(h).Some? && HandshakeToken(h).value != ""
              && verify(HandshakeToken(h).value).Success?
              && Truthy(Some(verify(HandshakeToken(h).value).value))
    ensures r.Success? ==>
              && r.value.user == verify(HandshakeToken(h).value).value
              && r.value.project == (if find(h.projectId.value).Found? then Some(find(h.projectId.value).project) else None)
  {
    var token := HandshakeToken(h);
    if h.projectId.None? || !isValid(h.projectId.value) then Failure(InvalidProjectId)
    else
      var lookup := find(h.projectId.value);
      if lookup.LookupThrew? then Failure(Thrown(lookup.msg))
      else if token.None? || token.value == "" then Failure(AuthenticationError)
      else match verify(token.value)
        case Failure(msg) => Failure(Thrown(msg))
        case Success(decoded) =>
          if !Truthy(Some(decoded)) then Failure(AuthenticationError)
          else Success(Admission(if lookup.Found? then Some(lookup.project) else None, decoded))
  }

  /** An id of the wrong format is rejected before the store or the token is consulted. */
  lemma InvalidIdRejectedBeforeToken(h1: Handshake, h2: Handshake, isValid: IdCheck,
                                     find1: ProjectFinder, find2: ProjectFinder, verify1: Verifier, verify2: Verifier)
    requires h1.projectId == h2.projectId
    requires h1.projectId.None? || !isValid(h1.projectId.value)
    ensures Gate(h1, isValid, find1, verify1) == Gate(h2, isValid, find2, verify2) == Failure(InvalidProjectId)
  {
  }

  /** What a throwing lookup or a throwing `jwt.verify` raises reaches the client as it is, not as one of the gate's own errors. */
  lemma GatePassesCalleeErrors(h: Handshake, isValid: IdCheck, find: ProjectFinder, verify: Verifier)
    requires h.projectId.Some? && isValid(h.projectId.value)
    ensures find(h.projectId.value).LookupThrew? ==>
              Gate(h, isValid, find, verify) == Failure(Thrown(find(h.projectId.value).msg))
    ensures !find(h.projectId.value).LookupThrew? && HandshakeToken(h).Some? && HandshakeToken(h).value != "" &&
            verify(HandshakeToken(h).value).Failure? ==>
              Gate(h, isValid, find, verify) == Failure(Thrown(verify(HandshakeToken(h).value).error))
  {
  }

  /** With a well-formed id and a lookup that did not throw, a missing token is rejected as an authentication error. */
  lemma MissingTokenRejected(h: Handshake, isValid: IdCheck, find: ProjectFinder, verify: Verifier)
    requires h.projectId.Some? && isValid(h.projectId.value) && !find(h.projectId.value).LookupThrew?
    requires HandshakeToken(h).None? || HandshakeToken(h).value == ""
    ensures Gate(h, isValid, find, verify) == Failure(AuthenticationError)
  {
  }

  /** A truthy token whose verification yields a falsy payload is an authentication error, not a thrown one. */
  lemma FalsyPayloadRejected(h: Handshake, isValid: IdCheck, find: ProjectFinder, verify: Verifier)
    requires h.projectId.Some? && isValid(h.projectId.value) && !find(h.projectId.value).LookupThrew?
    requires HandshakeToken(h).Some? && HandshakeToken(h).value != ""
    requires verify(HandshakeToken(h).value).Success? && !Truthy(Some(verify(HandshakeToken(h).value).value))
    ensures Gate(h, isValid, find, verify) == Failure(AuthenticationError)
  {
  }

  /** The payload of the AI answer: the generated value from the synthetic sender `{_id:'ai', email:'AI'}`. */
  function AiPayload(response: Json): (r: Json)
    ensures r.JObject? && r.fields.Keys == {"message", "sender"} && r.fields["message"] == response
    ensures Member(Member(Some(r), "sender"), "_id") == Some(JString("ai"))
    ensures Member(Member(Some(r), "sender"), "email") == Some(JString("AI"))
  {
    JObject(map["message" := response, "sender" := JObject(map["_id" := JString("ai"), "email" := JString("AI")])])
  }

  /** One `emit`: the event, its payload and the sockets it reaches. */
  datatype Emission = Emission(recipients: set<SocketId>, event: string, payload: Json)

  /** How the handling of one `project-message` ended. */
  datatype RouteOutcome =
    | Relayed           // not a directive
    | NotAString        // `message.startsWith` threw a TypeError after the relay
    | EmptyPrompt       // exactly "@ai": the notice went to the other peers
    | AiAnswered        // the answer went to the whole room
    | AiFailed          // the error was logged; nothing more was sent

  datatype Route = Route(emissions: seq<Emission>, prompt: Option<string>, finalData: Json, outcome: RouteOutcome)

  /** The `message` of the event payload when it is a string. */
  function MessageText(data: Json): (r: Option<string>)
    ensures r.Some? <==> Member(Some(data), "message").Some? && Member(Some(data), "message").value.JString?
    ensures r.Some? ==> data.JObject? && data.fields["message"] == JString(r.value)
  {
    match Member(Some(data), "message")
    case Some(JString(m)) => Some(m)
    case _ => None
  }

  /**
   * The handler of `project-message` on a socket `sender` of a room with the sockets `members`:
   * relay to the others, then, for a message starting with "@ai", the AI flow. `finalData` is the event
   * payload after the handler's in-place writes to `data.message`.
   */
  function RouteMessage(sender: SocketId, members: set<SocketId>, data: Json, generate: Generator): (r: Route)
    ensures |r.emissions| >= 1 && r.emissions[0] == Emission(members - {sender}, Event, data)
  {
    var relay := Emission(members - {sender}, Event, data);
    match MessageText(data)
    case None => Route([relay], None, data, NotAString)
    case Some(m) =>
      if !StartsWith(m, "@ai") then Route([relay], None, data, Relayed)
      else
        var prompt := ReplaceFirst(m, "@ai", "");
        if prompt == "" then
          var notice := JObject(data.fields["message" := JString(ValidPromptNotice)]);
          Route([relay, Emission(members - {sender}, Event, notice)], None, notice, EmptyPrompt)
        else match generate(prompt)
          case Success(response) => Route([relay, Emission(members, Event, AiPayload(response))], Some(prompt), data, AiAnswered)
          case Failure(_) => Route([relay], Some(prompt), JObject(data.fields["message" := JString(BusyNotice)]), AiFailed)
  }

  /** A chat line that is not an "@ai" directive, or a payload whose message is not a string, is only relayed. */
  lemma PlainMessageOnlyRelayed(sender: SocketId, members: set<SocketId>, data: Json, generate: Generator)
    requires !(MessageText(data).Some? && StartsWith(MessageText(data).value, "@ai"))
    ensures var r := RouteMessage(sender, members, data, generate);
            && r.emissions == [Emission(members - {sender}, Event, data)]
            && r.finalData == data && r.prompt.None?
            && r.outcome == if MessageText(data).Some? then Relayed else NotAString
  {
  }

  /** The prompt is the message with its leading "@ai" removed, not trimmed. */
  lemma {:induction false} PromptDropsDirective(m: string)
    requires StartsWith(m, "@ai")
    ensures ReplaceFirst(m, "@ai", "") == m[3..]
  {
  }

  /** Only the exact message "@ai" yields an empty prompt. */
  lemma EmptyPromptOnlyForBareDirective(m: string)
    requires StartsWith(m, "@ai")
    ensures ReplaceFirst(m, "@ai", "") == "" <==> m == "@ai"
  {
    PromptDropsDirective(m);
    assert m == m[..3] + m[3..];
  }

  /** The AI is called only for a message that starts with "@ai" and holds more, and then with the rest of the message. */
  lemma AiCalledOnlyForDirective(sender: SocketId, members: set<SocketId>, data: Json, generate: Generator)
    ensures RouteMessage(sender, members, data, generate).prompt.Some? <==>
              MessageText(data).Some? && StartsWith(MessageText(data).value, "@ai") && MessageText(data).value != "@ai"
    ensures RouteMessage(sender, members, data, generate).prompt.Some? ==>
              RouteMessage(sender, members, data, generate).prompt.value == MessageText(data).value[3..]
  {
    if m :| MessageText(data) == Some(m) && StartsWith(m, "@ai") {
      EmptyPromptOnlyForBareDirective(m);
      PromptDropsDirective(m);
    }
  }

  /** Every delivery of the handler leaves the sender out, except the AI answer, which reaches the whole room. */
  lemma SenderExcludedExceptFromAiAnswer(sender: SocketId, members: set<SocketId>, data: Json, generate: Generator)
    ensures var r := RouteMessage(sender, members, data, generate);
            forall i :: 0 <= i < |r.emissions| ==>
              && r.emissions[i].event == Event
              && r.emissions[i].recipients == (if i == 1 && r.outcome == AiAnswered then members else members - {sender})
  {
  }

  /**
   * A message "@ai" with nothing after it: the relay, then the notice that replaces `data.message`, both to
   * the room without the sender; the notice is the final payload and the AI is not called.
   */
  lemma EmptyPromptNotice(sender: SocketId, members: set<SocketId>, data: Json, generate: Generator)
    ensures RouteMessage(sender, members, data, generate).outcome == EmptyPrompt <==> MessageText(data) == Some("@ai")
    ensures MessageText(data) == Some("@ai") ==>
              var notice := JObject(data.fields["message" := JString(ValidPromptNotice)]);
              var r := RouteMessage(sender, members, data, generate);
              && r.emissions == [Emission(members - {sender}, Event, data), Emission(members - {sender}, Event, notice)]
              && r.finalData == notice && r.prompt.None?
  {
    if m :| MessageText(data) == Some(m) && StartsWith(m, "@ai") {
      EmptyPromptOnlyForBareDirective(m);
    }
  }

  /**
   * A directive with a prompt whose generation succeeds: the relay to the others, then the answer from the
   * AI sender to every member of the room; the generator is asked with the text after "@ai".
   */
  lemma AiAnswerReachesRoom(sender: SocketId, members: set<SocketId>, data: Json, generate: Generator)
    ensures var r := RouteMessage(sender, members, data, generate);
            r.outcome == AiAnswered <==>
              && MessageText(data).Some? && StartsWith(MessageText(data).value, "@ai") && MessageText(data).value != "@ai"
              && generate(MessageText(data).value[3..]).Success?
    ensures var r := RouteMessage(sender, members, data, generate);
            r.outcome == AiAnswered ==>
              && r.emissions == [Emission(members - {sender}, Event, data),
                                 Emission(members, Event, AiPayload(generate(MessageText(data).value[3..]).value))]
              && r.prompt == Some(MessageText(data).value[3..]) && r.finalData == data
  {
    if m :| MessageText(data) == Some(m) && StartsWith(m, "@ai") {
      EmptyPromptOnlyForBareDirective(m);
      PromptDropsDirective(m);
    }
  }

  /**
   * The AI path fails exactly when the text is "@ai" followed by a non-empty prompt and the
   * model call on that prompt fails; then only the relay is sent, and the busy text is
   * written into the payload's message without being emitted.
   */
  lemma FailureSendsOnlyTheRelay(sender: SocketId, members: set<SocketId>, data: Json, generate: Generator)
    ensures var r := RouteMessage(sender, members, data, generate);
            r.outcome == AiFailed <==>
              && MessageText(data).Some? && StartsWith(MessageText(data).value, "@ai") && MessageText(data).value != "@ai"
              && generate(MessageText(data).value[3..]).Failure?
    ensures var r := RouteMessage(sender, members, data, generate);
            && MessageText(data).Some? && StartsWith(MessageText(data).value, "@ai") && MessageText(data).value != "@ai"
            && generate(MessageText(data).value[3..]).Failure?
            ==>
              && r.emissions == [Emission(members - {sender}, Event, data)]
              && r.prompt == Some(MessageText(data).value[3..])
              && r.finalData == JObject(data.fields["message" := JString(BusyNotice)])
              && MessageText(r.finalData) == Some(BusyNotice)
  {
    if m :| MessageText(data) == Some(m) && StartsWith(m, "@ai") {
      EmptyPromptOnlyForBareDirective(m);
      PromptDropsDirective(m);
    }
  }

  /** The payloads a socket receives, in emission order. */
  function Received(emissions: seq<Emission>, s: SocketId): (r: seq<Json>)
    ensures |r| <= |emissions|
  {
    if emissions == [] then []
    else (if s in emissions[0].recipients then [emissions[0].payload] else []) + Received(emissions[1..], s)
  }

  /** Deliveries compose: what a socket receives from two batches is the first batch's, then the second's. */
  lemma {:induction false} ReceivedDistributes(e1: seq<Emission>, e2: seq<Emission>, s: SocketId)
    ensures Received(e1 + e2, s) == Received(e1, s) + Received(e2, s)
  {
    if e1 != [] {
      assert (e1 + e2)[1..] == e1[1..] + e2;
      ReceivedDistributes(e1[1..], e2, s);
    } else {
      assert e1 + e2 == e2;
    }
  }

  /** Two sockets A and B in one room; A says "hello": B receives it once, A receives nothing. */
  lemma HelloScenario(a: SocketId, b: SocketId, generate: Generator)
    requires a != b
    ensures var data := JObject(map["message" := JString("hello")]);
            var r := RouteMessage(a, {a, b}, data, generate);
            Received(r.emissions, b) == [data] && Received(r.emissions, a) == [] && r.prompt.None?
  {
    var data := JObject(map["message" := JString("hello")]);
    var hello := "hello";
    assert !StartsWith(hello, "@ai") by { assert hello[..3][0] == 'h'; }
    assert MessageText(data) == Some(hello);
    assert {a, b} - {a} == {b};
  }

  /** A directive whose generation succeeds reaches both peers of the room, the sender included. */
  lemma AiAnswerScenario(a: SocketId, b: SocketId, request: string, generate: Generator)
    requires a != b && StartsWith(request, "@ai") && request != "@ai"
    requires generate(request[3..]).Success?
    ensures var data := JObject(map["message" := JString(request)]);
            var answer := AiPayload(generate(request[3..]).value);
            var r := RouteMessage(a, {a, b}, data, generate);
            Received(r.emissions, a) == [answer] && Received(r.emissions, b) == [data, answer]
  {
    EmptyPromptOnlyForBareDirective(request);
    PromptDropsDirective(request);
  }

  /** What an admitted socket remembers: `socket.roomId` and `socket.user`. */
  datatype Session = Session(roomId: string, user: Json)

  /** How a connection attempt ended. */
  datatype ConnectOutcome =
    | Rejected(error: GateError)
    | HandlerThrew      // admitted without a project: `socket.project._id` threw before the join
    | Joined(roomId: string)

  /** Rooms are exactly the non-empty groupings of the sessions by room id. */
  ghost predicate RoomsMatchSessions(rooms: map<string, set<SocketId>>, sessions: map<SocketId, Session>)
  {
    && (forall r :: r in rooms ==> rooms[r] != {})
    && (forall s :: s in sessions ==> sessions[s].roomId in rooms && s in rooms[sessions[s].roomId])
    && (forall r, s :: r in rooms && s in rooms[r] ==> s in sessions && sessions[s].roomId == r)
  }

  /** The socket.io server: its rooms, the sockets whose connection handler completed, and everything sent. */
  class SocketServer {
    var rooms: map<string, set<SocketId>>
    var sessions: map<SocketId, Session>
    var outbox: seq<Emission>
    var aiPrompts: seq<string>
    var errorLog: seq<string>

    ghost predicate Valid()
      reads this
    {
      RoomsMatchSessions(rooms, sessions)
    }

    constructor ()
      ensures Valid() && rooms == map[] && sessions == map[] && outbox == [] && aiPrompts == [] && errorLog == []
    {
      rooms, sessions, outbox, aiPrompts, errorLog := map[], map[], [], [], [];
    }

    /** A new socket passes the gate and, once admitted, the `connection` handler joins its project's room. */
    method Connect(id: SocketId, h: Handshake, isValid: IdCheck, find: ProjectFinder, verify: Verifier)
      returns (outcome: ConnectOutcome)
      requires Valid() && id !in sessions
      modifies this
      ensures Valid()
      ensures outbox == old(outbox) && aiPrompts == old(aiPrompts) && errorLog == old(errorLog)
      ensures outcome.Rejected? <==> Gate(h, isValid, find, verify).Failure?
      ensures outcome.Rejected? ==> outcome.error == Gate(h, isValid, find, verify).error
      ensures outcome.HandlerThrew? <==>
                Gate(h, isValid, find, verify).Success? && Gate(h, isValid, find, verify).value.project.None?
      ensures Gate(h, isValid, find, verify).Success? && Gate(h, isValid, find, verify).value.project.Some? ==>
                outcome == Joined(Gate(h, isValid, find, verify).value.project.value.id)
      ensures !outcome.Joined? ==> rooms == old(rooms) && sessions == old(sessions)
      ensures outcome.Joined? ==>
                var adm := Gate(h, isValid, find, verify).value;
                && adm.project.Some? && outcome.roomId == adm.project.value.id
                && sessions == old(sessions)[id := Session(outcome.roomId, adm.user)]
                && rooms == old(rooms)[outcome.roomId := (if outcome.roomId in old(rooms) then old(rooms)[outcome.roomId] else {}) + {id}]
    {
      var gate := Gate(h, isValid, find, verify);
      if gate.Failure? {
        return Rejected(gate.error);
      }
      if gate.value.project.None? {
        return HandlerThrew;
      }
      var roomId := gate.value.project.value.id;
      var members := if roomId in rooms then rooms[roomId] else {};
      rooms := rooms[roomId := members + {id}];
      sessions := sessions[id := Session(roomId, gate.value.user)];
      return Joined(roomId);
    }

    /** `disconnect`: the socket leaves its room; an emptied room disappears; other rooms are untouched. */
    method Disconnect(id: SocketId)
      requires Valid()
      modifies this
      ensures Valid()
      ensures outbox == old(outbox) && aiPrompts == old(aiPrompts) && errorLog == old(errorLog)
      ensures id !in sessions && sessions == old(sessions) - {id}
      ensures forall r :: r in old(rooms) && (id !in old(sessions) || r != old(sessions)[id].roomId) ==>
                r in rooms && rooms[r] == old(rooms)[r]
      ensures forall r :: r in rooms ==> r in old(rooms) && rooms[r] == old(rooms)[r] - {id}
    {
      if id !in sessions {
        return;
      }
      var roomId := sessions[id].roomId;
      var rest := rooms[roomId] - {id};
      if rest == {} {
        rooms := rooms - {roomId};
      } else {
        rooms := rooms[roomId := rest];
      }
      sessions := sessions - {id};
    }

    /**
     * A `project-message` event with payload `data` on socket `id` (ignored by a socket whose connection
     * handler never registered its listener). The AI call is one atomic step.
     */
    method OnProjectMessage(id: SocketId, data: Json, generate: Generator) returns (outcome: Option<RouteOutcome>, finalData: Json)
      requires Valid()
      modifies this
      ensures Valid() && rooms == old(rooms) && sessions == old(sessions)
      ensures id !in sessions ==> outcome.None? && finalData == data && outbox == old(outbox)
                                  && aiPrompts == old(aiPrompts) && errorLog == old(errorLog)
      ensures id in sessions ==>
                var r := RouteMessage(id, rooms[sessions[id].roomId], data, generate);
                && outcome == Some(r.outcome) && finalData == r.finalData
                && outbox == old(outbox) + r.emissions
                && aiPrompts == old(aiPrompts) + (if r.prompt.Some? then [r.prompt.value] else [])
                && errorLog == old(errorLog) + (if r.outcome == AiFailed then [generate(r.prompt.value).error] else [])
    {
      if id !in sessions {
        return None, data;
      }
      var roomId := sessions[id].roomId;
      var members := rooms[roomId];
      ghost var route := RouteMessage(id, members, data, generate);
      var relay := Emission(members - {id}, Event, data);
      finalData := data;
      outbox := outbox + [relay];
      var message := MessageText(data);
      if message.None? {
        assert route == Route([relay], None, data, NotAString);
        return Some(NotAString), finalData;
      }
      if !StartsWith(message.value, "@ai") {
        assert route == Route([relay], None, data, Relayed);
        return Some(Relayed), finalData;
      }
      var prompt := ReplaceFirst(message.value, "@ai", "");
      if prompt == "" {
        finalData := JObject(data.fields["message" := JString(ValidPromptNotice)]);
        var notice := Emission(members - {id}, Event, finalData);
        assert route == Route([relay, notice], None, finalData, EmptyPrompt);
        outbox := outbox + [notice];
        return Some(EmptyPrompt), finalData;
      }
      aiPrompts := aiPrompts + [prompt];
      var response := generate(prompt);
      if response.Success? {
        var answer := Emission(members, Event, AiPayload(response.value));
        assert route == Route([relay, answer], Some(prompt), data, AiAnswered);
        outbox := outbox + [answer];
        return Some(AiAnswered), finalData;
      }
      errorLog := errorLog + [response.error];
      finalData := JObject(data.fields["message" := JString(BusyNotice)]);
      assert route == Route([relay], Some(prompt), finalData, AiFailed);
      return Some(AiFailed), finalData;
    }
  }
}
