/**
The browser side of apps/web/app/lib/mutation-client.ts: a pending idempotency key kept in
sessionStorage across lost requests and lost responses, and the whole system of browser,
network and command database.
*/
module MutationClient {
  import opened Wrappers
  import CommandProtocol

  // ---------- The browser ----------

  predicate KeyHead(c: char) {
    'A' <= c <= 'Z' || 'a' <= c <= 'z' || '0' <= c <= '9'
  }

  predicate KeyTail(c: char) {
    KeyHead(c) || c == '.' || c == '_' || c == ':' || c == '-'
  }

  /** One letter or digit, then 15 to 127 letters, digits, dots, underscores, colons or dashes. */
  predicate KeyPattern(key: string) {
    16 <= |key| <= 128 && KeyHead(key[0]) && forall i | 1 <= i < |key| :: KeyTail(key[i])
  }

  predicate HexDigit(c: char) {
    '0' <= c <= '9' || 'a' <= c <= 'f'
  }

  /** The text form of crypto.randomUUID(): 36 characters, dashes after 8, 13, 18 and 23. */
  predicate IsUuid(key: string) {
    |key| == 36 && forall i | 0 <= i < 36 ::
      if i == 8 || i == 13 || i == 18 || i == 23 then key[i] == '-' else HexDigit(key[i])
  }

  /** A generated key is one the browser takes up again and the server accepts. */
  lemma UuidIsAccepted(key: string)
    requires IsUuid(key)
    ensures KeyPattern(key)
  {
    assert HexDigit(key[0]);
    forall i | 1 <= i < |key| ensures KeyTail(key[i]) {
      assert if i == 8 || i == 13 || i == 18 || i == 23 then key[i] == '-' else HexDigit(key[i]);
    }
  }

  /** Letters and digits, by their codes. */
  predicate Alphanumeric(c: char) {
    0x30 <= c as int < 0x3A || 0x41 <= c as int < 0x5B || 0x61 <= c as int < 0x7B
  }

  /** The keys that browser and server accept. */
  lemma KeyPatternIs(key: string)
    ensures KeyPattern(key) <==>
              && 15 < |key| < 129
              && forall i | 0 <= i < |key| :: Alphanumeric(key[i]) || (i > 0 && key[i] in "._:-")
  {
    assert forall c: char :: c in "._:-" <==> c == '.' || c == '_' || c == ':' || c == '-' by {
      var s := "._:-";
      assert s[0] in s && s[1] in s && s[2] in s && s[3] in s;
    }
    if KeyPattern(key) {
      forall i | 0 <= i < |key| ensures Alphanumeric(key[i]) || (i > 0 && key[i] in "._:-") {
        assert i > 0 ==> KeyTail(key[i]);
      }
    }
    if 15 < |key| < 129 && forall i | 0 <= i < |key| :: Alphanumeric(key[i]) || (i > 0 && key[i] in "._:-") {
      assert Alphanumeric(key[0]);
    }
  }

  /** A response as decode reads it: the status, and the members of a JSON body, all absent when it is no JSON. */
  datatype Response = Response(status: int, code: Option<string>, result: Option<string>, hasCommand: bool)

  datatype Outcome = Got(result: string) | Broke(code: string)

  function Decode(r: Response): Outcome {
    if !(200 <= r.status <= 299) then
      var proxyOutcomeUnknown :=
        r.status == 502 || r.status == 504
        || (r.status >= 500 && (r.code.None? || r.code.value == "REQUEST_FAILED"));
      Broke(if proxyOutcomeUnknown then "NETWORK_OUTCOME_UNKNOWN"
            else if r.code.Some? then r.code.value else "REQUEST_FAILED")
    else if r.result.None? || !r.hasCommand then Broke("INVALID_RESPONSE")
    else Got(r.result.value)
  }

  predicate OutcomeUnknown(outcome: Outcome) {
    outcome == Broke("COMMAND_OUTCOME_UNKNOWN") || outcome == Broke("NETWORK_OUTCOME_UNKNOWN")
  }

  /** An error that the client takes for final, so that it forgets the pending key. */
  predicate Definite(outcome: Outcome) {
    outcome.Broke? && !OutcomeUnknown(outcome)
  }

  /**
  A response is a result exactly if it is a 2xx with both members. It leaves the outcome unknown exactly
  for a gateway error, a server error without a code of its own, and the two codes that say so.
  */
  lemma DecodeExactly(r: Response)
    ensures Decode(r).Got? <==> 200 <= r.status <= 299 && r.result.Some? && r.hasCommand
    ensures Decode(r).Got? ==> r.result == Some(Decode(r).result)
    ensures OutcomeUnknown(Decode(r)) <==>
              && (r.status < 200 || r.status > 299)
              && (r.status in {502, 504} || r.code == Some("COMMAND_OUTCOME_UNKNOWN")
                  || r.code == Some("NETWORK_OUTCOME_UNKNOWN")
                  || (r.status >= 500 && (r.code == None || r.code == Some("REQUEST_FAILED"))))
    ensures Definite(Decode(r)) ==>
              Decode(r).code == (if 200 <= r.status <= 299 then "INVALID_RESPONSE"
                                 else match r.code case Some(code) => code case None => "REQUEST_FAILED")
  {
    assert "COMMAND_OUTCOME_UNKNOWN"[0] == 'C' && "NETWORK_OUTCOME_UNKNOWN"[0] == 'N';
    assert "INVALID_RESPONSE"[0] == 'I' && "REQUEST_FAILED"[0] == 'R';
  }

  /** The hash of method, path and body that names a pending entry, taken to be injective. */
  datatype PendingId = PendingId(method_: string, path: string, body: string)

  function PendingKeyOf(storage: map<PendingId, string>, id: PendingId, newKey: string): string {
    if id in storage && KeyPattern(storage[id]) then storage[id] else newKey
  }

  function Settled(storage: map<PendingId, string>, id: PendingId, outcome: Outcome): map<PendingId, string> {
    if OutcomeUnknown(outcome) then storage else storage - {id}
  }

  class Browser {
    var storage: map<PendingId, string>

    constructor ()
      ensures storage == map[]
    {
      storage := map[];
    }

    method PendingKey(id: PendingId, newKey: string) returns (key: string)
      modifies this
      ensures key == PendingKeyOf(old(storage), id, newKey)
      ensures storage == old(storage)[id := key]
    {
      key := newKey;
      if id in storage {
        if KeyPattern(storage[id]) {
          key := storage[id];
        }
      }
      storage := storage[id := key];
    }

    /**
    mutateJson around one fetch. No session token: the headers throw before the request is
    sent. No response: fetch or the network failed.
    */
    method MutateJson(id: PendingId, newKey: string, chosen: Option<string>, token: bool, response: Option<Response>)
      returns (key: string, outcome: Outcome)
      modifies this
      ensures key == if chosen.Some? then chosen.value else PendingKeyOf(old(storage), id, newKey)
      ensures outcome == if !token then Broke("CSRF_REJECTED")
                         else if response.None? then Broke("NETWORK_OUTCOME_UNKNOWN") else Decode(response.value)
      ensures id in storage <==> !token || OutcomeUnknown(outcome)
      ensures id in storage ==> storage[id] == key
      ensures storage - {id} == old(storage) - {id}
    {
      key := PendingKey(id, newKey);
      if chosen.Some? {
        key := chosen.value;
        storage := storage[id := key];
      }
      if !token {
        return key, Broke("CSRF_REJECTED");
      }
      outcome := Broke("NETWORK_OUTCOME_UNKNOWN");
      if response.Some? {
        outcome := Decode(response.value);
        storage := Settled(storage, id, outcome);
      }
    }

    /** A retry after a lost response sends the same key again. */
    method RetryReusesKey(id: PendingId, first: string, second: string, lost: Option<Response>,
                          response: Option<Response>)
      returns (key: string, again: string)
      requires KeyPattern(first)
      requires lost.None? || OutcomeUnknown(Decode(lost.value))
      modifies this
      ensures again == key
    {
      var outcome;
      key, outcome := MutateJson(id, first, None, true, lost);
      again, outcome := MutateJson(id, second, None, true, response);
    }
  }

  // ---------- Browser, network and command database together ----------

  /** One mutateJson call; its HTTP request, once delivered, is the server attempt of the same number. */
  datatype Call = Call(pending: PendingId, request: CommandProtocol.Request, refused: bool, outcome: Option<Outcome>)

  /** A member of a result as a route looks at it. */
  datatype Flag = Absent | IsTrue | IsOther

  /** What the routes read from the JSON text of a result. */
  datatype Seen = Seen(locked: Flag, authenticated: Flag, verified: Flag)

  /** seen tells what the members of a result are; a text that it does not list has none of them. */
  datatype System = System(
    server: CommandProtocol.State,
    storage: map<PendingId, string>,
    calls: map<nat, Call>,
    used: set<string>,
    seen: map<string, Seen>)

  datatype Event =
    | StartCall(n: nat, pending: PendingId, template: CommandProtocol.Request, newKey: string)
    | Deliver(n: nat)
    | ServerStep(step: CommandProtocol.Step)
    | RefuseEarly(n: nat, response: Response)
    | Receive(n: nat, response: Response)
    | NetworkFailure(n: nat)

  // ---------- The routes ----------

  const LOGIN := "auth.login"
  const VERIFY := "auth.verify"
  const STEP_UP := "step-up.verify"

  const UNAUTHORIZED := "UNAUTHORIZED"
  const TOO_MANY_REQUESTS := "TOO_MANY_REQUESTS"
  const REQUEST_FAILED := "REQUEST_FAILED"
  const INVALID_RESPONSE := "INVALID_RESPONSE"

  datatype Refusal = Refusal(status: int, code: string)

  /**
  Three routes of apps/api/src/modules/auth/writes.ts look at the result of their command once it is
  committed, and answer with an error when the password or the code was wrong.
  */
  function RouteRefuses(command: string, seen: Seen): Option<Refusal> {
    if command == LOGIN && !seen.locked.Absent? then
      Some(if seen.locked.IsTrue? then Refusal(429, TOO_MANY_REQUESTS) else Refusal(401, UNAUTHORIZED))
    else if command == VERIFY && !seen.authenticated.IsTrue? then Some(Refusal(401, UNAUTHORIZED))
    else if command == STEP_UP && !seen.verified.IsTrue? then Some(Refusal(401, UNAUTHORIZED))
    else None
  }

  function SeenIn(seen: map<string, Seen>, result: string): Seen {
    if result in seen then seen[result] else Seen(Absent, Absent, Absent)
  }

  /**
  The codes that an error before the command may have. Only the refusal of a locked account is
  TOO_MANY_REQUESTS, and the routes that log in do not authenticate before.
  */
  predicate MayRefuse(command: string, code: string) {
    && code != INVALID_RESPONSE && code != TOO_MANY_REQUESTS
    && (code == UNAUTHORIZED ==> command != LOGIN && command != VERIFY)
  }

  /** The codes that an error of the effect may have; auth.login throws UNAUTHORIZED for an unknown account. */
  predicate MayThrow(command: string, code: string) {
    && code != INVALID_RESPONSE && code != TOO_MANY_REQUESTS
    && (code == UNAUTHORIZED ==> command != VERIFY)
  }

  /** The error handler answers with 500 where an error brings no error status. */
  function ErrorStatus(code: CommandProtocol.Code): int {
    match code
    case FenceRejected => 503
    case KeyReused => 409
    case InProgress => 409
    case OutcomeUnknown => 503
    case InvalidStatus => 503
    case RunFailed(status, _) => if 400 <= status <= 599 then status else 500
    case DriverFailed => 500
  }

  function ErrorText(code: CommandProtocol.Code): string {
    match code
    case FenceRejected => "WRITER_FENCE_REJECTED"
    case KeyReused => "IDEMPOTENCY_KEY_REUSED"
    case InProgress => "COMMAND_IN_PROGRESS"
    case OutcomeUnknown => "COMMAND_OUTCOME_UNKNOWN"
    case InvalidStatus => "INTERNAL_SERVER_ERROR"
    case RunFailed(_, text) => text
    case DriverFailed => "INTERNAL_SERVER_ERROR"
  }

  /** The HTTP response of a reply: a success passes the route, which may still refuse its result. */
  function Render(seen: map<string, Seen>, command: string, reply: CommandProtocol.Reply): Response {
    match reply
    case Failed(code) => Response(ErrorStatus(code), Some(ErrorText(code)), None, false)
    case Succeeded(answer) =>
      match RouteRefuses(command, SeenIn(seen, answer.result))
      case Some(refusal) => Response(refusal.status, Some(refusal.code), None, false)
      case None => Response(answer.status, None, Some(answer.result), true)
  }

  /**
  What the browser makes of a failed command: its own code, unless it threw with a gateway status or a
  server error without a code.
  */
  lemma FailureAsSeen(seen: map<string, Seen>, command: string, code: CommandProtocol.Code)
    ensures var outcome := Decode(Render(seen, command, CommandProtocol.Failed(code)));
            match code
            case FenceRejected => outcome == Broke("WRITER_FENCE_REJECTED")
            case KeyReused => outcome == Broke("IDEMPOTENCY_KEY_REUSED")
            case InProgress => outcome == Broke("COMMAND_IN_PROGRESS")
            case OutcomeUnknown => outcome == Broke("COMMAND_OUTCOME_UNKNOWN")
            case InvalidStatus => outcome == Broke("INTERNAL_SERVER_ERROR")
            case DriverFailed => outcome == Broke("INTERNAL_SERVER_ERROR")
            case RunFailed(status, text) =>
              outcome == Broke(if status == 502 || status == 504
                                  || (text == "REQUEST_FAILED" && (status < 400 || status >= 500))
                               then "NETWORK_OUTCOME_UNKNOWN" else text)
  {
    assert "WRITER_FENCE_REJECTED"[0] != 'R' && "INTERNAL_SERVER_ERROR"[0] != 'R';
    assert "COMMAND_OUTCOME_UNKNOWN"[0] != 'R';
  }

  /**
  What the browser makes of a success with a 2xx status: its result, unless the route refuses it. Signing
  in is refused for a result that says locked, and the two verifications for one that does not say so.
  */
  lemma SuccessAsSeen(seen: map<string, Seen>, command: string, answer: CommandProtocol.Answer)
    requires 200 <= answer.status <= 299
    ensures var said := SeenIn(seen, answer.result);
            var response := Render(seen, command, CommandProtocol.Succeeded(answer));
            if || (command == "auth.login" && said.locked != Absent)
               || (command == "auth.verify" && said.authenticated != IsTrue)
               || (command == "step-up.verify" && said.verified != IsTrue)
            then var locked := command == "auth.login" && said.locked == IsTrue;
                 && response.status == (if locked then 429 else 401)
                 && Decode(response) == Broke(if locked then "TOO_MANY_REQUESTS" else "UNAUTHORIZED")
            else response.status == answer.status && Decode(response) == Got(answer.result)
  {
    assert "auth.login"[5] != "auth.verify"[5] && "auth.login"[0] != "step-up.verify"[0];
    assert "auth.verify"[0] != "step-up.verify"[0];
  }

  /** The response to the attempt of call n. */
  function ResponseTo(s: System, n: nat): Response
    requires n in s.server.attempts && s.server.attempts[n].reply.Some?
  {
    Render(s.seen, s.server.attempts[n].request.key.command, s.server.attempts[n].reply.value)
  }

  /** What may reach the browser: the response, its status with an unreadable body, or a gateway error. */
  predicate Received(s: System, n: nat, r: Response) {
    || (r.status >= 500 && r.result.None? && (r.code.None? || r.status == 502 || r.status == 504))
    || (n in s.server.attempts && s.server.attempts[n].reply.Some?
        && (r == ResponseTo(s, n) || r == Response(ResponseTo(s, n).status, None, None, false)))
  }

  predicate Waiting(s: System, n: nat) {
    n in s.calls && s.calls[n].outcome.None?
  }

  function CommandOf(s: System, n: nat): string
    requires n in s.calls
  {
    s.calls[n].request.key.command
  }

  /** Attempts begin by delivery only, and an effect throws only what its command may throw. */
  predicate Permitted(server: CommandProtocol.State, step: CommandProtocol.Step) {
    && !step.Begin?
    && (step.RunEffect? && step.outcome.Threw? ==>
          step.id in server.attempts && MayThrow(server.attempts[step.id].request.key.command, step.outcome.text))
  }

  predicate Enabled(s: System, e: Event) {
    match e
    case StartCall(n, _, _, newKey) => n !in s.calls && newKey !in s.used && KeyPattern(newKey)
    case Deliver(n) => n in s.calls && n !in s.server.attempts && !s.calls[n].refused
    case ServerStep(step) => Permitted(s.server, step) && CommandProtocol.Enabled(s.server, step)
    case RefuseEarly(n, r) =>
      && Waiting(s, n) && n !in s.server.attempts && !(200 <= r.status <= 299)
      && (r.code.Some? ==> MayRefuse(CommandOf(s, n), r.code.value))
    case Receive(n, r) => Waiting(s, n) && Received(s, n, r)
    case NetworkFailure(n) => Waiting(s, n)
  }

  function Finish(s: System, n: nat, outcome: Outcome, refused: bool): System
    requires n in s.calls
  {
    s.(calls := s.calls[n := s.calls[n].(outcome := Some(outcome), refused := refused)],
       storage := Settled(s.storage, s.calls[n].pending, outcome))
  }

  function Apply(s: System, e: Event): System
    requires Enabled(s, e)
  {
    match e
    case StartCall(n, pending, template, newKey) =>
      var key := PendingKeyOf(s.storage, pending, newKey);
      var request := template.(key := template.key.(idempotencyKey := key));
      s.(calls := s.calls[n := Call(pending, request, false, None)],
         storage := s.storage[pending := key],
         used := s.used + {newKey})
    case Deliver(n) =>
      s.(server := CommandProtocol.Apply(s.server, CommandProtocol.Begin(n, s.calls[n].request)))
    case ServerStep(step) => s.(server := CommandProtocol.Apply(s.server, step))
    case RefuseEarly(n, r) => Finish(s, n, Decode(r), true)
    case Receive(n, r) => Finish(s, n, Decode(r), s.calls[n].refused)
    case NetworkFailure(n) => Finish(s, n, Broke("NETWORK_OUTCOME_UNKNOWN"), s.calls[n].refused)
  }

  function KeyOf(s: System, n: nat): string
    requires n in s.calls
  {
    s.calls[n].request.key.idempotencyKey
  }

  ghost predicate CallOk(s: System, n: nat) {
    && n in s.calls && KeyOf(s, n) in s.used
    && (n in s.server.attempts ==> s.server.attempts[n].request == s.calls[n].request && !s.calls[n].refused)
    && (s.calls[n].outcome.Some? && s.calls[n].outcome.value.Got? ==>
          && n in s.server.attempts
          && s.server.attempts[n].reply.Some? && s.server.attempts[n].reply.value.Succeeded?
          && s.server.attempts[n].reply.value.answer.result == s.calls[n].outcome.value.result)
    && (s.calls[n].outcome.Some? && Definite(s.calls[n].outcome.value) ==>
          var code := s.calls[n].outcome.value.code;
          if s.calls[n].refused then code == REQUEST_FAILED || MayRefuse(CommandOf(s, n), code)
          else && n in s.server.attempts && s.server.attempts[n].reply.Some?
               && Fits(s.seen, CommandOf(s, n), s.server.attempts[n].reply.value, code))
  }

  /** The definite codes a browser may see for a reply: its body may be unreadable. */
  predicate Fits(seen: map<string, Seen>, command: string, reply: CommandProtocol.Reply, code: string) {
    match reply
    case Failed(c) => c != CommandProtocol.OutcomeUnknown && (code == ErrorText(c) || code == REQUEST_FAILED)
    case Succeeded(answer) =>
      match RouteRefuses(command, SeenIn(seen, answer.result))
      case Some(refusal) => code == refusal.code || code == REQUEST_FAILED
      case None => code == if 200 <= answer.status <= 299 then INVALID_RESPONSE else REQUEST_FAILED
  }

  /** A key belongs to one pending id, in storage and in every call. */
  ghost predicate KeysOwned(s: System) {
    && (forall p | p in s.storage :: KeyPattern(s.storage[p]) && s.storage[p] in s.used)
    && (forall p, q | p in s.storage && q in s.storage && s.storage[p] == s.storage[q] :: p == q)
    && (forall p, n | p in s.storage && n in s.calls && s.storage[p] == KeyOf(s, n) :: p == s.calls[n].pending)
    && (forall m, n | m in s.calls && n in s.calls && KeyOf(s, m) == KeyOf(s, n) ::
          s.calls[m].pending == s.calls[n].pending)
  }

  ghost predicate Inv(s: System) {
    && CommandProtocol.Inv(s.server)
    && (forall n | n in s.server.attempts :: n in s.calls)
    && (forall n | n in s.calls :: CallOk(s, n))
    && KeysOwned(s)
  }

  ghost predicate Init(s: System) {
    CommandProtocol.Init(s.server) && s.storage == map[] && s.calls == map[] && s.used == {}
  }

  lemma StartKeepsCalls(s: System, e: Event)
    requires Inv(s) && Enabled(s, e) && e.StartCall?
    ensures forall n | n in Apply(s, e).calls :: CallOk(Apply(s, e), n)
  {
    var t := Apply(s, e);
    forall n | n in t.calls ensures CallOk(t, n) {
      if n != e.n { assert CallOk(s, n); }
    }
  }

  lemma StartKeepsKeys(s: System, e: Event)
    requires KeysOwned(s) && Enabled(s, e) && e.StartCall?
    requires forall n | n in s.calls :: KeyOf(s, n) in s.used
    ensures KeysOwned(Apply(s, e))
  {
    var t := Apply(s, e);
    assert forall n | n in s.calls :: KeyOf(t, n) == KeyOf(s, n) != e.newKey;
  }

  lemma StartKeepsInv(s: System, e: Event)
    requires Inv(s) && Enabled(s, e) && e.StartCall?
    ensures Inv(Apply(s, e))
  {
    forall n | n in s.calls ensures KeyOf(s, n) in s.used {
      assert CallOk(s, n);
    }
    StartKeepsCalls(s, e);
    StartKeepsKeys(s, e);
  }

  lemma FinishKeepsCalls(s: System, n: nat, outcome: Outcome, refused: bool)
    requires Inv(s) && n in s.calls
    requires CallOk(Finish(s, n, outcome, refused), n)
    ensures forall m | m in s.calls :: CallOk(Finish(s, n, outcome, refused), m)
  {
    var t := Finish(s, n, outcome, refused);
    forall m | m in s.calls ensures CallOk(t, m) {
      if m != n { assert CallOk(s, m); }
    }
  }

  lemma FinishKeepsKeys(s: System, n: nat, outcome: Outcome, refused: bool)
    requires KeysOwned(s) && n in s.calls
    ensures KeysOwned(Finish(s, n, outcome, refused))
  {
    var t := Finish(s, n, outcome, refused);
    assert forall m | m in s.calls :: KeyOf(t, m) == KeyOf(s, m);
  }

  lemma FinishKeepsInv(s: System, n: nat, outcome: Outcome, refused: bool)
    requires Inv(s) && n in s.calls
    requires CallOk(Finish(s, n, outcome, refused), n)
    ensures Inv(Finish(s, n, outcome, refused))
  {
    FinishKeepsCalls(s, n, outcome, refused);
    FinishKeepsKeys(s, n, outcome, refused);
    assert Finish(s, n, outcome, refused).server == s.server;
  }

  lemma ServerKeepsCalls(s: System, t: System, step: CommandProtocol.Step)
    requires Inv(s) && CommandProtocol.Enabled(s.server, step)
    requires step.Begin? ==> step.id in s.calls && step.request == s.calls[step.id].request && !s.calls[step.id].refused
    requires t == s.(server := CommandProtocol.Apply(s.server, step))
    ensures Inv(t)
  {
    CommandProtocol.StepKeepsInv(s.server, step);
    forall n | n in t.calls ensures CallOk(t, n) {
      assert CallOk(s, n);
      if n in s.server.attempts && s.server.attempts[n].reply.Some? {
        CommandProtocol.StepKeepsReply(s.server, step, n);
      }
      StepKeepsRequest(s.server, step, n);
    }
    forall n | n in t.server.attempts ensures n in t.calls {
      StepKeepsRequest(s.server, step, n);
    }
  }

  lemma StepKeepsRequest(s: CommandProtocol.State, step: CommandProtocol.Step, n: nat)
    requires CommandProtocol.Enabled(s, step)
    ensures n in s.attempts ==> n in CommandProtocol.Apply(s, step).attempts
                                && CommandProtocol.Apply(s, step).attempts[n].request == s.attempts[n].request
    ensures n in CommandProtocol.Apply(s, step).attempts && n !in s.attempts ==>
              step.Begin? && step.id == n && CommandProtocol.Apply(s, step).attempts[n].request == step.request
                          && CommandProtocol.Apply(s, step).attempts[n].reply == None
  {
  }

  lemma ReceivedIsOk(s: System, n: nat, r: Response)
    requires CallOk(s, n) && Waiting(s, n) && Received(s, n, r)
    ensures CallOk(Finish(s, n, Decode(r), s.calls[n].refused), n)
  {
  }

  lemma ReceiveKeepsInv(s: System, n: nat, r: Response)
    requires Inv(s) && Waiting(s, n) && Received(s, n, r)
    ensures Inv(Finish(s, n, Decode(r), s.calls[n].refused))
  {
    ReceivedIsOk(s, n, r);
    FinishKeepsInv(s, n, Decode(r), s.calls[n].refused);
  }

  lemma RefusalKeepsInv(s: System, n: nat, r: Response)
    requires Inv(s) && Enabled(s, RefuseEarly(n, r))
    ensures Inv(Finish(s, n, Decode(r), true))
  {
    assert CallOk(s, n);
    FinishKeepsInv(s, n, Decode(r), true);
  }

  lemma FailureKeepsInv(s: System, n: nat)
    requires Inv(s) && Waiting(s, n)
    ensures Inv(Finish(s, n, Broke("NETWORK_OUTCOME_UNKNOWN"), s.calls[n].refused))
  {
    assert CallOk(s, n);
    FinishKeepsInv(s, n, Broke("NETWORK_OUTCOME_UNKNOWN"), s.calls[n].refused);
  }

  /** Every event of browser, network and server keeps the system invariant. */
  lemma EventKeepsInv(s: System, e: Event)
    requires Inv(s) && Enabled(s, e)
    ensures Inv(Apply(s, e))
  {
    match e
    case StartCall(_, _, _, _) => StartKeepsInv(s, e);
    case Deliver(n) => ServerKeepsCalls(s, Apply(s, e), CommandProtocol.Begin(n, s.calls[n].request));
    case ServerStep(step) => ServerKeepsCalls(s, Apply(s, e), step);
    case RefuseEarly(n, r) => RefusalKeepsInv(s, n, r);
    case Receive(n, r) => ReceiveKeepsInv(s, n, r);
    case NetworkFailure(n) => FailureKeepsInv(s, n);
  }

  /** Calls keep what they sent; a call made for a pending entry sends its key, and the entry keeps it. */
  lemma EventKeepsKeys(s: System, e: Event, p: PendingId)
    requires KeysOwned(s) && Enabled(s, e)
    ensures forall n | n in s.calls :: n in Apply(s, e).calls && Apply(s, e).calls[n].request == s.calls[n].request
    ensures forall n | n in s.calls :: Apply(s, e).calls[n].pending == s.calls[n].pending
    ensures p in s.storage && p in Apply(s, e).storage ==> Apply(s, e).storage[p] == s.storage[p]
    ensures forall n | p in s.storage && n in Apply(s, e).calls && n !in s.calls && Apply(s, e).calls[n].pending == p ::
              KeyOf(Apply(s, e), n) == s.storage[p]
  {
  }

  /** Event i leads from one state to the next. */
  ghost predicate Linked(run: seq<System>, events: seq<Event>, i: nat) {
    i < |events| && i + 1 < |run| && Enabled(run[i], events[i]) && run[i + 1] == Apply(run[i], events[i])
  }

  ghost predicate IsRun(run: seq<System>, events: seq<Event>) {
    && |run| == |events| + 1
    && Init(run[0])
    && forall i: nat | i < |events| :: Linked(run, events, i)
  }

  lemma {:induction false} RunKeepsInv(run: seq<System>, events: seq<Event>, n: nat)
    requires IsRun(run, events) && n < |run|
    ensures Inv(run[n])
    decreases n
  {
    if n == 0 {
      CommandProtocol.InitHolds(run[0].server);
    } else {
      RunKeepsInv(run, events, n - 1);
      assert Linked(run, events, n - 1);
      EventKeepsInv(run[n - 1], events[n - 1]);
    }
  }

  /** A pending entry leaves the storage only when a response of one of its calls is a success or a definite error. */
  lemma RemovalNeedsAnAnswer(run: seq<System>, events: seq<Event>, i: nat, p: PendingId)
    requires IsRun(run, events) && i < |events|
    requires p in run[i].storage && p !in run[i + 1].storage
    ensures events[i].Receive? || events[i].RefuseEarly?
    ensures events[i].n in run[i].calls && run[i].calls[events[i].n].pending == p
    ensures !OutcomeUnknown(Decode(events[i].response))
  {
    assert Linked(run, events, i);
  }

  /** One event of a run, as seen by a pending entry that it does not remove. */
  lemma EntryStays(run: seq<System>, events: seq<Event>, k: nat, p: PendingId)
    requires IsRun(run, events) && k < |events| && p in run[k].storage && p in run[k + 1].storage
    ensures run[k + 1].storage[p] == run[k].storage[p]
    ensures forall n | n in run[k].calls ::
              && n in run[k + 1].calls && KeyOf(run[k + 1], n) == KeyOf(run[k], n)
              && run[k + 1].calls[n].pending == run[k].calls[n].pending
    ensures forall n | n in run[k + 1].calls && n !in run[k].calls && run[k + 1].calls[n].pending == p ::
              KeyOf(run[k + 1], n) == run[k].storage[p]
  {
    RunKeepsInv(run, events, k);
    assert Linked(run, events, k);
    EventKeepsKeys(run[k], events[k], p);
  }

  /** As long as an entry stays pending, its key does not change and every call for it sends that key. */
  lemma {:induction false} PendingKeyIsStable(run: seq<System>, events: seq<Event>, i: nat, j: nat, p: PendingId)
    requires IsRun(run, events) && i <= j < |run|
    requires forall k | i <= k <= j :: p in run[k].storage
    ensures run[j].storage[p] == run[i].storage[p]
    ensures forall n | n in run[j].calls && n !in run[i].calls && run[j].calls[n].pending == p ::
              KeyOf(run[j], n) == run[i].storage[p]
    decreases j - i
  {
    if i < j {
      PendingKeyIsStable(run, events, i, j - 1, p);
      EntryStays(run, events, j - 1, p);
    }
  }

  /** A success shown by the browser means exactly one committed effect, with that result. */
  lemma SuccessMeansExactlyOne(run: seq<System>, events: seq<Event>, i: nat, n: nat) returns (e: CommandProtocol.Effect)
    requires IsRun(run, events) && i < |run| && n in run[i].calls
    requires run[i].calls[n].outcome.Some? && run[i].calls[n].outcome.value.Got?
    ensures e in run[i].server.effects && e.key == run[i].calls[n].request.key
    ensures e.result == run[i].calls[n].outcome.value.result && e.digest == run[i].calls[n].request.digest
    ensures CommandProtocol.EffectsUnder(run[i].server.effects, e.key) == 1
  {
    RunKeepsInv(run, events, i);
    var s := run[i];
    assert CallOk(s, n);
    var a := s.server.attempts[n];
    assert CommandProtocol.AttemptOk(s.server, n, a);
    CommandProtocol.LedgerCounts(s.server, a.request.key);
    var k :| 0 <= k < |s.server.effects| && s.server.effects[k].key == a.request.key;
    assert CommandProtocol.Backed(s.server.rows, s.server.effects[k]);
    e := s.server.effects[k];
  }

  /** All effects under the keys of one pending id come from calls for it. */
  lemma EffectComesFromACall(s: System, i: nat)
    requires Inv(s) && i < |s.server.effects|
    ensures s.server.effects[i].attempt in s.calls
    ensures s.calls[s.server.effects[i].attempt].request.key == s.server.effects[i].key
  {
    var e := s.server.effects[i];
    assert CommandProtocol.EffectOwned(s.server.attempts, e);
    assert CallOk(s, e.attempt);
  }

  // ---------- One effect per entry ----------

  /** The committed effects whose key has this idempotency key, whatever its command and actor. */
  ghost function EffectsWith(effects: seq<CommandProtocol.Effect>, key: string): nat {
    if effects == [] then 0
    else EffectsWith(effects[..|effects| - 1], key)
         + if effects[|effects| - 1].key.idempotencyKey == key then 1 else 0
  }

  /** When one command and one actor are behind an idempotency key, both counts agree. */
  lemma {:induction false} CountsAgree(effects: seq<CommandProtocol.Effect>, key: CommandProtocol.CommandKey)
    requires forall e | e in effects && e.key.idempotencyKey == key.idempotencyKey :: e.key == key
    ensures EffectsWith(effects, key.idempotencyKey) == CommandProtocol.EffectsUnder(effects, key)
  {
    if effects != [] {
      CountsAgree(effects[..|effects| - 1], key);
    }
  }

  lemma {:induction false} NoneWith(effects: seq<CommandProtocol.Effect>, key: string)
    requires forall e | e in effects :: e.key.idempotencyKey != key
    ensures EffectsWith(effects, key) == 0
  {
    if effects != [] {
      NoneWith(effects[..|effects| - 1], key);
    }
  }

  /** Each pending entry was written by a call that sends its key. */
  ghost predicate EntriesHaveCalls(s: System) {
    forall p | p in s.storage :: exists n :: n in s.calls && s.calls[n].pending == p && KeyOf(s, n) == s.storage[p]
  }

  lemma EntryWasThere(s: System, e: Event, p: PendingId)
    requires Enabled(s, e) && p in Apply(s, e).storage && !(e.StartCall? && e.pending == p)
    ensures p in s.storage
  {
  }

  lemma EventKeepsEntries(s: System, e: Event)
    requires Inv(s) && Enabled(s, e) && EntriesHaveCalls(s)
    ensures EntriesHaveCalls(Apply(s, e))
  {
    var t := Apply(s, e);
    forall p | p in t.storage
      ensures exists n :: n in t.calls && t.calls[n].pending == p && KeyOf(t, n) == t.storage[p]
    {
      if e.StartCall? && e.pending == p {
        assert t.calls[e.n].pending == p && KeyOf(t, e.n) == t.storage[p];
      } else {
        EntryWasThere(s, e, p);
        var n :| n in s.calls && s.calls[n].pending == p && KeyOf(s, n) == s.storage[p];
        EventKeepsKeys(s, e, p);
        assert t.calls[n].pending == p && KeyOf(t, n) == t.storage[p];
      }
    }
  }

  lemma {:induction false} RunKeepsEntries(run: seq<System>, events: seq<Event>, n: nat)
    requires IsRun(run, events) && n < |run|
    ensures EntriesHaveCalls(run[n])
    decreases n
  {
    if n > 0 {
      RunKeepsEntries(run, events, n - 1);
      RunKeepsInv(run, events, n - 1);
      assert Linked(run, events, n - 1);
      EventKeepsEntries(run[n - 1], events[n - 1]);
    }
  }

  lemma CallStaysNext(run: seq<System>, events: seq<Event>, k: nat, n: nat)
    requires IsRun(run, events) && k < |events| && n in run[k].calls
    ensures n in run[k + 1].calls && run[k + 1].calls[n].pending == run[k].calls[n].pending
    ensures run[k + 1].calls[n].request == run[k].calls[n].request
  {
    RunKeepsInv(run, events, k);
    assert Linked(run, events, k);
    EventKeepsKeys(run[k], events[k], run[k].calls[n].pending);
  }

  lemma {:induction false} CallsStay(run: seq<System>, events: seq<Event>, i: nat, j: nat, n: nat)
    requires IsRun(run, events) && i <= j < |run| && n in run[i].calls
    ensures n in run[j].calls && run[j].calls[n].pending == run[i].calls[n].pending
    ensures run[j].calls[n].request == run[i].calls[n].request
    decreases j
  {
    if i < j {
      CallsStay(run, events, i, j - 1, n);
      CallStaysNext(run, events, j - 1, n);
    }
  }

  /** All calls that ever sent this key were for one command and one actor. */
  ghost predicate OneActor(s: System, key: string) {
    forall m, n | m in s.calls && n in s.calls && KeyOf(s, m) == key && KeyOf(s, n) == key ::
      s.calls[m].request.key == s.calls[n].request.key
  }

  /** The effects under the key of a call are those of calls for the same entry. */
  lemma EffectsOfAKey(s: System, n: nat)
    requires Inv(s) && n in s.calls
    ensures forall e | e in s.server.effects && e.key.idempotencyKey == KeyOf(s, n) ::
              e.attempt in s.calls && s.calls[e.attempt].pending == s.calls[n].pending
    ensures OneActor(s, KeyOf(s, n)) ==> EffectsWith(s.server.effects, KeyOf(s, n)) <= 1
  {
    forall e | e in s.server.effects && e.key.idempotencyKey == KeyOf(s, n)
      ensures e.attempt in s.calls && s.calls[e.attempt].pending == s.calls[n].pending
      ensures OneActor(s, KeyOf(s, n)) ==> e.key == s.calls[n].request.key
    {
      var k :| 0 <= k < |s.server.effects| && s.server.effects[k] == e;
      EffectComesFromACall(s, k);
      assert KeyOf(s, e.attempt) == KeyOf(s, n);
    }
    if OneActor(s, KeyOf(s, n)) {
      CountsAgree(s.server.effects, s.calls[n].request.key);
      CommandProtocol.LedgerCounts(s.server, s.calls[n].request.key);
    }
  }

  /** A pending entry has a call, and keeps it in the history for the rest of the run. */
  lemma CallOfEntry(run: seq<System>, events: seq<Event>, i: nat, j: nat, p: PendingId) returns (n: nat)
    requires IsRun(run, events) && i <= j < |run| && p in run[i].storage
    ensures n in run[j].calls && run[j].calls[n].pending == p && KeyOf(run[j], n) == run[i].storage[p]
  {
    RunKeepsEntries(run, events, i);
    n :| n in run[i].calls && run[i].calls[n].pending == p && KeyOf(run[i], n) == run[i].storage[p];
    CallsStay(run, events, i, j, n);
  }

  /**
  Whatever was lost on the way: from the moment an entry is pending, every effect under its
  key belongs to a call for this entry, and there is at most one of them as long as its calls
  are for one command and one actor.
  */
  lemma OneEffectPerEntry(run: seq<System>, events: seq<Event>, i: nat, j: nat, p: PendingId)
    requires IsRun(run, events) && i <= j < |run| && p in run[i].storage
    ensures forall e | e in run[j].server.effects && e.key.idempotencyKey == run[i].storage[p] ::
              e.attempt in run[j].calls && run[j].calls[e.attempt].pending == p
    ensures OneActor(run[j], run[i].storage[p]) ==> EffectsWith(run[j].server.effects, run[i].storage[p]) <= 1
  {
    var n := CallOfEntry(run, events, i, j, p);
    RunKeepsInv(run, events, j);
    EffectsOfAKey(run[j], n);
  }

  // ---------- What a definite error says ----------

  /** The only call that ever sent its key, ended by a definite error and forgotten. */
  ghost predicate SoleSettled(s: System, n: nat) {
    && n in s.calls && s.calls[n].outcome.Some? && Definite(s.calls[n].outcome.value)
    && (forall m | m in s.calls && KeyOf(s, m) == KeyOf(s, n) :: m == n)
    && (forall p | p in s.storage :: s.storage[p] != KeyOf(s, n))
  }

  /** An event other than a new call starts no call, adds no pending entry and settles a call at most once. */
  lemma EventFrames(s: System, e: Event)
    requires Enabled(s, e) && !e.StartCall?
    ensures Apply(s, e).calls.Keys == s.calls.Keys
    ensures forall n | n in s.calls && s.calls[n].outcome.Some? :: Apply(s, e).calls[n].outcome == s.calls[n].outcome
    ensures forall p | p in Apply(s, e).storage :: p in s.storage && Apply(s, e).storage[p] == s.storage[p]
  {
  }

  lemma SoleSettledAtStart(s: System, e: Event, n: nat)
    requires Enabled(s, e) && SoleSettled(s, n) && KeyOf(s, n) in s.used && e.StartCall?
    ensures SoleSettled(Apply(s, e), n) && Apply(s, e).calls[n] == s.calls[n]
  {
    var t := Apply(s, e);
    assert KeyOf(t, e.n) == PendingKeyOf(s.storage, e.pending, e.newKey) != KeyOf(s, n);
    assert forall m | m in s.calls :: t.calls[m] == s.calls[m];
  }

  lemma SoleSettledStays(s: System, e: Event, n: nat)
    requires Inv(s) && Enabled(s, e) && SoleSettled(s, n)
    ensures SoleSettled(Apply(s, e), n) && KeyOf(Apply(s, e), n) == KeyOf(s, n)
    ensures Apply(s, e).calls[n].outcome == s.calls[n].outcome
  {
    if e.StartCall? {
      assert CallOk(s, n);
      SoleSettledAtStart(s, e, n);
    } else {
      EventFrames(s, e);
      EventKeepsKeys(s, e, s.calls[n].pending);
    }
  }

  lemma SoleSettledNext(run: seq<System>, events: seq<Event>, k: nat, n: nat)
    requires IsRun(run, events) && k < |events| && SoleSettled(run[k], n)
    ensures SoleSettled(run[k + 1], n) && KeyOf(run[k + 1], n) == KeyOf(run[k], n)
    ensures run[k + 1].calls[n].outcome == run[k].calls[n].outcome
  {
    RunKeepsInv(run, events, k);
    assert Linked(run, events, k);
    SoleSettledStays(run[k], events[k], n);
  }

  lemma {:induction false} SoleSettledForever(run: seq<System>, events: seq<Event>, i: nat, j: nat, n: nat)
    requires IsRun(run, events) && i <= j < |run|
    requires SoleSettled(run[i], n)
    ensures SoleSettled(run[j], n) && KeyOf(run[j], n) == KeyOf(run[i], n)
    ensures run[j].calls[n].outcome == run[i].calls[n].outcome
    decreases j - i
  {
    if i < j {
      SoleSettledForever(run, events, i, j - 1, n);
      SoleSettledNext(run, events, j - 1, n);
    }
  }

  // ---------- Statuses and texts over a run ----------

  /** No attempt fails, or has failed, with a text its command may not throw. */
  ghost predicate TextOk(a: CommandProtocol.Attempt) {
    && (a.phase.Failing? && a.phase.code.RunFailed? ==> MayThrow(a.request.key.command, a.phase.code.text))
    && (a.reply.Some? && a.reply.value.Failed? && a.reply.value.code.RunFailed? ==>
          MayThrow(a.request.key.command, a.reply.value.code.text))
  }

  ghost predicate AnswersOk(server: CommandProtocol.State) {
    && CommandProtocol.StatusesOk(server)
    && forall n | n in server.attempts :: TextOk(server.attempts[n])
  }

  lemma StepKeepsText(server: CommandProtocol.State, step: CommandProtocol.Step, n: nat)
    requires AnswersOk(server) && CommandProtocol.Enabled(server, step) && (step.Begin? || Permitted(server, step))
    requires n in CommandProtocol.Apply(server, step).attempts
    ensures TextOk(CommandProtocol.Apply(server, step).attempts[n])
  {
    if n in server.attempts {
      assert TextOk(server.attempts[n]);
    }
  }

  lemma StepKeepsAnswers(server: CommandProtocol.State, step: CommandProtocol.Step)
    requires AnswersOk(server) && CommandProtocol.Enabled(server, step) && (step.Begin? || Permitted(server, step))
    ensures AnswersOk(CommandProtocol.Apply(server, step))
  {
    CommandProtocol.StepKeepsStatuses(server, step);
    forall n | n in CommandProtocol.Apply(server, step).attempts
      ensures TextOk(CommandProtocol.Apply(server, step).attempts[n])
    {
      StepKeepsText(server, step, n);
    }
  }

  lemma {:induction false} RunKeepsAnswers(run: seq<System>, events: seq<Event>, n: nat)
    requires IsRun(run, events) && n < |run|
    ensures AnswersOk(run[n].server)
    decreases n
  {
    if n > 0 {
      RunKeepsAnswers(run, events, n - 1);
      assert Linked(run, events, n - 1);
      EventKeepsAnswers(run[n - 1], events[n - 1]);
    }
  }

  lemma EventKeepsAnswers(s: System, e: Event)
    requires AnswersOk(s.server) && Enabled(s, e)
    ensures AnswersOk(Apply(s, e).server)
  {
    if e.Deliver? {
      StepKeepsAnswers(s.server, CommandProtocol.Begin(e.n, s.calls[e.n].request));
    } else if e.ServerStep? {
      StepKeepsAnswers(s.server, e.step);
    }
  }

  // ---------- The exact condition ----------

  /** Whatever its result is, the command answers a success with a 2xx status. */
  ghost predicate Answers2xx(request: CommandProtocol.Request) {
    forall status | CommandProtocol.Gives(request, status) :: 200 <= status <= 299
  }

  /** The command of call n has succeeded. */
  predicate Answered(s: System, n: nat) {
    n in s.server.attempts && s.server.attempts[n].reply.Some? && s.server.attempts[n].reply.value.Succeeded?
  }

  /** It has, and is committed, but its route refuses the result. */
  predicate RefusedAfterCommit(s: System, n: nat) {
    && Answered(s, n)
    && RouteRefuses(s.server.attempts[n].request.key.command,
                    SeenIn(s.seen, s.server.attempts[n].reply.value.answer.result)).Some?
  }

  /** An effect under the key of a settled sole call is that call's own, and the server answered with success. */
  lemma SoleEffect(s: System, n: nat, e: CommandProtocol.Effect)
    requires Inv(s) && SoleSettled(s, n) && e in s.server.effects && e.key.idempotencyKey == KeyOf(s, n)
    ensures e.key == s.calls[n].request.key && e.attempt == n && !s.calls[n].refused
    ensures Answered(s, n)
  {
    var k :| 0 <= k < |s.server.effects| && s.server.effects[k] == e;
    EffectComesFromACall(s, k);
    assert CallOk(s, n);
    assert CommandProtocol.EffectOwned(s.server.attempts, e);
  }

  /** A sole call that the server answered with success has its one effect, and a 2xx status. */
  lemma SoleSuccess(s: System, n: nat)
    requires Inv(s) && AnswersOk(s.server) && SoleSettled(s, n) && Answers2xx(s.calls[n].request)
    requires Answered(s, n)
    ensures EffectsWith(s.server.effects, KeyOf(s, n)) == 1
    ensures 200 <= s.server.attempts[n].reply.value.answer.status <= 299
  {
    var key := s.calls[n].request.key;
    assert CallOk(s, n);
    assert CommandProtocol.AttemptOk(s.server, n, s.server.attempts[n]);
    var i :| 0 <= i < |s.server.effects| && s.server.effects[i].key == key;
    assert CommandProtocol.Backed(s.server.rows, s.server.effects[i]);
    assert CommandProtocol.EffectStatusOk(s.server.attempts, s.server.effects[i]);
    forall e | e in s.server.effects && e.key.idempotencyKey == key.idempotencyKey
      ensures e.key == key && e.attempt == n
    {
      SoleEffect(s, n, e);
    }
    CountsAgree(s.server.effects, key);
    CommandProtocol.LedgerCounts(s.server, key);
  }

  lemma SoleNothing(s: System, n: nat)
    requires Inv(s) && SoleSettled(s, n)
    requires !Answered(s, n)
    ensures EffectsWith(s.server.effects, KeyOf(s, n)) == 0
  {
    forall e | e in s.server.effects ensures e.key.idempotencyKey != KeyOf(s, n) {
      if e.key.idempotencyKey == KeyOf(s, n) {
        SoleEffect(s, n, e);
      }
    }
    NoneWith(s.server.effects, KeyOf(s, n));
  }

  /** The codes that go with a success, and those that go without one. */
  lemma CodeOfAnswer(s: System, n: nat)
    requires CallOk(s, n) && s.calls[n].outcome.Some? && Definite(s.calls[n].outcome.value)
    requires n in s.server.attempts ==> TextOk(s.server.attempts[n])
    requires Answered(s, n) ==> 200 <= s.server.attempts[n].reply.value.answer.status <= 299
    ensures Answered(s, n) <==> s.calls[n].outcome.value.code == INVALID_RESPONSE || RefusedAfterCommit(s, n)
  {
  }

  lemma SoleCount(s: System, n: nat)
    requires Inv(s) && AnswersOk(s.server) && SoleSettled(s, n) && Answers2xx(s.calls[n].request)
    ensures EffectsWith(s.server.effects, KeyOf(s, n))
         == if s.calls[n].outcome.value.code == INVALID_RESPONSE || RefusedAfterCommit(s, n) then 1 else 0
  {
    if Answered(s, n) {
      SoleSuccess(s, n);
    } else {
      SoleNothing(s, n);
    }
    assert CallOk(s, n);
    CodeOfAnswer(s, n);
  }

  /**
  A definite error to the only call that sent a key: an effect is committed under the key, then
  and ever after, exactly when the code is INVALID_RESPONSE or the route refused a committed result.
  */
  lemma SoleDefiniteErrorExactly(run: seq<System>, events: seq<Event>, i: nat, j: nat, n: nat)
    requires IsRun(run, events) && i <= j < |run|
    requires SoleSettled(run[i], n) && Answers2xx(run[i].calls[n].request)
    ensures EffectsWith(run[j].server.effects, KeyOf(run[i], n))
         == if run[i].calls[n].outcome.value.code == INVALID_RESPONSE || RefusedAfterCommit(run[j], n) then 1 else 0
  {
    SoleSettledForever(run, events, i, j, n);
    CallsStay(run, events, i, j, n);
    RunKeepsInv(run, events, j);
    RunKeepsAnswers(run, events, j);
    SoleCount(run[j], n);
  }

  // ---------- What the code alone decides ----------

  /** These codes of these commands may come before a commit or after it. */
  predicate Undecided(command: string, code: string) {
    || (command == LOGIN && (code == UNAUTHORIZED || code == REQUEST_FAILED))
    || (command == VERIFY && code == REQUEST_FAILED)
    || (command == STEP_UP && (code == UNAUTHORIZED || code == REQUEST_FAILED))
  }

  /** These codes always come after it. */
  predicate SaysCommitted(command: string, code: string) {
    || code == INVALID_RESPONSE
    || (command == LOGIN && code == TOO_MANY_REQUESTS)
    || (command == VERIFY && code == UNAUTHORIZED)
  }

  lemma CodeOfSole(s: System, n: nat)
    requires Inv(s) && AnswersOk(s.server) && SoleSettled(s, n)
    requires !Undecided(CommandOf(s, n), s.calls[n].outcome.value.code)
    ensures s.calls[n].outcome.value.code == INVALID_RESPONSE || RefusedAfterCommit(s, n)
       <==> SaysCommitted(CommandOf(s, n), s.calls[n].outcome.value.code)
  {
    assert CallOk(s, n);
    if n in s.server.attempts {
      assert TextOk(s.server.attempts[n]);
    }
  }

  /**
  For every other command and code the browser can tell: one effect if the code says so, and none
  otherwise. All commands but those of the three routes are among them, with INVALID_RESPONSE alone.
  */
  lemma CodeDecides(run: seq<System>, events: seq<Event>, i: nat, j: nat, n: nat)
    requires IsRun(run, events) && i <= j < |run|
    requires SoleSettled(run[i], n) && Answers2xx(run[i].calls[n].request)
    requires !Undecided(CommandOf(run[i], n), run[i].calls[n].outcome.value.code)
    ensures EffectsWith(run[j].server.effects, KeyOf(run[i], n))
         == if SaysCommitted(CommandOf(run[i], n), run[i].calls[n].outcome.value.code) then 1 else 0
  {
    SoleDefiniteErrorExactly(run, events, i, j, n);
    SoleSettledForever(run, events, i, j, n);
    CallsStay(run, events, i, j, n);
    RunKeepsInv(run, events, j);
    RunKeepsAnswers(run, events, j);
    CodeOfSole(run[j], n);
  }

  /** A definite error to the first call of an entry is such a case: its key is gone from the storage. */
  lemma FirstErrorIsSole(run: seq<System>, events: seq<Event>, i: nat, n: nat)
    requires IsRun(run, events) && Linked(run, events, i)
    requires (events[i].Receive? || events[i].RefuseEarly?) && events[i].n == n
    requires Definite(Decode(events[i].response))
    requires forall m | m in run[i].calls && KeyOf(run[i], m) == KeyOf(run[i], n) :: m == n
    ensures SoleSettled(run[i + 1], n)
  {
    RunKeepsInv(run, events, i);
  }

  // ---------- Where it fails: ways through the system ----------

  ghost predicate Reachable(s: System) {
    exists run, events :: IsRun(run, events) && run[|events|] == s
  }

  lemma ReachesNext(s: System, e: Event)
    requires Reachable(s) && Enabled(s, e)
    ensures Reachable(Apply(s, e))
  {
    var run, events :| IsRun(run, events) && run[|events|] == s;
    var run', events' := run + [Apply(s, e)], events + [e];
    forall i: nat | i < |events'| ensures Linked(run', events', i) {
      if i < |events| {
        assert Linked(run, events, i);
        assert run'[i] == run[i] && run'[i + 1] == run[i + 1] && events'[i] == events[i];
      }
    }
    assert IsRun(run', events') && run'[|events'|] == Apply(s, e);
  }

  lemma ReachableInv(s: System)
    requires Reachable(s)
    ensures Inv(s)
  {
    var run, events :| IsRun(run, events) && run[|events|] == s;
    RunKeepsInv(run, events, |events|);
  }

  /** Steps of the server that begin no attempt can be taken one after the other. */
  lemma {:induction false} ServerMoves(s: System, states: seq<CommandProtocol.State>,
                                       steps: seq<CommandProtocol.Step>, k: nat)
    requires Reachable(s) && CommandProtocol.IsPath(states, steps) && states[0] == s.server && k <= |steps|
    requires forall step | step in steps :: CommandProtocol.Quiet(step)
    ensures Reachable(s.(server := states[k]))
    decreases k
  {
    if k == 0 {
      assert s.(server := states[0]) == s;
    } else {
      ServerMoves(s, states, steps, k - 1);
      var before, step := s.(server := states[k - 1]), steps[k - 1];
      assert step in steps && CommandProtocol.Linked(states, steps, k - 1);
      ReachesNext(before, ServerStep(step));
      assert Apply(before, ServerStep(step)) == s.(server := states[k]);
    }
  }

  /** The fence is up, and the command answers with status 200. */
  predicate CanRun(fences: map<string, CommandProtocol.Fence>, template: CommandProtocol.Request) {
    CommandProtocol.FenceActive(fences, template.resource) && CommandProtocol.ResolvedStatus(template, 200) == Some(200)
  }

  /** The request of a new call. */
  function RequestOf(s: System, pending: PendingId, template: CommandProtocol.Request, newKey: string)
    : CommandProtocol.Request
  {
    template.(key := template.key.(idempotencyKey := PendingKeyOf(s.storage, pending, newKey)))
  }

  /** The state after a new call. */
  function Calling(s: System, n: nat, pending: PendingId, template: CommandProtocol.Request, newKey: string): System {
    var request := RequestOf(s, pending, template, newKey);
    s.(calls := s.calls[n := Call(pending, request, false, None)],
       storage := s.storage[pending := request.key.idempotencyKey],
       used := s.used + {newKey})
  }

  /** A new call whose request arrives. */
  lemma CallArrives(s: System, n: nat, pending: PendingId, template: CommandProtocol.Request, newKey: string)
    returns (t: System)
    requires Reachable(s) && n !in s.calls && newKey !in s.used && KeyPattern(newKey)
    ensures Reachable(t) && n !in s.server.attempts
    ensures var request := RequestOf(s, pending, template, newKey);
            t == Calling(s, n, pending, template, newKey).(
              server := CommandProtocol.With(
                s.server, n, CommandProtocol.Attempt(request, CommandProtocol.Begun, None, None)))
  {
    ReachableInv(s);
    ReachesNext(s, StartCall(n, pending, template, newKey));
    var s1 := Apply(s, StartCall(n, pending, template, newKey));
    ReachesNext(s1, Deliver(n));
    t := Apply(s1, Deliver(n));
  }

  /** The attempt of a call that has arrived. */
  function Arrived(s: System, n: nat, request: CommandProtocol.Request): CommandProtocol.State {
    CommandProtocol.With(s.server, n, CommandProtocol.Attempt(request, CommandProtocol.Begun, None, None))
  }

  /** A new call under a free key that is carried out; its response is still on the way. */
  lemma CallCommits(s: System, n: nat, pending: PendingId, template: CommandProtocol.Request, newKey: string,
                    result: string)
    returns (t: System)
    requires Reachable(s) && n !in s.calls && newKey !in s.used && KeyPattern(newKey)
    requires CanRun(s.server.fences, template)
    requires RequestOf(s, pending, template, newKey).key !in s.server.rows
    requires RequestOf(s, pending, template, newKey).key !in s.server.locks
    ensures Reachable(t)
    ensures t == Calling(s, n, pending, template, newKey).(
              server := CommandProtocol.Committed(s.server, n, RequestOf(s, pending, template, newKey), result))
  {
    var request := RequestOf(s, pending, template, newKey);
    var u := CallArrives(s, n, pending, template, newKey);
    var begun := Arrived(s, n, request);
    var states, steps := CommandProtocol.ExecutionPath(begun, n, request, result);
    ServerMoves(u, states, steps, |steps|);
    CommandProtocol.EndsAlike(s.server, n, begun.attempts[n], request, result, CommandProtocol.DriverFailed);
    t := u.(server := CommandProtocol.Committed(s.server, n, request, result));
  }

  /** A new call that arrives without its fence; its response is still on the way. */
  lemma CallIsRejected(s: System, n: nat, pending: PendingId, template: CommandProtocol.Request, newKey: string)
    returns (t: System)
    requires Reachable(s) && n !in s.calls && newKey !in s.used && KeyPattern(newKey)
    requires !CommandProtocol.FenceActive(s.server.fences, template.resource)
    ensures Reachable(t)
    ensures t == Calling(s, n, pending, template, newKey).(
              server := CommandProtocol.Rejected(s.server, n, RequestOf(s, pending, template, newKey)))
  {
    var request := RequestOf(s, pending, template, newKey);
    var u := CallArrives(s, n, pending, template, newKey);
    var begun := Arrived(s, n, request);
    var states, steps := CommandProtocol.RejectionPath(begun, n, request);
    ServerMoves(u, states, steps, |steps|);
    CommandProtocol.EndsAlike(s.server, n, begun.attempts[n], request, "", CommandProtocol.DriverFailed);
    t := u.(server := CommandProtocol.Rejected(s.server, n, request));
  }

  /** A new browser in front of an empty command table. */
  function Fresh(fences: map<string, CommandProtocol.Fence>, seen: map<string, Seen>): System {
    System(CommandProtocol.State(fences, map[], map[], map[], []), map[], map[], {}, seen)
  }

  lemma FreshIsReachable(fences: map<string, CommandProtocol.Fence>, seen: map<string, Seen>)
    ensures Reachable(Fresh(fences, seen))
  {
    assert IsRun([Fresh(fences, seen)], []);
  }

  lemma CallingFresh(fences: map<string, CommandProtocol.Fence>, seen: map<string, Seen>, pending: PendingId,
                     template: CommandProtocol.Request, key: string)
    ensures var s := Calling(Fresh(fences, seen), 0, pending, template, key);
            && RequestOf(Fresh(fences, seen), pending, template, key) == Under(template, key)
            && s.calls == map[0 := Call(pending, Under(template, key), false, None)]
            && s.storage == map[pending := key] && s.used == {key}
            && s.server == Fresh(fences, seen).server && s.seen == seen
  {
  }

  /** The request that a template becomes under this key. */
  function Under(template: CommandProtocol.Request, key: string): CommandProtocol.Request {
    template.(key := template.key.(idempotencyKey := key))
  }

  /** The first call of a browser commits. */
  lemma FirstCallCommits(fences: map<string, CommandProtocol.Fence>, seen: map<string, Seen>, pending: PendingId,
                         template: CommandProtocol.Request, key: string, result: string)
    returns (t: System)
    requires CanRun(fences, template) && KeyPattern(key)
    ensures Reachable(t) && t.seen == seen
    ensures var request := Under(template, key);
            && t.calls == map[0 := Call(pending, request, false, None)]
            && t.storage == map[pending := key] && t.used == {key}
            && t.server.fences == fences && t.server.locks == map[]
            && t.server.rows == map[request.key := CommandProtocol.CompletedRow(request.digest, result, 200)]
            && t.server.attempts.Keys == {0} && t.server.attempts[0].phase.Closed?
            && t.server.attempts[0].request == request
            && t.server.attempts[0].reply == Some(CommandProtocol.Succeeded(CommandProtocol.Answer(false, result, 200)))
            && |t.server.effects| == 1 && t.server.effects[0].key == request.key
  {
    FreshIsReachable(fences, seen);
    t := CallCommits(Fresh(fences, seen), 0, pending, template, key, result);
  }

  /**
  Two actors on one entry. The first one commits and logs out before the response arrives; the
  second one makes the same request in the same browser. Both effects carry the entry's key.
  */
  lemma TwoActorsOneEntry(fences: map<string, CommandProtocol.Fence>, seen: map<string, Seen>, pending: PendingId,
                          first: CommandProtocol.Request, actor: string, key: string, newKey: string, result: string)
    returns (t: System)
    requires CanRun(fences, first) && actor != first.key.actorScope
    requires KeyPattern(key) && KeyPattern(newKey) && key != newKey
    ensures Reachable(t)
    ensures t.storage == map[pending := key] && t.calls.Keys == {0, 1}
    ensures t.calls[0].request == Under(first, key)
    ensures t.calls[1].request == Under(first.(key := first.key.(actorScope := actor)), key)
    ensures EffectsWith(t.server.effects, key) == 2
  {
    var s1 := FirstCallCommits(fences, seen, pending, first, key, result);
    ReachesNext(s1, NetworkFailure(0));
    var s2 := Apply(s1, NetworkFailure(0));
    var second := first.(key := first.key.(actorScope := actor));
    t := CallCommits(s2, 1, pending, second, newKey, result);
    assert t.server.effects[..1] == s1.server.effects;
    assert s1.server.effects[..0] == [] && EffectsWith(s1.server.effects, key) == 1;
  }

  /** The only call there is got this definite error, its entry is gone, and so many effects carry its key. */
  ghost predicate EndedWith(t: System, request: CommandProtocol.Request, code: string, effects: nat) {
    && t.calls.Keys == {0} && t.calls[0].request == request && t.calls[0].outcome == Some(Broke(code))
    && SoleSettled(t, 0) && t.storage == map[] && t.used == {request.key.idempotencyKey}
    && EffectsWith(t.server.effects, request.key.idempotencyKey) == effects
  }

  /** The only call ends with a definite error. */
  lemma EndsAlone(s: System, pending: PendingId, request: CommandProtocol.Request, refused: bool, code: string,
                  effects: nat)
    requires s.calls == map[0 := Call(pending, request, false, None)]
    requires s.storage == map[pending := request.key.idempotencyKey] && s.used == {request.key.idempotencyKey}
    requires Definite(Broke(code)) && EffectsWith(s.server.effects, request.key.idempotencyKey) == effects
    ensures EndedWith(Finish(s, 0, Broke(code), refused), request, code, effects)
  {
  }

  lemma OneEffect(effects: seq<CommandProtocol.Effect>, key: string)
    requires |effects| == 1 && effects[0].key.idempotencyKey == key
    ensures EffectsWith(effects, key) == 1
  {
    assert effects[..0] == [];
  }

  /** A sole call that commits, and whose success arrives with an unreadable body. */
  lemma UnreadableSuccess(fences: map<string, CommandProtocol.Fence>, seen: map<string, Seen>, pending: PendingId,
                          template: CommandProtocol.Request, key: string, result: string)
    returns (t: System)
    requires CanRun(fences, template) && KeyPattern(key)
    requires RouteRefuses(template.key.command, SeenIn(seen, result)).None?
    ensures Reachable(t) && EndedWith(t, Under(template, key), INVALID_RESPONSE, 1) && !RefusedAfterCommit(t, 0)
  {
    var s := FirstCallCommits(fences, seen, pending, template, key, result);
    var unreadable := Response(200, None, None, false);
    OneEffect(s.server.effects, key);
    EndsAlone(s, pending, Under(template, key), false, INVALID_RESPONSE, 1);
    ReachesNext(s, Receive(0, unreadable));
    t := Apply(s, Receive(0, unreadable));
  }

  /**
  A sole call of auth.login, auth.verify or step-up.verify with a wrong password or code: the failed
  attempt is committed, and then the route refuses the result with a definite error.
  */
  lemma RefusalAfterCommit(fences: map<string, CommandProtocol.Fence>, seen: map<string, Seen>, pending: PendingId,
                           template: CommandProtocol.Request, key: string, result: string, readable: bool)
    returns (t: System)
    requires CanRun(fences, template) && KeyPattern(key)
    requires RouteRefuses(template.key.command, SeenIn(seen, result)).Some?
    ensures Reachable(t) && t.seen == seen && RefusedAfterCommit(t, 0)
    ensures var refusal := RouteRefuses(template.key.command, SeenIn(seen, result)).value;
            EndedWith(t, Under(template, key), if readable then refusal.code else REQUEST_FAILED, 1)
  {
    var s := FirstCallCommits(fences, seen, pending, template, key, result);
    var response := if readable then ResponseTo(s, 0) else Response(ResponseTo(s, 0).status, None, None, false);
    var refusal := RouteRefuses(template.key.command, SeenIn(seen, result)).value;
    OneEffect(s.server.effects, key);
    EndsAlone(s, pending, Under(template, key), false, if readable then refusal.code else REQUEST_FAILED, 1);
    ReachesNext(s, Receive(0, response));
    t := Apply(s, Receive(0, response));
  }

  /** A sole call that is refused before its command begins. */
  lemma RefusalBefore(fences: map<string, CommandProtocol.Fence>, seen: map<string, Seen>, pending: PendingId,
                      template: CommandProtocol.Request, key: string, response: Response)
    returns (t: System)
    requires KeyPattern(key) && !(200 <= response.status <= 299) && Definite(Decode(response))
    requires response.code.Some? ==> MayRefuse(template.key.command, response.code.value)
    ensures Reachable(t) && t.seen == seen && EndedWith(t, Under(template, key), Decode(response).code, 0)
  {
    var s := Fresh(fences, seen);
    FreshIsReachable(fences, seen);
    ReachesNext(s, StartCall(0, pending, template, key));
    var s1 := Calling(s, 0, pending, template, key);
    CallingFresh(fences, seen, pending, template, key);
    EndsAlone(s1, pending, Under(template, key), true, Decode(response).code, 0);
    ReachesNext(s1, RefuseEarly(0, response));
    t := Apply(s1, RefuseEarly(0, response));
  }

  /** An effect that is about to run may throw, and is rolled back. */
  lemma EffectFails(s: System, b: CommandProtocol.State, n: nat, request: CommandProtocol.Request,
                    status: int, text: string)
    requires Reachable(s) && n in b.attempts && MayThrow(request.key.command, text)
    requires s.server
          == CommandProtocol.Holding(b, n, request, CommandProtocol.Executing, CommandProtocol.PendingRow(request))
    ensures Reachable(s.(server := CommandProtocol.Thrown(b, n, request, CommandProtocol.RunFailed(status, text))))
  {
    CommandProtocol.EffectThrows(b, n, request, status, text);
    var throws := ServerStep(CommandProtocol.RunEffect(n, CommandProtocol.Threw(status, text)));
    ReachesNext(s, throws);
    ReachesNext(Apply(s, throws), ServerStep(CommandProtocol.Rollback(n)));
  }

  /** A new call whose effect throws. */
  lemma CallThrows(s: System, n: nat, pending: PendingId, template: CommandProtocol.Request, newKey: string,
                   status: int, text: string)
    returns (t: System)
    requires Reachable(s) && n !in s.calls && newKey !in s.used && KeyPattern(newKey)
    requires CommandProtocol.FenceActive(s.server.fences, template.resource) && MayThrow(template.key.command, text)
    requires RequestOf(s, pending, template, newKey).key !in s.server.rows
    requires RequestOf(s, pending, template, newKey).key !in s.server.locks
    ensures Reachable(t)
    ensures var request := RequestOf(s, pending, template, newKey);
            t == Calling(s, n, pending, template, newKey).(
              server := CommandProtocol.Thrown(s.server, n, request, CommandProtocol.RunFailed(status, text)))
  {
    var request, code := RequestOf(s, pending, template, newKey), CommandProtocol.RunFailed(status, text);
    var u := CallArrives(s, n, pending, template, newKey);
    var begun := Arrived(s, n, request);
    var states, steps := CommandProtocol.ClaimingPath(begun, n, request);
    ServerMoves(u, states, steps, |steps|);
    EffectFails(u.(server := states[|steps|]), begun, n, request, status, text);
    CommandProtocol.EndsAlike(s.server, n, begun.attempts[n], request, "", code);
    t := u.(server := CommandProtocol.Thrown(s.server, n, request, code));
  }

  /** A definite error of the server arrives. */
  lemma ErrorArrives(s: System, n: nat, code: CommandProtocol.Code)
    requires Reachable(s) && Waiting(s, n) && n in s.server.attempts
    requires s.server.attempts[n].reply == Some(CommandProtocol.Failed(code))
    requires Decode(Response(ErrorStatus(code), Some(ErrorText(code)), None, false)) == Broke(ErrorText(code))
    ensures Reachable(Finish(s, n, Broke(ErrorText(code)), s.calls[n].refused))
  {
    ReachesNext(s, Receive(n, ResponseTo(s, n)));
  }

  /** A sole login under an account that does not exist. */
  lemma UnknownAccount(fences: map<string, CommandProtocol.Fence>, seen: map<string, Seen>, pending: PendingId,
                       template: CommandProtocol.Request, key: string)
    returns (t: System)
    requires CanRun(fences, template) && KeyPattern(key) && template.key.command == LOGIN
    ensures Reachable(t) && t.seen == seen && EndedWith(t, Under(template, key), UNAUTHORIZED, 0)
  {
    FreshIsReachable(fences, seen);
    var s := CallThrows(Fresh(fences, seen), 0, pending, template, key, 401, UNAUTHORIZED);
    CallingFresh(fences, seen, pending, template, key);
    EndsAlone(s, pending, Under(template, key), false, UNAUTHORIZED, 0);
    ErrorArrives(s, 0, CommandProtocol.RunFailed(401, UNAUTHORIZED));
    t := Finish(s, 0, Broke(UNAUTHORIZED), false);
  }

  /**
  Each undecided code comes both with an effect and without one: two reachable states that look the
  same to the browser. In the second one the request came without a session, named no account, or
  was refused in a body that could not be read.
  */
  lemma CodeDecidesNothing(fences: map<string, CommandProtocol.Fence>, pending: PendingId,
                           template: CommandProtocol.Request, key: string, code: string, result: string)
    returns (t: System, u: System)
    requires CanRun(fences, template) && KeyPattern(key) && Undecided(template.key.command, code)
    ensures Reachable(t) && EndedWith(t, Under(template, key), code, 1) && RefusedAfterCommit(t, 0)
    ensures Reachable(u) && EndedWith(u, Under(template, key), code, 0) && u.seen == t.seen
  {
    var seen := map[result := Seen(IsOther, IsOther, IsOther)];
    t := RefusalAfterCommit(fences, seen, pending, template, key, result, code == UNAUTHORIZED);
    if code == REQUEST_FAILED {
      u := RefusalBefore(fences, seen, pending, template, key, Response(400, None, None, false));
    } else if template.key.command == LOGIN {
      u := UnknownAccount(fences, seen, pending, template, key);
    } else {
      u := RefusalBefore(fences, seen, pending, template, key, Response(401, Some(UNAUTHORIZED), None, false));
    }
  }

  // ---------- A later error of an entry ----------

  /** With no transaction open, the fence of a resource can be taken away. */
  lemma FenceIsTaken(s: System, resource: string) returns (t: System)
    requires Reachable(s) && resource in s.server.fences
    requires forall n | n in s.server.attempts :: s.server.attempts[n].phase.Closed?
    ensures Reachable(t) && !CommandProtocol.FenceActive(t.server.fences, resource)
    ensures t == s.(server := s.server.(fences := t.server.fences))
  {
    var off := CommandProtocol.FlipFence(resource, s.server.fences[resource].(enabled := false));
    ReachesNext(s, ServerStep(off));
    t := Apply(s, ServerStep(off));
  }

  /**
  A first call commits and its response is lost. Then the fence is taken away and the retry is
  told a definite error, which removes the entry.
  */
  lemma DefiniteErrorAfterCommit(fences: map<string, CommandProtocol.Fence>, seen: map<string, Seen>,
                                 pending: PendingId, template: CommandProtocol.Request,
                                 key: string, newKey: string, result: string)
    returns (t: System)
    requires CanRun(fences, template)
    requires KeyPattern(key) && KeyPattern(newKey) && key != newKey
    ensures Reachable(t) && t.calls.Keys == {0, 1} && KeyOf(t, 0) == KeyOf(t, 1) == key
    ensures t.calls[0].outcome == Some(Broke("NETWORK_OUTCOME_UNKNOWN"))
    ensures t.calls[1].outcome == Some(Broke("WRITER_FENCE_REJECTED"))
    ensures t.storage == map[] && EffectsWith(t.server.effects, key) == 1
  {
    var s1 := FirstCallCommits(fences, seen, pending, template, key, result);
    ReachesNext(s1, NetworkFailure(0));
    var s2 := Apply(s1, NetworkFailure(0));
    var s3 := FenceIsTaken(s2, template.resource);
    var s4 := CallIsRejected(s3, 1, pending, template, newKey);
    ErrorArrives(s4, 1, CommandProtocol.FenceRejected);
    t := Finish(s4, 1, Broke("WRITER_FENCE_REJECTED"), false);
    assert t.server.effects[..0] == [];
  }

  /** The first request of a browser is lost on the way. */
  lemma FirstCallIsLost(fences: map<string, CommandProtocol.Fence>, seen: map<string, Seen>, pending: PendingId,
                        template: CommandProtocol.Request, key: string)
    returns (t: System)
    requires KeyPattern(key)
    ensures Reachable(t) && t.server == Fresh(fences, seen).server && t.seen == seen
    ensures t.calls == map[0 := Call(pending, Under(template, key), false, Some(Broke("NETWORK_OUTCOME_UNKNOWN")))]
    ensures t.storage == map[pending := key] && t.used == {key}
  {
    var s := Fresh(fences, seen);
    FreshIsReachable(fences, seen);
    ReachesNext(s, StartCall(0, pending, template, key));
    var s1 := Calling(s, 0, pending, template, key);
    ReachesNext(s1, NetworkFailure(0));
    t := Apply(s1, NetworkFailure(0));
  }

  /**
  The browser cannot tell: it sees the same when the first request was lost and the fence was away
  all the time, and then nothing is committed.
  */
  lemma DefiniteErrorWithoutCommit(fences: map<string, CommandProtocol.Fence>, seen: map<string, Seen>,
                                   pending: PendingId, template: CommandProtocol.Request, key: string, newKey: string)
    returns (t: System)
    requires !CommandProtocol.FenceActive(fences, template.resource)
    requires KeyPattern(key) && KeyPattern(newKey) && key != newKey
    ensures Reachable(t) && t.calls.Keys == {0, 1} && KeyOf(t, 0) == KeyOf(t, 1) == key
    ensures t.calls[0].outcome == Some(Broke("NETWORK_OUTCOME_UNKNOWN"))
    ensures t.calls[1].outcome == Some(Broke("WRITER_FENCE_REJECTED"))
    ensures t.storage == map[] && EffectsWith(t.server.effects, key) == 0
  {
    var s1 := FirstCallIsLost(fences, seen, pending, template, key);
    var s2 := CallIsRejected(s1, 1, pending, template, newKey);
    ErrorArrives(s2, 1, CommandProtocol.FenceRejected);
    t := Finish(s2, 1, Broke("WRITER_FENCE_REJECTED"), false);
  }
}
