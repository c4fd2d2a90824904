/** `ws/upstream/index.js`: the client session with the upstream GPS gateway.
    The socket is the log of messages sent on it, the credentials file is a value
    that reads back as `null` when it cannot be read or parsed, the keep-alive
    `setInterval` handles are a map from handle to what the callback captured,
    and every inbound payload is handed to `checkVehicle`, which is recorded in
    the order of the hand-offs.

    Each handler runs to completion, microtasks included: `upstreamSubscribe`
    sends before its first `await`, while `upstreamLogin` and
    `upstreamKeepAlive` send or arm only after awaiting the file read, so the
    socket sees the subscription before the login.

    The server installs no `uncaughtException` or `unhandledRejection` handler,
    so an exception thrown in a listener or an interval callback, and a promise
    rejection nobody handles, end the process. The session records this as
    `crashed`; a crashed session runs no more handlers. */
module Upstream {
  import opened Wrappers
  import Vehicle

  /** The login status that asks for a retry. */
  const RETRY_STATUS: string := "10082"
  /** The login reply, compared with `===` to a string. */
  const LOGIN_ACTION: string := "80000"

  /** A JSON `action`: the login is sent with the number 80000, the other requests
      with strings, and `===` tells the two apart. */
  datatype ActionCode = Text(text: string) | Number(n: int)

  /** The parsed `upstream.json`; a key that is missing reads as `undefined`. */
  datatype Credentials = Credentials(
    username: Option<string>,
    token: Option<string>,
    pid: Option<string>,
    lastUpdated: Option<string>)

  /** `{ token, pid }` as `reAuthenticate` builds it from the login reply. */
  datatype AuthData = AuthData(token: Option<string>, pid: Option<string>)

  /** The messages the session sends. */
  datatype Outbound =
    | Login(username: Option<string>, token: Option<string>, pid: Option<string>)
    | Subscribe
    | KeepAlive(username: Option<string>, token: Option<string>)

  function ActionOf(m: Outbound): ActionCode {
    match m
    case Login(_, _, _) => Number(80000)
    case Subscribe => Text("80001")
    case KeepAlive(_, _) => Text("80009")
  }

  /** The only message sent with a numeric action is the login: a reply that echoes
      it as a number is not `=== '80000'`. */
  lemma OnlyLoginIsNumeric(m: Outbound)
    ensures ActionOf(m).Number? <==> m.Login?
    ensures ActionOf(m) != Text(LOGIN_ACTION)
  {
  }

  /** The part of an inbound `payload` the handler reads: `result`, and the rest
      as the vehicle sample `checkVehicle` receives. */
  datatype Payload = Payload(result: Option<string>, vehicle: Vehicle.Sample)

  /** A parsed inbound message; `payload` is absent when it is `null` or missing. */
  datatype Inbound = Inbound(action: ActionCode, payload: Option<Payload>)

  /** `a || b` on two string values. */
  function Or(a: Option<string>, b: Option<string>): (r: Option<string>)
    ensures Vehicle.Truthy(a) ==> r == a
    ensures !Vehicle.Truthy(a) ==> r == b
  {
    if Vehicle.Truthy(a) then a else b
  }

  /** `newCredential?.token || upstreamConfig.token` and the same for `pid`: the
      login takes the user name from the file and each of token and pid from the
      new credential when it has a non-empty one, from the file otherwise. */
  function LoginMessage(file: Credentials, cred: Option<AuthData>): (m: Outbound)
    ensures m.Login? && m.username == file.username
    ensures cred.Some? && Vehicle.Truthy(cred.value.token) ==> m.token == cred.value.token
    ensures (cred.None? || !Vehicle.Truthy(cred.value.token)) ==> m.token == file.token
    ensures cred.Some? && Vehicle.Truthy(cred.value.pid) ==> m.pid == cred.value.pid
    ensures (cred.None? || !Vehicle.Truthy(cred.value.pid)) ==> m.pid == file.pid
  {
    var token := if cred.Some? then cred.value.token else None;
    var pid := if cred.Some? then cred.value.pid else None;
    Login(file.username, Or(token, file.token), Or(pid, file.pid))
  }

  /** What an interval callback captured: the file as read when it was armed
      (`null` when unreadable) and `newCredential?.token`. */
  datatype KeepAliveTimer = KeepAliveTimer(file: Option<Credentials>, token: Option<string>)

  /** One tick: the keep-alive request, or none when the captured file was
      unreadable (reading `username` of `null` throws inside the callback). */
  function KeepAliveMessage(t: KeepAliveTimer): (m: Option<Outbound>)
    ensures m.Some? <==> t.file.Some?
    ensures m.Some? ==> m.value.KeepAlive? && m.value.username == t.file.value.username
    ensures m.Some? ==> m.value.token == Or(t.token, t.file.value.token)
  {
    if t.file.None? then None else Some(KeepAlive(t.file.value.username, Or(t.token, t.file.value.token)))
  }

  // ---------------------------------------------------------------------------
  // reAuthenticate

  /** The outcome of one login request: a reply, or a rejected request. */
  datatype HttpResponse = Response(status: Option<string>, msg: Option<string>, data: Option<AuthData>) | RequestFailed

  /** What `reAuthenticate` settles with: the new credential, `undefined`, or the
      rethrown error. */
  datatype ReauthResult = Refreshed(auth: AuthData) | NotRefreshed | Rethrown

  predicate AsksRetry(response: HttpResponse) {
    response.Response? && response.status == Some(RETRY_STATUS)
  }

  /** The reply `reAuthenticate` acts on: the first one, or the retry's when the
      first asked for a retry. */
  function FinalResponse(first: HttpResponse, retry: HttpResponse): HttpResponse {
    if AsksRetry(first) then retry else first
  }

  /** How `reAuthenticate` settles on the reply it acts on: `Success` with login
      data gives the credential, `Success` without data throws on
      `response.data.data.token` and is rethrown like a failed request, and any
      other message gives `undefined`. */
  function Conclude(response: HttpResponse): (r: ReauthResult)
    ensures r.Refreshed? <==> response.Response? && response.msg == Some("Success") && response.data.Some?
    ensures r.Refreshed? ==> r.auth == response.data.value
    ensures r.Rethrown? <==> response.RequestFailed? || (response.msg == Some("Success") && response.data.None?)
  {
    if response.RequestFailed? then Rethrown
    else if response.msg == Some("Success") then
      if response.data.None? then Rethrown else Refreshed(response.data.value)
    else NotRefreshed
  }

  function ReAuthenticate(first: HttpResponse, retry: HttpResponse): ReauthResult {
    Conclude(FinalResponse(first, retry))
  }

  /** The request is repeated at most once, and only after a `10082` reply: any
      other first outcome decides alone, and after a `10082` the retry decides
      alone, whatever its own status (a second `10082` is not retried). */
  lemma RetryOnlyOn10082(first: HttpResponse, retry: HttpResponse, other: HttpResponse)
    ensures !AsksRetry(first) ==> ReAuthenticate(first, retry) == ReAuthenticate(first, other)
    ensures !AsksRetry(first) ==> ReAuthenticate(first, retry) == Conclude(first)
    ensures AsksRetry(first) ==> ReAuthenticate(first, retry) == Conclude(retry)
  {
  }

  /** The record `saveCredentialsToFile` writes. */
  function Saved(auth: AuthData, iso: string): (c: Credentials)
    ensures c.username == Some("admin") && c.lastUpdated == Some(iso)
    ensures c.token == auth.token && c.pid == auth.pid
  {
    Credentials(Some("admin"), auth.token, auth.pid, Some(iso))
  }

  // ---------------------------------------------------------------------------
  // The session as a value

  /** Everything the handlers change: the file, the socket, the hand-offs to
      `checkVehicle`, `intervalId`, the live intervals, the next handle, and
      whether the process has ended on an exception or an unhandled rejection. */
  datatype Session = Session(
    file: Option<Credentials>,
    sent: seq<Outbound>,
    forwarded: seq<Option<Vehicle.Sample>>,
    intervalId: Option<nat>,
    timers: map<nat, KeepAliveTimer>,
    nextTimer: nat,
    crashed: bool)

  /** At most one interval is live, and it is the one `intervalId` names; no live
      or named handle is reused. */
  predicate OneTimer(s: Session) {
    && (forall id :: id in s.timers ==> s.intervalId == Some(id))
    && (s.intervalId.Some? ==> s.intervalId.value < s.nextTimer)
  }

  /** `upstreamLogin`: once the file read has been awaited, the login request;
      when the file reads back as `null`, reading `username` of it rejects the
      promise nobody awaits, and the process ends. */
  function LoginStep(s: Session, cred: Option<AuthData>): (r: Session)
    ensures s.file.None? ==> r == s.(crashed := true)
    ensures s.file.Some? ==> r == s.(sent := s.sent + [LoginMessage(s.file.value, cred)])
  {
    if s.file.None? then s.(crashed := true) else s.(sent := s.sent + [LoginMessage(s.file.value, cred)])
  }

  /** `upstreamKeepAlive`: clear the interval `intervalId` names, then, after the
      file read, arm a new one that captured that read. */
  function KeepAliveStep(s: Session, token: Option<string>): (r: Session)
    ensures s.nextTimer in r.timers && r.timers[s.nextTimer] == KeepAliveTimer(s.file, token)
    ensures OneTimer(s) ==> OneTimer(r) && r.timers.Keys == {s.nextTimer}
    ensures r.sent == s.sent && r.file == s.file && r.forwarded == s.forwarded && r.crashed == s.crashed
  {
    var cleared := if s.intervalId.Some? then s.timers - {s.intervalId.value} else s.timers;
    var armed := s.(timers := cleared[s.nextTimer := KeepAliveTimer(s.file, token)],
                    intervalId := Some(s.nextTimer), nextTimer := s.nextTimer + 1);
    assert armed.timers.Keys == cleared.Keys + {s.nextTimer};
    armed
  }

  /** The `open` handler: login, subscribe and keep-alive are started in that
      order and the subscription goes out first. When the file could not be read
      at connect, `upstreamConfig.token` throws in the listener right after the
      subscription, and the process ends before the login's file read resumes. */
  function OpenStep(s: Session, connectConfig: Option<Credentials>): (r: Session)
    ensures s.crashed ==> r == s
    ensures !s.crashed ==> |r.sent| > |s.sent| && r.sent[..|s.sent|] == s.sent && r.sent[|s.sent|] == Subscribe
    ensures !s.crashed ==>
      (r.sent[|s.sent| + 1..] == if connectConfig.Some? && s.file.Some? then [LoginMessage(s.file.value, None)] else [])
    ensures !s.crashed ==> (r.crashed <==> connectConfig.None? || s.file.None?)
    ensures connectConfig.None? ==> r.timers == s.timers && r.intervalId == s.intervalId
    ensures !s.crashed && connectConfig.Some? ==>
      s.nextTimer in r.timers && r.timers[s.nextTimer] == KeepAliveTimer(s.file, None)
    ensures !s.crashed && connectConfig.Some? && OneTimer(s) ==> r.timers.Keys == {s.nextTimer}
    ensures r.file == s.file && r.forwarded == s.forwarded
  {
    if s.crashed then s
    else
      var subscribed := s.(sent := s.sent + [Subscribe]);
      if connectConfig.None? then subscribed.(crashed := true)
      else KeepAliveStep(LoginStep(subscribed, None), None)
  }

  /** One tick of a live interval; a callback that captured an unreadable file
      throws, and the process ends. */
  function FireStep(s: Session, id: nat): (r: Session)
    requires id in s.timers
    ensures s.crashed ==> r == s
    ensures !s.crashed && KeepAliveMessage(s.timers[id]).Some? ==>
      r == s.(sent := s.sent + [KeepAliveMessage(s.timers[id]).value])
    ensures !s.crashed && KeepAliveMessage(s.timers[id]).None? ==> r == s.(crashed := true)
  {
    if s.crashed then s
    else match KeepAliveMessage(s.timers[id])
      case None => s.(crashed := true)
      case Some(m) => s.(sent := s.sent + [m])
  }

  /** Whether the handler starts a reauthentication: the reply to a login (the
      string '80000') whose payload says `fail`. */
  predicate TriggersReauth(msg: Inbound) {
    msg.action == Text(LOGIN_ACTION) && msg.payload.Some? && msg.payload.value.result == Some("fail")
  }

  /** The `message` handler. The payload goes to `checkVehicle` first, whatever the
      action; a missing payload then throws on `payload.result`. A failed login
      reply reauthenticates with the two request outcomes given; the new
      credential is saved unless `saveOk` is false, and when it carries a token,
      subscribe, login and keep-alive start again with it. The handler is an
      `async` listener, so what it throws is a rejection nobody handles, and the
      process ends: on a missing payload and on a rethrown reauthentication. */
  function MessageStep(s: Session, msg: Inbound, first: HttpResponse, retry: HttpResponse, saveOk: bool, iso: string): (r: Session)
    ensures s.crashed ==> r == s
    ensures !s.crashed ==>
      r.forwarded == s.forwarded + [if msg.payload.Some? then Some(msg.payload.value.vehicle) else None]
    ensures !s.crashed && (!TriggersReauth(msg) || !ReAuthenticate(first, retry).Refreshed?) ==>
      r == s.(forwarded := r.forwarded, crashed := r.crashed)
  {
    if s.crashed then s
    else
      var handed := s.(forwarded := s.forwarded + [if msg.payload.Some? then Some(msg.payload.value.vehicle) else None]);
      if msg.payload.None? then handed.(crashed := true)
      else if !TriggersReauth(msg) then handed
      else match ReAuthenticate(first, retry)
        case Refreshed(auth) =>
          var saved := if saveOk then handed.(file := Some(Saved(auth, iso))) else handed;
          if !Vehicle.Truthy(auth.token) then saved
          else
            var subscribed := saved.(sent := saved.sent + [Subscribe]);
            KeepAliveStep(LoginStep(subscribed, Some(auth)), auth.token)
        case NotRefreshed => handed
        case Rethrown => handed.(crashed := true)
  }

  // ---------------------------------------------------------------------------
  // Properties of the session

  lemma OpenKeepsOneTimer(s: Session, connectConfig: Option<Credentials>)
    requires OneTimer(s)
    ensures OneTimer(OpenStep(s, connectConfig))
  {
  }

  lemma MessageKeepsOneTimer(s: Session, msg: Inbound, first: HttpResponse, retry: HttpResponse, saveOk: bool, iso: string)
    requires OneTimer(s)
    ensures OneTimer(MessageStep(s, msg, first, retry, saveOk, iso))
  {
  }

  /** The inbound messages that lead to any send, save or timer change are exactly
      the failed login replies whose reauthentication yields a credential; a
      numeric 80000 or a payload without `result: 'fail'` is only handed on. */
  lemma OnlyFailedLoginReauthenticates(s: Session, msg: Inbound, first: HttpResponse, retry: HttpResponse, saveOk: bool, iso: string)
    ensures var r := MessageStep(s, msg, first, retry, saveOk, iso);
      (r.sent != s.sent || r.timers != s.timers || r.file != s.file) ==>
        TriggersReauth(msg) && ReAuthenticate(first, retry).Refreshed?
    ensures msg.action.Number? ==> MessageStep(s, msg, first, retry, saveOk, iso).sent == s.sent
  {
  }

  /** Exactly these messages end the process: one without a payload, a failed
      login reply whose reauthentication is rethrown, and one whose new token
      meets a file that neither the save nor the previous state makes readable. */
  lemma MessageCrashes(s: Session, msg: Inbound, first: HttpResponse, retry: HttpResponse, saveOk: bool, iso: string)
    requires !s.crashed
    ensures var r := MessageStep(s, msg, first, retry, saveOk, iso);
      var result := ReAuthenticate(first, retry);
      r.crashed <==>
        || msg.payload.None?
        || (TriggersReauth(msg) && result.Rethrown?)
        || (TriggersReauth(msg) && result.Refreshed? && Vehicle.Truthy(result.auth.token) && !saveOk && s.file.None?)
  {
  }

  /** Once the process has ended, nothing happens any more. */
  lemma CrashIsFinal(s: Session, connectConfig: Option<Credentials>, id: nat,
                     msg: Inbound, first: HttpResponse, retry: HttpResponse, saveOk: bool, iso: string)
    requires s.crashed
    ensures OpenStep(s, connectConfig) == s && MessageStep(s, msg, first, retry, saveOk, iso) == s
    ensures id in s.timers ==> FireStep(s, id) == s
  {
  }

  /** After a reauthentication that yields a token, the socket sees the subscription
      and then the login carrying the new token (when the file, just rewritten,
      reads back), and the only live interval sends the new token. */
  lemma ReauthResends(s: Session, msg: Inbound, first: HttpResponse, retry: HttpResponse, saveOk: bool, iso: string)
    requires !s.crashed && TriggersReauth(msg)
    requires ReAuthenticate(first, retry).Refreshed? && Vehicle.Truthy(ReAuthenticate(first, retry).auth.token)
    ensures var auth := ReAuthenticate(first, retry).auth;
      var r := MessageStep(s, msg, first, retry, saveOk, iso);
      var file := if saveOk then Some(Saved(auth, iso)) else s.file;
      && r.file == file && (r.crashed <==> file.None?)
      && r.sent[..|s.sent|] == s.sent && |r.sent| > |s.sent| && r.sent[|s.sent|] == Subscribe
      && r.sent[|s.sent| + 1..] == (if file.Some? then [LoginMessage(file.value, Some(auth))] else [])
      && (file.Some? ==> r.sent[|s.sent| + 1].token == auth.token)
      && s.nextTimer in r.timers
      && (OneTimer(s) ==> r.timers.Keys == {s.nextTimer})
      && (file.Some? ==> KeepAliveMessage(r.timers[s.nextTimer]) == Some(KeepAlive(file.value.username, auth.token)))
  {
  }

  /** A `Success` reply with no token still overwrites the file (when the write
      succeeds) with a record whose token is missing, yet nothing is sent and the
      running interval keeps the token it captured. */
  lemma TokenlessSuccessOnlySaves(s: Session, msg: Inbound, first: HttpResponse, retry: HttpResponse, iso: string)
    requires !s.crashed && TriggersReauth(msg)
    requires ReAuthenticate(first, retry).Refreshed? && ReAuthenticate(first, retry).auth.token.None?
    ensures var r := MessageStep(s, msg, first, retry, true, iso);
      && r.file.Some? && r.file.value.token.None? && r.file.value.username == Some("admin")
      && r.sent == s.sent && r.timers == s.timers && r.intervalId == s.intervalId && !r.crashed
  {
  }

  /** At startup the keep-alive is handed the token string, whose `.token` is
      undefined, so every tick takes the token from the file read at open. */
  lemma StartupKeepAliveUsesFileToken(s: Session, connectConfig: Option<Credentials>)
    requires !s.crashed && connectConfig.Some? && s.file.Some?
    ensures var r := OpenStep(s, connectConfig);
      KeepAliveMessage(r.timers[s.nextTimer]) == Some(KeepAlive(s.file.value.username, s.file.value.token))
  {
  }

  // ---------------------------------------------------------------------------
  // The session object

  /** The module state of `ws/upstream/index.js` around one socket. */
  class UpstreamSession {
    /** `upstreamConfig`, read once in `connectUpstreamSocket`. */
    const connectConfig: Option<Credentials>
    var file: Option<Credentials>
    var sent: seq<Outbound>
    var forwarded: seq<Option<Vehicle.Sample>>
    var intervalId: Option<nat>
    var timers: map<nat, KeepAliveTimer>
    var nextTimer: nat
    var crashed: bool

    function State(): Session
      reads this
    {
      Session(file, sent, forwarded, intervalId, timers, nextTimer, crashed)
    }

    predicate Valid()
      reads this
    {
      OneTimer(State())
    }

    /** `connectUpstreamSocket` before the socket opens. */
    constructor (file: Option<Credentials>)
      ensures Valid()
      ensures connectConfig == file && State() == Session(file, [], [], None, map[], 0, false)
    {
      connectConfig := file;
      this.file := file;
      sent := [];
      forwarded := [];
      intervalId := None;
      timers := map[];
      nextTimer := 0;
      crashed := false;
    }

    method SendLogin(cred: Option<AuthData>)
      requires Valid()
      modifies this
      ensures Valid()
      ensures State() == LoginStep(old(State()), cred)
    {
      var config := file;
      if config.Some? {
        sent := sent + [LoginMessage(config.value, cred)];
      } else {
        crashed := true;
      }
    }

    method SendSubscribe()
      requires Valid()
      modifies this
      ensures Valid()
      ensures State() == old(State()).(sent := old(sent) + [Subscribe])
    {
      sent := sent + [Subscribe];
    }

    method StartKeepAlive(token: Option<string>)
      requires Valid()
      modifies this
      ensures Valid()
      ensures State() == KeepAliveStep(old(State()), token)
    {
      if intervalId.Some? {
        timers := timers - {intervalId.value};
      }
      var config := file;
      timers := timers[nextTimer := KeepAliveTimer(config, token)];
      intervalId := Some(nextTimer);
      nextTimer := nextTimer + 1;
    }

    method OnOpen()
      requires Valid()
      modifies this
      ensures Valid()
      ensures State() == OpenStep(old(State()), connectConfig)
    {
      if crashed {
        return;
      }
      SendSubscribe();
      if connectConfig.None? {
        crashed := true;
        return;
      }
      SendLogin(None);
      StartKeepAlive(None);
    }

    method OnTimer(id: nat)
      requires Valid() && id in timers
      modifies this
      ensures Valid()
      ensures State() == FireStep(old(State()), id)
    {
      if crashed {
        return;
      }
      var m := KeepAliveMessage(timers[id]);
      if m.Some? {
        sent := sent + [m.value];
      } else {
        crashed := true;
      }
    }

    /** `reAuthenticate` with the two request outcomes, and the save of the new
        credential, which fails silently when `saveOk` is false. */
    method Reauthenticate(first: HttpResponse, retry: HttpResponse, saveOk: bool, iso: string) returns (result: ReauthResult)
      modifies this
      ensures result == ReAuthenticate(first, retry)
      ensures State() == old(State()).(file := if result.Refreshed? && saveOk then Some(Saved(result.auth, iso)) else old(file))
    {
      var response := first;
      if AsksRetry(response) {
        response := retry;
      }
      result := Conclude(response);
      if result.Refreshed? && saveOk {
        file := Some(Saved(result.auth, iso));
      }
    }

    method OnMessage(msg: Inbound, first: HttpResponse, retry: HttpResponse, saveOk: bool, iso: string)
      requires Valid()
      modifies this
      ensures Valid()
      ensures State() == MessageStep(old(State()), msg, first, retry, saveOk, iso)
    {
      if crashed {
        return;
      }
      forwarded := forwarded + [if msg.payload.Some? then Some(msg.payload.value.vehicle) else None];
      if msg.payload.None? {
        crashed := true;
      } else if TriggersReauth(msg) {
        var result := Reauthenticate(first, retry, saveOk, iso);
        if result.Rethrown? {
          crashed := true;
        } else if result.Refreshed? && Vehicle.Truthy(result.auth.token) {
          SendSubscribe();
          SendLogin(Some(result.auth));
          StartKeepAlive(result.auth.token);
        }
      }
    }
  }
}
