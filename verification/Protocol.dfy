/** The vocabulary of the control plane: message types, payloads and lifecycle states. */
module Protocol {
  import opened Basics

  type MessageType = string

  const MSG_PING: MessageType := "ping"
  const MSG_INJECT_SECRET: MessageType := "inject_secret"
  const MSG_MOUNT: MessageType := "mount"
  const MSG_SHUTDOWN: MessageType := "shutdown"
  const MSG_SET_CONFIG: MessageType := "set_config"
  const MSG_INJECT_SSH_KEY: MessageType := "inject_ssh_key"
  const MSG_GET_HEALTH: MessageType := "get_health"

  type Byte = bv8
  type Bytes = seq<Byte>

  /** The wire frame; the payload stays encoded until its handler asks for it. */
  datatype Envelope = Envelope(msgType: MessageType, payload: Option<Bytes>)

  datatype LifecycleState = Booting | Ready | Healthy | Degraded | Shutdown

  datatype LifecyclePayload = LifecyclePayload(state: LifecycleState, message: string)

  datatype AgentStatus = AgentStatus(name: string, running: bool, session: string, restarts: int, error: string)

  /** The health report without its uptime, which is a clock reading. */
  datatype HealthPayload = HealthPayload(state: LifecycleState, agents: seq<AgentStatus>)

  datatype MountPayload = MountPayload(tag: string, guestPath: string, fsType: string, readOnly: bool)

  datatype SecretPayload = SecretPayload(name: string, value: string)

  datatype ShutdownPayload = ShutdownPayload(reason: string)

  /** Why an operation was refused; stands for the error texts of the handlers. */
  datatype Failure =
    | Malformed
    | BadPayload(msgType: MessageType)
    | UnknownType(msgType: MessageType)
    | EmptyTag | EmptyGuestPath | EmptyFsType | UnsupportedFsType | NotAbsolute | SystemDirectory
    | MkdirFailed | MountFailed
    | EmptySecretName | InvalidSecretName | WriteFailed | RenameFailed | RemoveFailed
    | ConfigWriteFailed | SshKeyFailed
    | UnknownPoweroffMode | PoweroffFailed

  datatype Result = Ok | Err(failure: Failure)

  /** What goes back to the host for one frame. */
  datatype Response =
    | Pong
    | Health(report: HealthPayload)
    | Ack(replyTo: MessageType, ok: bool, failure: Option<Failure>)

  function AckOf(msgType: MessageType, r: Result): Response
  {
    match r
    case Ok => Ack(msgType, true, None)
    case Err(failure) => Ack(msgType, false, Some(failure))
  }

  /** A handler gives a response, or an error that the server turns into an ack. */
  datatype Outcome = Answered(response: Response) | Failed(failure: Failure)

  /** The answer the protocol assigns to a well-formed frame. */
  predicate Answers(response: Response, msgType: MessageType)
  {
    match response
    case Pong => msgType == MSG_PING
    case Health(_) => msgType == MSG_GET_HEALTH
    case Ack(replyTo, ok, failure) => replyTo == msgType && ok == failure.None?
  }

  function ResponseTo(msgType: MessageType, outcome: Outcome): Response
  {
    match outcome
    case Answered(response) => response
    case Failed(failure) => Ack(msgType, false, Some(failure))
  }

  predicate HasRunning(agents: seq<AgentStatus>)
  {
    exists i :: 0 <= i < |agents| && agents[i].running
  }

  /** One running agent is enough, wherever it stands; none is not. */
  lemma {:induction false} RunningOneByOne(agents: seq<AgentStatus>, agent: AgentStatus)
    ensures !HasRunning([])
    ensures HasRunning(agents + [agent]) <==> HasRunning(agents) || agent.running
  {
    var more := agents + [agent];
    assert more[|agents|] == agent;
    if i :| 0 <= i < |agents| && agents[i].running {
      assert more[i].running;
    }
  }
}
