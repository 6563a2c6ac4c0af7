/** The dispatcher of pkg/stereosd.go and the handlers of pkg/ipc.go: two surfaces over the
    same managers. */
module Daemons {
  import opened Basics
  import opened Protocol
  import opened Machines
  import opened Mounts
  import MountHistory
  import opened Secrets
  import opened Lifecycle

  /** JSON decoding of payloads, which is not part of this model: any partial functions.
      A shutdown payload is used as far as it decodes. */
  datatype Codec = Codec(
    envelope: Bytes -> Option<Envelope>,
    config: Bytes -> Option<string>,
    secret: Bytes -> Option<SecretPayload>,
    sshKey: Bytes -> Option<string>,
    mount: Bytes -> Option<MountPayload>,
    shutdown: Bytes -> ShutdownPayload)

  /** What the file system answers while one frame is handled. */
  datatype Outside = Outside(config: WriteOutcome, inject: InjectOutcome, sshOk: bool, mkdirOk: bool)

  /** The daemon's state as one value; `spawned` lists the shutdowns started so far. */
  datatype View = View(
    state: LifecycleState,
    agents: seq<AgentStatus>,
    secrets: Root,
    mounting: Mounting,
    config: Option<string>,
    spawned: seq<ShutdownPayload>)

  datatype Kind = Ping | GetHealth | SetConfig | InjectSecret | InjectSshKey | MountDir | DoShutdown | Unknown

  function KindOf(msgType: MessageType): Kind
  {
    if msgType == MSG_PING then Ping
    else if msgType == MSG_GET_HEALTH then GetHealth
    else if msgType == MSG_SET_CONFIG then SetConfig
    else if msgType == MSG_INJECT_SECRET then InjectSecret
    else if msgType == MSG_INJECT_SSH_KEY then InjectSshKey
    else if msgType == MSG_MOUNT then MountDir
    else if msgType == MSG_SHUTDOWN then DoShutdown
    else Unknown
  }

  function Decode<T>(decoder: Bytes -> Option<T>, env: Envelope): Option<T>
  {
    if env.payload.None? then None else decoder(env.payload.value)
  }

  function ConfigAfter(config: Option<string>, content: string, outcome: WriteOutcome): Option<string>
  {
    match outcome
    case Written => Some(content)
    case NotOpened => config
    case Cut(n) => Some(Prefix(content, n))
  }

  /** The shutdown payload of a frame; missing payloads give an empty reason. */
  function ShutdownOf(codec: Codec, env: Envelope): ShutdownPayload
  {
    if env.payload.Some? then codec.shutdown(env.payload.value) else ShutdownPayload("")
  }

  /** HandleMessage on values. */
  function Dispatch(codec: Codec, faults: Faults, v: View, env: Envelope, o: Outside): (View, Outcome)
  {
    match KindOf(env.msgType)
    case Ping => (v, Answered(Pong))
    case GetHealth => (v, Answered(Health(HealthPayload(v.state, v.agents))))
    case SetConfig => (
      match Decode(codec.config, env)
      case None => (v, Failed(BadPayload(env.msgType)))
      case Some(content) =>
        (v.(config := ConfigAfter(v.config, content, o.config)),
         Answered(AckOf(MSG_SET_CONFIG, if o.config.Written? then Ok else Err(ConfigWriteFailed)))))
    case InjectSecret => (
      match Decode(codec.secret, env)
      case None => (v, Failed(BadPayload(env.msgType)))
      case Some(p) =>
        var (secrets, r) := InjectStep(v.secrets, p.name, p.value, o.inject);
        (v.(secrets := secrets), Answered(AckOf(MSG_INJECT_SECRET, r))))
    case InjectSshKey => (
      match Decode(codec.sshKey, env)
      case None => (v, Failed(BadPayload(env.msgType)))
      case Some(_) => (v, Answered(AckOf(MSG_INJECT_SSH_KEY, if o.sshOk then Ok else Err(SshKeyFailed)))))
    case MountDir => (
      match Decode(codec.mount, env)
      case None => (v, Failed(BadPayload(env.msgType)))
      case Some(p) =>
        var (mounting, r) := MountStep(v.mounting, faults, p, o.mkdirOk);
        (v.(mounting := mounting), Answered(AckOf(MSG_MOUNT, r))))
    case DoShutdown =>
      (v.(spawned := v.spawned + [ShutdownOf(codec, env)]), Answered(AckOf(MSG_SHUTDOWN, Ok)))
    case Unknown => (v, Failed(UnknownType(env.msgType)))
  }

  class Daemon {
    const lifecycle: LifecycleManager
    const secrets: SecretManager
    const mounts: MountManager
    const codec: Codec
    var config: Option<string>
    var spawned: seq<ShutdownPayload>

    constructor (lifecycle: LifecycleManager, secrets: SecretManager, mounts: MountManager, codec: Codec)
      ensures this.lifecycle == lifecycle && this.secrets == secrets
      ensures this.mounts == mounts && this.codec == codec
      ensures config == None && spawned == []
    {
      this.lifecycle, this.secrets, this.mounts, this.codec := lifecycle, secrets, mounts, codec;
      config, spawned := None, [];
    }

    ghost function Now(): View
      reads this, lifecycle, lifecycle.agents, secrets.dir, mounts, mounts.commander
      requires lifecycle.Valid()
    {
      View(lifecycle.state, lifecycle.Agents(), secrets.dir.root, mounts.View(), config, spawned)
    }

    method HandleMessage(env: Envelope, o: Outside) returns (outcome: Outcome)
      requires lifecycle.Valid()
      modifies this, secrets.dir, mounts, mounts.commander
      ensures lifecycle.Valid()
      ensures (Now(), outcome) == Dispatch(codec, mounts.commander.faults, old(Now()), env, o)
    {
      match KindOf(env.msgType)
      case Ping =>
        outcome := Answered(Pong);
      case GetHealth =>
        var reported, agents := lifecycle.Health();
        outcome := Answered(Health(HealthPayload(reported, agents[..])));
      case SetConfig =>
        var payload := Decode(codec.config, env);
        if payload.None? { return Failed(BadPayload(env.msgType)); }
        config := ConfigAfter(config, payload.value, o.config);
        outcome := Answered(AckOf(MSG_SET_CONFIG, if o.config.Written? then Ok else Err(ConfigWriteFailed)));
      case InjectSecret =>
        var payload := Decode(codec.secret, env);
        if payload.None? { return Failed(BadPayload(env.msgType)); }
        var secret := new Secret(payload.value);
        var r := secrets.Inject(secret, o.inject);
        outcome := Answered(AckOf(MSG_INJECT_SECRET, r));
      case InjectSshKey =>
        var payload := Decode(codec.sshKey, env);
        if payload.None? { return Failed(BadPayload(env.msgType)); }
        outcome := Answered(AckOf(MSG_INJECT_SSH_KEY, if o.sshOk then Ok else Err(SshKeyFailed)));
      case MountDir =>
        var payload := Decode(codec.mount, env);
        if payload.None? { return Failed(BadPayload(env.msgType)); }
        var r := mounts.Mount(payload.value, o.mkdirOk);
        outcome := Answered(AckOf(MSG_MOUNT, r));
      case DoShutdown =>
        spawned := spawned + [ShutdownOf(codec, env)];
        outcome := Answered(AckOf(MSG_SHUTDOWN, Ok));
      case Unknown =>
        outcome := Failed(UnknownType(env.msgType));
    }
  }

  // ----- The HTTP surface -------------------------------------------------------------

  const SECRETS_PATH := "/v1/secrets/"

  /** strings.TrimPrefix with the route of the secrets. */
  function SecretName(path: string): string
  {
    if SECRETS_PATH <= path then path[|SECRETS_PATH|..] else path
  }

  lemma NameBehindRoute(name: string)
    ensures SecretName("/v1/secrets/" + name) == name
  {
    assert ("/v1/secrets/" + name)[|SECRETS_PATH|..] == name;
  }

  /** IPCServer: each handler takes the decoded body, or None for a body that is not JSON. */
  class IpcServer {
    const daemon: Daemon

    constructor (daemon: Daemon)
      ensures this.daemon == daemon
    {
      this.daemon := daemon;
    }

    method HandleInjectSecret(body: Option<SecretPayload>, o: Outside) returns (status: int)
      modifies daemon.secrets.dir
      ensures body.None? ==> status == 400 && unchanged(daemon.secrets.dir)
      ensures body.Some? ==>
        var (root, r) := InjectStep(old(daemon.secrets.dir.root), body.value.name, body.value.value, o.inject);
        daemon.secrets.dir.root == root && status == (if r.Ok? then 201 else 422)
    {
      if body.None? { return 400; }
      var secret := new Secret(body.value);
      var r := daemon.secrets.Inject(secret, o.inject);
      return if r.Err? then 422 else 201;
    }

    method HandleListSecrets(readable: bool) returns (status: int, names: seq<string>)
      ensures status == if readable && daemon.secrets.dir.root.Dir? then 200 else 500
      ensures forall i, j :: 0 <= i < j < |names| ==> names[i] != names[j]
      ensures status == 200 ==> forall name :: name in names <==> name in Visible(daemon.secrets.dir.root)
      ensures status != 200 ==> names == []
    {
      var listed := daemon.secrets.List(readable);
      if listed.None? { return 500, []; }
      return 200, listed.value;
    }

    /** The name is the decoded rest of the path, so it can be `.` or `/`. */
    method HandleDeleteSecret(path: string, removed: bool) returns (status: int)
      modifies daemon.secrets.dir
      ensures SecretName(path) == "" ==> status == 400 && unchanged(daemon.secrets.dir)
      ensures SecretName(path) != "" ==>
        var (root, r) := RemoveStep(old(daemon.secrets.dir.root), SecretName(path), removed);
        daemon.secrets.dir.root == root && status == (if r.Ok? then 200 else 422)
    {
      var name := SecretName(path);
      if name == "" { return 400; }
      var r := daemon.secrets.Remove(name, removed);
      return if r.Err? then 422 else 200;
    }

    method HandleMount(body: Option<MountPayload>, o: Outside) returns (status: int)
      modifies daemon.mounts, daemon.mounts.commander
      ensures body.None? ==>
        status == 400 && unchanged(daemon.mounts) && unchanged(daemon.mounts.commander)
      ensures body.Some? ==>
        var faults := daemon.mounts.commander.faults;
        var (mounting, r) := MountStep(old(daemon.mounts.View()), faults, body.value, o.mkdirOk);
        daemon.mounts.View() == mounting && status == (if r.Ok? then 201 else 422)
    {
      if body.None? { return 400; }
      var r := daemon.mounts.Mount(body.value, o.mkdirOk);
      return if r.Err? then 422 else 201;
    }

    method HandleListMounts() returns (status: int, listed: array<MountPayload>)
      ensures status == 200 && fresh(listed) && listed[..] == daemon.mounts.mounts
    {
      listed := daemon.mounts.ActiveMounts();
      status := 200;
    }

    /** A body that is not JSON still starts a shutdown, with what did decode. */
    method HandleShutdown(body: ShutdownPayload) returns (status: int)
      modifies daemon`spawned
      ensures daemon.spawned == old(daemon.spawned) + [body] && status == 202
    {
      daemon.spawned := daemon.spawned + [body];
      return 202;
    }
  }

  // ----- Laws of the dispatcher -------------------------------------------------------

  /** Every frame the dispatcher sees is answered in kind: pong to ping, health to
      get_health, and otherwise an ack that names the frame's own type. */
  lemma DispatchAnswers(codec: Codec, faults: Faults, v: View, env: Envelope, o: Outside)
    ensures Answers(ResponseTo(env.msgType, Dispatch(codec, faults, v, env, o).1), env.msgType)
    ensures Dispatch(codec, faults, v, env, o).1.Failed? ==> Dispatch(codec, faults, v, env, o).0 == v
  {
  }

  /** Ping and get_health change nothing. A ping is answered with a pong, and get_health with a
      report that shows the state and the agent list of this moment. */
  lemma HealthShowsNow(codec: Codec, faults: Faults, v: View, env: Envelope, o: Outside)
    ensures env.msgType == "ping" ==> Dispatch(codec, faults, v, env, o) == (v, Answered(Pong))
    ensures env.msgType == "get_health" ==>
      var (after, outcome) := Dispatch(codec, faults, v, env, o);
      && after == v && outcome.Answered? && outcome.response.Health?
      && outcome.response.report.state == v.state && outcome.response.report.agents == v.agents
  {
  }

  /** Which frames are errors of the handler: those of an unknown type, and those whose payload
      is missing or does not decode where one is needed. */
  lemma FailsIff(codec: Codec, faults: Faults, v: View, env: Envelope, o: Outside)
    ensures var outcome := Dispatch(codec, faults, v, env, o).1;
      && (outcome == Failed(UnknownType(env.msgType)) <==>
            env.msgType !in {"ping", "get_health", "set_config", "inject_secret", "inject_ssh_key",
                             "mount", "shutdown"})
      && (outcome == Failed(BadPayload(env.msgType)) <==> Undecoded(codec, env))
      && (outcome.Failed? ==>
            outcome.failure == UnknownType(env.msgType) || outcome.failure == BadPayload(env.msgType))
  {
  }

  /** The frame needs a payload and has none that decodes. */
  predicate Undecoded(codec: Codec, env: Envelope)
  {
    || (env.msgType == "set_config" && (env.payload.None? || codec.config(env.payload.value).None?))
    || (env.msgType == "inject_secret" && (env.payload.None? || codec.secret(env.payload.value).None?))
    || (env.msgType == "inject_ssh_key" && (env.payload.None? || codec.sshKey(env.payload.value).None?))
    || (env.msgType == "mount" && (env.payload.None? || codec.mount(env.payload.value).None?))
  }

  /** What a decoded frame does: the acknowledgement carries the result of the operation on the
      decoded payload, and says no exactly when that failed. */
  lemma AcksTellResults(codec: Codec, faults: Faults, v: View, env: Envelope, o: Outside)
    requires !Undecoded(codec, env)
    ensures var (after, outcome) := Dispatch(codec, faults, v, env, o);
      && (env.msgType == "inject_secret" ==>
            var p := codec.secret(env.payload.value).value;
            var (secrets, r) := InjectStep(v.secrets, p.name, p.value, o.inject);
            after == v.(secrets := secrets) && Carries(outcome, env.msgType, r))
      && (env.msgType == "mount" ==>
            var p := codec.mount(env.payload.value).value;
            var (mounting, r) := MountStep(v.mounting, faults, p, o.mkdirOk);
            after == v.(mounting := mounting) && Carries(outcome, env.msgType, r))
      && (env.msgType == "inject_ssh_key" ==>
            after == v && Carries(outcome, env.msgType, if o.sshOk then Ok else Err(SshKeyFailed)))
      && (env.msgType == "set_config" ==>
            var content := codec.config(env.payload.value).value;
            && after == v.(config := after.config)
            && Carries(outcome, env.msgType, if o.config == Written then Ok else Err(ConfigWriteFailed))
            && (o.config == Written ==> after.config == Some(content))
            && (o.config == NotOpened ==> after.config == v.config)
            && (after.config != v.config ==> after.config.Some? && after.config.value <= content))
      && (env.msgType == "shutdown" ==>
            && Carries(outcome, env.msgType, Ok) && after == v.(spawned := after.spawned)
            && |after.spawned| == |v.spawned| + 1 && v.spawned <= after.spawned
            && Last(after.spawned)
              == if env.payload.None? then ShutdownPayload("") else codec.shutdown(env.payload.value))
  {
  }

  /** The outcome is an acknowledgement of this type with this result. */
  predicate Carries(outcome: Outcome, msgType: MessageType, r: Result)
  {
    && outcome.Answered? && outcome.response.Ack? && outcome.response.replyTo == msgType
    && outcome.response.ok == r.Ok?
    && outcome.response.failure == (if r.Ok? then None else Some(r.failure))
  }

  /** A negative ack to a mount, or to an inject, means that nothing a reader can see has
      changed: not the tracked list nor the mount table, nor the visible secrets. */
  lemma NackChangesNothing(codec: Codec, faults: Faults, v: View, env: Envelope, o: Outside)
    requires KindOf(env.msgType) in {MountDir, InjectSecret}
    requires !ResponseTo(env.msgType, Dispatch(codec, faults, v, env, o).1).ok
    ensures var after := Dispatch(codec, faults, v, env, o).0;
      && after.mounting.tracked == v.mounting.tracked
      && after.mounting.machine.table == v.mounting.machine.table
      && Visible(after.secrets) == Visible(v.secrets)
      && after.spawned == v.spawned && after.config == v.config
  {
    if KindOf(env.msgType) == InjectSecret && Decode(codec.secret, env).Some? {
      var p := Decode(codec.secret, env).value;
      StepRefines(v.secrets, Inject(p.name, p.value, o.inject));
    }
  }

  /** A positive ack means that the request has been carried out, and nothing else: the wanted
      mount is the newest of the table and tracked, the secret reads back, the configuration
      is the one sent, and a shutdown has been started with the frame's payload. */
  lemma AckMeansDone(codec: Codec, faults: Faults, v: View, env: Envelope, o: Outside)
    requires Dispatch(codec, faults, v, env, o).1.Answered?
    requires Dispatch(codec, faults, v, env, o).1.response == Ack(env.msgType, true, None)
    ensures var after := Dispatch(codec, faults, v, env, o).0;
      && (env.msgType == "mount" ==>
            var p := codec.mount(env.payload.value).value;
            && after == v.(mounting := after.mounting)
            && after.mounting.tracked == v.mounting.tracked + [p]
            && after.mounting.machine.table == v.mounting.machine.table + [Wanted(p)])
      && (env.msgType == "inject_secret" ==>
            var p := codec.secret(env.payload.value).value;
            && after == v.(secrets := after.secrets)
            && Read(after.secrets, p.name) == Some(p.value))
      && (env.msgType == "set_config" ==> after == v.(config := codec.config(env.payload.value)))
      && (env.msgType == "inject_ssh_key" ==> after == v)
      && (env.msgType == "shutdown" ==> after == v.(spawned := v.spawned + [ShutdownOf(codec, env)]))
  {
    if env.msgType == "mount" {
      var p := codec.mount(env.payload.value).value;
      MountHistory.MountEffect(v.mounting, faults, p, o.mkdirOk);
    } else if env.msgType == "inject_secret" {
      var p := codec.secret(env.payload.value).value;
      InjectStoresItsValue(v.secrets, p.name, p.value, o.inject);
    }
  }
}
