/** `AbstractAction.execute`: compute the keyword arguments, run the class's
    `_execute`, and pass the descriptor it yields back to ssh over standard
    output. */
module Execution {
  import opened Values
  import opened Actions
  import CommandAction
  import JumpAction
  import TcpAction

  /** One `sendmsg` on descriptor 1: the data bytes and the descriptors
      passed as `SCM_RIGHTS` ancillary data. */
  datatype Message = Message(payload: seq<int>, fds: seq<int>)

  /** How the world answers: connection attempts, and the descriptor the
      parent keeps of a fresh socket pair. */
  datatype Env = Env(connect: TcpAction.Connect, pairFd: int)

  /** A program started in a forked child, as `execvp(program, argv)`. */
  datatype Child = Child(program: Value, argv: seq<Value>)

  /** What a successful `_execute` leaves behind: the descriptor to pass on,
      and the child started for it, if any. */
  datatype Handoff = Handoff(fd: int, child: Option<Child>)

  /** Standard output of the process, seen as the messages sent on it, and
      the children forked so far. */
  class Stdout {
    var sent: seq<Message>
    var children: seq<Child>

    constructor ()
      ensures sent == [] && children == []
    {
      sent := [];
      children := [];
    }

    /** `sendmsg([b'\0'], [(SOL_SOCKET, SCM_RIGHTS, fds)])` */
    method SendFd(fd: int)
      modifies this
      ensures sent == old(sent) + [Message([0], [fd])] && children == old(children)
    {
      sent := sent + [Message([0], [fd])];
    }

    /** The fork of the `command` action: the child runs the program. */
    method Spawn(child: Child)
      modifies this
      ensures children == old(children) + [child] && sent == old(sent)
    {
      children := children + [child];
    }
  }

  /** `_execute` of the action's class; a result without a descriptor
      (`tcp` running out of families) is the action error. */
  function Dispatch(a: Action, host: Value, port: int, actionarg: Value, ck: map<string, Value>, env: Env): Result<Handoff>
  {
    match a.kind
    case CommandKind =>
      var line :- CommandAction.CommandLine(a, host, port, actionarg, ck);
      Ok(Handoff(env.pairFd, Some(Child(line.0, line.1))))
    case JumpKind =>
      var line :- JumpAction.JumpLine(a, host, port, actionarg, ck);
      Ok(Handoff(env.pairFd, Some(Child(line.0, line.1))))
    case TcpKind =>
      var s :- TcpAction.Connection(a, host, port, env.connect);
      if s.None? then Err(ActionError) else Ok(Handoff(s.value, None))
  }

  /** `execute(host, port, actionarg, kwargs)`: host and port come from the
      rule parameters before the action's settings and the caller's values,
      the port converted with `int()`; `_execute` receives the overlaid
      keyword arguments. */
  function Outcome(a: Action, host: Value, port: Value, actionarg: Value, kwargs: map<string, Value>, env: Env): Result<Handoff>
  {
    var ck := Overlay(kwargs, actionarg, Keywords(a.kind));
    var h := ActionGet(a, "host", kwargs, host);
    var p :- ToInt(ActionGet(a, "port", kwargs, port));
    Dispatch(a, h, p, actionarg, ck, env)
  }

  /** The call of `_execute` on the action's class; a forked child is
      recorded on `out`. */
  method DispatchNow(a: Action, host: Value, port: int, actionarg: Value, ck: map<string, Value>, env: Env, out: Stdout)
    returns (r: Result<int>)
    modifies out
    ensures out.sent == old(out.sent)
    ensures match Dispatch(a, host, port, actionarg, ck, env)
            case Err(e) => r == Err(e) && out.children == old(out.children)
            case Ok(h) =>
              && r == Ok(h.fd)
              && out.children == old(out.children) + (if h.child.Some? then [h.child.value] else [])
  {
    match a.kind {
      case CommandKind =>
        var spawn := CommandAction.Execute(a, host, port, actionarg, ck, env.pairFd);
        if spawn.Err? {
          return Err(spawn.error);
        }
        out.Spawn(Child(spawn.value.program, spawn.value.argv));
        return Ok(spawn.value.fd);
      case JumpKind =>
        var spawn := JumpAction.Execute(a, host, port, actionarg, ck, env.pairFd);
        if spawn.Err? {
          return Err(spawn.error);
        }
        out.Spawn(Child(spawn.value.program, spawn.value.argv));
        return Ok(spawn.value.fd);
      case TcpKind =>
        var s := TcpAction.Execute(a, host, port, env.connect);
        if s.Err? {
          return Err(s.error);
        }
        if s.value.None? {
          return Err(ActionError);
        }
        return Ok(s.value.value);
    }
  }

  /** `AbstractAction.execute`: True once the descriptor has been sent;
      nothing is sent when anything fails. */
  method Execute(a: Action, host: Value, port: Value, actionarg: Value, kwargs: map<string, Value>, env: Env, out: Stdout)
    returns (r: Result<bool>)
    modifies out
    ensures match Outcome(a, host, port, actionarg, kwargs, env)
            case Err(e) => r == Err(e) && out.sent == old(out.sent) && out.children == old(out.children)
            case Ok(h) =>
              && r == Ok(true)
              && out.sent == old(out.sent) + [Message([0], [h.fd])]
              && out.children == old(out.children) + (if h.child.Some? then [h.child.value] else [])
  {
    var ck := CallKwargs(Keywords(a.kind), actionarg, kwargs);
    var h := ActionGet(a, "host", kwargs, host);
    var p := ToInt(ActionGet(a, "port", kwargs, port));
    if p.Err? {
      return Err(p.error);
    }
    var fd := DispatchNow(a, h, p.value, actionarg, ck, env, out);
    if fd.Err? {
      return Err(fd.error);
    }
    out.SendFd(fd.value);
    return Ok(true);
  }

  // ---------------------------------------------------------------- properties

  /** Every success hands over exactly one descriptor: a connected socket for
      `tcp`, the parent's half of the socket pair for the others, whose child
      is started for them and only for them. */
  lemma HandoffShape(a: Action, host: Value, port: Value, actionarg: Value, kwargs: map<string, Value>, env: Env)
    requires Outcome(a, host, port, actionarg, kwargs, env).Ok?
    ensures var h := Outcome(a, host, port, actionarg, kwargs, env).value;
            && (a.kind == TcpKind <==> h.child.None?)
            && (a.kind != TcpKind ==> h.fd == env.pairFd)
  {
  }

  /** A `host` or `port` rule parameter replaces what ssh asked for. */
  lemma RuleParametersWin(a: Action, host: Value, host': Value, port: Value, port': Value, actionarg: Value, kwargs: map<string, Value>, env: Env)
    requires "host" in kwargs && "port" in kwargs
    ensures Outcome(a, host, port, actionarg, kwargs, env) == Outcome(a, host', port', actionarg, kwargs, env)
  {
  }

  /** The family order of `tcp` is its own setting: an `aforder` rule
      parameter changes nothing. */
  lemma TcpIgnoresRuleOrder(a: Action, host: Value, port: Value, actionarg: Value, kwargs: map<string, Value>, order: Value, env: Env)
    requires a.kind == TcpKind && "aforder" !in kwargs
    ensures Outcome(a, host, port, actionarg, kwargs["aforder" := order], env) == Outcome(a, host, port, actionarg, kwargs, env)
  {
  }

  /** Running out of families is the action error, not a silent failure. */
  lemma TcpWithoutSocket(a: Action, host: Value, port: Value, actionarg: Value, kwargs: map<string, Value>, env: Env)
    requires a.kind == TcpKind
    requires var p := ToInt(ActionGet(a, "port", kwargs, port));
             p.Ok? && TcpAction.Connection(a, ActionGet(a, "host", kwargs, host), p.value, env.connect) == Ok(None)
    ensures Outcome(a, host, port, actionarg, kwargs, env) == Err(ActionError)
  {
  }

  /** A port that `int()` rejects stops the action before anything is tried. */
  lemma BadPortStops(a: Action, host: Value, port: Value, actionarg: Value, kwargs: map<string, Value>, env: Env)
    requires ToInt(ActionGet(a, "port", kwargs, port)).Err?
    ensures Outcome(a, host, port, actionarg, kwargs, env) == Err(ToInt(ActionGet(a, "port", kwargs, port)).error)
  {
  }

  /** The caller's port string, when no rule or setting overrides it, reaches
      the action as the number it spells. */
  lemma CallerPortParsed(a: Action, host: Value, n: int, actionarg: Value, kwargs: map<string, Value>, env: Env)
    requires "port" !in kwargs && "port" !in a.settings
    ensures Outcome(a, host, Str(IntToString(n)), actionarg, kwargs, env) ==
            Dispatch(a, ActionGet(a, "host", kwargs, host), n, actionarg, Overlay(kwargs, actionarg, Keywords(a.kind)), env)
  {
    ToIntOfDisplay(n);
  }
}
