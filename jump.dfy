/** The `jump` action: an `ssh -W` through one or more jump hosts, run by
    the `command` action. */
module JumpAction {
  import opened Values
  import opened Common
  import opened Actions
  import opened CommandAction

  /** The jump hosts: a single string is one hop, a list is kept as it is;
      slicing any other value fails. */
  function Hops(actionarg: Value): (r: Result<seq<Value>>)
    ensures actionarg.Str? ==> r == Ok([actionarg])
    ensures actionarg.List? ==> r == Ok(actionarg.items)
    ensures r.Err? <==> !actionarg.Str? && !actionarg.List?
  {
    match actionarg
    case Str(_) => Ok([actionarg])
    case List(items) => Ok(items)
    case _ => Err(TypeErr)
  }

  /** The `-W` target, `[host]:port`. */
  function Target(h: string, p: string): string
  {
    "[" + h + "]:" + p
  }

  /** The `ssh` command handed to the `command` action: `-W` to the target,
      `-J` with all but the last hop joined by commas when there are several,
      and the last hop as the host to connect to. */
  function SshArgs(a: Action, host: Value, port: int, actionarg: Value, kwargs: map<string, Value>): Result<seq<Value>>
  {
    var h :- Display(ActionGet(a, "host", kwargs, host));
    var p :- Display(ActionGet(a, "port", kwargs, Int(port)));
    var hops :- Hops(actionarg);
    if |hops| == 0 then Err(IndexErr)
    else
      var head := [Str("ssh"), Str("-W"), Str(Target(h, p))];
      if |hops| > 1 then
        var via :- JoinValues(hops[..|hops| - 1], ',');
        Ok(head + [Str("-J"), Str(via)] + [hops[|hops| - 1]])
      else Ok(head + [hops[0]])
  }

  /** What the jump finally runs: `ssh` with the arguments above, each of them
      expanded once more by the `command` action. */
  function JumpLine(a: Action, host: Value, port: int, actionarg: Value, kwargs: map<string, Value>): Result<(Value, seq<Value>)>
  {
    var args :- SshArgs(a, host, port, actionarg, kwargs);
    CommandLine(a, host, port, List(args), kwargs)
  }

  /** `Action._execute` of `jump`: the `ssh` command built by successive
      appends, then the `command` action's `_execute` on it. */
  method Execute(a: Action, host: Value, port: int, actionarg: Value, kwargs: map<string, Value>, pairFd: int)
    returns (r: Result<Spawn>)
    ensures match JumpLine(a, host, port, actionarg, kwargs)
            case Err(e) => r == Err(e)
            case Ok((program, argv)) => r == Ok(Spawn(pairFd, program, argv))
  {
    var h := Display(ActionGet(a, "host", kwargs, host));
    if h.Err? {
      return Err(h.error);
    }
    var p := Display(ActionGet(a, "port", kwargs, Int(port)));
    if p.Err? {
      return Err(p.error);
    }
    var hops: seq<Value>;
    if actionarg.Str? {
      hops := [actionarg];
    } else if actionarg.List? {
      hops := actionarg.items;
    } else {
      return Err(TypeErr);
    }
    var args := [Str("ssh"), Str("-W"), Str(Target(h.value, p.value))];
    if |hops| == 0 {
      return Err(IndexErr);
    }
    var jumphost := hops[|hops| - 1];
    if |hops| > 1 {
      args := args + [Str("-J")];
      var via := JoinValues(hops[..|hops| - 1], ',');
      if via.Err? {
        return Err(via.error);
      }
      args := args + [Str(via.value)];
      assert args == [Str("ssh"), Str("-W"), Str(Target(h.value, p.value))] + [Str("-J"), Str(via.value)];
    }
    args := args + [jumphost];
    assert SshArgs(a, host, port, actionarg, kwargs) == Ok(args);
    r := CommandAction.Execute(a, host, port, List(args), kwargs, pairFd);
  }

  // ---------------------------------------------------------------- properties

  /** No text contains a `%`: the argument expansion of the `command` action
      then leaves every argument as the jump wrote it. */
  predicate Plain(v: Value)
  {
    v.Str? && '%' !in v.s
  }

  /** The arguments the jump writes when host, port and hops carry no `%`
      are themselves free of `%`. */
  lemma PlainArgs(a: Action, host: Value, port: int, actionarg: Value, kwargs: map<string, Value>, h: string, p: string, hops: seq<Value>)
    requires Display(ActionGet(a, "host", kwargs, host)) == Ok(h) && '%' !in h
    requires Display(ActionGet(a, "port", kwargs, Int(port))) == Ok(p) && '%' !in p
    requires Hops(actionarg) == Ok(hops) && |hops| > 0
    requires forall i :: 0 <= i < |hops| ==> Plain(hops[i])
    ensures var head := [Str("ssh"), Str("-W"), Str(Target(h, p))];
            JoinValues(hops[..|hops| - 1], ',').Ok? &&
            SshArgs(a, host, port, actionarg, kwargs) ==
              Ok(if |hops| > 1 then head + [Str("-J"), Str(JoinValues(hops[..|hops| - 1], ',').value)] + [hops[|hops| - 1]]
                 else head + [hops[0]])
    ensures forall i :: 0 <= i < |SshArgs(a, host, port, actionarg, kwargs).value| ==>
              Plain(SshArgs(a, host, port, actionarg, kwargs).value[i])
  {
    var init := hops[..|hops| - 1];
    assert forall i :: 0 <= i < |init| ==> init[i].Str?;
    if |hops| > 1 {
      var parts := seq(|init|, i requires 0 <= i < |init| => init[i].s);
      assert forall i :: 0 <= i < |parts| ==> '%' !in parts[i] by {
        forall i | 0 <= i < |parts| ensures '%' !in parts[i] {
          assert Plain(hops[i]);
        }
      }
      JoinHasNo(parts, ',', '%');
    }
  }

  /** A `command` line whose arguments all lack `%` runs its first word with
      the arguments unchanged. */
  lemma PlainCommandLine(a: Action, host: Value, port: int, args: seq<Value>, kwargs: map<string, Value>)
    requires |args| > 0 && Rules(a, host, port, kwargs).Ok?
    requires forall i :: 0 <= i < |args| ==> Plain(args[i])
    ensures CommandLine(a, host, port, List(args), kwargs) == Ok((args[0], args))
  {
    assert forall i :: 0 <= i < |args[1..]| ==> Plain(args[1..][i]);
    NoPlaceholdersVerbatim(args[1..], Rules(a, host, port, kwargs).value);
    assert [args[0]] + args[1..] == args;
  }

  /** When host, port and hops carry no `%`, the jump runs exactly
      `ssh -W [host]:port [-J hop,…,hop] lasthop`. */
  lemma PlainJump(a: Action, host: Value, port: int, actionarg: Value, kwargs: map<string, Value>, h: string, p: string, hops: seq<Value>)
    requires Display(ActionGet(a, "host", kwargs, host)) == Ok(h) && '%' !in h
    requires Display(ActionGet(a, "port", kwargs, Int(port))) == Ok(p) && '%' !in p
    requires Hops(actionarg) == Ok(hops) && |hops| > 0
    requires forall i :: 0 <= i < |hops| ==> Plain(hops[i])
    ensures var head := [Str("ssh"), Str("-W"), Str(Target(h, p))];
            JoinValues(hops[..|hops| - 1], ',').Ok? &&
            JumpLine(a, host, port, actionarg, kwargs) ==
              Ok((Str("ssh"), if |hops| > 1 then head + [Str("-J"), Str(JoinValues(hops[..|hops| - 1], ',').value)] + [hops[|hops| - 1]]
                              else head + [hops[0]]))
  {
    PlainArgs(a, host, port, actionarg, kwargs, h, p, hops);
    var args := SshArgs(a, host, port, actionarg, kwargs).value;
    PlainCommandLine(a, host, port, args, kwargs);
  }

  /** An empty hop list is an IndexError once host and port have been shown. */
  lemma NoHopsIndexError(a: Action, host: Value, port: int, kwargs: map<string, Value>)
    requires Display(ActionGet(a, "host", kwargs, host)).Ok?
    requires Display(ActionGet(a, "port", kwargs, Int(port))).Ok?
    ensures JumpLine(a, host, port, List([]), kwargs) == Err(IndexErr)
  {
  }

  /** The `-W` target is scanned for placeholders again: a host with a `%`,
      such as an IPv6 address with a zone, loses the `%` in front of the zone. */
  lemma ZoneRescanned(h: string, zone: string, p: string, rules: map<char, Value>)
    requires '%' !in h && '%' !in zone && '%' !in p
    requires |zone| > 0 && zone[0] !in rules
    ensures Scan(Target(h + "%" + zone, p), false, rules) == Some(Target(h + zone, p))
  {
    var pre, tail := "[" + h, zone[1..] + "]:" + p;
    assert Target(h + "%" + zone, p) == pre + (['%', zone[0]] + tail) by {
      assert zone == [zone[0]] + zone[1..];
    }
    assert Target(h + zone, p) == pre + ([zone[0]] + tail) by {
      assert zone == [zone[0]] + zone[1..];
    }
    assert '%' !in pre && '%' !in tail by {
      assert forall i :: 1 <= i < |zone| ==> zone[1..][i - 1] == zone[i];
    }
    NoPercentUnchanged(pre, rules);
    NoPercentLiteralState(pre);
    NoPercentUnchanged(tail, rules);
    ScanConcat(pre, ['%', zone[0]] + tail, false, rules);
    EscapedLiteral(zone[0], tail, rules);
  }
}
