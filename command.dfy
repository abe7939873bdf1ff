/** The `command` action: the argument vector of the program it starts on
    the child half of a socket pair, whose parent half goes back to ssh. */
module CommandAction {
  import opened Values
  import opened Common
  import opened Actions

  /** The parent's half of the socket pair, and what the child executes:
      `execvp(program, argv)`. */
  datatype Spawn = Spawn(fd: int, program: Value, argv: seq<Value>)

  /** Program and argument list: from the action's `command` and `args`
      settings without an actionarg, from a non-empty list actionarg otherwise. */
  function Invocation(a: Action, actionarg: Value, kwargs: map<string, Value>): (r: Result<(Value, Value)>)
    ensures actionarg.Null? ==> r == Ok((ActionGet(a, "command", kwargs, Null), ActionGet(a, "args", kwargs, Null)))
    ensures actionarg.List? && |actionarg.items| > 0 ==>
              r == Ok((actionarg.items[0], List(actionarg.items[1..])))
    ensures r.Err? <==> !actionarg.Null? && !(actionarg.List? && |actionarg.items| > 0)
    ensures r.Err? ==> r.error == GenericError
  {
    if actionarg.Null? then Ok((ActionGet(a, "command", kwargs, Null), ActionGet(a, "args", kwargs, Null)))
    else if actionarg.List? && |actionarg.items| > 0 then Ok((actionarg.items[0], List(actionarg.items[1..])))
    else Err(GenericError)
  }

  /** The substitution rules: `%h` is the host and `%p` the port as text, each
      from the rule parameters, else the settings, else the caller. */
  function Rules(a: Action, host: Value, port: int, kwargs: map<string, Value>): Result<map<char, Value>>
  {
    match Display(ActionGet(a, "port", kwargs, Int(port)))
    case Err(e) => Err(e)
    case Ok(p) => Ok(map['h' := ActionGet(a, "host", kwargs, host), 'p' := Str(p)])
  }

  /** `argparse` of every argument in order, stopping at the first failure. */
  function ExpandAll(args: seq<Value>, rules: map<char, Value>): Result<seq<Value>>
  {
    if args == [] then Ok([])
    else
      match Expand(args[0], rules)
      case Err(e) => Err(e)
      case Ok(s) =>
        match ExpandAll(args[1..], rules)
        case Err(e) => Err(e)
        case Ok(rest) => Ok([Str(s)] + rest)
  }

  /** Every argument expands, one output per input in the same order, or the
      error is that of an argument that does not. */
  lemma {:induction false} ExpandAllMeaning(args: seq<Value>, rules: map<char, Value>)
    ensures ExpandAll(args, rules).Ok? <==> forall i :: 0 <= i < |args| ==> Expand(args[i], rules).Ok?
    ensures ExpandAll(args, rules).Ok? ==>
              |ExpandAll(args, rules).value| == |args| &&
              forall i :: 0 <= i < |args| ==> ExpandAll(args, rules).value[i] == Str(Expand(args[i], rules).value)
    ensures ExpandAll(args, rules).Err? ==>
              exists i :: 0 <= i < |args| && Expand(args[i], rules) == Err(ExpandAll(args, rules).error)
  {
    if args != [] {
      ExpandAllMeaning(args[1..], rules);
      assert forall i :: 1 <= i < |args| ==> args[1..][i - 1] == args[i];
      if Expand(args[0], rules).Ok? && ExpandAll(args[1..], rules).Err? {
        var j :| 0 <= j < |args[1..]| && Expand(args[1..][j], rules) == Err(ExpandAll(args[1..], rules).error);
        assert Expand(args[j + 1], rules) == Err(ExpandAll(args, rules).error);
      }
    }
  }

  /** Arguments without a `%` are passed through verbatim. */
  lemma {:induction false} NoPlaceholdersVerbatim(args: seq<Value>, rules: map<char, Value>)
    requires forall i :: 0 <= i < |args| ==> args[i].Str? && '%' !in args[i].s
    ensures ExpandAll(args, rules) == Ok(args)
  {
    if args != [] {
      NoPercentUnchanged(args[0].s, rules);
      NoPlaceholdersVerbatim(args[1..], rules);
      assert [args[0]] + args[1..] == args;
    }
  }

  /** The full argument vector: the program verbatim, then every argument expanded. */
  function CommandLine(a: Action, host: Value, port: int, actionarg: Value, kwargs: map<string, Value>): Result<(Value, seq<Value>)>
  {
    var inv :- Invocation(a, actionarg, kwargs);
    var rules :- Rules(a, host, port, kwargs);
    var args :- Iterate(inv.1);
    var expanded :- ExpandAll(args, rules);
    Ok((inv.0, [inv.0] + expanded))
  }

  /** The vector has the program first and one expanded entry per argument, in order. */
  lemma CommandLineShape(a: Action, host: Value, port: int, items: seq<Value>, kwargs: map<string, Value>)
    requires |items| > 0
    requires CommandLine(a, host, port, List(items), kwargs).Ok?
    ensures var (program, argv) := CommandLine(a, host, port, List(items), kwargs).value;
            var rules := Rules(a, host, port, kwargs).value;
            && program == items[0] && |argv| == |items| && argv[0] == items[0]
            && forall i :: 1 <= i < |items| ==> argv[i].Str? && Expand(items[i], rules) == Ok(argv[i].s)
  {
    var rules := Rules(a, host, port, kwargs).value;
    ExpandAllMeaning(items[1..], rules);
    var expanded := ExpandAll(items[1..], rules).value;
    forall i | 1 <= i < |items|
      ensures ([items[0]] + expanded)[i].Str? && Expand(items[i], rules) == Ok(([items[0]] + expanded)[i].s)
    {
      assert items[1..][i - 1] == items[i];
    }
  }

  /** The loop of `Action._execute` that appends each expanded argument to
      the list started with the program. */
  method ExpandArgs(items: seq<Value>, rules: map<char, Value>) returns (r: Result<seq<Value>>)
    ensures r == ExpandAll(items, rules)
  {
    var expanded: seq<Value> := [];
    assert items[0..] == items;
    if ExpandAll(items, rules).Ok? {
      assert [] + ExpandAll(items, rules).value == ExpandAll(items, rules).value;
    }
    for i := 0 to |items|
      invariant var rest := ExpandAll(items[i..], rules);
                ExpandAll(items, rules) == if rest.Err? then rest else Ok(expanded + rest.value)
    {
      assert items[i..][1..] == items[i + 1..];
      var s := ArgParse(items[i], rules);
      if s.Err? {
        return Err(s.error);
      }
      var rest := ExpandAll(items[i + 1..], rules);
      if rest.Ok? {
        assert expanded + [Str(s.value)] + rest.value == expanded + ([Str(s.value)] + rest.value);
      }
      expanded := expanded + [Str(s.value)];
    }
    assert items[|items|..] == [];
    assert expanded + [] == expanded;
    return Ok(expanded);
  }

  /** `Action._execute`: program and arguments, the rules, the expanded
      vector, then the fork; the parent keeps `pairFd`, its half of the
      socket pair. */
  method Execute(a: Action, host: Value, port: int, actionarg: Value, kwargs: map<string, Value>, pairFd: int)
    returns (r: Result<Spawn>)
    ensures match CommandLine(a, host, port, actionarg, kwargs)
            case Err(e) => r == Err(e)
            case Ok((program, argv)) => r == Ok(Spawn(pairFd, program, argv))
  {
    var command: Value;
    var myargs: Value;
    if actionarg.Null? {
      command := ActionGet(a, "command", kwargs, Null);
      myargs := ActionGet(a, "args", kwargs, Null);
    } else if actionarg.List? && |actionarg.items| > 0 {
      command := actionarg.items[0];
      myargs := List(actionarg.items[1..]);
    } else {
      return Err(GenericError);
    }
    var rules := Rules(a, host, port, kwargs);
    if rules.Err? {
      return Err(rules.error);
    }
    var args := Iterate(myargs);
    if args.Err? {
      return Err(args.error);
    }
    var expanded := ExpandArgs(args.value, rules.value);
    if expanded.Err? {
      return Err(expanded.error);
    }
    return Ok(Spawn(pairFd, command, [command] + expanded.value));
  }
}
