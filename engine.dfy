/** The rule engine: the candidate rules for a host, the action and
    parameters of a rule, the registries built at start-up, and the loop
    that dispatches the first rule that applies. */
module Engine {
  import opened Values
  import opened Tests
  import opened Actions
  import Execution

  // ---------------------------------------------------------------- candidate rules

  /** The rule appended to every candidate list: a plain `tcp` connection. */
  function Fallback(): Value
  {
    Dict(map["action" := Str("tcp")])
  }

  /** `get_my_rules(host, port, rules)`: the rules under `host:port`, then those
      under `host`, then the fallback; `+=` on a list takes the elements of
      whatever it is given. */
  function GetMyRules(host: string, port: string, rules: map<string, Value>): Result<seq<Value>>
  {
    var exact :- Iterate(Get(rules, host + ":" + port, List([])));
    var byHost :- Iterate(Get(rules, host, List([])));
    Ok(exact + byHost + [Fallback()])
  }

  /** The list is never empty and always ends with the fallback. */
  lemma FallbackLast(host: string, port: string, rules: map<string, Value>)
    requires GetMyRules(host, port, rules).Ok?
    ensures var c := GetMyRules(host, port, rules).value;
            |c| > 0 && c[|c| - 1] == Fallback()
  {
  }

  /** List-valued entries contribute their rules in config order, `host:port`
      first. */
  lemma RulesInOrder(host: string, port: string, rules: map<string, Value>, exact: seq<Value>, byHost: seq<Value>)
    requires Get(rules, host + ":" + port, List([])) == List(exact)
    requires Get(rules, host, List([])) == List(byHost)
    ensures GetMyRules(host, port, rules) == Ok(exact + byHost + [Fallback()])
  {
  }

  /** A host without rules of its own gets exactly the fallback. */
  lemma OnlyFallback(host: string, port: string, rules: map<string, Value>)
    requires host + ":" + port !in rules && host !in rules
    ensures GetMyRules(host, port, rules) == Ok([Fallback()])
  {
    RulesInOrder(host, port, rules, [], []);
    assert [] + [] + [Fallback()] == [Fallback()];
  }

  // ---------------------------------------------------------------- action parameters

  predicate StartsWith(s: string, prefix: string)
  {
    |prefix| <= |s| && s[..|prefix|] == prefix
  }

  /** The rests of the keys that start with `prefix`. */
  function Suffixes(keys: set<string>, prefix: string): set<string>
  {
    set k | k in keys && StartsWith(k, prefix) :: k[|prefix|..]
  }

  /** A rest belongs to the set exactly when the prefixed key does. */
  lemma SuffixesIn(keys: set<string>, prefix: string)
    ensures forall s :: s in Suffixes(keys, prefix) <==> prefix + s in keys
  {
    forall s ensures s in Suffixes(keys, prefix) <==> prefix + s in keys {
      var k := prefix + s;
      assert StartsWith(k, prefix) && k[|prefix|..] == s;
      if s in Suffixes(keys, prefix) {
        var k' :| k' in keys && StartsWith(k', prefix) && k'[|prefix|..] == s;
        assert k' == k'[..|prefix|] + k'[|prefix|..] == k;
      }
    }
  }

  /** The rule keys that start with `prefix`, with the prefix removed. */
  function Strip(entries: map<string, Value>, prefix: string): (params: map<string, Value>)
    ensures forall s :: s in params <==> prefix + s in entries
    ensures forall s :: s in params ==> params[s] == entries[prefix + s]
  {
    SuffixesIn(entries.Keys, prefix);
    map s | s in Suffixes(entries.Keys, prefix) :: entries[prefix + s]
  }

  /** `get_action_params(rule)`: the action's name, its argument (None for
      a plain name) and the rule parameters addressed to it. */
  function ActionParams(rule: Value): Result<(string, Value, map<string, Value>)>
  {
    if !rule.Dict? then Err(AttributeErr)
    else if "action" !in rule.entries then Err(GenericError)
    else
      match rule.entries["action"]
      case Str(name) => Ok((name, Null, Strip(rule.entries, name + ".")))
      case Dict(d) =>
        if |d| == 1 then
          var name := OnlyKey(d);
          Ok((name, d[name], Strip(rule.entries, name + ".")))
        else Err(GenericError)
      case _ => Err(GenericError)
  }

  /** Errors for a non-dict rule and for a missing or malformed `action`;
      otherwise the name, the argument of a one-key dict action, and the
      keys under `NAME.` with the prefix removed. */
  lemma ActionParamsMeaning(rule: Value)
    ensures var r := ActionParams(rule);
            && (!rule.Dict? ==> r == Err(AttributeErr))
            && (rule.Dict? && "action" !in rule.entries ==> r == Err(GenericError))
            && (r.Ok? ==> r.value.2 == Strip(rule.entries, r.value.0 + "."))
            && (r.Ok? && rule.entries["action"].Str? ==> r.value.0 == rule.entries["action"].s && r.value.1 == Null)
            && (r.Ok? && rule.entries["action"].Dict? ==>
                  rule.entries["action"].entries.Keys == {r.value.0} && r.value.1 == rule.entries["action"].entries[r.value.0])
            && (rule.Dict? && "action" in rule.entries ==>
                  (r.Ok? <==> rule.entries["action"].Str? || (rule.entries["action"].Dict? && |rule.entries["action"].entries| == 1)))
  {
  }

  /** The loop of `get_action_params` that collects the parameters with
      `setdefault`; distinct keys never collide once the prefix is gone. */
  method CollectParams(entries: map<string, Value>, prefix: string) returns (params: map<string, Value>)
    ensures params == Strip(entries, prefix)
  {
    params := map[];
    var keys := entries.Keys;
    ghost var done: set<string> := {};
    while keys != {}
      invariant keys + done == entries.Keys && keys !! done
      invariant forall s :: s in params <==> prefix + s in done
      invariant forall s :: s in params ==> params[s] == entries[prefix + s]
      decreases keys
    {
      var i :| i in keys;
      if StartsWith(i, prefix) {
        var s := i[|prefix|..];
        assert i == i[..|prefix|] + i[|prefix|..] == prefix + s;
        if s !in params {
          params := params[s := entries[i]];
        } else {
          assert false;
        }
      }
      keys := keys - {i};
      done := done + {i};
      forall s | prefix + s == i ensures StartsWith(i, prefix) {
        assert i[..|prefix|] == prefix;
      }
    }
  }

  /** `get_action_params(rule)` as written. */
  method GetActionParams(rule: Value) returns (r: Result<(string, Value, map<string, Value>)>)
    ensures r == ActionParams(rule)
  {
    if !rule.Dict? {
      return Err(AttributeErr);
    }
    if "action" !in rule.entries {
      return Err(GenericError);
    }
    var myaction := rule.entries["action"];
    var name: string;
    var actionargs := Null;
    if myaction.Str? {
      name := myaction.s;
    } else if myaction.Dict? {
      if |myaction.entries| == 1 {
        name := OnlyKey(myaction.entries);
        actionargs := myaction.entries[name];
      } else {
        return Err(GenericError);
      }
    } else {
      return Err(GenericError);
    }
    var params := CollectParams(rule.entries, name + ".");
    return Ok((name, actionargs, params));
  }

  /** `{action: NAME, NAME.host: v}` runs NAME with `host` set to `v`. */
  lemma PrefixedParameter(name: string, v: Value)
    ensures ActionParams(Dict(map["action" := Str(name), name + ".host" := v])) == Ok((name, Null, map["host" := v]))
  {
    StripHost(name, v);
  }

  /** `NAME.host` is not `action`, and of the two the prefix `NAME.`
      addresses only the former. */
  lemma StripHost(name: string, v: Value)
    ensures name + ".host" != "action"
    ensures Strip(map["action" := Str(name), name + ".host" := v], name + ".") == map["host" := v]
  {
    var prefix := name + ".";
    var entries := map["action" := Str(name), prefix + "host" := v];
    assert prefix + "host" == name + ".host";
    var params := Strip(entries, prefix);
    forall s ensures prefix + s != "action" {
      DottedNotAction(name, s);
    }
    forall s ensures prefix + s == prefix + "host" ==> s == "host" {
      PrefixCancels(prefix, s, "host");
    }
    assert params.Keys == {"host"} && params["host"] == v;
    assert params == map["host" := v];
  }

  /** A rule with nothing but a plain action name runs it without
      parameters; the fallback is such a rule for `tcp`. */
  lemma BareAction(name: string)
    ensures ActionParams(Dict(map["action" := Str(name)])) == Ok((name, Null, map[]))
  {
    var prefix := name + ".";
    forall s ensures prefix + s != "action" {
      DottedNotAction(name, s);
    }
    assert Strip(map["action" := Str(name)], prefix) == map[];
  }

  /** A key under the prefix `NAME.` contains a dot, so it is never `action`. */
  lemma DottedNotAction(name: string, s: string)
    ensures name + "." + s != "action"
  {
    assert (name + "." + s)[|name|] == '.';
  }

  /** Two keys under the same prefix are equal only when their rests are. */
  lemma PrefixCancels(prefix: string, s: string, t: string)
    ensures prefix + s == prefix + t ==> s == t
  {
    assert (prefix + s)[|prefix|..] == s;
    assert (prefix + t)[|prefix|..] == t;
  }

  // ---------------------------------------------------------------- registries

  /** `m.setdefault(k, v)`: an existing entry stays. */
  function SetDefault<V>(m: map<string, V>, k: string, v: V): map<string, V>
  {
    if k in m then m else m[k := v]
  }

  /** `setdefault` of each pair in turn. */
  function SetDefaults<V>(m: map<string, V>, pairs: seq<(string, V)>): map<string, V>
  {
    if pairs == [] then m
    else SetDefault(SetDefaults(m, pairs[..|pairs| - 1]), pairs[|pairs| - 1].0, pairs[|pairs| - 1].1)
  }

  lemma SetDefaultsSnoc<V>(m: map<string, V>, pairs: seq<(string, V)>, p: (string, V))
    ensures SetDefaults(m, pairs + [p]) == SetDefault(SetDefaults(m, pairs), p.0, p.1)
  {
    assert (pairs + [p])[..|pairs|] == pairs;
  }

  /** Every name given is registered, and nothing else is added. */
  lemma {:induction false} SetDefaultsKeys<V>(m: map<string, V>, pairs: seq<(string, V)>)
    ensures SetDefaults(m, pairs).Keys == m.Keys + set i | 0 <= i < |pairs| :: pairs[i].0
  {
    if pairs != [] {
      var init := pairs[..|pairs| - 1];
      SetDefaultsKeys(m, init);
      assert forall i :: 0 <= i < |init| ==> init[i] == pairs[i];
      assert (set i | 0 <= i < |pairs| :: pairs[i].0) ==
             (set i | 0 <= i < |init| :: init[i].0) + {pairs[|pairs| - 1].0};
    }
  }

  /** Every value registered is one given before or one of the pairs. */
  lemma {:induction false} SetDefaultsValues<V>(m: map<string, V>, pairs: seq<(string, V)>)
    ensures SetDefaults(m, pairs).Values <= m.Values + set i | 0 <= i < |pairs| :: pairs[i].1
  {
    if pairs != [] {
      var init := pairs[..|pairs| - 1];
      SetDefaultsValues(m, init);
      var prev, p := SetDefaults(m, init), pairs[|pairs| - 1];
      forall v | v in SetDefault(prev, p.0, p.1).Values
        ensures v in prev.Values || v == p.1
      {
        var k :| k in SetDefault(prev, p.0, p.1) && SetDefault(prev, p.0, p.1)[k] == v;
        if k != p.0 || p.0 in prev {
          assert prev[k] == v;
        }
      }
      assert forall i :: 0 <= i < |init| ==> init[i] == pairs[i];
      assert pairs[|pairs| - 1].1 in set i | 0 <= i < |pairs| :: pairs[i].1;
    }
  }

  /** First wins: an entry registered before stays. */
  lemma {:induction false} EarlierStays<V>(m: map<string, V>, pairs: seq<(string, V)>, k: string)
    requires k in m
    ensures k in SetDefaults(m, pairs) && SetDefaults(m, pairs)[k] == m[k]
  {
    if pairs != [] {
      EarlierStays(m, pairs[..|pairs| - 1], k);
    }
  }

  /** First wins: a new name holds the value of its first pair, whatever
      follows under the same name. */
  lemma {:induction false} FirstWins<V>(m: map<string, V>, pairs: seq<(string, V)>, i: nat)
    requires i < |pairs| && pairs[i].0 !in m
    requires forall j :: 0 <= j < i ==> pairs[j].0 != pairs[i].0
    ensures pairs[i].0 in SetDefaults(m, pairs) && SetDefaults(m, pairs)[pairs[i].0] == pairs[i].1
  {
    var init := pairs[..|pairs| - 1];
    if i == |pairs| - 1 {
      SetDefaultsKeys(m, init);
      assert forall j :: 0 <= j < |init| ==> init[j] == pairs[j];
    } else {
      assert forall j :: 0 <= j <= i ==> init[j] == pairs[j];
      FirstWins(m, init, i);
    }
  }

  /** The keyword arguments a registry entry is built with:
      `settings.get(section, {}).get(name, {})`. */
  function SectionKwargs(settings: map<string, Value>, section: string, name: string): (r: Result<map<string, Value>>)
    ensures section !in settings ==> r == Ok(map[])
    ensures section in settings && settings[section].Dict? && name !in settings[section].entries ==> r == Ok(map[])
    ensures section in settings && settings[section].Dict? && name in settings[section].entries &&
              settings[section].entries[name].Dict? ==>
              r == Ok(settings[section].entries[name].entries)
    ensures r.Err? <==> (section in settings && !settings[section].Dict?) ||
                        (section in settings && settings[section].Dict? && name in settings[section].entries &&
                         !settings[section].entries[name].Dict?)
  {
    var sec := Get(settings, section, Dict(map[]));
    if !sec.Dict? then Err(AttributeErr)
    else
      var entry := Get(sec.entries, name, Dict(map[]));
      if entry.Dict? then Ok(entry.entries) else Err(TypeErr)
  }

  /** The built-in actions in module order, each from its settings. */
  function BuiltinActions(settings: map<string, Value>): Result<seq<(string, Action)>>
  {
    var command :- SectionKwargs(settings, "actions", "command");
    var jump :- SectionKwargs(settings, "actions", "jump");
    var tcp :- SectionKwargs(settings, "actions", "tcp");
    Ok([("command", NewAction(CommandKind, command)), ("jump", NewAction(JumpKind, jump)), ("tcp", NewAction(TcpKind, tcp))])
  }

  /** One rule visited by `run`: its action, argument and parameters,
      whether it has a test, and whether it was accepted. */
  datatype Visit = Visit(name: string, actionarg: Value, params: map<string, Value>, tested: bool, accepted: bool)

  /** A registered test as the rule loop sees it: its class, its settings,
      and what `evaluate()` without overrides yields for it. */
  datatype Registered = Registered(kind: Kind, settings: map<string, Value>, outcome: Result<bool>)

  /** What `parse_test(testdef, _tests).evaluate()` yields: the error of a
      definition that does not parse, the answer of a registered test, or
      the verdict of a new test built from the parent with the given target,
      whose local address is probed from its own settings. */
  function Answer(testdef: Value, probe: Probe, registered: map<string, Registered>): Result<bool>
  {
    match Classify(testdef, registered.Keys, map[])
    case Err(e) => Err(e)
    case Ok(Existing(name)) => registered[name].outcome
    case Ok(Derived(parent, target)) =>
      var p := registered[parent];
      var s := Update(Update(Tests.Defaults(p.kind), p.settings), map["target" := target]);
      Judge(p.kind, s, probe(Get(s, "dsthost", Null), Get(s, "dstport", Null)))
  }

  /** What `run` makes of one rule: the error of its action or of its test,
      or its visit, accepted when it has no test or its test is true. */
  function Decide(rule: Value, probe: Probe, registered: map<string, Registered>): Result<Visit>
  {
    var (name, actionarg, params) :- ActionParams(rule);
    if rule.Dict? && "test" in rule.entries then
      var verdict :- Answer(rule.entries["test"], probe, registered);
      Ok(Visit(name, actionarg, params, true, verdict))
    else Ok(Visit(name, actionarg, params, false, true))
  }

  /** A test that does not parse is its error; a registered name answers
      what that test's `evaluate()` yields; a one-key dict is the verdict of
      a test with the parent's class, the parent's settings over the class
      defaults, and the given target. */
  lemma AnswerMeaning(testdef: Value, probe: Probe, registered: map<string, Registered>)
    ensures var c := Classify(testdef, registered.Keys, map[]);
            var r := Answer(testdef, probe, registered);
            && (c.Err? ==> r == Err(c.error))
            && (testdef.Str? && testdef.s in registered ==> r == registered[testdef.s].outcome)
            && (c.Ok? && c.value.Derived? ==>
                  var p := registered[c.value.parent];
                  var s := Update(Update(Tests.Defaults(p.kind), p.settings), map["target" := c.value.target]);
                  && Get(s, "target", Null) == c.value.target
                  && (forall k :: k in p.settings && k != "target" ==> s[k] == p.settings[k])
                  && r == Judge(p.kind, s, probe(Get(s, "dsthost", Null), Get(s, "dstport", Null))))
  {
  }

  /** A rule with a malformed action fails before its test is looked at; a
      rule without a test is accepted; a rule with a test is accepted
      exactly when its test answers true, and fails with the test's error. */
  lemma DecideMeaning(rule: Value, probe: Probe, registered: map<string, Registered>)
    ensures var r := Decide(rule, probe, registered);
            && (ActionParams(rule).Err? ==> r == Err(ActionParams(rule).error))
            && (r.Ok? ==> Visited(rule, r.value) && (r.value.tested || r.value.accepted))
            && (ActionParams(rule).Ok? && "test" !in rule.entries ==> r.Ok? && r.value.accepted)
            && (ActionParams(rule).Ok? && "test" in rule.entries ==>
                  var a := Answer(rule.entries["test"], probe, registered);
                  (a.Err? ==> r == Err(a.error)) && (a.Ok? ==> r.Ok? && r.value.accepted == a.value))
  {
  }

  /** The module-global registries `_tests` and `_actions`. */
  class Registry {
    var tests: map<string, Test>
    var actions: map<string, Action>

    /** Every registered test keeps its caches consistent. */
    ghost predicate Valid()
      reads this, tests.Values
    {
      forall t :: t in tests.Values ==> t.Valid()
    }

    constructor ()
      ensures tests == map[] && actions == map[] && Valid()
    {
      tests := map[];
      actions := map[];
    }

    /** `tests.setdefault(name, t)` */
    method Register(name: string, t: Test)
      requires Valid() && t.Valid()
      modifies this
      ensures Valid() && actions == old(actions)
      ensures tests == SetDefault(old(tests), name, t)
      ensures forall u :: u in tests.Values ==> u in old(tests).Values || u == t
      ensures old(Unevaluated(tests)) && t.result == None && t.cache == map[] ==> Unevaluated(tests)
    {
      tests := SetDefault(tests, name, t);
    }

    /** `parse_test(testdef, _tests, **kwargs)` for a user test, in terms of
        the registry. */
    method ParseUserTest(testdef: Value, kw: map<string, Value>) returns (r: Result<Test>)
      requires Valid()
      ensures r.Ok? ==>
                && r.value.Valid()
                && (r.value in tests.Values || (fresh(r.value) && r.value.result == None && r.value.cache == map[]))
      ensures r.Ok? ==> ParsedAgainst(tests, testdef, Ok(kw), r.value)
      ensures r.Err? ==> Classify(testdef, tests.Keys, kw) == Err(r.error)
    {
      r := ParseTest(testdef, tests, kw);
    }

    /** One user test of `load_config`: its keyword arguments from the
        `tests` section, `parse_test` against the tests registered so far,
        then `setdefault` under its name. */
    method AddUserTest(settings: map<string, Value>, name: string, testdef: Value) returns (r: Result<Test>)
      requires Valid()
      modifies this
      ensures Valid() && actions == old(actions)
      ensures forall t :: t in tests.Values ==> t in old(tests).Values || fresh(t)
      ensures old(Unevaluated(tests)) ==> Unevaluated(tests)
      ensures r.Ok? ==>
                && tests == SetDefault(old(tests), name, r.value)
                && ParsedAgainst(old(tests), testdef, SectionKwargs(settings, "tests", name), r.value)
      ensures r.Err? ==>
                && tests == old(tests)
                && var kw := SectionKwargs(settings, "tests", name);
                   if kw.Err? then r.error == kw.error else Classify(testdef, tests.Keys, kw.value) == Err(r.error)
    {
      var kw := SectionKwargs(settings, "tests", name);
      if kw.Err? {
        return Err(kw.error);
      }
      r := ParseUserTest(testdef, kw.value);
      if r.Ok? {
        Register(name, r.value);
      }
    }

    /** The user tests of `load_config`, in configuration order: each is
        parsed against the tests registered before it, then registered with
        `setdefault`; `added` holds the name and test of each in turn. */
    method AddUserTests(settings: map<string, Value>, users: seq<(string, Value)>)
      returns (r: Result<bool>, ghost added: seq<(string, Test)>)
      requires Valid()
      modifies this
      ensures Valid() && actions == old(actions)
      ensures forall t :: t in tests.Values ==> t in old(tests).Values || fresh(t)
      ensures old(Unevaluated(tests)) ==> Unevaluated(tests)
      ensures r.Ok? ==> r.value && tests == SetDefaults(old(tests), added) && Replayed(old(tests), users, settings, added)
    {
      added := [];
      for i := 0 to |users|
        invariant Valid() && actions == old(actions)
        invariant forall t :: t in tests.Values ==> t in old(tests).Values || fresh(t)
        invariant |added| == i
        invariant tests == SetDefaults(old(tests), added)
        invariant Replayed(old(tests), users[..i], settings, added)
        invariant old(Unevaluated(tests)) ==> Unevaluated(tests)
      {
        var (name, testdef) := users[i];
        var t := AddUserTest(settings, name, testdef);
        if t.Err? {
          return Err(t.error), added;
        }
        SetDefaultsSnoc(old(tests), added, (name, t.value));
        ReplayedSnoc(old(tests), users, settings, added, i, (name, t.value));
        added := added + [(name, t.value)];
      }
      assert users[..|users|] == users;
      return Ok(true), added;
    }

    /** The built-in part of `load_config`: the test `ipv4range` from its
        section settings, registered with `setdefault`, then the built-in
        actions in module order, each registered with `setdefault`; the
        result is the new `ipv4range` test. */
    method AddBuiltins(settings: map<string, Value>) returns (r: Result<Test>)
      requires Valid()
      modifies this
      ensures Valid()
      ensures forall t :: t in tests.Values ==> t in old(tests).Values || fresh(t)
      ensures old(Unevaluated(tests)) ==> Unevaluated(tests)
      ensures r.Ok? ==>
                && fresh(r.value) && r.value.kind == Ipv4RangeTest
                && SectionKwargs(settings, "tests", "ipv4range").Ok?
                && r.value.settings == Snapshot(Ipv4RangeTest, [], SectionKwargs(settings, "tests", "ipv4range").value)
                && BuiltinActions(settings).Ok?
                && actions == SetDefaults(old(actions), BuiltinActions(settings).value)
                && tests == SetDefaults(old(tests), [("ipv4range", r.value)])
      ensures r.Err? ==>
                if SectionKwargs(settings, "tests", "ipv4range").Err?
                then r.error == SectionKwargs(settings, "tests", "ipv4range").error
                else BuiltinActions(settings).Err? && r.error == BuiltinActions(settings).error
    {
      var kw := SectionKwargs(settings, "tests", "ipv4range");
      if kw.Err? {
        return Err(kw.error);
      }
      var ipv4range := new Test(Ipv4RangeTest, [], kw.value);
      ghost var unevaluated := old(Unevaluated(tests));
      Register("ipv4range", ipv4range);
      assert unevaluated ==> Unevaluated(tests);
      var builtins := BuiltinActions(settings);
      if builtins.Err? {
        return Err(builtins.error);
      }
      actions := SetDefaults(actions, builtins.value);
      r := Ok(ipv4range);
    }

    /** `load_config` after the configuration file is read: the built-in
        test, the built-in actions in module order, then the user tests, all
        registered with `setdefault`; `added` starts with the built-in test. */
    method LoadConfig(settings: map<string, Value>, users: seq<(string, Value)>)
      returns (r: Result<bool>, ghost added: seq<(string, Test)>)
      requires Valid()
      modifies this
      ensures Valid()
      ensures forall t :: t in tests.Values ==> t in old(tests).Values || fresh(t)
      ensures old(Unevaluated(tests)) ==> Unevaluated(tests)
      ensures r.Ok? ==>
                && r.value && 0 < |added| && fresh(added[0].1)
                && Loaded(old(tests), old(actions), settings, users, added, tests, actions)
    {
      added := [];
      var builtins := AddBuiltins(settings);
      if builtins.Err? {
        return Err(builtins.error), added;
      }
      ghost var ipv4range := builtins.value;
      ghost var first := [("ipv4range", ipv4range)];
      ghost var users' := [];
      r, users' := AddUserTests(settings, users);
      added := first + users';
      if r.Ok? {
        Concatenated(old(tests), first[0], users', |users'|);
        assert users'[..|users'|] == users' && added[..1] == first && added[1..] == users';
      }
    }

    /** What the rule loop can observe of the registered tests: each
        test's class, settings and answer to `evaluate()`. */
    ghost function View(probe: Probe): (v: map<string, Registered>)
      reads this, tests.Values
      ensures v.Keys == tests.Keys
    {
      map name | name in tests :: Registered(tests[name].kind, tests[name].settings, tests[name].Outcome(probe))
    }

    /** `parse_test(testdef, _tests).evaluate()`: a named test answers
        from its cache once it has one, a derived test is built and
        evaluated afresh. */
    method Consult(testdef: Value, probe: Probe) returns (r: Result<bool>)
      requires Valid()
      modifies tests.Values
      ensures Valid() && View(probe) == old(View(probe))
      ensures r == Answer(testdef, probe, View(probe))
      ensures Classify(testdef, tests.Keys, map[]).Err? ==> r == Err(Classify(testdef, tests.Keys, map[]).error)
      ensures testdef.Str? && Classify(testdef, tests.Keys, map[]) == Ok(Existing(testdef.s)) &&
              old(tests[testdef.s].result).Some? ==>
                r == Ok(old(tests[testdef.s].result).value)
    {
      var t := ParseTest(testdef, tests, map[]);
      if t.Err? {
        return Err(t.error);
      }
      r := t.value.Evaluate(map[], probe);
    }

    /** One rule of `run`'s loop: its action parameters, then its test if it
        has one; a rule without a test is accepted outright. */
    method Step(rule: Value, probe: Probe) returns (r: Result<Visit>)
      requires Valid()
      modifies tests.Values
      ensures Valid() && View(probe) == old(View(probe))
      ensures r == Decide(rule, probe, View(probe))
      ensures r.Ok? ==> Visited(rule, r.value) && (r.value.accepted || r.value.tested)
      ensures ActionParams(rule).Err? ==> r == Err(ActionParams(rule).error)
    {
      var params := GetActionParams(rule);
      if params.Err? {
        return Err(params.error);
      }
      var (name, actionarg, ps) := params.value;
      var tested := "test" in rule.entries;
      var accepted := true;
      if tested {
        var verdict := Consult(rule.entries["test"], probe);
        if verdict.Err? {
          return Err(verdict.error);
        }
        accepted := verdict.value;
      }
      return Ok(Visit(name, actionarg, ps, tested, accepted));
    }

    /** The rule loop of `run`, up to the rule it dispatches: the rules are
        decided in order, and the loop stops at the first error or at the
        first rule accepted.  `visits` records each rule decided; running
        off the end of the list is `Ok(None)`.  The tests keep their
        answers, so each rule decides in the final state as it did when
        it was reached. */
    method Select(rs: seq<Value>, probe: Probe) returns (r: Result<Option<Visit>>, ghost visits: seq<Visit>)
      requires Valid()
      modifies tests.Values
      ensures Valid() && View(probe) == old(View(probe))
      ensures |visits| <= |rs| && forall i :: 0 <= i < |visits| ==> Decide(rs[i], probe, View(probe)) == Ok(visits[i])
      ensures forall i :: 0 <= i < |visits| - 1 ==> !visits[i].accepted
      ensures r == Ok(None) ==> |visits| == |rs| && forall i :: 0 <= i < |visits| ==> !visits[i].accepted
      ensures r.Ok? && r.value.Some? ==> 0 < |visits| && r.value.value == visits[|visits| - 1] && r.value.value.accepted
      ensures r.Err? ==>
                && |visits| < |rs| && Decide(rs[|visits|], probe, View(probe)) == Err(r.error)
                && forall i :: 0 <= i < |visits| ==> !visits[i].accepted
    {
      visits := [];
      ghost var registered := View(probe);
      ghost var decisions := seq(|rs|, j requires 0 <= j < |rs| => Decide(rs[j], probe, registered));
      for i := 0 to |rs|
        invariant |visits| == i
        invariant forall j :: 0 <= j < i ==> decisions[j] == Ok(visits[j]) && !visits[j].accepted
        invariant Valid() && View(probe) == registered
      {
        var v := Step(rs[i], probe);
        assert v == decisions[i];
        if v.Err? {
          return Err(v.error), visits;
        }
        if v.value.accepted {
          visits := visits + [v.value];
          return Ok(Some(v.value)), visits;
        }
        Rejected(decisions, visits, v.value);
        visits := visits + [v.value];
      }
      return Ok(None), visits;
    }

    /** The rule loop of `run` over a candidate list: the first rule without
        a test, or whose test evaluates true, is dispatched and its result
        returned; the action parameters of each visited rule are computed
        before its test.  Running off the end of the list is `Ok(false)`
        (Python's implicit `None`). */
    method RunCandidates(host: string, port: string, rs: seq<Value>, env: Execution.Env, probe: Probe,
                         out: Execution.Stdout)
      returns (r: Result<bool>, ghost visits: seq<Visit>)
      requires Valid()
      modifies out, tests.Values
      ensures Valid() && View(probe) == old(View(probe))
      ensures |visits| <= |rs| && forall i :: 0 <= i < |visits| ==> Decide(rs[i], probe, View(probe)) == Ok(visits[i])
      ensures forall i :: 0 <= i < |visits| - 1 ==> !visits[i].accepted
      ensures r.Ok? ==> Tried(rs, visits)
      ensures r == Ok(false) ==>
                && |visits| == |rs| && out.sent == old(out.sent)
                && forall i :: 0 <= i < |visits| ==> visits[i].tested && !visits[i].accepted
      ensures r == Ok(true) ==> Chose(rs, visits, View(probe), probe, actions, host, port, env, old(out.sent), out.sent)
      ensures r.Err? ==> out.sent == old(out.sent)
      ensures r.Err? && (visits == [] || !visits[|visits| - 1].accepted) ==>
                |visits| < |rs| && Decide(rs[|visits|], probe, View(probe)) == Err(r.error)
      ensures r.Err? && visits != [] && visits[|visits| - 1].accepted ==>
                var v := visits[|visits| - 1];
                if v.name in actions
                then Execution.Outcome(actions[v.name], Str(host), Str(port), v.actionarg, v.params, env) == Err(r.error)
                else r == Err(KeyErr)
    {
      var chosen;
      chosen, visits := Select(rs, probe);
      forall i | 0 <= i < |visits|
        ensures Visited(rs[i], visits[i]) && (visits[i].tested || visits[i].accepted)
      {
        DecideMeaning(rs[i], probe, View(probe));
      }
      if chosen.Err? {
        return Err(chosen.error), visits;
      }
      if chosen.value.None? {
        return Ok(false), visits;
      }
      var v := chosen.value.value;
      if v.name !in actions {
        return Err(KeyErr), visits;
      }
      r := Fire(actions[v.name], host, port, v.actionarg, v.params, env, out);
    }

    /** `run` after `load_config`: the candidate rules of the host and port,
        then the rule loop; the fallback rule has no test, so the loop never
        runs off the end. */
    method RunRules(host: string, port: string, rules: map<string, Value>, env: Execution.Env, probe: Probe,
                    out: Execution.Stdout)
      returns (r: Result<bool>, ghost visits: seq<Visit>)
      requires Valid()
      modifies out, tests.Values
      ensures Valid() && View(probe) == old(View(probe))
      ensures r.Ok? ==>
                && r == Ok(true) && GetMyRules(host, port, rules).Ok?
                && Chose(GetMyRules(host, port, rules).value, visits, View(probe), probe, actions, host, port, env,
                         old(out.sent), out.sent)
      ensures r.Err? ==> out.sent == old(out.sent)
    {
      visits := [];
      var candidates := GetMyRules(host, port, rules);
      if candidates.Err? {
        return Err(candidates.error), visits;
      }
      r, visits := RunCandidates(host, port, candidates.value, env, probe, out);
      if r.Ok? && !r.value {
        FallbackLast(host, port, rules);
        assert false;
      }
    }
  }

  /** `execute(host, port, actionargs, actionparams)` of the chosen action. */
  method Fire(a: Action, host: string, port: string, actionarg: Value, params: map<string, Value>, env: Execution.Env,
              out: Execution.Stdout)
    returns (r: Result<bool>)
    modifies out
    ensures r.Ok? ==> r == Ok(true) && Dispatched(a, host, port, actionarg, params, env, old(out.sent), out.sent)
    ensures r.Err? ==> out.sent == old(out.sent) && Execution.Outcome(a, Str(host), Str(port), actionarg, params, env) == Err(r.error)
  {
    r := Execution.Execute(a, Str(host), Str(port), actionarg, params, env, out);
  }

  /** The rule loop ended by dispatching the last of `visits`: each visit is
      what its rule decides, every visit but the last was of a rule whose
      test failed, and the last was accepted and its registered action sent
      exactly one descriptor. */
  ghost predicate Chose(rs: seq<Value>, visits: seq<Visit>, registered: map<string, Registered>, probe: Probe,
                        actions: map<string, Action>, host: string, port: string, env: Execution.Env,
                        before: seq<Execution.Message>, after: seq<Execution.Message>)
  {
    && 0 < |visits| && Tried(rs, visits)
    && (forall i :: 0 <= i < |visits| ==> Decide(rs[i], probe, registered) == Ok(visits[i]))
    && var v := visits[|visits| - 1];
       && v.accepted && v.name in actions
       && Dispatched(actions[v.name], host, port, v.actionarg, v.params, env, before, after)
  }

  /** The action's outcome succeeded and exactly one message went to ssh:
      one byte of payload carrying the outcome's descriptor. */
  ghost predicate Dispatched(a: Action, host: string, port: string, actionarg: Value, params: map<string, Value>,
                             env: Execution.Env, before: seq<Execution.Message>, after: seq<Execution.Message>)
  {
    var o := Execution.Outcome(a, Str(host), Str(port), actionarg, params, env);
    o.Ok? && after == before + [Execution.Message([0], [o.value.fd])]
  }

  /** The visits are of the first rules of the list in order, and every one
      but the last had a test that did not pass. */
  ghost predicate Tried(rs: seq<Value>, visits: seq<Visit>)
  {
    && |visits| <= |rs|
    && (forall i :: 0 <= i < |visits| ==> Visited(rs[i], visits[i]))
    && (forall i :: 0 <= i < |visits| - 1 ==> visits[i].tested && !visits[i].accepted)
  }

  /** One more rule decided and rejected, after rules that were all rejected. */
  lemma Rejected(decisions: seq<Result<Visit>>, visits: seq<Visit>, v: Visit)
    requires |visits| < |decisions| && decisions[|visits|] == Ok(v) && !v.accepted
    requires forall j :: 0 <= j < |visits| ==> decisions[j] == Ok(visits[j]) && !visits[j].accepted
    ensures forall j :: 0 <= j < |visits| + 1 ==> decisions[j] == Ok((visits + [v])[j]) && !(visits + [v])[j].accepted
  {
  }

  /** A visit records the rule's action parameters and whether it has a test. */
  ghost predicate Visited(rule: Value, v: Visit)
  {
    && rule.Dict?
    && ActionParams(rule) == Ok((v.name, v.actionarg, v.params))
    && v.tested == ("test" in rule.entries)
  }

  /** The user test at place `i` was registered under its own name and is
      what `parse_test` gave for it against the registry of the pairs
      before it. */
  lemma {:induction false} ReplayedAt(m: map<string, Test>, users: seq<(string, Value)>, settings: map<string, Value>,
                                      added: seq<(string, Test)>, i: nat)
    requires Replayed(m, users, settings, added) && i < |users|
    ensures |added| == |users| && added[i].0 == users[i].0
    ensures ParsedAgainst(SetDefaults(m, added[..i]), users[i].1, SectionKwargs(settings, "tests", users[i].0), added[i].1)
    decreases |users|
  {
    var n := |users| - 1;
    if i < n {
      ReplayedAt(m, users[..n], settings, added[..n], i);
      assert added[..n][..i] == added[..i];
    }
  }

  /** Every user test was registered under its own name and is what
      `parse_test` gave for it against the registry of the pairs before it. */
  lemma ReplayedMeaning(m: map<string, Test>, users: seq<(string, Value)>, settings: map<string, Value>, added: seq<(string, Test)>)
    requires Replayed(m, users, settings, added)
    ensures |added| == |users|
    ensures forall i :: 0 <= i < |users| ==> added[i].0 == users[i].0
    ensures forall i :: 0 <= i < |users| ==>
              ParsedAgainst(SetDefaults(m, added[..i]), users[i].1, SectionKwargs(settings, "tests", users[i].0), added[i].1)
  {
    forall i | 0 <= i < |users|
      ensures added[i].0 == users[i].0
      ensures ParsedAgainst(SetDefaults(m, added[..i]), users[i].1, SectionKwargs(settings, "tests", users[i].0), added[i].1)
    {
      ReplayedAt(m, users, settings, added, i);
    }
  }

  /** Replaying one more user test extends the replayed list by its pair. */
  lemma ReplayedSnoc(m: map<string, Test>, users: seq<(string, Value)>, settings: map<string, Value>, added: seq<(string, Test)>,
                     i: nat, pair: (string, Test))
    requires i < |users| && Replayed(m, users[..i], settings, added)
    requires pair.0 == users[i].0
    requires ParsedAgainst(SetDefaults(m, added), users[i].1, SectionKwargs(settings, "tests", users[i].0), pair.1)
    ensures Replayed(m, users[..i + 1], settings, added + [pair])
  {
    assert users[..i + 1][..i] == users[..i];
    assert (added + [pair])[..|added|] == added;
  }

  /** Each pair of `added` is the test `parse_test` gave for the user test in
      the same place, parsed against the registry of the pairs before it. */
  ghost predicate Replayed(m: map<string, Test>, users: seq<(string, Value)>, settings: map<string, Value>, added: seq<(string, Test)>)
    decreases |users|
  {
    |users| == |added| &&
    (users == [] ||
     var n := |users| - 1;
     && Replayed(m, users[..n], settings, added[..n])
     && added[n].0 == users[n].0
     && ParsedAgainst(SetDefaults(m, added[..n]), users[n].1, SectionKwargs(settings, "tests", users[n].0), added[n].1))
  }

  /** What `parse_test` gave for a user test, in terms of the registry it
      was parsed against: the named test itself, or a new test of the
      parent's class whose settings are the class defaults, then the
      parent's settings, then the test's own settings with its target. */
  ghost predicate ParsedAgainst(registered: map<string, Test>, testdef: Value, kw: Result<map<string, Value>>, t: Test)
  {
    && kw.Ok?
    && match Classify(testdef, registered.Keys, kw.value)
       case Ok(Existing(name)) => t == registered[name]
       case Ok(Derived(parent, target)) =>
         var p := registered[parent];
         && t.kind == p.kind
         && t.settings == Update(Update(Tests.Defaults(p.kind), p.settings), kw.value["target" := target])
       case Err(_) => false
  }

  /** Registering one pair and then a list is registering the joined list. */
  lemma {:induction false} Concatenated<V>(m: map<string, V>, first: (string, V), rest: seq<(string, V)>, n: nat)
    requires n <= |rest|
    ensures SetDefaults(SetDefaults(m, [first]), rest[..n]) == SetDefaults(m, [first] + rest[..n])
  {
    if n > 0 {
      Concatenated(m, first, rest, n - 1);
      assert rest[..n][..n - 1] == rest[..n - 1];
      assert ([first] + rest[..n])[..n] == [first] + rest[..n - 1];
    } else {
      assert [first] + rest[..0] == [first];
    }
  }

  /** What `load_config` registers, starting from the registries `tests0`
      and `actions0`: first the built-in test `ipv4range` with its section
      settings, then the built-in actions, then the user tests in order,
      each what `parse_test` gave against the registry before it; all
      first-wins. */
  ghost predicate Loaded(tests0: map<string, Test>, actions0: map<string, Action>, settings: map<string, Value>,
                         users: seq<(string, Value)>, added: seq<(string, Test)>,
                         tests: map<string, Test>, actions: map<string, Action>)
  {
    && |added| == |users| + 1
    && added[0].0 == "ipv4range" && added[0].1.kind == Ipv4RangeTest
    && SectionKwargs(settings, "tests", "ipv4range").Ok?
    && added[0].1.settings == Snapshot(Ipv4RangeTest, [], SectionKwargs(settings, "tests", "ipv4range").value)
    && BuiltinActions(settings).Ok?
    && actions == SetDefaults(actions0, BuiltinActions(settings).value)
    && tests == SetDefaults(tests0, added)
    && Replayed(SetDefaults(tests0, added[..1]), users, settings, added[1..])
  }

  /** No test of the registry has been evaluated or has probed its local
      address yet. */
  ghost predicate Unevaluated(tests: map<string, Test>)
    reads tests.Values
  {
    forall t :: t in tests.Values ==> t.result == None && t.cache == map[]
  }

  /** Every test of the snapshot answers as a test not yet evaluated: the
      verdict over its own settings and a probe of its own `dsthost` and
      `dstport`. */
  ghost predicate Unprobed(registered: map<string, Registered>, probe: Probe)
  {
    forall n :: n in registered ==>
      var t := registered[n];
      t.outcome == Judge(t.kind, t.settings, probe(Get(t.settings, "dsthost", Null), Get(t.settings, "dstport", Null)))
  }

  /** `load_config()` into the empty module-global registries: on success
      they hold what `load_config` registers, and no test has been
      evaluated yet. */
  method LoadGlobals(settings: map<string, Value>, users: seq<(string, Value)>, probe: Probe)
    returns (r: Result<bool>, reg: Registry, ghost added: seq<(string, Test)>)
    ensures fresh(reg) && reg.Valid() && forall t :: t in reg.tests.Values ==> fresh(t)
    ensures r.Ok? ==> Loaded(map[], map[], settings, users, added, reg.tests, reg.actions)
    ensures r.Ok? ==> Unprobed(reg.View(probe), probe)
  {
    reg := new Registry();
    r, added := reg.LoadConfig(settings, users);
    if r.Ok? {
      assert Unevaluated(reg.tests);
    }
  }

  /** `run()`: host and port from the command line (IndexError when either
      is missing), the registries built by `load_config` from nothing, then
      the rule loop over the configured rules. */
  method Run(argv: seq<string>, settings: map<string, Value>, users: seq<(string, Value)>, rules: map<string, Value>,
             env: Execution.Env, probe: Probe, out: Execution.Stdout)
    returns (r: Result<bool>, reg: Registry, ghost added: seq<(string, Test)>, ghost visits: seq<Visit>)
    modifies out
    ensures |argv| < 3 ==> r == Err(IndexErr)
    ensures r.Ok? ==> Loaded(map[], map[], settings, users, added, reg.tests, reg.actions)
    ensures r.Ok? ==> Unprobed(reg.View(probe), probe)
    ensures r.Ok? ==>
              && r == Ok(true) && fresh(reg)
              && GetMyRules(argv[1], argv[2], rules).Ok?
              && Chose(GetMyRules(argv[1], argv[2], rules).value, visits, reg.View(probe), probe, reg.actions,
                       argv[1], argv[2], env, old(out.sent), out.sent)
    ensures r.Err? ==> out.sent == old(out.sent)
  {
    added, visits := [], [];
    if |argv| < 3 {
      reg := new Registry();
      return Err(IndexErr), reg, added, visits;
    }
    var host, port := argv[1], argv[2];
    var loaded;
    loaded, reg, added := LoadGlobals(settings, users, probe);
    if loaded.Err? {
      return Err(loaded.error), reg, added, visits;
    }
    r, visits := reg.RunRules(host, port, rules, env, probe, out);
  }
}
