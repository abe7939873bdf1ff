/** Test objects: a settings snapshot taken when the test is built, a cached
    verdict, and a per-instance cache for the probed local address; and
    `parse_test`, which turns a test definition into a test object. */
module Tests {
  import opened Values
  import opened Ipv4Range

  /** The test classes: the abstract base class and the built-in `ipv4range`. */
  datatype Kind = AbstractTest | Ipv4RangeTest

  /** `isinstance(self, type(arg))`: the parent's class is the new test's own
      class or its base class. */
  predicate IsInstance(self: Kind, parent: Kind)
  {
    parent == self || parent == AbstractTest
  }

  /** `_defaults()` of each class. */
  function Defaults(kind: Kind): map<string, Value>
  {
    match kind
    case AbstractTest => map[]
    case Ipv4RangeTest => map["dsthost" := Str("8.8.8.8"), "dstport" := Int(53)]
  }

  /** The local address of a connection to `(dsthost, dstport)`, or the
      socket error of that connection. */
  type Probe = (Value, Value) -> Result<string>

  /** What the constructor reads of a parent: its class and its settings. */
  datatype ParentView = ParentView(kind: Kind, settings: map<string, Value>)

  /** The constructor's loop over its positional parents, continuing from `acc`. */
  function Inherit(kind: Kind, acc: map<string, Value>, parents: seq<ParentView>): map<string, Value>
    decreases parents
  {
    if parents == [] then acc
    else
      var next := if IsInstance(kind, parents[0].kind) then Update(acc, parents[0].settings) else acc;
      Inherit(kind, next, parents[1..])
  }

  /** The settings of a new test: defaults, then every compatible parent in
      order, then the keyword arguments. */
  function Snapshot(kind: Kind, parents: seq<ParentView>, kwargs: map<string, Value>): (s: map<string, Value>)
    ensures forall k :: k in kwargs ==> k in s && s[k] == kwargs[k]
  {
    Update(Inherit(kind, Defaults(kind), parents), kwargs)
  }

  lemma {:induction false} InheritAppend(kind: Kind, acc: map<string, Value>, a: seq<ParentView>, b: seq<ParentView>)
    ensures Inherit(kind, acc, a + b) == Inherit(kind, Inherit(kind, acc, a), b)
    decreases a
  {
    if a != [] {
      assert (a + b)[1..] == a[1..] + b;
      var next := if IsInstance(kind, a[0].kind) then Update(acc, a[0].settings) else acc;
      InheritAppend(kind, next, a[1..], b);
    } else {
      assert a + b == b;
    }
  }

  /** A parent of an unrelated class contributes nothing, wherever it stands. */
  lemma IncompatibleParentIgnored(kind: Kind, a: seq<ParentView>, p: ParentView, b: seq<ParentView>, kwargs: map<string, Value>)
    requires !IsInstance(kind, p.kind)
    ensures Snapshot(kind, a + [p] + b, kwargs) == Snapshot(kind, a + b, kwargs)
  {
    InheritAppend(kind, Defaults(kind), a + [p], b);
    InheritAppend(kind, Defaults(kind), a, [p]);
    InheritAppend(kind, Defaults(kind), a, b);
    assert [p][1..] == [];
  }

  /** With one compatible parent, the parent's settings override the defaults
      and the keyword arguments override both. */
  lemma OneParent(kind: Kind, p: ParentView, kwargs: map<string, Value>)
    requires IsInstance(kind, p.kind)
    ensures Snapshot(kind, [p], kwargs) == Update(Update(Defaults(kind), p.settings), kwargs)
  {
    assert [p][1..] == [];
    assert Inherit(kind, Defaults(kind), [p]) == Inherit(kind, Update(Defaults(kind), p.settings), []);
  }

  /** Every setting comes from the defaults, a compatible parent or the keyword
      arguments, and every key of those is a setting. */
  lemma {:induction false} InheritKeys(kind: Kind, acc: map<string, Value>, parents: seq<ParentView>, k: string)
    ensures k in Inherit(kind, acc, parents) <==>
            k in acc || exists i :: 0 <= i < |parents| && IsInstance(kind, parents[i].kind) && k in parents[i].settings
    decreases parents
  {
    if parents != [] {
      var next := if IsInstance(kind, parents[0].kind) then Update(acc, parents[0].settings) else acc;
      InheritKeys(kind, next, parents[1..], k);
      if exists i :: 0 <= i < |parents[1..]| && IsInstance(kind, parents[1..][i].kind) && k in parents[1..][i].settings {
        var i :| 0 <= i < |parents[1..]| && IsInstance(kind, parents[1..][i].kind) && k in parents[1..][i].settings;
        assert parents[i + 1] == parents[1..][i];
      }
      if exists i :: 0 <= i < |parents| && IsInstance(kind, parents[i].kind) && k in parents[i].settings {
        var i :| 0 <= i < |parents| && IsInstance(kind, parents[i].kind) && k in parents[i].settings;
        if i > 0 {
          assert parents[1..][i - 1] == parents[i];
        }
      }
    }
  }

  // ---------------------------------------------------------------- the ipv4range verdict

  /** `settings.get('target', [])` iterated, each entry checked with `ip_in_range`. */
  function Verdict(ip: string, merged: map<string, Value>): Result<bool>
  {
    match Iterate(Get(merged, "target", List([])))
    case Err(e) => Err(e)
    case Ok(targets) => AnyInRange(ip, targets)
  }

  /** `_evaluate` of each class, given what `myip` yields. */
  function Judge(kind: Kind, merged: map<string, Value>, ip: Result<string>): Result<bool>
  {
    match kind
    case AbstractTest => Ok(false)
    case Ipv4RangeTest =>
      match ip
      case Err(e) => Err(e)
      case Ok(addr) => Verdict(addr, merged)
  }

  /** A missing or empty target list gives false. */
  lemma NoTargetIsFalse(ip: string, merged: map<string, Value>)
    requires "target" !in merged || merged["target"] == List([])
    ensures Verdict(ip, merged) == Ok(false)
  {
  }

  /** An override of `target` replaces the test's own targets entirely. */
  lemma OverrideReplacesTarget(ip: string, settings: map<string, Value>, kwargs: map<string, Value>)
    requires "target" in kwargs
    ensures Verdict(ip, Update(settings, kwargs)) == Verdict(ip, kwargs)
  {
  }

  /** With well-formed targets, the verdict is true exactly when the address
      lies in one of them. */
  lemma VerdictExists(ip: string, merged: map<string, Value>, targets: seq<Value>)
    requires Get(merged, "target", List([])) == List(targets)
    requires forall i :: 0 <= i < |targets| ==> IpInRange(ip, targets[i]).Ok?
    ensures Verdict(ip, merged).Ok?
    ensures Verdict(ip, merged).value <==> exists i :: 0 <= i < |targets| && IpInRange(ip, targets[i]) == Ok(true)
  {
    AnyInRangeExists(ip, targets);
  }

  // ---------------------------------------------------------------- test objects

  class Test {
    const kind: Kind
    var result: Option<bool>
    var cache: map<string, string>
    const settings: map<string, Value>
    /** Successful probes of the local address so far. */
    ghost var probes: nat
    /** Verdicts computed and stored by `evaluate()` so far. */
    ghost var evaluations: nat

    /** The local address is probed at most once, and the verdict computed at
        most once: each is done exactly when its cache entry is filled. */
    ghost predicate Valid()
      reads this
    {
      && probes == (if "myip" in cache then 1 else 0)
      && evaluations == (if result.Some? then 1 else 0)
    }

    /** What `myip` yields: the cached address, or a probe of the test's own
        `dsthost` and `dstport`. */
    ghost function LocalIp(probe: Probe): Result<string>
      reads this
    {
      if "myip" in cache then Ok(cache["myip"])
      else probe(Get(settings, "dsthost", Null), Get(settings, "dstport", Null))
    }

    /** The cache after `myip`: a successful probe is remembered. */
    ghost function CacheAfterProbe(probe: Probe): map<string, string>
      reads this
    {
      match LocalIp(probe)
      case Ok(ip) => cache["myip" := ip]
      case Err(_) => cache
    }

    /** What `evaluate()` without overrides yields: the cached verdict, or
        the verdict of the test's own settings and local address. */
    ghost function Outcome(probe: Probe): Result<bool>
      reads this
    {
      if result.Some? then Ok(result.value) else Judge(kind, settings, LocalIp(probe))
    }

    constructor (kind: Kind, parents: seq<Test>, kwargs: map<string, Value>)
      ensures Valid()
      ensures this.kind == kind && result == None && cache == map[]
      ensures settings == Snapshot(kind, Views(parents), kwargs)
    {
      var s := Defaults(kind);
      for i := 0 to |parents|
        invariant Inherit(kind, s, Views(parents[i..])) == Inherit(kind, Defaults(kind), Views(parents))
      {
        assert parents[i..][1..] == parents[i + 1..];
        if IsInstance(kind, parents[i].kind) {
          s := Update(s, parents[i].settings);
        }
      }
      assert parents[|parents|..] == [];
      this.kind := kind;
      result := None;
      cache := map[];
      settings := Update(s, kwargs);
      probes := 0;
      evaluations := 0;
    }

    /** `myip`: probe once, then answer from the cache. */
    method MyIp(probe: Probe) returns (r: Result<string>)
      requires Valid()
      modifies this
      ensures Valid()
      ensures r == old(LocalIp(probe)) && LocalIp(probe) == r
      ensures cache == old(CacheAfterProbe(probe))
      ensures result == old(result) && evaluations == old(evaluations)
    {
      if "myip" !in cache {
        r := probe(Get(settings, "dsthost", Null), Get(settings, "dstport", Null));
        if r.Ok? {
          cache := cache["myip" := r.value];
          probes := probes + 1;
        }
      } else {
        r := Ok(cache["myip"]);
      }
    }

    /** `_evaluate(**kwargs)`: the overrides are merged into a copy of the
        settings; the probe still uses the test's own settings. */
    method EvaluateNow(kwargs: map<string, Value>, probe: Probe) returns (r: Result<bool>)
      requires Valid()
      modifies this
      ensures Valid()
      ensures r == Judge(kind, Update(settings, kwargs), old(LocalIp(probe)))
      ensures cache == if kind == AbstractTest then old(cache) else old(CacheAfterProbe(probe))
      ensures LocalIp(probe) == old(LocalIp(probe))
      ensures result == old(result) && evaluations == old(evaluations)
    {
      if kind == AbstractTest {
        return Ok(false);
      }
      var merged := Update(settings, kwargs);
      var ip := MyIp(probe);
      if ip.Err? {
        return Err(ip.error);
      }
      var targets := Iterate(Get(merged, "target", List([])));
      if targets.Err? {
        return Err(targets.error);
      }
      var items := targets.value;
      for i := 0 to |items|
        invariant AnyInRange(ip.value, items[i..]) == AnyInRange(ip.value, items)
      {
        assert items[i..][1..] == items[i + 1..];
        var inside := IpInRange(ip.value, items[i]);
        if inside.Err? {
          return Err(inside.error);
        }
        if inside.value {
          return Ok(true);
        }
      }
      assert items[|items|..] == [];
      return Ok(false);
    }

    /** `evaluate(**kwargs)`: without overrides the verdict is computed once and
        cached; with overrides it is computed afresh and the cache is left alone. */
    method Evaluate(kwargs: map<string, Value>, probe: Probe) returns (r: Result<bool>)
      requires Valid()
      modifies this
      ensures Valid()
      ensures kwargs != map[] ==>
                && r == Judge(kind, Update(settings, kwargs), old(LocalIp(probe))) && result == old(result)
                && cache == (if kind == AbstractTest then old(cache) else old(CacheAfterProbe(probe)))
      ensures kwargs == map[] && old(result).Some? ==>
                r == Ok(old(result).value) && cache == old(cache) && result == old(result)
      ensures kwargs == map[] && old(result).None? ==>
                && r == Judge(kind, settings, old(LocalIp(probe)))
                && result == (if r.Ok? then Some(r.value) else None)
                && cache == (if kind == AbstractTest then old(cache) else old(CacheAfterProbe(probe)))
      ensures kwargs == map[] ==> r == old(Outcome(probe))
      ensures Outcome(probe) == old(Outcome(probe))
    {
      if kwargs == map[] {
        if result.None? {
          assert Update(settings, kwargs) == settings;
          var v := EvaluateNow(kwargs, probe);
          if v.Err? {
            return Err(v.error);
          }
          result := Some(v.value);
          evaluations := evaluations + 1;
        }
        return Ok(result.value);
      } else {
        r := EvaluateNow(kwargs, probe);
      }
    }
  }

  /** The class and settings of each parent, in order. */
  function Views(parents: seq<Test>): seq<ParentView>
    reads parents
  {
    if parents == [] then [] else [ParentView(parents[0].kind, parents[0].settings)] + Views(parents[1..])
  }

  // ---------------------------------------------------------------- parse_test

  /** What a test definition asks for: a registered test itself, or a new test
      derived from a registered one with the given target list. */
  datatype Plan = Existing(name: string) | Derived(parent: string, target: Value)

  /** The one key of a one-entry dict. */
  function OnlyKey(d: map<string, Value>): (k: string)
    requires |d| == 1
    ensures d.Keys == {k}
  {
    OneKey(d);
    var k :| k in d; k
  }

  lemma OneKey(d: map<string, Value>)
    requires |d| == 1
    ensures exists k :: d.Keys == {k}
    ensures forall a, b :: a in d && b in d ==> a == b
  {
    var k :| k in d;
    var rest := d.Keys - {k};
    assert |rest| == 0;
    assert d.Keys == {k};
  }

  /** The target of a derived test: a list as given, a string as a one-element list. */
  function TargetOf(v: Value): Option<Value>
  {
    if v.List? then Some(v) else if v.Str? then Some(List([v])) else None
  }

  /** `parse_test`'s case analysis.  An unknown parent named in a dict is
      reported like an unknown name given as a string. */
  function Classify(testdef: Value, registered: set<string>, kwargs: map<string, Value>): (r: Result<Plan>)
    ensures r.Ok? && r.value.Existing? ==> testdef == Str(r.value.name) && r.value.name in registered
    ensures r.Ok? && r.value.Derived? ==>
              testdef.Dict? && testdef.entries.Keys == {r.value.parent} && r.value.parent in registered &&
              r.value.target.List? && "target" !in kwargs
    ensures testdef.Str? ==> r == (if testdef.s in registered then Ok(Existing(testdef.s)) else Err(TestUnknown))
    ensures r.Ok? && r.value.Derived? ==>
              var v := testdef.entries[r.value.parent];
              (v.List? && r.value.target == v) || (v.Str? && r.value.target == List([v]))
    ensures r == Err(TestParseError) <==> !testdef.Str? && !testdef.Dict?
    ensures r == Err(TestAmbiguous) <==> testdef.Dict? && |testdef.entries| != 1
    ensures testdef.Dict? && |testdef.entries| == 1 && OnlyKey(testdef.entries) in registered ==>
              var v := testdef.entries[OnlyKey(testdef.entries)];
              && (r == Err(TargetTypeUnknown) <==> !v.List? && !v.Str?)
              && (r == Err(TypeErr) <==> (v.List? || v.Str?) && "target" in kwargs)
              && ((v.List? || v.Str?) && "target" !in kwargs ==> r.Ok? && r.value.Derived?)
    ensures testdef.Dict? && |testdef.entries| == 1 && OnlyKey(testdef.entries) !in registered ==> r == Err(TestUnknown)
  {
    match testdef
    case Dict(d) =>
      if |d| != 1 then Err(TestAmbiguous)
      else
        var name := OnlyKey(d);
        if name !in registered then Err(TestUnknown)
        else
          (match TargetOf(d[name])
           case None => Err(TargetTypeUnknown)
           case Some(t) => if "target" in kwargs then Err(TypeErr) else Ok(Derived(name, t)))
    case Str(s) => if s in registered then Ok(Existing(s)) else Err(TestUnknown)
    case _ => Err(TestParseError)
  }

  /** `parse_test` as written: the branch for an unknown parent in a dict first
      formats a log line with the undefined name `target`, so it raises NameError. */
  function ClassifyAsWritten(testdef: Value, registered: set<string>, kwargs: map<string, Value>): Result<Plan>
  {
    match testdef
    case Dict(d) =>
      if |d| != 1 then Err(TestAmbiguous)
      else
        var name := OnlyKey(d);
        if name !in registered then Err(NameErr)
        else
          (match TargetOf(d[name])
           case None => Err(TargetTypeUnknown)
           case Some(t) => if "target" in kwargs then Err(TypeErr) else Ok(Derived(name, t)))
    case Str(s) => if s in registered then Ok(Existing(s)) else Err(TestUnknown)
    case _ => Err(TestParseError)
  }

  /** As written, the two spellings of an unknown reference fail differently. */
  lemma AsWrittenUnknownParent(name: string, v: Value, registered: set<string>, kwargs: map<string, Value>)
    requires name !in registered
    ensures ClassifyAsWritten(Dict(map[name := v]), registered, kwargs) == Err(NameErr)
    ensures ClassifyAsWritten(Str(name), registered, kwargs) == Err(TestUnknown)
  {
    assert map[name := v].Keys == {name};
  }

  /** Corrected, an unknown test name is TestUnknown however it is referenced,
      and everywhere else the correction changes nothing. */
  lemma UnknownParentIsTestUnknown(name: string, v: Value, registered: set<string>, kwargs: map<string, Value>)
    requires name !in registered
    ensures Classify(Dict(map[name := v]), registered, kwargs) == Err(TestUnknown)
    ensures Classify(Str(name), registered, kwargs) == Err(TestUnknown)
  {
    assert map[name := v].Keys == {name};
  }

  lemma CorrectionIsLocal(testdef: Value, registered: set<string>, kwargs: map<string, Value>)
    ensures ClassifyAsWritten(testdef, registered, kwargs) == Err(NameErr) ||
            ClassifyAsWritten(testdef, registered, kwargs) == Classify(testdef, registered, kwargs)
    ensures ClassifyAsWritten(testdef, registered, kwargs) == Err(NameErr) ==>
            Classify(testdef, registered, kwargs) == Err(TestUnknown)
  {
  }

  /** The two spellings of a target in a definition mean the same:
      `{base: net}`, `{base: [net]}`. */
  lemma StringTargetIsList(name: string, s: string, registered: set<string>, kwargs: map<string, Value>)
    ensures Classify(Dict(map[name := Str(s)]), registered, kwargs) ==
            Classify(Dict(map[name := List([Str(s)])]), registered, kwargs)
  {
    assert map[name := Str(s)].Keys == {name};
    assert map[name := List([Str(s)])].Keys == {name};
  }

  /** `parse_test(testdef, alltests, **kwargs)`: a name gives back the registered
      test itself; a one-key dict builds a new test of the parent's class that
      starts from the parent's settings. */
  method ParseTest(testdef: Value, registry: map<string, Test>, kwargs: map<string, Value>) returns (r: Result<Test>)
    ensures match Classify(testdef, registry.Keys, kwargs)
            case Err(e) => r == Err(e)
            case Ok(Existing(name)) => r == Ok(registry[name])
            case Ok(Derived(name, target)) =>
              && r.Ok? && fresh(r.value) && r.value.Valid()
              && r.value.kind == registry[name].kind
              && r.value.result == None && r.value.cache == map[]
              && r.value.settings ==
                 Update(Update(Defaults(registry[name].kind), registry[name].settings), kwargs["target" := target])
  {
    var plan := Classify(testdef, registry.Keys, kwargs);
    if plan.Err? {
      return Err(plan.error);
    }
    match plan.value
    case Existing(name) =>
      return Ok(registry[name]);
    case Derived(name, target) =>
      var parent := registry[name];
      var t := new Test(parent.kind, [parent], kwargs["target" := target]);
      assert Views([parent]) == [ParentView(parent.kind, parent.settings)];
      OneParent(parent.kind, ParentView(parent.kind, parent.settings), kwargs["target" := target]);
      return Ok(t);
  }
}
