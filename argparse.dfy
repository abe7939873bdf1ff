/** The `%` placeholder scanner used to build command lines: `%h` and `%p`
    become host and port, `%` drops itself in front of any other character,
    and a trailing lone `%` disappears. */
module Common {
  import opened Values

  /** What one escaped character turns into: the rule's value when there is one
      (None when that value is not a string, on which Python's `+=` fails),
      the character itself otherwise. */
  function Subst(c: char, rules: map<char, Value>): (r: Option<string>)
    ensures c !in rules ==> r == Some([c])
    ensures c in rules ==> (rules[c].Str? <==> r.Some?)
  {
    if c !in rules then Some([c])
    else if rules[c].Str? then Some(rules[c].s)
    else None
  }

  function Cat(a: Option<string>, b: Option<string>): (r: Option<string>)
    ensures r.Some? <==> a.Some? && b.Some?
  {
    if a.Some? && b.Some? then Some(a.value + b.value) else None
  }

  /** The two-state machine, as a function: `escaping` is the state after a `%`.
      None means a substitution hit a non-string value. */
  function Scan(s: string, escaping: bool, rules: map<char, Value>): Option<string>
  {
    if s == [] then Some("")
    else if escaping then Cat(Subst(s[0], rules), Scan(s[1..], false, rules))
    else if s[0] == '%' then Scan(s[1..], true, rules)
    else Cat(Some([s[0]]), Scan(s[1..], false, rules))
  }

  /** The state the machine is in after a whole string. */
  function FinalEscaping(s: string, escaping: bool): bool
  {
    if s == [] then escaping
    else if escaping then FinalEscaping(s[1..], false)
    else FinalEscaping(s[1..], s[0] == '%')
  }

  /** What `argparse` returns or raises: the scan of a string, the generic
      error for any other value, TypeError when a substitution is not a string. */
  function Expand(arg: Value, rules: map<char, Value>): (r: Result<string>)
    ensures !arg.Str? ==> r == Err(GenericError)
    ensures arg.Str? ==> (r.Ok? <==> Scan(arg.s, false, rules).Some?)
  {
    if !arg.Str? then Err(GenericError)
    else
      match Scan(arg.s, false, rules)
      case Some(t) => Ok(t)
      case None => Err(TypeErr)
  }

  /** `argparse(arg, rules)`: a single left-to-right pass that appends to `ret`. */
  method ArgParse(arg: Value, rules: map<char, Value>) returns (r: Result<string>)
    ensures r == Expand(arg, rules)
  {
    if !arg.Str? {
      return Err(GenericError);
    }
    var s := arg.s;
    var ret := "";
    var escaping := false;
    CatEmptyLeft(Scan(s, false, rules));
    for i := 0 to |s|
      invariant Cat(Some(ret), Scan(s[i..], escaping, rules)) == Scan(s, false, rules)
    {
      assert s[i..][1..] == s[i + 1..];
      if !escaping {
        if s[i] == '%' {
          escaping := true;
        } else {
          CatAssoc(Some(ret), Some([s[i]]), Scan(s[i + 1..], false, rules));
          ret := ret + [s[i]];
        }
      } else {
        escaping := false;
        var sub := Subst(s[i], rules);
        if sub.None? {
          return Err(TypeErr);
        }
        CatAssoc(Some(ret), sub, Scan(s[i + 1..], false, rules));
        ret := ret + sub.value;
      }
    }
    assert s[|s|..] == [];
    assert ret + "" == ret;
    return Ok(ret);
  }

  // ---------------------------------------------------------------- properties

  /** Text without `%` comes through unchanged, whatever the rules. */
  lemma {:induction false} NoPercentUnchanged(s: string, rules: map<char, Value>)
    requires '%' !in s
    ensures Scan(s, false, rules) == Some(s)
  {
    if s != [] {
      NoPercentUnchanged(s[1..], rules);
      assert [s[0]] + s[1..] == s;
    }
  }

  /** Text without `%` leaves the machine in literal state. */
  lemma {:induction false} NoPercentLiteralState(s: string)
    requires '%' !in s
    ensures !FinalEscaping(s, false)
  {
    if s != [] {
      assert s[0] in s;
      NoPercentLiteralState(s[1..]);
    }
  }

  /** Scanning is compositional: once the first part has left the machine in
      literal state, the second part is scanned as if on its own.  In particular,
      substituted text is never scanned again. */
  lemma {:induction false} ScanConcat(a: string, b: string, escaping: bool, rules: map<char, Value>)
    requires !FinalEscaping(a, escaping)
    ensures Scan(a + b, escaping, rules) == Cat(Scan(a, escaping, rules), Scan(b, false, rules))
  {
    if a == [] {
      assert a + b == b;
      CatEmptyLeft(Scan(b, false, rules));
    } else {
      assert (a + b)[1..] == a[1..] + b;
      if escaping {
        ScanConcat(a[1..], b, false, rules);
        CatAssoc(Subst(a[0], rules), Scan(a[1..], false, rules), Scan(b, false, rules));
      } else if a[0] == '%' {
        ScanConcat(a[1..], b, true, rules);
      } else {
        ScanConcat(a[1..], b, false, rules);
        CatAssoc(Some([a[0]]), Scan(a[1..], false, rules), Scan(b, false, rules));
      }
    }
  }

  lemma CatEmptyLeft(x: Option<string>)
    ensures Cat(Some(""), x) == x
  {
    if x.Some? {
      assert "" + x.value == x.value;
    }
  }

  lemma CatAssoc(x: Option<string>, y: Option<string>, z: Option<string>)
    ensures Cat(Cat(x, y), z) == Cat(x, Cat(y, z))
  {
    if x.Some? && y.Some? && z.Some? {
      assert x.value + y.value + z.value == x.value + (y.value + z.value);
    }
  }

  /** `%h` is replaced by the host and `%p` by the port, wherever they stand
      after text that ends in literal state. */
  lemma Placeholders(before: string, after: string, host: string, port: string)
    requires !FinalEscaping(before, false)
    ensures var rules := map['h' := Str(host), 'p' := Str(port)];
            && Scan(before + "%h" + after, false, rules) == Cat(Scan(before, false, rules), Cat(Some(host), Scan(after, false, rules)))
            && Scan(before + "%p" + after, false, rules) == Cat(Scan(before, false, rules), Cat(Some(port), Scan(after, false, rules)))
  {
    var rules := map['h' := Str(host), 'p' := Str(port)];
    assert before + "%h" + after == before + ("%h" + after);
    assert before + "%p" + after == before + ("%p" + after);
    ScanConcat(before, "%h" + after, false, rules);
    ScanConcat(before, "%p" + after, false, rules);
    assert ("%h" + after)[1..][1..] == after;
    assert ("%p" + after)[1..][1..] == after;
  }

  /** A `%` in front of a character without a rule only drops the `%`;
      so `%%` is a literal `%`. */
  lemma EscapedLiteral(c: char, after: string, rules: map<char, Value>)
    requires c !in rules
    ensures Scan(['%', c] + after, false, rules) == Cat(Some([c]), Scan(after, false, rules))
  {
    assert (['%', c] + after)[1..][1..] == after;
  }

  /** A lone `%` at the very end is dropped. */
  lemma TrailingPercentDropped(s: string, rules: map<char, Value>)
    requires !FinalEscaping(s, false)
    ensures Scan(s + "%", false, rules) == Scan(s, false, rules)
  {
    ScanConcat(s, "%", false, rules);
    match Scan(s, false, rules)
    case None =>
    case Some(t) => assert t + "" == t;
  }

  /** With no rules, the output is never longer than the input. */
  lemma {:induction false} NoRulesNotLonger(s: string, escaping: bool)
    ensures Scan(s, escaping, map[]).Some?
    ensures |Scan(s, escaping, map[]).value| <= |s|
  {
    if s != [] {
      NoRulesNotLonger(s[1..], !escaping && s[0] == '%');
    }
  }

  /** Worked example: `%%h` is a literal `%h`, not a host. */
  lemma ExampleDoublePercent()
    ensures Scan("%%h", false, map['h' := Str("example")]) == Some("%h")
  {
    var rules := map['h' := Str("example")];
    NoPercentUnchanged("h", rules);
    EscapedLiteral('%', "h", rules);
    assert ['%', '%'] + "h" == "%%h";
    assert "%" + "h" == "%h";
  }

  /** Worked example: the `-W` argument of a jump. */
  lemma ExampleJumpTarget()
    ensures Scan("[%h]:%p", false, map['h' := Str("example"), 'p' := Str("22")]) == Some("[example]:22")
  {
    var rules := map['h' := Str("example"), 'p' := Str("22")];
    NoPercentUnchanged("[", rules);
    NoPercentUnchanged("]:", rules);
    Placeholders("]:", "", "example", "22");
    assert "]:" + "%p" + "" == "]:%p";
    assert "]:" + ("22" + "") == "]:22";
    Placeholders("[", "]:%p", "example", "22");
    assert "[" + "%h" + "]:%p" == "[%h]:%p";
    assert "[" + ("example" + "]:22") == "[example]:22";
  }

  /** Worked example: a trailing `%` vanishes. */
  lemma ExampleTrailingPercent()
    ensures Scan("50%", false, map[]) == Some("50")
  {
    NoPercentUnchanged("50", map[]);
    assert "50" + "%" == "50%";
    TrailingPercentDropped("50", map[]);
  }
}
