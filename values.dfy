/** Python values and the few Python built-ins the helper relies on:
    dict lookup with a default, `str()`, `int()`, `str.split`, `str.join`
    and iteration over a value.  Configuration data arrives as these values. */
module Values {

  /** A value as loaded from the configuration: YAML/JSON scalars, lists and dicts. */
  datatype Value =
    | Null
    | Bool(b: bool)
    | Int(n: int)
    | Str(s: string)
    | List(items: seq<Value>)
    | Dict(entries: map<string, Value>)

  /** What the helper raises.  The first group are the package's own exception
      classes, the second Python's built-in exceptions that the code lets escape. */
  datatype Error =
    | GenericError        // sshfdpassException
    | TargetTypeUnknown   // sshfdpassTargetTypeUnkown
    | TestUnknown         // sshfdpassTestUnkown
    | TestAmbiguous       // sshfdpassTestAmbigous
    | TestParseError      // sshfdpassTestParseError
    | AFUnknown           // sshfdpassAFUnkown
    | ActionError         // sshfdpassActionError
    | TypeErr
    | ValueErr
    | IndexErr
    | KeyErr
    | AttributeErr
    | NameErr
    | SocketErr           // an OSError raised by a connect
    | Unmodelled          // str() or iteration of a list/dict value, which the model leaves out

  datatype Option<+T> = None | Some(value: T)

  datatype Result<+T> = Ok(value: T) | Err(error: Error) {
    predicate IsFailure() { Err? }
    function PropagateFailure<U>(): Result<U> requires Err? { Err(error) }
    function Extract(): T requires Ok? { value }
  }

  /** `m.get(k, d)` */
  function Get(m: map<string, Value>, k: string, d: Value): (v: Value)
    ensures k in m ==> v == m[k]
    ensures k !in m ==> v == d
  {
    if k in m then m[k] else d
  }

  /** `d.update(e)`: every key of `e` wins over the same key in `d`. */
  function Update(d: map<string, Value>, e: map<string, Value>): (r: map<string, Value>)
    ensures r.Keys == d.Keys + e.Keys
    ensures forall k :: k in e ==> r[k] == e[k]
    ensures forall k :: k in d && k !in e ==> r[k] == d[k]
  {
    d + e
  }

  // ---------------------------------------------------------------- decimal

  predicate IsDigit(c: char) { '0' <= c <= '9' }

  function DigitChar(d: nat): (c: char)
    requires d < 10
    ensures IsDigit(c) && (c as int) - ('0' as int) == d
  {
    (d + '0' as int) as char
  }

  predicate AllDigits(s: string) { forall i :: 0 <= i < |s| ==> IsDigit(s[i]) }

  /** Decimal digits of a natural number, most significant first. */
  function NatToString(n: nat): (s: string)
    ensures |s| > 0 && AllDigits(s)
  {
    if n < 10 then [DigitChar(n)] else NatToString(n / 10) + [DigitChar(n % 10)]
  }

  /** `str(n)` of a Python int. */
  function IntToString(n: int): string
  {
    if n < 0 then "-" + NatToString(-n) else NatToString(n)
  }

  /** The value of a non-empty digit string. */
  function DigitsValue(s: string): nat
    requires |s| > 0 && AllDigits(s)
  {
    var last := (s[|s| - 1] as int) - ('0' as int);
    if |s| == 1 then last else DigitsValue(s[..|s| - 1]) * 10 + last
  }

  /** `int(s)` of a string: an optional sign and one or more decimal digits. */
  function ParseInt(s: string): (r: Option<int>)
    ensures r.Some? ==> |s| > 0
  {
    if |s| > 0 && (s[0] == '-' || s[0] == '+') then
      var digits := s[1..];
      if |digits| > 0 && AllDigits(digits) then
        var v: int := DigitsValue(digits);
        Some(if s[0] == '-' then -v else v)
      else None
    else if |s| > 0 && AllDigits(s) then Some(DigitsValue(s))
    else None
  }

  lemma {:induction false} DigitsValueOfNatToString(n: nat)
    ensures DigitsValue(NatToString(n)) == n
  {
    if n >= 10 {
      var prefix := NatToString(n / 10);
      var s := prefix + [DigitChar(n % 10)];
      assert s[..|s| - 1] == prefix;
      DigitsValueOfNatToString(n / 10);
    }
  }

  /** `int(str(n)) == n` */
  lemma IntToStringRoundTrip(n: int)
    ensures ParseInt(IntToString(n)) == Some(n)
  {
    if n < 0 {
      var s := IntToString(n);
      assert s[1..] == NatToString(-n);
      DigitsValueOfNatToString(-n);
    } else {
      DigitsValueOfNatToString(n);
    }
  }

  // ---------------------------------------------------------------- built-ins on values

  /** `str(v)`.  The repr of lists and dicts is not modelled. */
  function Display(v: Value): (r: Result<string>)
    ensures v.Str? ==> r == Ok(v.s)
    ensures v.Int? ==> r == Ok(IntToString(v.n)) && ParseInt(r.value) == Some(v.n)
    ensures (v.List? || v.Dict?) <==> r.Err?
  {
    match v
    case Str(s) => Ok(s)
    case Int(n) => IntToStringRoundTrip(n); Ok(IntToString(n))
    case Bool(b) => Ok(if b then "True" else "False")
    case Null => Ok("None")
    case List(_) => Err(Unmodelled)
    case Dict(_) => Err(Unmodelled)
  }

  /** `int(v)` */
  function ToInt(v: Value): (r: Result<int>)
    ensures v.Int? ==> r == Ok(v.n)
  {
    match v
    case Int(n) => Ok(n)
    case Bool(b) => Ok(if b then 1 else 0)
    case Str(s) => (match ParseInt(s) case Some(n) => Ok(n) case None => Err(ValueErr))
    case _ => Err(TypeErr)
  }

  /** `int(str(n)) == n` on values, as when a port is converted twice. */
  lemma ToIntOfDisplay(n: int)
    ensures ToInt(Str(IntToString(n))) == Ok(n)
  {
    IntToStringRoundTrip(n);
  }

  /** The elements a `for x in v` loop visits: a list's items, a string's characters.
      Iterating a dict visits its keys in insertion order, which a map does not keep. */
  function Iterate(v: Value): (r: Result<seq<Value>>)
    ensures v.List? ==> r == Ok(v.items)
    ensures v.Str? ==> r.Ok? && |r.value| == |v.s| && forall i :: 0 <= i < |v.s| ==> r.value[i] == Str([v.s[i]])
  {
    match v
    case List(items) => Ok(items)
    case Str(s) => Ok(seq(|s|, i requires 0 <= i < |s| => Str([s[i]])))
    case Dict(_) => Err(Unmodelled)
    case _ => Err(TypeErr)
  }

  // ---------------------------------------------------------------- split and join

  /** `s.split(sep)` for a one-character separator. */
  function Split(s: string, sep: char): (parts: seq<string>)
    ensures |parts| > 0
    ensures forall i :: 0 <= i < |parts| ==> sep !in parts[i]
  {
    if s == [] then [""]
    else
      var rest := Split(s[1..], sep);
      if s[0] == sep then [""] + rest
      else [[s[0]] + rest[0]] + rest[1..]
  }

  /** `sep.join(parts)` on strings. */
  function Join(parts: seq<string>, sep: char): string
  {
    if parts == [] then ""
    else if |parts| == 1 then parts[0]
    else parts[0] + [sep] + Join(parts[1..], sep)
  }

  /** Splitting and joining back on the same separator gives the string back. */
  lemma {:induction false} JoinSplit(s: string, sep: char)
    ensures Join(Split(s, sep), sep) == s
  {
    if s != [] {
      var rest := Split(s[1..], sep);
      JoinSplit(s[1..], sep);
      if s[0] != sep {
        var parts := [[s[0]] + rest[0]] + rest[1..];
        assert parts[1..] == rest[1..];
        if |rest| > 1 {
          assert Join(rest, sep) == rest[0] + [sep] + Join(rest[1..], sep);
        }
      }
    }
  }

  /** Joining separator-free parts and splitting again gives the parts back. */
  lemma {:induction false} SplitJoin(parts: seq<string>, sep: char)
    requires |parts| > 0
    requires forall i :: 0 <= i < |parts| ==> sep !in parts[i]
    ensures Split(Join(parts, sep), sep) == parts
  {
    if |parts| == 1 {
      SplitNoSeparator(parts[0], sep);
    } else {
      SplitJoin(parts[1..], sep);
      SplitAppend(parts[0], Join(parts[1..], sep), sep);
    }
  }

  lemma {:induction false} SplitNoSeparator(s: string, sep: char)
    requires sep !in s
    ensures Split(s, sep) == [s]
  {
    if s != [] {
      SplitNoSeparator(s[1..], sep);
      assert [s[0]] + s[1..] == s;
    }
  }

  /** Splitting `a + sep + b`, where `a` holds no separator. */
  lemma {:induction false} SplitAppend(a: string, b: string, sep: char)
    requires sep !in a
    ensures Split(a + [sep] + b, sep) == [a] + Split(b, sep)
  {
    if a != [] {
      assert (a + [sep] + b)[1..] == a[1..] + [sep] + b;
      SplitAppend(a[1..], b, sep);
      assert [a[0]] + a[1..] == a;
    } else {
      assert (a + [sep] + b)[1..] == b;
    }
  }

  /** A character that is neither the separator nor in any part is not in the join. */
  lemma {:induction false} JoinHasNo(parts: seq<string>, sep: char, c: char)
    requires c != sep
    requires forall i :: 0 <= i < |parts| ==> c !in parts[i]
    ensures c !in Join(parts, sep)
  {
    if |parts| > 1 {
      JoinHasNo(parts[1..], sep, c);
    }
  }

  /** `sep.join(items)` on values: every item must be a string. */
  function JoinValues(items: seq<Value>, sep: char): (r: Result<string>)
    ensures r.Ok? <==> forall i :: 0 <= i < |items| ==> items[i].Str?
    ensures r.Ok? ==> r.value == Join(Texts(items), sep)
  {
    if forall i :: 0 <= i < |items| ==> items[i].Str? then
      Ok(Join(Texts(items), sep))
    else Err(TypeErr)
  }

  /** Joined strings without the separator split back into the items' texts. */
  lemma JoinValuesSplit(items: seq<Value>, sep: char)
    requires 0 < |items| && forall i :: 0 <= i < |items| ==> items[i].Str? && sep !in items[i].s
    ensures JoinValues(items, sep).Ok?
    ensures var parts := Split(JoinValues(items, sep).value, sep);
            |parts| == |items| && forall i :: 0 <= i < |items| ==> parts[i] == items[i].s
  {
    SplitJoin(Texts(items), sep);
  }

  /** The texts of string values, in order. */
  function Texts(items: seq<Value>): (texts: seq<string>)
    requires forall i :: 0 <= i < |items| ==> items[i].Str?
    ensures |texts| == |items| && forall i :: 0 <= i < |items| ==> texts[i] == items[i].s
  {
    seq(|items|, i requires 0 <= i < |items| => items[i].s)
  }
}
