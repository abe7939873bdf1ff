/** The `tcp` action: a direct connection, trying the address families in
    the order of the `aforder` setting. */
module TcpAction {
  import opened Values
  import opened Actions

  /** `AF_INET` and `AF_INET6`. */
  datatype Family = V4 | V6

  /** What `connect((host, port))` on a fresh stream socket comes to: a
      connected socket's descriptor, a resolver failure (`socket.gaierror`),
      or any other socket error. */
  datatype Outcome = Connected(fd: int) | Unresolved | Failed

  /** The network, as the outcome of one connection attempt. */
  type Connect = (Family, Value, int) -> Outcome

  /** `settings.get('aforder').split(',')`: only the action's own settings
      count, and a value that is not a string has no `split`. */
  function Families(a: Action): (r: Result<seq<string>>)
    ensures "aforder" in a.settings && a.settings["aforder"].Str? ==> r == Ok(Split(a.settings["aforder"].s, ','))
    ensures r.Err? <==> !("aforder" in a.settings && a.settings["aforder"].Str?)
    ensures r.Err? ==> r.error == AttributeErr
  {
    var order := Get(a.settings, "aforder", Null);
    if order.Str? then Ok(Split(order.s, ',')) else Err(AttributeErr)
  }

  /** The token `4` is IPv4, `6` is IPv6; nothing else names a family. */
  function FamilyOf(token: string): Option<Family>
  {
    if token == "4" then Some(V4)
    else if token == "6" then Some(V6)
    else None
  }

  /** The loop over the tokens: the first connected socket wins, a resolver
      failure moves on, an unknown token or any other error ends the action,
      and running out of tokens gives no socket. */
  function TryFamilies(tokens: seq<string>, connect: Connect, host: Value, port: int): Result<Option<int>>
  {
    if tokens == [] then Ok(None)
    else
      match FamilyOf(tokens[0])
      case None => Err(AFUnknown)
      case Some(f) =>
        match connect(f, host, port)
        case Connected(fd) => Ok(Some(fd))
        case Unresolved => TryFamilies(tokens[1..], connect, host, port)
        case Failed => Err(SocketErr)
  }

  /** What `Action._execute` of `tcp` returns: a socket, or None. */
  function Connection(a: Action, host: Value, port: int, connect: Connect): Result<Option<int>>
  {
    var tokens :- Families(a);
    TryFamilies(tokens, connect, host, port)
  }

  /** `Action._execute` of `tcp`. */
  method Execute(a: Action, host: Value, port: int, connect: Connect) returns (r: Result<Option<int>>)
    ensures r == Connection(a, host, port, connect)
  {
    var order := Get(a.settings, "aforder", Null);
    if !order.Str? {
      return Err(AttributeErr);
    }
    var aflist := Split(order.s, ',');
    for i := 0 to |aflist|
      invariant TryFamilies(aflist[i..], connect, host, port) == TryFamilies(aflist, connect, host, port)
    {
      assert aflist[i..][1..] == aflist[i + 1..];
      var af := aflist[i];
      var family: Family;
      if af == "4" {
        family := V4;
      } else if af == "6" {
        family := V6;
      } else {
        return Err(AFUnknown);
      }
      var outcome := connect(family, host, port);
      if outcome.Connected? {
        return Ok(Some(outcome.fd));
      } else if outcome.Failed? {
        return Err(SocketErr);
      }
    }
    return Ok(None);
  }

  // ---------------------------------------------------------------- properties

  /** An attempt with this token resolves nothing and raises nothing. */
  predicate PassesOver(token: string, connect: Connect, host: Value, port: int)
  {
    FamilyOf(token).Some? && connect(FamilyOf(token).value, host, port) == Unresolved
  }

  /** Tokens that only pass over can be dropped from the front. */
  lemma {:induction false} TryFamiliesAppend(a: seq<string>, b: seq<string>, connect: Connect, host: Value, port: int)
    ensures TryFamilies(a + b, connect, host, port) ==
            if TryFamilies(a, connect, host, port) == Ok(None) then TryFamilies(b, connect, host, port)
            else TryFamilies(a, connect, host, port)
  {
    if a == [] {
      assert a + b == b;
    } else {
      assert (a + b)[1..] == a[1..] + b;
      TryFamiliesAppend(a[1..], b, connect, host, port);
    }
  }

  /** No socket exactly when every token names a family and none of them resolves. */
  lemma {:induction false} NoSocket(tokens: seq<string>, connect: Connect, host: Value, port: int)
    ensures TryFamilies(tokens, connect, host, port) == Ok(None) <==>
            forall i :: 0 <= i < |tokens| ==> PassesOver(tokens[i], connect, host, port)
  {
    if tokens != [] {
      NoSocket(tokens[1..], connect, host, port);
      assert forall i :: 1 <= i < |tokens| ==> tokens[1..][i - 1] == tokens[i];
    }
  }

  /** The socket returned is the one of the first attempt that connects; every
      earlier token passed over. */
  lemma {:induction false} FirstConnectionWins(tokens: seq<string>, connect: Connect, host: Value, port: int, fd: int)
    requires TryFamilies(tokens, connect, host, port) == Ok(Some(fd))
    ensures exists k :: 0 <= k < |tokens| && FamilyOf(tokens[k]).Some? &&
              connect(FamilyOf(tokens[k]).value, host, port) == Connected(fd) &&
              forall i :: 0 <= i < k ==> PassesOver(tokens[i], connect, host, port)
  {
    if connect(FamilyOf(tokens[0]).value, host, port) != Connected(fd) {
      FirstConnectionWins(tokens[1..], connect, host, port, fd);
      var k :| 0 <= k < |tokens[1..]| && FamilyOf(tokens[1..][k]).Some? &&
               connect(FamilyOf(tokens[1..][k]).value, host, port) == Connected(fd) &&
               forall i :: 0 <= i < k ==> PassesOver(tokens[1..][i], connect, host, port);
      assert forall i :: 1 <= i < k + 1 ==> tokens[1..][i - 1] == tokens[i];
      assert FamilyOf(tokens[k + 1]).Some? && connect(FamilyOf(tokens[k + 1]).value, host, port) == Connected(fd);
    }
  }

  /** An unknown token is reported only when the loop reaches it; one after
      a connection or a failure is never looked at. */
  lemma UnknownTokenReached(before: seq<string>, token: string, after: seq<string>, connect: Connect, host: Value, port: int)
    requires forall i :: 0 <= i < |before| ==> PassesOver(before[i], connect, host, port)
    requires FamilyOf(token).None?
    ensures TryFamilies(before + [token] + after, connect, host, port) == Err(AFUnknown)
  {
    NoSocket(before, connect, host, port);
    TryFamiliesAppend(before, [token] + after, connect, host, port);
    assert before + [token] + after == before + ([token] + after);
  }

  /** Connecting on one family makes the rest of the order irrelevant. */
  lemma ConnectedIgnoresRest(before: seq<string>, token: string, after: seq<string>, connect: Connect, host: Value, port: int, fd: int)
    requires forall i :: 0 <= i < |before| ==> PassesOver(before[i], connect, host, port)
    requires FamilyOf(token).Some? && connect(FamilyOf(token).value, host, port) == Connected(fd)
    ensures TryFamilies(before + [token] + after, connect, host, port) == Ok(Some(fd))
  {
    NoSocket(before, connect, host, port);
    TryFamiliesAppend(before, [token] + after, connect, host, port);
    assert before + [token] + after == before + ([token] + after);
  }

  /** The default order tries IPv6 first and falls back to IPv4 only when
      IPv6 does not resolve. */
  lemma DefaultOrder(kwargs: map<string, Value>, connect: Connect, host: Value, port: int)
    requires "aforder" !in kwargs
    ensures Connection(NewAction(TcpKind, kwargs), host, port, connect) ==
            match connect(V6, host, port)
            case Connected(fd) => Ok(Some(fd))
            case Failed => Err(SocketErr)
            case Unresolved =>
              match connect(V4, host, port)
              case Connected(fd) => Ok(Some(fd))
              case Failed => Err(SocketErr)
              case Unresolved => Ok(None)
  {
    SplitAppend("6", "4", ',');
    SplitNoSeparator("4", ',');
    SplitNoSeparator("6", ',');
    assert "6" + [','] + "4" == "6,4";
    assert Split("6,4", ',') == ["6", "4"];
    var a := NewAction(TcpKind, kwargs);
    assert a.settings["aforder"] == Str("6,4");
    assert Families(a) == Ok(["6", "4"]);
    assert FamilyOf("6") == Some(V6) && FamilyOf("4") == Some(V4);
    assert ["6", "4"][1..] == ["4"] && ["4"][1..] == [];
    var second := TryFamilies(["4"], connect, host, port);
    assert second == match FamilyOf("4")
                     case None => Err(AFUnknown)
                     case Some(f) =>
                       match connect(f, host, port)
                       case Connected(fd) => Ok(Some(fd))
                       case Unresolved => TryFamilies([], connect, host, port)
                       case Failed => Err(SocketErr);
    assert second == match connect(V4, host, port)
                     case Connected(fd) => Ok(Some(fd))
                     case Failed => Err(SocketErr)
                     case Unresolved => Ok(None);
    assert TryFamilies(["6", "4"], connect, host, port) ==
           match connect(V6, host, port)
           case Connected(fd) => Ok(Some(fd))
           case Failed => Err(SocketErr)
           case Unresolved => second;
  }
}
