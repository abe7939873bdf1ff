/** The action base class: settings fixed when the action is built, the
    three-level lookup `_get`, and the keyword overlay of `execute`. */
module Actions {
  import opened Values

  /** The built-in action classes. */
  datatype ActionKind = CommandKind | JumpKind | TcpKind

  /** An action object; its settings never change after construction. */
  datatype Action = Action(kind: ActionKind, settings: map<string, Value>)

  /** `_defaults()` of each class: only `tcp` has one, its family order. */
  function Defaults(kind: ActionKind): map<string, Value>
  {
    match kind
    case TcpKind => map["aforder" := Str("6,4")]
    case _ => map[]
  }

  /** `_keywords()`: no built-in action overrides the empty list. */
  function Keywords(kind: ActionKind): seq<string>
  {
    []
  }

  /** `Action(**kwargs)`: the defaults, overridden by the constructor's arguments. */
  function NewAction(kind: ActionKind, kwargs: map<string, Value>): (a: Action)
    ensures a.kind == kind
    ensures a.settings.Keys == Defaults(kind).Keys + kwargs.Keys
    ensures forall k :: k in kwargs ==> a.settings[k] == kwargs[k]
    ensures forall k :: k in Defaults(kind) && k !in kwargs ==> a.settings[k] == Defaults(kind)[k]
  {
    Action(kind, Update(Defaults(kind), kwargs))
  }

  /** `_get(name, kwargs, default)`: the per-rule parameter, else the action's
      setting, else the caller's value. */
  function ActionGet(a: Action, name: string, kwargs: map<string, Value>, default: Value): (v: Value)
    ensures name in kwargs ==> v == kwargs[name]
    ensures name !in kwargs && name in a.settings ==> v == a.settings[name]
    ensures name !in kwargs && name !in a.settings ==> v == default
  {
    Get(kwargs, name, Get(a.settings, name, default))
  }

  /** The keyword arguments `_execute` receives: the caller's, with every
      listed keyword of a dict actionarg written over them. */
  function Overlay(kwargs: map<string, Value>, actionarg: Value, keywords: seq<string>): (ck: map<string, Value>)
  {
    if actionarg.Dict? then
      Update(kwargs, map k | k in actionarg.entries && k in keywords :: actionarg.entries[k])
    else kwargs
  }

  /** Only keywords are taken from the actionarg; every other key is the caller's. */
  lemma OverlayKeys(kwargs: map<string, Value>, actionarg: Value, keywords: seq<string>, k: string)
    ensures k in Overlay(kwargs, actionarg, keywords) <==>
            k in kwargs || (actionarg.Dict? && k in actionarg.entries && k in keywords)
    ensures k in Overlay(kwargs, actionarg, keywords) ==>
            Overlay(kwargs, actionarg, keywords)[k] ==
            if actionarg.Dict? && k in actionarg.entries && k in keywords then actionarg.entries[k] else kwargs[k]
  {
  }

  /** With the base class's empty keyword list the caller's arguments pass unchanged. */
  lemma NoKeywordsNoOverlay(kind: ActionKind, kwargs: map<string, Value>, actionarg: Value)
    ensures Overlay(kwargs, actionarg, Keywords(kind)) == kwargs
  {
    forall k ensures k in Overlay(kwargs, actionarg, Keywords(kind)) <==> k in kwargs {
      OverlayKeys(kwargs, actionarg, Keywords(kind), k);
    }
  }

  /** The loop of `execute` that builds `callkwargs` from a copy of `kwargs`,
      for the keyword list `_keywords()` of the action's class. */
  method CallKwargs(keywords: seq<string>, actionarg: Value, kwargs: map<string, Value>) returns (ck: map<string, Value>)
    ensures ck == Overlay(kwargs, actionarg, keywords)
  {
    ck := kwargs;
    if actionarg.Dict? {
      var keys := actionarg.entries.Keys;
      ghost var done: set<string> := {};
      while keys != {}
        invariant keys + done == actionarg.entries.Keys && keys !! done
        invariant forall k :: k in ck <==> k in kwargs || (k in done && k in keywords)
        invariant forall k :: k in ck ==> ck[k] == if k in done && k in keywords then actionarg.entries[k] else kwargs[k]
        decreases keys
      {
        var i :| i in keys;
        if i in keywords {
          ck := ck[i := actionarg.entries[i]];
        }
        keys := keys - {i};
        done := done + {i};
      }
    }
    forall k
      ensures k in ck <==> k in Overlay(kwargs, actionarg, keywords)
      ensures k in ck ==> ck[k] == Overlay(kwargs, actionarg, keywords)[k]
    {
      OverlayKeys(kwargs, actionarg, keywords, k);
    }
  }
}
