# sshfdpass, modelled in Dafny

sshfdpass is the helper ssh runs as a `ProxyCommand` with `ProxyUseFDPass`.
It gets the target host and port on its command line and looks up the rules
configured for `host:port` and for `host`, always followed by a plain `tcp`
fallback. It then takes the first rule that has no test, or whose test
evaluates true, and runs that rule's action. Finally it passes the resulting
descriptor back to ssh on standard output in a single `SCM_RIGHTS` message.

The model covers the decision logic of that program. Every socket, fork and
file operation is an input or an output of the model.

- **`Values`** (`values.dfy`): Python's dynamic values (`None`, bool, int, str,
  list, dict) and the errors the program raises or lets escape. It also has
  the few built-ins the core relies on: `dict.get`, `dict.update`, `str()`,
  `int()`, `for` iteration, `str.split` and `str.join`.
- **`Common`** (`argparse.dfy`): the `%` placeholder scanner `argparse`. It is
  an imperative method whose loop invariant ties it to a two-state scanning
  function. Lemmas state what the scanner does to `%h`, `%p`, `%%`, a
  trailing `%`, and text without `%`.
- **`Ipv4Range`** (`ipv4range.dfy`): `ip_in_range` on unbounded integers.
  - Addresses are packed big-endian into 32 bits, and the shift and `&` with
    `0xffffffff` are written out.
  - The mask keeps exactly the top `bits` bits. /0 matches everything, /32
    matches only the identical address, and /8 through /32 on whole octets
    compare the leading octets.
  - Printing an address and parsing it back gives the same address.
- **`Tests`** (`tests.dfy`): the test object as a class. Its fields are
  `result`, `cache` and the read-only `settings`, plus two ghost counters that prove the
  local address is probed at most once and the verdict computed at most
  once. `parse_test`'s case analysis is a function, and the method that
  builds the object is proved against it.
- **`Actions`**, **`CommandAction`**, **`JumpAction`** and **`TcpAction`**
  (`actions.dfy`, `command.dfy`, `jump.dfy`, `tcp.dfy`):
  - the three-level `_get` lookup and the keyword overlay of `execute`;
  - the argument vector of `command`;
  - the `ssh -W [h]:p [-J a,b] final` vector of `jump`;
  - the address-family loop of `tcp`, with each connection attempt's outcome
    supplied by an oracle.
- **`Execution`** (`execute.dfy`): `AbstractAction.execute`. Standard output
  is a class whose `sent` log records every message sent. On success exactly
  one message goes out: payload `[0]` plus the descriptor. On any failure
  nothing is sent.
- **`Engine`** (`engine.dfy`):
  - `get_my_rules` and `get_action_params`;
  - the first-wins (`setdefault`) registries built by `load_config`;
  - `run`'s first-accept loop. It computes each rule's action parameters
    before consulting its test, dispatches at most once, and never runs past
    the fallback.

The program touches the outside world in four places, and each becomes a
parameter:
- the local address of a connection to `(dsthost, dstport)` (`Tests.Probe`).
  It is a pure function, so every probe of the same `(dsthost, dstport)` in
  one run gets the same answer, for example two derived inline tests.
  RunRules and Run state that the rule loop leaves every registered test's
  answer unchanged, and that statement relies on the probe being pure;
- the outcome of each `connect` of the `tcp` action (`TcpAction.Connect`);
- the descriptor the parent keeps of a fresh socket pair (`Execution.Env`);
- the command line, which `Engine.Run` receives as `argv`.

The configuration is passed in already parsed:
- the settings map;
- the user tests, as a sequence of (name, definition) pairs in configuration
  order;
- the rules map.

The registries start with the built-in test `ipv4range` and then the
built-in actions `command`, `jump` and `tcp`, in module order. This replaces
package scanning.

Where the code and its design description differ, the model follows the code,
except in the last item, where it corrects an evident bug:
- A rule without an `action` key fails with the generic sshfdpass exception,
  not a dedicated missing-action error. `rule.get('action', sshfdpassMissingAction)`
  returns the exception class, which is then rejected as neither a string nor
  a dict.
- The `tcp` action reads `aforder` from its own settings only, so a rule
  parameter `tcp.aforder` has no effect (`Execution.TcpIgnoresRuleOrder`).
- `jump`'s `-W [host]:port` argument goes through `argparse` a second time
  inside `command`. A `%` in the host is therefore consumed, for example the
  zone separator of an IPv6 link-local address (`JumpAction.ZoneRescanned`).
- A rule whose action name is not registered (such as `tcp4`) ends in
  `KeyError` in `run`. Its parameters still resolve as described, which
  `Engine.PrefixedParameter` and `Execution.RuleParametersWin` show.
- For a one-key dict test naming an unregistered test, `parse_test` as
  written raises NameError, because its log line formats the undefined name
  `target`. The model corrects that branch to TestUnknown, the error the
  string form raises. Tests.Classify, Tests.ParseTest and everything built
  on them (Engine.Answer, Engine.Registry.Consult, Engine.Registry.Step,
  Engine.ParsedAgainst, Engine.Registry.LoadConfig, Engine.Run) use the
  corrected branch. Tests.ClassifyAsWritten and Tests.AsWrittenUnknownParent
  model the code as written, and the Findings section records the
  difference.

## Model

| member | source | states |
|---|---|---|
| Values.Display | lib/sshfdpass/actions/command.py:32 | `str(v)` of a string is the string itself and of an int its decimal text, which `int()` reads back as the int; only lists and dicts fail (their repr is not modelled) |
| Values.ToInt | lib/sshfdpass/actions/__init__.py:80 | `int(v)` of an int is that int |
| Values.Iterate | lib/sshfdpass/__init__.py:206-207 | iterating a list visits its items; a string is visited character by character, each item the one-character string at that place |
| Values.JoinValues | lib/sshfdpass/actions/jump.py:20 | `','.join(items)` succeeds exactly when every item is a string, and then is the items' texts with the separator between them |
| Values.JoinValuesSplit | lib/sshfdpass/actions/jump.py:20 | joining non-empty string items that do not contain the separator succeeds, and splitting the result gives the items' texts back |
| Values.Split | lib/sshfdpass/tests/ipv4range.py:52-54 | `split` gives at least one part and no part contains the separator |
| Values.SplitJoin | lib/sshfdpass/tests/ipv4range.py:52-54 | joining separator-free parts and splitting again gives the parts back |
| Values.JoinSplit | lib/sshfdpass/tests/ipv4range.py:52-54 | splitting and joining on the same separator gives the text back |
| Values.IntToStringRoundTrip | lib/sshfdpass/actions/__init__.py:80 | `int(str(n)) == n` for every integer |
| Common.Expand | lib/sshfdpass/common/__init__.py:8-22 | a non-string argument raises the generic exception; a string succeeds exactly when its scan does |
| Common.Subst | lib/sshfdpass/common/__init__.py:20 | `rules.get(c, c)`: the character itself when there is no rule, and a failure exactly when the rule's value is not a string |
| Common.ArgParse | lib/sshfdpass/common/__init__.py:8-22 | the character loop with its `status` flag returns exactly the two-state scan of the argument, or the error above |
| Common.NoPercentUnchanged | lib/sshfdpass/common/__init__.py:11-17 | text with no `%` comes back unchanged whatever the rules |
| Common.NoPercentLiteralState | lib/sshfdpass/common/__init__.py:12-17 | text with no `%` leaves the machine in literal state |
| Common.ScanConcat | lib/sshfdpass/common/__init__.py:12-20 | scanning is single-pass and compositional: after text ending in literal state, the rest is scanned on its own, so substituted text is never rescanned |
| Common.Placeholders | lib/sshfdpass/common/__init__.py:18-20 | `%h` becomes the host and `%p` the port, wherever they stand after literal text |
| Common.EscapedLiteral | lib/sshfdpass/common/__init__.py:20 | `%` before a character with no rule emits just that character and returns to literal state |
| Common.TrailingPercentDropped | lib/sshfdpass/common/__init__.py:13-21 | a lone trailing `%` is dropped |
| Common.NoRulesNotLonger | lib/sshfdpass/common/__init__.py:12-20 | with an empty rule map the scan always succeeds and is never longer than its input |
| Common.ExampleDoublePercent | lib/sshfdpass/common/__init__.py:12-20 | `%%h` becomes the literal `%h`, not the host |
| Common.ExampleJumpTarget | lib/sshfdpass/common/__init__.py:18-20 | `[%h]:%p` becomes `[example]:22` for host `example`, port `22` |
| Common.ExampleTrailingPercent | lib/sshfdpass/common/__init__.py:13-21 | `50%` becomes `50` |
| Ipv4Range.Pack | lib/sshfdpass/tests/ipv4range.py:52 | four octets packed as two hex digits each give a value below 2^32 |
| Ipv4Range.PackValue | lib/sshfdpass/tests/ipv4range.py:52 | the packed value is the number whose base-256 digits are the octets, most significant first |
| Ipv4Range.PackInjective | lib/sshfdpass/tests/ipv4range.py:52 | two addresses pack to the same value exactly when they are equal |
| Ipv4Range.MaskValue | lib/sshfdpass/tests/ipv4range.py:55 | `(0xffffffff << (32 - bits)) & 0xffffffff` is `bits` one-bits followed by `32 - bits` zero-bits |
| Ipv4Range.InRangePrefix | lib/sshfdpass/tests/ipv4range.py:55-57 | `(ip & mask) == (net & mask)` holds exactly when the two addresses agree on their top `bits` bits |
| Ipv4Range.PrefixZeroMatchesAll | lib/sshfdpass/tests/ipv4range.py:55-57 | a /0 network contains every address |
| Ipv4Range.Prefix32OnlyIdentical | lib/sshfdpass/tests/ipv4range.py:55-57 | a /32 network contains exactly the identical address |
| Ipv4Range.PrefixOctets | lib/sshfdpass/tests/ipv4range.py:55-57 | on a prefix of n whole octets, the address is in range exactly when its first n octets equal the network's |
| Ipv4Range.HostBitsIgnored | lib/sshfdpass/tests/ipv4range.py:54-57 | under /24 the network's last octet plays no role: `x.y.z.77/24` and `x.y.z.0/24` agree for every address |
| Ipv4Range.ParseOctet | lib/sshfdpass/tests/ipv4range.py:52 | an accepted octet is what `int()` gives for its text |
| Ipv4Range.OctetRoundTrip | lib/sshfdpass/tests/ipv4range.py:52 | the decimal text of every octet parses back to that octet |
| Ipv4Range.ParseDotted | lib/sshfdpass/tests/ipv4range.py:52 | the dotted-quad text of an address parses back to that address |
| Ipv4Range.IpInRange | lib/sshfdpass/tests/ipv4range.py:52-57 | `ip_in_range` answers only for a well-formed address and a string network (a non-string network fails on `split`) |
| Ipv4Range.IpInRangeWellFormed | lib/sshfdpass/tests/ipv4range.py:52-57 | on dotted-quad text with a prefix of 0..32, `ip_in_range` is exactly the CIDR predicate of the packed addresses |
| Ipv4Range.IpInRangeOctets | lib/sshfdpass/tests/ipv4range.py:52-57 | on an /8, /16, /24 or /32 network, `ip_in_range` compares leading octets, so 192.168.0.5 is in 192.168.0.0/24, 192.168.1.5 is not, and 10.0.0.1 is in 10.0.0.0/8 |
| Ipv4Range.AnyInRangeExists | lib/sshfdpass/tests/ipv4range.py:106-109 | with well-formed targets the loop answers, and answers true exactly when the address is in at least one target |
| Tests.Snapshot | lib/sshfdpass/tests/__init__.py:74-78 | every keyword argument ends up in the settings with its own value |
| Tests.InheritAppend | lib/sshfdpass/tests/__init__.py:75-77 | the parent loop over `a + b` is the loop over `a` continued over `b` |
| Tests.IncompatibleParentIgnored | lib/sshfdpass/tests/__init__.py:75-77 | a parent that fails the `isinstance` check contributes nothing, wherever it stands |
| Tests.OneParent | lib/sshfdpass/tests/__init__.py:74-78 | with one compatible parent the settings are the defaults, overridden by the parent's settings, overridden by the keyword arguments |
| Tests.InheritKeys | lib/sshfdpass/tests/__init__.py:74-78 | a key is a setting exactly when it is a default or a key of some compatible parent |
| Tests.NoTargetIsFalse | lib/sshfdpass/tests/ipv4range.py:106-109 | a missing or empty `target` gives false |
| Tests.OverrideReplacesTarget | lib/sshfdpass/tests/ipv4range.py:102-106 | a `target` override replaces the test's own targets entirely |
| Tests.VerdictExists | lib/sshfdpass/tests/ipv4range.py:106-109 | with well-formed targets the verdict is true exactly when the local address is in one of them |
| Tests.Test.constructor | lib/sshfdpass/tests/__init__.py:63-78 | a new test has no result, an empty cache, and settings built from defaults, compatible parents in order, then keyword arguments |
| Tests.Test.MyIp | lib/sshfdpass/tests/ipv4range.py:88-99 | the first call probes the test's own `dsthost`/`dstport` and caches a found address; later calls answer from the cache without probing; the answer is the test's local address before and after the call; nothing else changes |
| Tests.Test.EvaluateNow | lib/sshfdpass/tests/ipv4range.py:101-109 | the verdict over the settings merged with the overrides, using the address from the cache or from a probe of the test's own settings; the base class answers false without probing |
| Tests.Test.Evaluate | lib/sshfdpass/tests/__init__.py:93-107 | without overrides: a stored result is returned untouched, otherwise the verdict is computed once and stored, and the answer is the test's outcome before the call, which the call does not change; with overrides: a fresh verdict is returned and `result` is neither used nor changed; in both computing cases the cache holds the probed address afterwards |
| Tests.Classify | lib/sshfdpass/tests/__init__.py:151-175 | corrected (see Findings): a string is the registered test of that name, or TestUnknown; a one-key dict names a registered parent (TestUnknown otherwise) and yields its list value, or a string value wrapped in a list, as target; TestParseError exactly for non-str non-dict, TestAmbiguous exactly for a dict without exactly one key, TargetTypeUnknown exactly for a non-list non-str value, and for a registered parent with a list or string value TypeError exactly when the keyword arguments already hold `target` |
| Tests.StringTargetIsList | lib/sshfdpass/tests/__init__.py:156-159 | `{base: net}` means the same as `{base: [net]}` |
| Tests.AsWrittenUnknownParent | lib/sshfdpass/tests/__init__.py:162-166 | as written, `{unknown: v}` raises NameError while the string `unknown` raises TestUnknown |
| Tests.UnknownParentIsTestUnknown | lib/sshfdpass/tests/__init__.py:162-173 | corrected, an unknown name is TestUnknown whether it is given as a string or as a dict key |
| Tests.CorrectionIsLocal | lib/sshfdpass/tests/__init__.py:151-175 | the corrected case analysis agrees with the code as written everywhere except where the latter raises NameError, and there it gives TestUnknown |
| Tests.ParseTest | lib/sshfdpass/tests/__init__.py:111-175 | a name returns the registered test itself, ignoring keyword arguments; a one-key dict returns a fresh test of the parent's class with defaults, then the parent's settings, then the keyword arguments with `target` set; errors as classified |
| Actions.NewAction | lib/sshfdpass/actions/__init__.py:51-53 | an action's settings are its class defaults overlaid by the constructor's keyword arguments |
| Actions.ActionGet | lib/sshfdpass/actions/__init__.py:61-62 | `_get` returns the rule parameter if present, else the setting, else the default |
| Actions.OverlayKeys | lib/sshfdpass/actions/__init__.py:71-76 | a key of `callkwargs` is a caller key or a listed keyword of a dict actionarg; the actionarg's value wins exactly for listed keywords |
| Actions.NoKeywordsNoOverlay | lib/sshfdpass/actions/__init__.py:58-76 | with the empty `_keywords()` list, `callkwargs` equals `kwargs` |
| Actions.CallKwargs | lib/sshfdpass/actions/__init__.py:71-76 | the copy-then-overwrite loop builds exactly the overlay |
| CommandAction.Invocation | lib/sshfdpass/actions/command.py:13-28 | without actionarg the program and args come from `_get('command')` and `_get('args')`; a non-empty list gives its head and its tail in order; everything else (empty list, str, dict, ...) raises the generic exception |
| CommandAction.ExpandAllMeaning | lib/sshfdpass/actions/command.py:33-34 | the argument loop succeeds exactly when every argument expands, giving one expanded entry per argument in order; a failure is that of some argument |
| CommandAction.NoPlaceholdersVerbatim | lib/sshfdpass/actions/command.py:33-34 | arguments without `%` are passed verbatim |
| CommandAction.CommandLineShape | lib/sshfdpass/actions/command.py:16-34 | for a list actionarg, argv starts with the program unscanned, has one entry per list element, and entry i is `argparse` of element i with `%h` the host and `%p` the displayed port |
| CommandAction.ExpandArgs | lib/sshfdpass/actions/command.py:33-34 | the append loop produces exactly the expanded argument list, or the first argument's error |
| CommandAction.Execute | lib/sshfdpass/actions/command.py:10-43 | on success the parent's half of the socket pair is returned together with the program and argv the child executes; otherwise the command-line error |
| JumpAction.Hops | lib/sshfdpass/actions/jump.py:10-13 | a string actionarg becomes a one-element list, a list is kept, anything else fails |
| JumpAction.Execute | lib/sshfdpass/actions/jump.py:8-24 | the append sequence then command's `_execute` yields exactly the jump line: the `ssh` vector expanded by the command action |
| JumpAction.PlainArgs | lib/sshfdpass/actions/jump.py:14-21 | the vector is `ssh -W [H]:P`, then `-J` and the comma-join of all but the last hop when there are several, then the last hop; it contains no `%` when its parts do not |
| JumpAction.PlainCommandLine | lib/sshfdpass/actions/command.py:18-34 | a list actionarg without `%` runs its first word with the list unchanged as argv |
| JumpAction.PlainJump | lib/sshfdpass/actions/jump.py:10-24 | with `%`-free host, port and hops, the program is `ssh` and argv is `ssh -W [H]:P [-J a,b] last` (so `["mid","final"]` gives `ssh -W [h]:p -J mid final`, and one hop gives four entries without `-J`) |
| JumpAction.NoHopsIndexError | lib/sshfdpass/actions/jump.py:17 | an empty hop list is an IndexError |
| JumpAction.ZoneRescanned | lib/sshfdpass/actions/jump.py:14-24 | a `%` in the `-W` host is consumed by the command action's second scan: `[h%zone]:p` becomes `[hzone]:p` |
| TcpAction.Families | lib/sshfdpass/actions/tcp.py:10 | the order is the action setting `aforder` split on `,`; a missing or non-string setting has no `split` |
| TcpAction.Execute | lib/sshfdpass/actions/tcp.py:9-23 | the family loop returns exactly the result of trying the tokens in order |
| TcpAction.TryFamiliesAppend | lib/sshfdpass/actions/tcp.py:11-22 | trying `a + b` tries `b` only when every token of `a` merely failed to resolve |
| TcpAction.NoSocket | lib/sshfdpass/actions/tcp.py:11-23 | there is no socket exactly when every token names a family and none resolves |
| TcpAction.FirstConnectionWins | lib/sshfdpass/actions/tcp.py:11-22 | a returned socket is that of the first token that connects, and every earlier token failed to resolve |
| TcpAction.UnknownTokenReached | lib/sshfdpass/actions/tcp.py:12-17 | an unknown token raises AFUnknown when the loop reaches it |
| TcpAction.ConnectedIgnoresRest | lib/sshfdpass/actions/tcp.py:18-22 | after a connection the remaining tokens, even malformed ones, are never looked at |
| TcpAction.DefaultOrder | lib/sshfdpass/actions/tcp.py:6-22 | the default `6,4` tries IPv6 first and IPv4 only when IPv6 does not resolve |
| Execution.Stdout.SendFd | lib/sshfdpass/actions/__init__.py:89-100 | one message is appended: payload `[0]` and the one descriptor |
| Execution.Stdout.Spawn | lib/sshfdpass/actions/command.py:38-52 | the forked child is recorded and nothing is sent |
| Execution.DispatchNow | lib/sshfdpass/actions/__init__.py:78-87 | the class's `_execute` yields the descriptor of its outcome, with ActionError for a result without a descriptor; nothing is sent |
| Execution.Execute | lib/sshfdpass/actions/__init__.py:67-100 | on success exactly one message carrying the outcome's descriptor is sent and True returned; on any failure nothing is sent |
| Execution.HandoffShape | lib/sshfdpass/actions/__init__.py:78-100 | `tcp` hands over its socket and starts no child; the other actions hand over the parent's socket-pair half and start exactly one child |
| Execution.RuleParametersWin | lib/sshfdpass/actions/__init__.py:78-80 | `host` and `port` rule parameters replace the caller's host and port |
| Execution.TcpIgnoresRuleOrder | lib/sshfdpass/actions/tcp.py:10 | an `aforder` rule parameter does not change the outcome of `tcp` |
| Execution.TcpWithoutSocket | lib/sshfdpass/actions/__init__.py:84-87 | `tcp` running out of families is ActionError |
| Execution.BadPortStops | lib/sshfdpass/actions/__init__.py:80 | a port `int()` rejects stops the action with that error |
| Execution.CallerPortParsed | lib/sshfdpass/actions/__init__.py:78-80 | the caller's port string reaches `_execute` as the number it spells |
| Engine.FallbackLast | lib/sshfdpass/__init__.py:205-209 | the candidate list is never empty and ends with `{action: tcp}` |
| Engine.RulesInOrder | lib/sshfdpass/__init__.py:205-209 | the candidates are the `host:port` rules, then the `host` rules, in configuration order, then the fallback |
| Engine.OnlyFallback | lib/sshfdpass/__init__.py:205-209 | a host with no rule keys gets exactly `[{action: tcp}]` |
| Engine.Strip | lib/sshfdpass/__init__.py:261-263 | the parameters are exactly the rule keys that start with the prefix, with the prefix removed and their values kept |
| Engine.ActionParamsMeaning | lib/sshfdpass/__init__.py:246-264 | a string action gives (name, None, params); a one-key dict gives (key, value, params); a non-dict rule, a missing action, a dict of another size or any other type fails |
| Engine.CollectParams | lib/sshfdpass/__init__.py:261-263 | the `setdefault` loop builds exactly the stripped parameters |
| Engine.GetActionParams | lib/sshfdpass/__init__.py:211-264 | `get_action_params` returns exactly the specified action triple or error |
| Engine.StripHost | lib/sshfdpass/__init__.py:261-263 | `NAME.host` is not `action`, and stripping the prefix `NAME.` from `{action: NAME, NAME.host: v}` leaves exactly `{host: v}` |
| Engine.DottedNotAction | lib/sshfdpass/__init__.py:261-263 | no key under the prefix `NAME.` is `action` |
| Engine.PrefixCancels | lib/sshfdpass/__init__.py:261-263 | two keys under the same prefix are equal only when their rests are |
| Engine.PrefixedParameter | lib/sshfdpass/__init__.py:246-263 | `{action: NAME, NAME.host: v}` gives `(NAME, None, {host: v})` |
| Engine.BareAction | lib/sshfdpass/__init__.py:246-263 | a rule with only an action name gives no parameters |
| Engine.SetDefaultsKeys | lib/sshfdpass/__init__.py:170-179 | registering a list adds exactly its names |
| Engine.EarlierStays | lib/sshfdpass/__init__.py:170-179 | an entry registered earlier is never replaced |
| Engine.FirstWins | lib/sshfdpass/__init__.py:170-179 | a new name holds the value of its first registration |
| Engine.SectionKwargs | lib/sshfdpass/__init__.py:172-179 | `settings.get(section, {}).get(name, {})` is the entry's own keyword map when it is a dict, empty when absent, and fails exactly when a level is not a dict |
| Engine.Registry.Register | lib/sshfdpass/__init__.py:179 | `setdefault` on the test registry; actions unchanged; registering an unevaluated test into a registry of unevaluated tests keeps every test unevaluated |
| Engine.Registry.ParseUserTest | lib/sshfdpass/__init__.py:179 | a user test is parsed against the tests registered so far: a name gives that test, a one-key dict a test of the parent's class whose settings are the class defaults, then the parent's settings, then the section keywords with the target; a derived test is fresh, with no result and an empty cache |
| Engine.Registry.AddUserTest | lib/sshfdpass/__init__.py:179 | one user test: on success it is what `parse_test` gives against the tests registered before, with its section keywords, and is registered first-wins; on failure the registry is unchanged and the error is the section's or the parse's; a registry of unevaluated tests stays unevaluated |
| Engine.Registry.AddUserTests | lib/sshfdpass/__init__.py:177-179 | the user tests are parsed in order, each against the registry of those before it with the settings stated by ParseUserTest, and registered first-wins; no test becomes evaluated |
| Engine.ReplayedMeaning | lib/sshfdpass/__init__.py:177-179 | each registered user test carries its own name and is what `parse_test` gave against the registry before it: the named test itself, or a test of the parent's class with the parent's settings, section keywords and target over the class defaults |
| Engine.ReplayedAt | lib/sshfdpass/__init__.py:177-179 | the user test at place i carries its own name and is what `parse_test` gave for it against the registry of the pairs before place i |
| Engine.ReplayedSnoc | lib/sshfdpass/__init__.py:177-179 | parsing the next user test against the registry so far extends the replayed list by its pair |
| Engine.SetDefaultsValues | lib/sshfdpass/__init__.py:170-179 | every registered value was registered before or is one of the pairs |
| Engine.Registry.AddBuiltins | lib/sshfdpass/__init__.py:169-176 | the built-in test `ipv4range` is a fresh, unevaluated test built from its section keywords and registered first-wins, then the built-in actions from theirs; a section that is not a dict is its error |
| Engine.Registry.LoadConfig | lib/sshfdpass/__init__.py:150-179 | on success: the built-in test with its section settings, then the built-in actions, then the user tests, all registered first-wins, so a user test reusing a built-in name is parsed but not registered (loading succeeds only when it parses); tests unevaluated before are unevaluated after |
| Engine.LoadGlobals | lib/sshfdpass/__init__.py:150-179 | loading into empty registries: on success they hold what LoadConfig registers, and every registered test answers the verdict of its own settings over a probe of its own `dsthost`/`dstport`, since none has been evaluated yet |
| Engine.Registry.Consult | lib/sshfdpass/__init__.py:282-284 | the answer of `parse_test(test, _tests).evaluate()` over a snapshot of the tests that the call leaves unchanged: a reference that does not parse is that error, a registered name answers its outcome (a stored verdict when there is one), a one-key dict the verdict of the derived test |
| Engine.Registry.Step | lib/sshfdpass/__init__.py:281-284 | a rule decides as Decide says over the unchanged snapshot: its action parameters come before its test, so a malformed action fails even when the test would be false |
| Engine.Registry.View | lib/sshfdpass/__init__.py:282-284 | the snapshot has exactly the registered names |
| Engine.AnswerMeaning | lib/sshfdpass/tests/__init__.py:93-175 | a test reference that does not parse is its error; a registered name answers that test's outcome; a one-key dict is the verdict of a test of the parent's class whose settings are the parent's over the class defaults with the given target, probed from those settings |
| Engine.DecideMeaning | lib/sshfdpass/__init__.py:281-285 | a malformed action fails before the test; a rule without a test is accepted; a rule with a test fails with the test's error or is accepted exactly when the test answers true |
| Engine.Rejected | lib/sshfdpass/__init__.py:279-285 | one more rule decided and rejected extends a run of rejected rules |
| Engine.Registry.Select | lib/sshfdpass/__init__.py:279-287 | the rules are decided in order; each visit is its rule's decision; every visit but the last was rejected; running off the end rejects all, a dispatch choice is the last visit and accepted, and an error is the decision of the next rule after rejected ones |
| Engine.Registry.RunCandidates | lib/sshfdpass/__init__.py:279-287 | each visited rule is what Decide gives it, every visit but the last had a test that answered false; on success the last visit was accepted and its action dispatched exactly once; running off the end sends nothing; an error is the next rule's decision, the action's outcome, or KeyError for an unregistered action, and sends nothing |
| Engine.Registry.RunRules | lib/sshfdpass/__init__.py:279-287 | over the candidate list the loop never runs off the end: success is always True, with every visit the rule's decision, every registered test's answer unchanged, the rejected ones before the accepted one, and the accepted rule dispatched once; on error nothing is sent |
| Engine.Fire | lib/sshfdpass/__init__.py:285-287 | the chosen action's `execute` sends exactly one message on success and nothing on failure, which is the action's outcome error |
| Engine.Run | lib/sshfdpass/__init__.py:266-287 | missing host or port is IndexError; on success the registries are new and hold what `load_config` registers (the built-in test, the built-in actions, then the user tests as parsed, first-wins), every registered test answers the verdict of its own settings over a probe of its own `dsthost`/`dstport`, every visited rule is the decision of the candidate in that place, all but the last rejected, and the accepted rule's action sent exactly one descriptor; on failure nothing was sent |

## Left out

- Reading the configuration file (`lib/sshfdpass/common/config.py`), its YAML/JSON parsing and the HOME lookup are I/O. The parsed settings, user tests and rules are parameters.
- A configuration `tests` section that is not a dict is not modelled. The user tests are a sequence of (name, definition) pairs, because a Dafny map keeps no insertion order.
- Logging (`lib/sshfdpass/common/logging.py` and every `log.message`) has no effect on behaviour and is left out. The one exception is the log line that raises NameError, which is the finding below.
- Package scanning with `pkgutil.walk_packages` is replaced by the fixed lists of built-in modules, in module order.
- The probe connection and `getsockname` of `myip` are an oracle. A failed probe is its error, and nothing is cached.
- Socket creation and `connect` in `tcp` are an oracle that answers connected, unresolved (`gaierror`) or failed. The oracle is a pure function of family, host and port, so a repeated token in `aforder` (such as `4,4`) gets the same answer on every attempt; a second attempt that succeeds after the first failed to resolve is not modelled.
- `socketpair`, `fork`, `dup2` and `execvp` are OS primitives. The parent's descriptor is an input, and the child is recorded as a program plus argv. The child's own side of the fork is not modelled.
- `sendmsg` is modelled as appending one message to a log. Its failure, and the Python 2 compatibility fallbacks, are not modelled.
- `sys.argv` is a parameter.
- `str()` of a list or dict, and iterating a dict, give `Unmodelled`. Python's output there depends on repr formatting and on dict insertion order.
- `Values.ParseInt` accepts an optional sign followed by decimal digits. Python's `int()` also accepts surrounding whitespace and underscores, which are not modelled.
- Ipv4Range.IpInRange: addresses that do not have exactly four octets in 0..255 give ValueErr. In Python, ValueError is only certain for a negative octet after the first: `'%02x'` writes it with a minus sign inside the hex text (`1.-1.0.0` packs to `01-10000`), and `int(..., 16)` rejects that. An octet above 255, a wrong number of octets or a negative first octet give hex text that `int` accepts, so Python silently compares some other number. The model does not capture those numbers.
- Values hold no floats. A YAML setting such as `dstport: 53.0` cannot be represented, so what `int()` and `'%s'` do with it is not modelled.
- Ipv4Range.IpInRange: a negative prefix gives ValueErr. In Python it shifts left by more than 32 bits, which leaves a zero mask that matches every address. A prefix above 32 gives ValueErr in both, from the negative shift count.
- Engine.Registry.LoadConfig, Engine.Run: say nothing about the registries when loading fails part-way; `run` stops there anyway.
- Tests.Test.MyIp: the ghost probe counter counts successful probes only. A failed probe raises, so `run` stops anyway.
- Ipv4Range.IpInRangeOctets, Engine.PrefixedParameter and Engine.BareAction state the documented worked examples for all addresses and all names, not as literal instances.

## Findings

| source | as written | input that shows it | evidently intended | confidence | as-written member | corrected member |
|---|---|---|---|---|---|---|
| lib/sshfdpass/tests/__init__.py:163-166 | the branch for a one-key dict naming an unregistered test formats a log message with the undefined name `target`, raising NameError before it reaches `raise(sshfdPassTestUnkown)`, whose name is misspelt as well | test definition `{"nosuch": "x"}` with no test `nosuch` registered | raise TestUnknown, as the string form does | not executed | Tests.AsWrittenUnknownParent | Tests.UnknownParentIsTestUnknown |
