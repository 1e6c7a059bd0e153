/**
 The slash-command registry of the client (`loadSlashCommandsModule` in lib/client.ts):
 a map from command name to command, the append-only list of wire payloads sent to the
 bulk-registration endpoint, and the per-command handler table filled from a module's
 exported `handle*` functions.
 */
module Registry {
  import opened Values
  import opened Strings

  /** One declared option of a slash command. */
  datatype CommandOption = StringOption(name: string, description: string, autocomplete: bool)

  /**
   The declarative metadata of a command (`data`). `serialisable` tells whether `data` has
   a working `toJSON`, as the slash-command builder does; a plain object with a name and a
   description has none, and calling it throws.
   */
  datatype CommandData = CommandData(name: string, description: string, options: seq<CommandOption>, serialisable: bool)

  /** The serialised form `data.toJSON()` sent for bulk registration. */
  datatype Payload = Payload(name: string, description: string, options: seq<CommandOption>)

  function ToJson(d: CommandData): Payload {
    Payload(d.name, d.description, d.options)
  }

  /** Handler table of a command: property name to value. */
  type HandlerTable = map<string, JsValue>

  /**
   A command object: `data` (absent or an object), `execute` (any value) and the optional
   `handlers` object.
   */
  datatype Command = Command(data: Option<CommandData>, execute: JsValue, handlers: Option<HandlerTable>)

  /** One enumerable export of a module, as listed by `Object.keys(module)`. */
  datatype Export = Export(key: string, value: JsValue)

  /**
   A loaded module: its `default` export when that is a truthy object, the module object
   itself read as a command (its own `data`, `execute` and `handlers` exports), and its
   enumerable exports in key order.
   */
  datatype Module = Module(defaultExport: Option<Command>, topLevel: Command, exports: seq<Export>)

  /** The registry of one client: `slashCommands` and `slashCommandsInJson`. */
  datatype Registry = Registry(commands: map<string, Command>, payloads: seq<Payload>)

  const Empty: Registry := Registry(map[], [])

  const HandlerPrefix: string := "handle"

  /**
   `isValidHandlerKey`: the three handler names the router looks up. Each of them passes
   the `handle` prefix test as well, so the allow-list alone decides what is installed.
   */
  predicate IsValidHandlerKey(key: string)
    ensures IsValidHandlerKey(key) ==> StartsWith(key, HandlerPrefix)
  {
    key in ["handleButtonClick", "handleAutoComplete", "handleModalSubmit"]
  }

  /** `module?.default || module` */
  function CommandOf(m: Module): Command {
    m.defaultExport.GetOr(m.topLevel)
  }

  /** The guard `command && command.data && command.execute`. */
  predicate Accepts(c: Command) {
    c.data.Some? && c.execute.IsTruthy()
  }

  /**
   The guard holds and `data.toJSON()` returns. When it throws, the asynchronous callback's
   promise is rejected before anything is stored or pushed.
   */
  predicate Registers(c: Command) {
    Accepts(c) && c.data.value.serialisable
  }

  /** The name an accepted module is registered under. */
  function NameOf(m: Module): string
    requires Accepts(CommandOf(m))
  {
    CommandOf(m).data.value.name
  }

  /** An export survives the `handle*`/function filter and the allow-list check. */
  predicate Installable(e: Export) {
    StartsWith(e.key, HandlerPrefix) && e.value.IsFunction() && IsValidHandlerKey(e.key)
  }

  /** Some export with key `k` is installed. */
  predicate Overrides(exports: seq<Export>, k: string) {
    exists i :: 0 <= i < |exports| && exports[i].key == k && Installable(exports[i])
  }

  /** No later export has the same key as export `i`. */
  predicate LastWithKey(exports: seq<Export>, i: int)
    requires 0 <= i < |exports|
  {
    forall j :: i < j < |exports| ==> exports[j].key != exports[i].key
  }

  /** Whether export `e` is installed, `Overrides` splits into the earlier exports and `e`. */
  lemma OverridesSnoc(exports: seq<Export>, e: Export, k: string)
    ensures Overrides(exports + [e], k) <==> Overrides(exports, k) || (Installable(e) && e.key == k)
  {
    var es := exports + [e];
    if Overrides(es, k) && !(Installable(e) && e.key == k) {
      var i :| 0 <= i < |es| && es[i].key == k && Installable(es[i]);
      assert i < |exports| && exports[i] == es[i];
    }
    if Overrides(exports, k) {
      var i :| 0 <= i < |exports| && exports[i].key == k && Installable(exports[i]);
      assert es[i] == exports[i];
    }
    if Installable(e) && e.key == k {
      assert es[|exports|] == e;
    }
  }

  /**
   The `handlers.forEach` loop: install each qualifying export under its own name, in key
   order, so that a later export of the same name overwrites an earlier one.
   */
  function InstallHandlers(h: HandlerTable, exports: seq<Export>): (r: HandlerTable)
    // installed keys are exactly the old keys plus the qualifying export names
    ensures forall k :: k in r <==> k in h || Overrides(exports, k)
    // a key that no qualifying export names keeps its old value
    ensures forall k :: k in h && !Overrides(exports, k) ==> r[k] == h[k]
    // every new or replaced key is on the allow-list and holds a function
    ensures forall k :: Overrides(exports, k) ==> IsValidHandlerKey(k) && r[k].IsFunction()
    decreases |exports|
  {
    if |exports| == 0 then h
    else
      var init := exports[..|exports| - 1];
      var e := exports[|exports| - 1];
      var r := InstallHandlers(h, init);
      assert exports == init + [e];
      forall k ensures Overrides(exports, k) <==> Overrides(init, k) || (Installable(e) && e.key == k) {
        OverridesSnoc(init, e, k);
      }
      if Installable(e) then r[e.key := e.value] else r
  }

  /** The last qualifying export of a name supplies the installed value. */
  lemma {:induction false} InstallHandlersLastWins(h: HandlerTable, exports: seq<Export>, i: nat)
    requires i < |exports| && Installable(exports[i]) && LastWithKey(exports, i)
    ensures exports[i].key in InstallHandlers(h, exports)
    ensures InstallHandlers(h, exports)[exports[i].key] == exports[i].value
    decreases |exports|
  {
    var init := exports[..|exports| - 1];
    var e := exports[|exports| - 1];
    assert exports == init + [e];
    if i < |exports| - 1 {
      assert LastWithKey(init, i) by {
        forall j | i < j < |init| ensures init[j].key != init[i].key {
          assert init[j] == exports[j];
        }
      }
      assert e.key != exports[i].key;
      InstallHandlersLastWins(h, init, i);
    }
  }

  /** One iteration of the `handlers.forEach` loop. */
  function InstallOne(h: HandlerTable, e: Export): HandlerTable {
    if Installable(e) then h[e.key := e.value] else h
  }

  /** The loop over a module with two exports. */
  lemma InstallHandlersPair(h: HandlerTable, e1: Export, e2: Export)
    ensures InstallHandlers(h, [e1, e2]) == InstallOne(InstallOne(h, e1), e2)
  {
    assert [e1, e2][..1] == [e1];
    assert [e1][..0] == [];
  }

  /** The command as it is stored: `handlers` defaulted to `{}` and the exports installed. */
  function Stored(m: Module): Command {
    var c := CommandOf(m);
    c.(handlers := Some(InstallHandlers(c.handlers.GetOr(map[]), m.exports)))
  }

  /** `loadSlashCommandsModule(module)` as a transition of the registry. */
  function Register(reg: Registry, m: Module): (r: Registry)
    ensures !Registers(CommandOf(m)) ==> r == reg
    ensures Registers(CommandOf(m)) ==>
      var d := CommandOf(m).data.value;
      && r.payloads == reg.payloads + [ToJson(d)]
      && r.commands.Keys == reg.commands.Keys + {d.name}
      && r.commands[d.name] == Stored(m)
      && (forall k :: k in reg.commands && k != d.name ==> r.commands[k] == reg.commands[k])
  {
    var c := CommandOf(m);
    if Registers(c) then
      Registry(reg.commands[c.data.value.name := Stored(m)], reg.payloads + [ToJson(c.data.value)])
    else reg
  }

  /** `slashCommands.get(name)`: the entry stored under `name`, or nothing. */
  function Lookup(reg: Registry, name: string): (r: Option<Command>)
    ensures r.Some? <==> name in reg.commands
    ensures r.Some? ==> r.value == reg.commands[name]
  {
    if name in reg.commands then Some(reg.commands[name]) else None
  }

  /**
   Every stored command is keyed by its own name, has `data` and a truthy `execute`, and
   has a handler table (never undefined).
   */
  ghost predicate WellFormed(reg: Registry) {
    forall k :: k in reg.commands ==>
      && reg.commands[k].data.Some?
      && reg.commands[k].data.value.name == k
      && reg.commands[k].data.value.serialisable
      && reg.commands[k].execute.IsTruthy()
      && reg.commands[k].handlers.Some?
  }

  lemma EmptyWellFormed()
    ensures WellFormed(Empty)
  {
  }

  /** Registration keeps the registry well formed. */
  lemma RegisterPreservesWellFormed(reg: Registry, m: Module)
    requires WellFormed(reg)
    ensures WellFormed(Register(reg, m))
  {
  }

  /** After registering a module that `Registers`, its command is found under its name. */
  lemma RegisterThenLookup(reg: Registry, m: Module)
    requires Registers(CommandOf(m))
    ensures Lookup(Register(reg, m), CommandOf(m).data.value.name) == Some(Stored(m))
    ensures Stored(m).handlers.Some?
  {
  }

  /**
   Registering two modules with the same command name keeps one map entry, the later one,
   but appends two payloads, in registration order.
   */
  lemma RegisterSameNameTwice(reg: Registry, m1: Module, m2: Module)
    requires Registers(CommandOf(m1)) && Registers(CommandOf(m2))
    requires CommandOf(m1).data.value.name == CommandOf(m2).data.value.name
    ensures var r := Register(Register(reg, m1), m2);
      && r.commands.Keys == Register(reg, m1).commands.Keys
      && r.commands[CommandOf(m2).data.value.name] == Stored(m2)
      && r.payloads == reg.payloads + [ToJson(CommandOf(m1).data.value), ToJson(CommandOf(m2).data.value)]
  {
  }

  /** Handlers written inline in the command are kept unless an export of the same name replaces them. */
  lemma InlineHandlersKept(m: Module, k: string)
    requires CommandOf(m).handlers.Some? && k in CommandOf(m).handlers.value
    ensures k in Stored(m).handlers.value
    ensures !Overrides(m.exports, k) ==> Stored(m).handlers.value[k] == CommandOf(m).handlers.value[k]
  {
  }

  /** Registering modules one after another, in loader order. */
  function RegisterAll(reg: Registry, ms: seq<Module>): Registry
    decreases |ms|
  {
    if |ms| == 0 then reg else RegisterAll(Register(reg, ms[0]), ms[1..])
  }

  /** Registering three modules one after another. */
  lemma RegisterAllThree(reg: Registry, m1: Module, m2: Module, m3: Module)
    ensures RegisterAll(reg, [m1, m2, m3]) == Register(Register(Register(reg, m1), m2), m3)
  {
    var r1 := Register(reg, m1);
    var r2 := Register(r1, m2);
    assert [m1, m2, m3][1..] == [m2, m3];
    assert [m2, m3][1..] == [m3];
    assert [m3][1..] == [];
    assert RegisterAll(reg, [m1, m2, m3]) == RegisterAll(r1, [m2, m3]);
    assert RegisterAll(r1, [m2, m3]) == RegisterAll(r2, [m3]);
    assert RegisterAll(r2, [m3]) == RegisterAll(Register(r2, m3), []);
  }

  /** The payloads contributed by a sequence of modules, in order. */
  function RegisteredPayloads(ms: seq<Module>): seq<Payload>
    decreases |ms|
  {
    if |ms| == 0 then []
    else (if Registers(CommandOf(ms[0])) then [ToJson(CommandOf(ms[0]).data.value)] else [])
         + RegisteredPayloads(ms[1..])
  }

  /** The payload list is the registered modules' payloads in registration order. */
  lemma {:induction false} RegisterAllPayloads(reg: Registry, ms: seq<Module>)
    ensures RegisterAll(reg, ms).payloads == reg.payloads + RegisteredPayloads(ms)
    decreases |ms|
  {
    if |ms| > 0 {
      RegisterAllPayloads(Register(reg, ms[0]), ms[1..]);
    }
  }

  /** Registering a sequence of modules keeps the registry well formed. */
  lemma {:induction false} RegisterAllPreservesWellFormed(reg: Registry, ms: seq<Module>)
    requires WellFormed(reg)
    ensures WellFormed(RegisterAll(reg, ms))
    decreases |ms|
  {
    if |ms| > 0 {
      RegisterPreservesWellFormed(reg, ms[0]);
      RegisterAllPreservesWellFormed(Register(reg, ms[0]), ms[1..]);
    }
  }

  /** The names of the modules of `ms` that get registered. */
  ghost function RegisteredNames(ms: seq<Module>): set<string> {
    set i | 0 <= i < |ms| && Registers(CommandOf(ms[i])) :: NameOf(ms[i])
  }

  /** Module `i` is registered and no later module of `ms` registers the same name. */
  ghost predicate LastRegistered(ms: seq<Module>, i: int)
    requires 0 <= i < |ms|
  {
    && Registers(CommandOf(ms[i]))
    && forall j :: i < j < |ms| && Registers(CommandOf(ms[j])) ==> NameOf(ms[j]) != NameOf(ms[i])
  }

  lemma RegisteredNamesCons(ms: seq<Module>)
    requires |ms| > 0
    ensures RegisteredNames(ms)
         == (if Registers(CommandOf(ms[0])) then {NameOf(ms[0])} else {}) + RegisteredNames(ms[1..])
  {
    var tail := ms[1..];
    forall k | k in RegisteredNames(tail)
      ensures k in RegisteredNames(ms)
    {
      var i :| 0 <= i < |tail| && Registers(CommandOf(tail[i])) && NameOf(tail[i]) == k;
      assert ms[i + 1] == tail[i];
    }
    forall k | k in RegisteredNames(ms) && !(Registers(CommandOf(ms[0])) && k == NameOf(ms[0]))
      ensures k in RegisteredNames(tail)
    {
      var i :| 0 <= i < |ms| && Registers(CommandOf(ms[i])) && NameOf(ms[i]) == k;
      assert i > 0 && tail[i - 1] == ms[i];
    }
  }

  /**
   After a run of registrations the map holds the old names plus every registered name;
   each registered name maps to the last module that registered it, and every other
   entry is unchanged.
   */
  lemma {:induction false} RegisterAllCommands(reg: Registry, ms: seq<Module>)
    ensures RegisterAll(reg, ms).commands.Keys == reg.commands.Keys + RegisteredNames(ms)
    ensures forall i :: 0 <= i < |ms| && LastRegistered(ms, i) ==>
      RegisterAll(reg, ms).commands[NameOf(ms[i])] == Stored(ms[i])
    ensures forall k :: k in reg.commands && k !in RegisteredNames(ms) ==>
      RegisterAll(reg, ms).commands[k] == reg.commands[k]
    decreases |ms|
  {
    if |ms| > 0 {
      var r1 := Register(reg, ms[0]);
      var tail := ms[1..];
      RegisterAllCommands(r1, tail);
      RegisteredNamesCons(ms);
      forall i | 0 <= i < |ms| && LastRegistered(ms, i)
        ensures RegisterAll(reg, ms).commands[NameOf(ms[i])] == Stored(ms[i])
      {
        if i > 0 {
          assert tail[i - 1] == ms[i];
          assert LastRegistered(tail, i - 1) by {
            forall j | i - 1 < j < |tail| && Registers(CommandOf(tail[j]))
              ensures NameOf(tail[j]) != NameOf(tail[i - 1])
            {
              assert tail[j] == ms[j + 1];
            }
          }
        }
      }
    }
  }
}
