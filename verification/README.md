# discora core in Dafny

A model of the core of discora, a small framework for Discord bots written in TypeScript.
The model covers:

- the client's **configuration decisions**: filling in default options, choosing the flat
  or the recursive loader for a folder kind, and choosing where slash commands are
  registered (`Config`);
- the **slash-command registry** that `loadSlashCommandsModule` maintains. It is a map from
  command name to command plus the append-only list of JSON payloads. Each command's
  handler table is filled from the module's exported `handle*` functions that pass the
  allow-list (`Registry`);
- the **interaction router** `handleCommand` and its four branches, with `extractCommandName`
  (`Router`);
- the two **module loaders**, as traversals of an abstract directory tree (`Loaders`);
- `loadCommands`, which connects the chosen loader to the registry (`Client`);
- the **definition validators** `createSlashCommand` and `createEvent` (`Toolkit`);
- the three **example commands**: `test` (autocomplete filter), `ping` (buttons) and
  `testmodal` (modal). Their pure behaviour is in `TestCommand`, `PingCommand` and
  `ModalCommand`. `Scenarios` registers them into one bot and routes concrete interactions
  through it.

JavaScript values are reduced to what the code inspects. `JsValue` is a function, some
other truthy value, or a falsy value. A module is three things:

- its `default` export;
- the module object read as a command;
- its enumerable exports in key order.

`module?.default || module` and the `handle*` scan over `Object.keys(module)` are then
stated over that triple. `Callable` names a function by its file and export name. The
reply a callable would send is given by `Scenarios.Perform`.

Points of the code's behaviour the model keeps:

- The recursive loader uses `lstatSync`, so it never enters a directory through a
  symbolic link.
- A `require` that throws ends the loop over the rest of that folder, because the `try`
  surrounds the whole loop (lib/loaders.ts:12-31 and 41-64). In the recursive loader the
  parent folder still goes on with its later entries, because the nested call catches
  its own errors.
- Handler keys come from a fixed allow-list of three names, each installed under its own
  name.
- A command whose `execute` is truthy but not a function passes the registry's guard and
  then throws a `TypeError` when it is invoked (`Router.Outcome.NotCallable`).
- `data.toJSON()` runs before anything is stored (lib/client.ts:86). A `data` object
  without a working `toJSON` passes the guard and `createSlashCommand`, then throws there.
  The registry is left unchanged (`CommandData.serialisable`, `Registry.Registers`); the
  throw itself is never caught (see "Left out").

## Model

| member | source | states |
|---|---|---|
| Config.Defaults | lib/client.ts:44-53 | `loader` becomes flat and `environment` becomes development only when they are absent. A falsy `root` is replaced by the working directory. Every other option is copied unchanged. |
| Config.DefaultsIdempotent | lib/client.ts:44-53 | Applying the defaults to already-defaulted options changes nothing. |
| Config.IsRecursive | lib/client.ts:177-192 | With no loader option the answer is false. A single mode gives true exactly when it is `recursive`. A per-kind setting gives true exactly when that kind's entry is `recursive`. |
| Config.DefaultsKeepLoaderChoice | lib/client.ts:177-192 | Filling in the default `"flat"` loader never changes which loader a folder kind gets. |
| Config.RegisterCommand | lib/client.ts:237-255 | A falsy client id is an error. Every chosen route carries the configured client id. A guild route carries the configured guild id. |
| Config.RegisterCommandCases | lib/client.ts:237-255 | Each of the four outcomes holds exactly when its condition holds: no client id; development without a guild id; development with a guild id (guild route); any other environment (global route). |
| Config.DefaultedWithoutEnvironmentNeedsGuild | lib/client.ts:244-249 | Options without an environment register globally as given. After defaulting they demand a guild id. |
| Strings.Lower | commands/test.ts:21 | Lower-casing keeps the length and maps each character on its own. |
| Strings.LowerHasNoUpper | commands/test.ts:21 | No upper-case letter is left after lower-casing. |
| Strings.LowerIdempotent | commands/test.ts:27 | Lower-casing an already lower-cased text changes nothing, so a choice's value is its own lower-cased form. |
| Registry.InstallHandlers | lib/client.ts:94-107 | The table's keys afterwards are the old keys plus exactly the exports whose name starts with `handle`, whose value is a function and whose name is allow-listed. A key that no such export names keeps its value. Every installed key is allow-listed and holds a function. |
| Registry.InstallHandlersLastWins | lib/client.ts:100-106 | The last qualifying export of a name supplies the installed value. |
| Registry.InstallHandlersPair | lib/client.ts:100-106 | Installing from two exports is two single installation steps, in key order. |
| Registry.Register | lib/client.ts:80-111 | A module without `data` or a truthy `execute`, or whose `data.toJSON()` throws, leaves map and payloads unchanged. Otherwise exactly one payload is appended at the end and the command's name is added to the keys. The name maps to the command with its handler table filled in, and every other entry is unchanged. |
| Registry.Lookup | lib/client.ts:261 | `slashCommands.get(name)` finds something exactly when the name is a key, and then it is the entry stored under it. |
| Registry.EmptyWellFormed | lib/client.ts:76-77 | The fresh registry is well formed. |
| Registry.RegisterPreservesWellFormed | lib/client.ts:83-107 | Registration keeps every entry keyed by its own name, with serialisable `data`, a truthy `execute` and a defined handler table. |
| Registry.RegisterThenLookup | lib/client.ts:83-92 | After a registered module is stored, looking up its name returns the stored command, whose handler table is defined. |
| Registry.RegisterSameNameTwice | lib/client.ts:86-92 | Two registered modules with one name leave one map entry, the later one, and append two payloads in order. |
| Registry.InlineHandlersKept | lib/client.ts:84 | An inline handler survives registration, and it keeps its value unless an installed export of the same name replaces it. |
| Registry.IsValidHandlerKey | lib/client.ts:60-66 | Every allow-listed key starts with `handle`, so the prefix test at line 96 never rejects an allow-listed name. |
| Router.AllowListIsRouterKeys | lib/client.ts:60-66 | A key is on the allow-list exactly when some kind of interaction looks it up in the router (lines 281, 310, 330). |
| Registry.RegisterAllPayloads | lib/client.ts:86 | After a run of registrations the payload list is the old list followed by the registered modules' payloads, in registration order. |
| Registry.RegisterAllPreservesWellFormed | lib/client.ts:83-107 | Any run of registrations keeps the registry well formed. |
| Registry.RegisterAllCommands | lib/client.ts:83-107 | After a run of registrations the keys are the old keys plus every registered name. Each registered name maps to the last module that registered it, and every other entry is unchanged. |
| Router.ExtractCommandName | lib/client.ts:354-356 | The result is a prefix of the custom id and contains no `-`. When it is shorter than the id, the next character is `-`: it is the text before the first `-`, or the whole id. |
| Router.ExtractFromCustomId | lib/client.ts:354-356 | An id `name + "-" + suffix` leads back to `name` exactly when `name` has no `-`. |
| Router.HandleCommand | lib/client.ts:342-352 | An invoked callable always receives the interaction itself. Routing throws exactly for a registered chat-input command whose `execute` is not a function. An interaction whose owner is missing or unregistered invokes nothing. |
| Router.HandleChatInput | lib/client.ts:259-268 | An unregistered name is ignored. A registered command's `execute` is invoked with the interaction exactly when it is a function, and otherwise the call throws. |
| Router.HandleButton | lib/client.ts:270-291 | A click never throws. It invokes a function exactly when the command named by the id's first segment holds one under `handleButtonClick`, and then it invokes that function with the click. |
| Router.HandleAutoComplete | lib/client.ts:293-320 | Autocompletion never throws. It invokes a function exactly when the named command holds one under `handleAutoComplete`, and then it invokes that function with the interaction. |
| Router.HandleModal | lib/client.ts:322-340 | A submission never throws. It invokes a function exactly when the command named by the id's first segment holds one under `handleModalSubmit`, and then it invokes that function with the submission. |
| Router.HandleCommandInvokes | lib/client.ts:259-352 | `f` is invoked with `a` exactly when `a` is the interaction, its owner is registered, and the owner's slot for this kind holds `f`. Chat input and autocomplete resolve the owner by command name; buttons and modal submits resolve it by the custom id's first segment. |
| Router.HandlerRoute | lib/client.ts:270-340 | If the owner is registered with a function under the interaction's handler key, that function is invoked. |
| Router.HandlerMissing | lib/client.ts:270-340 | If the owner is registered with no table or nothing under the key, nothing is invoked and nothing is thrown. |
| Router.HandleCommandNeverThrowsOnCallables | lib/client.ts:259-268 | When every registered `execute` is a function, routing never throws. |
| Loaders.SourceEntries | lib/loaders.ts:13-15 | The filter keeps exactly the entries named `*.ts` or `*.js`. |
| Loaders.FlatLoader | lib/loaders.ts:5-32 | An unreadable folder hands over nothing. Otherwise the callback is called at most once per `.ts`/`.js` entry. |
| Loaders.FlatLoaderSound | lib/loaders.ts:13-28 | Every module the flat loader hands over is what some `.ts`/`.js` entry of the folder loads to. |
| Loaders.FlatLoaderSkipsNonSource | lib/loaders.ts:13-15 | An entry without a source extension does not affect the flat loader. |
| Loaders.FlatLoaderIgnoresNesting | lib/loaders.ts:13-28 | The flat loader's result does not depend on what any entry is on disk, so nested folders are never visited. |
| Loaders.FlatLoaderSkipsFalsy | lib/loaders.ts:23-27 | A falsy module is never passed to the callback, and loading goes on. |
| Loaders.FlatLoaderStopsAtThrow | lib/loaders.ts:18-31 | A throwing `require` ends the loop: the earlier entries' modules are kept, and the later entries are not loaded. |
| Loaders.FlatLoaderLoadsEveryEntry | lib/loaders.ts:18-28 | When all N source entries load, the callback gets exactly their N modules, in listing order. |
| Loaders.RecursiveLoader | lib/loaders.ts:34-65 | An unreadable folder hands over nothing. What it hands over otherwise is stated by `RecursiveLoaderSound` and `RecursiveLoaderComplete`. |
| Loaders.RecursiveLoaderDepthFirst | lib/loaders.ts:44-51 | A subdirectory's modules appear at its position among its siblings. The parent goes on with its later entries whatever happens inside the subdirectory. |
| Loaders.RecursiveLoaderSkipsLinks | lib/loaders.ts:46-48 | A symbolic link is treated like a regular file of its name and is never entered. |
| Loaders.RecursiveLoaderStopsAtError | lib/loaders.ts:41-64 | A failing `lstat`, or a throwing `require` of a source file, ends that folder's loop only. |
| Loaders.RecursiveLoaderSkipsFile | lib/loaders.ts:52-59 | A falsy module, and a file without a source extension, are skipped. |
| Loaders.FlatAgreesWithRecursive | lib/loaders.ts:5-65 | On a folder of regular files and links (no subdirectory and no failing `lstat`) the two loaders hand over the same modules. A failing `lstat` separates them, because only the recursive loader calls it. |
| Loaders.RecursiveLoaderSound | lib/loaders.ts:44-61 | Every module the recursive loader hands over comes from a source file somewhere in the tree. |
| Loaders.RecursiveLoaderComplete | lib/loaders.ts:44-61 | In a tree where no listing, `lstat` or `require` fails, every source file's module at any depth is handed over. Falsy modules may occur anywhere; they are skipped without stopping the loop. |
| Client.LoadCommands | lib/client.ts:113-133 | Without a slash folder the registry is unchanged. |
| Client.LoadCommandsPayloads | lib/client.ts:113-133 | Loading a configured slash folder appends the registered modules' payloads in loader order and keeps the registry well formed. Afterwards `slashCommands.get(name)` returns the last loaded module registered under that name, and other entries are unchanged. |
| Client.DefaultOptionsLoadFlat | lib/client.ts:116-131 | With no loader option, the slash folder is loaded flat. |
| Toolkit.CreateSlashCommand | lib/toolkit/helper.ts:6-18 | Success holds exactly when `data` is present and `execute` is a function, and it returns the argument unchanged. A missing `data` is reported before a non-function `execute`. |
| Toolkit.CreateEvent | lib/toolkit/helper.ts:20-35 | Success holds exactly when the name is non-empty and the handler is a function, and it returns the argument unchanged. A bad name is reported before a bad handler. |
| Toolkit.ValidatedCommandRegisters | lib/toolkit/helper.ts:6-18 | A validated command passes the registry's guard. It is found under its name after registration when its `data` serialises; plain `data` passes validation but leaves the registry unchanged, and its `toJSON` throw goes uncaught. |
| TestCommand.Filter | commands/test.ts:20-22 | Soundness: every result matches the query case-insensitively as a prefix. Completeness: every matching item is in the result. The result is a subsequence of the catalogue. |
| TestCommand.Suggestions | commands/test.ts:24-29 | There is one choice per filtered item, in order. Its name is the item and its value is the item lower-cased, in a locale where `toLocaleLowerCase` agrees with ASCII lower-casing. |
| TestCommand.EmptyQueryOffersAll | commands/test.ts:11-22 | The empty query offers all five catalogue items. |
| TestCommand.ShardingQuery | commands/test.ts:11-22 | `"sh"` and `"SH"` offer only `"Sharding: Getting started"`. |
| TestCommand.ShardingSuggestions | commands/test.ts:24-29 | The choices for `"sh"` are the sharding guide with its lower-cased value. |
| TestCommand.CaseInsensitive | commands/test.ts:21 | Queries that differ only in letter case get the same choices. |
| TestCommand.FilterDependsOnLower | commands/test.ts:20-22 | The filter depends on the query only through its lower-cased form. |
| PingCommand.ButtonReplies | commands/ping.ts:16-24 | A click produces at most one reply. |
| PingCommand.ButtonRepliesCoverButtons | commands/ping.ts:16-24 | Exactly the two button ids that `execute` creates get a reply, exactly one each; any other id gets none. |
| ModalCommand.SubmitReply | commands/modal.ts:16-29 | There is no reply exactly when the submission lacks the `test-input` field. |
| ModalCommand.HandlerReadsBuiltInput | commands/modal.ts:19 | The id the handler reads (line 19) equals the id of the text input the modal is built with (line 47). |
| ModalCommand.SubmittingShownModal | commands/modal.ts:24-28 | Submitting the modal `execute` shows always reaches a reply: a non-empty text gets `"You submitted: " + text`, and an empty one gets the fixed reply. |
| Scenarios.PingHandlersAsWritten | commands/ping.ts:16 | As written, `ping` is stored with an empty handler table. |
| Scenarios.TestHandlersAsWritten | commands/test.ts:6 | As written, `test` is stored with its empty inline table. |
| Scenarios.ModalHandlers | commands/modal.ts:16 | `testmodal` is stored with `handleModalSubmit` installed under its own name. |
| Scenarios.PingHandlersCorrected | commands/ping.ts:16 | Exported as `handleButtonClick`, the click handler is installed. |
| Scenarios.TestHandlersCorrected | commands/test.ts:6 | Exported as `handleAutoComplete`, the autocomplete handler is installed. |
| Scenarios.BotOfThree | lib/client.ts:80-111 | Three registered modules give three payloads, in order. The map is keyed by name, so a repeated name keeps the later module. |
| Scenarios.PayloadsInRegistrationOrder | lib/client.ts:86 | The payloads follow the order in which the example bot registers its modules (`ping`, `testmodal`, `test`). This order is chosen for the example; it is not derived from a directory listing. |
| Scenarios.CustomIdsReachTheirCommands | commands/ping.ts:36-41 | Both button ids lead back to `ping`, and the modal id leads back to `testmodal`. |
| Scenarios.ModalRoute | lib/client.ts:322-340 | A modal submission whose id leads to `testmodal` invokes `handleModalSubmit`, which replies if the field is present. |
| Scenarios.ModalSubmitRouted | commands/modal.ts:42 | Submitting `testmodal-testmodal` to the example bot invokes `handleModalSubmit` once. |
| Scenarios.ModalRoundTrip | commands/modal.ts:16-28 | Submitting the modal that `execute` shows yields exactly one reply: the echoed text, or the fixed reply for empty input. |
| Scenarios.PingClickAsWritten | lib/client.ts:270-291 | With `ping` stored as written, a click on its buttons invokes nothing. |
| Scenarios.PingClickIgnoredAsWritten | lib/client.ts:270-291 | In the example bot as written, clicking either `ping` button invokes nothing and replies nothing. |
| Scenarios.PingClickCorrected | lib/client.ts:270-291 | With the handler installed, a click invokes it, and it replies exactly for the two button ids. |
| Scenarios.PingClickRepliesCorrected | commands/ping.ts:16-24 | With the handler installed, each button gets its one reply: `"hello world"` or `"hi"`. |
| Scenarios.AutocompleteAsWritten | lib/client.ts:293-320 | With `test` stored as written, autocompletion invokes nothing. |
| Scenarios.AutocompleteIgnoredAsWritten | lib/client.ts:293-320 | In the example bot as written, autocompletion for `test` invokes nothing, whatever the query. |
| Scenarios.AutocompleteRoute | lib/client.ts:293-320 | With the handler installed, autocompletion responds with the filtered choices. |
| Scenarios.AutocompleteCorrected | commands/test.ts:6-30 | With the handler installed, `"sh"` is answered with the sharding guide only. |
| Scenarios.UnknownCommandIgnored | lib/client.ts:270-280 | A button whose id names no registered command invokes nothing and throws nothing. |

## Left out

- REST registration, `login` and `start` (lib/client.ts:193-235, 358-369) are network I/O through the vendor library. Only the route decision of `registerCommand` is modelled.
- `readdirSync`, `lstatSync`, `require` and `path.join` are replaced by an abstract tree. Each entry carries what `require` gives and what `lstat` reports; each folder carries what `readdir` gives. Path building is not modelled.
- Console output and `devLog` (lib/utils/functions.ts) are logging only.
- `loadEvents` and event binding in `loadEventModule` (lib/client.ts:135-175) are left out. Once-versus-every-time semantics belong to the vendor event emitter. The loaders are modelled generically, so events load the same way.
- The slash-command, button and modal builders, and `reply`/`respond`/`showModal`, are vendor code. Replies are modelled as output values (`Scenarios.Response`).
- async/await is not modelled. `loadSlashCommandsModule` is `async`, so an exception inside it (such as a throwing `toJSON`) becomes a rejected promise and does not stop the loader loop. `loadEventModule` is synchronous but cannot throw on a truthy module. So only `readdir`, `lstat` and `require` end a loader loop.
- Unhandled rejections are not modelled. The loaders drop the promise of their callback (lib/loaders.ts:24 and 56), and the event listener (lib/client.ts:151) drops the promise of the interaction handler, which awaits `handleCommand` (events/interaction.ts:9). Nothing catches a throw inside them: a throwing `toJSON`, a `NotCallable` `execute` (lib/client.ts:267), or a handler's own throw such as `getTextInputValue` on a missing field. Under Node's default unhandled-rejection mode (since Node 15) such a throw ends the process, so a bad `toJSON` stops `start` before `registerCommand` and `login` (lib/client.ts:366-368). The model keeps only the registry state and the router outcome, not the process's fate.
- Exceptions thrown by an invoked handler are not modelled; the router's outcome stops at the invocation.
- Strings.Lower: lower-cases ASCII letters only. JavaScript's `toLowerCase` covers all of Unicode; the catalogue is ASCII.
- TestCommand.Suggestions: each choice's `value` comes from `toLocaleLowerCase()` (commands/test.ts:27), which follows the host's default locale. The model assumes a locale where this matches ASCII lower-casing. Under a Turkish or Azeri locale `"I"` becomes the dotless `"ı"`, so `"Interactions: Replying to slash commands"` would get the value `"ınteractions: replying to slash commands"` rather than `Lower` of its name. The filter at line 21 uses `toLowerCase` and does not depend on the locale.
- ModalCommand.SubmitReply: a missing `test-input` field makes the vendor's `getTextInputValue` throw. It is modelled as no reply.
- `commands/test.ts` `execute` reads a string option. It is modelled as a reply text only (`TestCommand.ExecuteReply`), with no contract.
- `index.ts`, `tsup.config.ts`, `lib/types.ts` and `events/*.ts` have no behaviour of the core: an entry point, build configuration, types and thin forwarders.

## Findings

| source | as written | input that shows it | evidently intended | confidence | as-written member | corrected member |
|---|---|---|---|---|---|---|
| commands/ping.ts:16 | The click handler is exported as `buttonHandler`. The client installs only allow-listed `handle*` exports, so `ping` gets an empty handler table. | A click on `ping-hello_button` after loading `ping` | The handler is installed as `handleButtonClick`, and the click is answered with `"hello world"` | high, not executed | Scenarios.PingClickIgnoredAsWritten | Scenarios.PingClickRepliesCorrected |
| commands/test.ts:6 | The autocomplete handler is exported as `autoCompleteHandler`, which fails the `handle` prefix test, so `test` keeps its empty inline table. | Autocompleting `test` with the query `"sh"` | The handler is installed as `handleAutoComplete`, and the query is answered with the sharding guide | high, not executed | Scenarios.AutocompleteIgnoredAsWritten | Scenarios.AutocompleteCorrected |
