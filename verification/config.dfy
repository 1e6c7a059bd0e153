/**
 The configuration decisions of the client (lib/client.ts): filling in default options,
 choosing the flat or the recursive loader for a folder kind, and choosing where the
 collected slash commands are registered.
 */
module Config {
  import opened Values

  datatype Environment = Production | Development

  datatype LoaderMode = Flat | Recursive

  /** The `loader` option: one mode for every folder, or one mode per folder kind. */
  datatype LoaderSetting = Uniform(mode: LoaderMode) | PerKind(events: LoaderMode, slash: LoaderMode)

  /** The folder kinds a loader mode is chosen for. */
  datatype FolderKind = Slash | Events

  /** The `handler` option: folders relative to `root`; the empty string is an unset folder. */
  datatype Folders = Folders(slash: string, message: string, events: string)

  /**
   The client options. Optional fields are `Option`s; `root`, `token` and `clientId`
   are plain strings whose empty value is falsy; `client` stands for the vendor client
   options, which are passed through untouched.
   */
  datatype Options = Options(
    root: string,
    token: string,
    clientId: string,
    environment: Option<Environment>,
    guildId: Option<string>,
    loader: Option<LoaderSetting>,
    handler: Option<Folders>,
    client: seq<int>)

  const DefaultLoader: LoaderSetting := Uniform(Flat)
  const DefaultEnvironment: Environment := Development

  /** `_defaults(options)`, with `cwd` standing for `process.cwd()`. */
  function Defaults(o: Options, cwd: string): (r: Options)
    ensures r.loader.Some? && r.environment.Some?
    ensures o.loader.Some? ==> r.loader == o.loader
    ensures o.loader.None? ==> r.loader == Some(Uniform(Flat))
    ensures o.environment.Some? ==> r.environment == o.environment
    ensures o.environment.None? ==> r.environment == Some(Development)
    ensures o.root != "" ==> r.root == o.root
    ensures o.root == "" ==> r.root == cwd
    // every other option is copied unchanged
    ensures r.(loader := o.loader, environment := o.environment, root := o.root) == o
  {
    o.(loader := Some(o.loader.GetOr(DefaultLoader)),
       environment := Some(o.environment.GetOr(DefaultEnvironment)),
       root := if o.root != "" then o.root else cwd)
  }

  /** Defaulting twice changes nothing, since the working directory is never empty. */
  lemma DefaultsIdempotent(o: Options, cwd: string, cwd': string)
    requires cwd != ""
    ensures Defaults(Defaults(o, cwd), cwd') == Defaults(o, cwd)
  {
  }

  function ModeFor(setting: LoaderSetting, kind: FolderKind): LoaderMode {
    match setting
    case Uniform(m) => m
    case PerKind(events, slash) => if kind == Slash then slash else events
  }

  /** `isRecursive(commandType)` on the configured `loader` option. */
  function IsRecursive(loader: Option<LoaderSetting>, kind: FolderKind): (r: bool)
    ensures loader.None? ==> !r
    ensures loader.Some? && loader.value.Uniform? ==> (r <==> loader.value.mode == Recursive)
    ensures loader.Some? && loader.value.PerKind? && kind == Slash ==> (r <==> loader.value.slash == Recursive)
    ensures loader.Some? && loader.value.PerKind? && kind == Events ==> (r <==> loader.value.events == Recursive)
  {
    match loader
    case None => false
    case Some(setting) => ModeFor(setting, kind) == Recursive
  }

  /** Filling in the default `"flat"` loader never changes which loader a folder gets. */
  lemma DefaultsKeepLoaderChoice(o: Options, cwd: string, kind: FolderKind)
    ensures IsRecursive(Defaults(o, cwd).loader, kind) == IsRecursive(o.loader, kind)
  {
  }

  /** The REST route the bulk command payload is sent to. */
  datatype Route = GuildCommands(clientId: string, guildId: string) | GlobalCommands(clientId: string)

  datatype RegistrationError = MissingClientId | MissingGuildId

  function Truthy(s: Option<string>): bool {
    s.Some? && s.value != ""
  }

  /** The decision made by `registerCommand` before any request is sent. */
  function RegisterCommand(o: Options): (r: Result<Route, RegistrationError>)
    ensures o.clientId == "" ==> r == Err(MissingClientId)
    ensures r.Ok? ==> r.value.clientId == o.clientId
    ensures r.Ok? && r.value.GuildCommands? ==> Some(r.value.guildId) == o.guildId
  {
    if o.clientId == "" then Err(MissingClientId)
    else if o.environment == Some(Development) then
      if !Truthy(o.guildId) then Err(MissingGuildId)
      else Ok(GuildCommands(o.clientId, o.guildId.value))
    else Ok(GlobalCommands(o.clientId))
  }

  /** The complete case analysis of `registerCommand`, in both directions. */
  lemma RegisterCommandCases(o: Options)
    ensures RegisterCommand(o) == Err(MissingClientId) <==> o.clientId == ""
    ensures RegisterCommand(o) == Err(MissingGuildId)
        <==> o.clientId != "" && o.environment == Some(Development) && !Truthy(o.guildId)
    ensures RegisterCommand(o).Ok? && RegisterCommand(o).value.GuildCommands?
        <==> o.clientId != "" && o.environment == Some(Development) && Truthy(o.guildId)
    ensures RegisterCommand(o).Ok? && RegisterCommand(o).value.GlobalCommands?
        <==> o.clientId != "" && o.environment != Some(Development)
  {
  }

  /**
   Once defaults are applied, leaving out `environment` means development, so a missing
   guild id is an error rather than a silent switch to global registration.
   */
  lemma DefaultedWithoutEnvironmentNeedsGuild(o: Options, cwd: string)
    requires o.clientId != "" && o.environment.None? && !Truthy(o.guildId)
    ensures RegisterCommand(Defaults(o, cwd)) == Err(MissingGuildId)
    ensures RegisterCommand(o) == Ok(GlobalCommands(o.clientId))
  {
  }
}
