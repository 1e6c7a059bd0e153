/**
 `loadCommands` of lib/client.ts: when a slash-command folder is configured, the loader
 chosen by `isRecursive("slash")` walks it and every module it yields is registered, in
 the order the loader hands them over.
 */
module Client {
  import opened Values
  import opened Config
  import opened Loaders
  import opened Registry

  /** The modules the configured loader yields for the listing of `root/handler.slash`. */
  function SlashModules(o: Options, listing: Listing<Module>): seq<Module> {
    if IsRecursive(o.loader, Slash) then RecursiveLoader(listing) else FlatLoader(listing)
  }

  predicate HasSlashFolder(o: Options) {
    o.handler.Some? && o.handler.value.slash != ""
  }

  /** `loadCommands()`; `listing` stands for what the file system holds under `root/handler.slash`. */
  function LoadCommands(reg: Registry, o: Options, listing: Listing<Module>): (r: Registry)
    ensures !HasSlashFolder(o) ==> r == reg
  {
    if HasSlashFolder(o) then RegisterAll(reg, SlashModules(o, listing)) else reg
  }

  /**
   Loading commands appends one payload per registered module, in loader order, and keeps
   the registry well formed. Afterwards `slashCommands` holds the old names plus every
   registered name; each name maps to the last loaded module that registered it, and every
   other entry is unchanged.
   */
  lemma LoadCommandsPayloads(reg: Registry, o: Options, listing: Listing<Module>)
    requires WellFormed(reg)
    requires HasSlashFolder(o)
    ensures LoadCommands(reg, o, listing).payloads == reg.payloads + RegisteredPayloads(SlashModules(o, listing))
    ensures WellFormed(LoadCommands(reg, o, listing))
    ensures var ms := SlashModules(o, listing);
      LoadCommands(reg, o, listing).commands.Keys == reg.commands.Keys + RegisteredNames(ms)
    ensures var ms := SlashModules(o, listing);
      forall i :: 0 <= i < |ms| && LastRegistered(ms, i) ==>
        Lookup(LoadCommands(reg, o, listing), NameOf(ms[i])) == Some(Stored(ms[i]))
    ensures var ms := SlashModules(o, listing);
      forall k :: k in reg.commands && k !in RegisteredNames(ms) ==>
        Lookup(LoadCommands(reg, o, listing), k) == Lookup(reg, k)
  {
    RegisterAllPayloads(reg, SlashModules(o, listing));
    RegisterAllPreservesWellFormed(reg, SlashModules(o, listing));
    RegisterAllCommands(reg, SlashModules(o, listing));
  }

  /** With the default options the slash folder is loaded flat. */
  lemma DefaultOptionsLoadFlat(o: Options, cwd: string, listing: Listing<Module>)
    requires o.loader.None?
    ensures SlashModules(Defaults(o, cwd), listing) == FlatLoader(listing)
  {
  }
}
