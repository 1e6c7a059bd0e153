/**
 The example command `test` (commands/test.ts): a slash command with one autocompleted
 string option. Its autocomplete handler filters a fixed five-item catalogue by a
 case-insensitive prefix and responds with `{name, value}` choices.
 */
module TestCommand {
  import opened Values
  import opened Strings
  import opened Registry

  const Name: string := "test"

  const Catalogue: seq<string> := [
    "Popular Topics: Threads",
    "Sharding: Getting started",
    "Library: Voice Connections",
    "Interactions: Replying to slash commands",
    "Popular Topics: Embed preview"
  ]

  /** One autocomplete choice as sent back with `respond`. */
  datatype Choice = Choice(name: string, value: string)

  /** `choice.toLowerCase().startsWith(query.toLowerCase())` */
  predicate Matches(item: string, query: string) {
    StartsWith(Lower(item), Lower(query))
  }

  /** `r` is `items` with some elements left out, the rest kept in order. */
  ghost predicate IsSubsequence(r: seq<string>, items: seq<string>)
    decreases |items|
  {
    if |r| == 0 then true
    else if |items| == 0 then false
    else if r[0] == items[0] then IsSubsequence(r[1..], items[1..])
    else IsSubsequence(r, items[1..])
  }

  /** `items.filter(choice => Matches(choice, query))` */
  function Filter(items: seq<string>, query: string): (r: seq<string>)
    // sound: only matching items
    ensures forall x :: x in r ==> x in items && Matches(x, query)
    // complete: every matching item
    ensures forall x :: x in items && Matches(x, query) ==> x in r
    // in catalogue order
    ensures IsSubsequence(r, items)
    decreases |items|
  {
    if |items| == 0 then []
    else if Matches(items[0], query) then [items[0]] + Filter(items[1..], query)
    else Filter(items[1..], query)
  }

  /**
   The body of `autoCompleteHandler` for the focused option's value `query`. Each value is
   the name passed through `toLocaleLowerCase`, taken as `Lower`: this holds in a locale
   without the Turkic dotless `ı`.
   */
  function Suggestions(query: string): (r: seq<Choice>)
    ensures |r| == |Filter(Catalogue, query)|
    ensures forall i :: 0 <= i < |r| ==>
      r[i].name == Filter(Catalogue, query)[i] && r[i].value == Lower(r[i].name)
  {
    var filtered := Filter(Catalogue, query);
    seq(|filtered|, i requires 0 <= i < |filtered| => Choice(filtered[i], Lower(filtered[i])))
  }

  lemma {:induction false} FilterKeepsAll(items: seq<string>, query: string)
    requires forall i :: 0 <= i < |items| ==> Matches(items[i], query)
    ensures Filter(items, query) == items
    decreases |items|
  {
    if |items| > 0 {
      FilterKeepsAll(items[1..], query);
    }
  }

  /** An empty query offers the whole catalogue. */
  lemma EmptyQueryOffersAll()
    ensures Filter(Catalogue, "") == Catalogue
    ensures |Suggestions("")| == 5
  {
    FilterKeepsAll(Catalogue, "");
  }

  /** The query "sh" (in any letter case) offers only the sharding guide. */
  lemma ShardingQuery()
    ensures Filter(Catalogue, "sh") == ["Sharding: Getting started"]
    ensures Filter(Catalogue, "SH") == ["Sharding: Getting started"]
  {
    assert Lower("sh") == "sh";
    assert Lower("SH") == "sh";
    FirstLetterMismatch(Catalogue[0], "sh");
    HeadMatch(Catalogue[1], "Sh", "sh");
    FirstLetterMismatch(Catalogue[2], "sh");
    FirstLetterMismatch(Catalogue[3], "sh");
    FirstLetterMismatch(Catalogue[4], "sh");
    var c := Catalogue;
    assert Filter(c[4..], "sh") == [] by { assert c[4..] == [c[4]]; }
    assert Filter(c[3..], "sh") == [] by { assert c[3..][1..] == c[4..]; }
    assert Filter(c[2..], "sh") == [] by { assert c[2..][1..] == c[3..]; }
    assert Filter(c[1..], "sh") == [c[1]] by { assert c[1..][1..] == c[2..]; }
    assert Filter(Catalogue, "sh") == Filter(Catalogue, "SH") by {
      FilterDependsOnLower(Catalogue, "sh", "SH");
    }
  }

  /** The suggestions for "sh": the sharding guide, with its lower-cased value. */
  lemma ShardingSuggestions()
    ensures Suggestions("sh") == [Choice("Sharding: Getting started", "sharding: getting started")]
  {
    ShardingQuery();
    var r := Suggestions("sh");
    assert |r| == 1;
    assert r[0].name == "Sharding: Getting started";
    ShardingLower();
  }

  lemma ShardingLower()
    ensures Lower("Sharding: Getting started") == "sharding: getting started"
  {
  }

  /** Whether an item matches a two-letter query is decided by its first two letters. */
  lemma HeadMatch(item: string, head: string, query: string)
    requires |query| == 2 && 2 <= |item| && item[..2] == head
    ensures Matches(item, query) <==> Lower(head) == Lower(query)
  {
    LowerPrefix(item, 2);
  }

  /** An item whose first letter differs from the query's, ignoring case, does not match. */
  lemma FirstLetterMismatch(item: string, query: string)
    requires 0 < |item| && 0 < |query| && LowerChar(item[0]) != LowerChar(query[0])
    ensures !Matches(item, query)
  {
  }

  /** Two queries that differ only in letter case. */
  predicate SameUpToCase(a: string, b: string) {
    |a| == |b| && forall i :: 0 <= i < |a| ==> LowerChar(a[i]) == LowerChar(b[i])
  }

  /** The filter is case-insensitive. */
  lemma CaseInsensitive(a: string, b: string)
    requires SameUpToCase(a, b)
    ensures Suggestions(a) == Suggestions(b)
  {
    assert Lower(a) == Lower(b);
    FilterDependsOnLower(Catalogue, a, b);
  }

  lemma {:induction false} FilterDependsOnLower(items: seq<string>, a: string, b: string)
    requires Lower(a) == Lower(b)
    ensures Filter(items, a) == Filter(items, b)
    decreases |items|
  {
    if |items| > 0 {
      FilterDependsOnLower(items[1..], a, b);
    }
  }

  // ---------------------------------------------------------------- the module as loaded

  const Origin: string := "commands/test.ts"
  const Execute: Callable := Callable(Origin, "execute")
  const AutoCompleteHandler: Callable := Callable(Origin, "autoCompleteHandler")

  const Data: CommandData :=
    CommandData(Name, "test autocomplete handler", [StringOption("complete", "type to get auto complete", true)], true)

  /** The default export: `handlers` is written inline as an empty object. */
  const Definition: Command := Command(Some(Data), Fn(Execute), Some(map[]))

  /** A module with no `data`/`execute`/`handlers` of its own besides the default export. */
  const NoTopLevel: Command := Command(None, FalsyValue, None)

  /** The module as written: the autocomplete handler is exported as `autoCompleteHandler`. */
  const AsWritten: Module :=
    Module(Some(Definition), NoTopLevel, [Export("autoCompleteHandler", Fn(AutoCompleteHandler)), Export("default", TruthyValue)])

  /** The module with its handler exported under the allow-listed name `handleAutoComplete`. */
  const Corrected: Module :=
    Module(Some(Definition), NoTopLevel, [Export("handleAutoComplete", Fn(AutoCompleteHandler)), Export("default", TruthyValue)])

  /** The reply of `execute`: the chosen option, or "null" when it is missing. */
  function ExecuteReply(options: map<string, string>): string {
    "you chose this " + (if "complete" in options then options["complete"] else "null")
  }
}
