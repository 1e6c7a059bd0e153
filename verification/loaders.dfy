/**
 The two module loaders of lib/loaders.ts, over an abstract directory tree. Each entry of
 a folder carries what `require` yields for it and what `lstat` reports about it; each
 folder carries what `readdir` yields. A loader returns the modules it hands to its
 callback, in call order. Both loaders catch every error, so neither has an error result.
 */
module Loaders {
  import opened Strings

  /** What `require(path)` does for an entry: a truthy module, a falsy value, or a throw. */
  datatype Load<M> = Loaded(value: M) | Falsy | Throws

  /** What `lstat(path)` reports about an entry; a symbolic link is never a directory. */
  datatype Kind<M> =
    | Regular
    | SymbolicLink(target: Kind<M>)
    | Directory(listing: Listing<M>)
    | StatFails

  /** A folder entry: its name, what requiring it gives, and what it is on disk. */
  datatype Node<M> = Node(name: string, load: Load<M>, kind: Kind<M>)

  /** What `readdirSync` gives for a folder: its entries in listing order, or a throw. */
  datatype Listing<M> = Entries(nodes: seq<Node<M>>) | ReadFails

  /**
   The effect of part of a folder's `try` block: the modules passed to the callback, and
   whether the block was left by an exception.
   */
  datatype Scan<M> = Scan(emitted: seq<M>, aborted: bool)

  /** Running `b` after `a` inside one `try` block: nothing after a throw runs. */
  function Then<M>(a: Scan<M>, b: Scan<M>): Scan<M> {
    if a.aborted then a else Scan(a.emitted + b.emitted, b.aborted)
  }

  lemma ThenAssociative<M>(a: Scan<M>, b: Scan<M>, c: Scan<M>)
    ensures Then(Then(a, b), c) == Then(a, Then(b, c))
  {
  }

  /** `name.endsWith(".ts") || name.endsWith(".js")` */
  predicate IsSource(name: string) {
    EndsWith(name, ".ts") || EndsWith(name, ".js")
  }

  /** `require` followed by `if (module) callback(module)`. */
  function Require<M>(l: Load<M>): Scan<M> {
    match l
    case Loaded(m) => Scan([m], false)
    case Falsy => Scan([], false)
    case Throws => Scan([], true)
  }

  // ---------------------------------------------------------------- flat loader

  /** The `.filter` on the listing: entries whose name has a source extension. */
  function SourceEntries<M>(ns: seq<Node<M>>): (r: seq<Node<M>>)
    ensures forall n :: n in r ==> n in ns && IsSource(n.name)
    ensures forall n :: n in ns && IsSource(n.name) ==> n in r
  {
    if |ns| == 0 then []
    else (if IsSource(ns[0].name) then [ns[0]] else []) + SourceEntries(ns[1..])
  }

  /** The `for` loop of `flatLoader` over the filtered entries. */
  function FlatScan<M>(files: seq<Node<M>>): Scan<M> {
    if |files| == 0 then Scan([], false) else Then(Require(files[0].load), FlatScan(files[1..]))
  }

  /** `flatLoader(root, folder, callback)` on the listing of `root/folder`. */
  function FlatLoader<M>(l: Listing<M>): (r: seq<M>)
    // the catch: an unreadable folder hands over nothing
    ensures l.ReadFails? ==> r == []
    // at most one call per `.ts`/`.js` entry
    ensures l.Entries? ==> |r| <= |SourceEntries(l.nodes)|
  {
    match l
    case ReadFails => []
    case Entries(ns) =>
      FlatScanCount(SourceEntries(ns));
      FlatScan(SourceEntries(ns)).emitted
  }

  /** The flat loop makes at most one callback call per entry. */
  lemma {:induction false} FlatScanCount<M>(files: seq<Node<M>>)
    ensures |FlatScan(files).emitted| <= |files|
    decreases |files|
  {
    if |files| > 0 {
      FlatScanCount(files[1..]);
    }
  }

  /** Every module the flat loader hands over is what some `.ts`/`.js` entry of the folder loads to. */
  lemma FlatLoaderSound<M>(ns: seq<Node<M>>, m: M)
    requires m in FlatLoader(Entries(ns))
    ensures exists n :: n in ns && IsSource(n.name) && n.load == Loaded(m)
  {
    FlatScanSound(SourceEntries(ns));
    var i :| 0 <= i < |SourceEntries(ns)| && LoadsOf(SourceEntries(ns))[i] == Loaded(m);
    assert SourceEntries(ns)[i] in SourceEntries(ns);
  }

  /** What each entry of `ns` loads to, in order. */
  function LoadsOf<M>(ns: seq<Node<M>>): (r: seq<Load<M>>)
    ensures |r| == |ns| && forall i :: 0 <= i < |ns| ==> r[i] == ns[i].load
  {
    seq(|ns|, i requires 0 <= i < |ns| => ns[i].load)
  }

  /** Every module the flat loop hands over is what one of its entries loads to. */
  lemma {:induction false} FlatScanSound<M>(files: seq<Node<M>>)
    ensures forall m :: m in FlatScan(files).emitted ==> Loaded(m) in LoadsOf(files)
    decreases |files|
  {
    if |files| > 0 {
      FlatScanSound(files[1..]);
      forall m | m in FlatScan(files).emitted
        ensures Loaded(m) in LoadsOf(files)
      {
        if m in Require(files[0].load).emitted {
          assert LoadsOf(files)[0] == Loaded(m);
        } else {
          var i :| 0 <= i < |files[1..]| && LoadsOf(files[1..])[i] == Loaded(m);
          assert LoadsOf(files)[i + 1] == Loaded(m);
        }
      }
    }
  }

  // ---------------------------------------------------------------- recursive loader

  /** One iteration of the `recursiveLoader` loop. */
  function Visit<M>(n: Node<M>): Scan<M>
    decreases n, 0
  {
    match n.kind
    case StatFails => Scan([], true)
    case Directory(l) => Scan(RecursiveLoader(l), false)
    case _ => if IsSource(n.name) then Require(n.load) else Scan([], false)
  }

  /** The `for` loop of `recursiveLoader` over a folder's entries. */
  function RecursiveScan<M>(ns: seq<Node<M>>): Scan<M>
    decreases ns, 1
  {
    if |ns| == 0 then Scan([], false) else Then(Visit(ns[0]), RecursiveScan(ns[1..]))
  }

  /** `recursiveLoader(root, folder, callback)` on the listing of `root/folder`. */
  function RecursiveLoader<M>(l: Listing<M>): (r: seq<M>)
    // the catch: an unreadable folder hands over nothing
    ensures l.ReadFails? ==> r == []
    decreases l, 2
  {
    match l
    case ReadFails => []
    case Entries(ns) => RecursiveScan(ns).emitted
  }

  // ---------------------------------------------------------------- composition

  lemma {:induction false} SourceEntriesAppend<M>(a: seq<Node<M>>, b: seq<Node<M>>)
    ensures SourceEntries(a + b) == SourceEntries(a) + SourceEntries(b)
  {
    if |a| > 0 {
      assert (a + b)[0] == a[0] && (a + b)[1..] == a[1..] + b;
      SourceEntriesAppend(a[1..], b);
    } else {
      assert a + b == b;
    }
  }

  lemma {:induction false} FlatScanAppend<M>(a: seq<Node<M>>, b: seq<Node<M>>)
    ensures FlatScan(a + b) == Then(FlatScan(a), FlatScan(b))
  {
    if |a| > 0 {
      assert (a + b)[0] == a[0] && (a + b)[1..] == a[1..] + b;
      FlatScanAppend(a[1..], b);
      ThenAssociative(Require(a[0].load), FlatScan(a[1..]), FlatScan(b));
    } else {
      assert a + b == b;
    }
  }

  lemma {:induction false} RecursiveScanAppend<M>(a: seq<Node<M>>, b: seq<Node<M>>)
    ensures RecursiveScan(a + b) == Then(RecursiveScan(a), RecursiveScan(b))
  {
    if |a| > 0 {
      assert (a + b)[0] == a[0] && (a + b)[1..] == a[1..] + b;
      RecursiveScanAppend(a[1..], b);
      ThenAssociative(Visit(a[0]), RecursiveScan(a[1..]), RecursiveScan(b));
    } else {
      assert a + b == b;
    }
  }

  /** The flat loader's result for a folder split around one entry. */
  lemma FlatLoaderAround<M>(a: seq<Node<M>>, n: Node<M>, b: seq<Node<M>>)
    ensures FlatLoader(Entries(a + [n] + b))
         == Then(Then(FlatScan(SourceEntries(a)), FlatScan(SourceEntries([n]))), FlatScan(SourceEntries(b))).emitted
  {
    SourceEntriesAppend(a + [n], b);
    SourceEntriesAppend(a, [n]);
    FlatScanAppend(SourceEntries(a) + SourceEntries([n]), SourceEntries(b));
    FlatScanAppend(SourceEntries(a), SourceEntries([n]));
  }

  /** The recursive loader's result for a folder split around one entry. */
  lemma RecursiveLoaderAround<M>(a: seq<Node<M>>, n: Node<M>, b: seq<Node<M>>)
    ensures RecursiveLoader(Entries(a + [n] + b))
         == Then(Then(RecursiveScan(a), Visit(n)), RecursiveScan(b)).emitted
  {
    RecursiveScanAppend(a + [n], b);
    RecursiveScanAppend(a, [n]);
    assert [n][1..] == [];
    assert RecursiveScan([n]) == Then(Visit(n), RecursiveScan([]));
    assert Visit(n).emitted + [] == Visit(n).emitted;
    assert RecursiveScan([n]) == Visit(n);
  }

  // ---------------------------------------------------------------- flat loader properties

  /** An entry without a `.ts`/`.js` name never reaches the flat loader's callback. */
  lemma FlatLoaderSkipsNonSource<M>(a: seq<Node<M>>, n: Node<M>, b: seq<Node<M>>)
    requires !IsSource(n.name)
    ensures FlatLoader(Entries(a + [n] + b)) == FlatLoader(Entries(a + b))
  {
    FlatLoaderAround(a, n, b);
    SourceEntriesAppend(a, b);
    FlatScanAppend(SourceEntries(a), SourceEntries(b));
  }

  /**
   The flat loader reads only the folder itself: what an entry is on disk (a directory
   with any contents, a link, an unreadable entry) does not change its result.
   */
  lemma FlatLoaderIgnoresNesting<M>(a: seq<Node<M>>, n: Node<M>, b: seq<Node<M>>, k: Kind<M>)
    ensures FlatLoader(Entries(a + [n] + b)) == FlatLoader(Entries(a + [n.(kind := k)] + b))
  {
    FlatLoaderAround(a, n, b);
    FlatLoaderAround(a, n.(kind := k), b);
  }

  /** A falsy module is never handed to the flat loader's callback. */
  lemma FlatLoaderSkipsFalsy<M>(a: seq<Node<M>>, n: Node<M>, b: seq<Node<M>>)
    requires n.load.Falsy?
    ensures FlatLoader(Entries(a + [n] + b)) == FlatLoader(Entries(a + b))
  {
    FlatLoaderAround(a, n, b);
    SourceEntriesAppend(a, b);
    FlatScanAppend(SourceEntries(a), SourceEntries(b));
  }

  /** A failing `require` ends the folder's loop: later entries are not loaded, earlier ones stay. */
  lemma FlatLoaderStopsAtThrow<M>(a: seq<Node<M>>, n: Node<M>, b: seq<Node<M>>)
    requires IsSource(n.name) && n.load.Throws?
    ensures FlatLoader(Entries(a + [n] + b)) == FlatLoader(Entries(a))
  {
    FlatLoaderAround(a, n, b);
  }

  /** The modules of a sequence of entries that all load. */
  function Modules<M>(files: seq<Node<M>>): (r: seq<M>)
    requires forall i :: 0 <= i < |files| ==> files[i].load.Loaded?
  {
    seq(|files|, i requires 0 <= i < |files| => files[i].load.value)
  }

  /**
   When every `.ts`/`.js` entry loads to a truthy module, the callback receives exactly
   those modules, one call per entry, in listing order.
   */
  lemma {:induction false} FlatLoaderLoadsEveryEntry<M>(ns: seq<Node<M>>)
    requires forall i :: 0 <= i < |SourceEntries(ns)| ==> SourceEntries(ns)[i].load.Loaded?
    ensures FlatLoader(Entries(ns)) == Modules(SourceEntries(ns))
    ensures |FlatLoader(Entries(ns))| == |SourceEntries(ns)|
  {
    FlatScanLoadsAll(SourceEntries(ns));
  }

  lemma {:induction false} FlatScanLoadsAll<M>(files: seq<Node<M>>)
    requires forall i :: 0 <= i < |files| ==> files[i].load.Loaded?
    ensures !FlatScan(files).aborted
    ensures FlatScan(files).emitted == Modules(files)
  {
    if |files| > 0 {
      FlatScanLoadsAll(files[1..]);
      assert Modules(files) == [files[0].load.value] + Modules(files[1..]);
    }
  }

  // ---------------------------------------------------------------- recursive loader properties

  /**
   Depth-first in listing order: a subdirectory's modules come at the subdirectory's
   position, and whatever happens inside it the parent goes on with its later entries.
   */
  lemma RecursiveLoaderDepthFirst<M>(a: seq<Node<M>>, name: string, load: Load<M>, sub: Listing<M>, b: seq<Node<M>>)
    requires !RecursiveScan(a).aborted
    ensures RecursiveLoader(Entries(a + [Node(name, load, Directory(sub))] + b))
         == RecursiveLoader(Entries(a)) + RecursiveLoader(sub) + RecursiveLoader(Entries(b))
  {
    RecursiveLoaderAround(a, Node(name, load, Directory(sub)), b);
  }

  /** A symbolic link is loaded like a regular file of its name and never entered. */
  lemma RecursiveLoaderSkipsLinks<M>(a: seq<Node<M>>, name: string, load: Load<M>, target: Kind<M>, b: seq<Node<M>>)
    ensures RecursiveLoader(Entries(a + [Node(name, load, SymbolicLink(target))] + b))
         == RecursiveLoader(Entries(a + [Node(name, load, Regular)] + b))
  {
    RecursiveLoaderAround(a, Node(name, load, SymbolicLink(target)), b);
    RecursiveLoaderAround(a, Node(name, load, Regular), b);
  }

  /** Failing `lstat`, or failing `require` of a source file, ends that folder's loop only. */
  lemma RecursiveLoaderStopsAtError<M>(a: seq<Node<M>>, n: Node<M>, b: seq<Node<M>>)
    requires n.kind.StatFails? || (!n.kind.Directory? && IsSource(n.name) && n.load.Throws?)
    ensures RecursiveLoader(Entries(a + [n] + b)) == RecursiveLoader(Entries(a))
  {
    RecursiveLoaderAround(a, n, b);
  }

  /** A falsy module, and a file without a source extension, are skipped. */
  lemma RecursiveLoaderSkipsFile<M>(a: seq<Node<M>>, n: Node<M>, b: seq<Node<M>>)
    requires n.kind.Regular? || n.kind.SymbolicLink?
    requires n.load.Falsy? || !IsSource(n.name)
    ensures RecursiveLoader(Entries(a + [n] + b)) == RecursiveLoader(Entries(a + b))
  {
    RecursiveLoaderAround(a, n, b);
    RecursiveScanAppend(a, b);
  }

  /** On a folder of plain files and links the two loaders hand over the same modules. */
  lemma FlatAgreesWithRecursive<M>(ns: seq<Node<M>>)
    requires forall i :: 0 <= i < |ns| ==> ns[i].kind.Regular? || ns[i].kind.SymbolicLink?
    ensures FlatLoader(Entries(ns)) == RecursiveLoader(Entries(ns))
  {
    FlatScanAgrees(ns);
  }

  lemma {:induction false} FlatScanAgrees<M>(ns: seq<Node<M>>)
    requires forall i :: 0 <= i < |ns| ==> ns[i].kind.Regular? || ns[i].kind.SymbolicLink?
    ensures FlatScan(SourceEntries(ns)) == RecursiveScan(ns)
  {
    if |ns| > 0 {
      FlatScanAgrees(ns[1..]);
      assert ns == [ns[0]] + ns[1..];
      SourceEntriesAppend([ns[0]], ns[1..]);
      FlatScanAppend(SourceEntries([ns[0]]), SourceEntries(ns[1..]));
    }
  }

  // ---------------------------------------------------------------- discovery at any depth

  /** Module `m` is what some source file of the tree, at any depth, loads to. */
  ghost predicate ListingProvides<M>(l: Listing<M>, m: M)
    decreases l, 2
  {
    l.Entries? && EntriesProvide(l.nodes, m)
  }

  ghost predicate EntriesProvide<M>(ns: seq<Node<M>>, m: M)
    decreases ns, 1
  {
    exists i :: 0 <= i < |ns| && NodeProvides(ns[i], m)
  }

  ghost predicate NodeProvides<M>(n: Node<M>, m: M)
    decreases n, 0
  {
    match n.kind
    case Directory(l) => ListingProvides(l, m)
    case StatFails => false
    case _ => IsSource(n.name) && n.load == Loaded(m)
  }

  /**
   No folder of the tree fails to list, no entry fails `lstat`, and no source file's
   `require` throws. A falsy module is allowed: the loop skips it and goes on.
   */
  ghost predicate Healthy<M>(l: Listing<M>)
    decreases l, 2
  {
    l.Entries? && forall i :: 0 <= i < |l.nodes| ==> HealthyNode(l.nodes[i])
  }

  ghost predicate HealthyNode<M>(n: Node<M>)
    decreases n, 0
  {
    match n.kind
    case Directory(l) => Healthy(l)
    case StatFails => false
    case _ => IsSource(n.name) ==> !n.load.Throws?
  }

  /** The recursive loader only ever hands over modules loaded from source files of the tree. */
  lemma {:induction false} RecursiveLoaderSound<M>(l: Listing<M>, m: M)
    requires m in RecursiveLoader(l)
    ensures ListingProvides(l, m)
    decreases l, 2
  {
    RecursiveScanSound(l.nodes, m);
  }

  lemma {:induction false} RecursiveScanSound<M>(ns: seq<Node<M>>, m: M)
    requires m in RecursiveScan(ns).emitted
    ensures EntriesProvide(ns, m)
    decreases ns, 1
  {
    var v := Visit(ns[0]);
    if m in v.emitted {
      VisitSound(ns[0], m);
    } else {
      RecursiveScanSound(ns[1..], m);
      var i :| 0 <= i < |ns[1..]| && NodeProvides(ns[1..][i], m);
      assert ns[i + 1] == ns[1..][i];
    }
  }

  lemma {:induction false} VisitSound<M>(n: Node<M>, m: M)
    requires m in Visit(n).emitted
    ensures NodeProvides(n, m)
    decreases n, 0
  {
    if n.kind.Directory? {
      RecursiveLoaderSound(n.kind.listing, m);
    }
  }

  /** In a healthy tree every module of every source file, at any depth, is handed over. */
  lemma {:induction false} RecursiveLoaderComplete<M>(l: Listing<M>, m: M)
    requires Healthy(l) && ListingProvides(l, m)
    ensures m in RecursiveLoader(l)
    decreases l, 2
  {
    RecursiveScanComplete(l.nodes, m);
  }

  lemma {:induction false} RecursiveScanComplete<M>(ns: seq<Node<M>>, m: M)
    requires forall i :: 0 <= i < |ns| ==> HealthyNode(ns[i])
    requires EntriesProvide(ns, m)
    ensures !RecursiveScan(ns).aborted
    ensures m in RecursiveScan(ns).emitted
    decreases ns, 1
  {
    var i :| 0 <= i < |ns| && NodeProvides(ns[i], m);
    VisitNeverAborts(ns[0]);
    if i == 0 {
      VisitComplete(ns[0], m);
      RecursiveScanHealthy(ns[1..]);
    } else {
      assert ns[1..][i - 1] == ns[i];
      RecursiveScanComplete(ns[1..], m);
    }
  }

  lemma {:induction false} VisitComplete<M>(n: Node<M>, m: M)
    requires HealthyNode(n) && NodeProvides(n, m)
    ensures m in Visit(n).emitted
    decreases n, 0
  {
    if n.kind.Directory? {
      RecursiveLoaderComplete(n.kind.listing, m);
    }
  }

  lemma VisitNeverAborts<M>(n: Node<M>)
    requires HealthyNode(n)
    ensures !Visit(n).aborted
  {
  }

  lemma {:induction false} RecursiveScanHealthy<M>(ns: seq<Node<M>>)
    requires forall i :: 0 <= i < |ns| ==> HealthyNode(ns[i])
    ensures !RecursiveScan(ns).aborted
  {
    if |ns| > 0 {
      VisitNeverAborts(ns[0]);
      RecursiveScanHealthy(ns[1..]);
    }
  }
}
