/** Reading the folder tree: the indented list, the path to a folder and the lookup by id. */
module FolderLists {
  import opened Wrappers
  import opened FolderForest

  datatype Entry = Entry(level: nat, folder: MailSet)

  // ----- operations on trees -----

  function Indented(trees: seq<Tree>, level: nat): seq<Entry> {
    if trees == [] then []
    else [Entry(level, trees[0].folder)] + Indented(trees[0].children, level + 1) + Indented(trees[1..], level)
  }

  method CollectIndented(subtrees: seq<Tree>, level: nat, out: seq<Entry>) returns (r: seq<Entry>)
    ensures r == out + Indented(subtrees, level)
    decreases subtrees
  {
    r := out;
    for i := 0 to |subtrees|
      invariant r + Indented(subtrees[i..], level) == out + Indented(subtrees, level)
    {
      var t := subtrees[i];
      assert subtrees[i..][1..] == subtrees[i + 1..];
      r := r + [Entry(level, t.folder)];
      r := CollectIndented(t.children, level + 1, r);
    }
    assert subtrees[|subtrees|..] == [];
  }

  /** System folders first, then custom ones. */
  method IndentedList(fs: FolderSystem) returns (r: seq<Entry>)
    ensures r == Indented(fs.system, 0) + Indented(fs.custom, 0)
  {
    r := CollectIndented(fs.system, 0, []);
    r := CollectIndented(fs.custom, 0, r);
  }

  /** The first tree with this id at its root, in preorder. */
  function SubtreeById(trees: seq<Tree>, id: string): Option<Tree> {
    if trees == [] then None
    else if trees[0].folder.id == id then Some(trees[0])
    else
      var found := SubtreeById(trees[0].children, id);
      if found.Some? then found else SubtreeById(trees[1..], id)
  }

  function FolderSubtree(fs: FolderSystem, id: string): Option<Tree> {
    var found := SubtreeById(fs.system, id);
    if found.Some? then found else SubtreeById(fs.custom, id)
  }

  function PathIn(trees: seq<Tree>, id: string): Option<seq<MailSet>> {
    if trees == [] then None
    else if trees[0].folder.id == id then Some([trees[0].folder])
    else
      var below := PathIn(trees[0].children, id);
      if below.Some? then Some([trees[0].folder] + below.value) else PathIn(trees[1..], id)
  }

  function PathToFolder(fs: FolderSystem, id: string): seq<MailSet> {
    var system := PathIn(fs.system, id);
    if system.Some? then system.value
    else
      var custom := PathIn(fs.custom, id);
      if custom.Some? then custom.value else []
  }

  // ----- every chain, in the order of the tree -----

  /** The chain and all its continuations. */
  function Chains(folders: seq<MailSet>, p: seq<MailSet>): (r: seq<seq<MailSet>>)
    requires Finite(folders) && IsPath(folders, p)
    ensures forall q :: q in r ==> IsPath(folders, q) && p <= q
    decreases |folders| - |p|, 1, 0
  {
    [p] + ChainsVia(folders, p, Kids(folders, Last(p)))
  }

  predicate AreKids(folders: seq<MailSet>, p: seq<MailSet>, kids: seq<MailSet>) {
    p != [] && forall k :: k in kids ==> k in folders && k.parent == Some(Last(p).id)
  }

  /** The continuations of the chain through these children. */
  function ChainsVia(folders: seq<MailSet>, p: seq<MailSet>, kids: seq<MailSet>): (r: seq<seq<MailSet>>)
    requires Finite(folders) && IsPath(folders, p) && AreKids(folders, p, kids)
    ensures forall q :: q in r ==> IsPath(folders, q) && p < q && q[|p|] in kids
    decreases |folders| - |p|, 0, |kids|
  {
    if kids == [] then []
    else
      Extend(folders, p, kids[0]);
      var first := Chains(folders, p + [kids[0]]);
      assert forall q :: q in first ==> q[|p|] == (p + [kids[0]])[|p|] == kids[0];
      first + ChainsVia(folders, p, kids[1..])
  }

  function RootChains(folders: seq<MailSet>, roots: seq<MailSet>): (r: seq<seq<MailSet>>)
    requires Finite(folders) && AreRoots(folders, roots)
    ensures forall q :: q in r ==> IsPath(folders, q) && q[0] in roots
  {
    if roots == [] then []
    else
      var first := Chains(folders, [roots[0]]);
      assert forall q :: q in first ==> q[0] == [roots[0]][0];
      first + RootChains(folders, roots[1..])
  }

  function AllChains(folders: seq<MailSet>): (r: seq<seq<MailSet>>)
    requires Finite(folders)
    ensures forall q :: q in r ==> IsPath(folders, q)
  {
    RootChains(folders, SystemRoots(folders)) + RootChains(folders, CustomRoots(folders))
  }

  /** No chain is missing. */
  lemma {:induction false} ChainsComplete(folders: seq<MailSet>, p: seq<MailSet>, q: seq<MailSet>)
    requires Finite(folders) && IsPath(folders, p) && IsPath(folders, q) && p <= q
    ensures q in Chains(folders, p)
    decreases |q| - |p|
  {
    if p != q {
      var k := q[|p|];
      assert q[|p| - 1] == Last(p) && k in q;
      assert k.parent == Some(q[|p| - 1].id);
      Extend(folders, p, k);
      ChainsComplete(folders, p + [k], q);
      InChainsVia(folders, p, Kids(folders, Last(p)), k, q);
    }
  }

  lemma {:induction false} InChainsVia(folders: seq<MailSet>, p: seq<MailSet>, kids: seq<MailSet>, k: MailSet,
                                       q: seq<MailSet>)
    requires Finite(folders) && IsPath(folders, p) && AreKids(folders, p, kids) && k in kids
    requires IsPath(folders, p + [k]) && q in Chains(folders, p + [k])
    ensures q in ChainsVia(folders, p, kids)
  {
    if kids[0] != k {
      InChainsVia(folders, p, kids[1..], k, q);
    }
  }

  lemma {:induction false} RootChainsComplete(folders: seq<MailSet>, roots: seq<MailSet>, q: seq<MailSet>)
    requires Finite(folders) && AreRoots(folders, roots) && IsPath(folders, q) && q[0] in roots
    ensures q in RootChains(folders, roots)
  {
    if roots[0] == q[0] {
      ChainsComplete(folders, [roots[0]], q);
    } else {
      RootChainsComplete(folders, roots[1..], q);
    }
  }

  lemma AllChainsComplete(folders: seq<MailSet>, q: seq<MailSet>)
    requires Finite(folders)
    ensures IsPath(folders, q) <==> q in AllChains(folders)
  {
    if IsPath(folders, q) {
      assert q[0] in q;
      if IsVisibleSystem(q[0]) {
        RootChainsComplete(folders, SystemRoots(folders), q);
      } else {
        RootChainsComplete(folders, CustomRoots(folders), q);
      }
    }
  }

  // ----- no chain comes twice -----

  predicate Distinct<T(==)>(s: seq<T>) {
    forall i, j :: 0 <= i < j < |s| ==> s[i] != s[j]
  }

  lemma DistinctConcat<T>(a: seq<T>, b: seq<T>)
    requires Distinct(a) && Distinct(b) && forall x :: x in a ==> x !in b
    ensures Distinct(a + b)
  {
    var s := a + b;
    forall i, j | 0 <= i < j < |s| ensures s[i] != s[j] {
      if i < |a| <= j {
        assert s[i] == a[i] && s[j] == b[j - |a|];
        assert a[i] in a && b[j - |a|] in b;
      }
    }
  }

  lemma {:induction false} InsertDistinct(o: Order, f: MailSet, s: seq<MailSet>)
    requires Distinct(s) && f !in s
    ensures Distinct(Insert(o, f, s))
    ensures forall x :: x in Insert(o, f, s) <==> x == f || x in s
  {
    if s != [] && !Le(o, f, s[0]) {
      assert s[0] in s && s == [s[0]] + s[1..];
      InsertDistinct(o, f, s[1..]);
      DistinctConcat([s[0]], Insert(o, f, s[1..]));
    } else {
      DistinctConcat([f], s);
    }
  }

  lemma {:induction false} SortDistinct(o: Order, s: seq<MailSet>)
    requires Distinct(s)
    ensures Distinct(Sort(o, s))
  {
    if s != [] {
      SortDistinct(o, s[1..]);
      SortMembers(o, s[1..]);
      InsertDistinct(o, s[0], Sort(o, s[1..]));
    }
  }

  lemma {:induction false} ChildrenDistinct(folders: seq<MailSet>, id: string)
    requires Distinct(folders)
    ensures Distinct(ChildrenOf(folders, id))
  {
    if folders != [] {
      ChildrenDistinct(folders[1..], id);
      DistinctConcat(if folders[0].parent == Some(id) then [folders[0]] else [], ChildrenOf(folders[1..], id));
    }
  }

  lemma LoadableDistinct(folders: seq<MailSet>, p: seq<MailSet>)
    requires Loadable(folders) && IsPath(folders, p)
    ensures Distinct(Kids(folders, Last(p)))
  {
    ChildrenDistinct(folders, Last(p).id);
    SortDistinct(ByName, ChildrenOf(folders, Last(p).id));
  }

  lemma {:induction false} ChainsDistinct(folders: seq<MailSet>, p: seq<MailSet>)
    requires Loadable(folders) && IsPath(folders, p)
    ensures Distinct(Chains(folders, p))
    decreases |folders| - |p|, 1, 0
  {
    LoadableDistinct(folders, p);
    var kids := Kids(folders, Last(p));
    ChainsViaDistinct(folders, p, kids);
    DistinctConcat([p], ChainsVia(folders, p, kids));
  }

  lemma {:induction false} ChainsViaDistinct(folders: seq<MailSet>, p: seq<MailSet>, kids: seq<MailSet>)
    requires Loadable(folders) && IsPath(folders, p) && AreKids(folders, p, kids) && Distinct(kids)
    ensures Distinct(ChainsVia(folders, p, kids))
    decreases |folders| - |p|, 0, |kids|
  {
    if kids != [] {
      Extend(folders, p, kids[0]);
      var first, more := Chains(folders, p + [kids[0]]), ChainsVia(folders, p, kids[1..]);
      ChainsDistinct(folders, p + [kids[0]]);
      ChainsViaDistinct(folders, p, kids[1..]);
      assert forall q :: q in first ==> q[|p|] == (p + [kids[0]])[|p|];
      DistinctConcat(first, more);
    }
  }

  lemma {:induction false} RootChainsDistinct(folders: seq<MailSet>, roots: seq<MailSet>)
    requires Loadable(folders) && AreRoots(folders, roots) && Distinct(roots)
    ensures Distinct(RootChains(folders, roots))
  {
    if roots != [] {
      var first := Chains(folders, [roots[0]]);
      ChainsDistinct(folders, [roots[0]]);
      RootChainsDistinct(folders, roots[1..]);
      assert forall q :: q in first ==> q[0] == [roots[0]][0];
      DistinctConcat(first, RootChains(folders, roots[1..]));
    }
  }

  lemma {:induction false} RootsDistinct(folders: seq<MailSet>)
    requires Distinct(folders)
    ensures Distinct(RootsOf(folders).system) && Distinct(RootsOf(folders).custom)
  {
    if folders != [] {
      var n := |folders| - 1;
      var before, f := RootsOf(folders[..n]), folders[n];
      RootsDistinct(folders[..n]);
      assert f !in folders[..n];
      DistinctConcat(before.system, [f]);
      DistinctConcat(before.custom, [f]);
    }
  }

  lemma SortedRootsDistinct(folders: seq<MailSet>)
    requires Loadable(folders)
    ensures Distinct(SystemRoots(folders)) && Distinct(CustomRoots(folders))
  {
    RootsDistinct(folders);
    SortDistinct(BySystemOrder, RootsOf(folders).system);
    SortDistinct(ByName, RootsOf(folders).custom);
  }

  lemma AllChainsDistinct(folders: seq<MailSet>)
    requires Loadable(folders)
    ensures Distinct(AllChains(folders))
  {
    var system, custom := SystemRoots(folders), CustomRoots(folders);
    SortedRootsDistinct(folders);
    RootChainsDistinct(folders, system);
    RootChainsDistinct(folders, custom);
    DistinctConcat(RootChains(folders, system), RootChains(folders, custom));
  }

  // ----- the indented list is the list of chains -----

  function EntryOf(p: seq<MailSet>): Entry
    requires p != []
  {
    Entry(|p| - 1, Last(p))
  }

  predicate NonEmpty(ps: seq<seq<MailSet>>) {
    forall i :: 0 <= i < |ps| ==> |ps[i]| > 0
  }

  function Entries(ps: seq<seq<MailSet>>): (r: seq<Entry>)
    requires NonEmpty(ps)
    ensures |r| == |ps| && forall i :: 0 <= i < |ps| ==> r[i] == EntryOf(ps[i])
  {
    if ps == [] then [] else [EntryOf(ps[0])] + Entries(ps[1..])
  }

  lemma EntriesConcat(a: seq<seq<MailSet>>, b: seq<seq<MailSet>>)
    requires NonEmpty(a) && NonEmpty(b)
    ensures NonEmpty(a + b) && Entries(a + b) == Entries(a) + Entries(b)
  {
  }

  lemma ArePaths(folders: seq<MailSet>, ps: seq<seq<MailSet>>)
    requires forall q :: q in ps ==> IsPath(folders, q)
    ensures NonEmpty(ps)
  {
    forall i | 0 <= i < |ps| ensures |ps[i]| > 0 {
      assert ps[i] in ps;
    }
  }

  function ChainEntries(folders: seq<MailSet>, p: seq<MailSet>): seq<Entry>
    requires Finite(folders) && IsPath(folders, p)
  {
    ArePaths(folders, Chains(folders, p));
    Entries(Chains(folders, p))
  }

  function ViaEntries(folders: seq<MailSet>, p: seq<MailSet>, kids: seq<MailSet>): seq<Entry>
    requires Finite(folders) && IsPath(folders, p) && AreKids(folders, p, kids)
  {
    ArePaths(folders, ChainsVia(folders, p, kids));
    Entries(ChainsVia(folders, p, kids))
  }

  function RootEntries(folders: seq<MailSet>, roots: seq<MailSet>): seq<Entry>
    requires Finite(folders) && AreRoots(folders, roots)
  {
    ArePaths(folders, RootChains(folders, roots));
    Entries(RootChains(folders, roots))
  }

  lemma ChainEntriesFront(folders: seq<MailSet>, p: seq<MailSet>)
    requires Finite(folders) && IsPath(folders, p)
    ensures ChainEntries(folders, p) == [EntryOf(p)] + ViaEntries(folders, p, Kids(folders, Last(p)))
  {
    var via := ChainsVia(folders, p, Kids(folders, Last(p)));
    ArePaths(folders, via);
    EntriesConcat([p], via);
  }

  lemma ViaEntriesFront(folders: seq<MailSet>, p: seq<MailSet>, kids: seq<MailSet>)
    requires Finite(folders) && IsPath(folders, p) && AreKids(folders, p, kids) && kids != []
    ensures IsPath(folders, p + [kids[0]]) && |p| < |folders|
    ensures ViaEntries(folders, p, kids) == ChainEntries(folders, p + [kids[0]]) + ViaEntries(folders, p, kids[1..])
  {
    Extend(folders, p, kids[0]);
    ArePaths(folders, Chains(folders, p + [kids[0]]));
    ArePaths(folders, ChainsVia(folders, p, kids[1..]));
    EntriesConcat(Chains(folders, p + [kids[0]]), ChainsVia(folders, p, kids[1..]));
  }

  lemma SubtreesFront(folders: seq<MailSet>, p: seq<MailSet>, kids: seq<MailSet>, level: nat)
    requires Finite(folders) && IsPath(folders, p) && AreKids(folders, p, kids) && kids != []
    ensures IsPath(folders, p + [kids[0]])
    ensures var q := p + [kids[0]];
            Indented(Subtrees(folders, p, kids), level) ==
            [Entry(level, kids[0])] + Indented(Subtrees(folders, q, Kids(folders, kids[0])), level + 1)
            + Indented(Subtrees(folders, p, kids[1..]), level)
  {
    Extend(folders, p, kids[0]);
    var trees := Subtrees(folders, p, kids);
    assert trees[1..] == Subtrees(folders, p, kids[1..]);
  }

  lemma {:induction false} SubtreesListed(folders: seq<MailSet>, p: seq<MailSet>, kids: seq<MailSet>)
    requires Finite(folders) && IsPath(folders, p) && AreKids(folders, p, kids)
    ensures Indented(Subtrees(folders, p, kids), |p|) == ViaEntries(folders, p, kids)
    decreases |folders| - |p|, |kids|
  {
    if kids != [] {
      ViaEntriesFront(folders, p, kids);
      SubtreesFront(folders, p, kids, |p|);
      var q := p + [kids[0]];
      ChainEntriesFront(folders, q);
      SubtreesListed(folders, q, Kids(folders, kids[0]));
      SubtreesListed(folders, p, kids[1..]);
    }
  }

  lemma RootEntriesFront(folders: seq<MailSet>, roots: seq<MailSet>)
    requires Finite(folders) && AreRoots(folders, roots) && roots != []
    ensures RootEntries(folders, roots) == ChainEntries(folders, [roots[0]]) + RootEntries(folders, roots[1..])
  {
    ArePaths(folders, Chains(folders, [roots[0]]));
    ArePaths(folders, RootChains(folders, roots[1..]));
    EntriesConcat(Chains(folders, [roots[0]]), RootChains(folders, roots[1..]));
  }

  lemma RootTreesFront(folders: seq<MailSet>, roots: seq<MailSet>)
    requires Finite(folders) && AreRoots(folders, roots) && roots != []
    ensures Indented(RootTrees(folders, roots), 0) ==
            [Entry(0, roots[0])] + Indented(Subtrees(folders, [roots[0]], Kids(folders, roots[0])), 1)
            + Indented(RootTrees(folders, roots[1..]), 0)
  {
    var trees := RootTrees(folders, roots);
    assert trees[1..] == RootTrees(folders, roots[1..]);
  }

  lemma {:induction false} RootsListed(folders: seq<MailSet>, roots: seq<MailSet>)
    requires Finite(folders) && AreRoots(folders, roots)
    ensures Indented(RootTrees(folders, roots), 0) == RootEntries(folders, roots)
  {
    if roots != [] {
      RootEntriesFront(folders, roots);
      RootTreesFront(folders, roots);
      ChainEntriesFront(folders, [roots[0]]);
      SubtreesListed(folders, [roots[0]], Kids(folders, roots[0]));
      RootsListed(folders, roots[1..]);
    }
  }

  function Listing(folders: seq<MailSet>): seq<Entry>
    requires Finite(folders)
  {
    Indented(Built(folders).system, 0) + Indented(Built(folders).custom, 0)
  }

  lemma ListingIsChains(folders: seq<MailSet>)
    requires Finite(folders)
    ensures NonEmpty(AllChains(folders)) && Listing(folders) == Entries(AllChains(folders))
  {
    var system, custom := SystemRoots(folders), CustomRoots(folders);
    RootsListed(folders, system);
    RootsListed(folders, custom);
    ArePaths(folders, RootChains(folders, system));
    ArePaths(folders, RootChains(folders, custom));
    EntriesConcat(RootChains(folders, system), RootChains(folders, custom));
  }

  lemma ListingMember(folders: seq<MailSet>, e: Entry)
    requires Finite(folders)
    ensures e in Listing(folders) <==> exists p :: IsPath(folders, p) && e == EntryOf(p)
  {
    var list, chains := Listing(folders), AllChains(folders);
    ListingIsChains(folders);
    if p :| IsPath(folders, p) && e == EntryOf(p) {
      AllChainsComplete(folders, p);
      var i :| 0 <= i < |chains| && chains[i] == p;
      assert list[i] == e;
    }
    if e in list {
      var i :| 0 <= i < |list| && list[i] == e;
      assert chains[i] in chains;
    }
  }

  lemma {:induction false} ListedOnce(folders: seq<MailSet>, i: nat, j: nat)
    requires Loadable(folders) && i < j < |Listing(folders)|
    ensures Listing(folders)[i].folder != Listing(folders)[j].folder
  {
    var list, chains := Listing(folders), AllChains(folders);
    ListingIsChains(folders);
    AllChainsDistinct(folders);
    assert chains[i] in chains && chains[j] in chains;
    if list[i].folder == list[j].folder {
      OneChain(folders, chains[i], chains[j]);
    }
  }

  /**
   * The indented list holds exactly the folders whose chain of parents reaches a root, each once, at the level its
   * chain gives it.
   */
  lemma {:induction false} ListingExact(folders: seq<MailSet>)
    requires Loadable(folders)
    ensures forall e :: e in Listing(folders) <==> exists p :: IsPath(folders, p) && e == EntryOf(p)
    ensures forall i, j :: 0 <= i < j < |Listing(folders)| ==> Listing(folders)[i].folder != Listing(folders)[j].folder
  {
    forall e ensures e in Listing(folders) <==> exists p :: IsPath(folders, p) && e == EntryOf(p) {
      ListingMember(folders, e);
    }
    forall i, j | 0 <= i < j < |Listing(folders)|
      ensures Listing(folders)[i].folder != Listing(folders)[j].folder
    {
      ListedOnce(folders, i, j);
    }
  }

  // ----- lookups find the chain -----

  ghost predicate Hit(folders: seq<MailSet>, q: seq<MailSet>, id: string, tree: Option<Tree>)
    requires Finite(folders)
  {
    IsPath(folders, q) && Last(q).id == id && tree == Some(Subtree(folders, q))
  }

  ghost predicate Misses(among: seq<seq<MailSet>>, id: string) {
    forall q :: q in among ==> |q| > 0 && Last(q).id != id
  }

  /** What a search below a chain finds: a continuation that ends at the id, or proof that there is none. */
  ghost predicate Finds(folders: seq<MailSet>, p: seq<MailSet>, among: seq<seq<MailSet>>, id: string,
                        path: Option<seq<MailSet>>, tree: Option<Tree>)
    requires Finite(folders)
  {
    if path.Some? then path.value != [] && Hit(folders, p + path.value, id, tree)
    else tree.None? && Misses(among, id)
  }

  lemma MissesConcat(q: seq<MailSet>, via: seq<seq<MailSet>>, rest: seq<seq<MailSet>>, id: string)
    requires q != [] && Last(q).id != id && Misses(via, id) && Misses(rest, id)
    ensures Misses([q] + via + rest, id)
  {
  }

  lemma PathInFront(trees: seq<Tree>, id: string)
    requires trees != []
    ensures var f, below := trees[0].folder, PathIn(trees[0].children, id);
            PathIn(trees, id) == if f.id == id then Some([f]) else if below.Some? then Some([f] + below.value)
                                 else PathIn(trees[1..], id)
    ensures var below := SubtreeById(trees[0].children, id);
            SubtreeById(trees, id) == if trees[0].folder.id == id then Some(trees[0]) else if below.Some? then below
                                      else SubtreeById(trees[1..], id)
  {
  }

  lemma Regroup(p: seq<MailSet>, f: MailSet, below: seq<MailSet>)
    ensures p + ([f] + below) == p + [f] + below
  {
  }

  lemma {:induction false} FoundBelow(folders: seq<MailSet>, p: seq<MailSet>, f: MailSet, below: seq<MailSet>,
                                      among: seq<seq<MailSet>>, id: string, t: Option<Tree>)
    requires Finite(folders) && Hit(folders, p + [f] + below, id, t)
    ensures Finds(folders, p, among, id, Some([f] + below), t)
  {
    Regroup(p, f, below);
  }

  lemma {:induction false} FoundLater(folders: seq<MailSet>, p: seq<MailSet>, q: seq<MailSet>, via: seq<seq<MailSet>>,
                   rest: seq<seq<MailSet>>, id: string, path: Option<seq<MailSet>>, t: Option<Tree>)
    requires Finite(folders) && Finds(folders, p, rest, id, path, t)
    requires q != [] && Last(q).id != id && Misses(via, id)
    ensures Finds(folders, p, [q] + via + rest, id, path, t)
  {
    if path.None? {
      MissesConcat(q, via, rest, id);
    }
  }

  /** A search in a list of trees: the first root, then below it, then the others. */
  lemma {:induction false} FindStep(folders: seq<MailSet>, p: seq<MailSet>, q: seq<MailSet>, trees: seq<Tree>,
                                    via: seq<seq<MailSet>>, rest: seq<seq<MailSet>>, id: string)
    requires Finite(folders) && IsPath(folders, q) && trees != []
    requires q == p + [trees[0].folder] && trees[0] == Subtree(folders, q)
    requires Finds(folders, q, via, id, PathIn(trees[0].children, id), SubtreeById(trees[0].children, id))
    requires Finds(folders, p, rest, id, PathIn(trees[1..], id), SubtreeById(trees[1..], id))
    ensures Finds(folders, p, [q] + via + rest, id, PathIn(trees, id), SubtreeById(trees, id))
  {
    var f, below := trees[0].folder, PathIn(trees[0].children, id);
    PathInFront(trees, id);
    if f.id == id {
      assert q + [] == q && [f] + [] == [f];
      FoundBelow(folders, p, f, [], [q] + via + rest, id, Some(trees[0]));
    } else if below.Some? {
      FoundBelow(folders, p, f, below.value, [q] + via + rest, id, SubtreeById(trees[0].children, id));
    } else {
      FoundLater(folders, p, q, via, rest, id, PathIn(trees[1..], id), SubtreeById(trees[1..], id));
    }
  }

  lemma ViaFront(folders: seq<MailSet>, p: seq<MailSet>, kids: seq<MailSet>)
    requires Finite(folders) && IsPath(folders, p) && AreKids(folders, p, kids) && kids != []
    ensures IsPath(folders, p + [kids[0]]) && |p| < |folders|
    ensures var q, trees := p + [kids[0]], Subtrees(folders, p, kids);
            && trees[0] == Subtree(folders, q)
            && trees[0].folder == kids[0]
            && trees[0].children == Subtrees(folders, q, Kids(folders, kids[0]))
            && trees[1..] == Subtrees(folders, p, kids[1..])
    ensures var q := p + [kids[0]];
            ChainsVia(folders, p, kids) ==
            [q] + ChainsVia(folders, q, Kids(folders, kids[0])) + ChainsVia(folders, p, kids[1..])
  {
    Extend(folders, p, kids[0]);
    assert Last(p + [kids[0]]) == kids[0];
  }

  lemma {:induction false} FindVia(folders: seq<MailSet>, p: seq<MailSet>, kids: seq<MailSet>, id: string)
    requires Finite(folders) && IsPath(folders, p) && AreKids(folders, p, kids)
    ensures var trees := Subtrees(folders, p, kids);
            Finds(folders, p, ChainsVia(folders, p, kids), id, PathIn(trees, id), SubtreeById(trees, id))
    decreases |folders| - |p|, |kids|
  {
    if kids != [] {
      ViaFront(folders, p, kids);
      var q := p + [kids[0]];
      var via := ChainsVia(folders, q, Kids(folders, kids[0]));
      FindVia(folders, q, Kids(folders, kids[0]), id);
      FindVia(folders, p, kids[1..], id);
      FindStep(folders, p, q, Subtrees(folders, p, kids), via, ChainsVia(folders, p, kids[1..]), id);
    }
  }

  lemma RootFront(folders: seq<MailSet>, roots: seq<MailSet>)
    requires Finite(folders) && AreRoots(folders, roots) && roots != []
    ensures var q, trees := [roots[0]], RootTrees(folders, roots);
            && trees[0] == Subtree(folders, q)
            && trees[0].folder == roots[0]
            && trees[0].children == Subtrees(folders, q, Kids(folders, roots[0]))
            && trees[1..] == RootTrees(folders, roots[1..])
    ensures var q := [roots[0]];
            RootChains(folders, roots) ==
            [q] + ChainsVia(folders, q, Kids(folders, roots[0])) + RootChains(folders, roots[1..])
  {
    assert Last([roots[0]]) == roots[0];
  }

  lemma {:induction false} FindRoot(folders: seq<MailSet>, roots: seq<MailSet>, id: string)
    requires Finite(folders) && AreRoots(folders, roots)
    ensures var trees := RootTrees(folders, roots);
            Finds(folders, [], RootChains(folders, roots), id, PathIn(trees, id), SubtreeById(trees, id))
  {
    if roots != [] {
      RootFront(folders, roots);
      var q := [roots[0]];
      var via := ChainsVia(folders, q, Kids(folders, roots[0]));
      FindVia(folders, q, Kids(folders, roots[0]), id);
      FindRoot(folders, roots[1..], id);
      assert [] + q == q;
      FindStep(folders, [], q, RootTrees(folders, roots), via, RootChains(folders, roots[1..]), id);
    }
  }

  /**
   * The path to a folder is its chain, root first: one entry more than its level. Without a chain it is empty, and
   * the lookup by id finds the whole subtree of exactly the folders that have one.
   */
  lemma {:induction false} PathIsChain(folders: seq<MailSet>, id: string)
    requires Loadable(folders)
    ensures forall q :: IsPath(folders, q) && Last(q).id == id ==>
              && PathToFolder(Built(folders), id) == q
              && FolderSubtree(Built(folders), id) == Some(Subtree(folders, q))
    ensures (forall q :: IsPath(folders, q) ==> Last(q).id != id) ==>
              PathToFolder(Built(folders), id) == [] && FolderSubtree(Built(folders), id) == None
  {
    FindRoot(folders, SystemRoots(folders), id);
    FindRoot(folders, CustomRoots(folders), id);
    var fs := Built(folders);
    var found := PathToFolder(fs, id);
    assert PathIn(fs.system, id).Some? ==> [] + PathIn(fs.system, id).value == found;
    assert PathIn(fs.system, id).None? && PathIn(fs.custom, id).Some? ==> [] + PathIn(fs.custom, id).value == found;
    forall q | IsPath(folders, q) && Last(q).id == id
      ensures found == q && FolderSubtree(fs, id) == Some(Subtree(folders, q))
    {
      AllChainsComplete(folders, q);
      assert found != [];
      SameId(folders, Last(q), Last(found));
      OneChain(folders, q, found);
    }
  }
}
