/** Folder trees grown from the flat list in which folders are loaded. */
module FolderForest {
  import opened Wrappers

  datatype Kind = Custom | Inbox | Sent | Trash | Archive | Spam | Draft | AllMail | Label | Imported | Scheduled | Unknown

  datatype MailSet = MailSet(id: string, kind: Kind, name: string, parent: Option<string>)

  predicate IsVisibleSystem(f: MailSet) {
    f.kind in {Inbox, Sent, Trash, Archive, Spam, Draft, Scheduled}
  }

  predicate IsTopLevelCustom(f: MailSet) {
    f.kind == Custom && f.parent.None?
  }

  predicate IsRoot(f: MailSet) {
    IsVisibleSystem(f) || IsTopLevelCustom(f)
  }

  /** What the server keeps to: ids are unique and visible system folders have no parent. */
  predicate Tidy(folders: seq<MailSet>) {
    && (forall i, j :: 0 <= i < j < |folders| ==> folders[i].id != folders[j].id)
    && (forall f :: f in folders && IsVisibleSystem(f) ==> f.parent.None?)
  }

  // ----- order among siblings -----

  datatype Order = BySystemOrder | ByName

  function SystemOrder(k: Kind): nat {
    match k
    case Inbox => 0
    case Draft => 1
    case Scheduled => 2
    case Sent => 3
    case Trash => 4
    case Archive => 5
    case Spam => 6
    case _ => 7
  }

  /** Lexicographic order of names. */
  predicate NameLe(a: string, b: string) {
    a == "" || (b != "" && (a[0] < b[0] || (a[0] == b[0] && NameLe(a[1..], b[1..]))))
  }

  predicate Le(o: Order, a: MailSet, b: MailSet) {
    match o
    case BySystemOrder => SystemOrder(a.kind) <= SystemOrder(b.kind)
    case ByName => NameLe(a.name, b.name)
  }

  lemma {:induction false} NameLeTotal(a: string, b: string)
    ensures NameLe(a, b) || NameLe(b, a)
  {
    if a != "" && b != "" && a[0] == b[0] {
      NameLeTotal(a[1..], b[1..]);
    }
  }

  lemma {:induction false} NameLeTransitive(a: string, b: string, c: string)
    requires NameLe(a, b) && NameLe(b, c)
    ensures NameLe(a, c)
  {
    if a != "" && a[0] == b[0] == c[0] {
      NameLeTransitive(a[1..], b[1..], c[1..]);
    }
  }

  lemma LeTotal(o: Order, a: MailSet, b: MailSet)
    ensures Le(o, a, b) || Le(o, b, a)
  {
    NameLeTotal(a.name, b.name);
  }

  lemma LeTransitive(o: Order, a: MailSet, b: MailSet, c: MailSet)
    requires Le(o, a, b) && Le(o, b, c)
    ensures Le(o, a, c)
  {
    if o == ByName {
      NameLeTransitive(a.name, b.name, c.name);
    }
  }

  /** Insert in front of the first folder that is not smaller. */
  function Insert(o: Order, f: MailSet, s: seq<MailSet>): (r: seq<MailSet>)
    ensures multiset(r) == multiset(s) + multiset{f}
  {
    if s == [] then [f]
    else if Le(o, f, s[0]) then [f] + s
    else assert s == [s[0]] + s[1..]; [s[0]] + Insert(o, f, s[1..])
  }

  /** Stable sort. */
  function Sort(o: Order, s: seq<MailSet>): (r: seq<MailSet>)
    ensures multiset(r) == multiset(s)
  {
    if s == [] then [] else assert s == [s[0]] + s[1..]; Insert(o, s[0], Sort(o, s[1..]))
  }

  predicate Sorted(o: Order, s: seq<MailSet>) {
    forall i, j :: 0 <= i < j < |s| ==> Le(o, s[i], s[j])
  }

  lemma {:induction false} InsertSorted(o: Order, f: MailSet, s: seq<MailSet>)
    requires Sorted(o, s)
    ensures Sorted(o, Insert(o, f, s))
  {
    if s != [] {
      LeTotal(o, f, s[0]);
      if Le(o, f, s[0]) {
        forall j | 0 <= j < |s| ensures Le(o, f, s[j]) {
          if j > 0 {
            LeTransitive(o, f, s[0], s[j]);
          }
        }
      } else {
        InsertSorted(o, f, s[1..]);
        var r := Insert(o, f, s[1..]);
        forall j | 0 <= j < |r| ensures Le(o, s[0], r[j]) {
          assert r[j] in multiset(r);
          assert r[j] == f || r[j] in s[1..];
        }
      }
    }
  }

  function IfLike(o: Order, x: MailSet, f: MailSet): seq<MailSet> {
    if Le(o, f, x) && Le(o, x, f) then [f] else []
  }

  /** The folders that rank the same as `x`, in their given order. */
  function RankedLike(o: Order, x: MailSet, s: seq<MailSet>): seq<MailSet> {
    if s == [] then [] else IfLike(o, x, s[0]) + RankedLike(o, x, s[1..])
  }

  lemma RankedFront(o: Order, x: MailSet, f: MailSet, s: seq<MailSet>)
    ensures RankedLike(o, x, [f] + s) == IfLike(o, x, f) + RankedLike(o, x, s)
  {
    assert ([f] + s)[1..] == s;
  }

  lemma SwapUnlike(o: Order, x: MailSet, f: MailSet, g: MailSet)
    requires !Le(o, f, g)
    ensures IfLike(o, x, f) == [] || IfLike(o, x, g) == []
  {
    if IfLike(o, x, f) != [] && IfLike(o, x, g) != [] {
      LeTransitive(o, f, x, g);
    }
  }

  lemma {:induction false} InsertStable(o: Order, f: MailSet, s: seq<MailSet>, x: MailSet)
    ensures RankedLike(o, x, Insert(o, f, s)) == IfLike(o, x, f) + RankedLike(o, x, s)
  {
    if s == [] || Le(o, f, s[0]) {
      assert [f] + s == Insert(o, f, s);
      RankedFront(o, x, f, s);
    } else {
      InsertStable(o, f, s[1..], x);
      SwapUnlike(o, x, f, s[0]);
      RankedFront(o, x, s[0], Insert(o, f, s[1..]));
    }
  }

  lemma {:induction false} SortKeepsRanked(o: Order, s: seq<MailSet>, x: MailSet)
    ensures RankedLike(o, x, Sort(o, s)) == RankedLike(o, x, s)
  {
    if s != [] {
      SortKeepsRanked(o, s[1..], x);
      InsertStable(o, s[0], Sort(o, s[1..]), x);
    }
  }

  /** Siblings come in order, and those that rank the same keep the order they were loaded in. */
  lemma {:induction false} SortIsStable(o: Order, s: seq<MailSet>, x: MailSet)
    ensures Sorted(o, Sort(o, s))
    ensures RankedLike(o, x, Sort(o, s)) == RankedLike(o, x, s)
  {
    SortKeepsRanked(o, s, x);
    if s != [] {
      SortIsStable(o, s[1..], x);
      InsertSorted(o, s[0], Sort(o, s[1..]));
    }
  }

  // ----- chains of parents -----

  /** A chain from a root down to its last folder. */
  predicate IsPath(folders: seq<MailSet>, p: seq<MailSet>) {
    && p != []
    && (forall f :: f in p ==> f in folders)
    && IsRoot(p[0])
    && (forall i :: 0 < i < |p| ==> p[i].parent == Some(p[i - 1].id))
  }

  function Last(p: seq<MailSet>): MailSet
    requires p != []
  {
    p[|p| - 1]
  }

  lemma SameId(folders: seq<MailSet>, a: MailSet, b: MailSet)
    requires Tidy(folders) && a in folders && b in folders && a.id == b.id
    ensures a == b
  {
    var i :| 0 <= i < |folders| && folders[i] == a;
    var j :| 0 <= j < |folders| && folders[j] == b;
    assert i == j;
  }

  lemma {:induction false} NoRepeat(folders: seq<MailSet>, p: seq<MailSet>, i: nat, j: nat)
    requires Tidy(folders) && IsPath(folders, p) && i < j < |p|
    ensures p[i] != p[j]
  {
    assert p[0] in p && IsRoot(p[0]);
    assert p[j].parent == Some(p[j - 1].id);
    if i > 0 && p[i] == p[j] {
      SameId(folders, p[i - 1], p[j - 1]);
      NoRepeat(folders, p, i - 1, j - 1);
    }
  }

  lemma {:induction false} DistinctFits(p: seq<MailSet>, s: set<MailSet>)
    requires forall i, j :: 0 <= i < j < |p| ==> p[i] != p[j]
    requires forall f :: f in p ==> f in s
    ensures |p| <= |s|
  {
    if p != [] {
      var q := p[..|p| - 1];
      assert forall f :: f in q ==> f != Last(p);
      DistinctFits(q, s - {Last(p)});
    }
  }

  lemma {:induction false} SetOfSeq(folders: seq<MailSet>) returns (s: set<MailSet>)
    ensures s == (set f | f in folders) && |s| <= |folders|
  {
    if folders == [] {
      s := {};
    } else {
      var t := SetOfSeq(folders[1..]);
      s := t + {folders[0]};
      assert folders == [folders[0]] + folders[1..];
    }
  }

  /** No chain is longer than the list of folders: what building the tree needs in order to end. */
  ghost predicate Finite(folders: seq<MailSet>) {
    forall p :: IsPath(folders, p) ==> |p| <= |folders|
  }

  predicate Repeats(p: seq<MailSet>) {
    exists i, j :: 0 <= i < j < |p| && p[i] == p[j]
  }

  lemma DistinctBound(folders: seq<MailSet>, p: seq<MailSet>)
    requires IsPath(folders, p) && !Repeats(p)
    ensures |p| <= |folders|
  {
    var s := SetOfSeq(folders);
    DistinctFits(p, s);
  }

  /** Walk a cycle once more: the chain gets longer by its length. */
  lemma WalkAgain(folders: seq<MailSet>, p: seq<MailSet>, i: nat, j: nat)
    requires IsPath(folders, p) && i < j < |p| && p[i] == p[j]
    ensures var q := p[..j] + p[i..]; IsPath(folders, q) && |q| > |p| && q[i] == q[j]
  {
    var q := p[..j] + p[i..];
    forall k | 0 < k < |q| ensures q[k].parent == Some(q[k - 1].id) {
      if k < j {
        assert q[k] == p[k] && q[k - 1] == p[k - 1];
      } else if k == j {
        assert q[k] == p[j] && q[k - 1] == p[j - 1];
      } else {
        assert q[k] == p[i + k - j] && q[k - 1] == p[i + k - 1 - j];
      }
    }
  }

  lemma {:induction false} CycleNeverEnds(folders: seq<MailSet>, p: seq<MailSet>, i: nat, j: nat, n: nat)
    returns (q: seq<MailSet>)
    requires IsPath(folders, p) && i < j < |p| && p[i] == p[j]
    ensures IsPath(folders, q) && |q| > n
    decreases n - |p|
  {
    if |p| > n {
      q := p;
    } else {
      WalkAgain(folders, p, i, j);
      q := CycleNeverEnds(folders, p[..j] + p[i..], i, j, n);
    }
  }

  /** Exactly the lists on which building the tree ends: those where no chain of parents meets a folder twice. */
  lemma FiniteIff(folders: seq<MailSet>)
    ensures Finite(folders) <==> forall p :: IsPath(folders, p) ==> !Repeats(p)
  {
    forall p | IsPath(folders, p) && !Repeats(p) ensures |p| <= |folders| {
      DistinctBound(folders, p);
    }
    if p :| IsPath(folders, p) && Repeats(p) {
      var i, j :| 0 <= i < j < |p| && p[i] == p[j];
      var q := CycleNeverEnds(folders, p, i, j, |folders|);
    }
  }

  /** Such a list, with unique ids: the inbox lies in a custom folder that lies in the inbox. */
  lemma InboxInsideItself(inbox: string, custom: string)
    requires inbox != custom
    ensures var folders := [MailSet(inbox, Inbox, "", Some(custom)), MailSet(custom, Custom, "", Some(inbox))];
            folders[0].id != folders[1].id && !Finite(folders)
  {
    var a, b := MailSet(inbox, Inbox, "", Some(custom)), MailSet(custom, Custom, "", Some(inbox));
    var p := [a, b, a];
    assert IsPath([a, b], p) && p[0] == p[2];
    FiniteIff([a, b]);
  }

  /** With unique ids and parentless system folders there is no cycle to follow. */
  lemma TidyIsFinite(folders: seq<MailSet>)
    requires Tidy(folders)
    ensures Finite(folders)
  {
    forall p | IsPath(folders, p) ensures !Repeats(p) {
      forall i, j | 0 <= i < j < |p| ensures p[i] != p[j] {
        NoRepeat(folders, p, i, j);
      }
    }
    FiniteIff(folders);
  }

  lemma OnlyRootsAreParentless(folders: seq<MailSet>, p: seq<MailSet>)
    requires Tidy(folders) && IsPath(folders, p)
    ensures Last(p).parent.None? <==> |p| == 1
  {
    assert p[0] in p;
    if |p| > 1 {
      assert p[|p| - 1].parent == Some(p[|p| - 2].id);
    }
  }

  /** A folder has at most one chain. */
  lemma {:induction false} OneChain(folders: seq<MailSet>, p: seq<MailSet>, q: seq<MailSet>)
    requires Tidy(folders) && IsPath(folders, p) && IsPath(folders, q) && Last(p) == Last(q)
    ensures p == q
  {
    OnlyRootsAreParentless(folders, p);
    OnlyRootsAreParentless(folders, q);
    if |p| > 1 {
      var p', q' := p[..|p| - 1], q[..|q| - 1];
      SameId(folders, Last(p'), Last(q'));
      OneChain(folders, p', q');
      assert p == p' + [Last(p)] && q == q' + [Last(q)];
    }
  }

  ghost predicate Loadable(folders: seq<MailSet>) {
    Tidy(folders) && Finite(folders)
  }

  // ----- the tree -----

  datatype Tree = Tree(folder: MailSet, children: seq<Tree>)

  datatype FolderSystem = FolderSystem(system: seq<Tree>, custom: seq<Tree>, imported: Option<MailSet>)

  function ChildrenOf(folders: seq<MailSet>, id: string): (r: seq<MailSet>)
    ensures forall f :: f in r <==> f in folders && f.parent == Some(id)
  {
    if folders == [] then []
    else (if folders[0].parent == Some(id) then [folders[0]] else []) + ChildrenOf(folders[1..], id)
  }

  function Kids(folders: seq<MailSet>, f: MailSet): (r: seq<MailSet>)
    ensures forall k :: k in r <==> k in folders && k.parent == Some(f.id)
  {
    var r := Sort(ByName, ChildrenOf(folders, f.id));
    assert forall k :: k in r <==> k in multiset(r);
    assert forall k :: k in ChildrenOf(folders, f.id) <==> k in multiset(ChildrenOf(folders, f.id));
    r
  }

  lemma Extend(folders: seq<MailSet>, p: seq<MailSet>, k: MailSet)
    requires Finite(folders) && IsPath(folders, p) && k in folders && k.parent == Some(Last(p).id)
    ensures IsPath(folders, p + [k]) && |p| < |folders|
  {
    var q := p + [k];
    forall i | 0 < i < |q| ensures q[i].parent == Some(q[i - 1].id) {
      assert q[i - 1] == p[i - 1];
    }
  }

  /** The tree below the folder at the end of a chain. */
  function Subtree(folders: seq<MailSet>, p: seq<MailSet>): Tree
    requires Finite(folders) && IsPath(folders, p)
    decreases |folders| - |p|, 1, 0
  {
    Tree(Last(p), Subtrees(folders, p, Kids(folders, Last(p))))
  }

  function Subtrees(folders: seq<MailSet>, p: seq<MailSet>, kids: seq<MailSet>): (r: seq<Tree>)
    requires Finite(folders) && IsPath(folders, p)
    requires forall k :: k in kids ==> k in folders && k.parent == Some(Last(p).id)
    ensures |r| == |kids|
    decreases |folders| - |p|, 0, |kids|
  {
    if kids == [] then []
    else
      Extend(folders, p, kids[0]);
      [Subtree(folders, p + [kids[0]])] + Subtrees(folders, p, kids[1..])
  }

  predicate AreRoots(folders: seq<MailSet>, roots: seq<MailSet>) {
    forall f :: f in roots ==> f in folders && IsRoot(f)
  }

  function RootTrees(folders: seq<MailSet>, roots: seq<MailSet>): (r: seq<Tree>)
    requires Finite(folders) && AreRoots(folders, roots)
    ensures |r| == |roots|
  {
    if roots == [] then [] else [Subtree(folders, [roots[0]])] + RootTrees(folders, roots[1..])
  }

  datatype Roots = Roots(system: seq<MailSet>, custom: seq<MailSet>, imported: Option<MailSet>)

  predicate IsFirstImported(folders: seq<MailSet>, f: MailSet) {
    exists i :: 0 <= i < |folders| && folders[i] == f && f.kind == Imported
                && forall j :: 0 <= j < i ==> folders[j].kind != Imported
  }

  lemma FirstImportedStays(folders: seq<MailSet>, f: MailSet, g: MailSet)
    ensures IsFirstImported(folders, f) ==> IsFirstImported(folders + [g], f)
    ensures g.kind == Imported && (forall x :: x in folders ==> x.kind != Imported) ==> IsFirstImported(folders + [g], g)
  {
    var more := folders + [g];
    if i :| 0 <= i < |folders| && folders[i] == f && f.kind == Imported
            && forall j :: 0 <= j < i ==> folders[j].kind != Imported {
      assert more[i] == f && forall j :: 0 <= j < i ==> more[j] == folders[j];
    }
    assert more[|folders|] == g && forall j :: 0 <= j < |folders| ==> more[j] == folders[j];
  }

  /** The roots in the order they were loaded, and the first set of imported mails. */
  function RootsOf(folders: seq<MailSet>): (r: Roots)
    ensures forall f :: f in r.system <==> f in folders && IsVisibleSystem(f)
    ensures forall f :: f in r.custom <==> f in folders && IsTopLevelCustom(f)
    ensures if exists f :: f in folders && f.kind == Imported
            then r.imported.Some? && IsFirstImported(folders, r.imported.value)
            else r.imported.None?
  {
    if folders == [] then Roots([], [], None)
    else
      var n := |folders| - 1;
      var before, f := RootsOf(folders[..n]), folders[n];
      assert folders == folders[..n] + [f];
      FirstImportedStays(folders[..n], if before.imported.Some? then before.imported.value else f, f);
      if IsVisibleSystem(f) then before.(system := before.system + [f])
      else if IsTopLevelCustom(f) then before.(custom := before.custom + [f])
      else if f.kind == Imported && before.imported.None? then before.(imported := Some(f))
      else before
  }

  lemma SortMembers(o: Order, s: seq<MailSet>)
    ensures forall f :: f in Sort(o, s) <==> f in s
  {
    assert forall f :: f in Sort(o, s) <==> f in multiset(Sort(o, s));
    assert forall f :: f in s <==> f in multiset(s);
  }

  function SystemRoots(folders: seq<MailSet>): (r: seq<MailSet>)
    ensures forall f :: f in r <==> f in folders && IsVisibleSystem(f)
  {
    SortMembers(BySystemOrder, RootsOf(folders).system);
    Sort(BySystemOrder, RootsOf(folders).system)
  }

  function CustomRoots(folders: seq<MailSet>): (r: seq<MailSet>)
    ensures forall f :: f in r <==> f in folders && IsTopLevelCustom(f)
  {
    SortMembers(ByName, RootsOf(folders).custom);
    Sort(ByName, RootsOf(folders).custom)
  }

  /** What the constructor builds. */
  function Built(folders: seq<MailSet>): FolderSystem
    requires Finite(folders)
  {
    FolderSystem(RootTrees(folders, SystemRoots(folders)), RootTrees(folders, CustomRoots(folders)),
                 RootsOf(folders).imported)
  }

  // ----- building it -----

  /** The map holds the children of each id, in load order; an id without children may be missing. */
  ghost predicate Groups(children: map<string, seq<MailSet>>, folders: seq<MailSet>) {
    forall id :: (if id in children then children[id] else []) == ChildrenOf(folders, id)
  }

  lemma {:induction false} ChildrenOfSnoc(folders: seq<MailSet>, f: MailSet, id: string)
    ensures ChildrenOf(folders + [f], id) == ChildrenOf(folders, id) + (if f.parent == Some(id) then [f] else [])
  {
    if folders == [] {
      assert [] + [f] == [f] && [f][1..] == [];
    } else {
      assert (folders + [f])[1..] == folders[1..] + [f];
      ChildrenOfSnoc(folders[1..], f, id);
    }
  }

  lemma GroupOne(children: map<string, seq<MailSet>>, folders: seq<MailSet>, f: MailSet)
    requires Groups(children, folders)
    ensures f.parent.None? ==> Groups(children, folders + [f])
    ensures f.parent.Some? ==>
              var siblings := if f.parent.value in children then children[f.parent.value] else [];
              Groups(children[f.parent.value := siblings + [f]], folders + [f])
  {
    forall id ensures ChildrenOf(folders + [f], id) ==
                      ChildrenOf(folders, id) + (if f.parent == Some(id) then [f] else []) {
      ChildrenOfSnoc(folders, f, id);
    }
  }

  method GroupByParent(folders: seq<MailSet>) returns (children: map<string, seq<MailSet>>)
    ensures Groups(children, folders)
  {
    children := map[];
    for i := 0 to |folders|
      invariant Groups(children, folders[..i])
    {
      var f := folders[i];
      GroupOne(children, folders[..i], f);
      assert folders[..i + 1] == folders[..i] + [f];
      if f.parent.Some? {
        var id := f.parent.value;
        var siblings := if id in children then children[id] else [];
        children := children[id := siblings + [f]];
      }
    }
    assert folders[..|folders|] == folders;
  }

  lemma SubtreesStep(folders: seq<MailSet>, p: seq<MailSet>, kids: seq<MailSet>, i: nat, trees: seq<Tree>)
    requires Finite(folders) && IsPath(folders, p) && i < |kids|
    requires forall k :: k in kids ==> k in folders && k.parent == Some(Last(p).id)
    ensures IsPath(folders, p + [kids[i]]) && |p| < |folders|
    ensures trees + Subtrees(folders, p, kids[i..]) ==
            trees + [Subtree(folders, p + [kids[i]])] + Subtrees(folders, p, kids[i + 1..])
  {
    assert kids[i] in kids && kids[i..][1..] == kids[i + 1..];
    Extend(folders, p, kids[i]);
  }

  lemma RootTreesStep(folders: seq<MailSet>, roots: seq<MailSet>, i: nat, trees: seq<Tree>)
    requires Finite(folders) && AreRoots(folders, roots) && i < |roots|
    ensures IsPath(folders, [roots[i]])
    ensures trees + RootTrees(folders, roots[i..]) ==
            trees + [Subtree(folders, [roots[i]])] + RootTrees(folders, roots[i + 1..])
  {
    assert roots[i] in roots && roots[i..][1..] == roots[i + 1..];
  }

  method MakeSubtree(children: map<string, seq<MailSet>>, parent: MailSet, ghost folders: seq<MailSet>,
                     ghost p: seq<MailSet>)
    returns (t: Tree)
    requires Finite(folders) && Groups(children, folders) && IsPath(folders, p) && Last(p) == parent
    ensures t == Subtree(folders, p)
    decreases |folders| - |p|
  {
    var unsorted := if parent.id in children then children[parent.id] else [];
    var kids := Sort(ByName, unsorted);
    assert kids == Kids(folders, parent);
    var trees := [];
    for i := 0 to |kids|
      invariant trees + Subtrees(folders, p, kids[i..]) == Subtrees(folders, p, kids)
    {
      SubtreesStep(folders, p, kids, i, trees);
      var child := MakeSubtree(children, kids[i], folders, p + [kids[i]]);
      trees := trees + [child];
    }
    assert kids[|kids|..] == [];
    t := Tree(parent, trees);
  }

  method MakeRootTrees(children: map<string, seq<MailSet>>, roots: seq<MailSet>, ghost folders: seq<MailSet>)
    returns (trees: seq<Tree>)
    requires Finite(folders) && Groups(children, folders) && AreRoots(folders, roots)
    ensures trees == RootTrees(folders, roots)
  {
    trees := [];
    for i := 0 to |roots|
      invariant trees + RootTrees(folders, roots[i..]) == RootTrees(folders, roots)
    {
      RootTreesStep(folders, roots, i, trees);
      var t := MakeSubtree(children, roots[i], folders, [roots[i]]);
      trees := trees + [t];
    }
    assert roots[|roots|..] == [];
  }

  method CollectRoots(folders: seq<MailSet>) returns (system: seq<MailSet>, custom: seq<MailSet>, imported: Option<MailSet>)
    ensures Roots(system, custom, imported) == RootsOf(folders)
  {
    system, custom, imported := [], [], None;
    for i := 0 to |folders|
      invariant RootsOf(folders[..i]) == Roots(system, custom, imported)
    {
      var f := folders[i];
      assert folders[..i + 1][..i] == folders[..i];
      if IsVisibleSystem(f) {
        system := system + [f];
      } else if f.kind == Custom && f.parent.None? {
        custom := custom + [f];
      } else if f.kind == Imported && imported.None? {
        imported := Some(f);
      }
    }
    assert folders[..|folders|] == folders;
  }

  method New(folders: seq<MailSet>) returns (fs: FolderSystem)
    requires Finite(folders)
    ensures fs == Built(folders)
  {
    var children := GroupByParent(folders);
    var system, custom, imported := CollectRoots(folders);
    assert Sort(BySystemOrder, system) == SystemRoots(folders) && Sort(ByName, custom) == CustomRoots(folders);
    var systemTrees := MakeRootTrees(children, Sort(BySystemOrder, system), folders);
    var customTrees := MakeRootTrees(children, Sort(ByName, custom), folders);
    fs := FolderSystem(systemTrees, customTrees, imported);
  }
}
