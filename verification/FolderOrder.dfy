/** The order in which folders are listed. */
module FolderOrder {
  import opened Wrappers
  import opened FolderForest
  import opened FolderLists

  // ----- the order, said without sorting -----

  /** The folder was loaded before the other. */
  ghost predicate Earlier(folders: seq<MailSet>, a: MailSet, b: MailSet) {
    exists i, j :: 0 <= i < j < |folders| && folders[i] == a && folders[j] == b
  }

  predicate DiffersAt(a: string, b: string, k: int) {
    0 <= k < |a| && k < |b| && a[..k] == b[..k] && a[k] < b[k]
  }

  /** A proper prefix, or smaller at the first difference. */
  ghost predicate NameBefore(a: string, b: string) {
    (a <= b && a != b) || exists k :: DiffersAt(a, b, k)
  }

  /** By name, and as loaded when the names are the same. */
  ghost predicate KidBefore(folders: seq<MailSet>, a: MailSet, b: MailSet) {
    NameBefore(a.name, b.name) || (a.name == b.name && Earlier(folders, a, b))
  }

  /** How the visible system folders are shown. */
  const DISPLAY_ORDER: seq<Kind> := [Inbox, Draft, Scheduled, Sent, Trash, Archive, Spam]

  ghost predicate RankBefore(a: Kind, b: Kind) {
    exists i, j :: 0 <= i < j < |DISPLAY_ORDER| && DISPLAY_ORDER[i] == a && DISPLAY_ORDER[j] == b
  }

  /** System folders first, in display order; then the others, by name; as loaded when that does not decide. */
  ghost predicate RootBefore(folders: seq<MailSet>, a: MailSet, b: MailSet) {
    if a.kind in DISPLAY_ORDER then
      b.kind !in DISPLAY_ORDER || RankBefore(a.kind, b.kind) || (a.kind == b.kind && Earlier(folders, a, b))
    else
      b.kind !in DISPLAY_ORDER && KidBefore(folders, a, b)
  }

  /** A chain comes before its continuations, and before chains that part from it at a later sibling. */
  ghost predicate ChainBefore(folders: seq<MailSet>, p: seq<MailSet>, q: seq<MailSet>) {
    (p <= q && p != q) || exists k :: PartsAt(folders, p, q, k)
  }

  ghost predicate PartsAt(folders: seq<MailSet>, p: seq<MailSet>, q: seq<MailSet>, k: int) {
    && 0 <= k < |p| && k < |q| && p[..k] == q[..k]
    && if k == 0 then RootBefore(folders, p[0], q[0]) else KidBefore(folders, p[k], q[k])
  }

  // ----- names and kinds -----

  lemma SamePrefix(a: string, b: string, k: int)
    ensures 0 < k <= |a| && k <= |b| && a[..k] == b[..k] ==> a[0] == b[0]
  {
    assert 0 < k <= |a| ==> a[0] == a[..k][0];
    assert 0 < k <= |b| ==> b[0] == b[..k][0];
  }

  lemma {:induction false} NameLeIff(a: string, b: string)
    ensures NameLe(a, b) <==> a == b || NameBefore(a, b)
  {
    if a != "" && b != "" {
      var a', b' := a[1..], b[1..];
      assert a == [a[0]] + a' && b == [b[0]] + b';
      if a[0] == b[0] {
        NameLeIff(a', b');
        if k :| DiffersAt(a', b', k) {
          assert a[..k + 1] == [a[0]] + a'[..k] && b[..k + 1] == [b[0]] + b'[..k];
          assert DiffersAt(a, b, k + 1);
        }
        if k :| DiffersAt(a, b, k) {
          assert k > 0 && a'[..k - 1] == a[..k][1..] && b'[..k - 1] == b[..k][1..];
          assert DiffersAt(a', b', k - 1);
        }
      } else {
        assert a[..0] == b[..0];
        assert a[0] < b[0] ==> DiffersAt(a, b, 0);
        if k :| DiffersAt(a, b, k) {
          SamePrefix(a, b, k);
        }
      }
    }
  }

  lemma NameDecides(a: MailSet, b: MailSet)
    requires Le(ByName, a, b)
    ensures NameBefore(a.name, b.name) || (a.name == b.name && Le(ByName, b, a))
  {
    NameLeIff(a.name, b.name);
    NameLeIff(b.name, a.name);
  }

  lemma RankDecides(a: MailSet, b: MailSet)
    requires Le(BySystemOrder, a, b) && IsVisibleSystem(a) && IsVisibleSystem(b)
    ensures a.kind in DISPLAY_ORDER && b.kind in DISPLAY_ORDER
    ensures RankBefore(a.kind, b.kind) || (a.kind == b.kind && Le(BySystemOrder, b, a))
  {
    var i, j := SystemOrder(a.kind), SystemOrder(b.kind);
    assert DISPLAY_ORDER[i] == a.kind && DISPLAY_ORDER[j] == b.kind;
  }

  lemma ShownKinds(f: MailSet)
    ensures IsVisibleSystem(f) <==> f.kind in DISPLAY_ORDER
  {
  }

  // ----- stable sorting -----

  ghost predicate AsLoaded(folders: seq<MailSet>, s: seq<MailSet>) {
    forall i, j :: 0 <= i < j < |s| ==> Earlier(folders, s[i], s[j])
  }

  ghost predicate Ranks(o: Order, folders: seq<MailSet>, a: MailSet, b: MailSet) {
    Le(o, a, b) && (Le(o, b, a) ==> Earlier(folders, a, b))
  }

  ghost predicate StablySorted(o: Order, folders: seq<MailSet>, s: seq<MailSet>) {
    forall i, j :: 0 <= i < j < |s| ==> Ranks(o, folders, s[i], s[j])
  }

  lemma PrependStably(o: Order, folders: seq<MailSet>, x: MailSet, s: seq<MailSet>)
    requires StablySorted(o, folders, s) && forall y :: y in s ==> Ranks(o, folders, x, y)
    ensures StablySorted(o, folders, [x] + s)
  {
    var r := [x] + s;
    forall i, j | 0 <= i < j < |r| ensures Ranks(o, folders, r[i], r[j]) {
      assert r[j] == s[j - 1] && s[j - 1] in s;
      assert i > 0 ==> r[i] == s[i - 1];
    }
  }

  lemma {:induction false} InsertStably(o: Order, folders: seq<MailSet>, f: MailSet, s: seq<MailSet>)
    requires StablySorted(o, folders, s) && forall x :: x in s ==> Earlier(folders, f, x)
    ensures StablySorted(o, folders, Insert(o, f, s))
  {
    if s != [] {
      LeTotal(o, f, s[0]);
      if Le(o, f, s[0]) {
        forall y | y in s ensures Ranks(o, folders, f, y) {
          var j :| 0 <= j < |s| && s[j] == y;
          if j > 0 {
            assert Ranks(o, folders, s[0], s[j]);
            LeTransitive(o, f, s[0], y);
          }
        }
        PrependStably(o, folders, f, s);
      } else {
        InsertStably(o, folders, f, s[1..]);
        forall y | y in Insert(o, f, s[1..]) ensures Ranks(o, folders, s[0], y) {
          InsertedOrOld(o, f, s[1..], y);
          if y != f {
            var j :| 0 <= j < |s[1..]| && s[1..][j] == y;
            assert Ranks(o, folders, s[0], s[j + 1]);
          }
        }
        PrependStably(o, folders, s[0], Insert(o, f, s[1..]));
      }
    }
  }

  lemma InsertedOrOld(o: Order, f: MailSet, s: seq<MailSet>, y: MailSet)
    requires y in Insert(o, f, s)
    ensures y == f || y in s
  {
    assert y in multiset(Insert(o, f, s));
  }

  lemma {:induction false} SortStably(o: Order, folders: seq<MailSet>, s: seq<MailSet>)
    requires AsLoaded(folders, s)
    ensures StablySorted(o, folders, Sort(o, s))
  {
    if s != [] {
      SortStably(o, folders, s[1..]);
      SortMembers(o, s[1..]);
      InsertStably(o, folders, s[0], Sort(o, s[1..]));
    }
  }

  lemma LaterOn(folders: seq<MailSet>, a: MailSet, b: MailSet)
    requires folders != []
    ensures Earlier(folders[1..], a, b) ==> Earlier(folders, a, b)
    ensures a == folders[0] && b in folders[1..] ==> Earlier(folders, a, b)
  {
    if Earlier(folders[1..], a, b) {
      var i, j :| 0 <= i < j < |folders[1..]| && folders[1..][i] == a && folders[1..][j] == b;
      assert folders[i + 1] == a && folders[j + 1] == b;
    }
    if a == folders[0] && b in folders[1..] {
      var j :| 0 <= j < |folders[1..]| && folders[1..][j] == b;
      assert folders[j + 1] == b;
    }
  }

  lemma PrependAsLoaded(folders: seq<MailSet>, s: seq<MailSet>)
    requires folders != [] && AsLoaded(folders[1..], s) && forall f :: f in s ==> f in folders[1..]
    ensures AsLoaded(folders, s) && AsLoaded(folders, [folders[0]] + s)
  {
    forall i, j | 0 <= i < j < |s| ensures Earlier(folders, s[i], s[j]) {
      LaterOn(folders, s[i], s[j]);
    }
    var r := [folders[0]] + s;
    forall i, j | 0 <= i < j < |r| ensures Earlier(folders, r[i], r[j]) {
      assert r[j] == s[j - 1] && s[j - 1] in s;
      if i == 0 {
        LaterOn(folders, r[0], r[j]);
      } else {
        assert r[i] == s[i - 1];
      }
    }
  }

  lemma {:induction false} ChildrenAsLoaded(folders: seq<MailSet>, id: string)
    ensures AsLoaded(folders, ChildrenOf(folders, id))
  {
    if folders != [] {
      ChildrenAsLoaded(folders[1..], id);
      PrependAsLoaded(folders, ChildrenOf(folders[1..], id));
      assert [] + ChildrenOf(folders[1..], id) == ChildrenOf(folders[1..], id);
    }
  }

  lemma SoFar(folders: seq<MailSet>, n: nat, a: MailSet, b: MailSet)
    requires n < |folders|
    ensures Earlier(folders[..n], a, b) ==> Earlier(folders[..n + 1], a, b)
    ensures a in folders[..n] && b == folders[n] ==> Earlier(folders[..n + 1], a, b)
  {
    if Earlier(folders[..n], a, b) {
      var i, j :| 0 <= i < j < n && folders[..n][i] == a && folders[..n][j] == b;
      assert folders[..n + 1][i] == a && folders[..n + 1][j] == b;
    }
    if a in folders[..n] && b == folders[n] {
      var i :| 0 <= i < n && folders[..n][i] == a;
      assert folders[..n + 1][i] == a && folders[..n + 1][n] == b;
    }
  }

  lemma GrownAsLoaded(folders: seq<MailSet>, n: nat, s: seq<MailSet>)
    requires n < |folders| && AsLoaded(folders[..n], s) && forall f :: f in s ==> f in folders[..n]
    ensures AsLoaded(folders[..n + 1], s) && AsLoaded(folders[..n + 1], s + [folders[n]])
  {
    var more := s + [folders[n]];
    forall i, j | 0 <= i < j < |more| ensures Earlier(folders[..n + 1], more[i], more[j]) {
      SoFar(folders, n, more[i], more[j]);
      assert more[i] == s[i] && s[i] in s;
    }
    forall i, j | 0 <= i < j < |s| ensures Earlier(folders[..n + 1], s[i], s[j]) {
      SoFar(folders, n, s[i], s[j]);
    }
  }

  lemma {:induction false} RootsAsLoaded(folders: seq<MailSet>)
    ensures AsLoaded(folders, RootsOf(folders).system) && AsLoaded(folders, RootsOf(folders).custom)
  {
    if folders != [] {
      var n := |folders| - 1;
      RootsAsLoaded(folders[..n]);
      GrownAsLoaded(folders, n, RootsOf(folders[..n]).system);
      GrownAsLoaded(folders, n, RootsOf(folders[..n]).custom);
      assert folders[..n + 1] == folders;
    }
  }

  // ----- siblings -----

  ghost predicate KidsInOrder(folders: seq<MailSet>, s: seq<MailSet>) {
    forall i, j :: 0 <= i < j < |s| ==> KidBefore(folders, s[i], s[j])
  }

  ghost predicate RootsInOrder(folders: seq<MailSet>, s: seq<MailSet>) {
    forall i, j :: 0 <= i < j < |s| ==> RootBefore(folders, s[i], s[j])
  }

  lemma SortedByName(folders: seq<MailSet>, s: seq<MailSet>)
    requires AsLoaded(folders, s)
    ensures KidsInOrder(folders, Sort(ByName, s))
  {
    SortStably(ByName, folders, s);
    var r := Sort(ByName, s);
    forall i, j | 0 <= i < j < |r| ensures KidBefore(folders, r[i], r[j]) {
      assert Ranks(ByName, folders, r[i], r[j]);
      NameDecides(r[i], r[j]);
    }
  }

  lemma KidsOrdered(folders: seq<MailSet>, f: MailSet)
    ensures KidsInOrder(folders, Kids(folders, f))
  {
    ChildrenAsLoaded(folders, f.id);
    SortedByName(folders, ChildrenOf(folders, f.id));
  }

  lemma SystemRootsOrdered(folders: seq<MailSet>)
    ensures RootsInOrder(folders, SystemRoots(folders))
  {
    RootsAsLoaded(folders);
    SortStably(BySystemOrder, folders, RootsOf(folders).system);
    var s := SystemRoots(folders);
    forall i, j | 0 <= i < j < |s| ensures RootBefore(folders, s[i], s[j]) {
      assert s[i] in s && s[j] in s;
      assert Ranks(BySystemOrder, folders, s[i], s[j]);
      RankDecides(s[i], s[j]);
    }
  }

  lemma CustomInOrder(folders: seq<MailSet>, s: seq<MailSet>)
    requires KidsInOrder(folders, s) && forall f :: f in s ==> f.kind == Custom
    ensures RootsInOrder(folders, s)
  {
    forall i, j | 0 <= i < j < |s| ensures RootBefore(folders, s[i], s[j]) {
      assert s[i] in s && s[j] in s;
    }
  }

  lemma CustomRootsOrdered(folders: seq<MailSet>)
    ensures RootsInOrder(folders, CustomRoots(folders))
  {
    RootsAsLoaded(folders);
    SortedByName(folders, RootsOf(folders).custom);
    CustomInOrder(folders, CustomRoots(folders));
  }

  // ----- chains -----

  ghost predicate ChainsInOrder(folders: seq<MailSet>, ps: seq<seq<MailSet>>) {
    forall i, j :: 0 <= i < j < |ps| ==> ChainBefore(folders, ps[i], ps[j])
  }

  lemma ConcatInOrder(folders: seq<MailSet>, a: seq<seq<MailSet>>, b: seq<seq<MailSet>>)
    requires ChainsInOrder(folders, a) && ChainsInOrder(folders, b)
    requires forall p, q :: p in a && q in b ==> ChainBefore(folders, p, q)
    ensures ChainsInOrder(folders, a + b)
  {
    var s := a + b;
    forall i, j | 0 <= i < j < |s| ensures ChainBefore(folders, s[i], s[j]) {
      if i < |a| <= j {
        assert s[i] == a[i] && s[j] == b[j - |a|] && a[i] in a && b[j - |a|] in b;
      }
    }
  }

  lemma {:induction false} ChainsOrdered(folders: seq<MailSet>, p: seq<MailSet>)
    requires Finite(folders) && IsPath(folders, p)
    ensures ChainsInOrder(folders, Chains(folders, p))
    decreases |folders| - |p|, 1, 0
  {
    var kids := Kids(folders, Last(p));
    KidsOrdered(folders, Last(p));
    ViaOrdered(folders, p, kids);
    ConcatInOrder(folders, [p], ChainsVia(folders, p, kids));
  }

  lemma {:induction false} ViaOrdered(folders: seq<MailSet>, p: seq<MailSet>, kids: seq<MailSet>)
    requires Finite(folders) && IsPath(folders, p) && AreKids(folders, p, kids) && KidsInOrder(folders, kids)
    ensures ChainsInOrder(folders, ChainsVia(folders, p, kids))
    decreases |folders| - |p|, 0, |kids|
  {
    if kids != [] {
      Extend(folders, p, kids[0]);
      ChainsOrdered(folders, p + [kids[0]]);
      ViaOrdered(folders, p, kids[1..]);
      var first, more := Chains(folders, p + [kids[0]]), ChainsVia(folders, p, kids[1..]);
      forall q, r | q in first && r in more ensures ChainBefore(folders, q, r) {
        PartAtKid(folders, p, kids, q, r);
      }
      ConcatInOrder(folders, first, more);
    }
  }

  lemma PartAtKid(folders: seq<MailSet>, p: seq<MailSet>, kids: seq<MailSet>, q: seq<MailSet>, r: seq<MailSet>)
    requires p != [] && kids != [] && KidsInOrder(folders, kids)
    requires p + [kids[0]] <= q && p < r && r[|p|] in kids[1..]
    ensures ChainBefore(folders, q, r)
  {
    var n := |p|;
    assert q[n] == (p + [kids[0]])[n] == kids[0];
    var i :| 0 <= i < |kids[1..]| && kids[1..][i] == r[n];
    assert kids[i + 1] == r[n];
    assert q[..n] == p == r[..n];
    assert PartsAt(folders, q, r, n);
  }

  lemma {:induction false} RootChainsOrdered(folders: seq<MailSet>, roots: seq<MailSet>)
    requires Finite(folders) && AreRoots(folders, roots) && RootsInOrder(folders, roots)
    ensures ChainsInOrder(folders, RootChains(folders, roots))
  {
    if roots != [] {
      var first, more := Chains(folders, [roots[0]]), RootChains(folders, roots[1..]);
      ChainsOrdered(folders, [roots[0]]);
      RootChainsOrdered(folders, roots[1..]);
      forall q, r | q in first && r in more ensures ChainBefore(folders, q, r) {
        PartAtRoot(folders, roots, q, r);
      }
      ConcatInOrder(folders, first, more);
    }
  }

  lemma PartAtRoot(folders: seq<MailSet>, roots: seq<MailSet>, q: seq<MailSet>, r: seq<MailSet>)
    requires roots != [] && RootsInOrder(folders, roots) && [roots[0]] <= q && r != [] && r[0] in roots[1..]
    ensures ChainBefore(folders, q, r)
  {
    assert q[0] == [roots[0]][0];
    var i :| 0 <= i < |roots[1..]| && roots[1..][i] == r[0];
    assert roots[i + 1] == r[0];
    assert q[..0] == r[..0];
    assert PartsAt(folders, q, r, 0);
  }

  lemma SystemFirst(folders: seq<MailSet>, q: seq<MailSet>, r: seq<MailSet>)
    requires q != [] && r != [] && IsVisibleSystem(q[0]) && IsTopLevelCustom(r[0])
    ensures ChainBefore(folders, q, r)
  {
    ShownKinds(q[0]);
    ShownKinds(r[0]);
    assert q[..0] == r[..0];
    assert PartsAt(folders, q, r, 0);
  }

  /**
   * The indented list is the list of all chains in this order: a folder before what lies in it, system folders as they
   * are displayed before the others, siblings by name, and folders that nothing else tells apart as they were loaded.
   */
  lemma ListingInOrder(folders: seq<MailSet>) returns (ps: seq<seq<MailSet>>)
    requires Finite(folders)
    ensures |ps| == |Listing(folders)|
    ensures forall i :: 0 <= i < |ps| ==> IsPath(folders, ps[i]) && Listing(folders)[i] == Entry(|ps[i]| - 1, Last(ps[i]))
    ensures ChainsInOrder(folders, ps)
  {
    ps := AllChains(folders);
    ListingIsChains(folders);
    forall i | 0 <= i < |ps| ensures IsPath(folders, ps[i]) {
      assert ps[i] in ps;
    }
    var system, custom := SystemRoots(folders), CustomRoots(folders);
    SystemRootsOrdered(folders);
    CustomRootsOrdered(folders);
    RootChainsOrdered(folders, system);
    RootChainsOrdered(folders, custom);
    forall q, r | q in RootChains(folders, system) && r in RootChains(folders, custom)
      ensures ChainBefore(folders, q, r)
    {
      SystemFirst(folders, q, r);
    }
    ConcatInOrder(folders, RootChains(folders, system), RootChains(folders, custom));
  }
}
