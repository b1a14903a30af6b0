/** internal/gcp/client.go: every project below an organization. A listing is its pages in order; the
    page token is empty on the last one only. */
module Gcp {
  import opened Wrappers
  import opened Sorting

  datatype Project = Project(id: string, state: string)

  datatype Page<T> = ListFailed | Listed(items: seq<T>)

  /** What the API answers about one parent, folder by folder below it. */
  datatype Node = Node(projectPages: seq<Page<Project>>, folderPages: seq<Page<Folder>>)

  datatype Folder = Folder(name: string, state: string, below: Node)

  predicate ActiveProject(p: Project) { p.id != "" && (p.state == "" || p.state == "ACTIVE") }

  predicate ActiveFolder(f: Folder) { f.name != "" && (f.state == "" || f.state == "ACTIVE") }

  // ---- the hierarchy without its pages ----

  datatype Tree = Tree(projects: seq<Project>, folders: seq<Branch>)

  datatype Branch = Branch(active: bool, below: Tree)

  function Items<T>(pages: seq<Page<T>>): seq<T> {
    if pages == [] then []
    else
      var n := |pages| - 1;
      Items(pages[..n]) + if pages[n].Listed? then pages[n].items else []
  }

  function Unpaged(n: Node): Tree
    decreases n, 1, 0
  {
    Tree(Items(n.projectPages), UnpagedFolders(n, n.folderPages))
  }

  function UnpagedFolders(ghost n: Node, pages: seq<Page<Folder>>): seq<Branch>
    requires |pages| <= |n.folderPages| && pages == n.folderPages[..|pages|]
    decreases n, 0, |pages|
  {
    if pages == [] then []
    else
      var k := |pages| - 1;
      UnpagedFolders(n, pages[..k]) + if pages[k].Listed? then Branches(pages[k].items) else []
  }

  function Branches(fs: seq<Folder>): seq<Branch>
    decreases fs, 0, 0
  {
    seq(|fs|, i requires 0 <= i < |fs| => BranchOf(fs[i]))
  }

  /** Nobody asks what is below a folder that is not active. */
  function BranchOf(f: Folder): Branch
    decreases f, 0, 0
  {
    if ActiveFolder(f) then Branch(true, Unpaged(f.below)) else Branch(false, Tree([], []))
  }

  /** The active projects of one parent. */
  function ActiveIDs(ps: seq<Project>): seq<string> {
    if ps == [] then []
    else
      var n := |ps| - 1;
      if ActiveProject(ps[n]) then ActiveIDs(ps[..n]) + [ps[n].id] else ActiveIDs(ps[..n])
  }

  /** The IDs below a parent: its own projects, then folder by folder. */
  function Below(t: Tree): seq<string>
    decreases t, 1, 0
  {
    ActiveIDs(t.projects) + BelowFolders(t, |t.folders|)
  }

  function BelowFolders(t: Tree, k: nat): seq<string>
    requires k <= |t.folders|
    decreases t, 0, k
  {
    if k == 0 then []
    else
      var b := t.folders[k - 1];
      if b.active then BelowFolders(t, k - 1) + Below(b.below) else BelowFolders(t, k - 1)
  }

  /** Some listing the walk reaches fails. */
  predicate Fails(n: Node) {
    || (exists p | p in n.projectPages :: p.ListFailed?)
    || exists p | p in n.folderPages :: PageFails(p)
  }

  predicate PageFails(p: Page<Folder>) {
    p.ListFailed? || exists f | f in p.items :: FolderFails(f)
  }

  predicate FolderFails(f: Folder) { ActiveFolder(f) && Fails(f.below) }

  // ---- the code ----

  lemma ItemsSnoc<T>(pages: seq<Page<T>>, k: nat)
    requires k < |pages| && pages[k].Listed?
    ensures Items(pages[..k + 1]) == Items(pages[..k]) + pages[k].items
  {
    assert pages[..k + 1][..k] == pages[..k];
  }

  lemma {:induction false} ActiveIDsConcat(a: seq<Project>, b: seq<Project>)
    ensures ActiveIDs(a + b) == ActiveIDs(a) + ActiveIDs(b)
  {
    if b == [] {
      assert a + b == a;
    } else {
      assert (a + b)[..|a + b| - 1] == a + b[..|b| - 1];
      ActiveIDsConcat(a, b[..|b| - 1]);
    }
  }

  method AppendActive(projects: seq<string>, items: seq<Project>) returns (r: seq<string>)
    ensures r == projects + ActiveIDs(items)
  {
    r := projects;
    for i := 0 to |items|
      invariant r == projects + ActiveIDs(items[..i])
    {
      assert items[..i + 1][..i] == items[..i];
      if ActiveProject(items[i]) { r := r + [items[i].id]; }
    }
    assert items[..|items|] == items;
  }

  method ListProjects(pages: seq<Page<Project>>) returns (r: Option<seq<string>>)
    ensures r.None? <==> exists p :: p in pages && p.ListFailed?
    ensures r.Some? ==> r.value == ActiveIDs(Items(pages))
  {
    var projects: seq<string> := [];
    for k := 0 to |pages|
      invariant forall i | 0 <= i < k :: pages[i].Listed?
      invariant projects == ActiveIDs(Items(pages[..k]))
    {
      if pages[k].ListFailed? {
        assert pages[k] in pages;
        return None;
      }
      ItemsSnoc(pages, k);
      ActiveIDsConcat(Items(pages[..k]), pages[k].items);
      projects := AppendActive(projects, pages[k].items);
    }
    assert pages[..|pages|] == pages;
    return Some(projects);
  }

  /** The IDs below some branches. */
  function BelowBranches(bs: seq<Branch>): seq<string> {
    if bs == [] then []
    else
      var n := |bs| - 1;
      if bs[n].active then BelowBranches(bs[..n]) + Below(bs[n].below) else BelowBranches(bs[..n])
  }

  lemma {:induction false} BelowIsBranches(t: Tree, k: nat)
    requires k <= |t.folders|
    ensures BelowFolders(t, k) == BelowBranches(t.folders[..k])
  {
    if k > 0 {
      BelowIsBranches(t, k - 1);
      assert t.folders[..k][..k - 1] == t.folders[..k - 1];
    }
  }

  lemma {:induction false} BelowBranchesConcat(a: seq<Branch>, b: seq<Branch>)
    ensures BelowBranches(a + b) == BelowBranches(a) + BelowBranches(b)
  {
    if b == [] {
      assert a + b == a;
    } else {
      assert (a + b)[..|a + b| - 1] == a + b[..|b| - 1];
      BelowBranchesConcat(a, b[..|b| - 1]);
    }
  }

  /** What projectsBelow gives; None is the error. */
  function Walk(n: Node): Option<seq<string>> { if Fails(n) then None else Some(Below(Unpaged(n))) }

  method ProjectsBelow(parent: Node) returns (r: Option<seq<string>>)
    ensures r == Walk(parent)
    decreases parent, 2
  {
    var projects := ListProjects(parent.projectPages);
    if projects.None? { return None; }
    var nested := ListFolders(parent);
    if nested.None? { return None; }
    var t := Unpaged(parent);
    BelowIsBranches(t, |t.folders|);
    assert t.folders[..|t.folders|] == t.folders;
    r := Some(projects.value + nested.value);
  }

  /** The IDs below the folders of the first k pages. */
  ghost function BelowPages(parent: Node, k: nat): seq<string>
    requires k <= |parent.folderPages|
  {
    BelowBranches(UnpagedFolders(parent, parent.folderPages[..k]))
  }

  /** The second loop: the pages of folders. */
  method ListFolders(parent: Node) returns (r: Option<seq<string>>)
    ensures r.None? <==> exists p :: p in parent.folderPages && PageFails(p)
    ensures r.Some? ==> r.value == BelowBranches(UnpagedFolders(parent, parent.folderPages))
    decreases parent, 1
  {
    var pages := parent.folderPages;
    var projects: seq<string> := [];
    for k := 0 to |pages|
      invariant forall i | 0 <= i < k :: !PageFails(pages[i])
      invariant projects == BelowPages(parent, k)
    {
      assert pages[k] in pages;
      var nested := ListFolderPage(parent, pages[k]);
      if nested.None? { return None; }
      NextFolderPage(parent, k);
      projects := projects + nested.value;
    }
    assert pages[..|pages|] == pages;
    return Some(projects);
  }

  method ListFolderPage(ghost parent: Node, page: Page<Folder>) returns (r: Option<seq<string>>)
    requires page in parent.folderPages
    ensures r.None? <==> PageFails(page)
    ensures r.Some? ==> page.Listed? && r.value == BelowBranches(Branches(page.items))
    decreases parent, 0, 1
  {
    if page.ListFailed? { return None; }
    r := FoldersBelow(parent, page.items);
  }

  lemma NextFolderPage(parent: Node, k: nat)
    requires k < |parent.folderPages| && parent.folderPages[k].Listed?
    ensures BelowPages(parent, k + 1) == BelowPages(parent, k) + BelowBranches(Branches(parent.folderPages[k].items))
  {
    var pages := parent.folderPages;
    assert pages[..k + 1][..k] == pages[..k];
    BelowBranchesConcat(UnpagedFolders(parent, pages[..k]), Branches(pages[k].items));
  }

  /** The folders of one page. */
  method FoldersBelow(ghost parent: Node, items: seq<Folder>) returns (r: Option<seq<string>>)
    requires exists k | 0 <= k < |parent.folderPages| :: parent.folderPages[k] == Listed(items)
    ensures r.None? <==> exists f :: f in items && FolderFails(f)
    ensures r.Some? ==> r.value == BelowBranches(Branches(items))
    decreases parent, 0, 0
  {
    var found: seq<string> := [];
    for i := 0 to |items|
      invariant forall j | 0 <= j < i :: !FolderFails(items[j])
      invariant found == BelowBranches(Branches(items)[..i])
    {
      var folder := items[i];
      assert Branches(items)[..i + 1][..i] == Branches(items)[..i];
      if ActiveFolder(folder) {
        var nested := ProjectsBelow(folder.below);
        if nested.None? {
          assert FolderFails(items[i]) && items[i] in items;
          return None;
        }
        found := found + nested.value;
      }
    }
    assert Branches(items)[..|items|] == Branches(items);
    return Some(found);
  }

  // ---- pages ----

  lemma {:induction false} BranchesOfItems(n: Node, k: nat)
    requires k <= |n.folderPages|
    ensures UnpagedFolders(n, n.folderPages[..k]) == Branches(Items(n.folderPages[..k]))
  {
    if k > 0 {
      var pages := n.folderPages[..k];
      BranchesOfItems(n, k - 1);
      assert pages[..k - 1] == n.folderPages[..k - 1];
      var rest := Items(pages[..k - 1]);
      if pages[k - 1].Listed? {
        assert Branches(rest + pages[k - 1].items) == Branches(rest) + Branches(pages[k - 1].items);
      } else {
        assert rest + [] == rest;
      }
    }
  }

  lemma {:induction false} ItemsBelow(n: Node, k: nat)
    requires k <= |n.folderPages|
    ensures forall f | f in Items(n.folderPages[..k]) :: f < n
  {
    if k > 0 {
      var page := n.folderPages[k - 1];
      ItemsBelow(n, k - 1);
      assert n.folderPages[..k][..k - 1] == n.folderPages[..k - 1];
      assert page in n.folderPages;
    }
  }

  /** The same projects and folders are listed, at every depth, whatever the pages: equal projects,
      folders of equal names and states, and the same below every folder the walk enters. */
  ghost predicate SameListing(m: Node, n: Node)
    decreases m, 1
  {
    ItemsBelow(m, |m.folderPages|);
    assert m.folderPages[..|m.folderPages|] == m.folderPages;
    && Items(m.projectPages) == Items(n.projectPages)
    && SameFolders(m, Items(m.folderPages), Items(n.folderPages))
  }

  ghost predicate SameFolders(m: Node, fs: seq<Folder>, gs: seq<Folder>)
    requires forall f | f in fs :: f < m
    decreases m, 0
  {
    && |fs| == |gs|
    && (forall i | 0 <= i < |fs| :: fs[i].name == gs[i].name && fs[i].state == gs[i].state)
    && (forall i | 0 <= i < |fs| && ActiveFolder(fs[i]) :: assert fs[i] in fs; SameListing(fs[i].below, gs[i].below))
  }

  /** PAGES DO NOT MATTER: two answers that list the same, cut into pages in any way and with any empty
      pages, at any depth, lead to the same hierarchy; and when no listing fails the walk returns the
      same projects in the same order. */
  lemma {:induction false} PagingIndependent(m: Node, n: Node)
    requires SameListing(m, n)
    ensures Unpaged(m) == Unpaged(n)
    ensures !Fails(m) && !Fails(n) ==> Walk(m) == Walk(n)
    decreases m
  {
    var fs, gs := Items(m.folderPages), Items(n.folderPages);
    ItemsBelow(m, |m.folderPages|);
    BranchesOfItems(m, |m.folderPages|);
    BranchesOfItems(n, |n.folderPages|);
    assert m.folderPages[..|m.folderPages|] == m.folderPages && n.folderPages[..|n.folderPages|] == n.folderPages;
    forall i | 0 <= i < |fs| ensures BranchOf(fs[i]) == BranchOf(gs[i]) {
      assert fs[i] in fs;
      if ActiveFolder(fs[i]) { PagingIndependent(fs[i].below, gs[i].below); }
    }
    assert Branches(fs) == Branches(gs);
  }

  lemma {:induction false} ItemsConcat<T>(a: seq<Page<T>>, b: seq<Page<T>>)
    ensures Items(a + b) == Items(a) + Items(b)
  {
    if b == [] {
      assert a + b == a;
    } else {
      assert (a + b)[..|a + b| - 1] == a + b[..|b| - 1];
      ItemsConcat(a, b[..|b| - 1]);
    }
  }

  /** Cutting one page in two, either part possibly empty, lists the same items. */
  lemma SplitPage<T>(before: seq<Page<T>>, x: seq<T>, y: seq<T>, after: seq<Page<T>>)
    ensures Items(before + [Listed(x + y)] + after) == Items(before + [Listed(x), Listed(y)] + after)
  {
    var one: seq<Page<T>>, two: seq<Page<T>> := [Listed(x + y)], [Listed(x), Listed(y)];
    ItemsConcat(before, one);
    ItemsConcat(before, two);
    ItemsConcat(before + one, after);
    ItemsConcat(before + two, after);
    assert two[..1] == [Listed(x)];
    assert Items(two) == x + y && Items(one) == x + y;
  }

  // ---- each active project once ----

  /** A project's place: the folders to go through, by index, and the project's index in the last. */
  type Place = seq<nat>

  predicate IsActive(t: Tree, p: Place)
    decreases |p|
  {
    if |p| == 0 then false
    else if |p| == 1 then p[0] < |t.projects| && ActiveProject(t.projects[p[0]])
    else p[0] < |t.folders| && t.folders[p[0]].active && IsActive(t.folders[p[0]].below, p[1..])
  }

  function IDAt(t: Tree, p: Place): string
    requires IsActive(t, p)
    decreases |p|
  {
    if |p| == 1 then t.projects[p[0]].id else IDAt(t.folders[p[0]].below, p[1..])
  }

  function OwnPlaces(ps: seq<Project>): seq<Place> {
    if ps == [] then []
    else
      var n := |ps| - 1;
      if ActiveProject(ps[n]) then OwnPlaces(ps[..n]) + [[n]] else OwnPlaces(ps[..n])
  }

  function Under(k: nat, places: seq<Place>): seq<Place> {
    seq(|places|, i requires 0 <= i < |places| => [k] + places[i])
  }

  /** The places in the order of the result. */
  function Places(t: Tree): seq<Place>
    decreases t, 1, 0
  {
    OwnPlaces(t.projects) + FolderPlaces(t, |t.folders|)
  }

  function FolderPlaces(t: Tree, k: nat): seq<Place>
    requires k <= |t.folders|
    decreases t, 0, k
  {
    if k == 0 then []
    else
      var b := t.folders[k - 1];
      if b.active then FolderPlaces(t, k - 1) + Under(k - 1, Places(b.below)) else FolderPlaces(t, k - 1)
  }

  lemma {:induction false} OwnPlacesAre(ps: seq<Project>, p: Place)
    ensures p in OwnPlaces(ps) <==> |p| == 1 && p[0] < |ps| && ActiveProject(ps[p[0]])
  {
    if ps != [] {
      var n := |ps| - 1;
      OwnPlacesAre(ps[..n], p);
      assert p == [n] <==> |p| == 1 && p[0] == n;
    }
  }

  lemma {:induction false} OwnPlacesIDs(ps: seq<Project>)
    ensures |OwnPlaces(ps)| == |ActiveIDs(ps)|
    ensures forall i | 0 <= i < |OwnPlaces(ps)| ::
              |OwnPlaces(ps)[i]| == 1 && OwnPlaces(ps)[i][0] < |ps| && ActiveIDs(ps)[i] == ps[OwnPlaces(ps)[i][0]].id
  {
    if ps != [] { OwnPlacesIDs(ps[..|ps| - 1]); }
  }

  lemma {:induction false} OwnPlacesOnce(ps: seq<Project>)
    ensures NoDuplicates(OwnPlaces(ps))
  {
    if ps != [] {
      var n := |ps| - 1;
      OwnPlacesOnce(ps[..n]);
      OwnPlacesAre(ps[..n], [n]);
    }
  }

  lemma UnderMember(k: nat, places: seq<Place>, p: Place)
    ensures p in Under(k, places) <==> p != [] && p[0] == k && p[1..] in places
  {
    if p != [] && p[0] == k && p[1..] in places {
      var i :| 0 <= i < |places| && places[i] == p[1..];
      assert Under(k, places)[i] == p;
    }
  }

  /** COMPLETE AND SOUND: the places are exactly those of the active projects reached through active
      folders. */
  lemma {:induction false} PlacesAre(t: Tree, p: Place)
    ensures p in Places(t) <==> IsActive(t, p)
    decreases t, 1, 0
  {
    OwnPlacesAre(t.projects, p);
    FolderPlacesAre(t, |t.folders|, p);
  }

  lemma {:induction false} FolderPlacesAre(t: Tree, k: nat, p: Place)
    requires k <= |t.folders|
    ensures p in FolderPlaces(t, k) <==> |p| > 1 && p[0] < k && IsActive(t, p)
    decreases t, 0, k
  {
    if k > 0 {
      FolderPlacesAre(t, k - 1, p);
      var b := t.folders[k - 1];
      if b.active {
        UnderMember(k - 1, Places(b.below), p);
        if p != [] && p[0] == k - 1 { PlacesAre(b.below, p[1..]); }
      }
    }
  }

  lemma UnderOnce(k: nat, places: seq<Place>)
    requires NoDuplicates(places)
    ensures NoDuplicates(Under(k, places))
  {
    var r := Under(k, places);
    forall i, j | 0 <= i < j < |r| ensures r[i] != r[j] {
      assert r[i][1..] == places[i] && r[j][1..] == places[j];
    }
  }

  lemma AppendOnce(a: seq<Place>, b: seq<Place>)
    requires NoDuplicates(a) && NoDuplicates(b) && forall p | p in a :: p !in b
    ensures NoDuplicates(a + b)
  {
    var r := a + b;
    forall i, j | 0 <= i < j < |r| ensures r[i] != r[j] {
      if i < |a| <= j { assert r[i] in a && r[j] in b; }
    }
  }

  /** ONCE: no place is visited twice. */
  lemma {:induction false} PlacesOnce(t: Tree)
    ensures NoDuplicates(Places(t))
    decreases t, 1, 0
  {
    OwnPlacesOnce(t.projects);
    FolderPlacesOnce(t, |t.folders|);
    forall p | p in OwnPlaces(t.projects) ensures p !in FolderPlaces(t, |t.folders|) {
      OwnPlacesAre(t.projects, p);
      FolderPlacesAre(t, |t.folders|, p);
    }
    AppendOnce(OwnPlaces(t.projects), FolderPlaces(t, |t.folders|));
  }

  lemma {:induction false} FolderPlacesOnce(t: Tree, k: nat)
    requires k <= |t.folders|
    ensures NoDuplicates(FolderPlaces(t, k))
    decreases t, 0, k
  {
    if k > 0 {
      FolderPlacesOnce(t, k - 1);
      var b := t.folders[k - 1];
      if b.active {
        var places := Under(k - 1, Places(b.below));
        PlacesOnce(b.below);
        UnderOnce(k - 1, Places(b.below));
        forall p | p in FolderPlaces(t, k - 1) ensures p !in places {
          FolderPlacesAre(t, k - 1, p);
          UnderMember(k - 1, Places(b.below), p);
        }
        AppendOnce(FolderPlaces(t, k - 1), places);
      }
    }
  }

  ghost predicate ListsIDs(t: Tree, places: seq<Place>, ids: seq<string>) {
    |places| == |ids| && forall i | 0 <= i < |ids| :: IsActive(t, places[i]) && ids[i] == IDAt(t, places[i])
  }

  lemma ListsConcat(t: Tree, p: seq<Place>, a: seq<string>, q: seq<Place>, b: seq<string>)
    requires ListsIDs(t, p, a) && ListsIDs(t, q, b)
    ensures ListsIDs(t, p + q, a + b)
  {
  }

  lemma ListsUnder(t: Tree, k: nat, places: seq<Place>, ids: seq<string>)
    requires k < |t.folders| && t.folders[k].active && ListsIDs(t.folders[k].below, places, ids)
    ensures ListsIDs(t, Under(k, places), ids)
  {
    forall i | 0 <= i < |ids| ensures IsActive(t, [k] + places[i]) && ids[i] == IDAt(t, [k] + places[i]) {
      assert ([k] + places[i])[1..] == places[i];
    }
  }

  lemma {:induction false} BelowLists(t: Tree)
    ensures ListsIDs(t, Places(t), Below(t))
    decreases t, 1, 0
  {
    OwnPlacesIDs(t.projects);
    forall i | 0 <= i < |OwnPlaces(t.projects)| ensures IsActive(t, OwnPlaces(t.projects)[i]) {
      OwnPlacesAre(t.projects, OwnPlaces(t.projects)[i]);
    }
    FolderLists(t, |t.folders|);
    ListsConcat(t, OwnPlaces(t.projects), ActiveIDs(t.projects), FolderPlaces(t, |t.folders|), BelowFolders(t, |t.folders|));
  }

  lemma {:induction false} FolderLists(t: Tree, k: nat)
    requires k <= |t.folders|
    ensures ListsIDs(t, FolderPlaces(t, k), BelowFolders(t, k))
    decreases t, 0, k
  {
    if k > 0 {
      FolderLists(t, k - 1);
      var b := t.folders[k - 1];
      if b.active {
        BelowLists(b.below);
        ListsUnder(t, k - 1, Places(b.below), Below(b.below));
        ListsConcat(t, FolderPlaces(t, k - 1), BelowFolders(t, k - 1), Under(k - 1, Places(b.below)), Below(b.below));
      }
    }
  }

  /** EXACTLY ONCE: the result lists the IDs of pairwise different places, which are all the places of
      active projects below active folders. */
  lemma EachProjectOnce(t: Tree)
    ensures NoDuplicates(Places(t)) && ListsIDs(t, Places(t), Below(t))
    ensures forall p :: p in Places(t) <==> IsActive(t, p)
  {
    PlacesOnce(t);
    BelowLists(t);
    forall p ensures p in Places(t) <==> IsActive(t, p) { PlacesAre(t, p); }
  }

  /** Different projects have different IDs. */
  ghost predicate DistinctIDs(t: Tree) {
    forall p, q | IsActive(t, p) && IsActive(t, q) && p != q :: IDAt(t, p) != IDAt(t, q)
  }

  lemma NoIDTwice(t: Tree)
    requires DistinctIDs(t)
    ensures NoDuplicates(Below(t))
  {
    EachProjectOnce(t);
  }

  // ---- in the answers' own terms ----

  predicate Lives(name: string, state: string) { name != "" && (state == "" || state == "ACTIVE") }

  /** One of the pages lists it. */
  ghost predicate OnPage<T>(pages: seq<Page<T>>, x: T) { exists p | p in pages :: p.Listed? && x in p.items }

  /** A live project of that ID is listed, under the parent or under a live folder at any depth. */
  ghost predicate Reaches(n: Node, id: string)
    decreases n, 0
  {
    || (exists q :: OnPage(n.projectPages, q) && q.id == id && Lives(q.id, q.state))
    || exists p | p in n.folderPages :: ReachesFrom(p, id)
  }

  ghost predicate ReachesFrom(page: Page<Folder>, id: string)
    decreases page
  {
    page.Listed? && exists f | f in page.items :: Lives(f.name, f.state) && Reaches(f.below, id)
  }

  /** Some page cannot be listed, of the parent or of a live folder at any depth. */
  ghost predicate Breaks(n: Node)
    decreases n, 0
  {
    (exists p | p in n.projectPages :: p.ListFailed?) || exists p | p in n.folderPages :: BreaksFrom(p)
  }

  ghost predicate BreaksFrom(page: Page<Folder>)
    decreases page
  {
    page.ListFailed? || exists f | f in page.items :: Lives(f.name, f.state) && Breaks(f.below)
  }

  lemma {:induction false} BreaksIff(n: Node)
    ensures Breaks(n) <==> Fails(n)
    decreases n, 0
  {
    forall p | p in n.folderPages ensures BreaksFrom(p) <==> PageFails(p) { BreaksFromIff(p); }
  }

  lemma {:induction false} BreaksFromIff(page: Page<Folder>)
    ensures BreaksFrom(page) <==> PageFails(page)
    decreases page
  {
    if page.Listed? {
      forall f | f in page.items ensures Lives(f.name, f.state) && Breaks(f.below) <==> FolderFails(f) { BreaksIff(f.below); }
    }
  }

  lemma {:induction false} ItemsMember<T>(pages: seq<Page<T>>, x: T)
    ensures x in Items(pages) <==> OnPage(pages, x)
  {
    if pages != [] {
      var n := |pages| - 1;
      ItemsMember(pages[..n], x);
      assert pages == pages[..n] + [pages[n]];
      assert pages[n] in pages;
    }
  }

  lemma {:induction false} ActiveMember(ps: seq<Project>, id: string)
    ensures id in ActiveIDs(ps) <==> exists q :: q in ps && q.id == id && Lives(q.id, q.state)
  {
    if ps != [] {
      var n := |ps| - 1;
      ActiveMember(ps[..n], id);
      assert ps == ps[..n] + [ps[n]];
      assert ps[n] in ps;
    }
  }

  lemma {:induction false} BranchMember(bs: seq<Branch>, id: string)
    ensures id in BelowBranches(bs) <==> exists i :: 0 <= i < |bs| && bs[i].active && id in Below(bs[i].below)
  {
    if bs != [] {
      var n := |bs| - 1;
      BranchMember(bs[..n], id);
      if i :| 0 <= i < n && bs[..n][i].active && id in Below(bs[..n][i].below) { assert bs[i] == bs[..n][i]; }
      if i :| 0 <= i < |bs| && bs[i].active && id in Below(bs[i].below) { assert i < n ==> bs[i] == bs[..n][i]; }
    }
  }

  /** The projects under live folders. */
  ghost predicate Nested(fs: seq<Folder>, id: string) {
    exists f :: f in fs && Lives(f.name, f.state) && id in Below(Unpaged(f.below))
  }

  lemma NestedIff(fs: seq<Folder>, id: string)
    ensures id in BelowBranches(Branches(fs)) <==> Nested(fs, id)
  {
    var bs := Branches(fs);
    BranchMember(bs, id);
    if i :| 0 <= i < |bs| && bs[i].active && id in Below(bs[i].below) { assert fs[i] in fs; }
    if f :| f in fs && Lives(f.name, f.state) && id in Below(Unpaged(f.below)) {
      var i :| 0 <= i < |fs| && fs[i] == f;
      assert bs[i] == BranchOf(fs[i]) == Branch(true, Unpaged(f.below));
    }
  }

  lemma BelowParts(n: Node, id: string)
    ensures id in Below(Unpaged(n)) <==> id in ActiveIDs(Items(n.projectPages)) || Nested(Items(n.folderPages), id)
  {
    var t := Unpaged(n);
    BelowIsBranches(t, |t.folders|);
    BranchesOfItems(n, |n.folderPages|);
    assert t.folders[..|t.folders|] == t.folders && n.folderPages[..|n.folderPages|] == n.folderPages;
    NestedIff(Items(n.folderPages), id);
  }

  lemma {:induction false} ReachesIff(n: Node, id: string)
    ensures Reaches(n, id) <==> id in Below(Unpaged(n))
    decreases n, 0
  {
    BelowParts(n, id);
    ActiveMember(Items(n.projectPages), id);
    forall q ensures q in Items(n.projectPages) <==> OnPage(n.projectPages, q) { ItemsMember(n.projectPages, q); }
    forall f ensures f in Items(n.folderPages) <==> OnPage(n.folderPages, f) { ItemsMember(n.folderPages, f); }
    forall p | p in n.folderPages ensures ReachesFrom(p, id) <==> p.Listed? && Nested(p.items, id) { ReachesFromIff(p, id); }
    NestedOnPages(n.folderPages, id);
  }

  lemma NestedOnPages(pages: seq<Page<Folder>>, id: string)
    requires forall f :: f in Items(pages) <==> OnPage(pages, f)
    ensures Nested(Items(pages), id) <==> exists p :: p in pages && p.Listed? && Nested(p.items, id)
  {
    if f :| f in Items(pages) && Lives(f.name, f.state) && id in Below(Unpaged(f.below)) {
      var p :| p in pages && p.Listed? && f in p.items;
      assert Nested(p.items, id);
    }
    if p :| p in pages && p.Listed? && Nested(p.items, id) {
      var f :| f in p.items && Lives(f.name, f.state) && id in Below(Unpaged(f.below));
      assert OnPage(pages, f);
    }
  }

  lemma {:induction false} ReachesFromIff(page: Page<Folder>, id: string)
    ensures ReachesFrom(page, id) <==> page.Listed? && Nested(page.items, id)
    decreases page
  {
    if page.Listed? {
      forall f | f in page.items ensures Reaches(f.below, id) <==> id in Below(Unpaged(f.below)) { ReachesIff(f.below, id); }
    }
  }

  /** WHAT IS LISTED: the walk fails if and only if a page it needs cannot be listed; otherwise it gives exactly the IDs
      of the live projects below live folders. */
  lemma WalkMeans(n: Node, id: string)
    ensures Walk(n).None? <==> Breaks(n)
    ensures Walk(n).Some? ==> (id in Walk(n).value <==> Reaches(n, id))
  {
    BreaksIff(n);
    ReachesIff(n, id);
  }

  // ---- EnumerateScope ----

  datatype Scope = Scope(organizationID: string, projects: seq<string>)

  const ORGANIZATIONS := "organizations/"

  predicate Usable(organizations: Option<seq<string>>) {
    organizations.Some? && |organizations.value| == 1 && ORGANIZATIONS <= organizations.value[0]
  }

  /** EnumerateScope: organizations is what the search answers, root what lies below the first. */
  method EnumerateScope(organizations: Option<seq<string>>, root: Node) returns (r: Option<Scope>)
    ensures r.Some? <==> Usable(organizations) && !Fails(root) && Below(Unpaged(root)) != []
    ensures r.Some? ==>
      && ORGANIZATIONS + r.value.organizationID == organizations.value[0]
      && SortedPermutation(GoLess, Below(Unpaged(root)), r.value.projects)
  {
    if organizations.None? || |organizations.value| != 1 { return None; }
    var org := organizations.value[0];
    if !(ORGANIZATIONS <= org) { return None; }
    var projects := ProjectsBelow(root);
    if projects.None? || |projects.value| == 0 { return None; }
    GoLessWeakOrder();
    var sorted := Sort(GoLess, projects.value);
    r := Some(Scope(org[|ORGANIZATIONS|..], sorted));
  }
}
