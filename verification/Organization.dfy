/** internal/providers/organization.go: paging through ListAccounts. */
module Organization {
  import opened Wrappers
  import opened Sorting

  datatype OrganizationScope = OrganizationScope(organizationID: string, noOrganization: bool, accounts: seq<string>)

  /** What DescribeOrganization answers. */
  datatype Description = DescribeFailed | NotInUse | Described(id: Option<string>)

  /** What one ListAccounts call answers; account IDs and tokens are pointers. */
  datatype Page = ListFailed | Page(accounts: seq<Option<string>>, nextToken: Option<string>)

  predicate Ends(p: Page) {
    p.ListFailed? || p.nextToken == None || p.nextToken == Some("")
  }

  /** The answers to successive calls form a finite listing. */
  predicate FiniteListing(pages: seq<Page>) {
    exists k | 0 <= k < |pages| :: Ends(pages[k])
  }

  function LastPage(pages: seq<Page>): (n: nat)
    requires FiniteListing(pages)
    ensures n < |pages| && Ends(pages[n]) && forall k | 0 <= k < n :: !Ends(pages[k])
  {
    if Ends(pages[0]) then 0
    else
      assert FiniteListing(pages[1..]) by {
        var k :| 0 <= k < |pages| && Ends(pages[k]);
        assert pages[1..][k - 1] == pages[k];
      }
      var n := LastPage(pages[1..]);
      assert forall k | 1 <= k < |pages| :: pages[k] == pages[1..][k - 1];
      n + 1
  }

  /** The non-empty IDs of one page, and of all pages up to the one that ends the listing. */
  function IDsOf(p: Page): set<string> {
    if p.ListFailed? then {} else set a | a in p.accounts && a.Some? && a.value != "" :: a.value
  }

  function IDsUpTo(pages: seq<Page>, n: nat): set<string>
    requires n <= |pages|
  {
    if n == 0 then {} else IDsUpTo(pages, n - 1) + IDsOf(pages[n - 1])
  }

  ghost function Enumerated(d: Description, pages: seq<Page>, current: string): Option<OrganizationScope>
    requires FiniteListing(pages)
  {
    match d
    case DescribeFailed => None
    case NotInUse => Some(OrganizationScope("", true, [current]))
    case Described(id) =>
      var last := LastPage(pages);
      var ids := IDsUpTo(pages, last + 1);
      if id.GetOr("") == "" || pages[last].ListFailed? || current !in ids then None
      else Some(OrganizationScope(id.value, false, GoSorted(ids)))
  }

  /** enumerateOrganization. */
  method EnumerateOrganization(d: Description, pages: seq<Page>, current: string) returns (r: Option<OrganizationScope>)
    requires FiniteListing(pages)
    ensures r == Enumerated(d, pages, current)
  {
    match d {
      case DescribeFailed => return None;
      case NotInUse => return Some(OrganizationScope("", true, [current]));
      case Described(id) =>
        if id.None? || id.value == "" { return None; }
    }
    var accountSet: map<string, ()> := map[];
    var call := 0;
    ghost var last := LastPage(pages);
    while true
      invariant call <= last && accountSet.Keys == IDsUpTo(pages, call)
      decreases last - call
    {
      var page := pages[call];
      if page.ListFailed? { return None; }
      for i := 0 to |page.accounts|
        invariant accountSet.Keys ==
          IDsUpTo(pages, call) + set a | a in page.accounts[..i] && a.Some? && a.value != "" :: a.value
      {
        var account := page.accounts[i];
        assert page.accounts[..i + 1] == page.accounts[..i] + [account];
        if account.Some? && account.value != "" { accountSet := accountSet[account.value := ()]; }
      }
      assert page.accounts[..|page.accounts|] == page.accounts;
      call := call + 1;
      if page.nextToken == None || page.nextToken == Some("") { break; }
    }
    var accounts := Keys(accountSet);
    accounts := SortStrings(accounts);
    if |accounts| == 0 {
      assert current !in Elems(accounts);
      return None;
    }
    if current !in accountSet { return None; }
    r := Some(OrganizationScope(d.id.value, false, accounts));
  }

  /** What callers rely on: the current account is listed, every listed ID is listed once, in byte
      order, and was returned by some page; nothing a page returned is lost. */
  lemma EnumerationGuarantees(d: Description, pages: seq<Page>, current: string)
    requires FiniteListing(pages) && Enumerated(d, pages, current).Some?
    ensures
      var s := Enumerated(d, pages, current).value;
      && current in s.accounts && NoDuplicates(s.accounts) && Ascending(GoLess, s.accounts)
      && (s.noOrganization <==> d.NotInUse?)
      && (s.noOrganization ==> s.organizationID == "" && s.accounts == [current])
      && (!s.noOrganization ==> s.organizationID != "")
      && (!s.noOrganization ==>
            forall id :: id in s.accounts <==>
              id != "" && exists k | 0 <= k <= LastPage(pages) :: pages[k].Page? && Some(id) in pages[k].accounts)
  {
    var s := Enumerated(d, pages, current).value;
    if !s.noOrganization {
      var last := LastPage(pages);
      var ids := IDsUpTo(pages, last + 1);
      assert Elems(s.accounts) == ids;
      GoLessTotal(ids);
      AscendingNoDuplicates(GoLess, s.accounts);
      forall id ensures id in s.accounts <==> id in ids { assert id in Elems(s.accounts) <==> id in ids; }
      forall id ensures id in ids <==>
        id != "" && exists k | 0 <= k <= last :: pages[k].Page? && Some(id) in pages[k].accounts
      {
        IDsUpToMeaning(pages, last + 1, id);
      }
    }
  }

  lemma {:induction false} IDsUpToMeaning(pages: seq<Page>, n: nat, id: string)
    requires n <= |pages|
    ensures id in IDsUpTo(pages, n) <==>
      id != "" && exists k | 0 <= k < n :: pages[k].Page? && Some(id) in pages[k].accounts
  {
    if n > 0 {
      IDsUpToMeaning(pages, n - 1, id);
      var p := pages[n - 1];
      assert id in IDsOf(p) <==> id != "" && p.Page? && Some(id) in p.accounts by {
        if id != "" && p.Page? && Some(id) in p.accounts {
          var a := Some(id);
          assert a in p.accounts && a.value == id;
        }
      }
    }
  }
}
