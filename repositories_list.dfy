/**
 * The repository list: a case-insensitive search over the repositories and
 * pages of five. The filter and the page slice are functions; the component's
 * state (search term, filtered list, current page) is the class
 * `RepositoriesListState`, whose methods are the state updates.
 */
module RepositoriesList {
  import opened Wrappers
  import opened Text

  datatype Repository = Repository(
    id: int,
    fullName: string,
    name: string,
    description: Option<string>,
    language: Option<string>,
    stargazersCount: nat,
    updatedAt: string,
    forksCount: nat,
    htmlUrl: string)

  const ItemsPerPage: nat := 5

  // ---------------------------------------------------------------------------
  // The search filter
  // ---------------------------------------------------------------------------

  /**
   * The filter's test: the lower-cased name contains the lower-cased term, or
   * there is a description (non-null and non-empty, i.e. truthy) whose
   * lower-cased text contains it.
   */
  predicate Matches(repo: Repository, term: string) {
    Contains(Lower(repo.name), Lower(term)) ||
    (repo.description.Some? && repo.description.value != "" &&
     Contains(Lower(repo.description.value), Lower(term)))
  }

  function Filter(repos: seq<Repository>, term: string): (r: seq<Repository>)
    ensures |r| <= |repos|
    ensures forall x :: x in r <==> x in repos && Matches(x, term)
  {
    if repos == [] then []
    else (if Matches(repos[0], term) then [repos[0]] else []) + Filter(repos[1..], term)
  }

  /** Filtering a concatenation filters each part and keeps their order. */
  lemma {:induction false} FilterAppend(a: seq<Repository>, b: seq<Repository>, term: string)
    ensures Filter(a + b, term) == Filter(a, term) + Filter(b, term)
  {
    if a == [] {
      assert a + b == b;
    } else {
      assert (a + b)[0] == a[0] && (a + b)[1..] == a[1..] + b;
      FilterAppend(a[1..], b, term);
    }
  }

  /** The empty term keeps every repository, in order. */
  lemma {:induction false} FilterEmptyTerm(repos: seq<Repository>)
    ensures Filter(repos, "") == repos
  {
    if repos != [] {
      ContainsEmpty(Lower(repos[0].name));
      FilterEmptyTerm(repos[1..]);
    }
  }

  /** The search is case-insensitive: terms equal after lower-casing select the same repositories. */
  lemma {:induction false} FilterCaseInsensitive(repos: seq<Repository>, t: string, u: string)
    requires Lower(t) == Lower(u)
    ensures Filter(repos, t) == Filter(repos, u)
  {
    if repos != [] {
      FilterCaseInsensitive(repos[1..], t, u);
    }
  }

  /** Filtering twice with the same term changes nothing. */
  lemma {:induction false} FilterIdempotent(repos: seq<Repository>, term: string)
    ensures Filter(Filter(repos, term), term) == Filter(repos, term)
  {
    if repos != [] {
      var head := if Matches(repos[0], term) then [repos[0]] else [];
      FilterAppend(head, Filter(repos[1..], term), term);
      FilterIdempotent(repos[1..], term);
    }
  }

  /** A repository passes iff the term occurs in its lower-cased name or in its (truthy) lower-cased description. */
  lemma MatchesIff(repo: Repository, term: string)
    ensures Matches(repo, term) <==>
      Occurs(Lower(repo.name), Lower(term)) ||
      (repo.description.Some? && repo.description.value != "" &&
       Occurs(Lower(repo.description.value), Lower(term)))
  {
    ContainsIff(Lower(repo.name), Lower(term));
    if repo.description.Some? {
      ContainsIff(Lower(repo.description.value), Lower(term));
    }
  }

  // ---------------------------------------------------------------------------
  // Pages
  // ---------------------------------------------------------------------------

  /** `Math.ceil(count / itemsPerPage)`. */
  function TotalPages(count: nat): (pages: nat)
    ensures pages * ItemsPerPage >= count
    ensures pages == 0 || (pages - 1) * ItemsPerPage < count
    ensures pages == 0 <==> count == 0
  {
    (count + ItemsPerPage - 1) / ItemsPerPage
  }

  /** `getCurrentPageData`: `slice((page - 1) * 5, (page - 1) * 5 + 5)`. */
  function PageItems(items: seq<Repository>, page: int): seq<Repository> {
    var start := (page - 1) * ItemsPerPage;
    Slice(items, start, start + ItemsPerPage)
  }

  /** Page `p` (from 1) is the contiguous run starting at `(p - 1) * 5`, at most five long. */
  lemma PageIsContiguous(items: seq<Repository>, page: nat)
    requires page >= 1
    ensures var start := Min((page - 1) * ItemsPerPage, |items|);
      var end := Min(page * ItemsPerPage, |items|);
      PageItems(items, page) == items[start..end]
    ensures |PageItems(items, page)| <= ItemsPerPage
    ensures 1 <= page <= TotalPages(|items|) ==> |PageItems(items, page)| > 0
  {
    SliceClamped(items, (page - 1) * ItemsPerPage, (page - 1) * ItemsPerPage + ItemsPerPage);
  }

  /** Pages 1 to `count`, joined in order. */
  function JoinedPages(items: seq<Repository>, count: nat): seq<Repository> {
    if count == 0 then [] else JoinedPages(items, count - 1) + PageItems(items, count)
  }

  lemma {:induction false} JoinedPagesPrefix(items: seq<Repository>, count: nat)
    ensures JoinedPages(items, count) == items[..Min(count * ItemsPerPage, |items|)]
  {
    if count > 0 {
      JoinedPagesPrefix(items, count - 1);
      PageIsContiguous(items, count);
      var a := Min((count - 1) * ItemsPerPage, |items|);
      var b := Min(count * ItemsPerPage, |items|);
      assert items[..a] + items[a..b] == items[..b];
    }
  }

  /** The pages 1 to `TotalPages`, joined in order, are exactly the list. */
  lemma PagesCoverList(items: seq<Repository>)
    ensures JoinedPages(items, TotalPages(|items|)) == items
  {
    JoinedPagesPrefix(items, TotalPages(|items|));
  }

  // ---------------------------------------------------------------------------
  // The component state
  // ---------------------------------------------------------------------------

  class RepositoriesListState {
    /** The `initialData` prop. */
    var initialData: seq<Repository>
    var searchTerm: string
    var filteredData: seq<Repository>
    var currentPage: int

    /** After every update the filtered list matches the term and the page is in range. */
    ghost predicate Valid()
      reads this
    {
      filteredData == Filter(initialData, searchTerm) &&
      1 <= currentPage <= Max(1, TotalPages(|filteredData|))
    }

    /** First render plus the mount effect: term empty, every repository, page 1. */
    constructor (data: seq<Repository>)
      ensures Valid()
      ensures initialData == data && searchTerm == "" && filteredData == data && currentPage == 1
    {
      initialData := data;
      searchTerm := "";
      filteredData := data;
      currentPage := 1;
      FilterEmptyTerm(data);
    }

    /** `totalPages`, recomputed from the filtered list on every render. */
    function TotalPagesNow(): nat
      reads this
    {
      TotalPages(|filteredData|)
    }

    /** The repositories shown: the current page of the filtered list. */
    function CurrentPageData(): (page: seq<Repository>)
      reads this
      requires Valid()
      ensures |page| <= ItemsPerPage
      ensures forall x :: x in page ==> x in initialData && Matches(x, searchTerm)
      ensures page == filteredData[Min((currentPage - 1) * ItemsPerPage, |filteredData|)..Min(currentPage * ItemsPerPage, |filteredData|)]
    {
      PageIsContiguous(filteredData, currentPage);
      PageItems(filteredData, currentPage)
    }

    /** The Previous button is disabled on page 1. */
    predicate PreviousDisabled()
      reads this
    {
      currentPage == 1
    }

    /** The Next button is disabled when the page equals the page count. */
    predicate NextDisabled()
      reads this
    {
      currentPage == TotalPagesNow()
    }

    /**
     * `setSearchTerm(term)` and the effect it triggers: a different term
     * recomputes the filtered list and goes back to page 1; the same term
     * leaves the state as it is (React does not re-run the effect).
     */
    method SetSearchTerm(term: string)
      requires Valid()
      modifies this
      ensures Valid()
      ensures initialData == old(initialData) && searchTerm == term
      ensures term != old(searchTerm) ==> filteredData == Filter(initialData, term) && currentPage == 1
      ensures term == old(searchTerm) ==> filteredData == old(filteredData) && currentPage == old(currentPage)
    {
      if term != searchTerm {
        searchTerm := term;
        filteredData := Filter(initialData, term);
        currentPage := 1;
      }
    }

    /**
     * A new `initialData` prop (a different array) re-runs the effect: the
     * list is filtered again and the page reset.
     */
    method SetInitialData(data: seq<Repository>)
      requires Valid()
      modifies this
      ensures Valid()
      ensures initialData == data && searchTerm == old(searchTerm)
      ensures filteredData == Filter(data, searchTerm) && currentPage == 1
    {
      initialData := data;
      filteredData := Filter(data, searchTerm);
      currentPage := 1;
    }

    /** `goToPreviousPage`: one page back unless on page 1; nothing else changes. */
    method GoToPreviousPage()
      requires Valid()
      modifies this`currentPage
      ensures Valid()
      ensures currentPage == if old(currentPage) > 1 then old(currentPage) - 1 else old(currentPage)
      ensures currentPage >= 1
      ensures initialData == old(initialData) && searchTerm == old(searchTerm) && filteredData == old(filteredData)
    {
      if currentPage > 1 {
        currentPage := currentPage - 1;
      }
    }

    /** `goToNextPage`: one page on unless on the last page; nothing else changes. */
    method GoToNextPage()
      requires Valid()
      modifies this`currentPage
      ensures Valid()
      ensures currentPage == if old(currentPage) < TotalPagesNow() then old(currentPage) + 1 else old(currentPage)
      ensures currentPage <= Max(1, TotalPagesNow())
      ensures initialData == old(initialData) && searchTerm == old(searchTerm) && filteredData == old(filteredData)
    {
      if currentPage < TotalPagesNow() {
        currentPage := currentPage + 1;
      }
    }

    /**
     * With no match the page count is 0, so Next is not disabled (1 differs
     * from 0) while moving on is impossible; otherwise a disabled Next means
     * there is no later page.
     */
    lemma NextButtonWithoutResults()
      requires Valid()
      ensures filteredData == [] ==> !NextDisabled() && !(currentPage < TotalPagesNow())
      ensures filteredData != [] ==> (NextDisabled() <==> !(currentPage < TotalPagesNow()))
    {
    }

    /** The Previous button is disabled exactly when going back is impossible. */
    lemma PreviousButton()
      requires Valid()
      ensures PreviousDisabled() <==> !(currentPage > 1)
    {
    }
  }
}
