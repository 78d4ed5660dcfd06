/**
 * The search page (src/app/page.tsx): a search term over the loaded accounts, and a
 * button that clears it.
 */
module SearchPage {
  import opened AccountTypes
  import opened CatalogSearch

  class Search {
    const accounts: seq<Account>
    var searchTerm: string

    /** `filteredAccounts`. */
    function Filtered(): seq<Account>
      reads this
    {
      SearchResults(accounts, searchTerm)
    }

    constructor (accounts: seq<Account>)
      ensures this.accounts == accounts && searchTerm == ""
      ensures Filtered() == accounts
    {
      this.accounts := accounts;
      searchTerm := "";
      new;
      SearchResultsFacts(accounts, "");
    }

    method SetSearchTerm(term: string)
      modifies this
      ensures searchTerm == term
    {
      searchTerm := term;
    }

    /** The clear button restores the full list. */
    method Clear()
      modifies this
      ensures searchTerm == "" && Filtered() == accounts
    {
      searchTerm := "";
      SearchResultsFacts(accounts, "");
    }
  }
}
