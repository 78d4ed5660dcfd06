/**
 * The text search shared by the two catalog pages (src/components/HomePage/HomePage.tsx
 * and src/app/page.tsx): an account matches when its title, commander or legendary
 * house contains the term, both lowercased.
 */
module CatalogSearch {
  import opened AccountTypes
  import opened Text
  import opened Seqs

  predicate SearchMatch(a: Account, term: string)
  {
    var t := Lower(term);
    Contains(Lower(a.title), t) || Contains(Lower(a.commander), t) || Contains(Lower(a.legendaryHouse), t)
  }

  /** The empty term matches every account. */
  lemma EmptyTermMatches(a: Account)
    ensures SearchMatch(a, "")
  {
    ContainsEmpty(Lower(a.title));
  }

  /** The search ignores the case of the term: a term and its lowercase form match the
      same accounts. */
  lemma CaseInsensitive(a: Account, term: string)
    ensures SearchMatch(a, term) == SearchMatch(a, Lower(term))
  {
    LowerIdempotent(term);
  }

  /** `accounts.filter(a => SearchMatch(a, term))`. */
  function SearchResults(accounts: seq<Account>, term: string): seq<Account>
  {
    Filter(accounts, a => SearchMatch(a, term))
  }

  /** The results keep the accounts' order and are exactly the matching accounts; the
      empty term keeps them all, and the term's case does not matter. */
  lemma SearchResultsFacts(accounts: seq<Account>, term: string)
    ensures IsSubsequence(SearchResults(accounts, term), accounts)
    ensures forall a :: a in SearchResults(accounts, term) <==> a in accounts && SearchMatch(a, term)
    ensures SearchResults(accounts, "") == accounts
    ensures SearchResults(accounts, term) == SearchResults(accounts, Lower(term))
  {
    var p := (a: Account) => SearchMatch(a, term);
    FilterIsSubsequence(accounts, p);
    forall a ensures a in Filter(accounts, p) <==> a in accounts && p(a) {
      FilterMembership(accounts, p, a);
    }
    forall k | 0 <= k < |accounts| ensures SearchMatch(accounts[k], "") {
      EmptyTermMatches(accounts[k]);
    }
    FilterKeepsAll(accounts, a => SearchMatch(a, ""));
    forall k | 0 <= k < |accounts| ensures SearchMatch(accounts[k], term) == SearchMatch(accounts[k], Lower(term)) {
      CaseInsensitive(accounts[k], term);
    }
    FilterAgree(accounts, p, a => SearchMatch(a, Lower(term)));
  }
}
