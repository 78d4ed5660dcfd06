/**
 * The home page catalog (src/components/HomePage/HomePage.tsx): a search term, a VIP
 * selection and a legendary-house selection, each selection toggled one value at a
 * time, and the accounts that pass all three filters.
 */
module HomePage {
  import opened AccountTypes
  import opened Text
  import opened Seqs
  import opened CatalogSearch

  /** An empty selection accepts every VIP level. */
  predicate VipMatch(a: Account, selectedVips: seq<int>)
  {
    |selectedVips| == 0 || a.vipLevel in selectedVips
  }

  /** An empty selection accepts every account; otherwise one of the account's city
      themes must be selected by name. */
  predicate LegendaryMatch(a: Account, selectedLegendary: seq<string>)
  {
    |selectedLegendary| == 0 || exists k :: 0 <= k < |a.cityThemes| && a.cityThemes[k].name in selectedLegendary
  }

  predicate Passes(a: Account, term: string, selectedVips: seq<int>, selectedLegendary: seq<string>)
  {
    SearchMatch(a, term) && VipMatch(a, selectedVips) && LegendaryMatch(a, selectedLegendary)
  }

  function Filtered(accounts: seq<Account>, term: string, selectedVips: seq<int>, selectedLegendary: seq<string>): seq<Account>
  {
    Filter(accounts, a => Passes(a, term, selectedVips, selectedLegendary))
  }

  /** The dialog's list of houses whose name contains the house search term. */
  function ThemeList(themes: seq<CityTheme>, term: string): seq<CityTheme>
  {
    Filter(themes, (t: CityTheme) => Contains(Lower(t.name), Lower(term)))
  }

  /** filteredAccounts keeps the accounts' order and holds exactly those that pass. */
  lemma FilteredFacts(accounts: seq<Account>, term: string, selectedVips: seq<int>, selectedLegendary: seq<string>)
    ensures IsSubsequence(Filtered(accounts, term, selectedVips, selectedLegendary), accounts)
    ensures forall a :: a in Filtered(accounts, term, selectedVips, selectedLegendary) <==>
              a in accounts && Passes(a, term, selectedVips, selectedLegendary)
  {
    var p := (a: Account) => Passes(a, term, selectedVips, selectedLegendary);
    FilterIsSubsequence(accounts, p);
    forall a ensures a in Filter(accounts, p) <==> a in accounts && p(a) {
      FilterMembership(accounts, p, a);
    }
  }

  /** With the filters cleared every account passes. */
  lemma ClearedKeepsAll(accounts: seq<Account>)
    ensures Filtered(accounts, "", [], []) == accounts
  {
    forall k | 0 <= k < |accounts| ensures Passes(accounts[k], "", [], []) {
      EmptyTermMatches(accounts[k]);
    }
    FilterKeepsAll(accounts, a => Passes(a, "", [], []));
  }

  /** With some house selected, an account without city themes never passes. */
  lemma NoThemesNeverPasses(a: Account, term: string, selectedVips: seq<int>, selectedLegendary: seq<string>)
    requires selectedLegendary != [] && a.cityThemes == []
    ensures !Passes(a, term, selectedVips, selectedLegendary)
  {
  }

  lemma ThemeListFacts(themes: seq<CityTheme>, term: string)
    ensures IsSubsequence(ThemeList(themes, term), themes)
    ensures forall t :: t in ThemeList(themes, term) <==> t in themes && Contains(Lower(t.name), Lower(term))
    ensures ThemeList(themes, "") == themes
  {
    var p := (t: CityTheme) => Contains(Lower(t.name), Lower(term));
    FilterIsSubsequence(themes, p);
    forall t ensures t in Filter(themes, p) <==> t in themes && p(t) {
      FilterMembership(themes, p, t);
    }
    forall k | 0 <= k < |themes| ensures Contains(Lower(themes[k].name), Lower("")) {
      ContainsEmpty(Lower(themes[k].name));
    }
    FilterKeepsAll(themes, (t: CityTheme) => Contains(Lower(t.name), Lower("")));
  }

  class Home {
    var accounts: seq<Account>
    var searchTerm: string
    var selectedVips: seq<int>
    var selectedLegendary: seq<string>

    /** The selections never hold a value twice. */
    predicate Valid()
      reads this
    {
      NoDuplicates(selectedVips) && NoDuplicates(selectedLegendary)
    }

    /** `filteredAccounts`. */
    function Shown(): seq<Account>
      reads this
    {
      Filtered(accounts, searchTerm, selectedVips, selectedLegendary)
    }

    /** The mount effect: `account ?? []`. */
    constructor (account: Option<seq<Account>>)
      ensures Valid() && searchTerm == "" && selectedVips == [] && selectedLegendary == []
      ensures accounts == (if account.Some? then account.value else [])
    {
      accounts := if account.Some? then account.value else [];
      searchTerm := "";
      selectedVips := [];
      selectedLegendary := [];
    }

    /** handleVipChange: drops vip when it is selected, else appends it. */
    method HandleVipChange(vip: int)
      modifies this
      requires Valid()
      ensures Valid() && selectedVips == Toggle(old(selectedVips), vip)
      ensures accounts == old(accounts) && searchTerm == old(searchTerm) && selectedLegendary == old(selectedLegendary)
    {
      ToggleNoDuplicates(selectedVips, vip);
      selectedVips := Toggle(selectedVips, vip);
    }

    /** handleLegendaryChange: the same toggle on house names. */
    method HandleLegendaryChange(legendary: string)
      modifies this
      requires Valid()
      ensures Valid() && selectedLegendary == Toggle(old(selectedLegendary), legendary)
      ensures accounts == old(accounts) && searchTerm == old(searchTerm) && selectedVips == old(selectedVips)
    {
      ToggleNoDuplicates(selectedLegendary, legendary);
      selectedLegendary := Toggle(selectedLegendary, legendary);
    }

    method SetSearchTerm(term: string)
      modifies this
      requires Valid()
      ensures Valid() && searchTerm == term
      ensures accounts == old(accounts) && selectedVips == old(selectedVips) && selectedLegendary == old(selectedLegendary)
    {
      searchTerm := term;
    }

    /** handleClearFilters: afterwards every account is shown. */
    method HandleClearFilters()
      modifies this
      ensures Valid() && searchTerm == "" && selectedVips == [] && selectedLegendary == []
      ensures accounts == old(accounts) && Shown() == accounts
    {
      searchTerm := "";
      selectedVips := [];
      selectedLegendary := [];
      ClearedKeepsAll(accounts);
    }
  }
}
