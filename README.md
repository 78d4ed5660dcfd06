# Game-account storefront, modelled in Dafny

The storefront sells game accounts, called listings. A buyer opens a price negotiation on a listing. The seller answers it, and accepts or rejects it. This project models the logic under those pages and API routes:

- **Price heuristic and price text.**
  - `getSuggestedPrice` is the step-function price heuristic. Module `PriceSuggestor` models it as a method that builds the price in an accumulator, proved against a specification function.
  - `convertToShortText` renders an amount as millions followed by "tr". Module `Common` models it, including the JavaScript `parseFloat` and `toFixed(1)` it relies on, read on exact rationals.
- **Negotiation backend.** Module `NegotiationStore` holds the negotiations, the messages, the owner of each listing and the next record id.
  - It is a class, `Backend`. Each state-changing route is a method proved equal to a pure transition function: POST `/api/negotiate`, POST `/api/negotiate/seller-response`, and the seller's PUT of a decision.
  - The lemmas are about those functions: open-or-resume, no rollback, at most one negotiation per (listing, buyer) pair, and "only the PUT changes a status".
- **Read-only queries.** The session becomes an `Option` of the user id. Module `NegotiationQueries` models the query routes by role and by listing, and `getAccountWithNegotiation`. What the backend does with a query is a parameter: it serves the query, answers with an error body, or the fetch throws.
- **Negotiations page.** Module `NegotiationsPage` models:
  - the initial selection and the buyer-role flag;
  - the selected negotiation and the last offer;
  - the chronological stable sort of the thread;
  - the digits-only, vi-VN grouped price field;
  - the page state as a class.
- **Seller's modal.** Module `NegotiationModal` models the status labels, the gating of the reply controls, and the decision update that closes the modal only on success.
- **Buyer's offer dialog.** Module `NegotiatePriceDialog` models a four-field form with a digits-only price, a grouped display, a submit guard and a reset.
- **Catalog and search pages.**
  - Modules `HomePage`, `CatalogSearch` and `SearchPage` model the search filter, the VIP and legendary-house toggles, the clear button and the house list.
  - `Seqs` holds the toggle and filter facts they share.
- **Labels.** Modules `VipFilter`, `AccountCard` and `AccountDetails` model the VIP button text, the sale-status and version labels, the VIP badges, and the commander-line splitter.
- **Image manager and sell form.** Modules `ImageManager` and `SellAccountForm` each model the component as a class whose handlers update its list or record in place. The sell form also models the browser's constraint validation (`required`, `min`, `step`), which decides whether a press of the submit button reaches `handleSubmit`.

Shared modules:
- `AccountTypes`: the account, sale status, version and file records.
- `Text`: decimal digits, vi-VN thousands grouping, ASCII lowercase, substring search, JavaScript whitespace and `trim`, `split` and `join`.

## Model

| member | source | states |
|---|---|---|
| PriceSuggestor.GetSuggestedPrice | src/components/priceSuggestor.ts:1-49 | the accumulated price equals the specification function; it is a multiple of 1000 and at least 500,000 when speed-ups are non-negative |
| PriceSuggestor.VipTable | src/components/priceSuggestor.ts:12-18 | with nothing else the price is 60M, 30M, 10M, 5M, 3M or 1M at VIP 20, 19, 18, 17, 16 or 15 and up, and 500,000 below 15 |
| PriceSuggestor.SpeedContribution | src/components/priceSuggestor.ts:20-24 | speed-ups add speed × 1000 × m, with m = 3 at VIP 20 and up, 2 at VIP 18-19 and 1 otherwise |
| PriceSuggestor.RoundingIsExact | src/components/priceSuggestor.ts:20-48 | every term is a multiple of 1000, so the final rounding is the identity and the price is the fixed part plus the speed part |
| PriceSuggestor.FloorPrice | src/components/priceSuggestor.ts:12-47 | below every threshold, with no speed-ups and no key rally, the price is exactly 500,000 |
| PriceSuggestor.FixedPartBounds | src/components/priceSuggestor.ts:12-47 | the part fixed by tier and inventory lies between 500,000 and 110,000,000 |
| PriceSuggestor.PriceBounds | src/components/priceSuggestor.ts:12-48 | with non-negative speed-ups the price is at least 500,000; without speed-ups it is at most 110,000,000 |
| PriceSuggestor.Monotone | src/components/priceSuggestor.ts:12-48 | raising VIP level, speed-ups, equipment, talent or tickets, or setting the key-rally flag, never lowers the price |
| PriceSuggestor.SecondTalentBonus | src/components/priceSuggestor.ts:32-41 | with fewer than 40 tickets and 30 talent, a second bonus of 2M at VIP 18 and up, 1M below, comes on top of the 10M talent bonus |
| PriceSuggestor.TicketBonusIgnoresTalent | src/components/priceSuggestor.ts:37-41 | with 40 tickets or more the ticket bonus does not depend on talent |
| PriceSuggestor.KeyRallyBelow17 | src/components/priceSuggestor.ts:42-47 | below VIP 17 the key-rally flag changes nothing |
| Common.ConvertToShortText | src/helper/common.ts:1-13 | the text always ends in "tr" |
| Common.NotANumberIsZero | src/helper/common.ts:2-4 | NaN, the empty string and a lone "-" all give "0tr" |
| Common.LetterIsZero | src/helper/common.ts:2-4 | a string starting with a lowercase ASCII letter parses as NaN and gives "0tr" (not every letter: "Infinity" parses as a number) |
| Common.LeadingSpaceSkipped | src/helper/common.ts:2 | `parseFloat` skips leading whitespace before a run of digits and reads its value |
| Common.ParseDigits | src/helper/common.ts:2 | `parseFloat` of a digit string is NaN exactly for the empty string and otherwise its decimal value |
| Common.ParseFixed2 | src/helper/common.ts:2 | reading back the `toFixed(2)` text of an integer, negatives included, gives that integer |
| Common.Fixed2TextAgrees | src/helper/common.ts:1-13 | the `toFixed(2)` string passed by the card and detail pages gives the same text as the number itself |
| Common.WholeMillions | src/helper/common.ts:6-9 | a whole number of millions prints its quotient with no decimal point |
| Common.OneDecimal | src/helper/common.ts:8-10 | any other integer amount prints its sign, the nearest tenth of a million (a half rounds away from zero) with exactly one digit after the point, then "tr" |
| Common.WholeExamples | src/helper/common.ts:6-9 | 60,000,000 gives "60tr" and 0 gives "0tr" |
| Common.TenthExample | src/helper/common.ts:10 | 1,500,000 gives "1.5tr" |
| Common.RoundedTenthExample | src/helper/common.ts:8-10 | 5,000,001 is not whole yet prints ".0": "5.0tr" |
| Common.RoundedUpExample | src/helper/common.ts:8-10 | 999,999 rounds up to "1.0tr" |
| NegotiationStore.Matches | src/app/api/negotiate/route.ts:39-45 | the existence query returns, in store order, exactly the stored negotiations on the given (listing, buyer) pair: none is left out and none is invented |
| NegotiationStore.Backend.Negotiate | src/app/api/negotiate/route.ts:30-101 | the route changes the store exactly as the open-or-resume transition says and returns its reply |
| NegotiationStore.NegotiateNeedsSession | src/app/api/negotiate/route.ts:32-35 | the reply is 401 exactly without a session user id, and then the store is unchanged |
| NegotiationStore.NegotiateKeepsExisting | src/app/api/negotiate/route.ts:39-91 | existing negotiations and messages are never altered or removed, and the owners stay the same |
| NegotiationStore.NegotiateResumes | src/app/api/negotiate/route.ts:39-49 | with any negotiation on the pair, whatever its status, nothing is created and the offer attaches to the first match, whose status and price are kept |
| NegotiationStore.NegotiateCreates | src/app/api/negotiate/route.ts:50-72 | otherwise exactly one negotiation is created: "pending", the price as given (0 included), the given contact, the fresh id, and the offer points to it |
| NegotiationStore.NegotiateAppendsOneOffer | src/app/api/negotiate/route.ts:75-91 | a successful call appends exactly one "offer" message, from the caller, with the body's content and price, on a negotiation of that pair |
| NegotiationStore.NegotiateNoRollback | src/app/api/negotiate/route.ts:50-99 | if the message creation fails after a creation, the reply is 500 and the new negotiation stays, with no message |
| NegotiationStore.NegotiatePreservesValid | src/app/api/negotiate/route.ts:50-72 | ids stay positive, unique and below the counter |
| NegotiationStore.NegotiatePreservesPairs | src/app/api/negotiate/route.ts:39-72 | served sequentially, opening never makes a second negotiation on a pair |
| NegotiationStore.NegotiateTwice | src/app/api/negotiate/route.ts:39-91 | two offers on the same pair, one after the other, leave exactly one negotiation on it: the second creates nothing and its message points at the same record as the first |
| NegotiationStore.Backend.SellerResponse | src/app/api/negotiate/seller-response/route.ts:6-42 | the route changes the store exactly as the seller-response transition says |
| NegotiationStore.SellerResponseOnlyAppends | src/app/api/negotiate/seller-response/route.ts:8-32 | no negotiation ever changes, "accept" and "reject" included; with a session, any caller appends exactly the given message; otherwise the store is unchanged |
| NegotiationStore.Backend.Update | src/components/NegotiationModal.tsx:58-66 | the PUT changes the store exactly as the update transition says and reports success |
| NegotiationStore.UpdateChangesOnlyTarget | src/components/NegotiationModal.tsx:58-66 | on success exactly the record with that id gets the status and the seller note; every other record and field is kept; it fails for an unknown id |
| NegotiationStore.UpdatePreserves | src/components/NegotiationModal.tsx:58-66 | an update keeps the ids valid and at most one negotiation per pair |
| NegotiationStore.RunPreservesPairs | src/app/api/negotiate/route.ts:39-72 | any sequence of opens, seller responses and updates keeps ids valid and at most one negotiation per pair |
| NegotiationStore.OnlyUpdatesChangeStatus | src/app/api/negotiate/seller-response/route.ts:13-32 | a run without updates leaves every existing negotiation exactly as it was |
| NegotiationQueries.RoleDefaultsToBuyer | src/app/api/negotiations/all/route.ts:13 | a missing role, an empty role and "buyer" give the same reply, whatever the backend does |
| NegotiationQueries.ListByRoleSelects | src/app/api/negotiations/all/route.ts:7-30 | 401 without a token, whatever the backend would do; when the backend serves the query, the store's negotiations in order, exactly those on the caller's listings for the role "seller" and exactly the caller's own for any other role |
| NegotiationQueries.ListByRoleFailures | src/app/api/negotiations/all/route.ts:20-30 | a backend error body is passed back unchanged with status 200, since the reply's status is never checked; a fetch or JSON failure is an unhandled 500 |
| NegotiationQueries.ListByListingGuards | src/app/api/negotiations/route.ts:6-15 | 401 comes before 400, and neither depends on the backend; a missing or empty listing id gives 400; a served query lists exactly with a token and a non-empty id |
| NegotiationQueries.ListByListingFailures | src/app/api/negotiations/route.ts:17-27 | past the guards, a backend error body is passed back unchanged with status 200, and a fetch or JSON failure is an unhandled error |
| NegotiationQueries.ListByListingOfId | src/app/api/negotiations/route.ts:17-27 | a served query returns every negotiation on that listing, in store order, whoever the buyer or the caller is |
| NegotiationQueries.AccountDataIsWholeMatch | src/lib/account.ts:15-35 | a failed listings query throws; a returned `data` is the whole ordered list of listings with that document id |
| NegotiationQueries.NoFlagWithoutUserOrListing | src/lib/account.ts:12-35 | without a user, or without a matching listing, no negotiation query is made: the call returns, with the flag false, even when that query would fail |
| NegotiationQueries.FlagMeansPairExists | src/lib/account.ts:24-30 | otherwise the negotiation query is made: the call throws exactly when it fails, and a returned flag holds exactly when a negotiation exists on (first listing, user), whatever its status |
| NegotiationsPage.InitialSelectionCases | src/app/negotiations/page.tsx:56-60 | the first buyer negotiation, else the first seller negotiation when its id is truthy, else none |
| NegotiationsPage.IsBuyerIff | src/app/negotiations/page.tsx:68-72 | isBuyer holds exactly when the selected id occurs in the buyer list |
| NegotiationsPage.SelectedPrefersBuyer | src/app/negotiations/page.tsx:74-87 | the selected negotiation is the first with that id in the buyer list and then the seller list |
| NegotiationsPage.LastOfferIsLastPriced | src/app/negotiations/page.tsx:88-90 | the last offer is the last message in array order whose price is defined (null counts); it is absent when none is |
| NegotiationsPage.LastOfferIgnoresTime | src/app/negotiations/page.tsx:88-90 | an older offer placed later wins over a newer one, and a null price counts as an offer |
| NegotiationsPage.SortByTimeCorrect | src/app/negotiations/page.tsx:154-159 | the thread is sorted by time, a permutation of the messages, and keeps equal times in their original order |
| NegotiationsPage.PanelFooter | src/app/negotiations/page.tsx:154-236 | the footer depends on isBuyer alone, and the thread is the sorted permutation of the selected messages |
| NegotiationsPage.PriceTextFacts | src/app/negotiations/page.tsx:76-80 | only digits count, no digits shows "0", a number's text shows grouped, and formatting again changes nothing |
| NegotiationsPage.SignedOutPageCrashes | src/app/negotiations/page.tsx:44-74 | a signed-out visitor gets the route's 401 on both fetches, whatever the backend holds, so both stored lists are missing and the render throws |
| NegotiationsPage.LoadOutcomes | src/app/negotiations/page.tsx:44-74 | a backend error body on either fetch crashes the page unless the other fetch is rejected; a 500 is a rejection |
| NegotiationsPage.ServedFetchLoads | src/app/negotiations/page.tsx:47-55 | a served fetch gives the page a list, one entry per listed record with its id, each one of the caller's negotiations for that role |
| NegotiationsPage.Page.Load | src/app/negotiations/page.tsx:44-74 | a rejected fetch or body leaves the page as it was; otherwise both lists are stored as they came and the selection is made from the lists it can read; the page renders, with isBuyer following the selection, exactly when both replies carried a list |
| NegotiationsPage.Page.Select | src/app/negotiations/page.tsx:68-72 | on a page that renders, selecting an entry sets the id and keeps isBuyer in step with it |
| NegotiationsPage.Page.HandleChange | src/app/negotiations/page.tsx:76-80 | the price field becomes the formatted text of the input; nothing else changes |
| NegotiationModal.StatusLabelFacts | src/components/NegotiationModal.tsx:46-97 | an unknown status, e.g. "countered", shows as is; each of the four known ones shows a fixed label that is none of the raw names |
| NegotiationModal.StatusLabelsDistinct | src/components/NegotiationModal.tsx:46-51 | distinct known statuses have distinct labels |
| NegotiationModal.ButtonsIssueDecisions | src/components/NegotiationModal.tsx:99-117 | the buttons issue only "rejected" and "accepted"; the controls appear exactly at waiting_for_seller |
| NegotiationModal.Modal.SetMessage | src/components/NegotiationModal.tsx:101-105 | every card's reply box writes the one shared message |
| NegotiationModal.Modal.HandleAction | src/components/NegotiationModal.tsx:53-72 | the PUT sets exactly the decision and the shared message; the modal closes only when the update succeeds |
| NegotiationModal.Modal.Click | src/components/NegotiationModal.tsx:108-117 | a button click on a card with controls issues that button's decision for that card |
| NegotiatePriceDialog.DisplayFacts | src/components/Account/NegotiatePriceDialog.tsx:21-32 | for a digit-only input the display is empty exactly when the input is, otherwise the grouped value with leading zeros dropped, whose digits read back as the same value |
| NegotiatePriceDialog.DisplayExample | src/components/Account/NegotiatePriceDialog.tsx:21-32 | "0050000" shows as "50.000" |
| NegotiatePriceDialog.ParsePrice | src/components/Account/NegotiatePriceDialog.tsx:41-42 | `parseFloat` of the price is NaN exactly when the field is empty, otherwise its integer value |
| NegotiatePriceDialog.Dialog.HandlePriceChange | src/components/Account/NegotiatePriceDialog.tsx:34-38 | the stored price holds only the input's digits, and the display follows it |
| NegotiatePriceDialog.Dialog.SetMessage | src/components/Account/NegotiatePriceDialog.tsx:107 | the message field is set; nothing else changes |
| NegotiatePriceDialog.Dialog.SetPhone | src/components/Account/NegotiatePriceDialog.tsx:95 | the phone field is set; nothing else changes |
| NegotiatePriceDialog.Dialog.HandleSubmit | src/components/Account/NegotiatePriceDialog.tsx:40-55 | no price: no call and no change; otherwise the call gets the integer value (0 included), the message and the phone (empty included); success clears all four fields and requests close; a rejection changes nothing |
| HomePage.FilteredFacts | src/components/HomePage/HomePage.tsx:76-92 | the shown accounts keep their order and are exactly those that pass the search, VIP and house tests |
| HomePage.ClearedKeepsAll | src/components/HomePage/HomePage.tsx:70-92 | with the filters cleared every account is shown |
| HomePage.NoThemesNeverPasses | src/components/HomePage/HomePage.tsx:85-89 | with some house selected, an account without city themes never passes |
| HomePage.ThemeListFacts | src/components/HomePage/HomePage.tsx:198-203 | the house list keeps order and holds exactly the houses whose name contains the term, ignoring case |
| HomePage.Home.constructor | src/components/HomePage/HomePage.tsx:51-54 | the mount effect: `account ?? []` with empty selections |
| HomePage.Home.HandleVipChange | src/components/HomePage/HomePage.tsx:56-60 | the VIP selection is toggled, stays free of duplicates, and nothing else changes |
| HomePage.Home.HandleLegendaryChange | src/components/HomePage/HomePage.tsx:62-68 | the house selection is toggled, stays free of duplicates, and nothing else changes |
| HomePage.Home.SetSearchTerm | src/components/HomePage/HomePage.tsx:158 | the search term is set; nothing else changes |
| HomePage.Home.HandleClearFilters | src/components/HomePage/HomePage.tsx:70-74 | the term and both selections are cleared, and every account is shown |
| Seqs.ToggleMembership | src/components/HomePage/HomePage.tsx:56-68 | toggling flips the membership of the toggled value, and no other value changes |
| Seqs.ToggleOrder | src/components/HomePage/HomePage.tsx:56-68 | removal keeps the others in order; an absent value is appended at the end |
| Seqs.ToggleNoDuplicates | src/components/HomePage/HomePage.tsx:56-68 | a selection without duplicates stays without duplicates |
| Seqs.ToggleTwice | src/components/HomePage/HomePage.tsx:56-68 | toggling twice restores an absent value's list exactly, moves a present value to the end, and always restores the member set |
| Seqs.ToggleTwiceLast | src/components/HomePage/HomePage.tsx:56-68 | toggling the last member twice restores the list exactly |
| CatalogSearch.EmptyTermMatches | src/app/page.tsx:103-107 | the empty term matches every account |
| CatalogSearch.CaseInsensitive | src/app/page.tsx:104-106 | a term and its lowercase form match the same accounts |
| CatalogSearch.SearchResultsFacts | src/app/page.tsx:102-108 | the results keep order, are exactly the matching accounts, are everything for "", and do not depend on the term's case |
| SearchPage.Search.constructor | src/app/page.tsx:80 | the term starts empty and the whole list is shown |
| SearchPage.Search.SetSearchTerm | src/app/page.tsx:161 | the term is set |
| SearchPage.Search.Clear | src/app/page.tsx:178 | the clear button empties the term and the full list is shown |
| VipFilter.ButtonTextCases | src/components/VipFilter.tsx:21-27 | no selection gives "Chọn VIP"; a single 20 gives "SVIP"; a single n gives "VIP n" |
| VipFilter.ButtonTextCounts | src/components/VipFilter.tsx:29 | two or more give "<count> VIPs selected", whatever the values |
| VipFilter.CheckboxesFacts | src/components/VipFilter.tsx:18-61 | the rows are levels 20 down to 15 in order, each checked exactly when selected, with the SVIP label on 20 |
| AccountCard.StatusLabelFacts | src/components/AccountCard.tsx:12-29 | the guard holds exactly for the three sale statuses, which get their labels; any other string is "Không xác định" |
| AccountCard.VersionLabelsDistinct | src/components/AccountCard.tsx:31-35 | the three versions have distinct labels |
| AccountCard.VipBadgeFacts | src/components/AccountCard.tsx:63-78 | VIP 20 shows the SVIP badge; any other level shows "VIP n"; fire exactly at 18 and up except 20 |
| AccountDetails.NoCommanderNoLines | src/components/Account/AccountDetails.tsx:33 | a missing or empty commander gives no lines |
| AccountDetails.CommanderLinesFacts | src/components/Account/AccountDetails.tsx:33-36 | the lines are exactly the non-empty trimmed segments, in segment order; each is trimmed and free of "\|", and there is at most one more line than "\|" characters |
| AccountDetails.SingleCommander | src/components/Account/AccountDetails.tsx:33-36 | a non-blank commander without "\|" gives one line: itself, trimmed |
| AccountDetails.DetailVipValueFacts | src/components/Account/AccountDetails.tsx:96-113 | SVIP for 20, "n 🔥" for any other level from 17 up, nothing below 17 |
| Text.TrimIsCore | src/components/Account/AccountDetails.tsx:35 | `trim` removes exactly the leading and trailing whitespace and keeps the middle |
| ImageManager.AddedFacts | src/components/ImageManagerModal.tsx:22-27 | no file list changes nothing; otherwise the old entries stay in place and the new files follow in order |
| ImageManager.WithoutIndexFacts | src/components/ImageManagerModal.tsx:29-31 | a valid index drops exactly that entry and keeps the others in order; any other index changes nothing |
| ImageManager.WithoutIndexLength | src/components/ImageManagerModal.tsx:29-31 | a valid removal shortens the list by one |
| ImageManager.RemoveUndoesAdd | src/components/ImageManagerModal.tsx:22-31 | removing the tile of a file just added restores the list |
| ImageManager.Manager.constructor | src/components/ImageManagerModal.tsx:20 | the local list starts as the given images |
| ImageManager.Manager.AddFiles | src/components/ImageManagerModal.tsx:22-27 | the list becomes the old list with the files added |
| ImageManager.Manager.Remove | src/components/ImageManagerModal.tsx:29-31 | the list becomes the old list without that index |
| ImageManager.Manager.Save | src/components/ImageManagerModal.tsx:33-36 | exactly the current list is handed out, then the dialog closes |
| ImageManager.Manager.Cancel | src/components/ImageManagerModal.tsx:46-89 | the X and cancel buttons close without handing anything out |
| SellAccountForm.ChangeTouchesOnlyNamed | src/components/SellAccountForm.tsx:67-82 | a change writes exactly the named field; every other field is kept |
| SellAccountForm.StoredValueByKind | src/components/SellAccountForm.tsx:67-82 | a checkbox stores its checked state, a text or select input its raw string, a number input a number, each exactly for its kind |
| SellAccountForm.NumberOfDigits | src/components/SellAccountForm.tsx:77-78 | a number input holding digits stores their value |
| SellAccountForm.NumberOfNonNumbers | src/components/SellAccountForm.tsx:77-78 | an empty box, "-" or a leading letter stores 0 |
| SellAccountForm.TypedZero | src/components/SellAccountForm.tsx:131-172 | typing "0" in a number field blanks the box, while "kills", a text input, keeps showing "0" |
| SellAccountForm.ShownAfterNumber | src/components/SellAccountForm.tsx:131-283 | after a digit entry a positive value shows that number and 0 shows an empty box |
| SellAccountForm.ResourcesBecomesNumber | src/components/SellAccountForm.tsx:267-273 | "resources" starts as a string, holds a number after a change, and its input has no controlled value |
| SellAccountForm.InitialShown | src/components/SellAccountForm.tsx:24-42 | a fresh form shows empty boxes for the zero-hiding fields, "global" for the version and an unchecked key rally |
| SellAccountForm.Form.constructor | src/components/SellAccountForm.tsx:63-66 | the record starts as the initial data, with no files |
| SellAccountForm.Form.HandleChange | src/components/SellAccountForm.tsx:67-82 | the record becomes the old record with the event's field written |
| SellAccountForm.Form.HandleFileChange | src/components/SellAccountForm.tsx:84-88 | no file list keeps the last selection; any list, an empty one included, replaces it |
| SellAccountForm.FreshFormBlocked | src/components/SellAccountForm.tsx:113-164 | the fresh form, and so the form right after a submit, cannot be submitted: its title, price and VIP boxes are empty |
| SellAccountForm.SubmittableNeeds | src/components/SellAccountForm.tsx:113-164 | a submittable record has a non-empty title, a price above 0 that is a multiple of 100000, and a VIP level other than 0 |
| SellAccountForm.OffStepPriceBlocks | src/components/SellAccountForm.tsx:127-137 | a price off the 100000 step (150000, say) blocks the submit, whatever else was entered |
| SellAccountForm.NegativeCountBlocks | src/components/SellAccountForm.tsx:130-287 | a negative value in any box with `min="0"` blocks the submit |
| SellAccountForm.FilledFormSubmits | src/components/SellAccountForm.tsx:113-287 | the fresh form with a title, a price of 200000 and VIP 5 passes every constraint |
| SellAccountForm.Form.HandleSubmit | src/components/SellAccountForm.tsx:90-100 | the record and the file list are logged as they were, then the record is reset to the initial data, the files go to null, and close is requested |
| SellAccountForm.Form.PressSubmit | src/components/SellAccountForm.tsx:113-343 | a press of the submit button runs handleSubmit exactly when every constraint holds; otherwise nothing is logged and the record, files and dialog are unchanged |

## Left out

- **I/O.** Network calls, JSON decoding, sessions, tokens and browser storage are not modelled. Faults become parameters: `Fault`, `Fetched`, `LookupFault`, `PageReply`, `fails`, and the dialog's `rejects`. An error body is carried as an opaque string; its JSON shape is not modelled. The session and token become an `Option` of the user id.
- **Concurrency.** Only sequential runs are modelled. Two concurrent POST `/api/negotiate` calls can both see no negotiation and both create one.
- **Backend-side details.** The Strapi `populate` fields and paging are not modelled, and neither is its coercion of a non-numeric `accountId` parameter. The listing query compares decimal texts.
- **Relation validation.** The backend may refuse a seller response whose `negotiationId` names no record. The model appends the message whatever the id.
- **`statusMapping` prototype keys.** JavaScript would also map inherited keys such as "constructor". The model maps only the four statuses.
- **`parseFloat` input forms.** Exponents ("1e6") and "Infinity" are not modelled; such texts read only their leading digits. Amounts are exact rationals, not binary doubles.
- Common.OneDecimal: rounds ties half away from zero on the exact rational. `toFixed(1)` can round differently on binary doubles.
- **Number precision.** Precision loss of `Number()` on very long digit strings is not modelled.
- **Lowercase.** `toLowerCase` is modelled on ASCII letters only; other letters are left as they are.
- **Dates.** `new Date(createdAt).getTime()` is modelled as an integer timestamp carried on each message.
- **No-op page buttons.** The accept, reject and counter buttons and forms of the negotiations page do nothing in the source (src/app/negotiations/page.tsx:203, 240, 254-267). They are not modelled.
- NegotiationsPage.IsSelf: is stated as a predicate, sender id equal to the current user id. There is no further property to prove about it.
- **Negotiation entries.** A page entry carries the record's id. Its status text and thread are given with it; how Strapi's `populate` assembles them is not modelled.
- **Negotiations page crash.** A render that throws is modelled as the state `Crashed()`: a stored list is missing. What React and Next.js show then is not modelled, and neither is the `console.error` of the caught load error.
- **`handleNegotiate` in AccountDetails.** It is storage and fetch I/O.
- **SellAccountForm logging.** The `console.log` calls are the values `HandleSubmit` returns. The `alert` and the unused `value` state are not modelled.
- **SellAccountForm validation.** The browser's bad-input state (text it cannot read as a number) and its validation messages are not modelled. The uncontrolled "resources" box is checked on the number last stored for it. Its shown text also survives the reset, and the model does not capture that text.
- **File contents.** File contents and object URLs are not modelled. A file is a name and a size.
- **Presentation.** Markup, styles, dialogs' open state, loading flags and the quick-view modal are not modelled.
