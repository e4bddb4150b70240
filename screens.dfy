/**
 * The pure view logic of three screens: the transactions screen's status
 * badge colour and icon and its status filter, and the title-search plus
 * category filter that the home and borrow screens share.
 */
module Screens {
  import opened Sequences
  import opened Strings
  import opened Entities

  // ---------------------------------------------------- transactions screen

  /** The four statuses the badge has a colour and an icon for. */
  predicate IsKnownStatus(status: string) {
    status == "active" || status == "completed" || status == "pending" || status == "overdue"
  }

  const DefaultColor := "#999"
  const DefaultIcon := "\U{2022}"

  /** `getStatusColor(status)`. */
  function StatusColor(status: string): (c: string)
    ensures c == DefaultColor <==> !IsKnownStatus(status)
  {
    match status
    case "active" => "#10B981"
    case "completed" => "#0EA5E9"
    case "pending" => "#FFD700"
    case "overdue" => "#EF4444"
    case _ => DefaultColor
  }

  /** `getStatusIcon(status)`. */
  function StatusIcon(status: string): (c: string)
    ensures c == DefaultIcon <==> !IsKnownStatus(status)
  {
    match status
    case "active" => "\U{25B6}\U{FE0F}"
    case "completed" => "\U{2713}"
    case "pending" => "\U{23F3}"
    case "overdue" => "\U{26A0}\U{FE0F}"
    case _ => DefaultIcon
  }

  /** Different known statuses get different colours and different icons. */
  lemma StatusBadgesDistinct(a: string, b: string)
    requires IsKnownStatus(a) && IsKnownStatus(b) && a != b
    ensures StatusColor(a) != StatusColor(b)
    ensures StatusIcon(a) != StatusIcon(b)
  {
  }

  /** Every status a transaction can carry has its own badge. */
  lemma TransactionStatusesKnown(s: TransactionStatus)
    ensures IsKnownStatus(StatusName(s))
    ensures StatusColor(StatusName(s)) != DefaultColor && StatusIcon(StatusName(s)) != DefaultIcon
  {
  }

  /**
   * `selected === "all" ? txs : txs.filter(t => t.status === selected)`:
   * "all" shows everything; any other choice shows exactly the transactions
   * with that status, in their original order.
   */
  function FilterByStatus(txs: seq<Transaction>, selected: string): (r: seq<Transaction>)
    ensures selected == "all" ==> r == txs
    ensures selected != "all" ==> forall t :: t in r ==> t in txs && StatusName(t.status) == selected
    ensures selected != "all" ==> forall t :: t in txs && StatusName(t.status) == selected ==> t in r
    ensures IsSubsequence(r, txs)
    ensures (forall i :: 0 <= i < |txs| ==> StatusName(txs[i].status) == selected) ==> r == txs
  {
    if selected == "all" then
      assert IsSubsequence(txs, txs) by { SubsequenceReflexive(txs); }
      txs
    else Filter(txs, (t: Transaction) => StatusName(t.status) == selected)
  }

  /** Every copy of a transaction with the chosen status is shown, and no copy of any other. */
  lemma FilterByStatusCounts(txs: seq<Transaction>, selected: string, t: Transaction)
    ensures multiset(FilterByStatus(txs, selected))[t] ==
              if selected == "all" || StatusName(t.status) == selected then multiset(txs)[t] else 0
  {
    if selected != "all" {
      FilterCounts(txs, (t: Transaction) => StatusName(t.status) == selected, t);
    }
  }

  /** Filtering again by the same status changes nothing. */
  lemma FilterByStatusIdempotent(txs: seq<Transaction>, selected: string)
    ensures FilterByStatus(FilterByStatus(txs, selected), selected) == FilterByStatus(txs, selected)
  {
  }

  // ------------------------------------------------ home and borrow screens

  /**
   * The predicate both screens filter with: the lower-cased title contains
   * the lower-cased search text, and the category is "All" or matches. Empty
   * search text with "All" matches every card; a match needs search text no
   * longer than the title.
   */
  predicate MatchesSearch(title: string, category: string, searchText: string, selectedCategory: string)
    ensures searchText == "" && selectedCategory == "All" ==> MatchesSearch(title, category, searchText, selectedCategory)
    ensures MatchesSearch(title, category, searchText, selectedCategory) ==> |searchText| <= |title|
  {
    Contains(Lower(title), Lower(searchText)) && (selectedCategory == "All" || category == selectedCategory)
  }

  /** The search ignores case: lower-casing the search text or the title first changes nothing. */
  lemma SearchIgnoresCase(title: string, category: string, searchText: string, selectedCategory: string)
    ensures MatchesSearch(title, category, Lower(searchText), selectedCategory)
         == MatchesSearch(title, category, searchText, selectedCategory)
    ensures MatchesSearch(Lower(title), category, searchText, selectedCategory)
         == MatchesSearch(title, category, searchText, selectedCategory)
  {
    LowerIdempotent(searchText);
    LowerIdempotent(title);
  }

  /** A card of the home screen. */
  datatype HomeItem = HomeItem(
    id: string, title: string, price: int, category: string, status: string,
    image: string, ratingTenths: int, owner: string)

  /** A card of the borrow screen. */
  datatype Listing = Listing(
    id: string, title: string, category: string, price: int, image: string,
    owner: string, available: int)

  /** The home screen's `filteredItems`. */
  function HomeFiltered(items: seq<HomeItem>, searchText: string, selectedCategory: string): (r: seq<HomeItem>)
    ensures forall it :: it in r ==> it in items && MatchesSearch(it.title, it.category, searchText, selectedCategory)
    ensures forall it :: it in items && MatchesSearch(it.title, it.category, searchText, selectedCategory) ==> it in r
    ensures IsSubsequence(r, items)
    ensures selectedCategory != "All" ==> forall it :: it in r ==> it.category == selectedCategory
    ensures (forall i :: 0 <= i < |items| ==> MatchesSearch(items[i].title, items[i].category, searchText, selectedCategory)) ==>
              r == items
  {
    Filter(items, (it: HomeItem) => MatchesSearch(it.title, it.category, searchText, selectedCategory))
  }

  /** Every copy of a matching card is kept, and no copy of any other. */
  lemma HomeFilteredCounts(items: seq<HomeItem>, searchText: string, selectedCategory: string, it: HomeItem)
    ensures multiset(HomeFiltered(items, searchText, selectedCategory))[it] ==
              if MatchesSearch(it.title, it.category, searchText, selectedCategory) then multiset(items)[it] else 0
  {
    FilterCounts(items, (it: HomeItem) => MatchesSearch(it.title, it.category, searchText, selectedCategory), it);
  }

  /** Empty search text with "All" keeps every card. */
  lemma HomeFilteredKeepsAll(items: seq<HomeItem>)
    ensures HomeFiltered(items, "", "All") == items
  {
  }

  /** Filtering the result again with the same inputs changes nothing. */
  lemma HomeFilteredIdempotent(items: seq<HomeItem>, searchText: string, selectedCategory: string)
    ensures HomeFiltered(HomeFiltered(items, searchText, selectedCategory), searchText, selectedCategory)
         == HomeFiltered(items, searchText, selectedCategory)
  {
  }

  /** The borrow screen's `filteredItems`. */
  function BorrowFiltered(items: seq<Listing>, searchText: string, selectedCategory: string): (r: seq<Listing>)
    ensures forall it :: it in r ==> it in items && MatchesSearch(it.title, it.category, searchText, selectedCategory)
    ensures forall it :: it in items && MatchesSearch(it.title, it.category, searchText, selectedCategory) ==> it in r
    ensures IsSubsequence(r, items)
    ensures selectedCategory != "All" ==> forall it :: it in r ==> it.category == selectedCategory
    ensures (forall i :: 0 <= i < |items| ==> MatchesSearch(items[i].title, items[i].category, searchText, selectedCategory)) ==>
              r == items
  {
    Filter(items, (it: Listing) => MatchesSearch(it.title, it.category, searchText, selectedCategory))
  }

  /** Every copy of a matching listing is kept, and no copy of any other. */
  lemma BorrowFilteredCounts(items: seq<Listing>, searchText: string, selectedCategory: string, it: Listing)
    ensures multiset(BorrowFiltered(items, searchText, selectedCategory))[it] ==
              if MatchesSearch(it.title, it.category, searchText, selectedCategory) then multiset(items)[it] else 0
  {
    FilterCounts(items, (it: Listing) => MatchesSearch(it.title, it.category, searchText, selectedCategory), it);
  }

  /** Empty search text with "All" keeps every listing. */
  lemma BorrowFilteredKeepsAll(items: seq<Listing>)
    ensures BorrowFiltered(items, "", "All") == items
  {
  }

  /** Filtering the result again with the same inputs changes nothing. */
  lemma BorrowFilteredIdempotent(items: seq<Listing>, searchText: string, selectedCategory: string)
    ensures BorrowFiltered(BorrowFiltered(items, searchText, selectedCategory), searchText, selectedCategory)
         == BorrowFiltered(items, searchText, selectedCategory)
  {
  }

  /**
   * The two screens apply the same rule: a home card and a listing with the
   * same title and category are both kept or both dropped, so the two
   * filters keep corresponding positions of corresponding lists.
   */
  lemma {:induction false} ScreensFilterAlike(homes: seq<HomeItem>, listings: seq<Listing>, searchText: string, selectedCategory: string)
    requires |homes| == |listings|
    requires forall i :: 0 <= i < |homes| ==> homes[i].title == listings[i].title && homes[i].category == listings[i].category
    ensures var h, b := HomeFiltered(homes, searchText, selectedCategory), BorrowFiltered(listings, searchText, selectedCategory);
      |h| == |b| && forall i :: 0 <= i < |h| ==> h[i].title == b[i].title && h[i].category == b[i].category
  {
    if homes != [] {
      ScreensFilterAlike(homes[1..], listings[1..], searchText, selectedCategory);
      var hr := HomeFiltered(homes[1..], searchText, selectedCategory);
      var br := BorrowFiltered(listings[1..], searchText, selectedCategory);
      var m := MatchesSearch(homes[0].title, homes[0].category, searchText, selectedCategory);
      assert MatchesSearch(listings[0].title, listings[0].category, searchText, selectedCategory) == m;
      assert HomeFiltered(homes, searchText, selectedCategory) == if m then [homes[0]] + hr else hr;
      assert BorrowFiltered(listings, searchText, selectedCategory) == if m then [listings[0]] + br else br;
    }
  }
}
