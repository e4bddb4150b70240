/**
 * The app store (`AppProvider`): five state cells and eight mutators. Each
 * mutator computes the new value of one cell with a function of `Updates`,
 * replaces the cell, and writes the same value, stringified, under that
 * cell's storage key. The store starts from the built-in data and never
 * reads the device storage.
 */
module AppStore {
  import opened Wrappers
  import opened Sequences
  import opened Entities
  import opened Updates
  import opened Storage

  const ItemsKey := "borrowItems"
  const TransactionsKey := "transactions"
  const ProfileKey := "userProfile"
  const FavoritesKey := "favoriteItems"
  const HistoryKey := "searchHistory"

  /** The five state cells, read together. */
  datatype Snapshot = Snapshot(
    items: seq<Item>,
    transactions: seq<Transaction>,
    profile: UserProfile,
    favorites: seq<string>,
    history: seq<string>)

  /** What the store holds before any mutator has run. */
  const InitialSnapshot := Snapshot(InitialItems, InitialTransactions, InitialUser, InitialFavorites, [])

  /** The invariants every mutator keeps: no duplicate favourites; a short, duplicate-free history. */
  predicate Wellformed(s: Snapshot) {
    NoDup(s.favorites) && |s.history| <= MaxHistory && NoDup(s.history)
  }

  lemma InitialWellformed()
    ensures Wellformed(InitialSnapshot)
  {
  }

  class AppProvider {
    var borrowItems: seq<Item>
    var transactions: seq<Transaction>
    var userProfile: UserProfile
    var favoriteItems: seq<string>
    var searchHistory: seq<string>
    const storage: DeviceStorage

    function State(): Snapshot
      reads this
    {
      Snapshot(borrowItems, transactions, userProfile, favoriteItems, searchHistory)
    }

    ghost predicate Valid()
      reads this
    {
      Wellformed(State())
    }

    /** The provider mounts with the built-in data and leaves the storage alone. */
    constructor (storage: DeviceStorage)
      ensures Valid()
      ensures State() == InitialSnapshot
      ensures this.storage == storage
    {
      borrowItems := InitialItems;
      transactions := InitialTransactions;
      userProfile := InitialUser;
      favoriteItems := InitialFavorites;
      searchHistory := [];
      this.storage := storage;
    }

    /** `saveToStorage(key, value)`: a failed write is swallowed and leaves the storage as it was. */
    method SaveToStorage(key: string, value: Value, writeOk: bool)
      modifies storage
      ensures storage.entries == AfterSet(old(storage.entries), key, Stringify(value), writeOk)
    {
      storage.SetItem(key, Stringify(value), writeOk);
    }

    /** `addBorrowItem(item)`: append the item; write the new list under "borrowItems". */
    method AddBorrowItem(item: Item, writeOk: bool)
      requires Valid()
      modifies this, storage
      ensures Valid()
      ensures State() == old(State()).(items := old(borrowItems) + [item])
      ensures storage.entries == AfterSet(old(storage.entries), ItemsKey, Stringify(ItemList(borrowItems)), writeOk)
    {
      var updated := borrowItems + [item];
      borrowItems := updated;
      SaveToStorage(ItemsKey, ItemList(updated), writeOk);
    }

    /** `updateItemStatus(id, status)`: set the status of every item with that id. */
    method UpdateItemStatus(id: string, status: ItemStatus, writeOk: bool)
      requires Valid()
      modifies this, storage
      ensures Valid()
      ensures State() == old(State()).(items := WithStatus(old(borrowItems), id, status))
      ensures storage.entries == AfterSet(old(storage.entries), ItemsKey, Stringify(ItemList(borrowItems)), writeOk)
    {
      var updated := WithStatus(borrowItems, id, status);
      borrowItems := updated;
      SaveToStorage(ItemsKey, ItemList(updated), writeOk);
    }

    /** `addTransaction(t)`: append the transaction; write the new list under "transactions". */
    method AddTransaction(t: Transaction, writeOk: bool)
      requires Valid()
      modifies this, storage
      ensures Valid()
      ensures State() == old(State()).(transactions := old(transactions) + [t])
      ensures storage.entries ==
                AfterSet(old(storage.entries), TransactionsKey, Stringify(TransactionList(transactions)), writeOk)
    {
      var updated := transactions + [t];
      transactions := updated;
      SaveToStorage(TransactionsKey, TransactionList(updated), writeOk);
    }

    /** `updateUserProfile(patch)`: merge the patch field by field. */
    method UpdateUserProfile(patch: ProfilePatch, writeOk: bool)
      requires Valid()
      modifies this, storage
      ensures Valid()
      ensures State() == old(State()).(profile := Merged(old(userProfile), patch))
      ensures storage.entries == AfterSet(old(storage.entries), ProfileKey, Stringify(Profile(userProfile)), writeOk)
    {
      var updated := Merged(userProfile, patch);
      userProfile := updated;
      SaveToStorage(ProfileKey, Profile(updated), writeOk);
    }

    /** `addCredits(amount)`: add the (possibly negative) amount to the balance. */
    method AddCredits(amount: int, writeOk: bool)
      requires Valid()
      modifies this, storage
      ensures Valid()
      ensures State() == old(State()).(profile := Credited(old(userProfile), amount))
      ensures userProfile == Merged(old(userProfile), EmptyPatch.(credits := Some(old(userProfile).credits + amount)))
      ensures storage.entries == AfterSet(old(storage.entries), ProfileKey, Stringify(Profile(userProfile)), writeOk)
    {
      var updated := Credited(userProfile, amount);
      CreditedIsMerge(userProfile, amount);
      userProfile := updated;
      SaveToStorage(ProfileKey, Profile(updated), writeOk);
    }

    /** `toggleFavorite(id)`: remove the id if it is a favourite, append it otherwise. */
    method ToggleFavorite(id: string, writeOk: bool)
      requires Valid()
      modifies this, storage
      ensures Valid()
      ensures State() == old(State()).(favorites := Toggled(old(favoriteItems), id))
      ensures id in favoriteItems <==> id !in old(favoriteItems)
      ensures storage.entries == AfterSet(old(storage.entries), FavoritesKey, Stringify(StringList(favoriteItems)), writeOk)
    {
      var updated := Toggled(favoriteItems, id);
      favoriteItems := updated;
      SaveToStorage(FavoritesKey, StringList(updated), writeOk);
    }

    /** `addSearchHistory(query)`: nothing happens for a blank query, not even a write. */
    method AddSearchHistory(query: string, writeOk: bool)
      requires Valid()
      modifies this, storage
      ensures Valid()
      ensures State() == old(State()).(history := Pushed(old(searchHistory), query))
      ensures !Strings.IsBlank(query) ==> searchHistory[0] == query
      ensures storage.entries ==
                if Strings.IsBlank(query) then old(storage.entries)
                else AfterSet(old(storage.entries), HistoryKey, Stringify(StringList(searchHistory)), writeOk)
    {
      var trimmed := Strings.Trim(query);
      Strings.TrimEmptyIffBlank(query);
      if trimmed != [] {
        var updated := Pushed(searchHistory, query);
        assert updated[0] == query && Wellformed(State().(history := updated));
        searchHistory := updated;
        SaveToStorage(HistoryKey, StringList(updated), writeOk);
      } else {
        assert Pushed(searchHistory, query) == searchHistory;
      }
    }

    /** `clearSearchHistory()`: empty the history and write the empty list. */
    method ClearSearchHistory(writeOk: bool)
      requires Valid()
      modifies this, storage
      ensures Valid()
      ensures State() == old(State()).(history := [])
      ensures storage.entries == AfterSet(old(storage.entries), HistoryKey, Stringify(StringList([])), writeOk)
    {
      searchHistory := [];
      SaveToStorage(HistoryKey, StringList([]), writeOk);
    }
  }

  /**
   * From a freshly mounted store: making item "3" available keeps its owner
   * and price, and the stored "borrowItems" text parses back to the list in
   * memory.
   */
  method CalculatorScenario(storage: DeviceStorage) returns (app: AppProvider)
    modifies storage
    ensures |app.borrowItems| == 6
    ensures app.borrowItems[2].id == "3" && app.borrowItems[2].status == Available
    ensures app.borrowItems[2].owner == "Mike Johnson" && app.borrowItems[2].price == 15
    ensures ItemsKey in storage.entries && Parse(storage.entries[ItemsKey]) == Some(ItemList(app.borrowItems))
  {
    app := new AppProvider(storage);
    app.UpdateItemStatus("3", Available, true);
    MakeCalculatorAvailable();
  }
}
