/**
 * The records the two stores hold (`BorrowItem`, `Transaction`,
 * `UserProfile`, `AuthUser`) and the built-in data the app store starts from.
 *
 * Numbers: prices, credits and counters are integers (the app only ever
 * stores whole numbers in them); a rating is kept as tenths of a star, since
 * no operation of the core computes with it.
 */
module Entities {
  import opened Wrappers

  datatype ItemStatus = Available | Pending | Borrowed

  datatype Item = Item(
    id: string,
    title: string,
    price: int,
    category: string,
    status: ItemStatus,
    image: string,
    ratingTenths: int,
    owner: string,
    description: Option<string>)

  /** The transaction's `type` field. */
  datatype TransactionKind = Borrow | Lend

  datatype TransactionStatus = Pending | Active | Completed | Overdue

  datatype Transaction = Transaction(
    id: string,
    kind: TransactionKind,
    itemName: string,
    otherUser: string,
    price: int,
    startDate: string,
    endDate: string,
    status: TransactionStatus,
    image: string)

  datatype UserProfile = UserProfile(
    name: string,
    course: string,
    yearLevel: string,
    email: string,
    phone: string,
    ratingTenths: int,
    credits: int,
    itemsBorrowed: int,
    itemsLent: int,
    memberSince: string)

  /** `Partial<UserProfile>`: every field may be absent. */
  datatype ProfilePatch = ProfilePatch(
    name: Option<string>,
    course: Option<string>,
    yearLevel: Option<string>,
    email: Option<string>,
    phone: Option<string>,
    ratingTenths: Option<int>,
    credits: Option<int>,
    itemsBorrowed: Option<int>,
    itemsLent: Option<int>,
    memberSince: Option<string>)

  const EmptyPatch := ProfilePatch(None, None, None, None, None, None, None, None, None, None)

  /** The signed-in identity held by the session store. */
  datatype AuthUser = AuthUser(id: string, email: string, name: string, course: string)

  /** The string a transaction status is compared against on the transactions screen. */
  function StatusName(s: TransactionStatus): string {
    match s
    case Pending => "pending"
    case Active => "active"
    case Completed => "completed"
    case Overdue => "overdue"
  }

  const InitialItems: seq<Item> := [
    Item("1", "Laptop - Dell XPS 13", 50, "Electronics", Available, "\U{1F4BB}", 48, "John Doe",
         Some("High-performance laptop, great for coding")),
    Item("2", "Textbook - Physics 101", 10, "Books", Available, "\U{1F4DA}", 45, "Jane Smith",
         Some("Latest edition physics textbook")),
    Item("3", "Scientific Calculator", 15, "Electronics", ItemStatus.Pending, "\U{1F9EE}", 47, "Mike Johnson",
         Some("For engineering calculations")),
    Item("4", "Project Kit - Arduino", 30, "Electronics", Available, "\U{2699}\U{FE0F}", 49, "Sarah Lee",
         Some("Complete Arduino development kit")),
    Item("5", "Canon EOS Camera", 100, "Electronics", Available, "\U{1F4F7}", 49, "Robert Chen",
         Some("Professional DSLR camera")),
    Item("6", "Sports Bicycle", 80, "Sports", Available, "\U{1F6B4}", 46, "Lisa Rodriguez",
         Some("Mountain bike with accessories"))
  ]

  const InitialTransactions: seq<Transaction> := [
    Transaction("1", Borrow, "Laptop - Dell XPS 13", "John Doe", 50, "2024-01-10", "2024-01-12",
                Active, "\U{1F4BB}"),
    Transaction("2", Lend, "Projector", "Jane Smith", 200, "2024-01-08", "2024-01-09",
                Completed, "\U{1F4FD}\U{FE0F}"),
    Transaction("3", Borrow, "Textbook - Physics 101", "Mike Johnson", 10, "2024-01-05", "2024-01-07",
                Overdue, "\U{1F4DA}")
  ]

  const InitialUser := UserProfile(
    "Juan Dela Cruz", "Computer Science", "3rd Year", "juan.delacruz@ustp.edu.ph",
    "+63 917 123 4567", 48, 2450, 8, 12, "January 2024")

  const InitialFavorites: seq<string> := ["1", "4"]

  /**
   * The built-in data: six items with distinct ids, all available except
   * item "3"; three transactions with distinct ids; a balance of 2450
   * credits; and favourites that name items "1" and "4" of the list.
   */
  lemma InitialDataFacts()
    ensures |InitialItems| == 6 && |InitialTransactions| == 3
    ensures forall i, j :: 0 <= i < j < |InitialItems| ==> InitialItems[i].id != InitialItems[j].id
    ensures forall i :: 0 <= i < |InitialItems| ==> (InitialItems[i].status == Available <==> InitialItems[i].id != "3")
    ensures forall i, j :: 0 <= i < j < |InitialTransactions| ==> InitialTransactions[i].id != InitialTransactions[j].id
    ensures InitialUser.credits == 2450
    ensures InitialFavorites == [InitialItems[0].id, InitialItems[3].id]
  {
  }
}
