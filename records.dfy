/** The backend records the console shows, reduced to the fields its handlers
    read or write. Every record is a snapshot owned by the backend. */
module Records {
  import opened Wrappers

  /** The signed-in administrator returned by login and by the profile request. */
  datatype AdminUser = AdminUser(id: string, firstName: string, lastName: string, email: string, role: string)

  datatype AccountStatus = Active | Blocked

  /** A row of the users table. `depositAmountText` is the JavaScript rendering
      of the numeric `depositAmount`, which is what the balance dialog shows. */
  datatype User = User(
    id: string,
    email: string,
    status: AccountStatus,
    depositAmountText: string,
    trcAddress: Option<string>)

  /** The two ledgers an administrator reviews: deposits and withdrawals. */
  datatype Ledger = Deposits | Withdrawals

  datatype ReviewStatus = Pending | Approved | Rejected

  /** A deposit or withdrawal request awaiting or past review. */
  datatype Review = Review(id: string, userId: string, status: ReviewStatus, adminNotes: string)

  /** The `type` of a notification. */
  datatype Topic = Deposit | Withdrawal | Profit | General

  datatype ReadStatus = Read | Unread

  datatype Notification = Notification(
    id: string,
    userId: Option<string>,
    message: string,
    topic: Topic,
    status: ReadStatus)

  /** An account awaiting approval. */
  datatype PendingUser = PendingUser(id: string, email: string, depositAmountText: string)

  /** The wire name of a notification type. */
  function TopicName(t: Topic): string {
    match t
    case Deposit => "deposit"
    case Withdrawal => "withdrawal"
    case Profit => "profit"
    case General => "general"
  }

  /** Reads a wire name back, as the notification menu's `type` comparisons do;
      any other string is not a notification type. */
  function TopicOf(name: string): (t: Option<Topic>)
    ensures t.Some? ==> TopicName(t.value) == name
  {
    if name == "deposit" then Some(Deposit)
    else if name == "withdrawal" then Some(Withdrawal)
    else if name == "profit" then Some(Profit)
    else if name == "general" then Some(General)
    else None
  }

  /** Every type survives the trip to its wire name and back, so the four names
      are distinct. */
  lemma TopicNameRoundTrip(t: Topic)
    ensures TopicOf(TopicName(t)) == Some(t)
  {
  }
}
