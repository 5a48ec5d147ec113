/** The request descriptors of `adminApi` (src/services/api.ts): which HTTP
    method, path, query parameters and JSON body each member sends. Query
    parameters are kept as the ordered list of pairs `URLSearchParams` is built
    from; the percent-encoding of that list is not modelled. */
module Api {
  import opened Wrappers
  import opened Text
  import opened Records

  datatype Method = Get | Post | Put

  /** A JSON body as its members in order. `JSON.stringify` drops members whose
      value is `undefined`, so an absent optional argument is an absent member. */
  datatype Body = NoBody | Json(members: seq<(string, string)>)

  datatype Request = Request(verb: Method, path: string, query: seq<(string, string)>, body: Body)

  datatype Decision = Approve | Reject

  /** A call of one `adminApi` member with its arguments. The last five are
      members the pages call that `adminApi` in api.ts does not define. */
  datatype Call =
    | Login(email: string, password: string)
    | GetDashboardStats
    | GetUsers(page: Option<int>, limit: Option<int>, search: Option<string>)
    | BlockUser(userId: string)
    | UnblockUser(userId: string)
    | ResetUserPassword(userId: string)
    | GetDeposits(page: Option<int>, limit: Option<int>, status: Option<string>)
    | GetWithdrawals(page: Option<int>, limit: Option<int>, status: Option<string>)
    | Decide(ledger: Ledger, decision: Decision, recordId: string, adminNotes: Option<string>)
    | GetNotifications(page: Option<int>, limit: Option<int>)
    | SendNotification(userId: string, message: string, topic: string)
    | MarkNotificationAsRead(notificationId: string)
    | MarkAllNotificationsAsRead
    | GetSettings
    | UpdateWalletAddress(address: string)
    | GetAdminProfile
    | UpdateAdminProfile(data: seq<(string, string)>)
    | AdjustUserBalance(userId: string, newBalance: real, reason: string)
    | UpdateUserTrcAddress(userId: string, trcAddress: string)
    | GetPendingUsers
    | ApproveUser(userId: string, trcAddress: string)
    | RejectUser(userId: string, reason: string)

  // ---------------------------------------------------------------------------
  // Reading a query

  function Keys(q: seq<(string, string)>): seq<string> {
    if q == [] then [] else [q[0].0] + Keys(q[1..])
  }

  /** The first value given for `key`, as `URLSearchParams.get` reads it. */
  function Lookup(q: seq<(string, string)>, key: string): Option<string> {
    if q == [] then None else if q[0].0 == key then Some(q[0].1) else Lookup(q[1..], key)
  }

  // ---------------------------------------------------------------------------
  // Builders

  /** `{ page, limit, ...(extra && { name: extra }) }`: page and limit default
      to 1 and 20, and the extra parameter is present only when it is a
      non-empty string. */
  function ListQuery(page: Option<int>, limit: Option<int>, name: string, extra: Option<string>): (q: seq<(string, string)>)
    requires name != "page" && name != "limit"
    ensures Lookup(q, "page") == Some(IntToString(page.GetOr(1)))
    ensures Lookup(q, "limit") == Some(IntToString(limit.GetOr(20)))
    ensures Lookup(q, name) == if extra.Some? && extra.value != "" then extra else None
    ensures Keys(q) == ["page", "limit"] + (if extra.Some? && extra.value != "" then [name] else [])
  {
    var p, l := IntToString(page.GetOr(1)), IntToString(limit.GetOr(20));
    if extra.Some? && extra.value != "" then
      var q := [("page", p), ("limit", l), (name, extra.value)];
      assert q[1..] == [("limit", l), (name, extra.value)] && q[1..][1..] == [(name, extra.value)];
      assert Lookup(q[1..][1..], name) == extra && Lookup(q[1..], name) == extra;
      assert Keys(q[1..][1..]) == [name] && Keys(q[1..]) == ["limit", name];
      q
    else
      var q := [("page", p), ("limit", l)];
      assert q[1..] == [("limit", l)] && q[1..][1..] == [];
      assert Lookup(q[1..], name) == None;
      assert Keys(q[1..]) == ["limit"];
      q
  }

  function LedgerSegment(ledger: Ledger): string {
    match ledger
    case Deposits => "deposit"
    case Withdrawals => "withdraw"
  }

  function DecisionSegment(decision: Decision): string {
    match decision
    case Approve => "approve"
    case Reject => "reject"
  }

  /** The HTTP request a call sends; None exactly for the five members
      `adminApi` lacks. Only list reads carry query parameters, and no GET
      carries a body. */
  function RequestOf(c: Call): (r: Option<Request>)
    ensures r.None? <==> c.AdjustUserBalance? || c.UpdateUserTrcAddress? || c.GetPendingUsers? || c.ApproveUser? || c.RejectUser?
    ensures r.Some? && r.value.verb == Get ==> r.value.body == NoBody
    ensures r.Some? && r.value.query != [] ==> c.GetUsers? || c.GetDeposits? || c.GetWithdrawals? || c.GetNotifications?
    ensures r.Some? ==> |r.value.path| > 1 && r.value.path[0] == '/'
  {
    match c
    case Login(email, password) =>
      Some(Request(Post, "/auth/admin/login", [], Json([("email", email), ("password", password)])))
    case GetDashboardStats => Some(Request(Get, "/admin/reports/summary", [], NoBody))
    case GetUsers(page, limit, search) =>
      Some(Request(Get, "/admin/users", ListQuery(page, limit, "search", search), NoBody))
    case BlockUser(id) => Some(Request(Put, "/admin/users/" + id + "/block", [], NoBody))
    case UnblockUser(id) => Some(Request(Put, "/admin/users/" + id + "/unblock", [], NoBody))
    case ResetUserPassword(id) => Some(Request(Put, "/admin/users/" + id + "/reset-password", [], NoBody))
    case GetDeposits(page, limit, status) =>
      Some(Request(Get, "/admin/deposits", ListQuery(page, limit, "status", status), NoBody))
    case GetWithdrawals(page, limit, status) =>
      Some(Request(Get, "/admin/withdrawals", ListQuery(page, limit, "status", status), NoBody))
    case Decide(ledger, decision, id, notes) =>
      var members := if notes.Some? then [("adminNotes", notes.value)] else [];
      Some(Request(Put, "/admin/" + LedgerSegment(ledger) + "/" + id + "/" + DecisionSegment(decision), [], Json(members)))
    case GetNotifications(page, limit) =>
      Some(Request(Get, "/admin/notifications", ListQuery(page, limit, "search", None), NoBody))
    case SendNotification(userId, message, topic) =>
      Some(Request(Post, "/admin/notifications", [], Json([("userId", userId), ("message", message), ("type", topic)])))
    case MarkNotificationAsRead(id) => Some(Request(Put, "/admin/notifications/" + id + "/read", [], NoBody))
    case MarkAllNotificationsAsRead => Some(Request(Put, "/admin/notifications/read-all", [], NoBody))
    case GetSettings => Some(Request(Get, "/admin/settings", [], NoBody))
    case UpdateWalletAddress(address) => Some(Request(Put, "/admin/settings/wallet-address", [], Json([("address", address)])))
    case GetAdminProfile => Some(Request(Get, "/admin/profile", [], NoBody))
    case UpdateAdminProfile(data) => Some(Request(Put, "/admin/profile", [], Json(data)))
    case AdjustUserBalance(_, _, _) => None
    case UpdateUserTrcAddress(_, _) => None
    case GetPendingUsers => None
    case ApproveUser(_, _) => None
    case RejectUser(_, _) => None
  }

  // ---------------------------------------------------------------------------
  // Properties of the descriptors

  lemma PathOfFour(a: string, b: string, c: string, d: string)
    ensures Path([a, b, c, d]) == "/" + a + "/" + b + "/" + c + "/" + d
  {
    assert [a, b, c, d][..3] == [a, b, c] && [a, b, c][..2] == [a, b] && [a, b][..1] == [a] && [a][..0] == [];
    assert Path([a]) == "/" + a;
    assert Path([a, b]) == "/" + a + "/" + b;
    assert Path([a, b, c]) == "/" + a + "/" + b + "/" + c;
  }

  /** The user list always carries page and limit (defaults 1 and 20) and
      carries `search` exactly when the term is non-empty. */
  lemma UsersQuery(page: Option<int>, limit: Option<int>, search: Option<string>)
    ensures var r := RequestOf(GetUsers(page, limit, search));
      && r.Some? && r.value.verb == Get && r.value.path == "/admin/users" && r.value.body == NoBody
      && Lookup(r.value.query, "page") == Some(IntToString(page.GetOr(1)))
      && Lookup(r.value.query, "limit") == Some(IntToString(limit.GetOr(20)))
      && (Lookup(r.value.query, "search").Some? <==> search.Some? && search.value != "")
      && (Lookup(r.value.query, "search").Some? ==> Lookup(r.value.query, "search") == search)
  {
  }

  /** Deposit and withdrawal lists carry `status` exactly when it is non-empty. */
  lemma LedgerQuery(ledger: Ledger, page: Option<int>, limit: Option<int>, status: Option<string>)
    ensures var c := if ledger == Deposits then GetDeposits(page, limit, status) else GetWithdrawals(page, limit, status);
      var r := RequestOf(c);
      && r.Some? && r.value.verb == Get
      && r.value.path == (if ledger == Deposits then "/admin/deposits" else "/admin/withdrawals")
      && Lookup(r.value.query, "page") == Some(IntToString(page.GetOr(1)))
      && Lookup(r.value.query, "limit") == Some(IntToString(limit.GetOr(20)))
      && (Lookup(r.value.query, "status").Some? <==> status.Some? && status.value != "")
      && (Lookup(r.value.query, "status").Some? ==> Lookup(r.value.query, "status") == status)
  {
  }

  /** The notification list sends page and limit and nothing else. */
  lemma NotificationsQuery(page: Option<int>, limit: Option<int>)
    ensures var r := RequestOf(GetNotifications(page, limit));
      && r.Some? && r.value.verb == Get && r.value.path == "/admin/notifications"
      && Keys(r.value.query) == ["page", "limit"]
      && Lookup(r.value.query, "page") == Some(IntToString(page.GetOr(1)))
      && Lookup(r.value.query, "limit") == Some(IntToString(limit.GetOr(20)))
  {
  }

  /** Whatever page number a list call is given, the server reads that number
      back from the `page` parameter. */
  lemma WirePageReadBack(c: Call)
    requires c.GetUsers? || c.GetDeposits? || c.GetWithdrawals? || c.GetNotifications?
    ensures RequestOf(c).Some?
    ensures var v := Lookup(RequestOf(c).value.query, "page");
      v.Some? && ParseInt(v.value) == Some(c.page.GetOr(1))
  {
    IntToStringRoundTrip(c.page.GetOr(1));
  }

  /** A decision on a deposit goes to /admin/deposit/{id}/approve|reject, one on a
      withdrawal to /admin/withdraw/{id}/approve|reject, as a PUT whose body holds
      the notes; a router that cuts the path at '/' recovers the ledger, the
      record id and the decision whenever the id holds no '/'. */
  lemma DecisionRequest(ledger: Ledger, decision: Decision, id: string, notes: string)
    requires '/' !in id
    ensures var r := RequestOf(Decide(ledger, decision, id, Some(notes)));
      && r.Some? && r.value.verb == Put && r.value.query == []
      && r.value.body == Json([("adminNotes", notes)])
      && Segments(r.value.path) == ["", "admin", LedgerSegment(ledger), id, DecisionSegment(decision)]
  {
    var segs := ["admin", LedgerSegment(ledger), id, DecisionSegment(decision)];
    assert forall i :: 0 <= i < |segs| ==> '/' !in segs[i];
    PathSegments(segs);
    PathOfFour("admin", LedgerSegment(ledger), id, DecisionSegment(decision));
    assert "/admin/" == "/" + "admin" + "/";
  }

  lemma UserPathSegments(id: string, last: string)
    requires '/' !in id && '/' !in last
    ensures Segments("/admin/users/" + id + "/" + last) == ["", "admin", "users", id, last]
  {
    var segs := ["admin", "users", id, last];
    assert forall i :: 0 <= i < |segs| ==> '/' !in segs[i];
    PathSegments(segs);
    PathOfFour("admin", "users", id, last);
    assert "/admin/users/" == "/" + "admin" + "/" + "users" + "/";
  }

  /** Block, unblock and reset-password are body-less PUTs on
      /admin/users/{id}/block, /unblock and /reset-password. */
  lemma UserActionRequest(c: Call)
    requires c.BlockUser? || c.UnblockUser? || c.ResetUserPassword?
    requires '/' !in c.userId
    ensures var r := RequestOf(c);
      && r.Some? && r.value.verb == Put && r.value.query == [] && r.value.body == NoBody
      && Segments(r.value.path) == ["", "admin", "users", c.userId,
           if c.BlockUser? then "block" else if c.UnblockUser? then "unblock" else "reset-password"]
  {
    var id := c.userId;
    if c.BlockUser? {
      UserPathSegments(id, "block");
      assert "/admin/users/" + id + "/block" == "/admin/users/" + id + "/" + "block";
    } else if c.UnblockUser? {
      UserPathSegments(id, "unblock");
      assert "/admin/users/" + id + "/unblock" == "/admin/users/" + id + "/" + "unblock";
    } else {
      UserPathSegments(id, "reset-password");
      assert "/admin/users/" + id + "/reset-password" == "/admin/users/" + id + "/" + "reset-password";
    }
  }
}
