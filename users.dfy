/** The users page of src/pages/UsersPage.tsx: the paginated, searchable list
    of accounts and the dialog that blocks, unblocks, resets a password,
    adjusts a balance or edits a TRC address. */
module Users {
  import opened Wrappers
  import opened Records
  import opened Api
  import opened ListView
  import opened Validation

  datatype UserAction = Block | Unblock | Reset

  /** The value of `actionDialog` while the dialog is open. */
  datatype Dialog = Confirm(action: UserAction) | Balance | EditTrc

  /** `balanceAdjustment`: the two text fields of the balance dialog. */
  datatype BalanceForm = BalanceForm(newBalance: string, reason: string)

  /** What the success branches of the handlers read from the reply's payload
      before they close the dialog: a `null` body (`NullBody`), or a body whose
      `user` member is absent (`NoUser`) or present with `balanceChange` when
      that is a number. Reading a member of a `null` body or of an absent
      `user`, or calling `toFixed` on a `balanceChange` that is not a number,
      throws inside the `try`. */
  datatype UserPayload = NullBody | NoUser | UserEcho(balanceChange: Option<real>)

  /** The payload a confirmed action can report: a reset reads `newPassword`
      from the body, which throws for a `null` body; block and unblock read
      nothing. */
  predicate ReportsAction(action: UserAction, p: UserPayload) {
    action != Reset || !p.NullBody?
  }

  /** The payload the balance handler can report: `user.balanceChange.toFixed(2)`
      does not throw. */
  predicate ReportsBalanceChange(p: UserPayload) {
    p.UserEcho? && p.balanceChange.Some?
  }

  /** The payload the TRC handler can report: `user.trcAddress` does not throw. */
  predicate ReportsUser(p: UserPayload) {
    p.UserEcho?
  }

  const EmptyBalance := BalanceForm("", "")
  const LoadFailure := "Failed to load users"

  /** The dialogs a row offers: block for an active account, unblock for any
      other, and always password reset, balance adjustment and TRC edit. */
  function RowActions(u: User): (ds: seq<Dialog>)
    ensures Confirm(Block) in ds <==> u.status == Active
    ensures Confirm(Unblock) in ds <==> u.status != Active
    ensures Confirm(Reset) in ds && Balance in ds && EditTrc in ds
  {
    [if u.status == Active then Confirm(Block) else Confirm(Unblock), Confirm(Reset), Balance, EditTrc]
  }

  /** The list request for a cursor and a search term: a GET of /admin/users
      whose query reads back the 1-based page and the page size, and the
      search term exactly when it is non-empty. */
  function FetchCall(list: ListState<User>, term: string): (c: Call)
    ensures var r := RequestOf(c);
      && r.Some? && r.value.verb == Get && r.value.path == "/admin/users"
      && Lookup(r.value.query, "page") == Some(Text.IntToString(list.page + 1))
      && Lookup(r.value.query, "limit") == Some(Text.IntToString(list.rowsPerPage))
      && (Lookup(r.value.query, "search") == Some(term) <==> term != "")
      && (Lookup(r.value.query, "search") == None <==> term == "")
      && Text.ParseInt(Lookup(r.value.query, "page").value) == Some(list.page + 1)
  {
    var c := GetUsers(Some(list.page + 1), Some(list.rowsPerPage), Some(term));
    UsersQuery(Some(list.page + 1), Some(list.rowsPerPage), Some(term));
    WirePageReadBack(c);
    c
  }

  /** The request of a confirmed block, unblock or reset. */
  function ActionCall(action: UserAction, userId: string): (c: Call)
    ensures action == Block <==> c == BlockUser(userId)
    ensures action == Unblock <==> c == UnblockUser(userId)
    ensures action == Reset <==> c == ResetUserPassword(userId)
  {
    match action
    case Block => BlockUser(userId)
    case Unblock => UnblockUser(userId)
    case Reset => ResetUserPassword(userId)
  }

  /** The checks of `handleBalanceAdjustment`, given the value `parseFloat`
      reads from the first field (`None` for NaN): a blank field returns at
      once, a non-numeric or negative value is rejected, anything else is sent. */
  function CheckBalance(form: BalanceForm, parsed: Option<real>): (c: Check<real>)
    ensures c.Skip? <==> form.newBalance == "" || form.reason == ""
    ensures c.Invalid? <==> form.newBalance != "" && form.reason != "" && (parsed.None? || parsed.value < 0.0)
    ensures c.Accept? ==> parsed == Some(c.value) && c.value >= 0.0
  {
    if form.newBalance == "" || form.reason == "" then Skip
    else if parsed.None? || parsed.value < 0.0 then Invalid
    else Accept(parsed.value)
  }

  /** Whether the dialog's submit button is disabled. */
  function SubmitDisabled(dialog: Dialog, form: BalanceForm, trc: string): (disabled: bool)
    ensures dialog.Confirm? ==> !disabled
    ensures dialog == Balance ==> forall p: Option<real> :: disabled <==> CheckBalance(form, p).Skip?
    ensures dialog == EditTrc ==> (disabled <==> CheckTrc(trc).Skip?)
  {
    (dialog == Balance && (form.newBalance == "" || form.reason == ""))
    || (dialog == EditTrc && trc == "")
  }

  class UsersPage {
    var list: ListState<User>
    var searchTerm: string
    var selectedUser: Option<User>
    var actionDialog: Option<Dialog>
    var balance: BalanceForm
    var trcAddress: string
    var snackbar: Option<Severity>

    constructor ()
      ensures list == Initial() && searchTerm == ""
      ensures selectedUser == None && actionDialog == None
      ensures balance == EmptyBalance && trcAddress == "" && snackbar == None
    {
      list := Initial();
      searchTerm := "";
      selectedUser := None;
      actionDialog := None;
      balance := EmptyBalance;
      trcAddress := "";
      snackbar := None;
    }

    /** `fetchUsers`: request the current cursor and term and settle the list. */
    method Fetch(reply: Reply<ListPage<User>>) returns (calls: seq<Call>)
      modifies this
      ensures calls == [FetchCall(old(list), old(searchTerm))]
      ensures list == old(list).Settle(reply, LoadFailure)
      ensures searchTerm == old(searchTerm) && selectedUser == old(selectedUser)
      ensures actionDialog == old(actionDialog) && balance == old(balance)
      ensures trcAddress == old(trcAddress) && snackbar == old(snackbar)
    {
      calls := [FetchCall(list, searchTerm)];
      list := list.Settle(reply, LoadFailure);
    }

    /** `handleSearch`: set the term and go back to page 0. The fetch effect
        reruns, with `reply`, only when the term or the page actually changed. */
    method Search(term: string, reply: Reply<ListPage<User>>) returns (calls: seq<Call>)
      modifies this
      ensures searchTerm == term
      ensures var reset := WithPage(old(list), 0);
        if term != old(searchTerm) || CursorMoved(old(list), reset) then
          calls == [FetchCall(reset, term)] && list == reset.Settle(reply, LoadFailure)
        else
          calls == [] && list == old(list)
      ensures selectedUser == old(selectedUser) && actionDialog == old(actionDialog)
      ensures balance == old(balance) && trcAddress == old(trcAddress) && snackbar == old(snackbar)
    {
      var moved := term != searchTerm || list.page != 0;
      searchTerm := term;
      list := WithPage(list, 0);
      calls := [];
      if moved {
        calls := Fetch(reply);
      }
    }

    /** `handlePageChange`: set only the page; a new page refetches. */
    method ChangePage(n: int, reply: Reply<ListPage<User>>) returns (calls: seq<Call>)
      modifies this
      ensures var moved := WithPage(old(list), n);
        if CursorMoved(old(list), moved) then
          calls == [FetchCall(moved, searchTerm)] && list == moved.Settle(reply, LoadFailure)
        else
          calls == [] && list == old(list)
      ensures searchTerm == old(searchTerm) && selectedUser == old(selectedUser) && actionDialog == old(actionDialog)
      ensures balance == old(balance) && trcAddress == old(trcAddress) && snackbar == old(snackbar)
    {
      var moved := CursorMoved(list, WithPage(list, n));
      list := WithPage(list, n);
      calls := [];
      if moved {
        calls := Fetch(reply);
      }
    }

    /** `handleRowsPerPageChange`: set the page size and go back to page 0. */
    method ChangeRowsPerPage(n: int, reply: Reply<ListPage<User>>) returns (calls: seq<Call>)
      modifies this
      ensures var resized := WithRowsPerPage(old(list), n);
        resized.page == 0 && resized.rowsPerPage == n
        && if CursorMoved(old(list), resized) then
          calls == [FetchCall(resized, searchTerm)] && list == resized.Settle(reply, LoadFailure)
        else
          calls == [] && list == old(list)
      ensures searchTerm == old(searchTerm) && selectedUser == old(selectedUser) && actionDialog == old(actionDialog)
      ensures balance == old(balance) && trcAddress == old(trcAddress) && snackbar == old(snackbar)
    {
      var moved := CursorMoved(list, WithRowsPerPage(list, n));
      list := WithRowsPerPage(list, n);
      calls := [];
      if moved {
        calls := Fetch(reply);
      }
    }

    /** A row's button: select the user and open the dialog; the balance dialog
        is prefilled with the deposit amount and an empty reason, the TRC dialog
        with the stored address or the empty string. */
    method Open(u: User, d: Dialog)
      requires d in RowActions(u)
      modifies this
      ensures selectedUser == Some(u) && actionDialog == Some(d)
      ensures balance == if d == Balance then BalanceForm(u.depositAmountText, "") else old(balance)
      ensures trcAddress == if d == EditTrc then u.trcAddress.GetOr("") else old(trcAddress)
      ensures list == old(list) && searchTerm == old(searchTerm) && snackbar == old(snackbar)
    {
      selectedUser := Some(u);
      if d == Balance {
        balance := BalanceForm(u.depositAmountText, "");
      } else if d == EditTrc {
        trcAddress := u.trcAddress.GetOr("");
      }
      actionDialog := Some(d);
    }

    /** The Cancel button: close the dialog and reset both forms. The
        selection is kept. */
    method Cancel()
      modifies this
      ensures actionDialog == None && balance == EmptyBalance && trcAddress == ""
      ensures selectedUser == old(selectedUser)
      ensures list == old(list) && searchTerm == old(searchTerm) && snackbar == old(snackbar)
    {
      actionDialog := None;
      balance := EmptyBalance;
      trcAddress := "";
    }

    /** The dialog's `onClose` (backdrop or Escape): only the dialog closes;
        selection and both forms are kept. */
    method CloseDialog()
      modifies this
      ensures actionDialog == None
      ensures selectedUser == old(selectedUser) && balance == old(balance) && trcAddress == old(trcAddress)
      ensures list == old(list) && searchTerm == old(searchTerm) && snackbar == old(snackbar)
    {
      actionDialog := None;
    }

    /** `handleUserAction`: without a selection nothing happens. Otherwise the
        action's request is sent. A reply the action can report closes the
        dialog, clears the selection and refetches with `refetch`; a failure,
        and equally a reset whose reply body is `null` (reading `newPassword`
        from it throws before the dialog closes), only reports the error. */
    method HandleUserAction(action: UserAction, reply: Reply<UserPayload>, refetch: Reply<ListPage<User>>)
      returns (calls: seq<Call>)
      modifies this
      ensures old(selectedUser).None? ==>
        calls == [] && list == old(list) && actionDialog == old(actionDialog)
        && selectedUser == old(selectedUser) && snackbar == old(snackbar)
      ensures old(selectedUser).Some? && reply.Ok? && ReportsAction(action, reply.data) ==>
        && calls == [ActionCall(action, old(selectedUser).value.id), FetchCall(old(list), old(searchTerm))]
        && snackbar == Some(Success) && actionDialog == None && selectedUser == None
        && list == old(list).Settle(refetch, LoadFailure)
      ensures old(selectedUser).Some? && !(reply.Ok? && ReportsAction(action, reply.data)) ==>
        && calls == [ActionCall(action, old(selectedUser).value.id)]
        && snackbar == Some(Error) && actionDialog == old(actionDialog)
        && selectedUser == old(selectedUser) && list == old(list)
      ensures balance == old(balance) && trcAddress == old(trcAddress) && searchTerm == old(searchTerm)
    {
      calls := [];
      if selectedUser.None? {
        return;
      }
      calls := [ActionCall(action, selectedUser.value.id)];
      if reply.Ok? && ReportsAction(action, reply.data) {
        snackbar := Some(Success);
        actionDialog := None;
        selectedUser := None;
        var refetchCalls := Fetch(refetch);
        calls := calls + refetchCalls;
      } else {
        snackbar := Some(Error);
      }
    }

    /** `handleBalanceAdjustment`, with `parsed` the value `parseFloat` reads
        from the first field. Without a selection or with a blank field nothing
        happens; an invalid amount is reported with no request; otherwise the
        amount and reason are sent. A reply that reports the balance change
        closes the dialog, clears the selection, resets the form and refetches;
        a failure, and equally a reply without a numeric `user.balanceChange`,
        which throws before the dialog closes, only reports the error. */
    method HandleBalanceAdjustment(parsed: Option<real>, reply: Reply<UserPayload>, refetch: Reply<ListPage<User>>)
      returns (calls: seq<Call>)
      modifies this
      ensures var check := CheckBalance(old(balance), parsed);
        old(selectedUser).None? || check.Skip? ==>
          calls == [] && snackbar == old(snackbar) && actionDialog == old(actionDialog)
          && selectedUser == old(selectedUser) && balance == old(balance) && list == old(list)
      ensures var check := CheckBalance(old(balance), parsed);
        old(selectedUser).Some? && check.Invalid? ==>
          calls == [] && snackbar == Some(Error) && actionDialog == old(actionDialog)
          && selectedUser == old(selectedUser) && balance == old(balance) && list == old(list)
      ensures var check := CheckBalance(old(balance), parsed);
        old(selectedUser).Some? && check.Accept? && reply.Ok? && ReportsBalanceChange(reply.data) ==>
          && calls == [AdjustUserBalance(old(selectedUser).value.id, check.value, old(balance).reason),
                       FetchCall(old(list), old(searchTerm))]
          && snackbar == Some(Success) && actionDialog == None && selectedUser == None
          && balance == EmptyBalance && list == old(list).Settle(refetch, LoadFailure)
      ensures var check := CheckBalance(old(balance), parsed);
        old(selectedUser).Some? && check.Accept? && !(reply.Ok? && ReportsBalanceChange(reply.data)) ==>
          && calls == [AdjustUserBalance(old(selectedUser).value.id, check.value, old(balance).reason)]
          && snackbar == Some(Error) && actionDialog == old(actionDialog)
          && selectedUser == old(selectedUser) && balance == old(balance) && list == old(list)
      ensures trcAddress == old(trcAddress) && searchTerm == old(searchTerm)
    {
      calls := [];
      if selectedUser.None? {
        return;
      }
      match CheckBalance(balance, parsed) {
        case Skip =>
        case Invalid =>
          snackbar := Some(Error);
        case Accept(amount) =>
          calls := [AdjustUserBalance(selectedUser.value.id, amount, balance.reason)];
          if reply.Ok? && ReportsBalanceChange(reply.data) {
            snackbar := Some(Success);
            actionDialog := None;
            selectedUser := None;
            balance := EmptyBalance;
            var refetchCalls := Fetch(refetch);
            calls := calls + refetchCalls;
          } else {
            snackbar := Some(Error);
          }
      }
    }

    /** `handleTrcAddressUpdate`: without a selection or with a blank address
        nothing happens; an address that fails the format test is reported
        with no request; otherwise it is sent. A reply whose payload holds a
        `user` closes the dialog, clears the selection, resets the field and
        refetches; a failure, and equally a reply without `user`, which throws
        before the dialog closes, only reports the error. */
    method HandleTrcAddressUpdate(reply: Reply<UserPayload>, refetch: Reply<ListPage<User>>)
      returns (calls: seq<Call>)
      modifies this
      ensures var check := CheckTrc(old(trcAddress));
        old(selectedUser).None? || check.Skip? ==>
          calls == [] && snackbar == old(snackbar) && actionDialog == old(actionDialog)
          && selectedUser == old(selectedUser) && trcAddress == old(trcAddress) && list == old(list)
      ensures var check := CheckTrc(old(trcAddress));
        old(selectedUser).Some? && check.Invalid? ==>
          calls == [] && snackbar == Some(Error) && actionDialog == old(actionDialog)
          && selectedUser == old(selectedUser) && trcAddress == old(trcAddress) && list == old(list)
      ensures var check := CheckTrc(old(trcAddress));
        old(selectedUser).Some? && check.Accept? && reply.Ok? && ReportsUser(reply.data) ==>
          && calls == [UpdateUserTrcAddress(old(selectedUser).value.id, old(trcAddress)),
                       FetchCall(old(list), old(searchTerm))]
          && snackbar == Some(Success) && actionDialog == None && selectedUser == None
          && trcAddress == "" && list == old(list).Settle(refetch, LoadFailure)
      ensures var check := CheckTrc(old(trcAddress));
        old(selectedUser).Some? && check.Accept? && !(reply.Ok? && ReportsUser(reply.data)) ==>
          && calls == [UpdateUserTrcAddress(old(selectedUser).value.id, old(trcAddress))]
          && snackbar == Some(Error) && actionDialog == old(actionDialog)
          && selectedUser == old(selectedUser) && trcAddress == old(trcAddress) && list == old(list)
      ensures balance == old(balance) && searchTerm == old(searchTerm)
    {
      calls := [];
      if selectedUser.None? {
        return;
      }
      match CheckTrc(trcAddress) {
        case Skip =>
        case Invalid =>
          snackbar := Some(Error);
        case Accept(address) =>
          calls := [UpdateUserTrcAddress(selectedUser.value.id, address)];
          if reply.Ok? && ReportsUser(reply.data) {
            snackbar := Some(Success);
            actionDialog := None;
            selectedUser := None;
            trcAddress := "";
            var refetchCalls := Fetch(refetch);
            calls := calls + refetchCalls;
          } else {
            snackbar := Some(Error);
          }
      }
    }

    /** A press of the dialog's submit button. A disabled button does
        nothing; an enabled one dispatches on the open dialog: the balance
        dialog adjusts the balance, the TRC dialog updates the address, a
        confirmation runs its action. */
    method Submit(parsed: Option<real>, reply: Reply<UserPayload>, refetch: Reply<ListPage<User>>)
      returns (calls: seq<Call>)
      requires actionDialog.Some?
      modifies this
      ensures SubmitDisabled(old(actionDialog).value, old(balance), old(trcAddress)) ==>
        calls == [] && list == old(list) && snackbar == old(snackbar) && actionDialog == old(actionDialog)
        && selectedUser == old(selectedUser) && balance == old(balance) && trcAddress == old(trcAddress)
      ensures old(selectedUser).None? ==> calls == []
      ensures old(selectedUser).Some? && old(actionDialog).value.Confirm? ==>
        |calls| >= 1 && calls[0] == ActionCall(old(actionDialog).value.action, old(selectedUser).value.id)
      ensures old(selectedUser).Some? && old(actionDialog).value == Balance ==>
        match CheckBalance(old(balance), parsed)
        case Accept(amount) => |calls| >= 1 && calls[0] == AdjustUserBalance(old(selectedUser).value.id, amount, old(balance).reason)
        case _ => calls == []
      ensures old(selectedUser).Some? && old(actionDialog).value == EditTrc ==>
        match CheckTrc(old(trcAddress))
        case Accept(address) => |calls| >= 1 && calls[0] == UpdateUserTrcAddress(old(selectedUser).value.id, address)
        case _ => calls == []
      ensures searchTerm == old(searchTerm)
    {
      calls := [];
      if SubmitDisabled(actionDialog.value, balance, trcAddress) {
        return;
      }
      match actionDialog.value {
        case Balance =>
          calls := HandleBalanceAdjustment(parsed, reply, refetch);
        case EditTrc =>
          calls := HandleTrcAddressUpdate(reply, refetch);
        case Confirm(action) =>
          calls := HandleUserAction(action, reply, refetch);
      }
    }
  }
}
