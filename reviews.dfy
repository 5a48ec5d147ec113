/** The deposit and withdrawal review pages, src/pages/DepositsPage.tsx and
    src/pages/WithdrawalsPage.tsx. The two components hold the same state and
    run the same handlers, differing only in the ledger they call, so one class
    parameterised by the ledger models both. */
module Reviews {
  import opened Wrappers
  import opened Text
  import opened Records
  import opened Api
  import opened ListView

  /** The value of `actionDialog` while the dialog is open. */
  datatype ReviewDialog = View | Act(decision: Decision)

  /** The error banner text of a failed list fetch. */
  function LoadFailure(ledger: Ledger): string {
    if ledger == Deposits then "Failed to load deposits" else "Failed to load withdrawals"
  }

  /** The buttons a row offers: view always, approve and reject only while the
      request is pending. */
  function RowActions(r: Review): (ds: seq<ReviewDialog>)
    ensures View in ds
    ensures Act(Approve) in ds <==> r.status == Pending
    ensures Act(Reject) in ds <==> r.status == Pending
  {
    if r.status == Pending then [View, Act(Approve), Act(Reject)] else [View]
  }

  /** The list request of a ledger for a cursor and a status filter: a GET of
      the ledger's path whose query reads back the 1-based page and the page
      size, and `status` exactly when the filter is non-empty ("All" is the
      empty filter). */
  function FetchCall(ledger: Ledger, list: ListState<Review>, statusFilter: string): (c: Call)
    ensures var r := RequestOf(c);
      && r.Some? && r.value.verb == Get
      && r.value.path == (if ledger == Deposits then "/admin/deposits" else "/admin/withdrawals")
      && Lookup(r.value.query, "page") == Some(IntToString(list.page + 1))
      && Lookup(r.value.query, "limit") == Some(IntToString(list.rowsPerPage))
      && (Lookup(r.value.query, "status") == Some(statusFilter) <==> statusFilter != "")
      && (Lookup(r.value.query, "status") == None <==> statusFilter == "")
      && ParseInt(Lookup(r.value.query, "page").value) == Some(list.page + 1)
  {
    var c := if ledger == Deposits then GetDeposits(Some(list.page + 1), Some(list.rowsPerPage), Some(statusFilter))
      else GetWithdrawals(Some(list.page + 1), Some(list.rowsPerPage), Some(statusFilter));
    LedgerQuery(ledger, Some(list.page + 1), Some(list.rowsPerPage), Some(statusFilter));
    WirePageReadBack(c);
    c
  }

  /** The submit button is disabled exactly while the selected record's own
      decision is outstanding: nothing in flight, no selection, or another
      record's request leave it enabled, and the notes play no part. */
  predicate SubmitDisabled(processing: Option<string>, selected: Option<Review>)
    ensures processing.None? || selected.None? ==> !SubmitDisabled(processing, selected)
    ensures selected.Some? && processing == Some(selected.value.id) ==> SubmitDisabled(processing, selected)
    ensures selected.Some? && processing.Some? && processing.value != selected.value.id ==> !SubmitDisabled(processing, selected)
  {
    selected.Some? && processing == Some(selected.value.id)
  }

  class ReviewPage {
    const ledger: Ledger
    var list: ListState<Review>
    var statusFilter: string
    var selected: Option<Review>
    var actionDialog: Option<ReviewDialog>
    var adminNotes: string
    var processing: Option<string>
    var snackbar: Option<Severity>

    constructor (ledger: Ledger)
      ensures this.ledger == ledger
      ensures list == Initial() && statusFilter == ""
      ensures selected == None && actionDialog == None && adminNotes == ""
      ensures processing == None && snackbar == None
    {
      this.ledger := ledger;
      list := Initial();
      statusFilter := "";
      selected := None;
      actionDialog := None;
      adminNotes := "";
      processing := None;
      snackbar := None;
    }

    /** `fetchDeposits` / `fetchWithdrawals`. */
    method Fetch(reply: Reply<ListPage<Review>>) returns (calls: seq<Call>)
      modifies this
      ensures calls == [FetchCall(ledger, old(list), old(statusFilter))]
      ensures list == old(list).Settle(reply, LoadFailure(ledger))
      ensures statusFilter == old(statusFilter) && selected == old(selected) && actionDialog == old(actionDialog)
      ensures adminNotes == old(adminNotes) && processing == old(processing) && snackbar == old(snackbar)
    {
      calls := [FetchCall(ledger, list, statusFilter)];
      list := list.Settle(reply, LoadFailure(ledger));
    }

    /** `handleStatusFilterChange`: set the filter and go back to page 0; the
        fetch effect reruns only when the filter or the page changed. */
    method ChangeStatusFilter(filter: string, reply: Reply<ListPage<Review>>) returns (calls: seq<Call>)
      modifies this
      ensures statusFilter == filter
      ensures var reset := WithPage(old(list), 0);
        if filter != old(statusFilter) || CursorMoved(old(list), reset) then
          calls == [FetchCall(ledger, reset, filter)] && list == reset.Settle(reply, LoadFailure(ledger))
        else
          calls == [] && list == old(list)
      ensures selected == old(selected) && actionDialog == old(actionDialog)
      ensures adminNotes == old(adminNotes) && processing == old(processing) && snackbar == old(snackbar)
    {
      var moved := filter != statusFilter || list.page != 0;
      statusFilter := filter;
      list := WithPage(list, 0);
      calls := [];
      if moved {
        calls := Fetch(reply);
      }
    }

    /** `handlePageChange`: set only the page; a new page refetches. */
    method ChangePage(n: int, reply: Reply<ListPage<Review>>) returns (calls: seq<Call>)
      modifies this
      ensures var moved := WithPage(old(list), n);
        if CursorMoved(old(list), moved) then
          calls == [FetchCall(ledger, moved, statusFilter)] && list == moved.Settle(reply, LoadFailure(ledger))
        else
          calls == [] && list == old(list)
      ensures statusFilter == old(statusFilter) && selected == old(selected) && actionDialog == old(actionDialog)
      ensures adminNotes == old(adminNotes) && processing == old(processing) && snackbar == old(snackbar)
    {
      var moved := CursorMoved(list, WithPage(list, n));
      list := WithPage(list, n);
      calls := [];
      if moved {
        calls := Fetch(reply);
      }
    }

    /** `handleRowsPerPageChange`: set the page size and go back to page 0. */
    method ChangeRowsPerPage(n: int, reply: Reply<ListPage<Review>>) returns (calls: seq<Call>)
      modifies this
      ensures var resized := WithRowsPerPage(old(list), n);
        resized.page == 0 && resized.rowsPerPage == n
        && if CursorMoved(old(list), resized) then
          calls == [FetchCall(ledger, resized, statusFilter)] && list == resized.Settle(reply, LoadFailure(ledger))
        else
          calls == [] && list == old(list)
      ensures statusFilter == old(statusFilter) && selected == old(selected) && actionDialog == old(actionDialog)
      ensures adminNotes == old(adminNotes) && processing == old(processing) && snackbar == old(snackbar)
    {
      var moved := CursorMoved(list, WithRowsPerPage(list, n));
      list := WithRowsPerPage(list, n);
      calls := [];
      if moved {
        calls := Fetch(reply);
      }
    }

    /** A row's button: select the record and open the dialog. The notes field
        keeps whatever it held. */
    method Open(r: Review, d: ReviewDialog)
      requires d in RowActions(r)
      modifies this
      ensures selected == Some(r) && actionDialog == Some(d)
      ensures adminNotes == old(adminNotes) && processing == old(processing)
      ensures list == old(list) && statusFilter == old(statusFilter) && snackbar == old(snackbar)
    {
      selected := Some(r);
      actionDialog := Some(d);
    }

    /** Cancel, Close and the dialog's `onClose` all clear the dialog, the
        selection and the notes. */
    method Dismiss()
      modifies this
      ensures actionDialog == None && selected == None && adminNotes == ""
      ensures processing == old(processing)
      ensures list == old(list) && statusFilter == old(statusFilter) && snackbar == old(snackbar)
    {
      actionDialog := None;
      selected := None;
      adminNotes := "";
    }

    /** `handleDepositAction` / `handleWithdrawalAction`. Without a selection
        nothing happens. Otherwise the decision is sent with the notes as they
        are (possibly empty); `busy` is the processing marker while the request
        is outstanding, the selected id, which disables the submit button.
        Success reports, closes the dialog, clears selection and notes and
        refetches with `refetch`; failure only reports. Processing ends in both
        cases. */
    method HandleAction(decision: Decision, reply: Reply<()>, refetch: Reply<ListPage<Review>>)
      returns (calls: seq<Call>, busy: Option<string>)
      modifies this
      ensures old(selected).None? ==>
        calls == [] && busy == old(processing) && processing == old(processing)
        && selected == old(selected) && actionDialog == old(actionDialog)
        && adminNotes == old(adminNotes) && snackbar == old(snackbar) && list == old(list)
      ensures old(selected).Some? ==>
        busy == Some(old(selected).value.id) && SubmitDisabled(busy, old(selected))
        && processing == None && !SubmitDisabled(processing, selected)
      ensures old(selected).Some? && reply.Ok? ==>
        && calls == [Decide(ledger, decision, old(selected).value.id, Some(old(adminNotes))),
                     FetchCall(ledger, old(list), old(statusFilter))]
        && snackbar == Some(Success) && actionDialog == None && selected == None && adminNotes == ""
        && list == old(list).Settle(refetch, LoadFailure(ledger))
      ensures old(selected).Some? && reply.Failed? ==>
        && calls == [Decide(ledger, decision, old(selected).value.id, Some(old(adminNotes)))]
        && snackbar == Some(Error) && actionDialog == old(actionDialog) && selected == old(selected)
        && adminNotes == old(adminNotes) && list == old(list)
      ensures statusFilter == old(statusFilter)
    {
      calls := [];
      busy := processing;
      if selected.None? {
        return;
      }
      var record := selected.value;
      processing := Some(record.id);
      busy := processing;
      calls := [Decide(ledger, decision, record.id, Some(adminNotes))];
      if reply.Ok? {
        snackbar := Some(Success);
        actionDialog := None;
        selected := None;
        adminNotes := "";
        var refetchCalls := Fetch(refetch);
        calls := calls + refetchCalls;
      } else {
        snackbar := Some(Error);
      }
      processing := None;
    }

    /** The dialog's approve or reject button, shown only while an `Act`
        dialog is open: disabled while the selected record's decision is
        outstanding, otherwise it runs the handler with the open dialog's
        decision. */
    method Submit(reply: Reply<()>, refetch: Reply<ListPage<Review>>) returns (calls: seq<Call>, busy: Option<string>)
      requires actionDialog.Some? && actionDialog.value.Act?
      modifies this
      ensures SubmitDisabled(old(processing), old(selected)) ==>
        calls == [] && busy == old(processing) && processing == old(processing)
        && selected == old(selected) && actionDialog == old(actionDialog)
        && adminNotes == old(adminNotes) && snackbar == old(snackbar) && list == old(list)
      ensures !SubmitDisabled(old(processing), old(selected)) && old(selected).Some? ==>
        |calls| >= 1
        && calls[0] == Decide(ledger, old(actionDialog).value.decision, old(selected).value.id, Some(old(adminNotes)))
        && busy == Some(old(selected).value.id) && processing == None
        && (reply.Ok? ==>
              && calls == [calls[0], FetchCall(ledger, old(list), old(statusFilter))]
              && actionDialog == None && selected == None && adminNotes == "" && snackbar == Some(Success)
              && list == old(list).Settle(refetch, LoadFailure(ledger)))
        && (reply.Failed? ==>
              && |calls| == 1
              && actionDialog == old(actionDialog) && selected == old(selected) && adminNotes == old(adminNotes)
              && snackbar == Some(Error) && list == old(list))
      ensures old(selected).None? ==> calls == [] && list == old(list)
      ensures statusFilter == old(statusFilter)
    {
      calls := [];
      busy := processing;
      if SubmitDisabled(processing, selected) {
        return;
      }
      calls, busy := HandleAction(actionDialog.value.decision, reply, refetch);
    }
  }
}
