/** The account approval queue of src/pages/PendingUsersPage.tsx: accounts
    waiting for an administrator, who approves one with a TRC-20 deposit
    address or rejects it with a reason. Approval and rejection take the
    account out of the local queue without refetching it. */
module Pending {
  import opened Wrappers
  import opened Text
  import opened Records
  import opened Api
  import opened Validation

  const LoadFailure := "Failed to load pending users"
  const InvalidTrcMessage := "Invalid TRC address format. Must start with T and be 34 characters long"
  const ApproveFailure := "Failed to approve user"
  const RejectFailure := "Failed to reject user"

  // ---------------------------------------------------------------------------
  // Removing an account from the queue

  /** `prev.filter(user => user.id !== id)`. */
  function Without(users: seq<PendingUser>, id: string): (r: seq<PendingUser>)
    ensures |r| <= |users|
    ensures forall u :: u in r <==> u in users && u.id != id
  {
    if users == [] then []
    else (if users[0].id != id then [users[0]] else []) + Without(users[1..], id)
  }

  /** The filter works piecewise, so it keeps the order of the accounts it
      keeps. */
  lemma {:induction false} WithoutOfConcat(a: seq<PendingUser>, b: seq<PendingUser>, id: string)
    ensures Without(a + b, id) == Without(a, id) + Without(b, id)
  {
    if a == [] {
      assert a + b == b;
    } else {
      assert (a + b)[0] == a[0];
      assert (a + b)[1..] == a[1..] + b;
      WithoutOfConcat(a[1..], b, id);
    }
  }

  /** Removing an id no account carries leaves the queue as it was. */
  lemma {:induction false} WithoutAbsent(users: seq<PendingUser>, id: string)
    requires forall i :: 0 <= i < |users| ==> users[i].id != id
    ensures Without(users, id) == users
  {
    if users != [] {
      WithoutAbsent(users[1..], id);
    }
  }

  /** Removing the same id twice removes nothing more. */
  lemma {:induction false} WithoutIdempotent(users: seq<PendingUser>, id: string)
    ensures Without(Without(users, id), id) == Without(users, id)
  {
    var once := Without(users, id);
    forall i | 0 <= i < |once|
      ensures once[i].id != id
    {
      assert once[i] in once;
    }
    WithoutAbsent(once, id);
  }

  // ---------------------------------------------------------------------------
  // The submit button

  /** Whether the dialog's submit button is disabled: while a call is
      outstanding, or while the field the dialog needs is blank after
      trimming. */
  predicate SubmitDisabled(actionLoading: bool, dialog: Decision, reason: string, trc: string)
    ensures actionLoading ==> SubmitDisabled(actionLoading, dialog, reason, trc)
    ensures !actionLoading && dialog == Reject ==> (SubmitDisabled(actionLoading, dialog, reason, trc) <==> AllSpace(reason))
    ensures !actionLoading && dialog == Approve ==> (SubmitDisabled(actionLoading, dialog, reason, trc) <==> AllSpace(trc))
  {
    TrimEmptyIffAllSpace(reason);
    TrimEmptyIffAllSpace(trc);
    actionLoading
    || (dialog == Reject && Trim(reason) == [])
    || (dialog == Approve && Trim(trc) == [])
  }

  /** An enabled button always gets past the handler's blank-field guard. The
      button is the stricter of the two for the address: it also stays
      disabled for an address made of whitespace, which the handler would
      only refuse as malformed. */
  lemma EnabledSubmitPassesGuard(dialog: Decision, reason: string, trc: string)
    ensures !SubmitDisabled(false, dialog, reason, trc) && dialog == Reject ==> !AllSpace(reason)
    ensures !SubmitDisabled(false, dialog, reason, trc) && dialog == Approve ==> !CheckTrc(trc).Skip?
    ensures trc != "" && AllSpace(trc) ==> SubmitDisabled(false, Approve, reason, trc) && CheckTrc(trc).Invalid?
  {
    TrimEmptyIffAllSpace(reason);
    TrimEmptyIffAllSpace(trc);
  }

  // ---------------------------------------------------------------------------
  // The page

  class PendingUsersPage {
    var pendingUsers: seq<PendingUser>
    var loading: bool
    var error: Option<string>
    var actionDialog: Option<Decision>
    var selected: Option<PendingUser>
    var rejectionReason: string
    var trcAddress: string
    var actionLoading: bool

    constructor ()
      ensures pendingUsers == [] && loading && error == None
      ensures actionDialog == None && selected == None
      ensures rejectionReason == "" && trcAddress == "" && !actionLoading
    {
      pendingUsers := [];
      loading := true;
      error := None;
      actionDialog := None;
      selected := None;
      rejectionReason := "";
      trcAddress := "";
      actionLoading := false;
    }

    /** `fetchPendingUsers`, run once at mount: success replaces the queue
        wholesale and clears the error; failure keeps the queue and sets the
        error. Loading ends either way. */
    method Fetch(reply: Reply<seq<PendingUser>>) returns (calls: seq<Call>)
      modifies this
      ensures calls == [GetPendingUsers] && !loading
      ensures reply.Ok? ==> pendingUsers == reply.data && error == None
      ensures reply.Failed? ==> pendingUsers == old(pendingUsers) && error == Some(LoadFailure)
      ensures actionDialog == old(actionDialog) && selected == old(selected) && actionLoading == old(actionLoading)
      ensures rejectionReason == old(rejectionReason) && trcAddress == old(trcAddress)
    {
      calls := [GetPendingUsers];
      if reply.Ok? {
        pendingUsers := reply.data;
        error := None;
      } else {
        error := Some(LoadFailure);
      }
      loading := false;
    }

    /** A row's approve or reject button: select the account and open that
        dialog. Both input fields keep what they held. */
    method Open(u: PendingUser, d: Decision)
      modifies this
      ensures selected == Some(u) && actionDialog == Some(d)
      ensures pendingUsers == old(pendingUsers) && error == old(error) && loading == old(loading)
      ensures rejectionReason == old(rejectionReason) && trcAddress == old(trcAddress) && actionLoading == old(actionLoading)
    {
      selected := Some(u);
      actionDialog := Some(d);
    }

    /** The dialog's `onClose`: clears dialog, selection and reason, but keeps
        the TRC address. */
    method Close()
      modifies this
      ensures actionDialog == None && selected == None && rejectionReason == ""
      ensures trcAddress == old(trcAddress)
      ensures pendingUsers == old(pendingUsers) && error == old(error) && loading == old(loading)
      ensures actionLoading == old(actionLoading)
    {
      actionDialog := None;
      selected := None;
      rejectionReason := "";
    }

    /** The Cancel button: clears dialog, selection, reason and TRC address. */
    method Cancel()
      modifies this
      ensures actionDialog == None && selected == None && rejectionReason == "" && trcAddress == ""
      ensures pendingUsers == old(pendingUsers) && error == old(error) && loading == old(loading)
      ensures actionLoading == old(actionLoading)
    {
      actionDialog := None;
      selected := None;
      rejectionReason := "";
      trcAddress := "";
    }

    /** `handleApprove`. Without a selection or with a blank address nothing
        happens. A malformed address sets the error and sends nothing; the
        loading flag is then only reset, never raised. Otherwise `busy`, the
        loading flag during the call, is true; success removes exactly the
        selected account's entries and clears dialog, selection, address and
        error; failure keeps the queue and shows the server's message or a
        fallback. Loading ends in every case that got past the first guard. */
    method HandleApprove(reply: Reply<()>) returns (calls: seq<Call>, busy: bool)
      modifies this
      ensures var check := CheckTrc(old(trcAddress));
        old(selected).None? || check.Skip? ==>
          calls == [] && busy == old(actionLoading) && actionLoading == old(actionLoading)
          && pendingUsers == old(pendingUsers) && error == old(error)
          && actionDialog == old(actionDialog) && selected == old(selected) && trcAddress == old(trcAddress)
      ensures var check := CheckTrc(old(trcAddress));
        old(selected).Some? && check.Invalid? ==>
          calls == [] && busy == old(actionLoading) && !actionLoading
          && pendingUsers == old(pendingUsers) && error == Some(InvalidTrcMessage)
          && actionDialog == old(actionDialog) && selected == old(selected) && trcAddress == old(trcAddress)
      ensures var check := CheckTrc(old(trcAddress));
        old(selected).Some? && check.Accept? ==>
          calls == [ApproveUser(old(selected).value.id, old(trcAddress))] && busy && !actionLoading
      ensures var check := CheckTrc(old(trcAddress));
        old(selected).Some? && check.Accept? && reply.Ok? ==>
          && pendingUsers == Without(old(pendingUsers), old(selected).value.id)
          && actionDialog == None && selected == None && trcAddress == "" && error == None
      ensures var check := CheckTrc(old(trcAddress));
        old(selected).Some? && check.Accept? && reply.Failed? ==>
          && pendingUsers == old(pendingUsers) && error == Some(OrElse(reply.message, ApproveFailure))
          && actionDialog == old(actionDialog) && selected == old(selected) && trcAddress == old(trcAddress)
      ensures rejectionReason == old(rejectionReason) && loading == old(loading)
    {
      calls := [];
      busy := actionLoading;
      if selected.None? || trcAddress == "" {
        return;
      }
      match CheckTrc(trcAddress) {
        case Skip =>
        case Invalid =>
          error := Some(InvalidTrcMessage);
        case Accept(address) =>
          actionLoading := true;
          busy := actionLoading;
          var id := selected.value.id;
          calls := [ApproveUser(id, address)];
          if reply.Ok? {
            pendingUsers := Without(pendingUsers, id);
            actionDialog := None;
            selected := None;
            trcAddress := "";
            error := None;
          } else {
            error := Some(OrElse(reply.message, ApproveFailure));
          }
      }
      actionLoading := false;
    }

    /** `handleReject`. Without a selection or with a reason that is blank
        after trimming nothing happens. Otherwise the reason is sent as typed,
        untrimmed, and `busy` is true during the call; success removes exactly
        the selected account's entries and clears dialog, selection and reason
        but leaves the error as it was; failure keeps the queue and sets the
        error. Loading ends either way. */
    method HandleReject(reply: Reply<()>) returns (calls: seq<Call>, busy: bool)
      modifies this
      ensures old(selected).None? || AllSpace(old(rejectionReason)) ==>
        calls == [] && busy == old(actionLoading) && actionLoading == old(actionLoading)
        && pendingUsers == old(pendingUsers) && error == old(error)
        && actionDialog == old(actionDialog) && selected == old(selected) && rejectionReason == old(rejectionReason)
      ensures old(selected).Some? && !AllSpace(old(rejectionReason)) ==>
        calls == [RejectUser(old(selected).value.id, old(rejectionReason))] && busy && !actionLoading
      ensures old(selected).Some? && !AllSpace(old(rejectionReason)) && reply.Ok? ==>
        && pendingUsers == Without(old(pendingUsers), old(selected).value.id)
        && actionDialog == None && selected == None && rejectionReason == "" && error == old(error)
      ensures old(selected).Some? && !AllSpace(old(rejectionReason)) && reply.Failed? ==>
        && pendingUsers == old(pendingUsers) && error == Some(RejectFailure)
        && actionDialog == old(actionDialog) && selected == old(selected) && rejectionReason == old(rejectionReason)
      ensures trcAddress == old(trcAddress) && loading == old(loading)
    {
      calls := [];
      busy := actionLoading;
      var reason := rejectionReason;
      // `!rejectionReason.trim()`, read through TrimEmptyIffAllSpace
      var blank := AllSpace(reason);
      if selected.None? || blank {
        return;
      }
      actionLoading := true;
      busy := actionLoading;
      var id := selected.value.id;
      calls := [RejectUser(id, reason)];
      if reply.Ok? {
        pendingUsers := Without(pendingUsers, id);
        actionDialog := None;
        selected := None;
        rejectionReason := "";
      } else {
        error := Some(RejectFailure);
      }
      actionLoading := false;
    }

    /** A press of the dialog's submit button. A disabled button (a call
        outstanding, or the dialog's field blank after trimming) does nothing;
        an enabled one dispatches on the open dialog. */
    method Submit(reply: Reply<()>) returns (calls: seq<Call>, busy: bool)
      requires actionDialog.Some?
      modifies this
      ensures SubmitDisabled(old(actionLoading), old(actionDialog).value, old(rejectionReason), old(trcAddress)) ==>
        calls == [] && busy == old(actionLoading) && actionLoading == old(actionLoading)
        && pendingUsers == old(pendingUsers) && error == old(error)
        && actionDialog == old(actionDialog) && selected == old(selected)
        && rejectionReason == old(rejectionReason) && trcAddress == old(trcAddress)
      ensures old(actionDialog) == Some(Approve) && !old(actionLoading) && old(selected).Some? && CheckTrc(old(trcAddress)).Accept? ==>
        calls == [ApproveUser(old(selected).value.id, old(trcAddress))] && busy
      ensures old(actionDialog) == Some(Reject) && !old(actionLoading) && old(selected).Some? && !AllSpace(old(rejectionReason)) ==>
        calls == [RejectUser(old(selected).value.id, old(rejectionReason))] && busy
      ensures old(selected).None? ==> calls == [] && pendingUsers == old(pendingUsers)
      ensures loading == old(loading)
    {
      calls := [];
      busy := actionLoading;
      if SubmitDisabled(actionLoading, actionDialog.value, rejectionReason, trcAddress) {
        return;
      }
      if actionDialog.value == Approve {
        calls, busy := HandleApprove(reply);
      } else {
        calls, busy := HandleReject(reply);
      }
    }
  }
}
