/** The notifications page of src/pages/NotificationsPage.tsx: the paginated
    list of all notifications, the send form and the detail view. */
module Notifications {
  import opened Wrappers
  import opened Text
  import opened Records
  import opened Api
  import opened ListView

  /** `sendForm`: recipient, message and type. The type is a `Topic`, so it is
      one of the four the type menu offers whatever the user does. */
  datatype SendForm = SendForm(userId: string, message: string, topic: Topic)

  /** The form every send dialog starts from and returns to. */
  const BlankForm := SendForm("", "", General)
  const LoadFailure := "Failed to load notifications"

  /** The list request: a GET of /admin/notifications whose query holds the
      page and the size and nothing else; the backend parses the page back as
      the 1-based page. */
  function FetchCall(list: ListState<Notification>): (c: Call)
    ensures var r := RequestOf(c);
      && r.Some? && r.value.verb == Get && r.value.path == "/admin/notifications"
      && Keys(r.value.query) == ["page", "limit"]
      && Lookup(r.value.query, "page") == Some(IntToString(list.page + 1))
      && Lookup(r.value.query, "limit") == Some(IntToString(list.rowsPerPage))
      && ParseInt(Lookup(r.value.query, "page").value) == Some(list.page + 1)
  {
    var c := GetNotifications(Some(list.page + 1), Some(list.rowsPerPage));
    NotificationsQuery(Some(list.page + 1), Some(list.rowsPerPage));
    WirePageReadBack(c);
    c
  }

  /** Whether the Send button is enabled. The blank form every dialog starts
      from cannot be sent, and an enabled button never sends an empty
      recipient or message. */
  predicate SendEnabled(form: SendForm)
    ensures SendEnabled(form) ==> form != BlankForm
    ensures SendEnabled(form) ==> SendCall(form).userId != "" && SendCall(form).message != ""
  {
    form.userId != "" && form.message != ""
  }

  /** The send request. */
  function SendCall(form: SendForm): (c: Call)
    ensures c.SendNotification? && c.userId == form.userId && c.message == form.message
    ensures TopicOf(c.topic) == Some(form.topic)
  {
    TopicNameRoundTrip(form.topic);
    SendNotification(form.userId, form.message, TopicName(form.topic))
  }

  class NotificationsPage {
    var list: ListState<Notification>
    var sendDialog: bool
    var sendForm: SendForm
    var viewDialog: bool
    var selected: Option<Notification>
    var snackbar: Option<Severity>

    constructor ()
      ensures list == Initial() && !sendDialog && sendForm == BlankForm
      ensures !viewDialog && selected == None && snackbar == None
    {
      list := Initial();
      sendDialog := false;
      sendForm := BlankForm;
      viewDialog := false;
      selected := None;
      snackbar := None;
    }

    /** `fetchNotifications`. */
    method Fetch(reply: Reply<ListPage<Notification>>) returns (calls: seq<Call>)
      modifies this
      ensures calls == [FetchCall(old(list))]
      ensures list == old(list).Settle(reply, LoadFailure)
      ensures sendDialog == old(sendDialog) && sendForm == old(sendForm)
      ensures viewDialog == old(viewDialog) && selected == old(selected) && snackbar == old(snackbar)
    {
      calls := [FetchCall(list)];
      list := list.Settle(reply, LoadFailure);
    }

    /** `handlePageChange`: set only the page; a new page refetches. */
    method ChangePage(n: int, reply: Reply<ListPage<Notification>>) returns (calls: seq<Call>)
      modifies this
      ensures var moved := WithPage(old(list), n);
        if CursorMoved(old(list), moved) then
          calls == [FetchCall(moved)] && list == moved.Settle(reply, LoadFailure)
        else
          calls == [] && list == old(list)
      ensures sendDialog == old(sendDialog) && sendForm == old(sendForm)
      ensures viewDialog == old(viewDialog) && selected == old(selected) && snackbar == old(snackbar)
    {
      var moved := CursorMoved(list, WithPage(list, n));
      list := WithPage(list, n);
      calls := [];
      if moved {
        calls := Fetch(reply);
      }
    }

    /** `handleRowsPerPageChange`: set the page size and go back to page 0. */
    method ChangeRowsPerPage(n: int, reply: Reply<ListPage<Notification>>) returns (calls: seq<Call>)
      modifies this
      ensures var resized := WithRowsPerPage(old(list), n);
        resized.page == 0 && resized.rowsPerPage == n
        && if CursorMoved(old(list), resized) then
          calls == [FetchCall(resized)] && list == resized.Settle(reply, LoadFailure)
        else
          calls == [] && list == old(list)
      ensures sendDialog == old(sendDialog) && sendForm == old(sendForm)
      ensures viewDialog == old(viewDialog) && selected == old(selected) && snackbar == old(snackbar)
    {
      var moved := CursorMoved(list, WithRowsPerPage(list, n));
      list := WithRowsPerPage(list, n);
      calls := [];
      if moved {
        calls := Fetch(reply);
      }
    }

    /** The "Send Notification" button opens the dialog on the current form. */
    method OpenSend()
      modifies this
      ensures sendDialog && sendForm == old(sendForm)
      ensures list == old(list) && viewDialog == old(viewDialog) && selected == old(selected) && snackbar == old(snackbar)
    {
      sendDialog := true;
    }

    /** A change of one of the form's fields. */
    method EditForm(form: SendForm)
      modifies this
      ensures sendForm == form && sendDialog == old(sendDialog)
      ensures list == old(list) && viewDialog == old(viewDialog) && selected == old(selected) && snackbar == old(snackbar)
    {
      sendForm := form;
    }

    /** Cancel and the dialog's `onClose` both close the dialog and reset the
        form to its blank state. */
    method DismissSend()
      modifies this
      ensures !sendDialog && sendForm == BlankForm
      ensures list == old(list) && viewDialog == old(viewDialog) && selected == old(selected) && snackbar == old(snackbar)
    {
      sendDialog := false;
      sendForm := BlankForm;
    }

    /** `handleSendNotification`, which checks nothing itself: the form is sent
        as it is; success reports, closes the dialog, resets the form and
        refetches with `refetch`; failure only reports, with the dialog open and
        the form intact. */
    method HandleSend(reply: Reply<()>, refetch: Reply<ListPage<Notification>>) returns (calls: seq<Call>)
      modifies this
      ensures reply.Ok? ==>
        && calls == [SendCall(old(sendForm)), FetchCall(old(list))]
        && snackbar == Some(Success) && !sendDialog && sendForm == BlankForm
        && list == old(list).Settle(refetch, LoadFailure)
      ensures reply.Failed? ==>
        && calls == [SendCall(old(sendForm))]
        && snackbar == Some(Error) && sendDialog == old(sendDialog) && sendForm == old(sendForm)
        && list == old(list)
      ensures viewDialog == old(viewDialog) && selected == old(selected)
    {
      calls := [SendCall(sendForm)];
      if reply.Ok? {
        snackbar := Some(Success);
        sendDialog := false;
        sendForm := BlankForm;
        var refetchCalls := Fetch(refetch);
        calls := calls + refetchCalls;
      } else {
        snackbar := Some(Error);
      }
    }

    /** A press of the Send button: a disabled button does nothing, an enabled
        one runs `handleSendNotification`. */
    method PressSend(reply: Reply<()>, refetch: Reply<ListPage<Notification>>) returns (calls: seq<Call>)
      modifies this
      ensures !SendEnabled(old(sendForm)) ==>
        calls == [] && sendForm == old(sendForm) && sendDialog == old(sendDialog)
        && snackbar == old(snackbar) && list == old(list)
      ensures SendEnabled(old(sendForm)) && reply.Ok? ==>
        && calls == [SendCall(old(sendForm)), FetchCall(old(list))]
        && snackbar == Some(Success) && !sendDialog && sendForm == BlankForm
        && list == old(list).Settle(refetch, LoadFailure)
      ensures SendEnabled(old(sendForm)) && reply.Failed? ==>
        && calls == [SendCall(old(sendForm))]
        && snackbar == Some(Error) && sendDialog == old(sendDialog) && sendForm == old(sendForm)
        && list == old(list)
      ensures viewDialog == old(viewDialog) && selected == old(selected)
    {
      calls := [];
      if SendEnabled(sendForm) {
        calls := HandleSend(reply, refetch);
      }
    }

    /** A row's view button. */
    method OpenView(n: Notification)
      modifies this
      ensures viewDialog && selected == Some(n)
      ensures list == old(list) && sendDialog == old(sendDialog) && sendForm == old(sendForm) && snackbar == old(snackbar)
    {
      selected := Some(n);
      viewDialog := true;
    }

    /** Close and the view dialog's `onClose`. */
    method CloseView()
      modifies this
      ensures !viewDialog && selected == None
      ensures list == old(list) && sendDialog == old(sendDialog) && sendForm == old(sendForm) && snackbar == old(snackbar)
    {
      viewDialog := false;
      selected := None;
    }
  }
}
