/** The notification provider: messages wait in a first-in first-out queue,
    at most one is on screen at a time, and closing it lets the next one
    in. Ids (the source's `Date.now()`) are passed in. The ghost history
    `notified` and `shown` records every message queued and every message
    put on screen, in order. */
module Notifications {
  import opened Base
  import Events

  /** MUI's `AlertColor`. */
  datatype Severity = Success | Info | Warning | Error

  datatype Notification = Notification(id: int, message: string, severity: Severity)

  /** The severity a window event is shown with: `appInfo` as info,
      `appError` as error; the provider does not listen to any other event. */
  function EventSeverity(e: Events.Event): (r: Option<Severity>)
    ensures r.Some? <==> e.AppInfo? || e.AppError?
    ensures r == Some(Info) <==> e.AppInfo?
    ensures r == Some(Error) <==> e.AppError?
  {
    match e
    case AppInfo(_) => Some(Info)
    case AppError(_) => Some(Error)
    case TodoChanged(_) => None
  }

  class NotificationCenter {
    var queue: seq<Notification>
    var current: Option<Notification>
    var open: bool
    ghost var notified: seq<Notification>
    ghost var shown: seq<Notification>

    /** Every message queued so far has been shown or is still waiting, in
        the order it was queued; the one on screen is the last shown; the
        snackbar is open exactly while a message is current. */
    ghost predicate Valid()
      reads this
    {
      && shown + queue == notified
      && (current.Some? ==> shown != [] && current.value == shown[|shown| - 1])
      && open == current.Some?
    }

    /** The three `useState` hooks: empty queue, closed, nothing current. */
    constructor()
      ensures Valid()
      ensures queue == [] && current.None? && !open
      ensures notified == [] && shown == []
    {
      queue, current, open := [], None, false;
      notified, shown := [], [];
    }

    /** `notify(message, severity = "info")`: the message joins the back of
        the queue; nothing else changes. */
    method Notify(id: int, message: string, severity: Severity := Info)
      requires Valid()
      modifies this
      ensures Valid()
      ensures queue == old(queue) + [Notification(id, message, severity)]
      ensures current == old(current) && open == old(open)
      ensures notified == old(notified) + [Notification(id, message, severity)]
      ensures shown == old(shown)
    {
      var n := Notification(id, message, severity);
      queue := queue + [n];
      notified := notified + [n];
    }

    /** `showNext`: while a message is current or the queue is empty it does
        nothing; otherwise the head of the queue becomes current, leaves the
        queue, and the snackbar opens. */
    method ShowNext()
      requires Valid()
      modifies this
      ensures Valid()
      ensures notified == old(notified)
      ensures old(current).Some? || old(queue) == [] ==>
        queue == old(queue) && current == old(current) && open == old(open) && shown == old(shown)
      ensures old(current).None? && old(queue) != [] ==>
        && current == Some(old(queue)[0])
        && queue == old(queue)[1..]
        && open
        && shown == old(shown) + [old(queue)[0]]
    {
      if current.Some? || queue == [] {
        return;
      }
      var next := queue[0];
      current := Some(next);
      queue := queue[1..];
      open := true;
      shown := shown + [next];
      assert shown + queue == old(shown) + ([next] + queue);
      assert [next] + queue == old(queue);
    }

    /** `handleClose`: the snackbar closes and nothing is current. */
    method HandleClose()
      requires Valid()
      modifies this
      ensures Valid()
      ensures !open && current.None?
      ensures queue == old(queue) && notified == old(notified) && shown == old(shown)
    {
      open := false;
      current := None;
    }

    /** The window listeners: `appInfo` and `appError` queue their detail
        with severity info or error; other events are not listened to. */
    method OnAppEvent(e: Events.Event, id: int)
      requires Valid()
      modifies this
      ensures Valid()
      ensures current == old(current) && open == old(open) && shown == old(shown)
      ensures e.AppInfo? ==> queue == old(queue) + [Notification(id, e.message, Info)]
      ensures e.AppError? ==> queue == old(queue) + [Notification(id, e.message, Error)]
      ensures e.TodoChanged? ==> queue == old(queue) && notified == old(notified)
    {
      match EventSeverity(e) {
        case Some(severity) => Notify(id, e.message, severity);
        case None =>
      }
    }
  }
}
