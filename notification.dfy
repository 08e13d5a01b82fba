/** The notification concept of the event-driven example: the history of
    notifications sent to each recipient. The clock is a parameter. */
module Notification {
  import opened Wrappers
  import opened Json

  datatype Action = Send | GetHistory | Reset

  function Name(a: Action): string {
    match a
    case Send => "send"
    case GetHistory => "getHistory"
    case Reset => "reset"
  }

  /** The `switch` of `execute`. */
  function Dispatch(action: string): (r: Result<Action>)
    ensures r.Ok? ==> Name(r.value) == action
    ensures r.Err? ==> r.error == "Unknown action: " + action && forall a :: Name(a) != action
  {
    if action == "send" then Ok(Send)
    else if action == "getHistory" then Ok(GetHistory)
    else if action == "reset" then Ok(Reset)
    else Err("Unknown action: " + action)
  }

  /** A sent notification; `kind` is the input's `type`, None when absent. */
  datatype Note = Note(id: string, kind: Option<string>, to: string, template: string, data: Value, sentAt: int,
                       status: string)

  /** The error JavaScript raises for `type.toUpperCase()` on an absent type. */
  const NoTypeError: string := "Cannot read properties of undefined (reading 'toUpperCase')"

  class NotificationStore {
    var sent: map<string, seq<Note>>

    constructor()
      ensures sent == map[]
    {
      sent := map[];
    }

    /** `send`: one 'sent' notification is appended to the recipient's
        history. The log line after it upper-cases the type, so an absent
        type fails the call with the notification already stored. */
    method Send(kind: Option<string>, to: string, template: string, data: Value, now: int) returns (r: Result<Note>)
      modifies this
      ensures var n := Note("notif_" + IntToString(now), kind, to, template, data, now, "sent");
              sent == old(sent)[to := (if to in old(sent) then old(sent)[to] else []) + [n]]
              && (r.Ok? ==> r.value == n)
      ensures r.Err? <==> kind.None?
      ensures r.Err? ==> r.error == NoTypeError
      ensures forall other :: other != to && other in old(sent) ==> other in sent && sent[other] == old(sent)[other]
      ensures |sent[to]| == (if to in old(sent) then |old(sent)[to]| else 0) + 1
    {
      var n := Note("notif_" + IntToString(now), kind, to, template, data, now, "sent");
      var history := if to in sent then sent[to] else [];
      sent := sent[to := history + [n]];
      if kind.None? {
        return Err(NoTypeError);
      }
      return Ok(n);
    }

    method GetHistory(recipient: string) returns (history: seq<Note>)
      ensures recipient in sent ==> history == sent[recipient]
      ensures recipient !in sent ==> history == []
    {
      history := if recipient in sent then sent[recipient] else [];
    }

    method Reset()
      modifies this
      ensures sent == map[]
    {
      sent := map[];
    }
  }

  /** After two sends to the same recipient, its history holds both, in
      send order, whatever else was there before. */
  method SendTwice(store: NotificationStore, to: string, a: Note, b: Note, now1: int, now2: int)
    returns (history: seq<Note>)
    modifies store
    ensures |history| >= 2
    ensures history[|history| - 2].sentAt == now1 && history[|history| - 1].sentAt == now2
    ensures history[|history| - 2].template == a.template && history[|history| - 1].template == b.template
  {
    var r1 := store.Send(a.kind, to, a.template, a.data, now1);
    var r2 := store.Send(b.kind, to, b.template, b.data, now2);
    history := store.GetHistory(to);
  }
}
