/** The backend's message-list validators. */
module Validation {
  import opened Wrappers
  import opened Domain

  /**
   * The last message of the list whatever its role, or the error
   * `"No user message found"` for an empty list.
   */
  function LastMessage(msgs: seq<Message>): (r: Result<Message, string>)
    ensures r.Err? <==> |msgs| == 0
    ensures r.Err? ==> r.error == "No user message found"
    ensures r.Ok? ==> r.value == msgs[|msgs| - 1]
  {
    if |msgs| == 0 then Err("No user message found") else Ok(msgs[|msgs| - 1])
  }

  /** Position `i` holds the first message with role `role`. */
  predicate IsFirst(msgs: seq<Message>, role: Role, i: int)
  {
    0 <= i < |msgs| && msgs[i].role == role && forall j :: 0 <= j < i ==> msgs[j].role != role
  }

  predicate HasRole(msgs: seq<Message>, role: Role)
  {
    exists i :: 0 <= i < |msgs| && msgs[i].role == role
  }

  /** The position of the first message with role `role`. */
  function FirstWithRole(msgs: seq<Message>, role: Role): (r: Option<nat>)
    ensures r.Some? ==> IsFirst(msgs, role, r.value)
    ensures r.None? ==> forall j :: 0 <= j < |msgs| ==> msgs[j].role != role
  {
    if |msgs| == 0 then None
    else if msgs[0].role == role then Some(0)
    else
      match FirstWithRole(msgs[1..], role)
      case None => None
      case Some(k) => Some(k + 1)
  }

  /**
   * The first user message and the first assistant message, or an error when
   * either role is missing from the list.
   */
  function MessagesForSaving(msgs: seq<Message>): (r: Result<(Message, Message), string>)
    ensures r.Ok? <==> HasRole(msgs, User) && HasRole(msgs, Assistant)
    ensures r.Err? ==> r.error == "Invalid messages: must include user and assistant messages"
    ensures r.Ok? ==> exists i :: IsFirst(msgs, User, i) && r.value.0 == msgs[i]
    ensures r.Ok? ==> exists i :: IsFirst(msgs, Assistant, i) && r.value.1 == msgs[i]
  {
    match (FirstWithRole(msgs, User), FirstWithRole(msgs, Assistant))
    case (Some(u), Some(a)) => Ok((msgs[u], msgs[a]))
    case _ => Err("Invalid messages: must include user and assistant messages")
  }
}
