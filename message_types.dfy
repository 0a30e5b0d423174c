/**
 * The call records the store-and-forward queue passes around: a `Message`
 * with its ordered list of `MessageParameter`s, as the queue's callers see
 * them (`Model/Message.cs`). A `null` list element is `None`.
 */
module MessageTypes {
  import opened Wrappers

  /** The life cycle of a queued call. */
  datatype MessageStatus = Incomplete | Transmitting | Sent | Failed

  /** A `System.Guid`; `EmptyGuid` is `Guid.Empty`. */
  type Guid = nat
  const EmptyGuid: Guid := 0

  /** One serialised argument of a call, in argument order. */
  datatype MessageParameter = MessageParameter(
    sequence: int,
    messageId: int,
    typeName: string,
    text: string)

  /** A queued call: its payload, its delivery state and its arguments. */
  datatype Message = Message(
    id: int,
    recurringId: Guid,
    typeName: string,
    text: string,
    status: MessageStatus,
    retries: int,
    wifiOnly: bool,
    parameters: seq<Option<MessageParameter>>)

  /**
   * `new Message()`: id 0, status Incomplete, an empty parameter list.
   * Its `Type` and `Text` are left `null`; the model writes that `null`
   * as "" (a stored message always has both set, to the call's type name
   * and its JSON text).
   */
  function NewMessage(): (m: Message)
    ensures m.id == 0 && m.status == Incomplete && m.parameters == []
    ensures m.recurringId == EmptyGuid && m.retries == 0 && !m.wifiOnly
    ensures m.typeName == "" && m.text == ""
  {
    Message(0, EmptyGuid, "", "", Incomplete, 0, false, [])
  }
}
