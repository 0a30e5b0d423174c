/**
 * The database row of one call argument and its two implicit conversions
 * (`Model/DbMessageParameter.cs`). The caller's `Sequence` travels in the
 * row's `Id` column and comes back out of it.
 */
module DbMessageParameters {
  import opened Wrappers
  import opened MessageTypes

  datatype DbMessageParameter = DbMessageParameter(
    id: int,
    messageId: int,
    typeName: string,
    text: string)

  /** `(DbMessageParameter) item` for a non-null item. */
  function FromParameter(item: MessageParameter): (r: DbMessageParameter)
  {
    DbMessageParameter(item.sequence, item.messageId, item.typeName, item.text)
  }

  /** `(MessageParameter) item` for a non-null item. */
  function ToParameter(item: DbMessageParameter): (r: MessageParameter)
  {
    MessageParameter(item.id, item.messageId, item.typeName, item.text)
  }

  /** The conversion to a row, with `null` mapped to `null`. */
  function ToDb(item: Option<MessageParameter>): (r: Option<DbMessageParameter>)
    ensures r.None? <==> item.None?
    ensures item.Some? ==> r.value.id == item.value.sequence
  {
    match item
    case None => None
    case Some(p) => Some(FromParameter(p))
  }

  /** The conversion back from a row, with `null` mapped to `null`. */
  function FromDb(item: Option<DbMessageParameter>): (r: Option<MessageParameter>)
    ensures r.None? <==> item.None?
    ensures item.Some? ==> r.value.sequence == item.value.id
  {
    match item
    case None => None
    case Some(d) => Some(ToParameter(d))
  }

  /** Parameter -> row -> parameter keeps Sequence, MessageId, Type and Text. */
  lemma ParameterRoundTrip(item: Option<MessageParameter>)
    ensures FromDb(ToDb(item)) == item
  {
  }

  /** Row -> parameter -> row keeps Id, MessageId, Type and Text. */
  lemma RowRoundTrip(item: Option<DbMessageParameter>)
    ensures ToDb(FromDb(item)) == item
  {
  }
}
