/**
 * The database row of a queued call and its two implicit conversions
 * (`Model/DbMessage.cs`). The row carries the two timestamps the caller's
 * `Message` does not have: `CreateTm` and the nullable `SentTm`.
 * Timestamps are whole seconds; `DefaultTime` is `default(DateTime)`.
 */
module DbMessages {
  import opened Wrappers
  import opened MessageTypes
  import opened DbMessageParameters

  const DefaultTime: int := 0

  datatype DbMessage = DbMessage(
    id: int,
    recurringId: Guid,
    typeName: string,
    text: string,
    status: MessageStatus,
    retries: int,
    wifiOnly: bool,
    createTm: int,
    sentTm: Option<int>,
    parameters: seq<Option<DbMessageParameter>>)

  /** `new DbMessage()`: every field at its default, an empty (non-null) parameter list. */
  function NewDbMessage(): (d: DbMessage)
    ensures d.parameters == [] && d.sentTm.None? && d.createTm == DefaultTime
  {
    DbMessage(0, EmptyGuid, "", "", Incomplete, 0, false, DefaultTime, None, [])
  }

  /** `Parameters.Select(p => (DbMessageParameter) p)`. */
  function ToDbList(ps: seq<Option<MessageParameter>>): (r: seq<Option<DbMessageParameter>>)
    ensures |r| == |ps|
    ensures forall i :: 0 <= i < |ps| ==> r[i] == ToDb(ps[i])
  {
    seq(|ps|, i requires 0 <= i < |ps| => ToDb(ps[i]))
  }

  /** `Parameters.Select(p => (MessageParameter) p)`. */
  function FromDbList(ds: seq<Option<DbMessageParameter>>): (r: seq<Option<MessageParameter>>)
    ensures |r| == |ds|
    ensures forall i :: 0 <= i < |ds| ==> r[i] == FromDb(ds[i])
  {
    seq(|ds|, i requires 0 <= i < |ds| => FromDb(ds[i]))
  }

  /** `(Message) message` for a non-null row: the timestamps are dropped. */
  function MessageOf(d: DbMessage): Message {
    Message(d.id, d.recurringId, d.typeName, d.text, d.status, d.retries, d.wifiOnly,
            FromDbList(d.parameters))
  }

  /** `(DbMessage) message` for a non-null message: default CreateTm, null SentTm. */
  function DbMessageOf(m: Message): DbMessage {
    DbMessage(m.id, m.recurringId, m.typeName, m.text, m.status, m.retries, m.wifiOnly,
              DefaultTime, None, ToDbList(m.parameters))
  }

  /** The conversion to `Message`, with `null` mapped to `null`. */
  function ToMessage(d: Option<DbMessage>): (r: Option<Message>)
    ensures r.None? <==> d.None?
    ensures d.Some? ==> r.value.id == d.value.id && |r.value.parameters| == |d.value.parameters|
  {
    match d
    case None => None
    case Some(row) => Some(MessageOf(row))
  }

  /** The conversion to `DbMessage`, with `null` mapped to `null`. */
  function ToDbMessage(m: Option<Message>): (r: Option<DbMessage>)
    ensures r.None? <==> m.None?
    ensures m.Some? ==> r.value.id == m.value.id && |r.value.parameters| == |m.value.parameters|
  {
    match m
    case None => None
    case Some(msg) => Some(DbMessageOf(msg))
  }

  /** Each list conversion undoes the other, element by element and in order. */
  lemma {:induction false} ListRoundTrips(ps: seq<Option<MessageParameter>>, ds: seq<Option<DbMessageParameter>>)
    ensures FromDbList(ToDbList(ps)) == ps
    ensures ToDbList(FromDbList(ds)) == ds
  {
    forall i | 0 <= i < |ps| ensures FromDbList(ToDbList(ps))[i] == ps[i] {
      ParameterRoundTrip(ps[i]);
    }
    forall i | 0 <= i < |ds| ensures ToDbList(FromDbList(ds))[i] == ds[i] {
      DbMessageParameters.RowRoundTrip(ds[i]);
    }
  }

  /**
   * Message -> row -> Message is the identity: Id, RecurringId, Type, Text,
   * Status, Retries, WifiOnly and the parameter list all survive.
   */
  lemma MessageRoundTrip(m: Option<Message>)
    ensures ToMessage(ToDbMessage(m)) == m
  {
    if m.Some? {
      ListRoundTrips(m.value.parameters, []);
    }
  }

  /**
   * Row -> Message -> row keeps every column except the two timestamps,
   * which come back as `default(DateTime)` and `null`.
   */
  lemma DbMessageRoundTrip(d: Option<DbMessage>)
    ensures d.None? ==> ToDbMessage(ToMessage(d)).None?
    ensures d.Some? ==> ToDbMessage(ToMessage(d)) == Some(d.value.(createTm := DefaultTime, sentTm := None))
  {
    if d.Some? {
      ListRoundTrips([], d.value.parameters);
    }
  }
}
