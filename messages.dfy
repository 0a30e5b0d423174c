/**
 * The persistent message table of the store-and-forward queue
 * (`Model/Messages.cs`): one row per queued call, each with its ordered
 * child parameter rows, updated in place by the queue.
 *
 * The SQLite connection becomes the `table` map (row id to row, children
 * included), `connected` says whether `_dbConnection` is non-null, and the
 * two AUTOINCREMENT counters are `nextId` and `nextParamId`. Acquiring the
 * semaphore is the `lockTaken` input of each public operation; a timed-out
 * wait makes the operation a no-op. `DateTime.Now` is the `now` input,
 * in whole seconds.
 */
module MessageStore {
  import opened Wrappers
  import opened MessageTypes
  import opened DbMessageParameters
  import opened DbMessages
  import Sets

  /** `DateTime.Now.AddDays(-1)` is `now - DayLength`. */
  const DayLength: int := 86400

  type Table = map<int, DbMessage>

  // ---------------------------------------------------------------------
  // Specification functions over the table
  // ---------------------------------------------------------------------

  /** `null` as a type filter means "every type", like the empty string. */
  function TypeFilter(messageType: Option<string>): (f: string)
    ensures messageType.None? ==> f == ""
    ensures messageType.Some? ==> f == messageType.value
  {
    messageType.GetOr("")
  }

  /** The row filter of `GetPendingMessagesNoLock`. */
  predicate IsPending(d: DbMessage, messageType: string) {
    d.sentTm.None? && d.status == Incomplete && (messageType == "" || d.typeName == messageType)
  }

  function PendingIds(t: Table, messageType: string): set<int> {
    set id | id in t && IsPending(t[id], messageType)
  }

  /**
   * The order `OrderBy(CreateTm)` leaves the rows in: a stable sort of a
   * table scan in row id order, so ties on CreateTm keep id order.
   */
  predicate Before(t: Table, a: int, b: int) {
    a in t && b in t &&
    (t[a].createTm < t[b].createTm || (t[a].createTm == t[b].createTm && a < b))
  }

  /** `ids` lists exactly the pending rows, each once, oldest first. */
  ghost predicate PendingOrder(t: Table, messageType: string, ids: seq<int>) {
    (forall i :: 0 <= i < |ids| ==> ids[i] in t && IsPending(t[ids[i]], messageType)) &&
    (forall id :: id in t && IsPending(t[id], messageType) ==> id in ids) &&
    (forall i, j :: 0 <= i < j < |ids| ==> Before(t, ids[i], ids[j]))
  }

  function IdsOf(list: seq<Message>): (ids: seq<int>)
    ensures |ids| == |list|
    ensures forall i :: 0 <= i < |list| ==> ids[i] == list[i].id
  {
    seq(|list|, i requires 0 <= i < |list| => list[i].id)
  }

  /** The table with the rows `ids` (and their parameter rows) deleted. */
  function Without(t: Table, ids: set<int>): (r: Table)
    ensures forall id :: id in r <==> id in t && id !in ids
    ensures forall id :: id in r ==> r[id] == t[id]
  {
    map id | id in t && id !in ids :: t[id]
  }

  /** `UPDATE DbMessage SET Retries=Retries+1 WHERE Id=?`. */
  function Retried(t: Table, id: int): Table {
    if id in t then t[id := t[id].(retries := t[id].retries + 1)] else t
  }

  /** `UPDATE DbMessage SET Status = Incomplete, SentTm = NULL WHERE Id = ?`. */
  function Reset(t: Table, id: int): Table {
    if id in t then t[id := t[id].(status := Incomplete, sentTm := None)] else t
  }

  /**
   * `MarkMessageNoLock`: Sent deletes the row and its parameters, Failed
   * stamps SentTm, any other status is written alone.
   */
  function Marked(t: Table, id: int, status: MessageStatus, now: int): Table {
    if status == Sent then Without(t, {id})
    else if id !in t then t
    else if status == Failed then t[id := t[id].(status := Failed, sentTm := Some(now))]
    else t[id := t[id].(status := status)]
  }

  /**
   * `InsertWithChildren` of `m` as row `id`, stamped `now`: the message's
   * columns, and its non-null parameters as child rows numbered from `firstId`.
   */
  function Appended(t: Table, m: Message, id: int, firstId: int, now: int): (r: Table)
    ensures r.Keys == t.Keys + {id}
    ensures forall k :: k in t && k != id ==> r[k] == t[k]
    ensures MessageOf(r[id]).(parameters := m.parameters) == m.(id := id)
    ensures r[id].createTm == now && r[id].sentTm.None?
    ensures |r[id].parameters| == |NonNull(m.parameters)|
  {
    t[id := DbMessageOf(m).(id := id, createTm := now, parameters := StoredChildren(m.parameters, id, firstId))]
  }

  /** `MarkMessageNoLock(_, Failed)` applied to every row of `ids`. */
  function FailedAll(t: Table, ids: set<int>, now: int): (r: Table)
    ensures r.Keys == t.Keys
  {
    map id | id in t :: if id in ids then t[id].(status := Failed, sentTm := Some(now)) else t[id]
  }

  /** `ResendStuckMessages`: every Transmitting row goes back to Incomplete with no SentTm. */
  function Unstuck(t: Table): (r: Table)
    ensures r.Keys == t.Keys
  {
    map id | id in t ::
      if t[id].status == Transmitting then t[id].(status := Incomplete, sentTm := None) else t[id]
  }

  /** The rows `DeleteOldMessagesNoLock` removes after the invalid purge: CreateTm <= now - 1 day. */
  function OldIds(t: Table, now: int): set<int> {
    set id | id in t && t[id].createTm <= now - DayLength
  }

  /** The rows whose CreateTm column does not parse as a date. */
  function InvalidIds(t: Table, unparsable: set<int>): set<int> {
    set id | id in t && id in unparsable
  }

  /** The non-null entries of a parameter list, in order. */
  function NonNull(ps: seq<Option<MessageParameter>>): (r: seq<MessageParameter>)
    ensures |r| <= |ps|
  {
    if |ps| == 0 then []
    else if ps[0].None? then NonNull(ps[1..])
    else [ps[0].value] + NonNull(ps[1..])
  }

  /**
   * The child rows `InsertWithChildren` writes for a new message: one per
   * non-null parameter, in order, each under the new message's id and under
   * the next AUTOINCREMENT id (the supplied `Id`, the caller's Sequence, is
   * not used).
   */
  function StoredChildren(ps: seq<Option<MessageParameter>>, messageId: int, firstId: int)
    : (r: seq<Option<DbMessageParameter>>)
    ensures |r| == |NonNull(ps)|
    ensures forall k :: 0 <= k < |r| ==>
      r[k] == Some(DbMessageParameter(firstId + k, messageId, NonNull(ps)[k].typeName, NonNull(ps)[k].text))
    decreases |ps|
  {
    if |ps| == 0 then []
    else if ps[0].None? then StoredChildren(ps[1..], messageId, firstId)
    else
      [Some(DbMessageParameter(firstId, messageId, ps[0].value.typeName, ps[0].value.text))]
        + StoredChildren(ps[1..], messageId, firstId + 1)
  }

  /** The index of the first `null` parameter, or the length when there is none. */
  function FirstNull(ps: seq<Option<MessageParameter>>): (n: nat)
    ensures n <= |ps|
    ensures forall i :: 0 <= i < n ==> ps[i].Some?
    ensures n < |ps| ==> ps[n].None?
  {
    if |ps| == 0 || ps[0].None? then 0 else 1 + FirstNull(ps[1..])
  }

  /**
   * The caller's parameters after the insert: up to the first `null`, each
   * carries the new message id and the row id it was stored under (`first`
   * onwards); from the first `null` on they are as they were.
   */
  predicate IdsCopiedBack(params: seq<Option<MessageParameter>>, ps: seq<Option<MessageParameter>>, id: int, first: int) {
    |ps| == |params| &&
    (forall i :: 0 <= i < FirstNull(params) ==> ps[i] == Some(params[i].value.(messageId := id, sequence := first + i))) &&
    (forall i :: FirstNull(params) <= i < |params| ==> ps[i] == params[i])
  }

  /** Before the first `null`, the non-null entries are the list itself. */
  lemma {:induction false} NonNullPrefix(ps: seq<Option<MessageParameter>>, k: nat)
    requires k < FirstNull(ps)
    ensures k < |NonNull(ps)| && NonNull(ps)[k] == ps[k].value
    decreases k
  {
    if k > 0 {
      NonNullPrefix(ps[1..], k - 1);
    }
  }

  /** A transmitted record cannot be fetched as pending again. */
  lemma MarkedNotPending(t: Table, id: int, status: MessageStatus, now: int, messageType: string)
    requires status != Incomplete
    ensures id !in PendingIds(Marked(t, id, status, now), messageType)
  {
  }

  /**
   * `DeletePendingMessages` empties the pending set of its type filter and
   * deletes nothing: every row survives, and only the pending ones change.
   */
  lemma FailedAllClearsPending(t: Table, messageType: string, now: int)
    ensures PendingIds(FailedAll(t, PendingIds(t, messageType), now), messageType) == {}
    ensures forall id :: id in t && id !in PendingIds(t, messageType) ==>
      FailedAll(t, PendingIds(t, messageType), now)[id] == t[id]
  {
    var r := FailedAll(t, PendingIds(t, messageType), now);
    forall id | id in r ensures !IsPending(r[id], messageType) {
      if id !in PendingIds(t, messageType) {
        assert r[id] == t[id];
      }
    }
  }

  /**
   * Only `IncrementRetry` changes Retries: every other update keeps the
   * retry count of every row it keeps.
   */
  lemma RetriesFrame(t: Table, id: int, status: MessageStatus, now: int, ids: set<int>)
    ensures forall k :: k in Marked(t, id, status, now) ==> Marked(t, id, status, now)[k].retries == t[k].retries
    ensures forall k :: k in Reset(t, id) ==> Reset(t, id)[k].retries == t[k].retries
    ensures forall k :: k in FailedAll(t, ids, now) ==> FailedAll(t, ids, now)[k].retries == t[k].retries
    ensures forall k :: k in Unstuck(t) ==> Unstuck(t)[k].retries == t[k].retries
    ensures forall k :: k in Without(t, ids) ==> Without(t, ids)[k].retries == t[k].retries
  {
  }

  /** `IncrementRetry` raises one row's count by exactly one and touches nothing else. */
  lemma RetriedSpec(t: Table, id: int)
    ensures Retried(t, id).Keys == t.Keys
    ensures id in t ==> Retried(t, id)[id] == t[id].(retries := t[id].retries + 1)
    ensures forall k :: k in t && k != id ==> Retried(t, id)[k] == t[k]
  {
  }

  /**
   * After the start-up sequence (invalid purge, old purge, stuck recovery)
   * every remaining row has a readable CreateTm newer than a day and is
   * not Transmitting, and nothing else was lost or altered.
   */
  lemma StartupSpec(t: Table, unparsable: set<int>, now: int)
    ensures var purged := Without(t, InvalidIds(t, unparsable));
            var r := Unstuck(Without(purged, OldIds(purged, now)));
            (forall id :: id in r <==> id in t && id !in unparsable && t[id].createTm > now - DayLength) &&
            (forall id :: id in r ==> r[id].status != Transmitting) &&
            (forall id :: id in r && t[id].status != Transmitting ==> r[id] == t[id])
  {
  }

  /** Two pending orders of the same rows are empty together. */
  lemma PendingOrderEmpty(t: Table, messageType: string, a: seq<int>, b: seq<int>)
    requires PendingOrder(t, messageType, a) && PendingOrder(t, messageType, b)
    ensures |a| == 0 <==> |b| == 0
  {
    if |a| > 0 {
      var head := a[0];
      assert head in t && IsPending(t[head], messageType);
      assert head in b;
    }
    if |b| > 0 {
      var head := b[0];
      assert head in t && IsPending(t[head], messageType);
      assert head in a;
    }
  }

  /** The head of a pending order is the oldest pending row. */
  lemma PendingOrderHead(t: Table, messageType: string, a: seq<int>)
    requires PendingOrder(t, messageType, a) && |a| > 0
    ensures a[0] in PendingIds(t, messageType)
    ensures forall id :: id in PendingIds(t, messageType) && id != a[0] ==> Before(t, a[0], id)
  {
    forall id | id in PendingIds(t, messageType) && id != a[0] ensures Before(t, a[0], id) {
      var i :| 0 <= i < |a| && a[i] == id;
    }
  }

  /**
   * The pending order is fully determined: two lists that both enumerate
   * the pending rows oldest first are the same list.
   */
  lemma {:induction false} PendingOrderUnique(t: Table, messageType: string, a: seq<int>, b: seq<int>)
    requires PendingOrder(t, messageType, a) && PendingOrder(t, messageType, b)
    ensures a == b
    decreases |a|
  {
    PendingOrderEmpty(t, messageType, a, b);
    if |a| > 0 {
      PendingOrderHead(t, messageType, a);
      PendingOrderHead(t, messageType, b);
      assert a[0] == b[0];
      SuffixOrder(t, messageType, a);
      SuffixOrder(t, messageType, b);
      PendingOrderUnique(Without(t, {a[0]}), messageType, a[1..], b[1..]);
      assert a == [a[0]] + a[1..] && b == [b[0]] + b[1..];
    }
  }

  /** Dropping the oldest pending row leaves a pending order of the smaller table. */
  lemma SuffixOrder(t: Table, messageType: string, a: seq<int>)
    requires PendingOrder(t, messageType, a) && |a| > 0
    ensures PendingOrder(Without(t, {a[0]}), messageType, a[1..])
  {
    var t2 := Without(t, {a[0]});
    forall id | id in PendingIds(t2, messageType) ensures id in a[1..] {
      assert id in PendingIds(t, messageType);
      var i :| 0 <= i < |a| && a[i] == id;
      assert a[1..][i - 1] == id;
    }
    forall i | 0 <= i < |a[1..]| ensures a[1..][i] in PendingIds(t2, messageType) {
      assert a[1..][i] == a[i + 1];
      assert Before(t, a[0], a[i + 1]);
    }
    forall i, j | 0 <= i < j < |a[1..]| ensures Before(t2, a[1..][i], a[1..][j]) {
      assert Before(t, a[i + 1], a[j + 1]);
      assert Before(t, a[0], a[i + 1]) && Before(t, a[0], a[j + 1]);
    }
  }

  /** The ids of the rows carrying a recurring id. */
  function RecurringIds(t: Table, recurringId: Guid): set<int> {
    set id | id in t && t[id].recurringId == recurringId
  }

  /** Every non-empty finite set of ids has a least element. */
  lemma {:induction false} LeastExists(s: set<int>)
    requires s != {}
    ensures exists m :: m in s && forall x :: x in s ==> m <= x
    decreases |s|
  {
    Sets.Pick(s);
    var y :| y in s;
    if s != {y} {
      LeastExists(s - {y});
      var m :| m in s - {y} && forall x :: x in s - {y} ==> m <= x;
      var least := if y < m then y else m;
      forall x | x in s ensures least <= x {
        if x != y { assert x in s - {y}; }
      }
    } else {
      assert forall x :: x in s ==> y <= x;
    }
  }

  /** The least id of a non-empty set: the row a `Find` in row id order returns. */
  ghost function Least(s: set<int>): (m: int)
    requires s != {}
    ensures m in s && forall x :: x in s ==> m <= x
  {
    LeastExists(s);
    var m :| m in s && forall x :: x in s ==> m <= x; m
  }

  // ---------------------------------------------------------------------
  // The store
  // ---------------------------------------------------------------------

  class Messages {
    var connected: bool
    var table: Table
    var unparsable: set<int>
    var nextId: int
    var nextParamId: int

    /**
     * Rows sit under their own positive id, below the AUTOINCREMENT
     * counter; only ids already handed out can carry an unreadable
     * CreateTm (a row added later is stamped with `DateTime.Now`).
     */
    ghost predicate Valid()
      reads this
    {
      (forall id :: id in table ==> table[id].id == id && 0 < id < nextId) && 0 < nextId && 0 < nextParamId &&
      (forall id :: id in unparsable ==> id < nextId)
    }

    /**
     * `Create`: open the store, then purge rows with an unreadable
     * CreateTm, purge rows older than a day, and send stuck rows again.
     * With no platform service the store stays disconnected and every
     * operation is a no-op; a platform that yields no connection makes
     * `ConfigureDb` throw `InvalidOperationException` (`failed`), after
     * the (disconnected) instance has been created.
     */
    constructor Create(platform: bool, connection: bool, rows: Table, unreadable: set<int>,
                       counter: int, paramCounter: int, now: int)
      requires forall id :: id in rows ==> rows[id].id == id && 0 < id < counter
      requires 0 < counter && 0 < paramCounter
      ensures Valid()
      ensures connected == (platform && connection)
      ensures unparsable == InvalidIds(rows, unreadable)
      ensures !connected ==> table == rows
      ensures connected ==>
        var purged := Without(rows, InvalidIds(rows, unreadable));
        table == Unstuck(Without(purged, OldIds(purged, now)))
    {
      connected := platform && connection;
      table := rows;
      unparsable := InvalidIds(rows, unreadable);
      nextId := counter;
      nextParamId := paramCounter;
      new;
      if connected {
        DeleteOldMessagesNoLock(now);
        ResendStuckMessages();
      }
    }

    /** `ConfigureDb` throws exactly when a platform service yields no connection. */
    static function ConfigureFails(platform: bool, connection: bool): (failed: bool)
      ensures failed <==> platform && !connection
    {
      platform && !connection
    }

    /**
     * `AddNewMessage`: store the message under a fresh id with CreateTm =
     * now, one child row per non-null parameter under fresh ids; then copy
     * the new ids back into the caller's message. The copy-back stops at
     * the first `null` parameter (its NullReferenceException is caught).
     * Returns the caller's message as it is afterwards.
     */
    method AddNewMessage(message: Option<Message>, lockTaken: bool, now: int) returns (updated: Option<Message>)
      requires Valid()
      modifies this`table, this`nextId, this`nextParamId
      ensures Valid()
      ensures !(connected && message.Some? && lockTaken) ==>
        table == old(table) && nextId == old(nextId) && nextParamId == old(nextParamId) && updated == message
      ensures connected && message.Some? && lockTaken ==>
        var m := message.value;
        var id := old(nextId);
        id !in old(table) && id !in unparsable &&
        table == Appended(old(table), m, id, old(nextParamId), now) &&
        nextParamId == old(nextParamId) + |NonNull(m.parameters)| &&
        updated.Some? && updated.value.id == id &&
        IdsCopiedBack(m.parameters, updated.value.parameters, id, old(nextParamId)) &&
        updated.value.(id := m.id, parameters := m.parameters) == m
    {
      updated := message;
      if !(connected && message.Some? && lockTaken) {
        return;
      }
      var m := message.value;
      var id := nextId;
      var first := nextParamId;
      var children := StoredChildren(m.parameters, id, first);
      var ps := CopyBackIds(m.parameters, children, id, first);
      table := Appended(table, m, id, first, now);
      nextId := nextId + 1;
      nextParamId := nextParamId + |children|;
      updated := Some(m.(id := id, parameters := ps));
    }

    /**
     * The loop after the insert: copies each stored child's message id and
     * row id back into the caller's parameter, stopping at the first `null`.
     */
    method CopyBackIds(params: seq<Option<MessageParameter>>, children: seq<Option<DbMessageParameter>>,
                       ghost id: int, ghost first: int)
      returns (ps: seq<Option<MessageParameter>>)
      requires children == StoredChildren(params, id, first)
      ensures IdsCopiedBack(params, ps, id, first)
    {
      ps := params;
      var index := 0;
      while index < |ps| && ps[index].Some?
        invariant 0 <= index <= FirstNull(params)
        invariant |ps| == |params|
        invariant forall i :: 0 <= i < index ==>
          ps[i] == Some(params[i].value.(messageId := id, sequence := first + i))
        invariant forall i :: index <= i < |ps| ==> ps[i] == params[i]
      {
        NonNullPrefix(params, index);
        ps := ps[index := Some(ps[index].value.(messageId := children[index].value.messageId,
                                                 sequence := children[index].value.id))];
        index := index + 1;
      }
    }

    /** `IncrementRetry`: true iff exactly one row was updated. */
    method IncrementRetry(message: Option<Message>, lockTaken: bool) returns (ok: bool)
      requires Valid()
      modifies this`table
      ensures Valid()
      ensures ok <==> connected && message.Some? && lockTaken && message.value.id in old(table)
      ensures table == if connected && message.Some? && lockTaken then Retried(old(table), message.value.id) else old(table)
    {
      ok := false;
      if connected && message.Some? && lockTaken {
        ok := message.value.id in table;
        table := Retried(table, message.value.id);
      }
    }

    /** `ResetMessage`: true iff the row exists and was reset. */
    method ResetMessage(messageId: int, lockTaken: bool) returns (ok: bool)
      requires Valid()
      modifies this`table
      ensures Valid()
      ensures ok <==> connected && lockTaken && messageId in old(table)
      ensures table == if ok then Reset(old(table), messageId) else old(table)
    {
      ok := false;
      if connected && lockTaken && messageId in table {
        table := Reset(table, messageId);
        ok := true;
      }
    }

    /** The lowest row id among `ids`: the row `Find` returns first. */
    static method FirstId(ids: set<int>) returns (m: int)
      requires ids != {}
      ensures m in ids && forall x :: x in ids ==> m <= x
    {
      Sets.Pick(ids);
      m :| m in ids;
      var rest := ids - {m};
      while rest != {}
        invariant m in ids && rest <= ids
        invariant forall x :: x in ids && x !in rest ==> m <= x
        decreases |rest|
      {
        Sets.Pick(rest);
        var x :| x in rest;
        if x < m { m := x; }
        rest := rest - {x};
      }
    }

    /**
     * `RemoveRecurringMessage`: for a non-empty recurring id, delete the
     * first row (lowest id) carrying it, with its parameters.
     */
    method RemoveRecurringMessage(recurringId: Guid, lockTaken: bool) returns (ok: bool)
      requires Valid()
      modifies this`table
      ensures Valid()
      ensures ok <==> connected && recurringId != EmptyGuid && lockTaken &&
                      RecurringIds(old(table), recurringId) != {}
      ensures table == if ok then Without(old(table), {Least(RecurringIds(old(table), recurringId))})
                       else old(table)
    {
      ok := false;
      if connected && recurringId != EmptyGuid && lockTaken {
        var matching := RecurringIds(table, recurringId);
        if matching != {} {
          var id := FirstId(matching);
          ok := DeleteMessageNoLock(id);
        }
      }
    }

    /** `MarkMessage`: `MarkMessageNoLock` for a non-null message under the lock. */
    method MarkMessage(message: Option<Message>, status: MessageStatus, lockTaken: bool, now: int)
      requires Valid()
      modifies this`table
      ensures Valid()
      ensures table == if connected && message.Some? && lockTaken
                       then Marked(old(table), message.value.id, status, now) else old(table)
    {
      if connected && message.Some? && lockTaken {
        MarkMessageNoLock(message.value.id, status, now);
      }
    }

    method MarkMessageNoLock(messageId: int, status: MessageStatus, now: int)
      requires Valid()
      modifies this`table
      ensures Valid()
      ensures table == Marked(old(table), messageId, status, now)
    {
      if status == Sent {
        var _ := DeleteMessageNoLock(messageId);
      } else if messageId in table {
        if status == Failed {
          table := table[messageId := table[messageId].(status := Failed, sentTm := Some(now))];
        } else {
          table := table[messageId := table[messageId].(status := status)];
        }
      }
    }

    /**
     * `GetPendingMessages`: the pending rows of the type filter as messages,
     * oldest CreateTm first; empty without a connection or the lock.
     */
    method GetPendingMessages(messageType: Option<string>, lockTaken: bool) returns (list: seq<Message>)
      requires Valid()
      ensures !(connected && lockTaken) ==> list == []
      ensures connected && lockTaken ==>
        PendingOrder(table, TypeFilter(messageType), IdsOf(list)) &&
        forall i :: 0 <= i < |list| ==> list[i].id in table && list[i] == MessageOf(table[list[i].id])
    {
      list := [];
      if connected && lockTaken {
        var ids := GetPendingIdsNoLock(TypeFilter(messageType));
        var t := table;
        assert forall i :: 0 <= i < |ids| ==> ids[i] in PendingIds(t, TypeFilter(messageType));
        list := seq(|ids|, i requires 0 <= i < |ids| => MessageOf(t[ids[i]]));
        assert forall i :: 0 <= i < |ids| ==> list[i].id == t[ids[i]].id == ids[i];
        assert IdsOf(list) == ids;
      }
    }

    /**
     * The query of `GetPendingMessagesNoLock`: select the pending rows and
     * order them by CreateTm, then id.
     */
    method GetPendingIdsNoLock(messageType: string) returns (ids: seq<int>)
      ensures PendingOrder(table, messageType, ids)
    {
      var remaining := PendingIds(table, messageType);
      ids := [];
      while remaining != {}
        invariant remaining <= PendingIds(table, messageType)
        invariant forall i :: 0 <= i < |ids| ==> ids[i] in PendingIds(table, messageType) && ids[i] !in remaining
        invariant forall id :: id in PendingIds(table, messageType) ==> id in ids || id in remaining
        invariant forall i, j :: 0 <= i < j < |ids| ==> Before(table, ids[i], ids[j])
        invariant forall i, r :: 0 <= i < |ids| && r in remaining ==> Before(table, ids[i], r)
        decreases |remaining|
      {
        var best := OldestOf(remaining);
        ids := ids + [best];
        remaining := remaining - {best};
      }
    }

    /** The row of `candidates` that `OrderBy(CreateTm)` puts first. */
    method OldestOf(candidates: set<int>) returns (best: int)
      requires candidates != {} && candidates <= table.Keys
      ensures best in candidates
      ensures forall x :: x in candidates && x != best ==> Before(table, best, x)
    {
      Sets.Pick(candidates);
      best :| best in candidates;
      var rest := candidates - {best};
      while rest != {}
        invariant best in candidates && rest <= candidates && best !in rest
        invariant forall x :: x in candidates && x !in rest && x != best ==> Before(table, best, x)
        decreases |rest|
      {
        Sets.Pick(rest);
        var x :| x in rest;
        if Before(table, x, best) { best := x; }
        rest := rest - {x};
      }
    }

    /** `GetMessage`: the stored message, or `new Message()` when there is none. */
    method GetMessage(messageId: int, lockTaken: bool) returns (message: Message)
      ensures connected && lockTaken && messageId in table ==> message == MessageOf(table[messageId])
      ensures !(connected && lockTaken && messageId in table) ==> message == NewMessage()
    {
      message := NewMessage();
      if connected && lockTaken && messageId in table {
        message := MessageOf(table[messageId]);
      }
    }

    /**
     * `GetMessageParameters`: the stored parameter list; an absent row
     * throws NullReferenceException inside the try and gives an empty list.
     */
    method GetMessageParameters(messageId: int, lockTaken: bool) returns (list: seq<Option<MessageParameter>>)
      ensures connected && lockTaken && messageId in table ==> list == FromDbList(table[messageId].parameters)
      ensures !(connected && lockTaken && messageId in table) ==> list == []
    {
      list := [];
      if connected && lockTaken && messageId in table {
        list := FromDbList(table[messageId].parameters);
      }
    }

    /**
     * `DeleteMessageNoLock`: in one transaction delete the parameter rows,
     * then the row; true iff the row existed.
     */
    method DeleteMessageNoLock(messageId: int) returns (ok: bool)
      requires Valid()
      modifies this`table
      ensures Valid()
      ensures ok <==> messageId in old(table)
      ensures table == Without(old(table), {messageId})
    {
      ok := messageId in table;
      table := Without(table, {messageId});
    }

    /** `DeleteMessage`: delete a non-null message under the lock. */
    method DeleteMessage(message: Option<Message>, lockTaken: bool)
      requires Valid()
      modifies this`table
      ensures Valid()
      ensures table == if connected && message.Some? && lockTaken
                       then Without(old(table), {message.value.id}) else old(table)
    {
      if connected && message.Some? && lockTaken {
        var _ := DeleteMessageNoLock(message.value.id);
      }
    }

    /**
     * `DeletePendingMessages`: mark every pending row of the type filter
     * Failed, oldest first. Nothing is deleted.
     */
    method DeletePendingMessages(messageType: Option<string>, lockTaken: bool, now: int)
      requires Valid()
      modifies this`table
      ensures Valid()
      ensures table == if connected && lockTaken
                       then FailedAll(old(table), PendingIds(old(table), TypeFilter(messageType)), now)
                       else old(table)
    {
      if connected && lockTaken {
        var ids := GetPendingIdsNoLock(TypeFilter(messageType));
        ghost var t0 := table;
        ghost var pending := PendingIds(t0, TypeFilter(messageType));
        var k := 0;
        while k < |ids|
          invariant 0 <= k <= |ids|
          invariant table == FailedAll(t0, set i | 0 <= i < k :: ids[i], now)
        {
          assert ids[k] in t0;
          MarkMessageNoLock(ids[k], Failed, now);
          assert (set i | 0 <= i < k + 1 :: ids[i]) == (set i | 0 <= i < k :: ids[i]) + {ids[k]};
          k := k + 1;
        }
        Sets.Extensional(set i | 0 <= i < |ids| :: ids[i], pending);
      }
    }

    /** `DeleteInvalidMessages`: the invalid-CreateTm purge under the lock. */
    method DeleteInvalidMessages(lockTaken: bool)
      requires Valid()
      modifies this`table
      ensures Valid()
      ensures table == if connected && lockTaken then Without(old(table), InvalidIds(old(table), unparsable)) else old(table)
    {
      if connected && lockTaken {
        DeleteMessagesWithInvalidCreateTimeNoLock();
      }
    }

    method DeleteMessagesWithInvalidCreateTimeNoLock()
      requires Valid()
      modifies this`table
      ensures Valid()
      ensures table == Without(old(table), InvalidIds(old(table), unparsable))
    {
      var invalid := InvalidIds(table, unparsable);
      DeleteAll(invalid);
    }

    /** Delete each row of `ids`, one `DeleteMessageNoLock` at a time. */
    method DeleteAll(ids: set<int>)
      requires Valid()
      modifies this`table
      ensures Valid()
      ensures table == Without(old(table), ids)
    {
      var todo := ids;
      while todo != {}
        invariant todo <= ids
        invariant table == Without(old(table), ids - todo)
        decreases |todo|
      {
        Sets.Pick(todo);
        var id :| id in todo;
        var _ := DeleteMessageNoLock(id);
        todo := todo - {id};
      }
    }

    /** `DeleteOldMessages`: the two purges under the lock. */
    method DeleteOldMessages(lockTaken: bool, now: int)
      requires Valid()
      modifies this`table
      ensures Valid()
      ensures table == if connected && lockTaken
                       then var purged := Without(old(table), InvalidIds(old(table), unparsable));
                            Without(purged, OldIds(purged, now))
                       else old(table)
    {
      if connected && lockTaken {
        DeleteOldMessagesNoLock(now);
      }
    }

    /** First the invalid purge, then every row with CreateTm <= now - 1 day. */
    method DeleteOldMessagesNoLock(now: int)
      requires Valid()
      modifies this`table
      ensures Valid()
      ensures table == if connected
                       then var purged := Without(old(table), InvalidIds(old(table), unparsable));
                            Without(purged, OldIds(purged, now))
                       else old(table)
    {
      if connected {
        DeleteMessagesWithInvalidCreateTimeNoLock();
        var stale := OldIds(table, now);
        DeleteAll(stale);
      }
    }

    method ResendStuckMessages()
      requires Valid()
      modifies this`table
      ensures Valid()
      ensures table == if connected then Unstuck(old(table)) else old(table)
    {
      if connected {
        table := Unstuck(table);
      }
    }

    /** `Dispose`: drop the connection; the store is inert afterwards. */
    method Dispose()
      modifies this`connected
      ensures !connected
    {
      connected := false;
    }
  }
}
