/** The inventory store: the local list of items, the item being viewed, the
    loading flag, the last error and the single notification slot, next to the
    remote `inventario` table the actions query and write. Every action ends
    with `loading` false. */
module InventoryStore {
  import opened JsValues
  import opened Seqs
  import opened Backend

  /** A user-facing message; `kind` is `success` or `error` in every call the
      store makes. */
  datatype Notice = Notice(message: string, kind: string)

  datatype State = State(
    table: Table,
    items: seq<Object>,
    currentItem: Option<Object>,
    loading: bool,
    error: Option<string>,
    notification: Option<Notice>)

  const Success := "success"
  const Error := "error"
  const DuplicateSerialMessage := "El número de serie ya está registrado."
  const DuplicateSerialElsewhereMessage := "El número de serie ya está registrado en otro artículo."
  const AddedMessage := "Artículo añadido correctamente."
  const UpdatedMessage := "Artículo actualizado correctamente."
  const AddFailedPrefix := "Error al añadir el artículo: "
  const UpdateFailedPrefix := "Error al actualizar el artículo: "

  /** `setNotification(message, type = 'success')`: fills the slot, replacing
      whatever it held; nothing else changes. */
  function SetNotification(s: State, message: string, kind: Option<string>): (t: State)
    ensures t.notification.Some? && t.notification.value.message == message
    ensures kind.None? ==> t.notification.value.kind == Success
    ensures kind.Some? ==> t.notification.value.kind == kind.value
    ensures t.(notification := s.notification) == s
  {
    s.(notification := Some(Notice(message, match kind case None => Success case Some(k) => k)))
  }

  /** The timer that `setNotification` starts firing: the slot is emptied,
      whichever notification it holds by then. */
  function ExpireNotification(s: State): (t: State)
    ensures t.notification.None?
    ensures t.(notification := s.notification) == s
  {
    s.(notification := None)
  }

  /** A notification is shown at once and is gone once its timer fires with no
      other notification in between; the slot holds one notification, the
      latest. */
  lemma NotificationSlot(s: State, message: string, later: string, kind: Option<string>)
    ensures SetNotification(s, message, None).notification == Some(Notice(message, Success))
    ensures ExpireNotification(SetNotification(s, message, None)) == s.(notification := None)
    ensures SetNotification(SetNotification(s, message, None), later, kind) == SetNotification(s, later, kind)
  {
  }

  /** The exit of a failed action: the error is recorded, and for the writing
      actions a notification built from it is shown. */
  function Failed(s: State, prefix: Option<string>, message: string): State
  {
    var t := s.(loading := false, error := Some(message));
    match prefix
    case None => t
    case Some(p) => SetNotification(t, p + message, Some(Error))
  }

  /** `fetchItems()`: the rows the backend sends, newest first, replace the list
      wholesale; a failed read keeps the old list. */
  function FetchItems(s: State, reply: Reply<seq<Object>>): (t: State)
    ensures !t.loading
    ensures reply.Ok? ==> t.items == reply.data && t.error.None?
    ensures reply.Err? ==> t.items == s.items && t.error == Some(reply.message)
    ensures t.table == s.table && t.currentItem == s.currentItem && t.notification == s.notification
  {
    match reply
    case Ok(rows) => s.(items := rows, loading := false, error := None)
    case Err(m) => Failed(s, None, m)
  }

  /** Does the serial number of a new item clash with a row of the table? Only
      a truthy serial number is looked up. */
  predicate SerialTaken(t: Table, serial: Value)
  {
    Truthy(serial) && exists i :: 0 <= i < |t| && Get(t[i], SerialKey) == serial
  }

  /** `addItem(newItem)`. `check` is the reply to the serial-number lookup,
      `insert` the reply to the insert: on success, the columns the backend
      generates (id, creation time), which complete the stored row. */
  function AddItem(s: State, newItem: Object, check: Outcome, insert: Reply<Object>): (out: Step<State, Option<Object>>)
    ensures !out.state.loading
    ensures out.state.currentItem == s.currentItem
    // the lookup fails
    ensures Truthy(Get(newItem, SerialKey)) && check.Fail? ==>
      && out.result.None?
      && out.state.items == s.items && out.state.table == s.table
      && out.state.error == Some(check.message)
      && out.state.notification == Some(Notice(AddFailedPrefix + check.message, Error))
    // the serial number is already registered
    ensures check.Pass? && SerialTaken(s.table, Get(newItem, SerialKey)) ==>
      && out.result.None?
      && out.state.items == s.items && out.state.table == s.table
      && out.state.error.None?
      && out.state.notification == Some(Notice(DuplicateSerialMessage, Error))
    // the check lets it through (or there is nothing to check)
    ensures (!Truthy(Get(newItem, SerialKey)) || (check.Pass? && !SerialTaken(s.table, Get(newItem, SerialKey)))) ==>
      match insert
      case Err(m) =>
        && out.result.None?
        && out.state.items == s.items && out.state.table == s.table
        && out.state.error == Some(m)
        && out.state.notification == Some(Notice(AddFailedPrefix + m, Error))
      case Ok(generated) =>
        && out.result.Some?
        && (forall k :: k in newItem && k !in generated ==> k in out.result.value && out.result.value[k] == newItem[k])
        && (forall k :: k in generated ==> k in out.result.value && out.result.value[k] == generated[k])
        && |out.state.items| == |s.items| + 1
        && out.state.items[0] == out.result.value
        && out.state.items[1..] == s.items
        && out.state.table == s.table + [out.result.value]
        && out.state.error.None?
        && out.state.notification == Some(Notice(AddedMessage, Success))
    ensures out.result.Some? ==> insert.Ok?
  {
    var serial := Get(newItem, SerialKey);
    if Truthy(serial) && check.Fail? then
      Step(Failed(s, Some(AddFailedPrefix), check.message), None)
    else if Truthy(serial) && |WhereSerial(s.table, serial)| > 0 then
      Step(SetNotification(s.(loading := false, error := None), DuplicateSerialMessage, Some(Error)), None)
    else
      match insert
      case Err(m) => Step(Failed(s, Some(AddFailedPrefix), m), None)
      case Ok(generated) =>
        var row := newItem + generated;
        var t := s.(table := s.table + [row], items := [row] + s.items, loading := false, error := None);
        Step(SetNotification(t, AddedMessage, Some(Success)), Some(row))
  }

  /** `fetchItemById(id)`: the first row whose id is `parseInt(id)` becomes the
      current item and is returned; absent when there is no such row or the
      query fails. */
  function FetchItemById(s: State, id: Id, parseString: string -> Option<int>, reply: Outcome): (out: Step<State, Option<Object>>)
    ensures !out.state.loading
    ensures out.result == out.state.currentItem
    ensures out.result.Some? ==> out.result.value in s.table && HasKey(out.result.value, ParseInt(id, parseString))
    ensures out.result.Some? ==>
      exists i :: 0 <= i < |s.table| && s.table[i] == out.result.value &&
        forall j :: 0 <= j < i ==> !HasKey(s.table[j], ParseInt(id, parseString))
    ensures reply.Pass? ==>
      && out.state.error.None?
      && (out.result.None? <==> forall i :: 0 <= i < |s.table| ==> !HasKey(s.table[i], ParseInt(id, parseString)))
    ensures reply.Fail? ==> out.result.None? && out.state.error == Some(reply.message)
    ensures out.state.items == s.items && out.state.table == s.table && out.state.notification == s.notification
  {
    var t := s.(currentItem := None, loading := false, error := None);
    match reply
    case Fail(m) => Step(Failed(t, None, m), None)
    case Pass =>
      var rows := WhereId(s.table, ParseInt(id, parseString));
      var first := if |rows| > 0 then Some(rows[0]) else None;
      Step(t.(currentItem := first), first)
  }

  /** The filter `item => item.id !== raw`. */
  function IdIsNot(raw: Value): Object -> bool
  {
    (item: Object) => Get(item, IdKey) != raw
  }

  /** The local list without the items whose `id` is strictly equal (`===`) to `raw`. */
  function WithoutId(items: seq<Object>, raw: Value): (r: seq<Object>)
    ensures forall i :: 0 <= i < |r| ==> Get(r[i], IdKey) != raw
    ensures forall item :: multiset(r)[item] == if Get(item, IdKey) != raw then multiset(items)[item] else 0
  {
    FilterCounts(items, IdIsNot(raw));
    Filter(items, IdIsNot(raw))
  }

  /** The survivors keep their order: dropping an id from a concatenation drops
      it from each part. */
  lemma WithoutIdConcat(a: seq<Object>, b: seq<Object>, raw: Value)
    ensures WithoutId(a + b, raw) == WithoutId(a, raw) + WithoutId(b, raw)
  {
    FilterConcat(a, b, IdIsNot(raw));
  }

  /** `deleteItem(id)`: the backend deletes the row whose id is `parseInt(id)`;
      the local list keeps exactly the items whose `id` is not `===` the raw
      argument, in their order. */
  function DeleteItem(s: State, id: Id, parseString: string -> Option<int>, reply: Outcome): (out: Step<State, bool>)
    ensures !out.state.loading
    ensures out.result <==> reply.Pass?
    ensures reply.Pass? ==>
      && out.state.error.None?
      && out.state.items == WithoutId(s.items, Raw(id))
      && (forall i :: 0 <= i < |out.state.items| ==> Get(out.state.items[i], IdKey) != Raw(id))
      && (forall item :: multiset(out.state.items)[item] ==
            if Get(item, IdKey) != Raw(id) then multiset(s.items)[item] else 0)
      && (forall i :: 0 <= i < |out.state.table| ==> !HasKey(out.state.table[i], ParseInt(id, parseString)))
      && (forall row :: row in s.table && !HasKey(row, ParseInt(id, parseString)) ==> row in out.state.table)
      && (forall row :: row in out.state.table ==> row in s.table)
      && out.state.table == DeleteWhereId(s.table, ParseInt(id, parseString))
    ensures reply.Fail? ==>
      && out.state.items == s.items && out.state.table == s.table
      && out.state.error == Some(reply.message)
    ensures out.state.currentItem == s.currentItem && out.state.notification == s.notification
  {
    match reply
    case Fail(m) => Step(Failed(s, None, m), false)
    case Pass =>
      var key := ParseInt(id, parseString);
      Step(s.(table := DeleteWhereId(s.table, key), items := WithoutId(s.items, Raw(id)), loading := false, error := None), true)
  }

  /** The payload `updateItem` sends: a copy of the updates without `id` and
      `created_at`. */
  function UpdatePayload(updates: Object): (p: Object)
    ensures IdKey !in p && CreatedAtKey !in p
    ensures forall k :: k in p <==> k in updates && k != IdKey && k != CreatedAtKey
    ensures forall k :: k in p ==> p[k] == updates[k]
  {
    updates - {IdKey, CreatedAtKey}
  }

  /** `items[findIndex(item => item.id === raw)] = row`: the first item whose
      `id` is `===` the raw argument is replaced; nothing changes when none is. */
  function ReplaceFirst(items: seq<Object>, raw: Value, row: Object): (r: seq<Object>)
    ensures |r| == |items|
    ensures (forall i :: 0 <= i < |items| ==> Get(items[i], IdKey) != raw) ==> r == items
    ensures forall i :: (0 <= i < |items| && Get(items[i], IdKey) == raw &&
                         forall j :: 0 <= j < i ==> Get(items[j], IdKey) != raw) ==>
        r[i] == row && (forall j :: 0 <= j < |items| && j != i ==> r[j] == items[j])
  {
    match FindIndex(items, (item: Object) => Get(item, IdKey) == raw)
    case None => items
    case Some(i) => items[i := row]
  }

  /** The write-back `updateItem` performs with the rows the update returned.
      The first returned row replaces the matching local item; with no row
      returned the list is left alone (see `WriteBackAsWritten`). */
  function WriteBack(items: seq<Object>, raw: Value, returned: seq<Object>): (r: seq<Object>)
    ensures |r| == |items|
    ensures forall i :: 0 <= i < |r| ==> r[i] == items[i] || (|returned| > 0 && r[i] == returned[0])
    ensures |returned| == 0 ==> r == items
    ensures |returned| > 0 ==> r == ReplaceFirst(items, raw, returned[0])
  {
    if |returned| == 0 then items else ReplaceFirst(items, raw, returned[0])
  }

  /** The write-back exactly as the source writes it: `data[0]` is `undefined`
      (`None`) when the update touched no row, and it is stored all the same. */
  function WriteBackAsWritten(items: seq<Object>, raw: Value, returned: seq<Object>): (r: seq<Option<Object>>)
    ensures |r| == |items|
    // with no item `===` raw, every entry is the old item
    ensures (forall i :: 0 <= i < |items| ==> Get(items[i], IdKey) != raw) ==>
      forall j :: 0 <= j < |items| ==> r[j] == Some(items[j])
    // at the first such item the update's `data[0]` is stored, `undefined` included
    ensures forall i :: (0 <= i < |items| && Get(items[i], IdKey) == raw &&
                         forall j :: 0 <= j < i ==> Get(items[j], IdKey) != raw) ==>
      && r[i] == (if |returned| > 0 then Some(returned[0]) else None)
      && forall j :: 0 <= j < |items| && j != i ==> r[j] == Some(items[j])
  {
    var updated := if |returned| > 0 then Some(returned[0]) else None;
    var boxed := seq(|items|, i requires 0 <= i < |items| => Some(items[i]));
    match FindIndex(items, (item: Object) => Get(item, IdKey) == raw)
    case None => boxed
    case Some(i) => boxed[i := updated]
  }

  /** A local item whose row was removed from the table by someone else: the
      update succeeds, touches no row, and the source writes `undefined` into the
      list. */
  lemma UndefinedWrittenBack(items: seq<Object>, raw: Value)
    requires exists i :: 0 <= i < |items| && Get(items[i], IdKey) == raw
    ensures None in WriteBackAsWritten(items, raw, [])
  {
    var found := (item: Object) => Get(item, IdKey) == raw;
    var i :| 0 <= i < |items| && found(items[i]);
    var k := FindIndex(items, found);
    assert k.Some?;
    assert WriteBackAsWritten(items, raw, [])[k.value] == None;
  }

  /** Concretely: a list holding the item with id 7, whose row is gone from
      the table, becomes `[undefined]`. */
  lemma UndefinedWrittenBackExample()
    ensures WriteBackAsWritten([map[IdKey := Num(7)]], Num(7), []) == [None]
  {
    var items: seq<Object> := [map[IdKey := Num(7)]];
    assert Get(items[0], IdKey) == Num(7);
  }

  /** Does another row than `key` hold this truthy serial number? */
  predicate SerialTakenElsewhere(t: Table, serial: Value, key: Option<int>)
  {
    Truthy(serial) && exists i :: 0 <= i < |t| && Get(t[i], SerialKey) == serial && !HasKey(t[i], key)
  }

  /** `updateItem(id, updates)`. `check` is the reply to the serial-number
      lookup, `update` the reply to the update itself. */
  function UpdateItem(s: State, id: Id, updates: Object, parseString: string -> Option<int>, check: Outcome, update: Outcome): (out: Step<State, Option<Object>>)
    ensures !out.state.loading
    ensures out.state.currentItem == s.currentItem
    // the lookup fails
    ensures Truthy(Get(updates, SerialKey)) && check.Fail? ==>
      && out.result.None?
      && out.state.items == s.items && out.state.table == s.table
      && out.state.error == Some(check.message)
      && out.state.notification == Some(Notice(UpdateFailedPrefix + check.message, Error))
    // another row holds the serial number
    ensures check.Pass? && SerialTakenElsewhere(s.table, Get(updates, SerialKey), ParseInt(id, parseString)) ==>
      && out.result.None?
      && out.state.items == s.items && out.state.table == s.table
      && out.state.error.None?
      && out.state.notification == Some(Notice(DuplicateSerialElsewhereMessage, Error))
    // the update is sent
    ensures (!Truthy(Get(updates, SerialKey)) ||
             (check.Pass? && !SerialTakenElsewhere(s.table, Get(updates, SerialKey), ParseInt(id, parseString)))) ==>
      match update
      case Fail(m) =>
        && out.result.None?
        && out.state.items == s.items && out.state.table == s.table
        && out.state.error == Some(m)
        && out.state.notification == Some(Notice(UpdateFailedPrefix + m, Error))
      case Pass =>
        && out.state.table == UpdateWhereId(s.table, ParseInt(id, parseString), UpdatePayload(updates))
        && out.state.items == WriteBack(s.items, Raw(id), WhereId(out.state.table, ParseInt(id, parseString)))
        && (out.result.Some? <==> exists i :: 0 <= i < |s.table| && HasKey(s.table[i], ParseInt(id, parseString)))
        && (out.result.Some? ==> out.result.value in out.state.table && HasKey(out.result.value, ParseInt(id, parseString)))
        && (out.result.Some? ==>
              exists i :: 0 <= i < |out.state.table| && out.state.table[i] == out.result.value &&
                forall j :: 0 <= j < i ==> !HasKey(out.state.table[j], ParseInt(id, parseString)))
        && (out.result.Some? ==> out.state.items == ReplaceFirst(s.items, Raw(id), out.result.value))
        && (out.result.None? ==> out.state.items == s.items)
        && out.state.error.None?
        && out.state.notification == Some(Notice(UpdatedMessage, Success))
    // no stored row changes its id or creation time
    ensures |out.state.table| == |s.table|
    ensures forall i :: 0 <= i < |s.table| ==>
      Get(out.state.table[i], IdKey) == Get(s.table[i], IdKey) &&
      Get(out.state.table[i], CreatedAtKey) == Get(s.table[i], CreatedAtKey)
  {
    var serial := Get(updates, SerialKey);
    var key := ParseInt(id, parseString);
    if Truthy(serial) && check.Fail? then
      Step(Failed(s, Some(UpdateFailedPrefix), check.message), None)
    else if Truthy(serial) && |WhereSerialElsewhere(s.table, serial, key)| > 0 then
      Step(SetNotification(s.(loading := false, error := None), DuplicateSerialElsewhereMessage, Some(Error)), None)
    else
      match update
      case Fail(m) => Step(Failed(s, Some(UpdateFailedPrefix), m), None)
      case Pass =>
        var table := UpdateWhereId(s.table, key, UpdatePayload(updates));
        var returned := WhereId(table, key);
        var updated := if |returned| > 0 then Some(returned[0]) else None;
        var t := s.(table := table, items := WriteBack(s.items, Raw(id), returned), loading := false, error := None);
        Step(SetNotification(t, UpdatedMessage, Some(Success)), updated)
  }
}
