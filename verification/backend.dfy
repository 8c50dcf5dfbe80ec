/** What the stores see of the hosted backend: the reply of each call, the
    `inventario` table, and the filters the inventory store applies to it. */
module Backend {
  import opened JsValues
  import opened Seqs

  /** The reply of a call whose data the backend chooses: its data, or the
      message of the error it returned or threw. `Err` is used only where both
      reach the same `catch`; the profile lookup and `signOut`, where they do
      not, have replies of their own. */
  datatype Reply<+T> = Ok(data: T) | Err(message: string)

  /** The reply of a call whose data the model derives from the table itself:
      the call goes through, or it fails with a message. */
  datatype Outcome = Pass | Fail(message: string)

  /** The state a store action leaves behind, with the value it returns. */
  datatype Step<+S, +T> = Step(state: S, result: T)

  /** The `id` argument of an inventory action: route parameters arrive as
      strings, ids taken from rows are numbers. */
  datatype Id = IntId(n: int) | StrId(s: string)

  /** The column names the inventory store touches. */
  const IdKey := "id"
  const CreatedAtKey := "created_at"
  const SerialKey := "numero_serie"
  const ImportKey := "numero_importacion"

  /** The argument as the JavaScript value that `===` and `!==` compare. */
  function Raw(id: Id): Value
  {
    match id
    case IntId(n) => Num(n)
    case StrId(s) => Str(s)
  }

  /** `parseInt(id, 10)`, with `None` for `NaN`. A number parses to itself;
      how a string parses is left to `parseString`. */
  function ParseInt(id: Id, parseString: string -> Option<int>): (k: Option<int>)
    ensures id.IntId? ==> k == Some(id.n)
  {
    match id
    case IntId(n) => Some(n)
    case StrId(s) => parseString(s)
  }

  /** The `inventario` table, as rows. */
  type Table = seq<Object>

  /** Does a row pass `.eq('id', key)`? A `NaN` key equals no id. */
  predicate HasKey(row: Object, key: Option<int>)
  {
    key.Some? && Get(row, IdKey) == Num(key.value)
  }

  /** Some row of `t` satisfies `p`. */
  ghost predicate Exists(t: Table, p: Object -> bool)
  {
    exists i :: 0 <= i < |t| && p(t[i])
  }

  /** `Filter` finds something exactly when some element qualifies. */
  lemma FilterNonEmpty(t: Table, keep: Object -> bool)
    ensures |Filter(t, keep)| > 0 <==> Exists(t, keep)
  {
    var r := Filter(t, keep);
    FilterCounts(t, keep);
    if |r| > 0 {
      assert multiset(r)[r[0]] > 0;
      assert r[0] in multiset(t);
      var i :| 0 <= i < |t| && t[i] == r[0];
    }
    if Exists(t, keep) {
      var i :| 0 <= i < |t| && keep(t[i]);
      assert t[i] in multiset(t);
      assert t[i] in multiset(r);
    }
  }

  /** `.select(...).eq('numero_serie', serial)`: the rows holding that serial number. */
  function WhereSerial(t: Table, serial: Value): (r: Table)
    ensures |r| > 0 <==> exists i :: 0 <= i < |t| && Get(t[i], SerialKey) == serial
  {
    var keep := (row: Object) => Get(row, SerialKey) == serial;
    FilterNonEmpty(t, keep);
    Filter(t, keep)
  }

  /** `.eq('numero_serie', serial).neq('id', key)`: the rows other than `key`
      holding that serial number. A `NaN` key differs from every id. */
  function WhereSerialElsewhere(t: Table, serial: Value, key: Option<int>): (r: Table)
    ensures |r| > 0 <==> exists i :: 0 <= i < |t| && Get(t[i], SerialKey) == serial && !HasKey(t[i], key)
  {
    var keep := (row: Object) => Get(row, SerialKey) == serial && !HasKey(row, key);
    FilterNonEmpty(t, keep);
    Filter(t, keep)
  }

  /** `.select('*').eq('id', key)`: the rows with that id, in table order. */
  function WhereId(t: Table, key: Option<int>): (r: Table)
    ensures forall i :: 0 <= i < |r| ==> HasKey(r[i], key) && r[i] in t
    ensures |r| > 0 <==> exists i :: 0 <= i < |t| && HasKey(t[i], key)
    ensures |r| > 0 ==> exists i :: 0 <= i < |t| && t[i] == r[0] && forall j :: 0 <= j < i ==> !HasKey(t[j], key)
  {
    var keep := (row: Object) => HasKey(row, key);
    FilterNonEmpty(t, keep);
    FilterHead(t, keep);
    Filter(t, keep)
  }

  /** The filter that keeps the rows whose id is not `key`. */
  function OtherKey(key: Option<int>): Object -> bool
  {
    (row: Object) => !HasKey(row, key)
  }

  /** `.delete().eq('id', key)`: the table without the rows with that id. */
  function DeleteWhereId(t: Table, key: Option<int>): (r: Table)
    ensures forall i :: 0 <= i < |r| ==> !HasKey(r[i], key)
    ensures forall row :: row in t && !HasKey(row, key) ==> row in r
    ensures forall row :: row in r ==> row in t
  {
    FilterCounts(t, OtherKey(key));
    var r := Filter(t, OtherKey(key));
    assert forall row :: row in t ==> row in multiset(t);
    r
  }

  /** `.update(payload).eq('id', key)`: every row with that id takes the
      payload's fields over its own; the other rows are left as they are. */
  function UpdateWhereId(t: Table, key: Option<int>, payload: Object): (r: Table)
    ensures |r| == |t|
    ensures forall i :: 0 <= i < |t| && !HasKey(t[i], key) ==> r[i] == t[i]
    ensures forall i :: 0 <= i < |t| && HasKey(t[i], key) ==> r[i].Keys == t[i].Keys + payload.Keys
    ensures forall i, k :: 0 <= i < |t| && HasKey(t[i], key) && k in r[i] ==>
      r[i][k] == if k in payload then payload[k] else t[i][k]
    ensures forall i, k :: 0 <= i < |t| && k !in payload ==> Get(r[i], k) == Get(t[i], k)
  {
    seq(|t|, i requires 0 <= i < |t| => if HasKey(t[i], key) then t[i] + payload else t[i])
  }
}
