/** Properties of the inventory store that span several actions. */
module InventoryProperties {
  import opened JsValues
  import opened Seqs
  import opened Backend
  import opened InventoryStore

  /** Once an item is added, a second item with the same truthy serial number
      is refused: nothing is inserted and the duplicate notification shows. */
  lemma AddThenDuplicateRefused(s: State, first: Object, generated: Object, second: Object, insert: Reply<Object>)
    requires Truthy(Get(first, SerialKey)) && !SerialTaken(s.table, Get(first, SerialKey))
    requires SerialKey !in generated
    requires Get(second, SerialKey) == Get(first, SerialKey)
    ensures var s1 := AddItem(s, first, Pass, Ok(generated)).state;
            var out := AddItem(s1, second, Pass, insert);
            && out.result.None?
            && out.state.items == s1.items
            && out.state.table == s1.table
            && out.state.notification == Some(Notice(DuplicateSerialMessage, Error))
  {
    var s1 := AddItem(s, first, Pass, Ok(generated)).state;
    var row := first + generated;
    assert s1.table[|s.table|] == row;
    assert Get(row, SerialKey) == Get(first, SerialKey);
  }

  /** Only the serial number is checked: two items that share an import number
      are both inserted when their serial numbers are free. */
  lemma ImportNumberNotChecked(s: State, a: Object, ga: Object, b: Object, gb: Object)
    requires Get(a, ImportKey) == Get(b, ImportKey)
    requires SerialKey !in ga
    requires !SerialTaken(s.table, Get(a, SerialKey)) && !SerialTaken(s.table, Get(b, SerialKey))
    requires Get(a, SerialKey) != Get(b, SerialKey)
    ensures var s1 := AddItem(s, a, Pass, Ok(ga));
            var s2 := AddItem(s1.state, b, Pass, Ok(gb));
            && s1.result.Some? && s2.result.Some?
            && |s2.state.items| == |s.items| + 2
            && s2.state.items[2..] == s.items
  {
    var s1 := AddItem(s, a, Pass, Ok(ga)).state;
    var row := a + ga;
    assert s1.table == s.table + [row];
    assert Get(row, SerialKey) == Get(a, SerialKey);
  }

  /** Dropping the id of an item that was put in front of a list without that
      id gives the list back. */
  lemma DropPrepended(items: seq<Object>, row: Object, n: int)
    requires Get(row, IdKey) == Num(n)
    requires forall i :: 0 <= i < |items| ==> Get(items[i], IdKey) != Num(n)
    ensures WithoutId([row] + items, Num(n)) == items
  {
    FilterConcat([row], items, IdIsNot(Num(n)));
    FilterDropsAll([row], IdIsNot(Num(n)));
    FilterKeepsAll(items, IdIsNot(Num(n)));
  }

  /** Deleting the id of a row appended to a table without that id gives the
      table back. */
  lemma DeleteAppended(t: Table, row: Object, n: int)
    requires Get(row, IdKey) == Num(n)
    requires forall i :: 0 <= i < |t| ==> Get(t[i], IdKey) != Num(n)
    ensures DeleteWhereId(t + [row], Some(n)) == t
  {
    FilterConcat(t, [row], OtherKey(Some(n)));
    FilterKeepsAll(t, OtherKey(Some(n)));
    FilterDropsAll([row], OtherKey(Some(n)));
  }

  /** Deleting by its numeric id an item that was just added undoes the add,
      locally and in the table, when nothing else carried that id. */
  lemma AddThenDeleteRestores(s: State, newItem: Object, check: Outcome, generated: Object, n: int, parseString: string -> Option<int>)
    requires IdKey in generated && generated[IdKey] == Num(n)
    requires forall i :: 0 <= i < |s.items| ==> Get(s.items[i], IdKey) != Num(n)
    requires forall i :: 0 <= i < |s.table| ==> Get(s.table[i], IdKey) != Num(n)
    requires !Truthy(Get(newItem, SerialKey)) || (check.Pass? && !SerialTaken(s.table, Get(newItem, SerialKey)))
    ensures var s1 := AddItem(s, newItem, check, Ok(generated)).state;
            var s2 := DeleteItem(s1, IntId(n), parseString, Pass).state;
            s2.items == s.items && s2.table == s.table
  {
    var s1 := AddItem(s, newItem, check, Ok(generated)).state;
    var row := newItem + generated;
    assert Get(row, IdKey) == Num(n);
    assert s1.items == [row] + s.items && s1.table == s.table + [row];
    DropPrepended(s.items, row, n);
    DeleteAppended(s.table, row, n);
  }

  /** The id mismatch of `deleteItem`: called with a string id, as route
      parameters are, it deletes the row `parseInt` names from the table but no
      local item, since every local id is a number. */
  lemma StringIdDeletesNothingLocally(s: State, text: string, parseString: string -> Option<int>)
    requires forall i :: 0 <= i < |s.items| ==> Get(s.items[i], IdKey).Num?
    ensures var out := DeleteItem(s, StrId(text), parseString, Pass);
            && out.result
            && out.state.items == s.items
            && forall i :: 0 <= i < |out.state.table| ==> !HasKey(out.state.table[i], parseString(text))
  {
    FilterKeepsAll(s.items, IdIsNot(Str(text)));
  }
}
