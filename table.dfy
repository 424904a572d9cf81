/** The constant name tables the tools search with a pointer running from
    the first entry to the end, comparing names with strcmp: the first
    entry with the name wins. */
module Table {
  import opened CStr

  /** The value of the first entry named `key`. */
  function Lookup<V>(table: seq<(string, V)>, key: string): Option<V> {
    if table == [] then None
    else if table[0].0 == key then Some(table[0].1)
    else Lookup(table[1..], key)
  }

  /** Lookup finds nothing exactly when no entry has the name, and
      otherwise the value of the first entry that has it. */
  lemma {:induction false} LookupFirst<V>(table: seq<(string, V)>, key: string)
    ensures Lookup(table, key).None? <==> forall i | 0 <= i < |table| :: table[i].0 != key
    ensures Lookup(table, key).Some? ==> exists i | 0 <= i < |table| ::
      table[i] == (key, Lookup(table, key).value) && forall j | 0 <= j < i :: table[j].0 != key
  {
    if table != [] && table[0].0 != key {
      var rest := table[1..];
      LookupFirst(rest, key);
      assert forall i | 0 <= i < |rest| :: rest[i] == table[i + 1];
      if Lookup(rest, key).Some? {
        var i :| 0 <= i < |rest| && rest[i] == (key, Lookup(rest, key).value) &&
          forall j | 0 <= j < i :: rest[j].0 != key;
        assert table[i + 1] == (key, Lookup(table, key).value);
      }
    }
  }

  /** The search loop: skip entries while their name differs. */
  method Find<V>(table: seq<(string, V)>, key: string) returns (r: Option<V>)
    ensures r == Lookup(table, key)
  {
    var current := 0;
    while current != |table| && table[current].0 != key
      invariant 0 <= current <= |table|
      invariant Lookup(table, key) == Lookup(table[current..], key)
    {
      assert table[current..][1..] == table[current + 1..];
      current := current + 1;
    }
    if current != |table| {
      r := Some(table[current].1);
    } else {
      r := None;
    }
  }
}
