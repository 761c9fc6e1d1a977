/** The single wide-column table the repositories write to, reduced to the two
    primitives the event repository uses: put-item and a begins-with query on
    the sort key within one partition. The table is held in memory as a map
    from (partition key, sort key) to the item; whether the service accepts a
    request is an input (`answer`), since network and throttling failures come
    from outside the program. */
module Store {
  import opened Wrappers

  /** Names of the two key attributes of the `Calendars` table. */
  const PartitionKeyName := "CalendarID"
  const SortKeyName := "SortKey"

  /** A DynamoDB attribute value: a string (`S`) or a number (`N`, kept as its
      decimal text, as the wire format does). */
  datatype AttributeValue = S(s: string) | N(n: string)

  type Item = map<string, AttributeValue>

  datatype Key = Key(partition: string, sort: string)

  /** The key an item is stored under, read from its two key attributes. */
  function KeyOf(item: Item): (k: Option<Key>)
    ensures k.Some? <==> PartitionKeyName in item && item[PartitionKeyName].S?
                         && SortKeyName in item && item[SortKeyName].S?
    ensures k.Some? ==> S(k.value.partition) == item[PartitionKeyName]
                        && S(k.value.sort) == item[SortKeyName]
  {
    if PartitionKeyName in item && item[PartitionKeyName].S?
       && SortKeyName in item && item[SortKeyName].S?
    then Some(Key(item[PartitionKeyName].s, item[SortKeyName].s))
    else None
  }

  /** The keys a query `partition = p AND begins_with(sort, prefix)` selects. */
  function Matching(items: map<Key, Item>, partition: string, prefix: string): (ks: set<Key>)
    ensures forall k :: k in ks <==> k in items && k.partition == partition && prefix <= k.sort
  {
    set k | k in items && k.partition == partition && prefix <= k.sort
  }

  /** `keys` lists the set `ks`, each key exactly once. */
  ghost predicate Enumerates(keys: seq<Key>, ks: set<Key>) {
    && (forall i, j :: 0 <= i < j < |keys| ==> keys[i] != keys[j])
    && (forall k :: k in ks <==> k in keys)
  }

  class Table {
    var items: map<Key, Item>

    /** Every item sits under the key its own key attributes name. */
    ghost predicate Valid()
      reads this
    {
      forall k :: k in items ==> KeyOf(items[k]) == Some(k)
    }

    constructor ()
      ensures Valid() && items == map[]
    {
      items := map[];
    }

    /** PutItem: replaces whatever is stored under the item's key. An item
        without both key attributes is refused; otherwise the service's
        `answer` decides whether the write happens. */
    method PutItem(item: Item, answer: Outcome) returns (err: Outcome)
      requires Valid()
      modifies this
      ensures Valid()
      ensures KeyOf(item).None? ==> err.Fail? && items == old(items)
      ensures KeyOf(item).Some? ==> err == answer
      ensures KeyOf(item).Some? && answer.Pass? ==> items == old(items)[KeyOf(item).value := item]
      ensures KeyOf(item).Some? && answer.Fail? ==> items == old(items)
    {
      var key := KeyOf(item);
      if key.None? {
        return Fail(Error("ValidationException: the provided key element does not match the schema"));
      }
      if answer.Fail? {
        return answer;
      }
      items := items[key.value := item];
      return Pass;
    }

    /** Query: every item of partition `partition` whose sort key begins with
        `prefix`, each once. The ghost `keys` says which key each row came from. */
    method Query(partition: string, prefix: string, answer: Outcome)
      returns (r: Result<seq<Item>>, ghost keys: seq<Key>)
      ensures answer.Fail? ==> r == Err(answer.error)
      ensures answer.Pass? ==> r.Ok? && |r.value| == |keys|
      ensures answer.Pass? ==> Enumerates(keys, Matching(items, partition, prefix))
      ensures answer.Pass? ==> forall i :: 0 <= i < |keys| ==> keys[i] in items && r.value[i] == items[keys[i]]
    {
      if answer.Fail? {
        return Err(answer.error), [];
      }
      var rows: seq<Item> := [];
      keys := [];
      var remaining := items.Keys;
      while remaining != {}
        invariant remaining <= items.Keys
        invariant |rows| == |keys|
        invariant forall i :: 0 <= i < |keys| ==> keys[i] in items && keys[i] !in remaining
                                                  && keys[i] in Matching(items, partition, prefix)
                                                  && rows[i] == items[keys[i]]
        invariant forall i, j :: 0 <= i < j < |keys| ==> keys[i] != keys[j]
        invariant forall k :: k in Matching(items, partition, prefix) && k !in remaining ==> k in keys
        decreases remaining
      {
        var k :| k in remaining;
        if k.partition == partition && prefix <= k.sort {
          rows := rows + [items[k]];
          keys := keys + [k];
        }
        remaining := remaining - {k};
      }
      return Ok(rows), keys;
    }
  }
}
