/**
 * The insertion-ordered map that backs a Compound (`mutableMapOf` is a
 * `LinkedHashMap`): a sequence of named entries with unique names, where
 * putting an existing name replaces its value in place and putting a new
 * name appends it, and removing a name drops its entry and keeps the order
 * of the rest.
 */
module OrderedEntries {
  import opened Wrappers
  import opened Tags

  /** The position of the first entry named `key`, if any. */
  function IndexOf(es: seq<Entry>, key: string): (r: Option<nat>)
    ensures r.Some? ==> r.value < |es| && es[r.value].name == key
    ensures r.Some? ==> forall j :: 0 <= j < r.value ==> es[j].name != key
    ensures r.None? <==> forall j :: 0 <= j < |es| ==> es[j].name != key
  {
    if es == [] then None
    else if es[0].name == key then Some(0)
    else match IndexOf(es[1..], key)
      case None => None
      case Some(i) => Some(i + 1)
  }

  /** `get(key)`: the value stored under `key`. */
  function Lookup(es: seq<Entry>, key: string): (r: Option<Tag>)
    ensures r.None? <==> forall j :: 0 <= j < |es| ==> es[j].name != key
    ensures UniqueKeys(es) ==> forall i :: 0 <= i < |es| && es[i].name == key ==> r == Some(es[i].tag)
  {
    match IndexOf(es, key)
    case None => None
    case Some(i) => Some(es[i].tag)
  }

  /**
   * `put(key, value)`: an existing name has its value replaced where it
   * stands, a new name is appended at the end.
   */
  function Put(es: seq<Entry>, key: string, value: Tag): (r: seq<Entry>)
    ensures IndexOf(es, key).None? ==> r == es + [Entry(key, value)]
    ensures IndexOf(es, key).Some? ==> r == es[IndexOf(es, key).value := Entry(key, value)]
  {
    if es == [] then [Entry(key, value)]
    else if es[0].name == key then [Entry(key, value)] + es[1..]
    else [es[0]] + Put(es[1..], key, value)
  }

  /** Putting keeps the names unique. */
  lemma PutKeepsUnique(es: seq<Entry>, key: string, value: Tag)
    requires UniqueKeys(es)
    ensures UniqueKeys(Put(es, key, value))
  {
  }

  /**
   * Last put wins: after `put(key, value)` the map answers `value` for
   * `key` and what it answered before for every other name.
   */
  lemma PutLookup(es: seq<Entry>, key: string, value: Tag, k: string)
    requires UniqueKeys(es)
    ensures Lookup(Put(es, key, value), k) == if k == key then Some(value) else Lookup(es, k)
  {
    var r := Put(es, key, value);
    PutKeepsUnique(es, key, value);
    match IndexOf(es, key)
    case None =>
      assert r[|es|] == Entry(key, value);
      if k != key && Lookup(es, k).Some? {
        var i := IndexOf(es, k).value;
        assert r[i] == es[i];
      }
    case Some(j) =>
      assert r[j] == Entry(key, value);
      if k != key && Lookup(es, k).Some? {
        var i := IndexOf(es, k).value;
        assert r[i] == es[i];
      }
  }

  /**
   * `remove(key)`: the first entry named `key` is dropped and the others
   * keep their relative order.
   */
  function Remove(es: seq<Entry>, key: string): (r: seq<Entry>)
    ensures IndexOf(es, key).None? ==> r == es
    ensures IndexOf(es, key).Some? ==> r == es[..IndexOf(es, key).value] + es[IndexOf(es, key).value + 1..]
  {
    if es == [] then []
    else if es[0].name == key then es[1..]
    else [es[0]] + Remove(es[1..], key)
  }

  /** Where each remaining entry came from: the entries after the removed one move down by one. */
  lemma RemovedAt(es: seq<Entry>, key: string, i: nat)
    requires IndexOf(es, key).Some? && i < |Remove(es, key)|
    ensures var j := IndexOf(es, key).value;
      Remove(es, key)[i] == es[if i < j then i else i + 1]
  {
  }

  /** Removing keeps the names unique. */
  lemma RemoveKeepsUnique(es: seq<Entry>, key: string)
    requires UniqueKeys(es)
    ensures UniqueKeys(Remove(es, key))
  {
    var r := Remove(es, key);
    if IndexOf(es, key).Some? {
      forall a, b | 0 <= a < b < |r|
        ensures r[a].name != r[b].name
      {
        RemovedAt(es, key, a);
        RemovedAt(es, key, b);
      }
    }
  }

  /** No entry keeps a name that some entry of the original does not have. */
  lemma RemoveOnlyDrops(es: seq<Entry>, key: string, k: string)
    requires forall j :: 0 <= j < |es| ==> es[j].name != k
    ensures forall i :: 0 <= i < |Remove(es, key)| ==> Remove(es, key)[i].name != k
  {
    if IndexOf(es, key).Some? {
      forall i | 0 <= i < |Remove(es, key)|
        ensures Remove(es, key)[i].name != k
      {
        RemovedAt(es, key, i);
      }
    }
  }

  /** After `remove(key)` the name is gone. */
  lemma RemoveForgets(es: seq<Entry>, key: string)
    requires UniqueKeys(es)
    ensures Lookup(Remove(es, key), key).None?
  {
    var r := Remove(es, key);
    if IndexOf(es, key).Some? {
      forall i | 0 <= i < |r|
        ensures r[i].name != key
      {
        RemovedAt(es, key, i);
      }
    }
  }

  /** `remove(key)` leaves the entry of every other name where the map still finds it. */
  lemma RemoveKeepsOther(es: seq<Entry>, key: string, k: string)
    requires UniqueKeys(es) && k != key && Lookup(es, k).Some?
    ensures Lookup(Remove(es, key), k) == Lookup(es, k)
  {
    var r := Remove(es, key);
    RemoveKeepsUnique(es, key);
    var i := IndexOf(es, k).value;
    if IndexOf(es, key).Some? {
      var j := IndexOf(es, key).value;
      var i' := if i < j then i else i - 1;
      RemovedAt(es, key, i');
      assert r[i'] == es[i];
    }
  }

  /** After `remove(key)` the map forgets `key` and answers as before for every other name. */
  lemma RemoveLookup(es: seq<Entry>, key: string, k: string)
    requires UniqueKeys(es)
    ensures Lookup(Remove(es, key), k) == if k == key then None else Lookup(es, k)
  {
    if k == key {
      RemoveForgets(es, key);
    } else if Lookup(es, k).Some? {
      RemoveKeepsOther(es, key, k);
    } else {
      RemoveOnlyDrops(es, key, k);
    }
  }

  /** Putting a well-formed value leaves every stored value well-formed. */
  lemma PutKeepsWellFormedValues(es: seq<Entry>, key: string, value: Tag)
    requires ValuesWellFormed(es) && WellFormed(value)
    ensures ValuesWellFormed(Put(es, key, value))
  {
  }

  /** Removing leaves every remaining value well-formed. */
  lemma RemoveKeepsWellFormedValues(es: seq<Entry>, key: string)
    requires ValuesWellFormed(es)
    ensures ValuesWellFormed(Remove(es, key))
  {
    if IndexOf(es, key).Some? {
      forall i | 0 <= i < |Remove(es, key)|
        ensures WellFormed(Remove(es, key)[i].tag)
      {
        RemovedAt(es, key, i);
      }
    }
  }
}
