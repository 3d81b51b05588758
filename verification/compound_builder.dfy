/**
 * `Compound(lambda)`: the factory creates a fresh, empty mutable map, hands
 * it to the builder callback, which changes it in place, and then wraps
 * what the callback left in it as a Compound tag. The callback is modelled
 * by the sequence of map operations it performs.
 */
module CompoundBuilder {
  import opened Wrappers
  import opened Tags
  import opened OrderedEntries

  /** The mutable map handed to the builder: a `LinkedHashMap` from names to tags. */
  class CompoundMap {
    /** The entries in insertion order. */
    var entries: seq<Entry>

    ghost predicate Valid()
      reads this
    {
      UniqueKeys(entries)
    }

    /** `mutableMapOf()`: an empty map. */
    constructor ()
      ensures Valid() && entries == []
    {
      entries := [];
    }

    /** `get(key)`. */
    method Get(key: string) returns (value: Option<Tag>)
      requires Valid()
      ensures value == Lookup(entries, key)
    {
      value := Lookup(entries, key);
    }

    /** `put(key, value)`: returns the value it replaced, if any. */
    method Put(key: string, value: Tag) returns (previous: Option<Tag>)
      requires Valid()
      modifies this
      ensures Valid()
      ensures previous == Lookup(old(entries), key)
      ensures entries == OrderedEntries.Put(old(entries), key, value)
    {
      previous := Lookup(entries, key);
      PutKeepsUnique(entries, key, value);
      entries := OrderedEntries.Put(entries, key, value);
    }

    /** `remove(key)`: returns the value it removed, if any. */
    method Remove(key: string) returns (previous: Option<Tag>)
      requires Valid()
      modifies this
      ensures Valid()
      ensures previous == Lookup(old(entries), key)
      ensures entries == OrderedEntries.Remove(old(entries), key)
    {
      previous := Lookup(entries, key);
      RemoveKeepsUnique(entries, key);
      entries := OrderedEntries.Remove(entries, key);
    }

    /** `clear()`. */
    method Clear()
      requires Valid()
      modifies this
      ensures Valid() && entries == []
    {
      entries := [];
    }
  }

  /** One change the builder callback makes to the map. */
  datatype Step = PutStep(key: string, value: Tag) | RemoveStep(key: string) | ClearStep

  function Apply(es: seq<Entry>, step: Step): seq<Entry> {
    match step
    case PutStep(k, v) => OrderedEntries.Put(es, k, v)
    case RemoveStep(k) => OrderedEntries.Remove(es, k)
    case ClearStep => []
  }

  /** Every step keeps the names unique. */
  lemma ApplyKeepsUnique(es: seq<Entry>, step: Step)
    requires UniqueKeys(es)
    ensures UniqueKeys(Apply(es, step))
  {
    match step
    case PutStep(k, v) => PutKeepsUnique(es, k, v);
    case RemoveStep(k) => RemoveKeepsUnique(es, k);
    case ClearStep =>
  }

  /** The entries left in a fresh map after the builder's steps, applied in order. */
  function Built(steps: seq<Step>): (es: seq<Entry>)
    ensures UniqueKeys(es)
  {
    if steps == [] then []
    else
      var prior := Built(steps[..|steps| - 1]);
      ApplyKeepsUnique(prior, steps[|steps| - 1]);
      Apply(prior, steps[|steps| - 1])
  }

  /** Whether a step can change what the map holds under `key`. */
  predicate Touches(step: Step, key: string) {
    match step
    case PutStep(k, _) => k == key
    case RemoveStep(k) => k == key
    case ClearStep => true
  }

  /** A step that does not touch `key` leaves what the map holds under `key` alone. */
  lemma ApplyUntouched(es: seq<Entry>, step: Step, key: string)
    requires UniqueKeys(es) && !Touches(step, key)
    ensures Lookup(Apply(es, step), key) == Lookup(es, key)
  {
    match step
    case PutStep(k, v) => PutLookup(es, k, v, key);
    case RemoveStep(k) => RemoveLookup(es, k, key);
  }

  /** Every value the steps put is well-formed. */
  predicate PutsWellFormed(steps: seq<Step>) {
    forall j :: 0 <= j < |steps| && steps[j].PutStep? ==> WellFormed(steps[j].value)
  }

  /** Built from well-formed values, the entries hold only well-formed values. */
  lemma {:induction false} BuiltWellFormed(steps: seq<Step>)
    requires PutsWellFormed(steps)
    ensures ValuesWellFormed(Built(steps))
  {
    if steps != [] {
      var prefix := steps[..|steps| - 1];
      var prior := Built(prefix);
      var last := steps[|steps| - 1];
      assert Built(steps) == Apply(prior, last);
      forall j | 0 <= j < |prefix| && prefix[j].PutStep?
        ensures WellFormed(prefix[j].value)
      {
        assert prefix[j] == steps[j];
      }
      BuiltWellFormed(prefix);
      match last
      case PutStep(k, v) => PutKeepsWellFormedValues(prior, k, v);
      case RemoveStep(k) => RemoveKeepsWellFormedValues(prior, k);
      case ClearStep =>
    }
  }

  /**
   * `Compound(lambda)`: runs the builder's steps on a fresh map and wraps
   * exactly the entries they leave, in their insertion order.
   */
  method Compound(steps: seq<Step>) returns (t: Tag)
    ensures t.Compound? && t.entries == Built(steps)
    ensures UniqueKeys(t.entries)
    ensures PutsWellFormed(steps) ==> WellFormed(t)
  {
    var staging := new CompoundMap();
    for i := 0 to |steps|
      invariant staging.Valid()
      invariant staging.entries == Built(steps[..i])
    {
      assert steps[..i + 1][..i] == steps[..i];
      match steps[i]
      case PutStep(k, v) =>
        var _ := staging.Put(k, v);
      case RemoveStep(k) =>
        var _ := staging.Remove(k);
      case ClearStep =>
        staging.Clear();
    }
    assert steps[..|steps|] == steps;
    t := Tags.Compound(staging.entries);
    if PutsWellFormed(steps) {
      BuiltWellFormed(steps);
    }
  }

  /**
   * Last put wins: the value a name ends up with is the one its last put
   * stored, as long as nothing after that put removes it or clears the map.
   */
  lemma {:induction false} LastPutWins(steps: seq<Step>, i: nat, key: string, value: Tag)
    requires i < |steps| && steps[i] == PutStep(key, value)
    requires forall j :: i < j < |steps| ==> !Touches(steps[j], key)
    ensures Lookup(Built(steps), key) == Some(value)
  {
    var prefix := steps[..|steps| - 1];
    var prior := Built(prefix);
    var last := steps[|steps| - 1];
    assert Built(steps) == Apply(prior, last);
    if i == |steps| - 1 {
      assert last == PutStep(key, value);
      PutLookup(prior, key, value, key);
    } else {
      assert prefix[i] == steps[i];
      forall j | i < j < |prefix|
        ensures !Touches(prefix[j], key)
      {
        assert prefix[j] == steps[j];
      }
      LastPutWins(prefix, i, key, value);
      ApplyUntouched(prior, last, key);
    }
  }

  /** A name that no step puts is absent from the built Compound. */
  lemma {:induction false} NeverPutIsAbsent(steps: seq<Step>, key: string)
    requires forall j :: 0 <= j < |steps| ==> !steps[j].PutStep? || steps[j].key != key
    ensures Lookup(Built(steps), key).None?
  {
    if steps != [] {
      var prefix := steps[..|steps| - 1];
      var prior := Built(prefix);
      forall j | 0 <= j < |prefix|
        ensures !prefix[j].PutStep? || prefix[j].key != key
      {
        assert prefix[j] == steps[j];
      }
      NeverPutIsAbsent(prefix, key);
      var last := steps[|steps| - 1];
      assert Built(steps) == Apply(prior, last);
      match last
      case PutStep(k, v) => PutLookup(prior, k, v, key);
      case RemoveStep(k) => RemoveLookup(prior, k, key);
      case ClearStep =>
    }
  }
}
