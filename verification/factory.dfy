/**
 * The pure construction helpers of the tag factory: Boolean, the narrowing
 * Byte and Short overloads, the byte array built from ints, and the three
 * List overloads. The factories that only wrap their argument (`Byte(Byte)`,
 * `Short(Short)`, `Int`, `Long`, `Float`, `Double`, `String`, `IntArray`,
 * `LongArray`, the array-taking `ByteArray`) are the `Tag` constructors
 * themselves.
 */
module Factory {
  import opened Wrappers
  import opened Ints
  import opened Tags

  /** The shared `NBTByte.ONE` and `NBTByte.ZERO` instances, compared by value. */
  const One: Tag := Byte(1)
  const Zero: Tag := Byte(0)

  /** `Boolean(flag)`: Byte 1 for true, Byte 0 for false, and nothing else. */
  function Boolean(flag: bool): (r: Tag)
    ensures r == One || r == Zero
    ensures r.Byte? && (r.byteValue != 0 <==> flag)
  {
    if flag then One else Zero
  }

  /**
   * `Byte(value: Int)`: the low 8 bits as a signed byte, congruent to
   * `value` modulo 256, and the same tag as `Byte(value: Byte)` when the
   * value already fits.
   */
  function ByteOfInt(value: int32): (r: Tag)
    ensures r.Byte? && (r.byteValue - value) % 0x100 == 0
    ensures -0x80 <= value < 0x80 ==> r == Byte(value)
  {
    Byte(ToByte(value))
  }

  /**
   * `Short(value: Int)`: the low 16 bits as a signed short, congruent to
   * `value` modulo 65536, and the same tag as `Short(value: Short)` when
   * the value already fits.
   */
  function ShortOfInt(value: int32): (r: Tag)
    ensures r.Short? && (r.shortValue - value) % 0x1_0000 == 0
    ensures -0x8000 <= value < 0x8000 ==> r == Short(value)
  {
    Short(ToShort(value))
  }

  /**
   * `ByteArray(vararg value: Int)`: one byte per int, in order, each the
   * 8-bit truncation of its int.
   */
  function ByteArrayOfInts(values: seq<int32>): (r: Tag)
    ensures r.ByteArray? && |r.bytes| == |values|
    ensures forall i :: 0 <= i < |values| ==> (r.bytes[i] - values[i]) % 0x100 == 0
    ensures forall i :: 0 <= i < |values| && -0x80 <= values[i] < 0x80 ==> r.bytes[i] == values[i]
  {
    ByteArray(seq(|values|, i requires 0 <= i < |values| => ToByte(values[i])))
  }

  /** On ints that already fit in a byte, the Int overload builds the same tag as the Byte overload. */
  lemma ByteArrayOfIntsInRange(values: seq<int8>)
    ensures ByteArrayOfInts(values) == ByteArray(values)
  {
    var r := ByteArrayOfInts(values);
    assert r.bytes == values;
  }

  /**
   * `List(subtagType, tags = listOf())` and `List(subtagType, vararg tags)`:
   * a List carrying the caller's subtag type, unchecked, and exactly the
   * given elements in the given order.
   */
  function ListOf(subtagType: int32, tags: seq<Tag> := []): (r: Tag)
    ensures TagId(r) == IdOf(ListKind)
    ensures r.List? && r.subtagType == subtagType && r.elems == tags
    ensures WellFormed(r) <==> forall i :: 0 <= i < |tags| ==> WellFormed(tags[i])
  {
    List(subtagType, tags)
  }

  /** Every element of a List has the declared subtag type id. */
  predicate ElementsMatchSubtag(t: Tag)
    requires t.List?
  {
    forall i :: 0 <= i < |t.elems| ==> TagId(t.elems[i]) == t.subtagType
  }

  /** The default argument gives an empty List that keeps its subtag type, End included. */
  lemma ListOfDefaultIsEmpty(subtagType: int32)
    ensures ListOf(subtagType).elems == [] && ListOf(subtagType).subtagType == subtagType
    ensures ListOf(IdOf(EndKind)) == List(0, [])
    ensures ElementsMatchSubtag(ListOf(subtagType))
  {
  }

  /** Construction does not check the elements against the declared subtag type. */
  lemma ListOfDoesNotCheckSubtag()
    ensures ListOf(IdOf(ByteKind), [Int(5)]).elems == [Int(5)]
    ensures !ElementsMatchSubtag(ListOf(IdOf(ByteKind), [Int(5)]))
  {
    assert TagId(ListOf(IdOf(ByteKind), [Int(5)]).elems[0]) == 3;
  }

  /**
   * The elements a list generator produces for the indices `from` up to
   * `length - 1`, calling it once per index in increasing order and
   * threading its state `S` from one call to the next; also returns the
   * state the last call leaves.
   */
  function Generate<S>(gen: (S, int32) -> (S, Tag), state: S, from: nat, length: nat): (r: (S, seq<Tag>))
    requires from <= length < 0x8000_0000
    ensures |r.1| == length - from
    decreases length - from
  {
    if from == length then (state, [])
    else
      var (next, tag) := gen(state, from);
      var (last, rest) := Generate(gen, next, from + 1, length);
      (last, [tag] + rest)
  }

  /** The generator's state after its first `k` calls, made with the indices 0 up to `k - 1` in order. */
  function StateAfter<S>(gen: (S, int32) -> (S, Tag), state: S, k: nat): S
    requires k < 0x8000_0000
  {
    if k == 0 then state else gen(StateAfter(gen, state, k - 1), k - 1).0
  }

  /**
   * Generation calls the generator exactly once per index, in increasing
   * order: element `k` is what the call with index `k` returns from the
   * state the previous calls left, and the final state is the one after
   * all of them.
   */
  lemma {:induction false} GenerateInOrder<S>(gen: (S, int32) -> (S, Tag), state: S, from: nat, length: nat)
    requires from <= length < 0x8000_0000
    ensures Generate(gen, StateAfter(gen, state, from), from, length).0 == StateAfter(gen, state, length)
    ensures forall k :: from <= k < length ==>
      Generate(gen, StateAfter(gen, state, from), from, length).1[k - from] == gen(StateAfter(gen, state, k), k).1
    decreases length - from
  {
    if from < length {
      GenerateInOrder(gen, state, from + 1, length);
    }
  }

  datatype ListError = IllegalCapacity(length: int32)

  /** A built tag together with the state the generator was left in. */
  datatype Generated<S> = Generated(state: S, list: Tag)

  /**
   * `List(subtagType, length, generator)`: a List of exactly `length`
   * generated elements carrying the caller's subtag type; a negative
   * length is refused as an illegal capacity before the generator is
   * ever called.
   */
  function ListGenerated<S>(subtagType: int32, length: int32, gen: (S, int32) -> (S, Tag), state: S): (r: Result<Generated<S>, ListError>)
    ensures r.Err? <==> length < 0
    ensures r.Err? ==> r.error == IllegalCapacity(length)
    ensures r.Ok? ==> r.value.list.List? && r.value.list.subtagType == subtagType && |r.value.list.elems| == length
  {
    if length < 0 then Err(IllegalCapacity(length))
    else
      var (last, tags) := Generate(gen, state, 0, length);
      Ok(Generated(last, List(subtagType, tags)))
  }

  /** Element `k` of a generated List is the result of the `k`-th call, made with index `k`. */
  lemma ListGeneratedInOrder<S>(subtagType: int32, length: int32, gen: (S, int32) -> (S, Tag), state: S)
    requires length >= 0
    ensures ListGenerated(subtagType, length, gen, state).Ok?
    ensures ListGenerated(subtagType, length, gen, state).value.state == StateAfter(gen, state, length)
    ensures forall k :: 0 <= k < length ==>
      ListGenerated(subtagType, length, gen, state).value.list.elems[k] == gen(StateAfter(gen, state, k), k).1
  {
    GenerateInOrder(gen, state, 0, length);
  }

  /** With a generator that keeps no state, element `i` is `generator(i)`. */
  lemma ListGeneratedStateless(subtagType: int32, length: int32, generator: int32 -> Tag)
    requires length >= 0
    ensures var r := ListGenerated(subtagType, length, (u: (), i: int32) => ((), generator(i)), ());
      && r.Ok?
      && r.value.list == List(subtagType, seq(length, i requires 0 <= i < length => generator(i)))
  {
    var gen := (u: (), i: int32) => ((), generator(i));
    var r := ListGenerated(subtagType, length, gen, ());
    ListGeneratedInOrder(subtagType, length, gen, ());
    assert r.value.list.elems == seq(length, i requires 0 <= i < length => generator(i));
  }

  /** A generator that only produces well-formed tags yields a well-formed List. */
  lemma ListGeneratedWellFormed<S>(subtagType: int32, length: int32, gen: (S, int32) -> (S, Tag), state: S)
    requires length >= 0
    requires forall s, i :: WellFormed(gen(s, i).1)
    ensures WellFormed(ListGenerated(subtagType, length, gen, state).value.list)
  {
    ListGeneratedInOrder(subtagType, length, gen, state);
  }
}
