# NBT tag model and tag factory

This project models the front of the Hephaistos NBT (Named Binary Tag) library, in Dafny. It covers the closed tag variant that every tag belongs to and the factory in its companion object.

- `Ints` (`ints.dfy`) holds the JVM's signed integer widths (`int8`, `int16`, `int32`, `int64`). It also holds the narrowing conversions `Int.toByte()` and `Int.toShort()`. Both keep the low bits in two's complement and never fail.
- `Tags` (`tags.dfy`) holds the tag variant. It has one constructor per kind: End, Byte, Short, Int, Long, Float, Double, ByteArray, String, List, Compound, IntArray and LongArray. `Tags` also holds the type id each tag carries and the human-readable `toString()` form.
  - The tag classes that fix each id are not part of this model. The ids follow the conventional NBT numbering: End = 0, Byte = 1, Short = 2, Int = 3, Long = 4, Float = 5, Double = 6, ByteArray = 7, String = 8, List = 9, Compound = 10, IntArray = 11, LongArray = 12.
  - Array payloads are immutable sequences of fixed-width integers. Float and Double carry their IEEE-754 bit patterns.
  - A Compound is a sequence of named entries in insertion order.
- `OrderedEntries` (`entries.dfy`) holds the insertion-ordered map behind a Compound. The map is Kotlin's `mutableMapOf`, a `LinkedHashMap`. Putting a name that is already present replaces its value where it stands. Putting a new name appends it.
- `Factory` (`factory.dfy`) holds the pure factories:
  - `Boolean`
  - the narrowing `Byte(Int)` and `Short(Int)`
  - `ByteArray(vararg Int)`
  - the List overloads: the default empty list, varargs, and a generator called once per index.

  The factories that only wrap their argument are the `Tag` constructors themselves. These are `Byte(Byte)`, `ByteArray(vararg Byte)`, `Short(Short)`, `Int`, `Long`, `Float`, `Double`, `String`, `IntArray`, `LongArray` and `ByteArray(ImmutableByteArray)`.
- `CompoundBuilder` (`compound_builder.dfy`) holds `Compound(lambda)`, written imperatively. It creates a `CompoundMap` object, whose `entries` field is the staging `LinkedHashMap`. The builder callback's changes are applied to that object in place. The entries left at the end are then wrapped as a Compound tag.
  - The callback is modelled by the sequence of map operations it performs: put, remove or clear.
  - `Built` is the specification of what those operations leave in the map.
- `Wrappers` (`wrappers.dfy`) holds `Option` and `Result`.

The generator passed to `List(subtagType, length, generator)` is a callback that may have effects. It is modelled as a function `(S, int32) -> (S, Tag)` that threads a state `S` from call to call. This makes the order and number of calls part of what is proved.

For a negative `length`, the Kotlin standard library's `List(size) { … }` allocates `ArrayList(size)`. On the JVM that throws `IllegalArgumentException`. The model returns `Err(IllegalCapacity(length))` instead.

`NBT.kt` does not check element ids against `subtagType` when it builds a List (NBT.kt:103-113). `Factory.ListOfDoesNotCheckSubtag` shows a List of Byte subtag type holding an Int.

The `Tag` type by itself also admits a Compound that repeats a name. The source has no such value, because an `NBTCompound` wraps a `Map`. `Tags.WellFormed` singles out the tags the source can hold: every Compound in the tree, at any depth, has unique names. For the scalar and array factories this holds by the definition of `WellFormed`. It is proved for `ListOf`, `ListGenerated` and `Compound` whenever their inputs are well-formed.

## Model

| member | source | states |
|---|---|---|
| `Ints.ToByte` | common/src/main/kotlin/org/jglrxavpok/hephaistos/nbt/NBT.kt:52 | `value.toByte()` is a signed byte congruent to the int modulo 256. It equals the int when the int already fits. |
| `Ints.ToShort` | common/src/main/kotlin/org/jglrxavpok/hephaistos/nbt/NBT.kt:87 | `value.toShort()` is a signed short congruent to the int modulo 65536. It equals the int when the int already fits. |
| `Ints.ToByteUnique` | common/src/main/kotlin/org/jglrxavpok/hephaistos/nbt/NBT.kt:52 | The narrowed byte is the only byte congruent to the int modulo 256, so the wrap-around is fully determined. |
| `Ints.ToShortUnique` | common/src/main/kotlin/org/jglrxavpok/hephaistos/nbt/NBT.kt:87 | The narrowed short is the only short congruent to the int modulo 65536. |
| `Ints.ToByteOfToShort` | common/src/main/kotlin/org/jglrxavpok/hephaistos/nbt/NBT.kt:87 | Narrowing to a short and then to a byte gives the same byte as narrowing straight to a byte. |
| `Ints.ToByteIdempotent` | common/src/main/kotlin/org/jglrxavpok/hephaistos/nbt/NBT.kt:52 | Narrowing a value already narrowed to a byte changes nothing. |
| `Ints.NarrowingExamples` | common/src/main/kotlin/org/jglrxavpok/hephaistos/nbt/NBT.kt:52 | Worked wrap-arounds: 300 becomes 44, 128 becomes -128, -129 becomes 127, 255 becomes -1. For shorts, 32768 becomes -32768, 70000 becomes 4464, -32769 becomes 32767. |
| `Tags.IdOf` | common/src/main/kotlin/org/jglrxavpok/hephaistos/nbt/NBT.kt:15-18 | Every kind's id lies in 0..12. |
| `Tags.KindOfId` | common/src/main/kotlin/org/jglrxavpok/hephaistos/nbt/NBT.kt:15-18 | An id names a kind exactly when it lies in 0..12, and the kind it names has that id. |
| `Tags.KindOfIdOfKind` | common/src/main/kotlin/org/jglrxavpok/hephaistos/nbt/NBT.kt:13-18 | No two kinds share an id: decoding a kind's id gives that kind back. |
| `Tags.TagId` | common/src/main/kotlin/org/jglrxavpok/hephaistos/nbt/NBT.kt:18 | A tag's `ID` lies in 0..12 and decodes to the tag's own kind. |
| `Tags.TagIdDiscriminates` | common/src/main/kotlin/org/jglrxavpok/hephaistos/nbt/NBT.kt:13-18 | Two tags have the same `ID` if and only if they are of the same kind of the sealed hierarchy. |
| `Tags.HumanString` | common/src/main/kotlin/org/jglrxavpok/hephaistos/nbt/NBT.kt:27-38 | `toString()` equals `toSNBT()` if and only if the tag is not End. For End it is `<TAG_End>`. |
| `Tags.EndFormsDiverge` | common/src/main/kotlin/org/jglrxavpok/hephaistos/nbt/NBT.kt:27-38 | End's SNBT form is empty and its human form is `<TAG_End>`, so the two differ. |
| `OrderedEntries.IndexOf` | common/src/main/kotlin/org/jglrxavpok/hephaistos/nbt/NBT.kt:68 | Gives the first position holding the name, or none exactly when no entry has the name. |
| `OrderedEntries.Lookup` | common/src/main/kotlin/org/jglrxavpok/hephaistos/nbt/NBT.kt:68 | `get` finds nothing exactly when no entry has the name. With unique names it gives the value of the entry that has the name. |
| `OrderedEntries.Put` | common/src/main/kotlin/org/jglrxavpok/hephaistos/nbt/NBT.kt:68 | `put` on a new name appends the entry at the end. On an existing name it replaces the entry at that name's position. |
| `OrderedEntries.PutKeepsUnique` | common/src/main/kotlin/org/jglrxavpok/hephaistos/nbt/NBT.kt:68 | Putting keeps the names unique. |
| `OrderedEntries.PutLookup` | common/src/main/kotlin/org/jglrxavpok/hephaistos/nbt/NBT.kt:68 | After `put(key, value)`, `get(key)` gives `value` and every other name gives what it gave before: the last put wins. |
| `OrderedEntries.Remove` | common/src/main/kotlin/org/jglrxavpok/hephaistos/nbt/NBT.kt:68 | `remove` of an absent name changes nothing. Otherwise it drops exactly that entry and keeps the others in order. |
| `OrderedEntries.PutKeepsWellFormedValues` | common/src/main/kotlin/org/jglrxavpok/hephaistos/nbt/NBT.kt:68 | Putting a well-formed value keeps every stored value well-formed. |
| `OrderedEntries.RemoveKeepsWellFormedValues` | common/src/main/kotlin/org/jglrxavpok/hephaistos/nbt/NBT.kt:68 | Removing keeps every remaining value well-formed. |
| `OrderedEntries.RemoveKeepsUnique` | common/src/main/kotlin/org/jglrxavpok/hephaistos/nbt/NBT.kt:68 | Removing keeps the names unique. |
| `OrderedEntries.RemoveForgets` | common/src/main/kotlin/org/jglrxavpok/hephaistos/nbt/NBT.kt:68 | After `remove(key)` the map has no entry for that name. |
| `OrderedEntries.RemoveKeepsOther` | common/src/main/kotlin/org/jglrxavpok/hephaistos/nbt/NBT.kt:68 | After `remove(key)` every other name that was present gives the same value as before. |
| `OrderedEntries.RemoveOnlyDrops` | common/src/main/kotlin/org/jglrxavpok/hephaistos/nbt/NBT.kt:68 | `remove` never adds a name that was not present before. |
| `OrderedEntries.RemoveLookup` | common/src/main/kotlin/org/jglrxavpok/hephaistos/nbt/NBT.kt:68 | After `remove(key)` the name is absent and every other name gives what it gave before. |
| `CompoundBuilder.CompoundMap.constructor` | common/src/main/kotlin/org/jglrxavpok/hephaistos/nbt/NBT.kt:68 | The builder starts from a fresh, empty map. |
| `CompoundBuilder.CompoundMap.Get` | common/src/main/kotlin/org/jglrxavpok/hephaistos/nbt/NBT.kt:68 | Reading the staging map answers what the insertion-ordered entries hold. |
| `CompoundBuilder.CompoundMap.Put` | common/src/main/kotlin/org/jglrxavpok/hephaistos/nbt/NBT.kt:68 | `put` updates the entries in place, as `OrderedEntries.Put` says. It keeps names unique and returns the value it replaced. |
| `CompoundBuilder.CompoundMap.Remove` | common/src/main/kotlin/org/jglrxavpok/hephaistos/nbt/NBT.kt:68 | `remove` updates the entries in place, as `OrderedEntries.Remove` says. It keeps names unique and returns the value it removed. |
| `CompoundBuilder.CompoundMap.Clear` | common/src/main/kotlin/org/jglrxavpok/hephaistos/nbt/NBT.kt:68 | `clear` empties the map. |
| `CompoundBuilder.ApplyKeepsUnique` | common/src/main/kotlin/org/jglrxavpok/hephaistos/nbt/NBT.kt:68 | Each builder step (put, remove or clear) keeps the names unique. |
| `CompoundBuilder.ApplyUntouched` | common/src/main/kotlin/org/jglrxavpok/hephaistos/nbt/NBT.kt:68 | A step that neither puts nor removes a name, and is not a clear, leaves that name's value as it was. |
| `CompoundBuilder.Built` | common/src/main/kotlin/org/jglrxavpok/hephaistos/nbt/NBT.kt:68 | Whatever the builder does, the entries it leaves have unique names. |
| `CompoundBuilder.Compound` | common/src/main/kotlin/org/jglrxavpok/hephaistos/nbt/NBT.kt:68 | The Compound's entries are exactly those the builder's steps leave in a fresh map, in insertion order, with unique names. If every value put is well-formed, so is the Compound. |
| `CompoundBuilder.BuiltWellFormed` | common/src/main/kotlin/org/jglrxavpok/hephaistos/nbt/NBT.kt:68 | If every value the builder puts is well-formed, every value left in the map is well-formed. |
| `CompoundBuilder.LastPutWins` | common/src/main/kotlin/org/jglrxavpok/hephaistos/nbt/NBT.kt:68 | A name ends up with the value of its last put, unless a later step removes it or clears the map. |
| `CompoundBuilder.NeverPutIsAbsent` | common/src/main/kotlin/org/jglrxavpok/hephaistos/nbt/NBT.kt:68 | A name that no step puts is absent from the Compound. |
| `Factory.Boolean` | common/src/main/kotlin/org/jglrxavpok/hephaistos/nbt/NBT.kt:44 | The result is the shared ONE or ZERO byte tag. Its value is non-zero if and only if the flag is true. |
| `Factory.ByteOfInt` | common/src/main/kotlin/org/jglrxavpok/hephaistos/nbt/NBT.kt:52 | `Byte(Int)` is a Byte tag whose value is congruent to the int modulo 256. When the int fits, it equals `Byte(Byte)` on the same number. |
| `Factory.ShortOfInt` | common/src/main/kotlin/org/jglrxavpok/hephaistos/nbt/NBT.kt:87 | `Short(Int)` is a Short tag whose value is congruent to the int modulo 65536. When the int fits, it equals `Short(Short)` on the same number. |
| `Factory.ByteArrayOfInts` | common/src/main/kotlin/org/jglrxavpok/hephaistos/nbt/NBT.kt:58-60 | `ByteArray(vararg Int)` has as many bytes as ints. Byte i is congruent to int i modulo 256, and equals it when it fits. |
| `Factory.ByteArrayOfIntsInRange` | common/src/main/kotlin/org/jglrxavpok/hephaistos/nbt/NBT.kt:54-60 | On ints that fit in a byte, `ByteArray(vararg Int)` builds the same tag as `ByteArray(vararg Byte)`. |
| `Factory.ListOf` | common/src/main/kotlin/org/jglrxavpok/hephaistos/nbt/NBT.kt:101-107 | The result is a List tag (id 9). It carries the caller's subtag type unchanged and exactly the given elements, in order and count. It is well-formed if and only if every element is. |
| `Factory.ListOfDefaultIsEmpty` | common/src/main/kotlin/org/jglrxavpok/hephaistos/nbt/NBT.kt:103 | The default argument gives an empty List that keeps its subtag type, End (0) included. Such a List trivially satisfies its subtag type. |
| `Factory.ListOfDoesNotCheckSubtag` | common/src/main/kotlin/org/jglrxavpok/hephaistos/nbt/NBT.kt:103-107 | `NBT.kt` does not check elements against the subtag type before handing them to `NBTList`: a List of Byte subtag type can hold an Int. |
| `Factory.Generate` | common/src/main/kotlin/org/jglrxavpok/hephaistos/nbt/NBT.kt:111-113 | Generating from index `from` to `length` yields exactly `length - from` elements. |
| `Factory.GenerateInOrder` | common/src/main/kotlin/org/jglrxavpok/hephaistos/nbt/NBT.kt:111-113 | The generator is called once per index, in increasing order. Element k is what the call with index k returns from the state the earlier calls left. The final state is the one after all the calls. |
| `Factory.ListGenerated` | common/src/main/kotlin/org/jglrxavpok/hephaistos/nbt/NBT.kt:111-113 | A negative length is refused (illegal capacity). Otherwise the List has exactly `length` elements and carries the caller's subtag type, unchecked. |
| `Factory.ListGeneratedInOrder` | common/src/main/kotlin/org/jglrxavpok/hephaistos/nbt/NBT.kt:111-113 | Element k of a generated List comes from the k-th generator call, made with index k. The generator ends in the state left by exactly `length` calls. |
| `Factory.ListGeneratedWellFormed` | common/src/main/kotlin/org/jglrxavpok/hephaistos/nbt/NBT.kt:111-113 | A generator that only produces well-formed tags yields a well-formed List. |
| `Factory.ListGeneratedStateless` | common/src/main/kotlin/org/jglrxavpok/hephaistos/nbt/NBT.kt:111-113 | With a generator that keeps no state, the List is `[generator(0), …, generator(length - 1)]`. |

## Left out

- `writeContents` (the binary writer) is not modelled: it is stream I/O with `IOException` propagation, and its bodies live in the tag classes. The binary reader is not modelled for the same reason.
- The concrete `toSNBT()` rendering of each kind lives in the tag classes and is not modelled. `Tags.HumanString` takes the SNBT renderer as a parameter. The only constraint on that renderer is the one the interface states: End renders as the empty text.
- The commented-out `parseSNBT` is not modelled: it has no implementation.
- Float and Double payloads are carried as IEEE-754 bit patterns, with no arithmetic and no conversion.
- `ImmutableByteArray`, `ImmutableIntArray` and `ImmutableLongArray` are modelled as immutable sequences. Their internals are not part of this model.
- The JVM's maximum array length is not modelled, so sequences are unbounded.
- `Kompound` is not modelled separately: it only adapts a receiver-style lambda and delegates to `Compound`.
- `CompoundBuilder.Compound` does not model arbitrary builder code. The callback is modelled as its sequence of put, remove and clear operations. Other `MutableMap` operations, such as `putAll`, are compositions of these. Reads leave the map unchanged (`CompoundMap.Get`). Exceptions thrown from the callback are not modelled.
- `Factory.ListGenerated` does not model a generator that throws: the generator is a total function of its state and index.
- The type ids are an assumption, not taken from code: the tag classes that set `ID` are not part of this model. The conventional NBT numbering 0..12 is used.
- `@JvmStatic` and `@Contract(pure = true)` are annotations, not behaviour.
- The tag classes' constructors are not part of this model. The model assumes `NBTList` stores its subtag type and elements as given, without checking them. It also assumes `NBTCompound` keeps the staging map's entries in their insertion order.
- `CompoundBuilder.Compound` returns a frozen value and does not model aliasing. At NBT.kt:68 the very map the callback received is handed to `NBTCompound`. A reference to that map kept by the callback could change the tag later unless `NBTCompound` copies it. The model assumes the copy.
- Kotlin strings are UTF-16 and may hold unpaired surrogates. Dafny's `string` holds Unicode scalar values only, so String payloads and Compound names are narrower in the model than in the source.
- `Factory.ListOf` does not model aliasing. At NBT.kt:103 the caller's list is handed to `NBTList` as is; only the vararg overload at NBT.kt:107 copies it with `toList()`. If the caller passes a `MutableList` and changes it later, the tag could change too, unless `NBTList` copies the list. The model assumes the copy and returns a frozen value.
