/**
 * The closed tag variant of the Named Binary Tag format: one constructor
 * per kind of tag, the numeric type id every tag carries, and the
 * human-readable form that differs from the SNBT form only for End.
 *
 * Numbering assumption: the tag classes that fix each kind's id are not
 * part of this model, so the ids are the conventional NBT numbering
 * (End = 0, Byte = 1, ..., LongArray = 12).
 */
module Tags {
  import opened Wrappers
  import opened Ints

  /**
   * A tag. Array payloads are immutable sequences of fixed-width integers;
   * Float and Double carry their IEEE-754 bit patterns and are never
   * computed with; a List carries the subtag type id its caller declared;
   * a Compound is an insertion-ordered sequence of named entries.
   */
  datatype Tag =
    | End
    | Byte(byteValue: int8)
    | Short(shortValue: int16)
    | Int(intValue: int32)
    | Long(longValue: int64)
    | Float(floatBits: bv32)
    | Double(doubleBits: bv64)
    | ByteArray(bytes: seq<int8>)
    | String(text: string)
    | List(subtagType: int32, elems: seq<Tag>)
    | Compound(entries: seq<Entry>)
    | IntArray(ints: seq<int32>)
    | LongArray(longs: seq<int64>)

  /** One named entry of a Compound. */
  datatype Entry = Entry(name: string, tag: Tag)

  /** No two entries share a name. */
  predicate UniqueKeys(es: seq<Entry>) {
    forall i, j :: 0 <= i < j < |es| ==> es[i].name != es[j].name
  }

  /**
   * The tags the source can hold: every Compound in the tree, however deep,
   * has unique names (an `NBTCompound` wraps a `Map`). The `Tag` type alone
   * also admits Compounds with a repeated name; no factory builds one from
   * well-formed inputs.
   */
  predicate WellFormed(t: Tag) {
    match t
    case List(_, elems) => forall i :: 0 <= i < |elems| ==> WellFormed(elems[i])
    case Compound(entries) => UniqueKeys(entries) && ValuesWellFormed(entries)
    case _ => true
  }

  /** Every value stored in the entries is well-formed. */
  predicate ValuesWellFormed(es: seq<Entry>) {
    forall i :: 0 <= i < |es| ==> WellFormed(es[i].tag)
  }

  /** The kinds of tag, without payloads. */
  datatype Kind =
    | EndKind | ByteKind | ShortKind | IntKind | LongKind | FloatKind | DoubleKind
    | ByteArrayKind | StringKind | ListKind | CompoundKind | IntArrayKind | LongArrayKind

  function KindOf(t: Tag): Kind {
    match t
    case End => EndKind
    case Byte(_) => ByteKind
    case Short(_) => ShortKind
    case Int(_) => IntKind
    case Long(_) => LongKind
    case Float(_) => FloatKind
    case Double(_) => DoubleKind
    case ByteArray(_) => ByteArrayKind
    case String(_) => StringKind
    case List(_, _) => ListKind
    case Compound(_) => CompoundKind
    case IntArray(_) => IntArrayKind
    case LongArray(_) => LongArrayKind
  }

  /** The wire id of each kind. */
  function IdOf(k: Kind): (id: int)
    ensures 0 <= id <= 12
  {
    match k
    case EndKind => 0
    case ByteKind => 1
    case ShortKind => 2
    case IntKind => 3
    case LongKind => 4
    case FloatKind => 5
    case DoubleKind => 6
    case ByteArrayKind => 7
    case StringKind => 8
    case ListKind => 9
    case CompoundKind => 10
    case IntArrayKind => 11
    case LongArrayKind => 12
  }

  /** Decoding an id: every id in 0..12 names exactly one kind, any other id none. */
  function KindOfId(id: int): (k: Option<Kind>)
    ensures k.Some? <==> 0 <= id <= 12
    ensures k.Some? ==> IdOf(k.value) == id
  {
    if id == 0 then Some(EndKind)
    else if id == 1 then Some(ByteKind)
    else if id == 2 then Some(ShortKind)
    else if id == 3 then Some(IntKind)
    else if id == 4 then Some(LongKind)
    else if id == 5 then Some(FloatKind)
    else if id == 6 then Some(DoubleKind)
    else if id == 7 then Some(ByteArrayKind)
    else if id == 8 then Some(StringKind)
    else if id == 9 then Some(ListKind)
    else if id == 10 then Some(CompoundKind)
    else if id == 11 then Some(IntArrayKind)
    else if id == 12 then Some(LongArrayKind)
    else None
  }

  /** Ids are never shared: decoding the id of a kind gives that kind back. */
  lemma KindOfIdOfKind(k: Kind)
    ensures KindOfId(IdOf(k)) == Some(k)
  {
  }

  /** `NBT.ID`: the tag's type id, which alone tells its kind. */
  function TagId(t: Tag): (id: int)
    ensures 0 <= id <= 12
    ensures KindOfId(id) == Some(KindOf(t))
  {
    KindOfIdOfKind(KindOf(t));
    IdOf(KindOf(t))
  }

  /** Two tags share an id exactly when they are of the same kind. */
  lemma TagIdDiscriminates(a: Tag, b: Tag)
    ensures TagId(a) == TagId(b) <==> KindOf(a) == KindOf(b)
  {
  }

  /**
   * What the source demands of every tag's `toSNBT()`: End renders as the
   * empty text. The other renderings live in the tag classes.
   */
  ghost predicate IsSnbtRenderer(snbt: Tag -> string) {
    snbt(End) == ""
  }

  /**
   * `toString()`: the SNBT text for every tag except End, whose human form
   * is "<TAG_End>".
   */
  function HumanString(t: Tag, snbt: Tag -> string): (r: string)
    requires IsSnbtRenderer(snbt)
    ensures r == snbt(t) <==> !t.End?
    ensures t.End? ==> r == "<TAG_End>"
  {
    if t.End? then "<TAG_End>" else snbt(t)
  }

  /** End is the one tag whose human form is not empty while its SNBT form is. */
  lemma EndFormsDiverge(snbt: Tag -> string)
    requires IsSnbtRenderer(snbt)
    ensures snbt(End) == "" && HumanString(End, snbt) == "<TAG_End>"
    ensures HumanString(End, snbt) != snbt(End)
  {
  }
}
