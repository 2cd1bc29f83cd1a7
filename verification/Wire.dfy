/** The protobuf wire form of a stored label-cache entry
    (`StoredEntry` and `StoredItem`), following "Base 128 Varints" and
    "Length-Delimited Records" of the Protocol Buffers Encoding guide.
    A message is a list of fields; bytes and fields are related by
    `EncodeFields` and `ParseFields`, fields and messages by
    `EntryFields`/`MergeEntry` and `ItemFields`/`MergeItem`. */
module Wire {
  import opened Basics

  datatype StoredItem = StoredItem(lkey: Bytes, mval: Bytes)

  datatype StoredEntry = StoredEntry(filledAtMs: U64, step: U32, items: seq<StoredItem>)

  const EMPTY_ITEM := StoredItem([], [])
  const EMPTY_ENTRY := StoredEntry(0, 0, [])

  datatype FieldValue = Varint(n: U64) | Delimited(body: Bytes) | Fixed64(body: Bytes) | Fixed32(body: Bytes)

  datatype Field = Field(tag: nat, value: FieldValue)

  /** One past the largest value a ten-byte varint may carry. */
  const VARINT_LIMIT: int := 0x1_0000_0000_0000_0000

  // ---- Bytes of a field ----

  function EncodeVarint(n: nat): (b: Bytes)
    ensures 1 <= |b| <= 1 + n / 128
  {
    if n < 128 then [n] else [128 + n % 128] + EncodeVarint(n / 128)
  }

  function WireType(value: FieldValue): (wireType: nat)
    ensures wireType < 8
  {
    match value
    case Varint(_) => 0
    case Fixed64(_) => 1
    case Delimited(_) => 2
    case Fixed32(_) => 5
  }

  function EncodeValue(value: FieldValue): Bytes {
    match value
    case Varint(n) => EncodeVarint(n)
    case Delimited(body) => EncodeVarint(|body|) + body
    case Fixed64(body) => body
    case Fixed32(body) => body
  }

  /** The field's key (its tag and wire type), then its value. */
  function EncodeField(field: Field): (b: Bytes)
    ensures b != []
  {
    EncodeVarint(field.tag * 8 + WireType(field.value)) + EncodeValue(field.value)
  }

  function EncodeFields(fields: seq<Field>): Bytes {
    if fields == [] then [] else EncodeField(fields[0]) + EncodeFields(fields[1..])
  }

  /** Reads a varint below `limit`, giving its value and the bytes after it.
      Each continuation byte divides the limit by 128, so from `VARINT_LIMIT`
      the tenth byte may only be 0 or 1 and there is no eleventh. */
  function ParseVarint(b: Bytes, limit: nat): (r: Option<(nat, Bytes)>)
    ensures r.Some? ==> r.value.0 < limit && |r.value.1| < |b|
  {
    if b == [] || limit == 0 then None
    else if b[0] < 128 then
      if b[0] < limit then Some((b[0], b[1..])) else None
    else
      match ParseVarint(b[1..], limit / 128)
      case None => None
      case Some((high, rest)) => Some((b[0] - 128 + 128 * high, rest))
  }

  function ParseBytes(count: nat, b: Bytes): (r: Option<(Bytes, Bytes)>)
    ensures r.Some? ==> |r.value.1| <= |b|
  {
    if count > |b| then None else Some((b[..count], b[count..]))
  }

  /** Reads the value of a field of the given wire type. */
  function ParseValue(wireType: nat, b: Bytes): (r: Option<(FieldValue, Bytes)>)
    ensures r.Some? ==> |r.value.1| <= |b|
  {
    if wireType == 0 then
      match ParseVarint(b, VARINT_LIMIT)
      case None => None
      case Some((n, rest)) => Some((Varint(n), rest))
    else if wireType == 2 then
      match ParseVarint(b, VARINT_LIMIT)
      case None => None
      case Some((length, rest)) =>
        match ParseBytes(length, rest)
        case None => None
        case Some((body, rest')) => Some((Delimited(body), rest'))
    else if wireType == 1 then
      match ParseBytes(8, b)
      case None => None
      case Some((body, rest)) => Some((Fixed64(body), rest))
    else if wireType == 5 then
      match ParseBytes(4, b)
      case None => None
      case Some((body, rest)) => Some((Fixed32(body), rest))
    else None
  }

  function ParseField(b: Bytes): (r: Option<(Field, Bytes)>)
    ensures r.Some? ==> |r.value.1| < |b|
  {
    match ParseVarint(b, VARINT_LIMIT)
    case None => None
    case Some((key, rest)) =>
      if key > U32_MAX || key / 8 == 0 then None else
      match ParseValue(key % 8, rest)
      case None => None
      case Some((value, rest')) => Some((Field(key / 8, value), rest'))
  }

  function ParseFields(b: Bytes): Option<seq<Field>>
    decreases |b|
  {
    if b == [] then Some([]) else
    match ParseField(b)
    case None => None
    case Some((field, rest)) =>
      match ParseFields(rest)
      case None => None
      case Some(fields) => Some([field] + fields)
  }

  // ---- Fields of a message ----

  /** A scalar or bytes field is left out when it holds its default. */
  function VarintField(tag: nat, n: U64): seq<Field> {
    if n == 0 then [] else [Field(tag, Varint(n))]
  }

  function BytesField(tag: nat, b: Bytes): seq<Field> {
    if b == [] then [] else [Field(tag, Delimited(b))]
  }

  function EncodeItem(item: StoredItem): Bytes {
    EncodeFields(BytesField(1, item.lkey) + BytesField(2, item.mval))
  }

  function ItemsFields(items: seq<StoredItem>): (fields: seq<Field>)
    ensures |fields| == |items|
    ensures forall i :: 0 <= i < |items| ==> fields[i] == Field(3, Delimited(EncodeItem(items[i])))
  {
    seq(|items|, i requires 0 <= i < |items| => Field(3, Delimited(EncodeItem(items[i]))))
  }

  function EntryFields(entry: StoredEntry): seq<Field> {
    VarintField(1, entry.filledAtMs) + VarintField(2, entry.step) + ItemsFields(entry.items)
  }

  function EncodeStoredEntry(entry: StoredEntry): Bytes {
    EncodeFields(EntryFields(entry))
  }

  /** Merges fields into an item: the last value of a field wins, fields of
      other tags are passed over, a wrong wire type is an error. */
  function MergeItem(fields: seq<Field>, item: StoredItem): Option<StoredItem> {
    if fields == [] then Some(item) else
    var Field(tag, value) := fields[0];
    if tag != 1 && tag != 2 then MergeItem(fields[1..], item)
    else if !value.Delimited? then None
    else MergeItem(fields[1..], if tag == 1 then item.(lkey := value.body) else item.(mval := value.body))
  }

  function DecodeItem(b: Bytes): Option<StoredItem> {
    match ParseFields(b)
    case None => None
    case Some(fields) => MergeItem(fields, EMPTY_ITEM)
  }

  /** Merges fields into an entry; items are appended. */
  function MergeEntry(fields: seq<Field>, entry: StoredEntry): Option<StoredEntry> {
    if fields == [] then Some(entry) else
    var Field(tag, value) := fields[0];
    if tag == 1 then
      if value.Varint? then MergeEntry(fields[1..], entry.(filledAtMs := value.n)) else None
    else if tag == 2 then
      if value.Varint? then MergeEntry(fields[1..], entry.(step := value.n % 0x1_0000_0000)) else None
    else if tag == 3 then
      if !value.Delimited? then None else
      match DecodeItem(value.body)
      case None => None
      case Some(item) => MergeEntry(fields[1..], entry.(items := entry.items + [item]))
    else MergeEntry(fields[1..], entry)
  }

  function DecodeStoredEntry(b: Bytes): Option<StoredEntry> {
    match ParseFields(b)
    case None => None
    case Some(fields) => MergeEntry(fields, EMPTY_ENTRY)
  }

  // ---- Round trip ----

  /** The limits met while reading a varint: 2^64, 2^57, ..., 2^8, 2. */
  ghost predicate VarintLimit(limit: nat) {
    limit == 2 || (limit > 0 && limit % 128 == 0 && VarintLimit(limit / 128))
  }

  lemma {:induction false} VarintRoundTrip(n: nat, limit: nat, rest: Bytes)
    requires VarintLimit(limit) && n < limit
    ensures ParseVarint(EncodeVarint(n) + rest, limit) == Some((n, rest))
  {
    var b := EncodeVarint(n) + rest;
    if n < 128 {
      assert b[1..] == rest;
    } else {
      VarintRoundTrip(n / 128, limit / 128, rest);
      assert b[1..] == EncodeVarint(n / 128) + rest;
    }
  }

  lemma U64RoundTrip(n: U64, rest: Bytes)
    ensures ParseVarint(EncodeVarint(n) + rest, VARINT_LIMIT) == Some((n, rest))
  {
    assert VarintLimit(0x100) && VarintLimit(0x8000) && VarintLimit(0x40_0000) && VarintLimit(0x2000_0000);
    assert VarintLimit(0x10_0000_0000) && VarintLimit(0x800_0000_0000) && VarintLimit(0x4_0000_0000_0000);
    assert VarintLimit(0x200_0000_0000_0000);
    VarintRoundTrip(n, VARINT_LIMIT, rest);
  }

  ghost predicate EncodableValue(value: FieldValue) {
    match value
    case Varint(_) => true
    case Delimited(body) => |body| <= U64_MAX
    case Fixed64(body) => |body| == 8
    case Fixed32(body) => |body| == 4
  }

  lemma ValueRoundTrip(value: FieldValue, rest: Bytes)
    requires EncodableValue(value)
    ensures ParseValue(WireType(value), EncodeValue(value) + rest) == Some((value, rest))
  {
    match value {
      case Varint(n) => U64RoundTrip(n, rest);
      case Delimited(body) =>
        U64RoundTrip(|body|, body + rest);
        assert EncodeValue(value) + rest == EncodeVarint(|body|) + (body + rest);
      case Fixed64(body) =>
      case Fixed32(body) =>
    }
  }

  /** A field whose key fits 32 bits and whose value fits its wire type. */
  ghost predicate Encodable(field: Field) {
    1 <= field.tag < 0x2000_0000 && EncodableValue(field.value)
  }

  lemma FieldRoundTrip(field: Field, rest: Bytes)
    requires Encodable(field)
    ensures ParseField(EncodeField(field) + rest) == Some((field, rest))
  {
    var key := field.tag * 8 + WireType(field.value);
    var valueAndRest := EncodeValue(field.value) + rest;
    assert EncodeField(field) + rest == EncodeVarint(key) + valueAndRest;
    U64RoundTrip(key, valueAndRest);
    ValueRoundTrip(field.value, rest);
  }

  /** Any list of encodable fields reads back from its bytes. */
  lemma {:induction false} FieldsRoundTrip(fields: seq<Field>)
    requires forall i :: 0 <= i < |fields| ==> Encodable(fields[i])
    ensures ParseFields(EncodeFields(fields)) == Some(fields)
  {
    if fields != [] {
      FieldRoundTrip(fields[0], EncodeFields(fields[1..]));
      FieldsRoundTrip(fields[1..]);
      assert fields == [fields[0]] + fields[1..];
    }
  }

  /** Byte strings a Rust vector can hold, under a four-byte key. */
  predicate Storable(item: StoredItem) {
    |item.lkey| == 4 && |item.mval| <= MAX_VEC_BYTES
  }

  /** An item short enough to have a length: any that is stored, and any other whose key
      and value do not make up more than that. */
  ghost predicate Fits(item: StoredItem) {
    |item.lkey| + |item.mval| <= MAX_VEC_BYTES + 4
  }

  lemma ItemIsShort(item: StoredItem)
    requires Fits(item)
    ensures |EncodeItem(item)| <= U64_MAX
  {
    var lkey, mval := BytesField(1, item.lkey), BytesField(2, item.mval);
    assert EncodeFields(mval) == if mval == [] then [] else EncodeField(mval[0]) + EncodeFields([]);
    if lkey == [] {
      assert lkey + mval == mval;
    } else {
      assert (lkey + mval)[1..] == mval;
    }
  }

  lemma ItemRoundTrip(item: StoredItem)
    requires Fits(item)
    ensures DecodeItem(EncodeItem(item)) == Some(item)
  {
    var lkey, mval := BytesField(1, item.lkey), BytesField(2, item.mval);
    FieldsRoundTrip(lkey + mval);
    if lkey == [] {
      assert lkey + mval == mval;
    } else {
      assert (lkey + mval)[1..] == mval && (lkey + mval)[0] == Field(1, Delimited(item.lkey));
    }
    MergeValue(StoredItem(item.lkey, []), item.mval);
  }

  lemma MergeValue(item: StoredItem, mval: Bytes)
    requires item.mval == []
    ensures MergeItem(BytesField(2, mval), item) == Some(item.(mval := mval))
  {
    if mval != [] {
      assert BytesField(2, mval)[1..] == [];
    }
  }

  /** Item fields whose bodies decode to `items` append exactly those items. */
  lemma {:induction false} ItemsMerge(fields: seq<Field>, items: seq<StoredItem>, entry: StoredEntry)
    requires |fields| == |items|
    requires forall i :: 0 <= i < |items| ==>
               fields[i].tag == 3 && fields[i].value.Delimited? && DecodeItem(fields[i].value.body) == Some(items[i])
    ensures MergeEntry(fields, entry) == Some(entry.(items := entry.items + items))
  {
    if items == [] {
      assert entry.items + items == entry.items;
    } else {
      ItemsMerge(fields[1..], items[1..], entry.(items := entry.items + [items[0]]));
      assert entry.items + [items[0]] + items[1..] == entry.items + items;
    }
  }

  lemma HeaderMerges(entry: StoredEntry, items: seq<Field>)
    ensures MergeEntry(VarintField(1, entry.filledAtMs) + VarintField(2, entry.step) + items, EMPTY_ENTRY) ==
            MergeEntry(items, EMPTY_ENTRY.(filledAtMs := entry.filledAtMs, step := entry.step))
  {
    var filled, step := VarintField(1, entry.filledAtMs), VarintField(2, entry.step);
    assert filled + step + items == filled + (step + items);
    assert if filled == [] then filled + (step + items) == step + items
           else (filled + (step + items))[1..] == step + items;
    assert if step == [] then step + items == items else (step + items)[1..] == items;
  }

  /** The bytes of an item: its key under tag 1, its value under tag 2. */
  lemma ItemLayout(item: StoredItem)
    requires |item.lkey| == 4 && item.mval != []
    ensures EncodeItem(item) == [0x0A, 0x04] + item.lkey + ([0x12] + EncodeVarint(|item.mval|) + item.mval)
  {
    var lkey, mval := Field(1, Delimited(item.lkey)), Field(2, Delimited(item.mval));
    TwoFields(lkey, mval);
    assert BytesField(1, item.lkey) + BytesField(2, item.mval) == [lkey, mval];
    assert EncodeVarint(4) == [0x04];
    assert EncodeField(lkey) == [0x0A] + ([0x04] + item.lkey);
    assert EncodeField(mval) == [0x12] + (EncodeVarint(|item.mval|) + item.mval);
  }

  /** The bytes of an entry: fill time and step as varints under tags 1 and 2, then each
      item under tag 3 with its length. */
  lemma EntryLayout(entry: StoredEntry, item: StoredItem)
    requires entry.filledAtMs != 0 && entry.step != 0 && entry.items == [item]
    ensures EncodeStoredEntry(entry) ==
            ([0x08] + EncodeVarint(entry.filledAtMs)) + (([0x10] + EncodeVarint(entry.step)) +
            ([0x1A] + (EncodeVarint(|EncodeItem(item)|) + EncodeItem(item))))
  {
    var filled, step := Field(1, Varint(entry.filledAtMs)), Field(2, Varint(entry.step));
    var items := Field(3, Delimited(EncodeItem(item)));
    var fields := EntryFields(entry);
    assert fields == [filled, step, items];
    assert fields[1..] == [step, items];
    TwoFields(step, items);
  }

  /** A varint, low groups of seven bits first. */
  lemma VarintBytes()
    ensures EncodeVarint(300) == [0xAC, 0x02]
  {
  }

  lemma TwoFields(first: Field, second: Field)
    ensures EncodeFields([first, second]) == EncodeField(first) + EncodeField(second)
  {
    assert [first, second][1..] == [second] && [second][1..] == [];
    assert EncodeFields([second]) == EncodeField(second) + [];
  }

  /** Every entry the writer can build, and any other whose items fit, reads back as itself. */
  lemma StoredEntryRoundTrip(entry: StoredEntry)
    requires forall i :: 0 <= i < |entry.items| ==> Fits(entry.items[i])
    ensures DecodeStoredEntry(EncodeStoredEntry(entry)) == Some(entry)
  {
    forall i | 0 <= i < |entry.items| ensures Encodable(ItemsFields(entry.items)[i]) {
      ItemIsShort(entry.items[i]);
    }
    forall i | 0 <= i < |entry.items| ensures DecodeItem(EncodeItem(entry.items[i])) == Some(entry.items[i]) {
      ItemRoundTrip(entry.items[i]);
    }
    FieldsRoundTrip(EntryFields(entry));
    HeaderMerges(entry, ItemsFields(entry.items));
    var header := EMPTY_ENTRY.(filledAtMs := entry.filledAtMs, step := entry.step);
    ItemsMerge(ItemsFields(entry.items), entry.items, header);
    assert [] + entry.items == entry.items;
  }
}
