/** Safety labels of a post: how raw Manhattan items become a label map, and
    the two filters applied to label maps, by expiry and by label type. */
module Labels {
  import opened Basics

  /** A label, with its expiry apart from its other fields. */
  datatype Label = Label(expiresAtMsec: Option<I64>, details: Bytes)

  const DEFAULT_LABEL := Label(None, [])

  /** Labels of one post, by label type. */
  type LabelMap = map<int, Label>

  datatype RawLabel = RawLabel(lkey: Bytes, mval: Bytes)

  /** An item as Manhattan stores it: the label type is in the four-byte key. */
  type RawSafetyLabel = raw: RawLabel |
      |raw.lkey| == 4 && |raw.mval| <= MAX_VEC_BYTES witness RawLabel([0, 0, 0, 0], [])

  /** What Thrift deserialisation makes of one stored value. */
  datatype ValueDecode = Value(decoded: Label) | Corrupt | Panics

  /** The foreign decoders: the label type in a key, the label in a value, and
      the label types the store knows. */
  datatype Decoders = Decoders(typeOf: Bytes -> int, valueOf: Bytes -> ValueDecode, knownTypes: set<int>)

  // ---- Raw items to labels ----

  /** The label map of a list of items, or none when a value panics the decoder. */
  function LabelsOf(decoders: Decoders, items: seq<RawSafetyLabel>): Option<LabelMap> {
    if items == [] then Some(map[]) else
    var last := items[|items| - 1];
    match LabelsOf(decoders, items[..|items| - 1])
    case None => None
    case Some(labels) =>
      match decoders.valueOf(last.mval)
      case Value(found) => Some(labels[decoders.typeOf(last.lkey) := found])
      case Corrupt => Some(labels[decoders.typeOf(last.lkey) := DEFAULT_LABEL])
      case Panics => None
  }

  method RawLabels(decoders: Decoders, items: seq<RawSafetyLabel>) returns (labels: Option<LabelMap>)
    ensures labels == LabelsOf(decoders, items)
  {
    var built: LabelMap := map[];
    for i := 0 to |items|
      invariant LabelsOf(decoders, items[..i]) == Some(built)
    {
      var item := items[i];
      assert items[..i + 1][..i] == items[..i];
      var next;
      match decoders.valueOf(item.mval) {
        case Value(found) => next := found;
        case Corrupt => next := DEFAULT_LABEL;
        case Panics =>
          PanicIsFinal(decoders, items, i);
          return None;
      }
      built := built[decoders.typeOf(item.lkey) := next];
    }
    assert items[..|items|] == items;
    return Some(built);
  }

  lemma {:induction false} PanicIsFinal(decoders: Decoders, items: seq<RawSafetyLabel>, i: nat)
    requires i < |items| && decoders.valueOf(items[i].mval).Panics?
    ensures LabelsOf(decoders, items).None?
  {
    if i < |items| - 1 {
      PanicIsFinal(decoders, items[..|items| - 1], i);
    }
  }

  /** Item `i` is the last one of its label type. */
  ghost predicate LastOfType(decoders: Decoders, items: seq<RawSafetyLabel>, i: nat) {
    i < |items| &&
    forall j :: i < j < |items| ==> decoders.typeOf(items[j].lkey) != decoders.typeOf(items[i].lkey)
  }

  function LabelOrDefault(value: ValueDecode): Label {
    if value.Value? then value.decoded else DEFAULT_LABEL
  }

  /** Decoding fails exactly when some value panics the decoder. */
  lemma {:induction false} DecodingFails(decoders: Decoders, items: seq<RawSafetyLabel>)
    ensures LabelsOf(decoders, items).None? <==>
            exists i :: 0 <= i < |items| && decoders.valueOf(items[i].mval).Panics?
  {
    if items != [] {
      var n := |items| - 1;
      DecodingFails(decoders, items[..n]);
      assert forall i :: 0 <= i < n ==> items[..n][i] == items[i];
    }
  }

  /** The label types of a decoded map are those of its items. */
  lemma {:induction false} DecodedTypes(decoders: Decoders, items: seq<RawSafetyLabel>, t: int)
    requires LabelsOf(decoders, items).Some?
    ensures t in LabelsOf(decoders, items).value <==>
            exists i :: 0 <= i < |items| && decoders.typeOf(items[i].lkey) == t
  {
    if items != [] {
      var n := |items| - 1;
      DecodedTypes(decoders, items[..n], t);
      assert forall i :: 0 <= i < n ==> items[..n][i] == items[i];
      assert decoders.typeOf(items[n].lkey) == t || t !in LabelsOf(decoders, items).value ||
             t in LabelsOf(decoders, items[..n]).value;
    }
  }

  /** The last item of a type gives its label; a corrupt value gives the default. */
  lemma {:induction false} LastItemWins(decoders: Decoders, items: seq<RawSafetyLabel>, i: nat)
    requires LabelsOf(decoders, items).Some?
    requires LastOfType(decoders, items, i)
    ensures var labels, t := LabelsOf(decoders, items).value, decoders.typeOf(items[i].lkey);
            t in labels && labels[t] == LabelOrDefault(decoders.valueOf(items[i].mval))
  {
    var n := |items| - 1;
    if i < n {
      assert items[..n][i] == items[i];
      LastItemWins(decoders, items[..n], i);
    }
  }

  // ---- Filters ----

  /** Subtraction of 64-bit integers, wrapping around. */
  function WrappingSub(a: I64, b: I64): I64 {
    var d := a - b;
    if d < -0x8000_0000_0000_0000 then d + 0x1_0000_0000_0000_0000
    else if d > 0x7FFF_FFFF_FFFF_FFFF then d - 0x1_0000_0000_0000_0000
    else d
  }

  predicate LabelIsLive(expiresAtMsec: Option<I64>, nowMs: I64) {
    expiresAtMsec.None? || WrappingSub(expiresAtMsec.value, nowMs) > 0
  }

  /** The wrapping comparison agrees with "expires later than now" exactly when
      the difference of the two times fits 64 bits; a label without expiry is live. */
  lemma LivenessIsPlainComparison(expires: I64, nowMs: I64)
    ensures (LabelIsLive(Some(expires), nowMs) <==> expires > nowMs) <==>
            -0x8000_0000_0000_0000 <= expires - nowMs <= 0x7FFF_FFFF_FFFF_FFFF
    ensures LabelIsLive(None, nowMs)
  {
  }

  /** It does not agree at the ends of the range: a label that never expires may count
      as expired, and one that expired long ago as live. */
  lemma LivenessWrapsAround()
    ensures !LabelIsLive(Some(0x7FFF_FFFF_FFFF_FFFF), -1)
    ensures LabelIsLive(Some(-0x8000_0000_0000_0000), 1)
  {
  }

  function DropExpiredLabels(labels: LabelMap, nowMs: I64): LabelMap {
    map t | t in labels && LabelIsLive(labels[t].expiresAtMsec, nowMs) :: labels[t]
  }

  function KnownTypesOnly(decoders: Decoders, labels: LabelMap): LabelMap {
    map t | t in labels && t in decoders.knownTypes :: labels[t]
  }

  function FilteredLabels(decoders: Decoders, labels: LabelMap, nowMs: I64): LabelMap {
    KnownTypesOnly(decoders, DropExpiredLabels(labels, nowMs))
  }

  /** `part` holds the labels of `whole` that are live, and of known types where it is
      restricted to those: each of them, unchanged, and no other. */
  ghost predicate IsLivePart(decoders: Decoders, whole: LabelMap, nowMs: I64, restricted: bool, part: LabelMap) {
    && (forall t :: t in part <==>
          t in whole && LabelIsLive(whole[t].expiresAtMsec, nowMs) && (restricted ==> t in decoders.knownTypes))
    && (forall t :: t in part ==> part[t] == whole[t])
  }

  /** Dropping expired labels keeps every live one and nothing else. */
  lemma ExpiryFilterIsExact(decoders: Decoders, labels: LabelMap, nowMs: I64)
    ensures IsLivePart(decoders, labels, nowMs, false, DropExpiredLabels(labels, nowMs))
    ensures IsLivePart(decoders, labels, nowMs, true, FilteredLabels(decoders, labels, nowMs))
  {
  }

  /** Restricting to known types keeps every label of a known type and nothing else. */
  lemma TypeFilterIsExact(decoders: Decoders, labels: LabelMap, t: int)
    ensures t in KnownTypesOnly(decoders, labels) <==> t in labels && t in decoders.knownTypes
    ensures t in KnownTypesOnly(decoders, labels) ==> KnownTypesOnly(decoders, labels)[t] == labels[t]
  {
  }

  /** The two filters commute, so filtering a map already restricted by type
      gives what filtering the full map gives. */
  lemma FiltersCommute(decoders: Decoders, labels: LabelMap, nowMs: I64)
    ensures FilteredLabels(decoders, labels, nowMs) ==
            DropExpiredLabels(KnownTypesOnly(decoders, labels), nowMs)
    ensures FilteredLabels(decoders, KnownTypesOnly(decoders, labels), nowMs) ==
            FilteredLabels(decoders, labels, nowMs)
  {
  }
}
