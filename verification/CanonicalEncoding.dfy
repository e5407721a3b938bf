/**
 The canonical signing encoder, driven by a table of schemas. `Records` says which wire
 records a message becomes, `Canonical` writes them out, and `Normal` is the reference
 meaning: what is left of a message once signatures, derived hashes, defaults and single
 nested messages that become empty are dropped at every depth.

 Values of the wrong type for their field make the Python code raise; the functions here
 give them no records, and the theorems are about well-typed messages.
 */
module CanonicalEncoding {
  import opened Common
  import opened Wire
  import Dictionary
  import Sorting
  import Utf8
  import Varint

  datatype Kind =
    | UintKind | EnumKind | IntKind | BoolKind | StringKind | BytesKind
    | RepeatedStringKind | MapKind
    | MessageKind(schema: string)
    | RepeatedMessageKind(schema: string)

  datatype Field = Field(number: nat, name: string, kind: Kind)

  /** The `SCHEMAS` table. */
  type Schemas = map<string, seq<Field>>

  datatype Value =
    | Unset
    | Number(n: int)
    | Flag(b: bool)
    | Text(s: string)
    | Blob(bs: bytes)
    | Texts(ss: seq<string>)
    | Dict(es: Dictionary.Entries)
    | Nested(m: Message)
    | NestedList(ms: seq<Message>)

  /** A message is a dict from field names; names the schema does not list are ignored. */
  datatype Message = Message(fields: map<string, Value>)

  const SIGNATURE_FIELD_NUMBER: nat := 90
  const DERIVED_HASH_FIELD: string := "manifest_hash"

  function Get(m: Message, name: string): (v: Value)
  {
    if name in m.fields then m.fields[name] else Unset
  }

  /** Rule i: signatures and derived hashes never enter the encoding, at any depth. */
  predicate Kept(f: Field)
  {
    f.number != SIGNATURE_FIELD_NUMBER && f.name != DERIVED_HASH_FIELD
  }

  /** Rule b, as `is_default` decides it on well-typed values. */
  predicate IsDefault(v: Value)
  {
    match v
    case Unset => true
    case Number(n) => n == 0
    case Flag(b) => !b
    case Text(s) => s == ""
    case Blob(bs) => bs == []
    case Texts(ss) => ss == []
    case Dict(es) => es == []
    case Nested(m) => m.fields == map[]
    case NestedList(ms) => ms == []
  }

  ghost predicate WellFormed(S: Schemas)
  {
    forall name :: name in S ==> DistinctNumbers(S[name])
  }

  ghost predicate DistinctNumbers(fs: seq<Field>)
  {
    forall i, j :: 0 <= i < j < |fs| ==> fs[i].number != fs[j].number
  }

  ghost predicate WellTyped(S: Schemas, name: string, m: Message)
    decreases m, 1
  {
    && name in S
    && forall f :: f in S[name] && Kept(f) ==> FieldTyped(S, f, m)
  }

  ghost predicate FieldTyped(S: Schemas, f: Field, m: Message)
    decreases m, 0
  {
    var v := Get(m, f.name);
    v.Unset? ||
    match f.kind
    case UintKind => v.Number? && v.n >= 0
    case EnumKind => v.Number? && v.n >= 0
    case IntKind => v.Number? && Varint.IsInt64(v.n)
    case BoolKind => v.Flag?
    case StringKind => v.Text?
    case BytesKind => v.Blob?
    case RepeatedStringKind => v.Texts?
    case MapKind => v.Dict? && Dictionary.DistinctKeys(v.es)
    case MessageKind(schema) => v.Nested? && WellTyped(S, schema, v.m)
    case RepeatedMessageKind(schema) => v.NestedList? && forall i :: 0 <= i < |v.ms| ==> WellTyped(S, schema, v.ms[i])
  }

  // ---------------------------------------------------------------- the encoding

  const ByNumber: (Field, Field) -> bool := (f: Field, g: Field) => f.number < g.number

  function SortedFields(fs: seq<Field>): (r: seq<Field>)
  {
    Sorting.Sort(fs, ByNumber)
  }

  /** One map entry (rule c-2: the key is always written, an empty value never). */
  function EntryBytes(p: (bytes, bytes)): (r: bytes)
  {
    Flatten([LenRecord(1, p.0)] + if p.1 == [] then [] else [LenRecord(2, p.1)])
  }

  function TextRecords(number: nat, ss: seq<string>): (r: seq<Record>)
  {
    seq(|ss|, i requires 0 <= i < |ss| => LenRecord(number, Utf8.Encode(ss[i])))
  }

  function EntryRecords(number: nat, ps: seq<(bytes, bytes)>): (r: seq<Record>)
  {
    seq(|ps|, i requires 0 <= i < |ps| => LenRecord(number, EntryBytes(ps[i])))
  }

  function FieldRecords(S: Schemas, f: Field, m: Message): (r: seq<Record>)
    decreases m, 0, 0
  {
    var v := Get(m, f.name);
    if !Kept(f) || IsDefault(v) then []
    else
      match (f.kind, v)
      case (UintKind, Number(n)) => if n < 0 then [] else [VarintRecord(f.number, n)]
      case (EnumKind, Number(n)) => if n < 0 then [] else [VarintRecord(f.number, n)]
      case (IntKind, Number(n)) => [VarintRecord(f.number, n % TWO_64)]
      case (BoolKind, Flag(_)) => [VarintRecord(f.number, 1)]
      case (StringKind, Text(s)) => [LenRecord(f.number, Utf8.Encode(s))]
      case (BytesKind, Blob(bs)) => [LenRecord(f.number, bs)]
      case (RepeatedStringKind, Texts(ss)) => TextRecords(f.number, ss)
      case (MapKind, Dict(es)) => EntryRecords(f.number, Dictionary.Sorted(es))
      case (MessageKind(schema), Nested(inner)) =>
        var payload := Canonical(S, schema, inner);
        if payload == [] then [] else [LenRecord(f.number, payload)]
      case (RepeatedMessageKind(schema), NestedList(ms)) =>
        seq(|ms|, i requires 0 <= i < |ms| => LenRecord(f.number, Canonical(S, schema, ms[i])))
      case _ => []
  }

  function Records(S: Schemas, fs: seq<Field>, m: Message): (r: seq<Record>)
    decreases m, 0, |fs|
  {
    if fs == [] then [] else FieldRecords(S, fs[0], m) + Records(S, fs[1..], m)
  }

  /** `canonical_encode`: the records of the fields in ascending field number. */
  function Canonical(S: Schemas, name: string, m: Message): (r: bytes)
    decreases m, 1, 0
  {
    if name in S then Flatten(Records(S, SortedFields(S[name]), m)) else []
  }

  // ---------------------------------------------------------------- the reference meaning

  datatype Norm =
    | NormNumber(n: int)
    | NormTrue
    | NormText(s: string)
    | NormBlob(bs: bytes)
    | NormTexts(ss: seq<string>)
    | NormDict(d: map<string, string>)
    | NormNested(fields: map<nat, Norm>)
    | NormNestedList(ms: seq<map<nat, Norm>>)

  ghost function NormalField(S: Schemas, f: Field, m: Message): (r: Option<Norm>)
    requires WellFormed(S)
    decreases m, 0
  {
    if !Kept(f) then None
    else
      match (f.kind, Get(m, f.name))
      case (UintKind, Number(n)) => if n == 0 then None else Some(NormNumber(n))
      case (EnumKind, Number(n)) => if n == 0 then None else Some(NormNumber(n))
      case (IntKind, Number(n)) => if n == 0 then None else Some(NormNumber(n))
      case (BoolKind, Flag(b)) => if b then Some(NormTrue) else None
      case (StringKind, Text(s)) => if s == "" then None else Some(NormText(s))
      case (BytesKind, Blob(bs)) => if bs == [] then None else Some(NormBlob(bs))
      case (RepeatedStringKind, Texts(ss)) => if ss == [] then None else Some(NormTexts(ss))
      case (MapKind, Dict(es)) => if es == [] then None else Some(NormDict(Dictionary.AsMap(es)))
      case (MessageKind(schema), Nested(inner)) =>
        var n := Normal(S, schema, inner);
        if n == map[] then None else Some(NormNested(n))
      case (RepeatedMessageKind(schema), NestedList(ms)) =>
        if ms == [] then None
        else Some(NormNestedList(seq(|ms|, i requires 0 <= i < |ms| => Normal(S, schema, ms[i]))))
      case _ => None
  }

  /** The fields that survive, by field number; the order of the schema table plays no part. */
  ghost function Normal(S: Schemas, name: string, m: Message): (r: map<nat, Norm>)
    requires WellFormed(S)
    decreases m, 1
  {
    if name !in S then map[]
    else map f | f in S[name] && NormalField(S, f, m).Some? :: f.number := NormalField(S, f, m).value
  }
}
