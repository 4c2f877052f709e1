/** Type-directed representation of objects (thinking_programming/serialization.py). */
module Serialization {
  import opened Prelude

  datatype Error = AssertionError | KeyError | TypeError | ValueError | AttributeError

  /** A Python object; representations are the ones made of natives, lists and dictionaries.
      A dictionary keeps its entries in order of insertion, a record its attributes. */
  datatype Object =
    | Null
    | Bool(b: bool)
    | Int(i: int)
    | Float(x: real)
    | Str(s: string)
    | DateTime(t: int)
    | Uuid(u: int)
    | EnumMember(enumeration: string, name: string)
    | List(items: seq<Object>)
    | Dict(entries: seq<Entry>)
    | Record(cls: string, attributes: seq<Attribute>)
    | Other

  datatype Entry = Entry(key: Object, value: Object)

  datatype Attribute = Attribute(name: string, value: Object)

  datatype Type =
    | NoneT | BoolT | IntT | FloatT | StrT
    | Natives // str | int | float | bool | None
    | DateTimeT | UuidT
    | EnumT(enumeration: string)
    | ListT
    | DictT
    | ListOf(item: Type)
    | DictOf(key: Type, value: Type)
    | ClassT(cls: string)

  const TYPE_ID_FIELD := "__type_id__"

  type Outcome<T> = Result<T, Error>

  datatype Field = Field(name: string, hint: Type)

  /** What the library is told by the interpreter. */
  datatype Env = Env(
    timestamp: int -> real,
    fromTimestamp: Object -> Outcome<Object>,
    uuidText: int -> string,
    parseUuid: Object -> Outcome<Object>,
    convert: (Type, Object) -> Outcome<Object>, // calling `str`, `int`, ... on a representation
    members: map<string, set<string>>,          // names of the members of each enumeration
    fields: map<string, seq<Field>>,            // annotated attributes of each serialisable class
    typeIds: map<string, string>,               // the polymorphic ones among them, with their ids
    classes: map<string, string>,               // ID_TO_CLS
    subclass: (string, string) -> bool)
  {
    /** Dates and UUIDs survive on their own. */
    ghost predicate Valid() {
      && (forall t :: fromTimestamp(Float(timestamp(t))) == Ok(DateTime(t)))
      && (forall u :: parseUuid(Str(uuidText(u))) == Ok(Uuid(u)))
    }
  }

  predicate Native(o: Object) {
    o.Null? || o.Bool? || o.Int? || o.Float? || o.Str?
  }

  /** `EasilySerializableValue`. */
  predicate Easy(o: Object) {
    Native(o) || o.DateTime? || o.Uuid?
  }

  function AsNumber(o: Object): Option<real> {
    match o
    case Bool(b) => Some(if b then 1.0 else 0.0)
    case Int(i) => Some(i as real)
    case Float(x) => Some(x)
    case _ => None
  }

  /** Equality of dictionary keys: numbers compare by value whatever their type. */
  predicate Same(a: Object, b: Object) {
    a == b || (AsNumber(a).Some? && AsNumber(a) == AsNumber(b))
  }

  function IndexOf(entries: seq<Entry>, key: Object): (k: nat)
    ensures k <= |entries| && (k < |entries| ==> Same(entries[k].key, key))
    ensures forall j | 0 <= j < k :: !Same(entries[j].key, key)
  {
    if entries == [] || Same(entries[0].key, key) then 0 else 1 + IndexOf(entries[1..], key)
  }

  /** `out[key] = value`: an equal key keeps its place and its old self. */
  function Put(entries: seq<Entry>, key: Object, value: Object): seq<Entry> {
    var k := IndexOf(entries, key);
    if k < |entries| then entries[k := Entry(entries[k].key, value)] else entries + [Entry(key, value)]
  }

  // -------------------------------------------------------------------------- serialising

  function Serialize(env: Env, o: Object): Outcome<Object>
    decreases o, 1
  {
    match o
    case DateTime(t) => Ok(Float(env.timestamp(t)))
    case Uuid(u) => Ok(Str(env.uuidText(u)))
    case EnumMember(_, name) => Ok(Str(name))
    case Record(cls, attributes) =>
      var entries := SerializeAttributes(env, attributes);
      if entries.Err? then Err(entries.error) else Ok(Dict(Enhanced(env, cls, entries.value)))
    case List(items) =>
      var out := SerializeItems(env, items);
      if out.Err? then Err(out.error) else Ok(List(out.value))
    case Dict(entries) =>
      var out := SerializeEntries(env, entries);
      if out.Err? then Err(out.error) else Ok(Dict(out.value))
    case Other => Err(AssertionError)
    case _ => Ok(o)
  }

  function SerializeItems(env: Env, items: seq<Object>): Outcome<seq<Object>>
    decreases items, 0
  {
    if items == [] then Ok([])
    else
      var out := SerializeItems(env, items[..|items| - 1]);
      if out.Err? then out
      else
        var last := Serialize(env, items[|items| - 1]);
        if last.Err? then Err(last.error) else Ok(out.value + [last.value])
  }

  function SerializeEntries(env: Env, entries: seq<Entry>): Outcome<seq<Entry>>
    decreases entries, 0
  {
    if entries == [] then Ok([])
    else
      var out := SerializeEntries(env, entries[..|entries| - 1]);
      if out.Err? then out else SerializeEntry(env, entries[|entries| - 1], out.value)
  }

  function SerializeEntry(env: Env, entry: Entry, out: seq<Entry>): Outcome<seq<Entry>>
    decreases entry, 0
  {
    if !Easy(entry.key) then Err(AssertionError)
    else
      var value := Serialize(env, entry.value);
      if value.Err? then Err(value.error)
      else
        var key := Serialize(env, entry.key);
        if key.Err? then Err(key.error) else Ok(Put(out, key.value, value.value))
  }

  function SerializeAttributes(env: Env, attributes: seq<Attribute>): Outcome<seq<Entry>>
    decreases attributes, 0
  {
    if attributes == [] then Ok([])
    else
      var out := SerializeAttributes(env, attributes[..|attributes| - 1]);
      if out.Err? then out
      else
        var last := attributes[|attributes| - 1];
        var value := Serialize(env, last.value);
        if value.Err? then Err(value.error) else Ok(Put(out.value, Str(last.name), value.value))
  }

  /** Polymorphic classes add their type id. */
  function Enhanced(env: Env, cls: string, entries: seq<Entry>): seq<Entry> {
    if cls in env.typeIds then Put(entries, Str(TYPE_ID_FIELD), Str(env.typeIds[cls])) else entries
  }

  // ------------------------------------------------------------------------ deserialising

  predicate IsInstance(env: Env, o: Object, t: Type) {
    match t
    case NoneT => o.Null?
    case BoolT => o.Bool?
    case IntT => o.Int? || o.Bool?
    case FloatT => o.Float?
    case StrT => o.Str?
    case Natives => Native(o)
    case DateTimeT => o.DateTime?
    case UuidT => o.Uuid?
    case EnumT(e) => o.EnumMember? && o.enumeration == e
    case ListT => o.List?
    case DictT => o.Dict?
    case ClassT(c) => o.Record? && env.subclass(o.cls, c)
    case ListOf(_) => false
    case DictOf(_, _) => false
  }

  /** Types that can be keys of a typed dictionary. */
  predicate EasyType(t: Type) {
    t.NoneT? || t.BoolT? || t.IntT? || t.FloatT? || t.StrT? || t.DateTimeT? || t.UuidT?
  }

  function Deserialize(env: Env, o: Object, t: Type): Outcome<Object>
    decreases o, 1
  {
    if o.Null? || IsInstance(env, o, t) then Ok(o)
    else if o.List? && t.DictOf? then Err(AssertionError)
    else if o.List? && t.ListOf? then
      var items := DeserializeItems(env, o.items, t.item);
      if items.Err? then Err(items.error) else Ok(List(items.value))
    else if o.Dict? && t.DictOf? && EasyType(t.key) then
      var entries := DeserializeEntries(env, o.entries, t.key, t.value);
      if entries.Err? then Err(entries.error) else Ok(Dict(entries.value))
    else
      match t
      case DateTimeT => env.fromTimestamp(o)
      case UuidT => env.parseUuid(o)
      case EnumT(e) =>
        if o.List? || o.Dict? then Err(TypeError)
        else if o.Str? && e in env.members && o.s in env.members[e] then Ok(EnumMember(e, o.s)) else Err(KeyError)
      case ClassT(c) => DeserializeRecord(env, o, c)
      case ListT => Err(AssertionError)
      case DictT => Err(AssertionError)
      case ListOf(_) => Err(TypeError)
      case DictOf(_, _) => Err(TypeError)
      case Natives => Err(TypeError)
      case _ => env.convert(t, o)
  }

  function DeserializeItems(env: Env, items: seq<Object>, t: Type): Outcome<seq<Object>>
    decreases items, 0
  {
    if items == [] then Ok([])
    else
      var out := DeserializeItems(env, items[..|items| - 1], t);
      if out.Err? then out
      else
        var last := Deserialize(env, items[|items| - 1], t);
        if last.Err? then Err(last.error) else Ok(out.value + [last.value])
  }

  function DeserializeEntries(env: Env, entries: seq<Entry>, k: Type, v: Type): Outcome<seq<Entry>>
    decreases entries, 0
  {
    if entries == [] then Ok([])
    else
      var out := DeserializeEntries(env, entries[..|entries| - 1], k, v);
      if out.Err? then out else DeserializeEntry(env, entries[|entries| - 1], k, v, out.value)
  }

  function DeserializeEntry(env: Env, entry: Entry, k: Type, v: Type, out: seq<Entry>): Outcome<seq<Entry>>
    decreases entry, 0
  {
    var key := Deserialize(env, entry.key, k);
    if key.Err? then Err(key.error)
    else
      var value := Deserialize(env, entry.value, v);
      if value.Err? then Err(value.error) else Ok(Put(out, key.value, value.value))
  }

  /** The class that reads the data: the one asked for, or the one the type id names. */
  function ChooseType(env: Env, o: Object, cls: string): Outcome<string> {
    if cls !in env.typeIds then Ok(cls)
    else if !o.Dict? then Err(TypeError)
    else
      var k := IndexOf(o.entries, Str(TYPE_ID_FIELD));
      if k == |o.entries| then Err(KeyError)
      else
        var id := o.entries[k].value;
        if id.List? || id.Dict? then Err(TypeError)
        else if id.Str? && id.s in env.classes then Ok(env.classes[id.s])
        else Err(KeyError)
  }

  /** Polymorphic classes take the type id away. */
  function Simplified(env: Env, cls: string, entries: seq<Entry>): (r: seq<Entry>)
    ensures forall e <- r :: e in entries
  {
    var k := IndexOf(entries, Str(TYPE_ID_FIELD));
    if cls in env.typeIds && k < |entries| then entries[..k] + entries[k + 1..] else entries
  }

  function DeserializeRecord(env: Env, o: Object, cls: string): Outcome<Object>
    decreases o, 0
  {
    var t := ChooseType(env, o, cls);
    if t.Err? then Err(t.error)
    else if !o.Dict? then Err(AttributeError)
    else
      var entries := Simplified(env, cls, o.entries);
      var attributes := DeserializeFields(env, o, entries, t.value);
      if attributes.Err? then Err(attributes.error) else Construct(env, t.value, attributes.value)
  }

  function Hint(fields: seq<Field>, name: string): Option<Type> {
    if fields == [] then None
    else if fields[0].name == name then Some(fields[0].hint)
    else Hint(fields[1..], name)
  }

  function HintOf(env: Env, cls: string, key: Object): Option<Type> {
    if key.Str? && cls in env.fields then Hint(env.fields[cls], key.s) else None
  }

  function DeserializeFields(env: Env, ghost whole: Object, entries: seq<Entry>, cls: string): Outcome<seq<Attribute>>
    requires whole.Dict? && forall e <- entries :: e in whole.entries
    decreases whole, 0, |entries|
  {
    if entries == [] then Ok([])
    else
      var out := DeserializeFields(env, whole, entries[..|entries| - 1], cls);
      if out.Err? then out
      else
        var last := entries[|entries| - 1];
        assert last in whole.entries;
        var hint := HintOf(env, cls, last.key);
        if hint.None? then Err(KeyError)
        else
          var value := Deserialize(env, last.value, hint.value);
          if value.Err? then Err(value.error) else Ok(out.value + [Attribute(last.key.s, value.value)])
  }

  function Argument(arguments: seq<Attribute>, name: string): Option<Object> {
    if arguments == [] then None
    else if arguments[|arguments| - 1].name == name then Some(arguments[|arguments| - 1].value)
    else Argument(arguments[..|arguments| - 1], name)
  }

  /** Calling the class with keyword arguments assigns its attributes in order; none of them
      has a default. */
  function Construct(env: Env, cls: string, arguments: seq<Attribute>): Outcome<Object> {
    if cls !in env.fields then Err(TypeError)
    else
      var attributes := Assigned(env.fields[cls], arguments);
      if attributes.None? then Err(TypeError) else Ok(Record(cls, attributes.value))
  }

  function Assigned(fields: seq<Field>, arguments: seq<Attribute>): Option<seq<Attribute>> {
    if fields == [] then Some([])
    else
      var first, rest := Argument(arguments, fields[0].name), Assigned(fields[1..], arguments);
      if first.None? || rest.None? then None else Some([Attribute(fields[0].name, first.value)] + rest.value)
  }

  // ------------------------------------------------------------------------ typed values

  /** No two keys are the same, as in every dictionary. */
  predicate Distinct(entries: seq<Entry>) {
    forall i, j | 0 <= i < j < |entries| :: !Same(entries[i].key, entries[j].key)
  }

  /** Made of natives, lists and dictionaries with native keys only. */
  predicate Plain(o: Object) {
    match o
    case List(items) => forall k | 0 <= k < |items| :: Plain(items[k])
    case Dict(entries) => Distinct(entries) && forall k | 0 <= k < |entries| :: Native(entries[k].key) && Plain(entries[k].value)
    case _ => Native(o)
  }

  /** What the library asks of a value annotated with a type; None is allowed everywhere. */
  predicate HasType(env: Env, o: Object, t: Type)
    decreases o, 1
  {
    o.Null? ||
    match t
    case EnumT(e) => o.EnumMember? && o.enumeration == e && e in env.members && o.name in env.members[e]
    case ListT => o.List? && Plain(o)
    case DictT => o.Dict? && Plain(o)
    case ListOf(item) => o.List? && forall k | 0 <= k < |o.items| :: HasType(env, o.items[k], item)
    case DictOf(key, value) =>
      && EasyType(key) && o.Dict? && Distinct(o.entries)
      && forall k | 0 <= k < |o.entries| :: HasType(env, o.entries[k].key, key) && HasType(env, o.entries[k].value, value)
    case ClassT(c) =>
      && o.Record? && HasAttributes(env, o.cls, o.attributes)
      && (if c in env.typeIds then o.cls in env.typeIds && Identified(env, o.cls) && Unreserved(o.attributes)
          else o.cls == c)
    case _ => IsInstance(env, o, t)
  }

  predicate HasAttributes(env: Env, cls: string, attributes: seq<Attribute>)
    decreases attributes, 0
  {
    && cls in env.fields && Named(env.fields[cls], attributes)
    && forall k | 0 <= k < |attributes| :: HasType(env, attributes[k].value, env.fields[cls][k].hint)
  }

  /** The attributes are the annotated ones, each once. */
  predicate Named(fields: seq<Field>, attributes: seq<Attribute>) {
    && |fields| == |attributes|
    && (forall k | 0 <= k < |attributes| :: attributes[k].name == fields[k].name)
    && (forall j, k | 0 <= j < k < |fields| :: fields[j].name != fields[k].name)
  }

  /** The id of a polymorphic class still leads to it: no class of the same name and module was
      defined later. */
  predicate Identified(env: Env, cls: string)
    requires cls in env.typeIds
  {
    env.typeIds[cls] in env.classes && env.classes[env.typeIds[cls]] == cls
  }

  predicate Unreserved(attributes: seq<Attribute>) {
    forall k | 0 <= k < |attributes| :: attributes[k].name != TYPE_ID_FIELD
  }

  // --------------------------------------------------------------------------- round trip

  lemma PutNew(entries: seq<Entry>, key: Object, value: Object)
    requires forall k | 0 <= k < |entries| :: !Same(entries[k].key, key)
    ensures Put(entries, key, value) == entries + [Entry(key, value)]
  {
  }

  /** The entries of a representation, one for each entry of the dictionary. */
  ghost predicate Represents(env: Env, entries: seq<Entry>, out: seq<Entry>) {
    && |out| == |entries|
    && forall k | 0 <= k < |entries| ::
         Serialize(env, entries[k].key) == Ok(out[k].key) && Serialize(env, entries[k].value) == Ok(out[k].value)
  }

  lemma {:induction false} PlainUnchanged(env: Env, o: Object)
    requires Plain(o)
    ensures Serialize(env, o) == Ok(o)
    decreases o, 1
  {
    if o.List? { PlainItems(env, o.items); }
    if o.Dict? { PlainEntries(env, o.entries); }
  }

  lemma {:induction false} PlainItems(env: Env, items: seq<Object>)
    requires forall k | 0 <= k < |items| :: Plain(items[k])
    ensures SerializeItems(env, items) == Ok(items)
    decreases items, 0
  {
    if items != [] {
      PlainItems(env, items[..|items| - 1]);
      PlainUnchanged(env, items[|items| - 1]);
      assert items[..|items| - 1] + [items[|items| - 1]] == items;
    }
  }

  lemma {:induction false} PlainEntries(env: Env, entries: seq<Entry>)
    requires Distinct(entries) && forall k | 0 <= k < |entries| :: Native(entries[k].key) && Plain(entries[k].value)
    ensures SerializeEntries(env, entries) == Ok(entries)
    decreases entries, 0
  {
    hide Plain;
    if entries != [] {
      var front, last := entries[..|entries| - 1], entries[|entries| - 1];
      PlainEntries(env, front);
      PlainValue(env, last);
      PutNew(front, last.key, last.value);
      assert front + [last] == entries;
    }
  }

  lemma {:induction false} PlainValue(env: Env, entry: Entry)
    requires Native(entry.key) && Plain(entry.value)
    ensures Serialize(env, entry.key) == Ok(entry.key) && Serialize(env, entry.value) == Ok(entry.value)
    decreases entry, 0
  {
    PlainUnchanged(env, entry.value);
  }

  lemma EasyKeys(env: Env, a: Object, t: Type)
    requires EasyType(t) && HasType(env, a, t)
    ensures Easy(a)
  {
  }

  /** Different keys of one type have different representations. */
  lemma KeysApart(env: Env, a: Object, b: Object, t: Type)
    requires env.Valid() && EasyType(t) && HasType(env, a, t) && HasType(env, b, t) && !Same(a, b)
    ensures Easy(a) && Serialize(env, a).Ok? && Serialize(env, b).Ok?
    ensures !Same(Serialize(env, a).value, Serialize(env, b).value)
  {
    match t
    case DateTimeT =>
      if a.DateTime? { assert env.fromTimestamp(Float(env.timestamp(a.t))) == Ok(a); }
      if b.DateTime? { assert env.fromTimestamp(Float(env.timestamp(b.t))) == Ok(b); }
    case UuidT =>
      if a.Uuid? { assert env.parseUuid(Str(env.uuidText(a.u))) == Ok(a); }
      if b.Uuid? { assert env.parseUuid(Str(env.uuidText(b.u))) == Ok(b); }
    case _ =>
  }

  /** Reading a representation with the type of the value gives the value back: for every
      value of every type, nested in any way. */
  lemma {:induction false} RoundTrip(env: Env, o: Object, t: Type)
    requires env.Valid() && HasType(env, o, t)
    ensures Serialize(env, o).Ok? && Deserialize(env, Serialize(env, o).value, t) == Ok(o)
    decreases o, 1
  {
    hide Plain;
    if !o.Null? {
      match t
      case ListT => PlainUnchanged(env, o);
      case DictT => PlainUnchanged(env, o);
      case ListOf(item) => RoundTripItems(env, o.items, item);
      case DictOf(key, value) => RoundTripEntries(env, o.entries, key, value);
      case ClassT(c) => RoundTripRecord(env, o, c);
      case _ =>
    }
  }

  lemma {:induction false} RoundTripItems(env: Env, items: seq<Object>, t: Type)
    requires env.Valid() && forall k | 0 <= k < |items| :: HasType(env, items[k], t)
    ensures SerializeItems(env, items).Ok? && DeserializeItems(env, SerializeItems(env, items).value, t) == Ok(items)
    decreases items, 0
  {
    if items == [] {
    } else {
      hide HasType, Serialize, Deserialize, SerializeItems, DeserializeItems;
      var front, last := items[..|items| - 1], items[|items| - 1];
      RoundTripItems(env, front, t);
      RoundTrip(env, last, t);
      ItemsStep(env, front, last, t);
      assert front + [last] == items;
    }
  }

  lemma ItemsStep(env: Env, front: seq<Object>, last: Object, t: Type)
    requires SerializeItems(env, front).Ok? && DeserializeItems(env, SerializeItems(env, front).value, t) == Ok(front)
    requires Serialize(env, last).Ok? && Deserialize(env, Serialize(env, last).value, t) == Ok(last)
    ensures SerializeItems(env, front + [last]).Ok?
    ensures DeserializeItems(env, SerializeItems(env, front + [last]).value, t) == Ok(front + [last])
  {
    hide Serialize, Deserialize;
    var items, before, value := front + [last], SerializeItems(env, front).value, Serialize(env, last).value;
    var out := before + [value];
    assert items[..|front|] == front && items[|front|] == last;
    assert SerializeItems(env, items) == Ok(out);
    assert out[..|before|] == before && out[|before|] == value;
  }

  lemma {:induction false} RoundTripEntries(env: Env, entries: seq<Entry>, k: Type, v: Type)
    requires env.Valid() && EasyType(k) && Distinct(entries)
    requires forall i | 0 <= i < |entries| :: HasType(env, entries[i].key, k) && HasType(env, entries[i].value, v)
    ensures SerializeEntries(env, entries).Ok? && Represents(env, entries, SerializeEntries(env, entries).value)
    ensures DeserializeEntries(env, SerializeEntries(env, entries).value, k, v) == Ok(entries)
    decreases entries, 0
  {
    hide HasType, Same, Serialize, Deserialize;
    if entries != [] {
      var front, last := entries[..|entries| - 1], entries[|entries| - 1];
      RoundTripEntries(env, front, k, v);
      RoundTripEntry(env, last, k, v);
      forall i | 0 <= i < |front| ensures KeysDiffer(env, front[i].key, last.key) { KeysApart(env, front[i].key, last.key, k); }
      EntriesStep(env, front, last, k, v);
      assert front + [last] == entries;
    }
  }

  ghost predicate KeysDiffer(env: Env, a: Object, b: Object) {
    && !Same(a, b) && Serialize(env, a).Ok? && Serialize(env, b).Ok?
    && !Same(Serialize(env, a).value, Serialize(env, b).value)
  }

  lemma SerializedStep(env: Env, front: seq<Entry>, last: Entry, added: Entry)
    requires SerializeEntries(env, front).Ok? && Represents(env, front, SerializeEntries(env, front).value)
    requires Easy(last.key) && Serialize(env, last.key) == Ok(added.key) && Serialize(env, last.value) == Ok(added.value)
    requires forall i | 0 <= i < |front| :: KeysDiffer(env, front[i].key, last.key)
    ensures SerializeEntries(env, front + [last]) == Ok(SerializeEntries(env, front).value + [added])
  {
    hide Same, Serialize, Put, Easy;
    var entries, before := front + [last], SerializeEntries(env, front).value;
    PutNew(before, added.key, added.value);
    assert entries[..|front|] == front && entries[|front|] == last;
  }

  lemma DeserializedStep(env: Env, front: seq<Entry>, last: Entry, before: seq<Entry>, added: Entry, k: Type, v: Type)
    requires DeserializeEntries(env, before, k, v) == Ok(front)
    requires Deserialize(env, added.key, k) == Ok(last.key) && Deserialize(env, added.value, v) == Ok(last.value)
    requires forall i | 0 <= i < |front| :: !Same(front[i].key, last.key)
    ensures DeserializeEntries(env, before + [added], k, v) == Ok(front + [last])
  {
    hide Same, Deserialize, Put;
    var out := before + [added];
    PutNew(front, last.key, last.value);
    assert out[..|before|] == before && out[|before|] == added;
  }

  lemma EntriesStep(env: Env, front: seq<Entry>, last: Entry, k: Type, v: Type)
    requires SerializeEntries(env, front).Ok? && Represents(env, front, SerializeEntries(env, front).value)
    requires DeserializeEntries(env, SerializeEntries(env, front).value, k, v) == Ok(front)
    requires Easy(last.key) && Serialize(env, last.key).Ok? && Deserialize(env, Serialize(env, last.key).value, k) == Ok(last.key)
    requires Serialize(env, last.value).Ok? && Deserialize(env, Serialize(env, last.value).value, v) == Ok(last.value)
    requires forall i | 0 <= i < |front| :: KeysDiffer(env, front[i].key, last.key)
    ensures SerializeEntries(env, front + [last]).Ok?
    ensures Represents(env, front + [last], SerializeEntries(env, front + [last]).value)
    ensures DeserializeEntries(env, SerializeEntries(env, front + [last]).value, k, v) == Ok(front + [last])
  {
    hide Same, Serialize, Deserialize, SerializeEntries, DeserializeEntries, Easy;
    var added := Entry(Serialize(env, last.key).value, Serialize(env, last.value).value);
    SerializedStep(env, front, last, added);
    DeserializedStep(env, front, last, SerializeEntries(env, front).value, added, k, v);
  }

  lemma {:induction false} RoundTripEntry(env: Env, entry: Entry, k: Type, v: Type)
    requires env.Valid() && EasyType(k) && HasType(env, entry.key, k) && HasType(env, entry.value, v)
    ensures Easy(entry.key) && Serialize(env, entry.key).Ok? && Deserialize(env, Serialize(env, entry.key).value, k) == Ok(entry.key)
    ensures Serialize(env, entry.value).Ok? && Deserialize(env, Serialize(env, entry.value).value, v) == Ok(entry.value)
    decreases entry, 0
  {
    hide HasType, Serialize, Deserialize, Easy, EasyType;
    EasyKeys(env, entry.key, k);
    RoundTrip(env, entry.key, k);
    RoundTrip(env, entry.value, v);
  }

  ghost predicate RepresentsAttributes(env: Env, attributes: seq<Attribute>, out: seq<Entry>) {
    && |out| == |attributes|
    && forall k | 0 <= k < |attributes| ::
         out[k].key == Str(attributes[k].name) && Serialize(env, attributes[k].value) == Ok(out[k].value)
  }

  lemma {:induction false} AttributesRepresented(env: Env, attributes: seq<Attribute>)
    requires forall k | 0 <= k < |attributes| :: Serialize(env, attributes[k].value).Ok?
    requires forall j, k | 0 <= j < k < |attributes| :: attributes[j].name != attributes[k].name
    ensures SerializeAttributes(env, attributes).Ok?
    ensures RepresentsAttributes(env, attributes, SerializeAttributes(env, attributes).value)
  {
    hide Serialize, Put, Same;
    if attributes != [] {
      var front, last := attributes[..|attributes| - 1], attributes[|attributes| - 1];
      AttributesRepresented(env, front);
      var before := SerializeAttributes(env, front).value;
      forall k | 0 <= k < |before| ensures !Same(before[k].key, Str(last.name)) {
        OtherName(attributes[k].name, last.name);
        assert front[k] == attributes[k];
      }
      PutNew(before, Str(last.name), Serialize(env, last.value).value);
    }
  }

  lemma OtherName(a: string, b: string)
    ensures Same(Str(a), Str(b)) <==> a == b
  {
  }

  /** Values of the attributes that read back. */
  ghost predicate ReadBack(env: Env, cls: string, attributes: seq<Attribute>) {
    && cls in env.fields && Named(env.fields[cls], attributes)
    && forall k | 0 <= k < |attributes| ::
         && Serialize(env, attributes[k].value).Ok?
         && Deserialize(env, Serialize(env, attributes[k].value).value, env.fields[cls][k].hint) == Ok(attributes[k].value)
  }

  lemma {:induction false} AttributesReadBack(env: Env, cls: string, attributes: seq<Attribute>)
    requires env.Valid() && HasAttributes(env, cls, attributes)
    ensures ReadBack(env, cls, attributes)
    decreases attributes, 0
  {
    hide HasType, Serialize, Deserialize;
    forall k | 0 <= k < |attributes|
      ensures Serialize(env, attributes[k].value).Ok?
      ensures Deserialize(env, Serialize(env, attributes[k].value).value, env.fields[cls][k].hint) == Ok(attributes[k].value)
    {
      RoundTrip(env, attributes[k].value, env.fields[cls][k].hint);
    }
  }

  lemma {:induction false} HintAt(fields: seq<Field>, k: nat)
    requires k < |fields| && forall i, j | 0 <= i < j < |fields| :: fields[i].name != fields[j].name
    ensures Hint(fields, fields[k].name) == Some(fields[k].hint)
  {
    if k > 0 { HintAt(fields[1..], k - 1); }
  }

  lemma {:induction false} ArgumentAt(arguments: seq<Attribute>, k: nat)
    requires k < |arguments| && forall i, j | 0 <= i < j < |arguments| :: arguments[i].name != arguments[j].name
    ensures Argument(arguments, arguments[k].name) == Some(arguments[k].value)
  {
    if k < |arguments| - 1 { ArgumentAt(arguments[..|arguments| - 1], k); }
  }

  lemma {:induction false} AssignedFrom(fields: seq<Field>, attributes: seq<Attribute>, k: nat)
    requires Named(fields, attributes) && k <= |fields|
    ensures Assigned(fields[k..], attributes) == Some(attributes[k..])
    decreases |fields| - k
  {
    if k < |fields| {
      ArgumentAt(attributes, k);
      AssignedFrom(fields, attributes, k + 1);
      assert fields[k..][1..] == fields[k + 1..] && [attributes[k]] + attributes[k + 1..] == attributes[k..];
    }
  }

  /** Reading the fields of a class, `n` of them. */
  lemma {:induction false} FieldsReadBack(env: Env, whole: Object, out: seq<Entry>, cls: string, attributes: seq<Attribute>, n: nat)
    requires whole.Dict? && (forall e <- out :: e in whole.entries)
    requires ReadBack(env, cls, attributes) && RepresentsAttributes(env, attributes, out) && n <= |out|
    ensures DeserializeFields(env, whole, out[..n], cls) == Ok(attributes[..n])
  {
    hide Serialize, Deserialize;
    if n > 0 {
      FieldsReadBack(env, whole, out, cls, attributes, n - 1);
      assert out[..n][..n - 1] == out[..n - 1] && out[..n][n - 1] == out[n - 1];
      HintAt(env.fields[cls], n - 1);
      assert attributes[..n] == attributes[..n - 1] + [attributes[n - 1]];
    }
  }

  lemma {:induction false} RoundTripRecord(env: Env, o: Object, c: string)
    requires env.Valid() && o.Record? && HasType(env, o, ClassT(c))
    ensures Serialize(env, o).Ok? && Deserialize(env, Serialize(env, o).value, ClassT(c)) == Ok(o)
    decreases o, 0
  {
    AttributesReadBack(env, o.cls, o.attributes);
    if c in env.typeIds { PolymorphicReadBack(env, o, c); } else { PlainReadBack(env, o); }
  }

  lemma AttributesRead(env: Env, out: seq<Entry>, whole: Object, cls: string, attributes: seq<Attribute>)
    requires whole.Dict? && (forall e <- out :: e in whole.entries)
    requires ReadBack(env, cls, attributes) && RepresentsAttributes(env, attributes, out)
    ensures DeserializeFields(env, whole, out, cls) == Ok(attributes)
    ensures Construct(env, cls, attributes) == Ok(Record(cls, attributes))
  {
    hide Serialize, Deserialize, DeserializeFields;
    FieldsReadBack(env, whole, out, cls, attributes, |out|);
    AssignedFrom(env.fields[cls], attributes, 0);
    assert out[..|out|] == out && attributes[..|attributes|] == attributes;
    assert env.fields[cls][0..] == env.fields[cls] && attributes[0..] == attributes;
  }

  lemma PlainReadBack(env: Env, o: Object)
    requires o.Record? && o.cls !in env.typeIds && ReadBack(env, o.cls, o.attributes)
    ensures Serialize(env, o).Ok? && Deserialize(env, Serialize(env, o).value, ClassT(o.cls)) == Ok(o)
  {
    hide DeserializeFields, Construct, Named, SerializeAttributes, ReadBack, RepresentsAttributes;
    AttributesRepresented(env, o.attributes) by { NamesDiffer(env, o.cls, o.attributes); }
    var out := SerializeAttributes(env, o.attributes).value;
    AttributesRead(env, out, Dict(out), o.cls, o.attributes);
  }

  lemma NamesDiffer(env: Env, cls: string, attributes: seq<Attribute>)
    requires ReadBack(env, cls, attributes)
    ensures forall j, k | 0 <= j < k < |attributes| :: attributes[j].name != attributes[k].name
    ensures forall k | 0 <= k < |attributes| :: Serialize(env, attributes[k].value).Ok?
  {
    hide Serialize;
  }

  /** What a polymorphic record becomes. */
  lemma PolymorphicSerialized(env: Env, o: Object) returns (out: seq<Entry>)
    requires o.Record? && o.cls in env.typeIds && ReadBack(env, o.cls, o.attributes)
    ensures RepresentsAttributes(env, o.attributes, out)
    ensures Serialize(env, o) == Ok(Dict(Put(out, Str(TYPE_ID_FIELD), Str(env.typeIds[o.cls]))))
  {
    hide ReadBack, Put;
    NamesDiffer(env, o.cls, o.attributes);
    AttributesRepresented(env, o.attributes);
    out := SerializeAttributes(env, o.attributes).value;
  }

  /** Asked as one polymorphic class, read as the class the type id names. */
  lemma PolymorphicRead(env: Env, entries: seq<Entry>, k: nat, c: string)
    requires c in env.typeIds && k == IndexOf(entries, Str(TYPE_ID_FIELD)) < |entries| && entries[k].value.Str?
    ensures var id, rest := entries[k].value.s, entries[..k] + entries[k + 1..];
            Deserialize(env, Dict(entries), ClassT(c)) ==
              if id !in env.classes then Err(KeyError)
              else
                var read := DeserializeFields(env, Dict(entries), rest, env.classes[id]);
                if read.Err? then Err(read.error) else Construct(env, env.classes[id], read.value)
  {
    hide DeserializeFields, Construct, IndexOf;
  }

  lemma PolymorphicReadBack(env: Env, o: Object, c: string)
    requires o.Record? && c in env.typeIds && o.cls in env.typeIds && ReadBack(env, o.cls, o.attributes)
    requires Identified(env, o.cls) && Unreserved(o.attributes)
    ensures Serialize(env, o).Ok? && Deserialize(env, Serialize(env, o).value, ClassT(c)) == Ok(o)
  {
    hide ReadBack, Serialize, Deserialize, DeserializeFields, Construct;
    var out := PolymorphicSerialized(env, o);
    var id := Entry(Str(TYPE_ID_FIELD), Str(env.typeIds[o.cls]));
    var entries := out + [id];
    forall k | 0 <= k < |out| ensures !Same(out[k].key, id.key) { assert out[k].key == Str(o.attributes[k].name); }
    PutNew(out, id.key, id.value);
    assert IndexOf(entries, id.key) == |out| by { assert entries[|out|] == id && forall k | 0 <= k < |out| :: entries[k] == out[k]; }
    PolymorphicRead(env, entries, |out|, c);
    assert entries[..|out|] + entries[|out| + 1..] == out;
    AttributesRead(env, out, Dict(entries), o.cls, o.attributes);
  }

  // ------------------------------------------------------- when polymorphic records survive

  lemma {:induction false} FieldNames(env: Env, whole: Object, entries: seq<Entry>, cls: string)
    requires whole.Dict? && (forall e <- entries :: e in whole.entries)
    requires DeserializeFields(env, whole, entries, cls).Ok?
    ensures var read := DeserializeFields(env, whole, entries, cls).value;
            |read| == |entries| && forall k | 0 <= k < |read| :: entries[k].key == Str(read[k].name)
  {
    hide Deserialize;
    if entries != [] { FieldNames(env, whole, entries[..|entries| - 1], cls); }
  }

  lemma {:induction false} ArgumentMissing(arguments: seq<Attribute>, name: string)
    requires forall k | 0 <= k < |arguments| :: arguments[k].name != name
    ensures Argument(arguments, name) == None
  {
    if arguments != [] { ArgumentMissing(arguments[..|arguments| - 1], name); }
  }

  lemma {:induction false} AssignedMissing(fields: seq<Field>, arguments: seq<Attribute>, k: nat)
    requires k < |fields| && Argument(arguments, fields[k].name) == None
    ensures Assigned(fields, arguments) == None
  {
    if k > 0 { AssignedMissing(fields[1..], arguments, k - 1); }
  }

  /** Without an argument for one of its attributes an object cannot be made. */
  lemma MissingField(env: Env, whole: Object, rest: seq<Entry>, cls: string, attributes: seq<Attribute>, j: nat)
    requires whole.Dict? && (forall e <- rest :: e in whole.entries)
    requires ReadBack(env, cls, attributes) && j < |attributes|
    requires forall k | 0 <= k < |rest| :: rest[k].key != Str(attributes[j].name)
    requires DeserializeFields(env, whole, rest, cls).Ok?
    ensures Construct(env, cls, DeserializeFields(env, whole, rest, cls).value).Err?
  {
    hide ReadBack, DeserializeFields;
    var read := DeserializeFields(env, whole, rest, cls).value;
    FieldNames(env, whole, rest, cls);
    FieldCalled(env, cls, attributes, j);
    ArgumentMissing(read, attributes[j].name);
    AssignedMissing(env.fields[cls], read, j);
  }

  /** The type id takes the place of the attribute called like it. */
  lemma ReservedReplaced(env: Env, o: Object) returns (out: seq<Entry>, entries: seq<Entry>, j: nat)
    requires o.Record? && o.cls in env.typeIds && ReadBack(env, o.cls, o.attributes) && !Unreserved(o.attributes)
    ensures j < |o.attributes| && o.attributes[j].name == TYPE_ID_FIELD && Serialize(env, o) == Ok(Dict(entries))
    ensures RepresentsAttributes(env, o.attributes, out)
    ensures entries == out[j := Entry(Str(TYPE_ID_FIELD), Str(env.typeIds[o.cls]))]
    ensures IndexOf(entries, Str(TYPE_ID_FIELD)) == j
  {
    hide ReadBack, Serialize, Same;
    out := PolymorphicSerialized(env, o);
    j :| 0 <= j < |o.attributes| && o.attributes[j].name == TYPE_ID_FIELD;
    NamesDiffer(env, o.cls, o.attributes);
    var key, id := Str(TYPE_ID_FIELD), Str(env.typeIds[o.cls]);
    OnlyNamed(env, o.attributes, out, j);
    assert IndexOf(out, key) == j;
    entries := out[j := Entry(key, id)];
    assert Put(out, key, id) == entries by { assert out[j].key == key; }
    assert forall k | 0 <= k < j :: entries[k] == out[k];
    IndexIs(entries, key, j) by { OtherName(TYPE_ID_FIELD, TYPE_ID_FIELD); }
  }

  lemma IndexIs(entries: seq<Entry>, key: Object, j: nat)
    requires j < |entries| && Same(entries[j].key, key) && forall k | 0 <= k < j :: !Same(entries[k].key, key)
    ensures IndexOf(entries, key) == j
  {
    hide Same;
  }

  lemma OnlyNamed(env: Env, attributes: seq<Attribute>, out: seq<Entry>, j: nat)
    requires RepresentsAttributes(env, attributes, out) && j < |attributes|
    requires forall i, k | 0 <= i < k < |attributes| :: attributes[i].name != attributes[k].name
    ensures forall k | 0 <= k < |out| :: Same(out[k].key, Str(attributes[j].name)) <==> k == j
  {
    hide Serialize, Same;
    forall k | 0 <= k < |out| ensures Same(out[k].key, Str(attributes[j].name)) <==> k == j {
      OtherName(attributes[k].name, attributes[j].name);
    }
  }

  /** An attribute called like the type id is lost. */
  lemma ReservedIsLost(env: Env, o: Object, c: string)
    requires o.Record? && c in env.typeIds && o.cls in env.typeIds && ReadBack(env, o.cls, o.attributes)
    requires !Unreserved(o.attributes)
    ensures Serialize(env, o).Ok? && Deserialize(env, Serialize(env, o).value, ClassT(c)) != Ok(o)
  {
    hide ReadBack, Serialize, Deserialize, DeserializeFields, Unreserved, Same, IndexOf;
    var out, entries, j := ReservedReplaced(env, o);
    PolymorphicRead(env, entries, j, c);
    var rest := entries[..j] + entries[j + 1..];
    NamesDiffer(env, o.cls, o.attributes);
    forall k | 0 <= k < |rest| ensures rest[k].key != Str(o.attributes[j].name) {
      var at := if k < j then k else k + 1;
      assert rest[k] == out[at] && out[at].key == Str(o.attributes[at].name);
    }
    if env.typeIds[o.cls] in env.classes && env.classes[env.typeIds[o.cls]] == o.cls && DeserializeFields(env, Dict(entries), rest, o.cls).Ok? {
      MissingField(env, Dict(entries), rest, o.cls, o.attributes, j);
    }
  }

  lemma FieldCalled(env: Env, cls: string, attributes: seq<Attribute>, k: nat)
    requires ReadBack(env, cls, attributes) && k < |attributes|
    ensures cls in env.fields && k < |env.fields[cls]| && env.fields[cls][k].name == attributes[k].name
  {
    hide Serialize, Deserialize;
  }

  /** A class hidden behind another of the same id is not found again. */
  lemma HiddenIsLost(env: Env, o: Object, c: string)
    requires o.Record? && c in env.typeIds && o.cls in env.typeIds && ReadBack(env, o.cls, o.attributes)
    requires !Identified(env, o.cls) && Unreserved(o.attributes)
    ensures Serialize(env, o).Ok? && Deserialize(env, Serialize(env, o).value, ClassT(c)) != Ok(o)
  {
    hide ReadBack, Serialize, Deserialize, DeserializeFields;
    var out := PolymorphicSerialized(env, o);
    var id := Entry(Str(TYPE_ID_FIELD), Str(env.typeIds[o.cls]));
    var entries := out + [id];
    forall k | 0 <= k < |out| ensures !Same(out[k].key, id.key) { assert out[k].key == Str(o.attributes[k].name); }
    PutNew(out, id.key, id.value);
    assert IndexOf(entries, id.key) == |out| by { assert entries[|out|] == id && forall k | 0 <= k < |out| :: entries[k] == out[k]; }
    PolymorphicRead(env, entries, |out|, c);
  }

  /** A polymorphic record whose attributes survive survives itself exactly when its type id
      still leads to its class and none of its attributes is called like the type id. */
  lemma PolymorphicSurvives(env: Env, o: Object, c: string)
    requires o.Record? && c in env.typeIds && o.cls in env.typeIds && ReadBack(env, o.cls, o.attributes)
    ensures Serialize(env, o).Ok?
    ensures Deserialize(env, Serialize(env, o).value, ClassT(c)) == Ok(o) <==> Identified(env, o.cls) && Unreserved(o.attributes)
  {
    hide ReadBack, Serialize, Deserialize;
    if !Unreserved(o.attributes) {
      ReservedIsLost(env, o, c);
    } else if !Identified(env, o.cls) {
      HiddenIsLost(env, o, c);
    } else {
      PolymorphicReadBack(env, o, c);
    }
  }

  /** Two values of a type with one representation are one value. */
  lemma RepresentationIsInjective(env: Env, a: Object, b: Object, t: Type)
    requires env.Valid() && HasType(env, a, t) && HasType(env, b, t)
    requires Serialize(env, a) == Serialize(env, b)
    ensures a == b
  {
    hide HasType, Serialize, Deserialize;
    RoundTrip(env, a, t);
    RoundTrip(env, b, t);
  }

  // ------------------------------------------------------- what representations are made of

  lemma {:induction false} PutPlain(entries: seq<Entry>, key: Object, value: Object)
    requires Plain(Dict(entries)) && Native(key) && Plain(value)
    ensures Plain(Dict(Put(entries, key, value)))
  {
    var k := IndexOf(entries, key);
    if k == |entries| { PutNew(entries, key, value); }
  }

  /** Whatever can be serialised becomes natives, lists and dictionaries with native keys. */
  lemma {:induction false} SerializesToPlain(env: Env, o: Object)
    requires Serialize(env, o).Ok?
    ensures Plain(Serialize(env, o).value)
    decreases o, 1
  {
    match o
    case List(items) => ItemsPlain(env, items);
    case Dict(entries) => EntriesPlain(env, entries);
    case Record(cls, attributes) =>
      AttributesPlain(env, attributes);
      if cls in env.typeIds { PutPlain(SerializeAttributes(env, attributes).value, Str(TYPE_ID_FIELD), Str(env.typeIds[cls])); }
    case _ =>
  }

  lemma {:induction false} ItemsPlain(env: Env, items: seq<Object>)
    requires SerializeItems(env, items).Ok?
    ensures Plain(List(SerializeItems(env, items).value))
    decreases items, 0
  {
    if items != [] {
      ItemsPlain(env, items[..|items| - 1]);
      SerializesToPlain(env, items[|items| - 1]);
    }
  }

  lemma {:induction false} EntriesPlain(env: Env, entries: seq<Entry>)
    requires SerializeEntries(env, entries).Ok?
    ensures Plain(Dict(SerializeEntries(env, entries).value))
    decreases entries, 0
  {
    if entries != [] {
      EntriesPlain(env, entries[..|entries| - 1]);
      EntryPlain(env, entries[|entries| - 1], SerializeEntries(env, entries[..|entries| - 1]).value);
    }
  }

  lemma {:induction false} EntryPlain(env: Env, entry: Entry, out: seq<Entry>)
    requires Plain(Dict(out)) && SerializeEntry(env, entry, out).Ok?
    ensures Plain(Dict(SerializeEntry(env, entry, out).value))
    decreases entry, 0
  {
    hide Plain, Put;
    SerializesToPlain(env, entry.value);
    PutPlain(out, Serialize(env, entry.key).value, Serialize(env, entry.value).value);
  }

  lemma {:induction false} AttributesPlain(env: Env, attributes: seq<Attribute>)
    requires SerializeAttributes(env, attributes).Ok?
    ensures Plain(Dict(SerializeAttributes(env, attributes).value))
    decreases attributes, 0
  {
    if attributes != [] {
      var last := attributes[|attributes| - 1];
      AttributesPlain(env, attributes[..|attributes| - 1]);
      SerializesToPlain(env, last.value);
      hide Plain, Put;
      PutPlain(SerializeAttributes(env, attributes[..|attributes| - 1]).value, Str(last.name), Serialize(env, last.value).value);
    }
  }

  /** Serialising twice is serialising once. */
  lemma SerializesOnce(env: Env, o: Object)
    requires Serialize(env, o).Ok?
    ensures Serialize(env, Serialize(env, o).value) == Serialize(env, o)
  {
    hide Plain, Serialize;
    SerializesToPlain(env, o);
    PlainUnchanged(env, Serialize(env, o).value);
  }

  /** Annotated as a bare `list` or `dict`, a collection comes back as its representation, so it
      survives exactly when that is what it was. */
  lemma UntypedSurvives(env: Env, o: Object)
    requires (o.List? || o.Dict?) && Serialize(env, o).Ok?
    ensures var back := Deserialize(env, Serialize(env, o).value, if o.List? then ListT else DictT);
            back == Ok(o) <==> Plain(o)
  {
    hide Plain;
    var out := Serialize(env, o).value;
    assert Deserialize(env, out, if o.List? then ListT else DictT) == Ok(out);
    SerializesToPlain(env, o);
    if Plain(o) { PlainUnchanged(env, o); }
  }

  /** What can be serialised: natives, dates, UUIDs, members of enumerations, and lists,
      dictionaries and records of such, with natives, dates and UUIDs for keys. */
  predicate Serialisable(o: Object) {
    match o
    case Other => false
    case List(items) => forall k | 0 <= k < |items| :: Serialisable(items[k])
    case Dict(entries) =>
      forall k | 0 <= k < |entries| ::
        && (Native(entries[k].key) || entries[k].key.DateTime? || entries[k].key.Uuid?)
        && Serialisable(entries[k].value)
    case Record(_, attributes) => forall k | 0 <= k < |attributes| :: Serialisable(attributes[k].value)
    case _ => true
  }

  /** That and nothing else gets through; otherwise an assertion fails. */
  lemma {:induction false} SerialisesExactly(env: Env, o: Object)
    ensures Serialize(env, o).Ok? <==> Serialisable(o)
    ensures Serialize(env, o).Err? ==> Serialize(env, o).error == AssertionError
    decreases o, 1
  {
    match o
    case List(items) => ItemsSerialise(env, items);
    case Dict(entries) => EntriesSerialise(env, entries);
    case Record(_, attributes) => AttributesSerialise(env, attributes);
    case _ =>
  }

  lemma {:induction false} ItemsSerialise(env: Env, items: seq<Object>)
    ensures SerializeItems(env, items).Ok? <==> forall k | 0 <= k < |items| :: Serialisable(items[k])
    ensures SerializeItems(env, items).Err? ==> SerializeItems(env, items).error == AssertionError
    decreases items, 0
  {
    hide Serialisable, Serialize;
    if items != [] {
      ItemsSerialise(env, items[..|items| - 1]);
      SerialisesExactly(env, items[|items| - 1]);
    }
  }

  lemma {:induction false} EntriesSerialise(env: Env, entries: seq<Entry>)
    ensures SerializeEntries(env, entries).Ok? <==>
              forall k | 0 <= k < |entries| :: Easy(entries[k].key) && Serialisable(entries[k].value)
    ensures SerializeEntries(env, entries).Err? ==> SerializeEntries(env, entries).error == AssertionError
    decreases entries, 0
  {
    hide Serialisable, Serialize, Easy;
    if entries != [] {
      var front, last := entries[..|entries| - 1], entries[|entries| - 1];
      EntriesSerialise(env, front);
      if SerializeEntries(env, front).Ok? { EntrySerialises(env, last, SerializeEntries(env, front).value); }
    }
  }

  lemma {:induction false} EntrySerialises(env: Env, entry: Entry, out: seq<Entry>)
    ensures SerializeEntry(env, entry, out).Ok? <==> Easy(entry.key) && Serialisable(entry.value)
    ensures SerializeEntry(env, entry, out).Err? ==> SerializeEntry(env, entry, out).error == AssertionError
    decreases entry, 0
  {
    hide Put, Serialisable;
    SerialisesExactly(env, entry.value);
    if Easy(entry.key) { assert Serialize(env, entry.key).Ok?; }
  }

  lemma {:induction false} AttributesSerialise(env: Env, attributes: seq<Attribute>)
    ensures SerializeAttributes(env, attributes).Ok? <==>
              forall k | 0 <= k < |attributes| :: Serialisable(attributes[k].value)
    ensures SerializeAttributes(env, attributes).Err? ==> SerializeAttributes(env, attributes).error == AssertionError
    decreases attributes, 0
  {
    hide Serialisable, Serialize, Put;
    if attributes != [] {
      AttributesSerialise(env, attributes[..|attributes| - 1]);
      SerialisesExactly(env, attributes[|attributes| - 1].value);
    }
  }

  // ------------------------------------------------------------------- what reading gives

  /** A native read as a native type: as it is, if it is an instance of the type - a boolean is
      an integer, an integer is no float -, and otherwise exactly what the conversion makes of
      it, failures included. */
  lemma NativesRead(env: Env, o: Object, t: Type)
    requires Native(o) && t in {NoneT, BoolT, IntT, FloatT, StrT}
    ensures Deserialize(env, o, t) ==
              match o
              case Null => Ok(o)
              case Bool(_) => if t == BoolT || t == IntT then Ok(o) else env.convert(t, o)
              case Int(_) => if t == IntT then Ok(o) else env.convert(t, o)
              case Float(_) => if t == FloatT then Ok(o) else env.convert(t, o)
              case Str(_) => if t == StrT then Ok(o) else env.convert(t, o)
              case _ => Err(TypeError)
  {
  }

  /** Conversions that do not fail give instances of the type asked for. */
  ghost predicate Converts(env: Env) {
    && (forall t: Type, o: Object | EasyType(t) && env.convert(t, o).Ok? :: IsInstance(env, env.convert(t, o).value, t))
    && (forall o: Object | env.fromTimestamp(o).Ok? :: env.fromTimestamp(o).value.DateTime?)
    && (forall o: Object | env.parseUuid(o).Ok? :: env.parseUuid(o).value.Uuid?)
  }

  /** The records and enumeration members that are already there in some data; in what
      serialising makes there are none. */
  ghost predicate Given(given: set<Object>, o: Object) {
    match o
    case Record(_, _) => o in given
    case EnumMember(_, _) => o in given
    case List(items) => forall k | 0 <= k < |items| :: Given(given, items[k])
    case Dict(entries) => forall k | 0 <= k < |entries| :: Given(given, entries[k].key) && Given(given, entries[k].value)
    case _ => true
  }

  lemma {:induction false} PlainGivesNothing(o: Object)
    requires Plain(o)
    ensures Given({}, o)
  {
    match o
    case List(items) =>
      forall k | 0 <= k < |items| ensures Given({}, items[k]) { PlainGivesNothing(items[k]); }
    case Dict(entries) =>
      forall k | 0 <= k < |entries| ensures Given({}, entries[k].value) { PlainGivesNothing(entries[k].value); }
    case _ =>
  }

  /** None, or of the type at every depth. Records and enumeration members that are not given
      are made: a record of the class asked for, or of one that a type id stands for, with
      each of its attributes, of the annotated type; a member of the enumeration. */
  ghost predicate Fits(env: Env, given: set<Object>, v: Object, t: Type)
    decreases v, 1
  {
    v.Null? ||
    match t
    case EnumT(e) => v.EnumMember? && v.enumeration == e && (v in given || (e in env.members && v.name in env.members[e]))
    case ListOf(item) => v.List? && forall k | 0 <= k < |v.items| :: Fits(env, given, v.items[k], item)
    case DictOf(key, value) =>
      && EasyType(key) && v.Dict? && Distinct(v.entries)
      && forall k | 0 <= k < |v.entries| :: Fits(env, given, v.entries[k].key, key) && Fits(env, given, v.entries[k].value, value)
    case ClassT(c) =>
      && v.Record?
      && ((v in given && env.subclass(v.cls, c)) || (MadeFor(env, v.cls, c) && AttributesFit(env, given, v.cls, v.attributes)))
    case _ => IsInstance(env, v, t)
  }

  ghost predicate MadeFor(env: Env, cls: string, asked: string) {
    if asked in env.typeIds then exists id <- env.classes :: env.classes[id] == cls else cls == asked
  }

  ghost predicate AttributesFit(env: Env, given: set<Object>, cls: string, attributes: seq<Attribute>)
    decreases attributes, 0
  {
    && cls in env.fields && |env.fields[cls]| == |attributes|
    && forall k | 0 <= k < |attributes| ::
         && attributes[k].name == env.fields[cls][k].name && Hint(env.fields[cls], attributes[k].name).Some?
         && Fits(env, given, attributes[k].value, Hint(env.fields[cls], attributes[k].name).value)
  }

  /** Whatever is read as a type is of that type, at every depth, whatever stood in the data. */
  lemma {:induction false} ReadingIsSound(env: Env, given: set<Object>, o: Object, t: Type)
    requires Converts(env) && Given(given, o) && Deserialize(env, o, t).Ok?
    ensures Fits(env, given, Deserialize(env, o, t).value, t)
    decreases o, 1
  {
    if !o.Null? && !IsInstance(env, o, t) {
      match t
      case ListOf(item) => if o.List? { ItemsSound(env, given, o.items, item); }
      case DictOf(key, value) => if o.Dict? && EasyType(key) { EntriesSound(env, given, o.entries, key, value); }
      case ClassT(c) => RecordSound(env, given, o, c);
      case _ =>
    }
  }

  lemma {:induction false} ItemsSound(env: Env, given: set<Object>, items: seq<Object>, t: Type)
    requires Converts(env) && (forall k | 0 <= k < |items| :: Given(given, items[k])) && DeserializeItems(env, items, t).Ok?
    ensures var read := DeserializeItems(env, items, t).value;
            && |read| == |items|
            && forall k | 0 <= k < |read| :: Ok(read[k]) == Deserialize(env, items[k], t) && Fits(env, given, read[k], t)
    decreases items, 0
  {
    hide Fits, Deserialize, Converts, Given;
    if items != [] {
      ItemsSound(env, given, items[..|items| - 1], t);
      ReadingIsSound(env, given, items[|items| - 1], t);
    }
  }

  lemma {:induction false} EntriesSound(env: Env, given: set<Object>, entries: seq<Entry>, k: Type, v: Type)
    requires Converts(env) && (forall i | 0 <= i < |entries| :: Given(given, entries[i].key) && Given(given, entries[i].value))
    requires DeserializeEntries(env, entries, k, v).Ok?
    ensures EntriesFit(env, given, DeserializeEntries(env, entries, k, v).value, k, v)
    decreases entries, 0
  {
    hide Fits, Deserialize, Converts, Given;
    if entries != [] {
      var front, last := entries[..|entries| - 1], entries[|entries| - 1];
      EntriesSound(env, given, front, k, v);
      EntrySound(env, given, last, k, v, DeserializeEntries(env, front, k, v).value);
    }
  }

  ghost predicate EntriesFit(env: Env, given: set<Object>, entries: seq<Entry>, k: Type, v: Type) {
    Distinct(entries) && forall i | 0 <= i < |entries| :: Fits(env, given, entries[i].key, k) && Fits(env, given, entries[i].value, v)
  }

  lemma {:induction false} EntrySound(env: Env, given: set<Object>, entry: Entry, k: Type, v: Type, out: seq<Entry>)
    requires Converts(env) && Given(given, entry.key) && Given(given, entry.value)
    requires EntriesFit(env, given, out, k, v) && DeserializeEntry(env, entry, k, v, out).Ok?
    ensures EntriesFit(env, given, DeserializeEntry(env, entry, k, v, out).value, k, v)
    decreases entry, 0
  {
    hide Fits, Deserialize, Converts, Given, EntriesFit, Put;
    ReadingIsSound(env, given, entry.key, k);
    ReadingIsSound(env, given, entry.value, v);
    PutFits(env, given, Deserialize(env, entry.key, k).value, Deserialize(env, entry.value, v).value, k, v, out);
  }

  lemma PutFits(env: Env, given: set<Object>, key: Object, value: Object, k: Type, v: Type, out: seq<Entry>)
    requires EntriesFit(env, given, out, k, v) && Fits(env, given, key, k) && Fits(env, given, value, v)
    ensures EntriesFit(env, given, Put(out, key, value), k, v)
  {
    hide Fits, Same, Put;
    PutKeys(out, key, value);
  }

  /** The reader's class is the one asked for, or the one that the type id stands for. */
  lemma {:induction false} RecordSound(env: Env, given: set<Object>, o: Object, c: string)
    requires Converts(env) && Given(given, o) && DeserializeRecord(env, o, c).Ok?
    ensures var v := DeserializeRecord(env, o, c).value;
            v.Record? && MadeFor(env, v.cls, c) && AttributesFit(env, given, v.cls, v.attributes)
    decreases o, 0
  {
    hide Deserialize, Fits, Converts, DeserializeFields;
    var cls := ChooseType(env, o, c).value;
    var entries := Simplified(env, c, o.entries);
    FieldsSound(env, given, o, entries, cls);
    var read := DeserializeFields(env, o, entries, cls).value;
    AssignedArguments(env.fields[cls], read);
  }

  lemma {:induction false} FieldsSound(env: Env, given: set<Object>, whole: Object, entries: seq<Entry>, cls: string)
    requires Converts(env) && whole.Dict? && (forall e <- entries :: e in whole.entries) && Given(given, whole)
    requires DeserializeFields(env, whole, entries, cls).Ok?
    ensures forall a <- DeserializeFields(env, whole, entries, cls).value ::
              var hint := HintOf(env, cls, Str(a.name)); hint.Some? && Fits(env, given, a.value, hint.value)
    decreases whole, 0, |entries|
  {
    hide Deserialize, Fits, Converts, HintOf;
    if entries != [] {
      var last := entries[|entries| - 1];
      FieldsSound(env, given, whole, entries[..|entries| - 1], cls);
      assert last in whole.entries;
      var k :| 0 <= k < |whole.entries| && whole.entries[k] == last;
      ReadingIsSound(env, given, last.value, HintOf(env, cls, last.key).value);
      KeyIsName(env, cls, last.key);
    }
  }

  lemma KeyIsName(env: Env, cls: string, key: Object)
    requires HintOf(env, cls, key).Some?
    ensures key.Str?
  {
  }

  lemma {:induction false} ArgumentIn(arguments: seq<Attribute>, name: string)
    requires Argument(arguments, name).Some?
    ensures Attribute(name, Argument(arguments, name).value) in arguments
  {
    if arguments[|arguments| - 1].name != name { ArgumentIn(arguments[..|arguments| - 1], name); }
  }

  lemma {:induction false} AssignedArguments(fields: seq<Field>, arguments: seq<Attribute>)
    requires Assigned(fields, arguments).Some?
    ensures var attributes := Assigned(fields, arguments).value;
            |attributes| == |fields| && forall k | 0 <= k < |fields| :: attributes[k].name == fields[k].name && attributes[k] in arguments
  {
    if fields != [] {
      ArgumentIn(arguments, fields[0].name);
      AssignedArguments(fields[1..], arguments);
    }
  }

  /** A list can be read exactly if each of its items can. */
  lemma {:induction false} ItemsReadable(env: Env, items: seq<Object>, t: Type)
    ensures DeserializeItems(env, items, t).Ok? <==> forall k | 0 <= k < |items| :: Deserialize(env, items[k], t).Ok?
  {
    hide Deserialize;
    if items != [] { ItemsReadable(env, items[..|items| - 1], t); }
  }

  /** Nothing compares the class that a type id stands for with the class asked for: what is
      read is an instance of the latter exactly if it is a subclass of it. */
  lemma MayNotBeAskedFor(env: Env, entries: seq<Entry>, c: string)
    requires c in env.typeIds && Deserialize(env, Dict(entries), ClassT(c)).Ok?
    ensures var k := IndexOf(entries, Str(TYPE_ID_FIELD));
            && k < |entries| && entries[k].value.Str? && entries[k].value.s in env.classes
            && (IsInstance(env, Deserialize(env, Dict(entries), ClassT(c)).value, ClassT(c)) <==>
                  env.subclass(env.classes[entries[k].value.s], c))
  {
    hide DeserializeFields, IndexOf, Simplified, DeserializeRecord, Assigned;
    ReadAsNamed(env, Dict(entries), c);
  }

  lemma ReadAsNamed(env: Env, o: Object, c: string)
    requires DeserializeRecord(env, o, c).Ok?
    ensures var (cls, read) := (ChooseType(env, o, c), DeserializeRecord(env, o, c).value);
            cls.Ok? && read.Record? && read.cls == cls.value
  {
    hide DeserializeFields, Simplified, ChooseType, Assigned;
  }

  // ------------------------------------------------------------------ dictionaries as they are

  function Lookup(entries: seq<Entry>, key: Object): Option<Object> {
    var k := IndexOf(entries, key);
    if k < |entries| then Some(entries[k].value) else None
  }

  function KeysOf(entries: seq<Entry>): (keys: seq<Object>)
    ensures |keys| == |entries| && forall k | 0 <= k < |keys| :: keys[k] == entries[k].key
  {
    seq(|entries|, k requires 0 <= k < |entries| => entries[k].key)
  }

  lemma SameIsEquality(a: Object, b: Object, c: Object)
    ensures Same(a, a) && (Same(a, b) ==> Same(b, a)) && (Same(a, b) && Same(b, c) ==> Same(a, c))
    ensures Same(Bool(true), Int(1)) && Same(Int(1), Float(1.0)) && !Same(Int(1), Str("1"))
  {
  }

  /** The first equal key is where it is, whatever the values. */
  lemma IndexByKeys(entries: seq<Entry>, out: seq<Entry>, q: Object)
    requires |entries| <= |out| <= |entries| + 1 && forall j | 0 <= j < |entries| :: out[j].key == entries[j].key
    ensures IndexOf(entries, q) < |entries| ==> IndexOf(out, q) == IndexOf(entries, q)
    ensures IndexOf(entries, q) == |entries| ==>
              IndexOf(out, q) == if |out| > |entries| && !Same(out[|entries|].key, q) then |out| else |entries|
  {
    hide Same;
    assert forall m | 0 <= m < |entries| :: Same(out[m].key, q) <==> Same(entries[m].key, q);
    var i := IndexOf(entries, q);
    if i < |entries| || (|out| > |entries| && Same(out[i].key, q)) { IndexIs(out, q, i); }
  }

  /** Assigning an entry changes what is found for the equal keys, and for no others; an equal
      key that is there stays as it is and where it is, otherwise the new one comes last. */
  lemma PutIsUpdate(entries: seq<Entry>, key: Object, value: Object, q: Object)
    ensures Lookup(Put(entries, key, value), q) == if Same(key, q) then Some(value) else Lookup(entries, q)
    ensures KeysOf(Put(entries, key, value)) == if Lookup(entries, key).Some? then KeysOf(entries) else KeysOf(entries) + [key]
  {
    var out, k := Put(entries, key, value), IndexOf(entries, key);
    PutKeys(entries, key, value);
    assert KeysOf(out) == if k < |entries| then KeysOf(entries) else KeysOf(entries) + [key];
    hide Same, Put;
    IndexByKeys(entries, out, q);
    if Same(key, q) { SameIndex(entries, key, q); } else if k < |entries| { OtherIndex(entries, key, q); }
    SameIsEquality(key, q, q);
  }

  lemma PutKeys(entries: seq<Entry>, key: Object, value: Object)
    ensures var out, k := Put(entries, key, value), IndexOf(entries, key);
            && |out| == (if k < |entries| then |entries| else |entries| + 1)
            && out[k] == Entry(if k < |entries| then entries[k].key else key, value)
            && forall j | 0 <= j < |entries| :: out[j].key == entries[j].key && (j != k ==> out[j] == entries[j])
  {
  }

  lemma SameIndex(entries: seq<Entry>, a: Object, b: Object)
    requires Same(a, b)
    ensures IndexOf(entries, a) == IndexOf(entries, b)
  {
    hide Same;
    forall j | 0 <= j < |entries| ensures Same(entries[j].key, a) <==> Same(entries[j].key, b) {
      SameIsEquality(entries[j].key, a, b);
      SameIsEquality(a, b, b);
      SameIsEquality(entries[j].key, b, a);
    }
    var k := IndexOf(entries, a);
    if k < |entries| { IndexIs(entries, b, k); }
  }

  lemma OtherIndex(entries: seq<Entry>, a: Object, b: Object)
    requires !Same(a, b) && IndexOf(entries, a) < |entries|
    ensures IndexOf(entries, b) != IndexOf(entries, a)
  {
    hide Same;
    var k := IndexOf(entries, a);
    SameIsEquality(entries[k].key, a, a);
    SameIsEquality(a, entries[k].key, b);
  }

  // -------------------------------------------------------------------- dictionaries in place

  /** The loop that fills the representation of a dictionary. */
  method SerializeDict(env: Env, entries: seq<Entry>) returns (r: Outcome<seq<Entry>>)
    ensures r == SerializeEntries(env, entries)
  {
    hide Serialize;
    var out: seq<Entry> := [];
    for k := 0 to |entries|
      invariant SerializeEntries(env, entries[..k]) == Ok(out)
    {
      assert entries[..k + 1][..k] == entries[..k];
      r := SerializeEntry(env, entries[k], out);
      if r.Err? {
        FailsEarly(env, entries, k + 1);
        return;
      }
      out := r.value;
    }
    assert entries[..|entries|] == entries;
    return Ok(out);
  }

  lemma {:induction false} FailsEarly(env: Env, entries: seq<Entry>, k: nat)
    requires k <= |entries| && SerializeEntries(env, entries[..k]).Err?
    ensures SerializeEntries(env, entries) == SerializeEntries(env, entries[..k])
    decreases |entries| - k
  {
    hide Serialize, SerializeEntry;
    if k == |entries| {
      assert entries[..k] == entries;
    } else {
      assert entries[..k + 1][..k] == entries[..k];
      FailsEarly(env, entries, k + 1);
    }
  }

  /** A representation as the dictionary object it is. */
  class Document {
    var entries: seq<Entry>

    constructor (entries: seq<Entry>)
      ensures this.entries == entries
    {
      this.entries := entries;
    }

    method Simplify(env: Env, cls: string)
      requires cls in env.typeIds ==> IndexOf(entries, Str(TYPE_ID_FIELD)) < |entries|
      modifies this
      ensures entries == Simplified(env, cls, old(entries))
    {
      if cls in env.typeIds {
        var k := IndexOf(entries, Str(TYPE_ID_FIELD));
        entries := entries[..k] + entries[k + 1..];
      }
    }

    /** Reading a document takes its type id away for good, unless there was no class to read
        it as. */
    method Deserialize(env: Env, cls: string) returns (r: Outcome<Object>)
      modifies this
      ensures r == DeserializeRecord(env, Dict(old(entries)), cls)
      ensures entries == if ChooseType(env, Dict(old(entries)), cls).Ok? then Simplified(env, cls, old(entries)) else old(entries)
    {
      var whole := Dict(entries);
      var t := ChooseType(env, whole, cls);
      if t.Err? { return Err(t.error); }
      Simplify(env, cls);
      var attributes := DeserializeFields(env, whole, entries, t.value);
      if attributes.Err? { return Err(attributes.error); }
      r := Construct(env, t.value, attributes.value);
    }
  }

  /** So a polymorphic document can be read only once. */
  lemma ReadsOnce(env: Env, entries: seq<Entry>, cls: string)
    requires cls in env.typeIds && Distinct(entries)
    ensures Deserialize(env, Dict(Simplified(env, cls, entries)), ClassT(cls)) == Err(KeyError)
  {
    var rest, k := Simplified(env, cls, entries), IndexOf(entries, Str(TYPE_ID_FIELD));
    forall j | 0 <= j < |rest| ensures !Same(rest[j].key, Str(TYPE_ID_FIELD)) {
      assert rest[j] == entries[if j < k then j else j + 1];
    }
    assert IndexOf(rest, Str(TYPE_ID_FIELD)) == |rest|;
  }
}
