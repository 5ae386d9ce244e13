/**
 * The registry and wire-format slice of `bores.serialization`: the registrar made by
 * `make_serializable_type_registrar`, the single-key registry serializer and deserializer, the
 * global type-serializer tables, the validation path of `deserialize_ndarray` and
 * `_sort_types_by_primitivity`.
 *
 * Classes are numbered and single-inherit from a class with a smaller number; their class
 * attributes are string-valued. An object is its class and the mapping its `dump` returns.
 */
module Serialization {
  import opened Wrappers
  import opened Numeric

  // ---- classes and their attributes ----

  /** A class: its `__name__`, its base class and the attributes set on it. */
  datatype ClassDef = ClassDef(name: string, base: Option<nat>, attrs: map<string, string>)

  /** Every base precedes its subclass, so attribute lookup and `issubclass` terminate. */
  predicate WellFormed(classes: seq<ClassDef>) {
    forall c :: 0 <= c < |classes| && classes[c].base.Some? ==> classes[c].base.value < c
  }

  /** `getattr(cls, attr, None)`: the class's own attribute, else the one it inherits. */
  function GetAttr(classes: seq<ClassDef>, c: nat, attr: string): Option<string>
    requires WellFormed(classes) && c < |classes|
    decreases c
  {
    if attr in classes[c].attrs then Some(classes[c].attrs[attr])
    else if classes[c].base.Some? then GetAttr(classes, classes[c].base.value, attr)
    else None
  }

  /** `issubclass(c, d)`: `d` is `c` or one of its ancestors. */
  predicate IsSubclass(classes: seq<ClassDef>, c: nat, d: nat)
    requires WellFormed(classes) && c < |classes|
    decreases c
  {
    c == d || (classes[c].base.Some? && IsSubclass(classes, classes[c].base.value, d))
  }

  /** `setattr(cls, attr, value)`: only this class's own attributes change. */
  function SetAttr(classes: seq<ClassDef>, c: nat, attr: string, value: string): (r: seq<ClassDef>)
    requires c < |classes|
    ensures |r| == |classes| && WellFormed(classes) ==> WellFormed(r)
  {
    classes[c := classes[c].(attrs := classes[c].attrs[attr := value])]
  }

  /** A looked-up key is falsy when it is missing or empty. */
  predicate Truthy(key: Option<string>) {
    key.Some? && key.value != ""
  }

  function LowerChar(ch: char): char {
    if 'A' <= ch <= 'Z' then (ch as int + 32) as char else ch
  }

  /** `str.lower()` on ASCII letters. */
  function Lower(s: string): (r: string)
    ensures |r| == |s| && forall i :: 0 <= i < |s| ==> r[i] == LowerChar(s[i])
  {
    seq(|s|, i requires 0 <= i < |s| => LowerChar(s[i]))
  }

  // ---- the registrar ----

  /** The arguments `make_serializable_type_registrar` closes over. */
  datatype RegistrarConfig = RegistrarConfig(
    baseCls: nat,
    keyAttr: string,
    keyFactory: Option<nat -> string>,
    override: bool)

  datatype RegistrationError = NotASubclass(cls: nat) | AlreadyRegistered(key: string, cls: nat)

  /** The registry maps keys to classes that exist. */
  predicate RegistryValid(registry: map<string, nat>, classes: seq<ClassDef>) {
    forall k :: k in registry ==> registry[k] < |classes|
  }

  /** The key a class is registered under: its (inherited) key attribute, else a fresh one. */
  function RegistrationKey(cfg: RegistrarConfig, classes: seq<ClassDef>, cls: nat): string
    requires WellFormed(classes) && cls < |classes|
  {
    var own := GetAttr(classes, cls, cfg.keyAttr);
    if Truthy(own) then own.value
    else if cfg.keyFactory.Some? then cfg.keyFactory.value(cls)
    else Lower(classes[cls].name)
  }

  /**
   * What a call of the registrar leaves behind: the class attributes (the key is written onto
   * the class as soon as it had none, even when the collision check then raises), the registry
   * and the outcome.
   */
  function Register(cfg: RegistrarConfig, registry: map<string, nat>, classes: seq<ClassDef>, cls: nat)
    : (r: (map<string, nat>, seq<ClassDef>, Result<nat, RegistrationError>))
    requires WellFormed(classes) && RegistryValid(registry, classes) && cls < |classes|
    ensures WellFormed(r.1) && |r.1| == |classes| && RegistryValid(r.0, r.1)
  {
    if !IsSubclass(classes, cls, cfg.baseCls) then (registry, classes, Err(NotASubclass(cls)))
    else
      var key := RegistrationKey(cfg, classes, cls);
      var classes' := if Truthy(GetAttr(classes, cls, cfg.keyAttr)) then classes
                      else SetAttr(classes, cls, cfg.keyAttr, key);
      if !cfg.override && key in registry && !IsSubclass(classes', cls, registry[key]) then
        (registry, classes', Err(AlreadyRegistered(key, cls)))
      else (registry[key := cls], classes', Ok(cls))
  }

  /** The simulator's `registry` dictionary. */
  class TypeRegistry {
    var entries: map<string, nat>

    constructor (entries: map<string, nat>)
      ensures this.entries == entries
    {
      this.entries := entries;
    }
  }

  /** The attributes of every class of the program, which the registrar writes to. */
  class ClassTable {
    var classes: seq<ClassDef>

    constructor (classes: seq<ClassDef>)
      ensures this.classes == classes
    {
      this.classes := classes;
    }
  }

  /** The `registrar` closure returned by `make_serializable_type_registrar`. */
  class Registrar {
    const cfg: RegistrarConfig
    const registry: TypeRegistry
    const table: ClassTable

    constructor (cfg: RegistrarConfig, registry: TypeRegistry, table: ClassTable)
      ensures this.cfg == cfg && this.registry == registry && this.table == table
    {
      this.cfg, this.registry, this.table := cfg, registry, table;
    }

    /**
     * `registrar(cls)`: rejects a class outside `base_cls`'s hierarchy, picks and writes back
     * the key, rejects a collision unless overriding or re-registering a subclass, and
     * otherwise records `registry[key] = cls`, no other key changing.
     */
    method RegisterClass(cls: nat) returns (r: Result<nat, RegistrationError>)
      requires WellFormed(table.classes) && RegistryValid(registry.entries, table.classes)
      requires cls < |table.classes|
      modifies registry, table
      ensures (registry.entries, table.classes, r) == Register(cfg, old(registry.entries), old(table.classes), cls)
      ensures r.Ok? ==> forall k :: k in old(registry.entries) && k != RegistrationKey(cfg, old(table.classes), cls) ==>
        k in registry.entries && registry.entries[k] == old(registry.entries)[k]
    {
      if !IsSubclass(table.classes, cls, cfg.baseCls) {
        return Err(NotASubclass(cls));
      }
      var key := GetAttr(table.classes, cls, cfg.keyAttr);
      var k: string;
      if !Truthy(key) {
        k := if cfg.keyFactory.Some? then cfg.keyFactory.value(cls) else Lower(table.classes[cls].name);
        table.classes := SetAttr(table.classes, cls, cfg.keyAttr, k);
      } else {
        k := key.value;
      }
      if !cfg.override && k in registry.entries && !IsSubclass(table.classes, cls, registry.entries[k]) {
        return Err(AlreadyRegistered(k, cls));
      }
      registry.entries := registry.entries[k := cls];
      r := Ok(cls);
    }
  }

  lemma {:induction false} SetAttrKeepsSubclass(classes: seq<ClassDef>, c: nat, attr: string, value: string, a: nat, d: nat)
    requires WellFormed(classes) && c < |classes| && a < |classes|
    ensures IsSubclass(SetAttr(classes, c, attr, value), a, d) == IsSubclass(classes, a, d)
    decreases a
  {
    if classes[a].base.Some? {
      SetAttrKeepsSubclass(classes, c, attr, value, classes[a].base.value, d);
    }
  }

  lemma SetAttrSetsOwn(classes: seq<ClassDef>, c: nat, attr: string, value: string)
    requires WellFormed(classes) && c < |classes|
    ensures GetAttr(SetAttr(classes, c, attr, value), c, attr) == Some(value)
  {
  }

  /** After a successful registration the class's own key attribute holds its key. */
  lemma RegisteredKeyIsRecorded(cfg: RegistrarConfig, registry: map<string, nat>, classes: seq<ClassDef>, cls: nat)
    requires WellFormed(classes) && RegistryValid(registry, classes) && cls < |classes|
    requires Register(cfg, registry, classes, cls).2.Ok?
    ensures var (reg', classes', _) := Register(cfg, registry, classes, cls);
      var key := RegistrationKey(cfg, classes, cls);
      GetAttr(classes', cls, cfg.keyAttr) == Some(key) && key in reg' && reg'[key] == cls
  {
    var key := RegistrationKey(cfg, classes, cls);
    if !Truthy(GetAttr(classes, cls, cfg.keyAttr)) {
      SetAttrSetsOwn(classes, cls, cfg.keyAttr, key);
    }
  }

  /** The registrar fails exactly on a class outside the hierarchy or on a forbidden collision. */
  lemma RegistrationFails(cfg: RegistrarConfig, registry: map<string, nat>, classes: seq<ClassDef>, cls: nat)
    requires WellFormed(classes) && RegistryValid(registry, classes) && cls < |classes|
    ensures var key := RegistrationKey(cfg, classes, cls);
      Register(cfg, registry, classes, cls).2.Err? <==>
        !IsSubclass(classes, cls, cfg.baseCls) ||
        (!cfg.override && key in registry && !IsSubclass(classes, cls, registry[key]))
    ensures Register(cfg, registry, classes, cls).2.Err? ==> Register(cfg, registry, classes, cls).0 == registry
  {
    var key := RegistrationKey(cfg, classes, cls);
    if key in registry {
      SetAttrKeepsSubclass(classes, cls, cfg.keyAttr, key, cls, registry[key]);
    }
  }

  /**
   * A subclass without a key attribute of its own inherits its parent's key, so registering it
   * replaces the parent's entry instead of adding one.
   */
  lemma SubclassTakesOverInheritedKey(cfg: RegistrarConfig, registry: map<string, nat>, classes: seq<ClassDef>,
                                      parent: nat, child: nat)
    requires WellFormed(classes) && RegistryValid(registry, classes) && child < |classes|
    requires classes[child].base == Some(parent) && cfg.keyAttr !in classes[child].attrs
    requires IsSubclass(classes, child, cfg.baseCls)
    requires Truthy(GetAttr(classes, parent, cfg.keyAttr))
    requires GetAttr(classes, parent, cfg.keyAttr).value in registry
    requires registry[GetAttr(classes, parent, cfg.keyAttr).value] == parent
    ensures var key := GetAttr(classes, parent, cfg.keyAttr).value;
      var (reg', classes', r) := Register(cfg, registry, classes, child);
      r.Ok? && reg'.Keys == registry.Keys && reg'[key] == child && classes' == classes
  {
    assert IsSubclass(classes, parent, parent);
  }

  // ---- registry serializer and deserializer ----

  /** What `obj.dump(recurse)` returns. */
  type Payload = map<string, string>

  /** An instance: its class and its dumped state. */
  datatype Obj = Obj(cls: nat, state: Payload)

  /** `cls.load(value)`: an instance of `cls` with that state. */
  function Load(cls: nat, value: Payload): Obj {
    Obj(cls, value)
  }

  /** The input of a deserializer: a mapping, as its items in iteration order, or anything else. */
  datatype Data = Mapping(items: seq<(string, Payload)>) | NotAMapping

  datatype SerializationError = UnsupportedType(cls: nat)
  datatype DeserializationError = InvalidFormat | UnsupportedKey(key: string)

  /** The serializer `make_registry_serializer` builds: `{key: obj.dump(recurse)}`. */
  function SerializeRegistered(registry: map<string, nat>, classes: seq<ClassDef>, keyAttr: string, obj: Obj)
    : (r: Result<Data, SerializationError>)
    requires WellFormed(classes) && obj.cls < |classes|
    ensures r.Err? <==> !Truthy(GetAttr(classes, obj.cls, keyAttr)) || GetAttr(classes, obj.cls, keyAttr).value !in registry
    ensures r.Ok? ==> r.value == Mapping([(GetAttr(classes, obj.cls, keyAttr).value, obj.state)])
  {
    var key := GetAttr(classes, obj.cls, keyAttr);
    if !Truthy(key) || key.value !in registry then Err(UnsupportedType(obj.cls))
    else Ok(Mapping([(key.value, obj.state)]))
  }

  /** The deserializer `make_registry_deserializer` builds: `registry[key].load(value)`. */
  function DeserializeRegistered(registry: map<string, nat>, data: Data): (r: Result<Obj, DeserializationError>)
    ensures r.Err? <==> data.NotAMapping? || |data.items| != 1 || data.items[0].0 !in registry
    ensures r.Ok? ==> r.value == Load(registry[data.items[0].0], data.items[0].1)
  {
    if data.NotAMapping? || |data.items| != 1 then Err(InvalidFormat)
    else
      var (key, value) := data.items[0];
      if key !in registry then Err(UnsupportedKey(key))
      else Ok(Load(registry[key], value))
  }

  /**
   * Deserializing what the serializer produced loads the object's state into the class
   * registered under its key: the object itself exactly when that class is the object's.
   */
  lemma RegistryRoundTrip(registry: map<string, nat>, classes: seq<ClassDef>, keyAttr: string, obj: Obj)
    requires WellFormed(classes) && obj.cls < |classes|
    requires SerializeRegistered(registry, classes, keyAttr, obj).Ok?
    ensures var key := GetAttr(classes, obj.cls, keyAttr).value;
      var back := DeserializeRegistered(registry, SerializeRegistered(registry, classes, keyAttr, obj).value);
      back == Ok(Obj(registry[key], obj.state)) && (back == Ok(obj) <==> registry[key] == obj.cls)
  {
  }

  /** An object of a class the registrar has just registered round-trips to itself. */
  lemma RegisteredClassRoundTrips(cfg: RegistrarConfig, registry: map<string, nat>, classes: seq<ClassDef>,
                                  obj: Obj)
    requires WellFormed(classes) && RegistryValid(registry, classes) && obj.cls < |classes|
    requires Register(cfg, registry, classes, obj.cls).2.Ok?
    requires RegistrationKey(cfg, classes, obj.cls) != ""
    ensures var (reg', classes', _) := Register(cfg, registry, classes, obj.cls);
      SerializeRegistered(reg', classes', cfg.keyAttr, obj).Ok? &&
      DeserializeRegistered(reg', SerializeRegistered(reg', classes', cfg.keyAttr, obj).value) == Ok(obj)
  {
    RegisteredKeyIsRecorded(cfg, registry, classes, obj.cls);
  }

  // ---- global type (de)serializer tables ----

  /** The closures the registrar factory can put into the global tables. */
  datatype Codec = RegistrySerializer(baseCls: nat, keyAttr: string) | RegistryDeserializer(baseCls: nat)

  /** `_TYPE_SERIALIZERS` and `_TYPE_DESERIALIZERS`. */
  class TypeTables {
    var serializers: map<nat, Codec>
    var deserializers: map<nat, Codec>

    constructor ()
      ensures serializers == map[] && deserializers == map[]
    {
      serializers, deserializers := map[], map[];
    }

    /** `register_type_serializer(typ, serializer)`. */
    method RegisterTypeSerializer(typ: nat, serializer: Codec)
      modifies this
      ensures serializers == old(serializers)[typ := serializer]
      ensures deserializers == old(deserializers)
    {
      serializers := serializers[typ := serializer];
    }

    /** `register_type_deserializer(typ, deserializer)`. */
    method RegisterTypeDeserializer(typ: nat, deserializer: Codec)
      modifies this
      ensures deserializers == old(deserializers)[typ := deserializer]
      ensures serializers == old(serializers)
    {
      deserializers := deserializers[typ := deserializer];
    }
  }

  datatype ConfigError = EmptyKeyAttr

  /**
   * `make_serializable_type_registrar(...)`: an empty `key_attr` is rejected; otherwise the
   * registry serializer and deserializer are installed for `base_cls` as the flags ask and the
   * registrar is returned.
   */
  method MakeRegistrar(cfg: RegistrarConfig, registry: TypeRegistry, table: ClassTable, tables: TypeTables,
                       autoSerializer: bool, autoDeserializer: bool)
    returns (r: Result<Registrar, ConfigError>)
    modifies tables
    ensures r.Err? <==> cfg.keyAttr == ""
    ensures r.Ok? ==> fresh(r.value) && r.value.cfg == cfg && r.value.registry == registry && r.value.table == table
    ensures tables.serializers ==
      if r.Ok? && autoSerializer then old(tables.serializers)[cfg.baseCls := RegistrySerializer(cfg.baseCls, cfg.keyAttr)]
      else old(tables.serializers)
    ensures tables.deserializers ==
      if r.Ok? && autoDeserializer then old(tables.deserializers)[cfg.baseCls := RegistryDeserializer(cfg.baseCls)]
      else old(tables.deserializers)
  {
    if cfg.keyAttr == "" {
      return Err(EmptyKeyAttr);
    }
    if autoSerializer {
      tables.RegisterTypeSerializer(cfg.baseCls, RegistrySerializer(cfg.baseCls, cfg.keyAttr));
    }
    if autoDeserializer {
      tables.RegisterTypeDeserializer(cfg.baseCls, RegistryDeserializer(cfg.baseCls));
    }
    var registrar := new Registrar(cfg, registry, table);
    r := Ok(registrar);
  }

  // ---- the ndarray wire format ----

  /** The JSON values a wire dict holds. */
  datatype Json = JNull | JBool(b: bool) | JInt(i: int) | JStr(s: string) | JList(elems: seq<Json>)

  /** Python truthiness of a looked-up value (`None` when absent). */
  predicate JsonTruthy(v: Option<Json>) {
    match v
    case None => false
    case Some(JNull) => false
    case Some(JBool(b)) => b
    case Some(JInt(i)) => i != 0
    case Some(JStr(s)) => s != ""
    case Some(JList(e)) => e != []
  }

  /** What `deserialize_ndarray` receives. */
  datatype ArrayInput = AnNdarray | ASequence | AWireDict(fields: map<string, Json>) | SomethingElse

  /**
   * What it returns: the ndarray unchanged, the ndarray cast to the override, the list converted
   * (with the override, if any), or the validated parts of a wire dict.
   */
  datatype Decoded =
    | Passthrough
    | Cast(dtype: Json)
    | FromSequence(requested: Option<Json>)
    | FromWire(itemsize: nat, shape: seq<int>, raw: seq<bv8>)

  datatype NdarrayError =
    | NotAWireType
    | ConversionFailed
    | MissingSentinel
    | MissingKeys(missing: set<string>)
    | BadDtype
    | BadShape
    | BadData
    | ByteLengthMismatch(expected: int, got: nat)

  /** `tuple(int(s) for s in shape)` over a list of integers (booleans count as 0 and 1). */
  function ShapeOf(v: Json): Option<seq<int>> {
    if v.JList? then ShapeOfElems(v.elems) else None
  }

  function ShapeOfElems(elems: seq<Json>): Option<seq<int>> {
    if elems == [] then Some([])
    else
      var rest := ShapeOfElems(elems[1..]);
      if rest.None? then None
      else if elems[0].JInt? then Some([elems[0].i] + rest.value)
      else if elems[0].JBool? then Some([if elems[0].b then 1 else 0] + rest.value)
      else None
  }

  /** `np.prod(shape)` over integers. */
  function IntProd(shape: seq<int>): int {
    if shape == [] then 1 else shape[0] * IntProd(shape[1..])
  }

  /** `int(np.prod(shape)) if shape else 1`: a 0-d array has one element. */
  function ElementCount(shape: seq<int>): int {
    if shape == [] then 1 else IntProd(shape)
  }

  /** The keys every wire dict must carry besides the sentinel. */
  function RequiredKeys(): set<string> {
    {"dtype", "shape", "data"}
  }

  /**
   * `deserialize_ndarray(data, dtype=dtype)`. `converts(input, dtype)` stands for whether
   * `data.astype(dtype)` (for an ndarray) or `np.asarray(data, dtype=dtype)` (for a list)
   * succeeds; a ragged list or an uncastable dtype makes it false. `itemsize` stands for
   * `np.dtype(..).itemsize` applied to the stored value (`None` where numpy rejects it; `null`
   * is float64) and `b64decode` for the base64 decoder applied to the stored value (`None` where
   * it rejects it).
   */
  function DeserializeNdarray(input: ArrayInput, dtype: Option<Json>, converts: (ArrayInput, Option<Json>) -> bool,
                              itemsize: Json -> Option<nat>, b64decode: Json -> Option<seq<bv8>>)
    : (r: Result<Decoded, NdarrayError>)
    ensures input.AnNdarray? && dtype.None? ==> r == Ok(Passthrough)
    ensures input.AnNdarray? && dtype.Some? ==> r == (if converts(input, dtype) then Ok(Cast(dtype.value)) else Err(ConversionFailed))
    ensures input.ASequence? ==> r == (if converts(input, dtype) then Ok(FromSequence(dtype)) else Err(ConversionFailed))
    ensures r == Err(ConversionFailed) <==> ((input.AnNdarray? && dtype.Some?) || input.ASequence?) && !converts(input, dtype)
    ensures input.SomethingElse? ==> r == Err(NotAWireType)
    ensures input.AWireDict? && !JsonTruthy(if "__ndarray__" in input.fields then Some(input.fields["__ndarray__"]) else None)
      ==> r == Err(MissingSentinel)
    ensures input.AWireDict? && JsonTruthy(if "__ndarray__" in input.fields then Some(input.fields["__ndarray__"]) else None) &&
            !(RequiredKeys() <= input.fields.Keys)
      ==> r == Err(MissingKeys(RequiredKeys() - input.fields.Keys))
    ensures r.Ok? && input.AWireDict? ==>
      r.value.FromWire? && |r.value.raw| == r.value.itemsize * ElementCount(r.value.shape) &&
      RequiredKeys() <= input.fields.Keys
    // the decoding steps of a complete wire dict fail in source order: dtype, shape, data
    ensures input.AWireDict? && JsonTruthy(if "__ndarray__" in input.fields then Some(input.fields["__ndarray__"]) else None) &&
            RequiredKeys() <= input.fields.Keys
      ==> (itemsize(input.fields["dtype"]).None? ==> r == Err(BadDtype)) &&
          (itemsize(input.fields["dtype"]).Some? && ShapeOf(input.fields["shape"]).None? ==> r == Err(BadShape)) &&
          (itemsize(input.fields["dtype"]).Some? && ShapeOf(input.fields["shape"]).Some? &&
           b64decode(input.fields["data"]).None?
           ==> r == Err(BadData))
  {
    match input
    case AnNdarray =>
      if dtype.None? then Ok(Passthrough)
      else if converts(input, dtype) then Ok(Cast(dtype.value))
      else Err(ConversionFailed)
    case ASequence =>
      if converts(input, dtype) then Ok(FromSequence(dtype)) else Err(ConversionFailed)
    case SomethingElse => Err(NotAWireType)
    case AWireDict(fields) =>
      if !JsonTruthy(if "__ndarray__" in fields then Some(fields["__ndarray__"]) else None) then Err(MissingSentinel)
      else if !(RequiredKeys() <= fields.Keys) then Err(MissingKeys(RequiredKeys() - fields.Keys))
      else
        var dtype := itemsize(fields["dtype"]);
        if dtype.None? then Err(BadDtype)
        else
          var shape := ShapeOf(fields["shape"]);
          if shape.None? then Err(BadShape)
          else
            var raw := b64decode(fields["data"]);
            if raw.None? then Err(BadData)
            else
              var expected := dtype.value * ElementCount(shape.value);
              if |raw.value| != expected then Err(ByteLengthMismatch(expected, |raw.value|))
              else Ok(FromWire(dtype.value, shape.value, raw.value))
  }

  /** `list(a.shape)` as the wire dict stores it. */
  function ShapeJson(shape: seq<nat>): (j: Json)
    ensures j.JList?
  {
    JList(seq(|shape|, i requires 0 <= i < |shape| => JInt(shape[i])))
  }

  lemma {:induction false} ShapeOfShapeJson(shape: seq<nat>)
    ensures ShapeOf(ShapeJson(shape)) == Some(shape)
  {
    if shape != [] {
      ShapeOfShapeJson(shape[1..]);
      assert ShapeJson(shape).elems[1..] == ShapeJson(shape[1..]).elems;
      assert shape == [shape[0]] + shape[1..];
    }
  }

  lemma {:induction false} IntProdOfNats(shape: seq<nat>)
    ensures IntProd(shape) == Prod(shape)
  {
    if shape != [] {
      IntProdOfNats(shape[1..]);
    }
  }

  /** `serialize_ndarray(a)`: the sentinel, the dtype string, the shape and the encoded bytes. */
  function SerializeNdarray(dtype: string, shape: seq<nat>, raw: seq<bv8>, b64encode: seq<bv8> -> string)
    : map<string, Json>
  {
    map["__ndarray__" := JBool(true), "dtype" := JStr(dtype), "shape" := ShapeJson(shape),
        "data" := JStr(b64encode(raw))]
  }

  /**
   * A well-formed array survives the wire format: its serialization validates, with the same
   * itemsize, shape and bytes, provided the dtype string is understood and decoding inverts
   * encoding.
   */
  lemma NdarrayRoundTrip(dtype: string, size: nat, shape: seq<nat>, raw: seq<bv8>,
                         converts: (ArrayInput, Option<Json>) -> bool,
                         itemsize: Json -> Option<nat>, b64encode: seq<bv8> -> string,
                         b64decode: Json -> Option<seq<bv8>>)
    requires itemsize(JStr(dtype)) == Some(size)
    requires b64decode(JStr(b64encode(raw))) == Some(raw)
    requires |raw| == size * Prod(shape)
    ensures DeserializeNdarray(AWireDict(SerializeNdarray(dtype, shape, raw, b64encode)), None, converts, itemsize, b64decode) ==
      Ok(FromWire(size, shape, raw))
  {
    var fields := SerializeNdarray(dtype, shape, raw, b64encode);
    assert fields.Keys == {"__ndarray__", "dtype", "shape", "data"};
    ShapeOfShapeJson(shape);
    IntProdOfNats(shape);
    assert fields["dtype"] == JStr(dtype) && fields["data"] == JStr(b64encode(raw));
    assert fields["shape"] == ShapeJson(shape);
    assert ElementCount(shape) == Prod(shape) by {
      if shape == [] { assert Prod(shape) == 1; }
    }
  }

  /**
   * Once dtype, shape and data decode, the byte-length check decides: the dict is accepted exactly
   * when the bytes number `itemsize × prod(shape)`, and then carries the decoded parts; any other
   * length, short or long, is rejected with both lengths.
   */
  lemma ByteLengthIsChecked(fields: map<string, Json>, size: nat, shape: seq<int>, raw: seq<bv8>,
                            dtype: Option<Json>, converts: (ArrayInput, Option<Json>) -> bool,
                            itemsize: Json -> Option<nat>, b64decode: Json -> Option<seq<bv8>>)
    requires "__ndarray__" in fields && JsonTruthy(Some(fields["__ndarray__"]))
    requires RequiredKeys() <= fields.Keys
    requires itemsize(fields["dtype"]) == Some(size)
    requires ShapeOf(fields["shape"]) == Some(shape)
    requires b64decode(fields["data"]) == Some(raw)
    ensures var r := DeserializeNdarray(AWireDict(fields), dtype, converts, itemsize, b64decode);
      (r.Ok? <==> |raw| == size * ElementCount(shape)) &&
      (r.Ok? ==> r.value == FromWire(size, shape, raw)) &&
      (r.Err? ==> r == Err(ByteLengthMismatch(size * ElementCount(shape), |raw|)))
  {
  }

  /** A wire dict whose bytes are one element short is rejected with both lengths. */
  lemma ShortDataIsRejected(fields: map<string, Json>, size: nat, shape: seq<int>, raw: seq<bv8>,
                            dtype: Option<Json>, converts: (ArrayInput, Option<Json>) -> bool,
                            itemsize: Json -> Option<nat>, b64decode: Json -> Option<seq<bv8>>)
    requires fields.Keys == {"__ndarray__", "dtype", "shape", "data"}
    requires fields["__ndarray__"] == JBool(true)
    requires itemsize(fields["dtype"]) == Some(size) && size > 0
    requires ShapeOf(fields["shape"]) == Some(shape)
    requires b64decode(fields["data"]) == Some(raw)
    requires |raw| + size == size * ElementCount(shape)
    ensures DeserializeNdarray(AWireDict(fields), dtype, converts, itemsize, b64decode) == Err(ByteLengthMismatch(|raw| + size, |raw|))
  {
    assert RequiredKeys() <= fields.Keys;
  }

  /**
   * A stored dtype need not be a string: `np.dtype(None)` is float64, so a wire dict with a
   * `null` dtype and eight bytes for shape `[1]` decodes to a one-element array.
   */
  lemma NullDtypeIsAccepted(raw: seq<bv8>, converts: (ArrayInput, Option<Json>) -> bool, itemsize: Json -> Option<nat>, b64decode: Json -> Option<seq<bv8>>)
    requires itemsize(JNull) == Some(8)
    requires b64decode(JStr("AAAAAAAA8D8=")) == Some(raw) && |raw| == 8
    ensures DeserializeNdarray(AWireDict(map["__ndarray__" := JBool(true), "dtype" := JNull,
                                             "shape" := JList([JInt(1)]), "data" := JStr("AAAAAAAA8D8=")]),
                               None, converts, itemsize, b64decode) == Ok(FromWire(8, [1], raw))
  {
    var fields := map["__ndarray__" := JBool(true), "dtype" := JNull,
                      "shape" := JList([JInt(1)]), "data" := JStr("AAAAAAAA8D8=")];
    assert fields.Keys == {"__ndarray__", "dtype", "shape", "data"};
    assert RequiredKeys() <= fields.Keys;
    var elems: seq<Json> := [JInt(1)];
    assert elems[1..] == [];
    assert ShapeOfElems(elems[1..]) == Some([]);
    var one: seq<int> := [1];
    assert [elems[0].i] + [] == one;
    assert ShapeOfElems(elems) == Some(one);
    assert fields["shape"] == JList(elems);
  }

  /** The `dtype=` override is ignored for a wire dict: the stored dtype is authoritative. */
  lemma WireDictIgnoresOverride(fields: map<string, Json>, dtype: Option<Json>, converts: (ArrayInput, Option<Json>) -> bool,
                                itemsize: Json -> Option<nat>, b64decode: Json -> Option<seq<bv8>>)
    ensures DeserializeNdarray(AWireDict(fields), dtype, converts, itemsize, b64decode) ==
            DeserializeNdarray(AWireDict(fields), None, converts, itemsize, b64decode)
  {
  }

  // ---- ordering types for dispatch ----

  /** The types a serializer lookup distinguishes: the primitive built-ins and the rest. */
  datatype PyType = StrType | IntType | FloatType | BoolType | BytesType | NoneType | UserType(name: string)

  /** `_is_primitive_type`. */
  predicate IsPrimitive(t: PyType) {
    !t.UserType?
  }

  function Primitives(ts: seq<PyType>): seq<PyType> {
    if ts == [] then [] else (if IsPrimitive(ts[0]) then [ts[0]] else []) + Primitives(ts[1..])
  }

  function NonPrimitives(ts: seq<PyType>): seq<PyType> {
    if ts == [] then [] else (if IsPrimitive(ts[0]) then [] else [ts[0]]) + NonPrimitives(ts[1..])
  }

  lemma {:induction false} GroupsAreHomogeneous(ts: seq<PyType>)
    ensures forall i :: 0 <= i < |Primitives(ts)| ==> IsPrimitive(Primitives(ts)[i])
    ensures forall i :: 0 <= i < |NonPrimitives(ts)| ==> !IsPrimitive(NonPrimitives(ts)[i])
  {
    if ts != [] {
      GroupsAreHomogeneous(ts[1..]);
    }
  }

  /**
   * `_sort_types_by_primitivity`: `sorted` with key 0 for a non-primitive type and 1 for a
   * primitive one. Being stable, it lists the non-primitive types in their order, then the
   * primitive ones in theirs.
   */
  function SortByPrimitivity(ts: seq<PyType>): (r: seq<PyType>)
    ensures |r| == |ts|
  {
    PartitionCount(ts);
    NonPrimitives(ts) + Primitives(ts)
  }

  lemma {:induction false} PartitionCount(ts: seq<PyType>)
    ensures |NonPrimitives(ts)| + |Primitives(ts)| == |ts|
    ensures multiset(NonPrimitives(ts)) + multiset(Primitives(ts)) == multiset(ts)
  {
    if ts != [] {
      PartitionCount(ts[1..]);
      assert ts == [ts[0]] + ts[1..];
    }
  }

  /** The sorted list is a permutation of the input. */
  lemma SortIsPermutation(ts: seq<PyType>)
    ensures multiset(SortByPrimitivity(ts)) == multiset(ts)
  {
    PartitionCount(ts);
  }

  /** Every non-primitive type comes before every primitive one. */
  lemma SortPutsNonPrimitivesFirst(ts: seq<PyType>)
    ensures var r := SortByPrimitivity(ts);
      forall i, j :: 0 <= i < |r| && 0 <= j < |r| && IsPrimitive(r[i]) && !IsPrimitive(r[j]) ==> j < i
  {
    var r := SortByPrimitivity(ts);
    var n := NonPrimitives(ts);
    GroupsAreHomogeneous(ts);
    forall i, j | 0 <= i < |r| && 0 <= j < |r| && IsPrimitive(r[i]) && !IsPrimitive(r[j]) ensures j < i {
      assert j < |n| <= i;
    }
  }

  /** Sorting keeps the order within each group: filtering the result gives the input's groups. */
  lemma {:induction false} SortIsStable(ts: seq<PyType>)
    ensures NonPrimitives(SortByPrimitivity(ts)) == NonPrimitives(ts)
    ensures Primitives(SortByPrimitivity(ts)) == Primitives(ts)
  {
    GroupsAreHomogeneous(ts);
    PrimitivesConcat(NonPrimitives(ts), Primitives(ts));
    NonPrimitivesConcat(NonPrimitives(ts), Primitives(ts));
    FilterOfNonPrimitives(NonPrimitives(ts));
    FilterOfPrimitives(Primitives(ts));
  }

  lemma {:induction false} PrimitivesConcat(a: seq<PyType>, b: seq<PyType>)
    ensures Primitives(a + b) == Primitives(a) + Primitives(b)
  {
    if a == [] {
      assert a + b == b;
    } else {
      var head := if IsPrimitive(a[0]) then [a[0]] else [];
      assert (a + b)[0] == a[0] && (a + b)[1..] == a[1..] + b;
      calc {
        Primitives(a + b);
        head + Primitives(a[1..] + b);
        { PrimitivesConcat(a[1..], b); }
        head + (Primitives(a[1..]) + Primitives(b));
        (head + Primitives(a[1..])) + Primitives(b);
        Primitives(a) + Primitives(b);
      }
    }
  }

  lemma {:induction false} NonPrimitivesConcat(a: seq<PyType>, b: seq<PyType>)
    ensures NonPrimitives(a + b) == NonPrimitives(a) + NonPrimitives(b)
  {
    if a == [] {
      assert a + b == b;
    } else {
      var head := if IsPrimitive(a[0]) then [] else [a[0]];
      assert (a + b)[0] == a[0] && (a + b)[1..] == a[1..] + b;
      calc {
        NonPrimitives(a + b);
        head + NonPrimitives(a[1..] + b);
        { NonPrimitivesConcat(a[1..], b); }
        head + (NonPrimitives(a[1..]) + NonPrimitives(b));
        (head + NonPrimitives(a[1..])) + NonPrimitives(b);
        NonPrimitives(a) + NonPrimitives(b);
      }
    }
  }

  lemma {:induction false} FilterOfNonPrimitives(n: seq<PyType>)
    requires forall i :: 0 <= i < |n| ==> !IsPrimitive(n[i])
    ensures Primitives(n) == [] && NonPrimitives(n) == n
  {
    if n != [] {
      FilterOfNonPrimitives(n[1..]);
      assert n == [n[0]] + n[1..];
    }
  }

  lemma {:induction false} FilterOfPrimitives(p: seq<PyType>)
    requires forall i :: 0 <= i < |p| ==> IsPrimitive(p[i])
    ensures Primitives(p) == p && NonPrimitives(p) == []
  {
    if p != [] {
      FilterOfPrimitives(p[1..]);
      assert p == [p[0]] + p[1..];
    }
  }
}
