/** A content-pack constraint (a type, a plugin and a version requirement) as
    the web interface represents it: an immutable value with a JSON form and
    an immutable builder over a key-value map. */
module ContentPacks {

  /** The JavaScript values a constraint part can hold. */
  datatype JsValue = Undefined | Null | Str(s: string)

  datatype Constraint = Constraint(typeName: JsValue, plugin: JsValue, version: JsValue)

  const ServerPlugin: JsValue := Str("server")

  /** A default parameter value replaces only a missing (undefined) argument;
      an explicit null is kept. */
  function DefaultPlugin(plugin: JsValue): (p: JsValue)
    ensures p != Undefined
    ensures plugin != Undefined ==> p == plugin
  {
    if plugin == Undefined then ServerPlugin else plugin
  }

  /** `new Constraint(type, version, plugin = 'server')`, and `create`, which
      takes the same arguments. */
  function Create(typeName: JsValue, version: JsValue, plugin: JsValue): (c: Constraint)
    ensures c.typeName == typeName && c.version == version
    ensures c.plugin == (if plugin == Undefined then ServerPlugin else plugin)
  {
    Constraint(typeName, DefaultPlugin(plugin), version)
  }

  /** A plain object: a property that is not present reads as undefined. */
  type JsObject = map<string, JsValue>

  function Get(o: JsObject, key: string): JsValue {
    if key in o then o[key] else Undefined
  }

  /** `toJSON`: exactly the three properties. */
  function ToJson(c: Constraint): (o: JsObject)
    ensures o.Keys == {"type", "plugin", "version"}
    ensures Get(o, "type") == c.typeName && Get(o, "plugin") == c.plugin
    ensures Get(o, "version") == c.version
  {
    map["type" := c.typeName, "plugin" := c.plugin, "version" := c.version]
  }

  /** `fromJSON`: the properties are read and passed to `create`. */
  function FromJson(o: JsObject): Constraint
  {
    Create(Get(o, "type"), Get(o, "version"), Get(o, "plugin"))
  }

  /** Every constraint that can be created survives the JSON round trip. */
  lemma JsonRoundTrip(c: Constraint)
    requires c.plugin != Undefined
    ensures FromJson(ToJson(c)) == c
  {
  }

  /** Every constraint that `create` returns has a plugin, so the round trip
      applies to all of them. */
  lemma CreateJsonRoundTrip(typeName: JsValue, version: JsValue, plugin: JsValue)
    ensures FromJson(ToJson(Create(typeName, version, plugin))) == Create(typeName, version, plugin)
  {
    JsonRoundTrip(Create(typeName, version, plugin));
  }

  // ---------------------------------------------------------------------
  // The builder
  // ---------------------------------------------------------------------

  /** A builder over an immutable map; every setter returns a new builder. */
  datatype Builder = Builder(value: JsObject)

  /** A setter: the new builder differs from this one in that key only. */
  function Set(b: Builder, key: string, v: JsValue): (r: Builder)
    ensures Get(r.value, key) == v && key in r.value
    ensures forall k :: k != key ==> Get(r.value, k) == Get(b.value, k)
    ensures r.value.Keys == b.value.Keys + {key}
  {
    Builder(b.value[key := v])
  }

  function SetType(b: Builder, v: JsValue): Builder { Set(b, "type", v) }
  function SetPlugin(b: Builder, v: JsValue): Builder { Set(b, "plugin", v) }
  function SetVersion(b: Builder, v: JsValue): Builder { Set(b, "version", v) }

  /** `Constraint.builder()`: an empty builder with the plugin set to 'server'. */
  function NewBuilder(): (b: Builder)
    ensures b.value == map["plugin" := ServerPlugin]
  {
    SetPlugin(Builder(map[]), ServerPlugin)
  }

  /** `toBuilder`: a builder holding the three parts. */
  function ToBuilder(c: Constraint): (b: Builder)
    ensures b.value.Keys == {"type", "plugin", "version"}
    ensures Get(b.value, "type") == c.typeName && Get(b.value, "plugin") == c.plugin
    ensures Get(b.value, "version") == c.version
  {
    Builder(map["type" := c.typeName, "plugin" := c.plugin, "version" := c.version])
  }

  /** `build()` as written: it reads the property `id` and passes it as the
      only constructor argument, so it becomes the type, the version is
      undefined and the plugin takes its default. */
  function Build(b: Builder): (c: Constraint)
    ensures c == Constraint(Get(b.value, "id"), ServerPlugin, Undefined)
  {
    Create(Get(b.value, "id"), Undefined, Undefined)
  }

  /** The builders the API can produce: from `builder()` or `toBuilder()`,
      followed by any setters. None of them ever holds `id`. */
  datatype BuilderTrace =
    | FromNew
    | FromConstraint(c: Constraint)
    | WithType(before: BuilderTrace, v: JsValue)
    | WithPlugin(before: BuilderTrace, v: JsValue)
    | WithVersion(before: BuilderTrace, v: JsValue)

  function Replay(t: BuilderTrace): Builder
  {
    match t
    case FromNew => NewBuilder()
    case FromConstraint(c) => ToBuilder(c)
    case WithType(before, v) => SetType(Replay(before), v)
    case WithPlugin(before, v) => SetPlugin(Replay(before), v)
    case WithVersion(before, v) => SetVersion(Replay(before), v)
  }

  lemma {:induction false} ReplayKeys(t: BuilderTrace)
    ensures Replay(t).value.Keys <= {"type", "plugin", "version"}
  {
    match t
    case FromNew =>
    case FromConstraint(c) =>
    case WithType(before, v) => ReplayKeys(before);
    case WithPlugin(before, v) => ReplayKeys(before);
    case WithVersion(before, v) => ReplayKeys(before);
  }

  /** As written, every builder the API produces builds the same constraint:
      undefined type and version, plugin 'server'. What the setters or
      `toBuilder` put in is lost. */
  lemma BuildAsWrittenDropsFields(t: BuilderTrace)
    ensures Build(Replay(t)) == Constraint(Undefined, ServerPlugin, Undefined)
  {
    ReplayKeys(t);
  }

  /** The input that shows it: a constraint of type "plugin" on version
      ">=1.0" does not come back from its own builder. */
  lemma BuildAsWrittenLosesRoundTrip()
    ensures var c := Create(Str("plugin"), Str(">=1.0"), Undefined);
      Build(ToBuilder(c)) != c
  {
    BuildAsWrittenDropsFields(FromConstraint(Create(Str("plugin"), Str(">=1.0"), Undefined)));
  }

  /** The evidently intended `build()`: the three parts of the map go to the
      constructor in its parameter order (type, version, plugin). */
  function BuildIntended(b: Builder): (c: Constraint)
    ensures c.typeName == Get(b.value, "type") && c.version == Get(b.value, "version")
    ensures c.plugin == DefaultPlugin(Get(b.value, "plugin"))
  {
    Create(Get(b.value, "type"), Get(b.value, "version"), Get(b.value, "plugin"))
  }

  /** With the intended `build()`, a constraint rebuilt from its own builder
      is itself, and `builder()` with type and version set builds the same
      constraint as `create` with those two arguments. */
  lemma BuildIntendedRoundTrip(c: Constraint, typeName: JsValue, version: JsValue)
    requires c.plugin != Undefined
    ensures BuildIntended(ToBuilder(c)) == c
    ensures BuildIntended(SetVersion(SetType(NewBuilder(), typeName), version)) ==
            Create(typeName, version, Undefined)
  {
  }
}
