/** What attaching the plugin to a schema configures: which of the three
    soft-delete paths get an index (`parseIndexFields`), the path definitions
    built with `createSchemaObject`, and which paths the schema then has. */
module SchemaConfig {
  import opened JsValues

  /** Whether the store should index `deleted`, `deletedAt` and `deletedBy`. */
  datatype IndexFields = IndexFields(deleted: bool, deletedAt: bool, deletedBy: bool)

  const NoIndexes := IndexFields(false, false, false)
  const AllIndexed := IndexFields(true, true, true)

  /** `Array.prototype.indexOf`: the first position holding `x`, or -1. */
  function IndexOf(elems: seq<JsValue>, x: JsValue): (r: int)
    ensures -1 <= r < |elems|
    ensures r == -1 <==> x !in elems
    ensures 0 <= r ==> elems[r] == x && forall j :: 0 <= j < r ==> elems[j] != x
  {
    if elems == [] then -1
    else if elems[0] == x then 0
    else
      var k := IndexOf(elems[1..], x);
      if k == -1 then -1 else k + 1
  }

  /** What the `indexFields` option `v` selects: nothing when it is falsy, all
      three for the string "all" or for `true`, exactly the named fields for an
      array, and nothing for any other value (another string, a `String`
      object, a number, an object). */
  ghost predicate IndexFieldsSelected(v: JsValue, r: IndexFields) {
    && (!Truthy(v) ==> r == NoIndexes)
    && (v == Str("all") || v == Bool(true) ==> r == AllIndexed)
    && (v.Arr? ==>
          r.deleted == (Str("deleted") in v.elems)
          && r.deletedAt == (Str("deletedAt") in v.elems)
          && r.deletedBy == (Str("deletedBy") in v.elems))
    && (Truthy(v) && v != Str("all") && v != Bool(true) && !v.Arr? ==> r == NoIndexes)
  }

  /** `parseIndexFields(options)`: start from all false, then let each test
      that matches overwrite the flags. */
  method ParseIndexFields(options: JsValue) returns (indexFields: IndexFields)
    requires !options.Null? && !options.Undefined?
    ensures IndexFieldsSelected(Prop(options, "indexFields"), indexFields)
  {
    indexFields := NoIndexes;
    var v := Prop(options, "indexFields");
    if !Truthy(v) {
      return;
    }
    if (IsString(v) || v.StrObject?) && v == Str("all") {
      indexFields := AllIndexed;
    }
    if IsBoolean(v) && v == Bool(true) {
      indexFields := AllIndexed;
    }
    if v.Arr? {
      indexFields := indexFields.(deleted := IndexOf(v.elems, Str("deleted")) > -1);
      indexFields := indexFields.(deletedAt := IndexOf(v.elems, Str("deletedAt")) > -1);
      indexFields := indexFields.(deletedBy := IndexOf(v.elems, Str("deletedBy")) > -1);
    }
  }

  /** `def` is the definition object `extra` with `typeValue` stored under
      `typeKey`, which overwrites whatever `extra` held there. */
  ghost predicate Defines(def: map<string, JsValue>, typeKey: string, typeValue: JsValue, extra: map<string, JsValue>) {
    && def.Keys == extra.Keys + {typeKey}
    && def[typeKey] == typeValue
    && forall k :: k in extra && k != typeKey ==> def[k] == extra[k]
  }

  /** `createSchemaObject(typeKey, typeValue, options)`: store the type under
      the schema's type key, overwriting whatever that key held. */
  method CreateSchemaObject(typeKey: string, typeValue: JsValue, options: map<string, JsValue>)
    returns (r: map<string, JsValue>)
    ensures Defines(r, typeKey, typeValue, options)
  {
    r := options;
    r := r[typeKey := typeValue];
  }

  /** The constructors the path definitions name as their types. */
  const BooleanType := Func(0, map[])
  const DateType := Func(1, map[])
  const ObjectIdType := Func(2, map[])

  /** The outcome of attaching the plugin: the index flags and the definition
      of each path it adds. */
  datatype PluginConfig = PluginConfig(indexFields: IndexFields, paths: map<string, map<string, JsValue>>)

  /** Whether the schema has `path` once the plugin is attached (what
      `schema.path(...)` tests), for a schema that had none of the three. */
  predicate HasPath(cfg: PluginConfig, path: string) {
    path in cfg.paths
  }

  /** The configuration part of the plugin function: normalise the options,
      compute the index flags and define `deleted` (a Boolean defaulting to
      false), `deletedAt` (a Date) and, when `options.deletedBy === true`,
      `deletedBy` (of `options.deletedByType`, by default an ObjectId). */
  method Attach(options0: JsValue, typeKey: string) returns (cfg: PluginConfig)
    ensures IndexFieldsSelected(Prop(Or(options0, EmptyObject), "indexFields"), cfg.indexFields)
    // `deletedAt` is always added, `deletedBy` exactly when the option is `true`
    ensures HasPath(cfg, "deleted") && HasPath(cfg, "deletedAt")
    ensures HasPath(cfg, "deletedBy") <==> Prop(Or(options0, EmptyObject), "deletedBy") == Bool(true)
    ensures cfg.paths.Keys <= {"deleted", "deletedAt", "deletedBy"}
    ensures Defines(cfg.paths["deleted"], typeKey, BooleanType,
                    map["default" := Bool(false), "index" := Bool(cfg.indexFields.deleted)])
    ensures Defines(cfg.paths["deletedAt"], typeKey, DateType, map["index" := Bool(cfg.indexFields.deletedAt)])
    ensures HasPath(cfg, "deletedBy") ==>
      Defines(cfg.paths["deletedBy"], typeKey, Or(Prop(Or(options0, EmptyObject), "deletedByType"), ObjectIdType),
              map["index" := Bool(cfg.indexFields.deletedBy)])
  {
    var options := Or(options0, EmptyObject);
    var indexFields := ParseIndexFields(options);
    var paths: map<string, map<string, JsValue>> := map[];
    var deleted := CreateSchemaObject(typeKey, BooleanType, map["default" := Bool(false), "index" := Bool(indexFields.deleted)]);
    paths := paths["deleted" := deleted];
    var deletedAt := CreateSchemaObject(typeKey, DateType, map["index" := Bool(indexFields.deletedAt)]);
    paths := paths["deletedAt" := deletedAt];
    assert paths.Keys == {"deleted", "deletedAt"};
    if Prop(options, "deletedBy") == Bool(true) {
      var deletedBy := CreateSchemaObject(typeKey, Or(Prop(options, "deletedByType"), ObjectIdType), map["index" := Bool(indexFields.deletedBy)]);
      paths := paths["deletedBy" := deletedBy];
    }
    cfg := PluginConfig(indexFields, paths);
  }
}
