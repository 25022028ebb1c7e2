/** The statics the plugin puts on a model: the three variants of each of
    `count`, `find`, `findOne`, `findOneAndUpdate` and `update`, and the
    static `delete`, `findByIdAndDelete`, `findOneAndDelete` and `restore`.
    Each ends in one call into the document store, which the model records
    instead of running. */
module Statics {
  import opened JsValues
  import opened UpdateArguments
  import opened Visibility
  import opened Payloads
  import opened SchemaConfig

  /** A call the plugin makes into the store. */
  datatype DelegateCall =
    | Query(op: Op, args: seq<JsValue>, where: JsValue)   // `Model[op].apply(this, arguments).where(where)`
    | Write(op: Op, args: seq<JsValue>)                   // `Model[op].apply(this, args)`
    | FindByIdAndUpdate(id: JsValue, update: JsValue)     // `this.findByIdAndUpdate(id, update)`

  /** The `i`-th element of a call's `arguments`, `undefined` past its end. */
  function Arg(arguments: seq<JsValue>, i: nat): (a: JsValue) {
    if i < |arguments| then arguments[i] else Undefined
  }

  /** The call a write wrapper makes for the arguments `(conditions, doc,
      options, callback)`, or `None` when it throws because the normalised list
      is empty and a filter has to be injected. */
  function WriteCall(op: Op, variant: Variant, conditions: JsValue, doc: JsValue, options: JsValue, callback: JsValue)
    : (c: Option<DelegateCall>)
  {
    var args := NormalizedArgs(conditions, doc, options, callback);
    match InjectFilter(args, VisibilityFilter(op, variant))
    case None => None
    case Some(sent) => Some(Write(op, sent))
  }

  /** The calls an outcome adds to the log. */
  function Issued(c: Option<DelegateCall>): (log: seq<DelegateCall>) {
    if c.Some? then [c.value] else []
  }

  /** A static that hands `(conditions, payload, {multi: true}, callback)` to
      an update wrapper never makes it throw: the payload is a truthy object,
      so the normalised list is never empty. Through `updateWithDeleted` the
      store receives the payload and `{multi: true}` between the truthy
      conditions and the truthy callback, unless the conditions are a
      function, which is then passed on alone and the payload is lost. */
  lemma {:induction false} PayloadUpdateIssued(conditions: JsValue, payload: JsValue, callback: JsValue, variant: Variant)
    requires payload.Obj?
    ensures var c := WriteCall(Update, variant, conditions, payload, MultiOptions, callback);
      && c.Some?
      && (variant == WithDeleted ==> c.value == Write(Update,
            if IsFunction(conditions) then [conditions]
            else (if Truthy(conditions) then [conditions] else []) + [payload, MultiOptions]
                 + (if Truthy(callback) then [callback] else [])))
  {
    ObjectDocAndOptions(conditions, payload, MultiOptions, callback);
  }

  /** A static `delete` or `restore` given falsy conditions (none at all, say)
      sends its payload in the conditions position: the store receives
      `(payload, {multi: true}[, callback])`. */
  lemma {:induction false} FalsyConditionsMisplacePayload(conditions: JsValue, payload: JsValue, callback: JsValue)
    requires !Truthy(conditions) && payload.Obj?
    ensures WriteCall(Update, WithDeleted, conditions, payload, MultiOptions, callback)
      == Some(Write(Update, [payload, MultiOptions] + (if Truthy(callback) then [callback] else [])))
  {
    PayloadUpdateIssued(conditions, payload, callback, WithDeleted);
    assert !IsFunction(conditions);
    assert (if Truthy(conditions) then [conditions] else []) + [payload, MultiOptions] == [payload, MultiOptions];
  }

  /** A write wrapper throws exactly when it has a predicate to write and all
      four arguments are falsy, so that `args[0]` is `undefined`;
      `…WithDeleted` never throws. */
  lemma {:induction false} WriteCallThrows(op: Op, variant: Variant,
                                           conditions: JsValue, doc: JsValue, options: JsValue, callback: JsValue)
    requires !op.IsRead()
    ensures WriteCall(op, variant, conditions, doc, options, callback).None?
      <==> variant != WithDeleted
           && !Truthy(conditions) && !Truthy(doc) && !Truthy(options) && !Truthy(callback)
  {
    NormalizedArgsEmpty(conditions, doc, options, callback);
  }

  /** The static `delete(cb)` (a function as the conditions, no actor
      function) and the static `restore(cb)` update every record: the store
      receives `({}, payload, {multi: true}, cb)`, with a null actor in the
      soft-delete payload. */
  lemma {:induction false} CallbackFirstUpdatesAll(fn: JsValue, deletedBy: JsValue, callback: JsValue,
                                                   hasDeletedAt: bool, hasDeletedBy: bool, now: JsValue)
    requires IsFunction(fn) && !IsFunction(deletedBy)
    ensures var s := ShiftActor(fn, deletedBy, callback);
      WriteCall(Update, WithDeleted, s.conditions, DeletePayload(hasDeletedAt, hasDeletedBy, s.actor, now), MultiOptions, s.callback)
      == Some(Write(Update, [EmptyObject, DeletePayload(hasDeletedAt, hasDeletedBy, Null, now), MultiOptions, fn]))
    ensures var s := ShiftRestore(fn, callback);
      WriteCall(Update, WithDeleted, s.0, RestorePayload, MultiOptions, s.1)
      == Some(Write(Update, [EmptyObject, RestorePayload, MultiOptions, fn]))
  {
    ShiftActorFindsCallback(fn, deletedBy, callback);
    var p := DeletePayload(hasDeletedAt, hasDeletedBy, Null, now);
    PayloadUpdateIssued(EmptyObject, p, fn, WithDeleted);
    assert [EmptyObject] + [p, MultiOptions] + [fn] == [EmptyObject, p, MultiOptions, fn];
    PayloadUpdateIssued(EmptyObject, RestorePayload, fn, WithDeleted);
    assert [EmptyObject] + [RestorePayload, MultiOptions] + [fn] == [EmptyObject, RestorePayload, MultiOptions, fn];
  }

  /** The default write wrapper called with a lone object `(doc)` writes the
      predicate into that update document itself: the store receives
      `doc` with `deleted: {$ne: true}` added, and no conditions. */
  lemma {:induction false} DocOnlyGetsPredicate(op: Op, doc: JsValue)
    requires !op.IsRead() && doc.Obj?
    ensures WriteCall(op, Default, doc, Undefined, Undefined, Undefined)
      == Some(Write(op, [SetProp(doc, "deleted", PredicateValue(NeTrue))]))
    ensures Prop(SetProp(doc, "deleted", PredicateValue(NeTrue)), "deleted") == Obj(map["$ne" := Bool(true)])
  {
    DocOnlyShape(doc, Undefined, Undefined, Undefined);
    assert NormalizedArgs(doc, Undefined, Undefined, Undefined) == [doc];
    assert VisibilityFilter(op, Default) == Some(NeTrue);
    assert [doc][0 := SetProp(doc, "deleted", PredicateValue(NeTrue))] == [SetProp(doc, "deleted", PredicateValue(NeTrue))];
  }

  /** The fallback `findOneAndUpdate(conditions, payload, callback)` of the
      static `findOneAndDelete` never throws. */
  lemma {:induction false} FindOneAndUpdateIssued(conditions: JsValue, payload: JsValue, callback: JsValue)
    requires payload.Obj?
    ensures WriteCall(FindOneAndUpdate, Default, conditions, payload, callback, Undefined).Some?
  {
    ObjectDocNotEmpty(conditions, payload, callback);
  }

  /** A write wrapper's `args[0].deleted = {$ne: ...}`, which throws (`None`)
      when `args` is empty. */
  method SetDeleted(args: seq<JsValue>, p: DeletedPredicate) returns (sent: Option<seq<JsValue>>)
    ensures sent == InjectFilter(args, Some(p))
  {
    if args == [] {
      return None;
    }
    sent := Some(args[0 := SetProp(args[0], "deleted", Obj(map["$ne" := Bool(p.Excluded())]))]);
  }

  /** A model with the plugin's statics. `calls` logs the calls into the store. */
  class Model {
    const hasDeletedAt: bool
    const hasDeletedBy: bool
    /** Whether `this.updateWithDeleted` exists; the plugin always defines it. */
    const hasUpdateWithDeleted: bool
    var calls: seq<DelegateCall>

    /** The model of a schema the plugin was attached to with outcome `cfg`;
        `schema.path(...)` holds for the paths `cfg` adds. */
    constructor (cfg: PluginConfig)
      ensures hasDeletedAt == HasPath(cfg, "deletedAt") && hasDeletedBy == HasPath(cfg, "deletedBy")
      ensures hasUpdateWithDeleted && calls == []
    {
      hasDeletedAt := HasPath(cfg, "deletedAt");
      hasDeletedBy := HasPath(cfg, "deletedBy");
      hasUpdateWithDeleted := true;
      calls := [];
    }

    /** The static `op + variant` called with `arguments`. Read wrappers pass
        the arguments through and add the variant's `where` clause; write
        wrappers normalise the arguments and write the variant's predicate
        into the first one. `ok` is false when that write throws. */
    method Static(op: Op, variant: Variant, arguments: seq<JsValue>) returns (ok: bool)
      modifies this
      ensures op.IsRead() ==> ok && calls == old(calls) + [Query(op, arguments, WhereClause(variant))]
      ensures !op.IsRead() ==>
        ok == WriteCall(op, variant, Arg(arguments, 0), Arg(arguments, 1), Arg(arguments, 2), Arg(arguments, 3)).Some?
        && calls == old(calls) + Issued(WriteCall(op, variant, Arg(arguments, 0), Arg(arguments, 1), Arg(arguments, 2), Arg(arguments, 3)))
    {
      if op.IsRead() {
        var clause := EmptyObject;
        if variant == Default {
          clause := Obj(map["deleted" := Obj(map["$ne" := Bool(true)])]);
        } else if variant == Deleted {
          clause := Obj(map["deleted" := Obj(map["$ne" := Bool(true)])]);
        }
        calls := calls + [Query(op, arguments, clause)];
        return true;
      }
      ok := WriteStatic(op, variant, Arg(arguments, 0), Arg(arguments, 1), Arg(arguments, 2), Arg(arguments, 3));
    }

    /** A write wrapper called with `(conditions, doc, options, callback)`:
        normalise them, write the variant's predicate into the first one and
        pass the list on. `ok` is false when that write throws. */
    method WriteStatic(op: Op, variant: Variant, conditions: JsValue, doc: JsValue, options: JsValue, callback: JsValue)
      returns (ok: bool)
      requires !op.IsRead()
      modifies this
      ensures ok == WriteCall(op, variant, conditions, doc, options, callback).Some?
      ensures calls == old(calls) + Issued(WriteCall(op, variant, conditions, doc, options, callback))
    {
      var args := ParseUpdateArguments(conditions, doc, options, callback);
      var sent := Some(args);
      if variant == Default {
        sent := SetDeleted(args, NeTrue);
      } else if variant == Deleted {
        sent := SetDeleted(args, NeFalse);
      }
      if sent.None? {
        return false;
      }
      calls := calls + [Write(op, sent.value)];
      ok := true;
    }

    /** The static `delete(conditions, deletedBy, callback)`: shift a callback
        passed early, build the payload field by field, and issue a
        multi-document update through `updateWithDeleted`. */
    method Delete(conditions0: JsValue, deletedBy0: JsValue, callback0: JsValue, now: JsValue)
      modifies this
      ensures var s := ShiftActor(conditions0, deletedBy0, callback0);
        var c := WriteCall(Update, if hasUpdateWithDeleted then WithDeleted else Default,
                           s.conditions, DeletePayload(hasDeletedAt, hasDeletedBy, s.actor, now), MultiOptions, s.callback);
        c.Some? && calls == old(calls) + [c.value]
    {
      var conditions, deletedBy, callback := ShiftDeleteArguments(conditions0, deletedBy0, callback0);
      var data := DeleteData(hasDeletedAt, hasDeletedBy, deletedBy, now);
      var variant := if hasUpdateWithDeleted then WithDeleted else Default;
      PayloadUpdateIssued(conditions, data, callback, variant);
      var _ := WriteStatic(Update, variant, conditions, data, MultiOptions, callback);
    }

    /** The static `findByIdAndDelete(id, deletedBy, callback)`: no shifting,
        so a function as `deletedBy` is stored as the actor; the callback is
        never passed on. */
    method FindByIdAndDelete(id: JsValue, deletedBy: JsValue, callback: JsValue, now: JsValue)
      modifies this
      ensures calls == old(calls) + [FindByIdAndUpdate(id, DeletePayload(hasDeletedAt, hasDeletedBy, deletedBy, now))]
    {
      var data := DeleteData(hasDeletedAt, hasDeletedBy, deletedBy, now);
      calls := calls + [FindByIdAndUpdate(id, data)];
    }

    /** The static `findOneAndDelete(conditions, deletedBy, callback)`: as the
        static `delete`; since `updateWithDeleted` exists it too issues a
        multi-document update, and only without it a `findOneAndUpdate`. */
    method FindOneAndDelete(conditions0: JsValue, deletedBy0: JsValue, callback0: JsValue, now: JsValue)
      modifies this
      ensures var s := ShiftActor(conditions0, deletedBy0, callback0);
        var c := if hasUpdateWithDeleted
          then WriteCall(Update, WithDeleted,
                         s.conditions, DeletePayload(hasDeletedAt, hasDeletedBy, s.actor, now), MultiOptions, s.callback)
          else WriteCall(FindOneAndUpdate, Default,
                         s.conditions, DeletePayload(hasDeletedAt, hasDeletedBy, s.actor, now), s.callback, Undefined);
        c.Some? && calls == old(calls) + [c.value]
    {
      var conditions, deletedBy, callback := ShiftDeleteArguments(conditions0, deletedBy0, callback0);
      var data := DeleteData(hasDeletedAt, hasDeletedBy, deletedBy, now);
      ghost var s := ShiftActor(conditions0, deletedBy0, callback0);
      assert conditions == s.conditions && data == DeletePayload(hasDeletedAt, hasDeletedBy, s.actor, now)
        && callback == s.callback;
      if hasUpdateWithDeleted {
        PayloadUpdateIssued(conditions, data, callback, WithDeleted);
        var _ := WriteStatic(Update, WithDeleted, conditions, data, MultiOptions, callback);
      } else {
        FindOneAndUpdateIssued(conditions, data, callback);
        var _ := WriteStatic(FindOneAndUpdate, Default, conditions, data, callback, Undefined);
      }
    }

    /** The static `restore(conditions, callback)`: a multi-document update
        that sets `deleted` false and unsets the other two fields. */
    method Restore(conditions0: JsValue, callback0: JsValue)
      modifies this
      ensures var s := ShiftRestore(conditions0, callback0);
        var c := WriteCall(Update, if hasUpdateWithDeleted then WithDeleted else Default,
                           s.0, RestorePayload, MultiOptions, s.1);
        c.Some? && calls == old(calls) + [c.value]
    {
      var conditions, callback := ShiftRestoreArguments(conditions0, callback0);
      var doc := RestorePayload;
      var variant := if hasUpdateWithDeleted then WithDeleted else Default;
      PayloadUpdateIssued(conditions, doc, callback, variant);
      var _ := WriteStatic(Update, variant, conditions, doc, MultiOptions, callback);
    }
  }

  /** The plugin function: attach the paths to the schema, then build its
      model. Every soft delete of that model stamps `deletedAt`, and records
      the actor exactly when the option `deletedBy` is `true`. */
  method ApplyPlugin(options0: JsValue, typeKey: string) returns (cfg: PluginConfig, model: Model)
    ensures fresh(model) && model.calls == [] && model.hasUpdateWithDeleted
    ensures model.hasDeletedAt
    ensures model.hasDeletedBy <==> Prop(Or(options0, EmptyObject), "deletedBy") == Bool(true)
    ensures HasPath(cfg, "deletedAt") && (model.hasDeletedBy <==> HasPath(cfg, "deletedBy"))
  {
    cfg := Attach(options0, typeKey);
    model := new Model(cfg);
  }
}
