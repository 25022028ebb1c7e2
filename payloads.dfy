/** The update documents the soft-delete and restore operations build, the
    argument shifting in front of them, the pre-save default of `deleted`, and
    what these do to a stored record. */
module Payloads {
  import opened JsValues
  import opened Visibility

  /** `{ multi: true }`, the options of the multi-document updates. */
  const MultiOptions := Obj(map["multi" := Bool(true)])

  /** The arguments of a static delete once a callback passed early has been
      moved to the callback slot. */
  datatype DeleteArgs = DeleteArgs(conditions: JsValue, actor: JsValue, callback: JsValue)

  /** The shifting at the head of the static `delete` and `findOneAndDelete`:
      a function as the actor is the callback (and the actor is null); failing
      that, a function as the conditions is the callback (the conditions are
      `{}`, the actor null). */
  function ShiftActor(conditions: JsValue, deletedBy: JsValue, callback: JsValue): (r: DeleteArgs) {
    if IsFunction(deletedBy) then DeleteArgs(conditions, Null, deletedBy)
    else if IsFunction(conditions) then DeleteArgs(EmptyObject, Null, conditions)
    else DeleteArgs(conditions, deletedBy, callback)
  }

  /** After the shift the actor is never a function; the callback is the first
      function among the actor and the conditions, or the given callback when
      neither is one; a function actor leaves the conditions as they were,
      so they stay a function only when the actor was one too, and function
      conditions moved to the callback become `{}`; and
      arguments without a function pass through unchanged. */
  lemma ShiftActorFindsCallback(conditions: JsValue, deletedBy: JsValue, callback: JsValue)
    ensures var r := ShiftActor(conditions, deletedBy, callback);
      && !IsFunction(r.actor)
      && r.callback == (if IsFunction(deletedBy) then deletedBy else if IsFunction(conditions) then conditions else callback)
      && (IsFunction(deletedBy) ==> r.conditions == conditions)
      && (IsFunction(r.conditions) <==> IsFunction(conditions) && IsFunction(deletedBy))
      && (IsFunction(conditions) && !IsFunction(deletedBy) ==> r.conditions == EmptyObject)
      && (!IsFunction(deletedBy) && !IsFunction(conditions) ==> r == DeleteArgs(conditions, deletedBy, callback))
      && (IsFunction(deletedBy) || IsFunction(conditions) ==> r.actor == Null)
  {
  }

  /** The shifting at the head of the static `delete` and `findOneAndDelete`,
      step by step. */
  method ShiftDeleteArguments(conditions0: JsValue, deletedBy0: JsValue, callback0: JsValue)
    returns (conditions: JsValue, deletedBy: JsValue, callback: JsValue)
    ensures DeleteArgs(conditions, deletedBy, callback) == ShiftActor(conditions0, deletedBy0, callback0)
  {
    conditions, deletedBy, callback := conditions0, deletedBy0, callback0;
    if deletedBy.Func? {
      callback := deletedBy;
      deletedBy := Null;
    } else if conditions.Func? {
      callback := conditions;
      conditions := EmptyObject;
      deletedBy := Null;
    }
  }

  /** The shifting at the head of the static `restore`: a function as the
      conditions is the callback, and the conditions are `{}`; a callback
      given beside function conditions is lost. */
  function ShiftRestore(conditions: JsValue, callback: JsValue): (r: (JsValue, JsValue))
    ensures !IsFunction(r.0)
    ensures r.1 == (if IsFunction(conditions) then conditions else callback)
    ensures IsFunction(conditions) ==> r.0 == EmptyObject
    ensures IsFunction(r.1) <==> IsFunction(conditions) || IsFunction(callback)
    ensures !IsFunction(conditions) ==> r == (conditions, callback)
  {
    if IsFunction(conditions) then (EmptyObject, conditions) else (conditions, callback)
  }

  /** The shifting at the head of the static `restore`, step by step. */
  method ShiftRestoreArguments(conditions0: JsValue, callback0: JsValue) returns (conditions: JsValue, callback: JsValue)
    ensures (conditions, callback) == ShiftRestore(conditions0, callback0)
  {
    conditions, callback := conditions0, callback0;
    if conditions.Func? {
      callback := conditions;
      conditions := EmptyObject;
    }
  }

  /** The soft-delete update document: `deleted` is `true`, `deletedAt` is the
      time of the call when the schema has that path, `deletedBy` is the actor
      when the schema has that path. */
  function DeletePayload(hasDeletedAt: bool, hasDeletedBy: bool, actor: JsValue, now: JsValue): (p: JsValue) {
    Obj(map["deleted" := Bool(true)]
        + (if hasDeletedAt then map["deletedAt" := now] else map[])
        + (if hasDeletedBy then map["deletedBy" := actor] else map[]))
  }

  /** The soft-delete update document, built field by field as the static
      `delete`, `findByIdAndDelete` and `findOneAndDelete` each build it. */
  method DeleteData(hasDeletedAt: bool, hasDeletedBy: bool, deletedBy: JsValue, now: JsValue) returns (data: JsValue)
    ensures data == DeletePayload(hasDeletedAt, hasDeletedBy, deletedBy, now)
  {
    var fields := map["deleted" := Bool(true)];
    if hasDeletedAt {
      fields := fields["deletedAt" := now];
    }
    if hasDeletedBy {
      fields := fields["deletedBy" := deletedBy];
    }
    data := Obj(fields);
  }

  /** The restore update document: `deleted` false, the other two undefined. */
  const RestorePayload := Obj(map["deleted" := Bool(false), "deletedAt" := Undefined, "deletedBy" := Undefined])

  lemma DeletePayloadFields(hasDeletedAt: bool, hasDeletedBy: bool, actor: JsValue, now: JsValue)
    ensures var p := DeletePayload(hasDeletedAt, hasDeletedBy, actor, now);
      && p.Obj? && Truthy(p) && !IsFunction(p)
      && p.props.Keys == {"deleted"} + (if hasDeletedAt then {"deletedAt"} else {})
                                     + (if hasDeletedBy then {"deletedBy"} else {})
      && Prop(p, "deleted") == Bool(true)
      && (hasDeletedAt ==> Prop(p, "deletedAt") == now)
      && (hasDeletedBy ==> Prop(p, "deletedBy") == actor)
  {
  }

  /** The pre-save rule: a falsy `deleted` becomes `false`, a truthy one is
      kept. */
  function SavedDeleted(deleted: JsValue): (saved: JsValue) {
    if Truthy(deleted) then deleted else Bool(false)
  }

  /** After the pre-save hook `deleted` is `false` or a truthy value it already
      had; running the hook again changes nothing. */
  lemma SavedDeletedIdempotent(deleted: JsValue)
    ensures SavedDeleted(deleted) == Bool(false) || (Truthy(deleted) && SavedDeleted(deleted) == deleted)
    ensures Truthy(SavedDeleted(deleted)) == Truthy(deleted)
    ensures SavedDeleted(SavedDeleted(deleted)) == SavedDeleted(deleted)
  {
  }

  /** A stored record, field by field. */
  type Record = map<string, JsValue>

  /** The record's `deleted` value, `undefined` when the field is missing. */
  function DeletedFlag(rec: Record): (flag: JsValue) {
    if "deleted" in rec then rec["deleted"] else Undefined
  }

  /** The effect on a record of an update document that sets fields (the store
      treats a document without operators as a `$set`). */
  function ApplySet(rec: Record, update: JsValue): (r: Record)
    requires update.Obj?
    ensures r.Keys == rec.Keys + update.props.Keys
    ensures forall k :: k in update.props ==> r[k] == update.props[k]
    ensures forall k :: k in rec && k !in update.props ==> r[k] == rec[k]
  {
    rec + update.props
  }

  /** A record soft-deleted by the payload drops out of every default
      variant, is seen by the write `…Deleted` variants and by `…WithDeleted`,
      carries the time and actor where the schema has those paths, and keeps
      every other field. */
  lemma {:induction false} SoftDeleteHides(rec: Record, hasDeletedAt: bool, hasDeletedBy: bool,
                                           actor: JsValue, now: JsValue, op: Op)
    ensures var deleted := ApplySet(rec, DeletePayload(hasDeletedAt, hasDeletedBy, actor, now));
      && DeletedFlag(deleted) == Bool(true)
      && !Matches(VisibilityFilter(op, Default), DeletedFlag(deleted))
      && (!op.IsRead() ==> Matches(VisibilityFilter(op, Deleted), DeletedFlag(deleted)))
      && Matches(VisibilityFilter(op, WithDeleted), DeletedFlag(deleted))
      && (hasDeletedAt ==> deleted["deletedAt"] == now)
      && (hasDeletedBy ==> deleted["deletedBy"] == actor)
      && forall k :: k in rec && k !in {"deleted", "deletedAt", "deletedBy"} ==> deleted[k] == rec[k]
  {
    DeletePayloadFields(hasDeletedAt, hasDeletedBy, actor, now);
  }

  /** Restoring a record, whatever state it was in, brings it back into every
      default variant, out of the write `…Deleted` variants, clears
      `deletedAt` and `deletedBy`, and keeps every other field. */
  lemma {:induction false} RestoreShows(rec: Record, op: Op)
    ensures var restored := ApplySet(rec, RestorePayload);
      && DeletedFlag(restored) == Bool(false)
      && Matches(VisibilityFilter(op, Default), DeletedFlag(restored))
      && (!op.IsRead() ==> !Matches(VisibilityFilter(op, Deleted), DeletedFlag(restored)))
      && restored["deletedAt"] == Undefined && restored["deletedBy"] == Undefined
      && forall k :: k in rec && k !in {"deleted", "deletedAt", "deletedBy"} ==> restored[k] == rec[k]
  {
    assert RestorePayload.props.Keys == {"deleted", "deletedAt", "deletedBy"};
  }
}
