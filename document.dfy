/** A loaded document of a schema with the plugin: its three soft-delete
    fields, the pre-save hook, and the instance `delete` and `restore`. */
module Instance {
  import opened JsValues
  import opened Payloads
  import opened SchemaConfig

  class Document {
    /** Whether the schema has the `deletedAt` and `deletedBy` paths. */
    const hasDeletedAt: bool
    const hasDeletedBy: bool
    var deleted: JsValue
    var deletedAt: JsValue
    var deletedBy: JsValue
    /** The callback passed to each `this.save(...)`, in order. */
    var saves: seq<JsValue>

    /** A document of a schema the plugin was attached to with outcome `cfg`,
        as it is built, before its first save. */
    constructor (cfg: PluginConfig, deleted: JsValue, deletedAt: JsValue, deletedBy: JsValue)
      ensures hasDeletedAt == HasPath(cfg, "deletedAt") && hasDeletedBy == HasPath(cfg, "deletedBy")
      ensures this.deleted == deleted && this.deletedAt == deletedAt && this.deletedBy == deletedBy
      ensures saves == []
    {
      hasDeletedAt := HasPath(cfg, "deletedAt");
      hasDeletedBy := HasPath(cfg, "deletedBy");
      this.deleted := deleted;
      this.deletedAt := deletedAt;
      this.deletedBy := deletedBy;
      saves := [];
    }

    /** The pre-save hook: a falsy `deleted` becomes `false`; nothing else
        changes. */
    method PreSave()
      modifies this
      ensures deleted == SavedDeleted(old(deleted))
      ensures deleted == Bool(false) || (Truthy(old(deleted)) && deleted == old(deleted))
      ensures deletedAt == old(deletedAt) && deletedBy == old(deletedBy) && saves == old(saves)
    {
      if !Truthy(deleted) {
        deleted := Bool(false);
      }
      SavedDeletedIdempotent(old(deleted));
    }

    /** The instance `delete(deletedBy, cb)`: a function as `deletedBy` is the
        callback and the actor is null; mark the document deleted, stamp the
        time and the actor where the schema has those paths, and save. */
    method Delete(deletedBy0: JsValue, cb0: JsValue, now: JsValue)
      modifies this
      ensures var actor := if IsFunction(deletedBy0) then Null else deletedBy0;
        && deleted == Bool(true)
        && deletedAt == (if hasDeletedAt then now else old(deletedAt))
        && deletedBy == (if hasDeletedBy then actor else old(deletedBy))
        && saves == old(saves) + [if IsFunction(deletedBy0) then deletedBy0 else cb0]
    {
      var actor, cb := deletedBy0, cb0;
      if actor.Func? {
        cb := actor;
        actor := Null;
      }
      deleted := Bool(true);
      if hasDeletedAt {
        deletedAt := now;
      }
      if hasDeletedBy {
        deletedBy := actor;
      }
      saves := saves + [cb];
    }

    /** The instance `restore(callback)`: clear the three fields and save. */
    method Restore(callback: JsValue)
      modifies this
      ensures deleted == Bool(false) && deletedAt == Undefined && deletedBy == Undefined
      ensures saves == old(saves) + [callback]
    {
      deleted := Bool(false);
      deletedAt := Undefined;
      deletedBy := Undefined;
      saves := saves + [callback];
    }
  }

  /** A document deleted and then restored is visible again, clean of the
      stamp and the actor, and was saved once by each (with the actor as the
      callback in the `doc.delete(cb)` form); a later save keeps it so. The
      saves inside `Delete` and `Restore` are logged but do not run the
      pre-save hook, which would change nothing there since `deleted` is a
      boolean; the trailing `PreSave` stands for the hook of the next save. */
  method DeleteThenRestore(doc: Document, actor: JsValue, cb: JsValue, now: JsValue)
    modifies doc
    ensures doc.deleted == Bool(false) && doc.deletedAt == Undefined && doc.deletedBy == Undefined
    ensures doc.saves == old(doc.saves) + [if IsFunction(actor) then actor else cb, cb]
  {
    doc.Delete(actor, cb, now);
    doc.Restore(cb);
    doc.PreSave();
  }
}
