/** The visibility filters the wrapped statics inject: for each of `count`,
    `find`, `findOne`, `findOneAndUpdate` and `update`, the default variant,
    the `…Deleted` variant and the `…WithDeleted` variant. */
module Visibility {
  import opened JsValues

  datatype Op = Count | Find | FindOne | FindOneAndUpdate | Update {
    /** Read-shaped operations compose a `where` clause onto the query; the
        others write the filter into their first normalised argument. */
    predicate IsRead() {
      this == Count || this == Find || this == FindOne
    }
  }

  datatype Variant = Default | Deleted | WithDeleted

  /** The predicate on a record's `deleted` value: `{$ne: true}` or `{$ne: false}`. */
  datatype DeletedPredicate = NeTrue | NeFalse {
    /** The operand of `$ne`. */
    function Excluded(): bool {
      this == NeTrue
    }
  }

  /** The query value `{$ne: b}`. */
  function PredicateValue(p: DeletedPredicate): (clause: JsValue) {
    Obj(map["$ne" := Bool(p.Excluded())])
  }

  /** The inverse of `PredicateValue`: which predicate a `deleted` clause
      states, if it is one of the two. */
  function PredicateOf(clause: JsValue): (p: Option<DeletedPredicate>)
    ensures p.Some? ==> PredicateValue(p.value) == clause
  {
    if clause == PredicateValue(NeTrue) then Some(NeTrue)
    else if clause == PredicateValue(NeFalse) then Some(NeFalse)
    else None
  }

  /** The predicate each wrapper variant injects, as the source has it: the
      read `…Deleted` variant injects the same `$ne: true` as the default one,
      the write `…Deleted` variant injects `$ne: false`, and `…WithDeleted`
      injects nothing. */
  function VisibilityFilter(op: Op, variant: Variant): (p: Option<DeletedPredicate>) {
    match variant
    case Default => Some(NeTrue)
    case Deleted => if op.IsRead() then Some(NeTrue) else Some(NeFalse)
    case WithDeleted => None
  }

  /** Whether a stored record whose `deleted` value is `deleted` (`Undefined`
      when the field is missing) satisfies the injected predicate, with the
      store's `$ne` semantics: a missing field is "not equal". */
  predicate Matches(p: Option<DeletedPredicate>, deleted: JsValue) {
    match p
    case None => true
    case Some(q) => deleted != Bool(q.Excluded())
  }

  /** The clause a read wrapper passes to `.where(...)`. */
  function WhereClause(variant: Variant): (w: JsValue)
    ensures w.Obj?
  {
    if variant == WithDeleted then EmptyObject
    else Obj(map["deleted" := PredicateValue(NeTrue)])
  }

  /** A write wrapper's `args[0].deleted = value`: `None` when `args` is empty,
      where the source's `args[0]` is `undefined` and the assignment throws. */
  function InjectFilter(args: seq<JsValue>, p: Option<DeletedPredicate>): (sent: Option<seq<JsValue>>) {
    match p
    case None => Some(args)
    case Some(q) =>
      if args == [] then None
      else Some(args[0 := SetProp(args[0], "deleted", PredicateValue(q))])
  }

  /** Decoding the `where` clause of a read wrapper gives back the predicate
      the variant injects; `…WithDeleted` passes the empty clause. */
  lemma WhereClauseStatesFilter(op: Op, variant: Variant)
    requires op.IsRead()
    ensures variant != WithDeleted ==>
      "deleted" in WhereClause(variant).props
      && WhereClause(variant).props.Keys == {"deleted"}
      && PredicateOf(WhereClause(variant).props["deleted"]) == VisibilityFilter(op, variant)
    ensures variant == WithDeleted ==> WhereClause(variant) == EmptyObject && VisibilityFilter(op, variant) == None
  {
    assert PredicateValue(NeTrue) != PredicateValue(NeFalse) by {
      assert PredicateValue(NeTrue).props["$ne"] != PredicateValue(NeFalse).props["$ne"];
    }
  }

  /** The read `…Deleted` wrappers issue the very same query as the default
      ones, so no read wrapper returns a record whose `deleted` is `true`
      except `…WithDeleted`. */
  lemma ReadDeletedVariantHidesDeleted(op: Op)
    requires op.IsRead()
    ensures WhereClause(Deleted) == WhereClause(Default)
    ensures !Matches(VisibilityFilter(op, Default), Bool(true))
    ensures !Matches(VisibilityFilter(op, Deleted), Bool(true))
    ensures Matches(VisibilityFilter(op, WithDeleted), Bool(true))
  {
  }

  /** The default variant of every operation keeps exactly the records whose
      `deleted` is not `true`, a subset of what `…WithDeleted` keeps. */
  lemma DefaultHidesExactlyDeleted(op: Op, deleted: JsValue)
    ensures Matches(VisibilityFilter(op, Default), deleted) <==> deleted != Bool(true)
    ensures Matches(VisibilityFilter(op, Default), deleted) ==> Matches(VisibilityFilter(op, WithDeleted), deleted)
  {
  }

  /** For the write wrappers the default and `…Deleted` variants together
      cover every record, and overlap exactly on records whose `deleted` is
      not a boolean (missing, or some legacy value). */
  lemma WriteVariantsCoverAll(op: Op, deleted: JsValue)
    requires !op.IsRead()
    ensures Matches(VisibilityFilter(op, Default), deleted) || Matches(VisibilityFilter(op, Deleted), deleted)
    ensures Matches(VisibilityFilter(op, Default), deleted) && Matches(VisibilityFilter(op, Deleted), deleted)
      <==> !deleted.Bool?
  {
  }

  /** Injecting a predicate writes it as the `deleted` property of the first
      argument when that is an object or a function, keeps its other
      properties, and leaves the rest of the list alone; a primitive first
      argument silently keeps its value; an empty list throws. */
  lemma {:induction false} InjectFilterLands(args: seq<JsValue>, q: DeletedPredicate)
    ensures InjectFilter(args, Some(q)).Some? <==> args != []
    ensures args != [] ==>
      var r := InjectFilter(args, Some(q)).value;
      && |r| == |args| && r[1..] == args[1..]
      && ((args[0].Obj? || args[0].Func?) ==>
            && PredicateOf(Prop(r[0], "deleted")) == Some(q)
            && forall k :: k != "deleted" ==> Prop(r[0], k) == Prop(args[0], k))
      && ((args[0].Bool? || args[0].Num? || args[0].Str?) ==> r == args)
    ensures InjectFilter(args, None) == Some(args)
  {
    if args != [] {
      var r := InjectFilter(args, Some(q)).value;
      if args[0].Obj? || args[0].Func? {
        assert Prop(r[0], "deleted") == PredicateValue(q);
        assert PredicateValue(NeTrue) != PredicateValue(NeFalse) by {
          assert PredicateValue(NeTrue).props["$ne"] != PredicateValue(NeFalse).props["$ne"];
        }
        forall k | k != "deleted"
          ensures Prop(r[0], k) == Prop(args[0], k)
        {
          SetPropKeepsOthers(args[0], "deleted", PredicateValue(q), k);
        }
      }
    }
  }
}
