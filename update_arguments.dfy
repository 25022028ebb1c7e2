/** `parseUpdateArguments`: the normaliser for the call shapes of the
    update-style statics, `(cb)`, `(doc)`, `(doc, cb)`, `(cond, doc, cb)` and
    `(cond, doc, opts, cb)`. */
module UpdateArguments {
  import opened JsValues

  /** The values of `xs` that are truthy, in their order: what a run of
      `if (x) args.push(x)` over `xs` leaves in `args`. */
  function Compact(xs: seq<JsValue>): (ys: seq<JsValue>) {
    if xs == [] then []
    else
      var last := xs[|xs| - 1];
      Compact(xs[..|xs| - 1]) + (if Truthy(last) then [last] else [])
  }

  /** The positions of the truthy values of `xs`, in increasing order. */
  function TruthyPositions(xs: seq<JsValue>): (idx: seq<nat>)
    ensures forall k :: 0 <= k < |idx| ==> idx[k] < |xs| && Truthy(xs[idx[k]])
    ensures forall k, l :: 0 <= k < l < |idx| ==> idx[k] < idx[l]
    ensures forall i :: 0 <= i < |xs| && Truthy(xs[i]) ==> i in idx
  {
    if xs == [] then []
    else
      var n := |xs| - 1;
      TruthyPositions(xs[..n]) + (if Truthy(xs[n]) then [n] else [])
  }

  /** `Compact` keeps exactly the truthy values, each once, and in the order of
      their positions: element `k` of the result is the value at the `k`-th
      truthy position. */
  lemma {:induction false} CompactKeepsTruthyInOrder(xs: seq<JsValue>)
    ensures |Compact(xs)| == |TruthyPositions(xs)|
    ensures forall k :: 0 <= k < |Compact(xs)| ==> Compact(xs)[k] == xs[TruthyPositions(xs)[k]]
  {
    if xs != [] {
      var n := |xs| - 1;
      CompactKeepsTruthyInOrder(xs[..n]);
      assert forall i :: 0 <= i < n ==> xs[..n][i] == xs[i];
    }
  }

  /** `Compact` keeps only truthy values of `xs` and never lengthens it. */
  lemma {:induction false} CompactKeepsOnlyTruthy(xs: seq<JsValue>)
    ensures |Compact(xs)| <= |xs|
    ensures forall k :: 0 <= k < |Compact(xs)| ==> Truthy(Compact(xs)[k]) && Compact(xs)[k] in xs
  {
    if xs != [] {
      var n := |xs| - 1;
      CompactKeepsOnlyTruthy(xs[..n]);
      assert forall v :: v in xs[..n] ==> v in xs;
    }
  }

  /** `Compact` on the four slots, pushed one after the other. */
  lemma {:induction false} CompactFour(a: JsValue, b: JsValue, c: JsValue, d: JsValue)
    ensures Compact([a, b, c, d]) ==
      (if Truthy(a) then [a] else []) + (if Truthy(b) then [b] else [])
      + (if Truthy(c) then [c] else []) + (if Truthy(d) then [d] else [])
  {
    assert [a, b, c, d][..3] == [a, b, c];
    assert [a, b, c][..2] == [a, b];
    assert [a, b][..1] == [a];
    assert [a][..0] == [];
    assert Compact([a]) == (if Truthy(a) then [a] else []);
    assert Compact([a, b]) == Compact([a]) + (if Truthy(b) then [b] else []);
    assert Compact([a, b, c]) == Compact([a, b]) + (if Truthy(c) then [c] else []);
  }

  /** Which call shape the normaliser recognises, tested in the source's order. */
  datatype CallShape =
    | ConditionsDocCallback    // function in the options slot
    | DocCallback              // function in the doc slot
    | CallbackOnly             // function in the conditions slot
    | DocOnly                  // one value of type "object", nothing else truthy
    | Positional

  function Shape(conditions: JsValue, doc: JsValue, options: JsValue, callback: JsValue): (shape: CallShape) {
    if IsFunction(options) then ConditionsDocCallback
    else if IsFunction(doc) then DocCallback
    else if IsFunction(conditions) then CallbackOnly
    else if IsObjectType(conditions) && !Truthy(doc) && !Truthy(options) && !Truthy(callback) then DocOnly
    else Positional
  }

  /** The four slots `[conditions, doc, options, callback]` once the call shape
      has been resolved. */
  function Slots(conditions: JsValue, doc: JsValue, options: JsValue, callback: JsValue): (s: seq<JsValue>)
    ensures |s| == 4
  {
    match Shape(conditions, doc, options, callback)
    case ConditionsDocCallback => [conditions, doc, Null, options]
    case DocCallback => [EmptyObject, conditions, Null, doc]
    case CallbackOnly => [Undefined, Undefined, Undefined, conditions]
    case DocOnly => [Undefined, conditions, Undefined, Undefined]
    case Positional => [conditions, doc, options, callback]
  }

  /** The argument list `parseUpdateArguments` returns. */
  function NormalizedArgs(conditions: JsValue, doc: JsValue, options: JsValue, callback: JsValue): (args: seq<JsValue>) {
    Compact(Slots(conditions, doc, options, callback))
  }

  /** The first half of the normaliser: reassign the four parameters for the
      recognised call shape. */
  method ResolveCallShape(conditions0: JsValue, doc0: JsValue, options0: JsValue, callback0: JsValue)
    returns (conditions: JsValue, doc: JsValue, options: JsValue, callback: JsValue)
    ensures [conditions, doc, options, callback] == Slots(conditions0, doc0, options0, callback0)
  {
    conditions, doc, options, callback := conditions0, doc0, options0, callback0;
    if options.Func? {
      callback := options;
      options := Null;
    } else if doc.Func? {
      callback := doc;
      doc := conditions;
      conditions := EmptyObject;
      options := Null;
    } else if conditions.Func? {
      callback := conditions;
      conditions := Undefined;
      doc := Undefined;
      options := Undefined;
    } else if IsObjectType(conditions) && !Truthy(doc) && !Truthy(options) && !Truthy(callback) {
      doc := conditions;
      conditions := Undefined;
      options := Undefined;
      callback := Undefined;
    }
  }

  /** The normalised list is the truthy slots pushed one by one. */
  lemma {:induction false} NormalizedArgsPushed(conditions0: JsValue, doc0: JsValue, options0: JsValue, callback0: JsValue,
                                                conditions: JsValue, doc: JsValue, options: JsValue, callback: JsValue)
    requires [conditions, doc, options, callback] == Slots(conditions0, doc0, options0, callback0)
    ensures NormalizedArgs(conditions0, doc0, options0, callback0)
      == (if Truthy(conditions) then [conditions] else []) + (if Truthy(doc) then [doc] else [])
         + (if Truthy(options) then [options] else []) + (if Truthy(callback) then [callback] else [])
  {
    CompactFour(conditions, doc, options, callback);
  }

  /** `if (x) args.push(x)` */
  method PushIfTruthy(args0: seq<JsValue>, x: JsValue) returns (args: seq<JsValue>)
    ensures args == args0 + (if Truthy(x) then [x] else [])
  {
    args := args0;
    if Truthy(x) {
      args := args + [x];
    }
  }

  /** The normaliser: resolve the call shape, then push the truthy slots in
      the order conditions, doc, options, callback. */
  method ParseUpdateArguments(conditions0: JsValue, doc0: JsValue, options0: JsValue, callback0: JsValue)
    returns (args: seq<JsValue>)
    ensures args == NormalizedArgs(conditions0, doc0, options0, callback0)
  {
    var conditions, doc, options, callback := ResolveCallShape(conditions0, doc0, options0, callback0);
    args := [];
    args := PushIfTruthy(args, conditions);
    assert args == (if Truthy(conditions) then [conditions] else []);
    args := PushIfTruthy(args, doc);
    args := PushIfTruthy(args, options);
    args := PushIfTruthy(args, callback);
    NormalizedArgsPushed(conditions0, doc0, options0, callback0, conditions, doc, options, callback);
  }

  /** `(cond, doc, cb)`: a function in the options slot becomes the callback,
      the options slot is nulled (so omitted) and a fourth argument is lost. */
  lemma {:induction false} ConditionsDocCallbackShape(conditions: JsValue, doc: JsValue, fn: JsValue, ignored: JsValue)
    requires IsFunction(fn) && Truthy(conditions) && Truthy(doc)
    ensures NormalizedArgs(conditions, doc, fn, ignored) == [conditions, doc, fn]
  {
    CompactFour(conditions, doc, Null, fn);
  }

  /** `(doc, cb)`: the conditions become `{}` and the first argument the doc. */
  lemma {:induction false} DocCallbackShape(doc: JsValue, fn: JsValue, options: JsValue, ignored: JsValue)
    requires IsFunction(fn) && !IsFunction(options) && Truthy(doc)
    ensures NormalizedArgs(doc, fn, options, ignored) == [EmptyObject, doc, fn]
  {
    CompactFour(EmptyObject, doc, Null, fn);
  }

  /** `(cb)`: only the callback is passed on, whatever follows it. */
  lemma {:induction false} CallbackOnlyShape(fn: JsValue, doc: JsValue, options: JsValue, ignored: JsValue)
    requires IsFunction(fn) && !IsFunction(doc) && !IsFunction(options)
    ensures NormalizedArgs(fn, doc, options, ignored) == [fn]
  {
    CompactFour(Undefined, Undefined, Undefined, fn);
  }

  /** `(doc)`: a lone value of type "object" is passed on as the only argument;
      a lone `null` leaves the list empty. */
  lemma {:induction false} DocOnlyShape(v: JsValue, doc: JsValue, options: JsValue, callback: JsValue)
    requires IsObjectType(v) && !Truthy(doc) && !Truthy(options) && !Truthy(callback)
    ensures NormalizedArgs(v, doc, options, callback) == (if v == Null then [] else [v])
  {
    CompactFour(Undefined, v, Undefined, Undefined);
  }

  /** `(cond, doc, opts, cb)` with no function before the last slot: all four
      are passed through unchanged. */
  lemma {:induction false} PositionalShape(conditions: JsValue, doc: JsValue, options: JsValue, callback: JsValue)
    requires !IsFunction(conditions) && !IsFunction(doc) && !IsFunction(options)
    requires Truthy(conditions) && Truthy(doc) && Truthy(options) && Truthy(callback)
    ensures NormalizedArgs(conditions, doc, options, callback) == [conditions, doc, options, callback]
  {
    CompactFour(conditions, doc, options, callback);
  }

  /** With an object in the doc and options slots, as the statics that build
      their own update document pass, the list is those two between the
      truthy conditions and the truthy callback; only a function as the
      conditions wins over them, and is then passed on alone. */
  lemma {:induction false} ObjectDocAndOptions(conditions: JsValue, doc: JsValue, options: JsValue, callback: JsValue)
    requires doc.Obj? && options.Obj?
    ensures NormalizedArgs(conditions, doc, options, callback) ==
      if IsFunction(conditions) then [conditions]
      else (if Truthy(conditions) then [conditions] else []) + [doc, options]
           + (if Truthy(callback) then [callback] else [])
  {
    if IsFunction(conditions) {
      assert Slots(conditions, doc, options, callback) == [Undefined, Undefined, Undefined, conditions];
      CompactFour(Undefined, Undefined, Undefined, conditions);
    } else {
      assert Shape(conditions, doc, options, callback) == Positional;
      CompactFour(conditions, doc, options, callback);
    }
  }

  /** With an object in the doc slot and nothing in the fourth, as the
      fallback `findOneAndUpdate(conditions, doc, callback)` passes, the list
      is never empty. */
  lemma {:induction false} ObjectDocNotEmpty(conditions: JsValue, doc: JsValue, callback: JsValue)
    requires doc.Obj?
    ensures NormalizedArgs(conditions, doc, callback, Undefined) != []
  {
    match Shape(conditions, doc, callback, Undefined)
    case ConditionsDocCallback => CompactFour(conditions, doc, Null, callback);
    case CallbackOnly => CompactFour(Undefined, Undefined, Undefined, conditions);
    case Positional => CompactFour(conditions, doc, callback, Undefined);
  }

  /** The normalised list holds exactly the truthy resolved slots, in the
      order conditions, doc, options, callback: no gaps, no padding. */
  lemma NormalizedArgsInSlotOrder(conditions: JsValue, doc: JsValue, options: JsValue, callback: JsValue)
    ensures var s := Slots(conditions, doc, options, callback);
      var args := NormalizedArgs(conditions, doc, options, callback);
      var idx := TruthyPositions(s);
      |args| == |idx| <= 4
      && (forall k :: 0 <= k < |args| ==> idx[k] < 4 && args[k] == s[idx[k]] && Truthy(args[k]))
      && (forall k, l :: 0 <= k < l < |idx| ==> idx[k] < idx[l])
      && (forall i :: 0 <= i < 4 && Truthy(s[i]) ==> i in idx)
  {
    CompactKeepsTruthyInOrder(Slots(conditions, doc, options, callback));
    CompactKeepsOnlyTruthy(Slots(conditions, doc, options, callback));
  }

  /** The normalised list is empty exactly when all four arguments are falsy:
      every recognised call shape keeps at least the value it recognised. */
  lemma {:induction false} NormalizedArgsEmpty(conditions: JsValue, doc: JsValue, options: JsValue, callback: JsValue)
    ensures NormalizedArgs(conditions, doc, options, callback) == []
      <==> !Truthy(conditions) && !Truthy(doc) && !Truthy(options) && !Truthy(callback)
  {
    match Shape(conditions, doc, options, callback)
    case ConditionsDocCallback => CompactFour(conditions, doc, Null, options);
    case DocCallback => CompactFour(EmptyObject, conditions, Null, doc);
    case CallbackOnly => CompactFour(Undefined, Undefined, Undefined, conditions);
    case DocOnly => CompactFour(Undefined, conditions, Undefined, Undefined);
    case Positional => CompactFour(conditions, doc, options, callback);
  }
}
