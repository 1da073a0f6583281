/**
 The argument normalisation that opens `Client.prototype.send`: `options`
 may stand in for the callback, a non-plain `options` becomes `{}`, and a
 missing or non-function callback becomes `_.noop`.
 */
module Arguments {
  import opened JsValues

  /** The normalised `(options, callback)` pair that the rest of `send` uses. */
  datatype Args = Args(options: map<string, Js>, callback: Fn)

  /** The three rewrites applied in order: a function `options` is shifted
      into the callback slot, a non-plain `options` is replaced by `{}`, and a
      non-function callback is replaced by `_.noop`. */
  function Normalize(options: Js, callback: Js): (a: Args)
    // a function in the options slot is the callback; the third argument is dropped
    ensures IsFunction(options) ==> a == Args(map[], options.fn)
    ensures !IsFunction(options) && IsPlainObject(options) ==> a.options == options.fields
    ensures !IsFunction(options) && !IsPlainObject(options) ==> a.options == map[]
    ensures !IsFunction(options) && IsFunction(callback) ==> a.callback == callback.fn
    ensures !IsFunction(options) && !IsFunction(callback) ==> a.callback == LodashNoop
  {
    var (options1, callback1) :=
      if IsFunction(options) then (Object(map[]), options) else (options, callback);
    var options2 := if IsPlainObject(options1) then options1 else Object(map[]);
    var callback2 := if IsFunction(callback1) then callback1 else Function(LodashNoop);
    Args(options2.fields, callback2.fn)
  }

  /** Normalising already-normalised arguments changes nothing, so the
      recursive `send` issued on a retry works with the same options and
      callback as the attempt before it. */
  lemma NormalizeIdempotent(options: Js, callback: Js)
    ensures var a := Normalize(options, callback);
            Normalize(Object(a.options), Function(a.callback)) == a
  {
  }
}
