/**
 * Replaying recorded WebGL commands: decoding serialized arguments against the per-context table
 * of WebGL variables and the image cache, recording returned WebGL variables, and applying one
 * command. Host objects (contexts, images, constructed values, decoded buffers) are opaque
 * handles; what a WebGL call returns or whether it throws arrives as a parameter.
 */
module WebGLReplay {
  import opened Wrappers
  import opened CanvasTypes

  /** A WebGL rendering context, by identity. */
  type Ctx = nat

  /** A replay-side value. */
  datatype Value =
    | Plain(arg: SerializedArg)                  // a value handed back as it arrived
    | Arr(items: seq<Value>)
    | Constructed(ctorName: string, args: seq<Value>)  // `new window[name](...args)`
    | Decoded(base64: string)                    // `decode(base64)`
    | Image(handle: nat, src: string)            // an `Image` created for `src`
    | HostObject(handle: nat, ctorName: string)  // an object a WebGL call returned
    | Undefined

  const WebGLVariableConstructorsNames: seq<string> := [
    "WebGLActiveInfo", "WebGLBuffer", "WebGLFramebuffer", "WebGLProgram", "WebGLRenderbuffer",
    "WebGLShader", "WebGLShaderPrecisionFormat", "WebGLTexture", "WebGLUniformLocation",
    "WebGLVertexArrayObject"]

  type VarMap = map<Ctx, map<string, seq<Value>>>

  /** The replay caches a decode reads and extends: the variable table, the image map, the next image handle. */
  datatype Caches = Caches(varMap: VarMap, imageMap: map<string, Value>, nextImage: nat)

  /** The list `variableListFor` returns: the stored one, or a new empty one. */
  function ListIn(m: VarMap, ctx: Ctx, ctor: string): seq<Value> {
    if ctx in m && ctor in m[ctx] then m[ctx][ctor] else []
  }

  /** `variableListFor` on the table: create the context's map and the constructor's list when missing. */
  function EnsureList(m: VarMap, ctx: Ctx, ctor: string): (r: VarMap)
    ensures ctx in r && ctor in r[ctx] && r[ctx][ctor] == ListIn(m, ctx, ctor)
    ensures forall c :: c in m ==> c in r && forall n :: n in m[c] ==> n in r[c] && r[c][n] == m[c][n]
    ensures forall c :: c in r ==> c in m || c == ctx
    ensures forall c :: c in r ==> forall n :: n in r[c] ==> (c in m && n in m[c]) || (c == ctx && n == ctor)
  {
    var contextMap := if ctx in m then m[ctx] else map[];
    if ctor in contextMap then m[ctx := contextMap] else m[ctx := contextMap[ctor := []]]
  }

  /** Get-or-create: asking again returns the same list and changes nothing. */
  lemma EnsureListIdempotent(m: VarMap, ctx: Ctx, ctor: string)
    ensures EnsureList(EnsureList(m, ctx, ctor), ctx, ctor) == EnsureList(m, ctx, ctor)
    ensures ListIn(EnsureList(m, ctx, ctor), ctx, ctor) == ListIn(m, ctx, ctor)
  {
  }

  /** Every list in the table is free of duplicates. */
  ghost predicate ListsDistinct(m: VarMap) {
    forall c, n :: c in m && n in m[c] ==> NoDups(m[c][n])
  }

  /** `saveToWebGLVarMap`: record a returned WebGL variable in its constructor's list unless present. */
  function SaveResult(m: VarMap, ctx: Ctx, result: Value): (r: VarMap)
    ensures result.HostObject? && result.ctorName in WebGLVariableConstructorsNames ==>
      var list := ListIn(m, ctx, result.ctorName);
      ctx in r && result.ctorName in r[ctx] &&
      r[ctx][result.ctorName] == (if result in list then list else list + [result])
    ensures !(result.HostObject? && result.ctorName in WebGLVariableConstructorsNames) ==> r == m
  {
    if !result.HostObject? then m
    else if result.ctorName !in WebGLVariableConstructorsNames then m
    else
      var m1 := EnsureList(m, ctx, result.ctorName);
      var variables := m1[ctx][result.ctorName];
      if result in variables then m1 else m1[ctx := m1[ctx][result.ctorName := variables + [result]]]
  }

  /** Recording results never creates a duplicate entry. */
  lemma SaveResultKeepsDistinct(m: VarMap, ctx: Ctx, result: Value)
    requires ListsDistinct(m)
    ensures ListsDistinct(SaveResult(m, ctx, result))
  {
    var r := SaveResult(m, ctx, result);
    if result.HostObject? && result.ctorName in WebGLVariableConstructorsNames {
      var m1 := EnsureList(m, ctx, result.ctorName);
      assert ListsDistinct(m1);
      forall c, n | c in r && n in r[c] ensures NoDups(r[c][n]) {
        if c == ctx && n == result.ctorName {
          var list := m1[ctx][n];
          if result !in list {
            assert r[c][n] == list + [result];
            forall i, j | 0 <= i < j < |list + [result]| ensures (list + [result])[i] != (list + [result])[j] {
              if j == |list| {
                assert (list + [result])[i] == list[i];
              }
            }
          }
        }
      }
    }
  }

  // ----- deserializeArg -----

  /** The decoded value of `arg` and the caches after decoding it. */
  function Deserialize(st: Caches, ctx: Ctx, arg: SerializedArg): (r: (Value, Caches))
    decreases arg, 1
    ensures r.1.nextImage >= st.nextImage
    ensures forall s :: s in st.imageMap ==> s in r.1.imageMap && r.1.imageMap[s] == st.imageMap[s]
  {
    match arg
    case ArgIndexed(name, index) =>
      var list := ListIn(st.varMap, ctx, name);
      (if 0 <= index < |list| then list[index] else Undefined, st.(varMap := EnsureList(st.varMap, ctx, name)))
    case ArgConstructed(name, args) =>
      var (vs, st1) := DeserializeAll(st, ctx, args);
      (Constructed(name, vs), st1)
    case ArgBase64(_, base64) => (Decoded(base64), st)
    case ArgImage(_, src) =>
      if src in st.imageMap then (st.imageMap[src], st)
      else
        var image := Image(st.nextImage, src);
        (image, st.(imageMap := st.imageMap[src := image], nextImage := st.nextImage + 1))
    case ArgArray(items) =>
      var (vs, st1) := DeserializeAll(st, ctx, items);
      (Arr(vs), st1)
    case _ => (Plain(arg), st)
  }

  /** `args.map(deserializeArg(imageMap, ctx))`, left to right. */
  function DeserializeAll(st: Caches, ctx: Ctx, args: seq<SerializedArg>): (r: (seq<Value>, Caches))
    decreases args, 0
    ensures |r.0| == |args|
    ensures r.1.nextImage >= st.nextImage
    ensures forall s :: s in st.imageMap ==> s in r.1.imageMap && r.1.imageMap[s] == st.imageMap[s]
  {
    if args == [] then ([], st)
    else
      var (v, st1) := Deserialize(st, ctx, args[0]);
      var (vs, st2) := DeserializeAll(st1, ctx, args[1..]);
      ([v] + vs, st2)
  }

  /**
   * Value `i` of a decoded list is argument `i` decoded against the caches the earlier arguments
   * left, and the final caches are those after the whole prefix.
   */
  lemma {:induction false} DeserializeAllElementwise(st: Caches, ctx: Ctx, args: seq<SerializedArg>)
    ensures forall i :: 0 <= i < |args| ==>
      DeserializeAll(st, ctx, args).0[i] == Deserialize(DeserializeAll(st, ctx, args[..i]).1, ctx, args[i]).0
    ensures DeserializeAll(st, ctx, args[..|args|]).1 == DeserializeAll(st, ctx, args).1
    decreases |args|
  {
    assert args[..|args|] == args;
    if args != [] {
      var st1 := Deserialize(st, ctx, args[0]).1;
      var tail := args[1..];
      DeserializeAllElementwise(st1, ctx, tail);
      forall i | 0 <= i < |args|
        ensures DeserializeAll(st, ctx, args).0[i] == Deserialize(DeserializeAll(st, ctx, args[..i]).1, ctx, args[i]).0
      {
        if i == 0 {
          assert args[..0] == [];
        } else {
          assert args[..i][0] == args[0];
          assert args[..i][1..] == tail[..i - 1];
          assert tail[i - 1] == args[i];
        }
      }
    }
  }

  /**
   * The four remaining shapes: `{rr_type, args}` constructs from the decoded arguments, an array
   * decodes elementwise, `{rr_type, base64}` is decoded without touching the caches, and any other
   * `rr_type` object comes back as it was.
   */
  lemma DeserializeShapes(st: Caches, ctx: Ctx, arg: SerializedArg)
    ensures arg.ArgConstructed? ==>
      Deserialize(st, ctx, arg) == (Constructed(arg.rrType, DeserializeAll(st, ctx, arg.args).0), DeserializeAll(st, ctx, arg.args).1)
    ensures arg.ArgArray? ==>
      Deserialize(st, ctx, arg) == (Arr(DeserializeAll(st, ctx, arg.items).0), DeserializeAll(st, ctx, arg.items).1)
    ensures arg.ArgBase64? ==> Deserialize(st, ctx, arg) == (Decoded(arg.base64), st)
    ensures arg.ArgTaggedOther? ==> Deserialize(st, ctx, arg) == (Plain(arg), st)
  {
  }

  /**
   * The "complex objects" case: an array holding a DataView over a constructed ArrayBuffer, then
   * two numbers, decodes elementwise and leaves the caches alone.
   */
  lemma ComplexObjectDecoded(st: Caches, ctx: Ctx)
    ensures Deserialize(st, ctx, ArgArray([
        ArgConstructed("DataView", [ArgConstructed("ArrayBuffer", [ArgNumber(16)]), ArgNumber(0), ArgNumber(16)]),
        ArgNumber(5), ArgNumber(6)])) ==
      (Arr([Constructed("DataView", [Constructed("ArrayBuffer", [Plain(ArgNumber(16))]), Plain(ArgNumber(0)), Plain(ArgNumber(16))]),
            Plain(ArgNumber(5)), Plain(ArgNumber(6))]), st)
  {
    var buffer := ArgConstructed("ArrayBuffer", [ArgNumber(16)]);
    var bufferValue := Constructed("ArrayBuffer", [Plain(ArgNumber(16))]);
    var view := ArgConstructed("DataView", [buffer, ArgNumber(0), ArgNumber(16)]);
    var viewValue := Constructed("DataView", [bufferValue, Plain(ArgNumber(0)), Plain(ArgNumber(16))]);
    DecodeCons(st, ctx, ArgNumber(16), [], Plain(ArgNumber(16)), []);
    assert [ArgNumber(16)] + [] == [ArgNumber(16)] && [Plain(ArgNumber(16))] + [] == [Plain(ArgNumber(16))];
    DecodeCons(st, ctx, ArgNumber(0), [ArgNumber(16)], Plain(ArgNumber(0)), [Plain(ArgNumber(16))]);
    assert [ArgNumber(0)] + [ArgNumber(16)] == [ArgNumber(0), ArgNumber(16)];
    assert [Plain(ArgNumber(0))] + [Plain(ArgNumber(16))] == [Plain(ArgNumber(0)), Plain(ArgNumber(16))];
    DecodeCons(st, ctx, buffer, [ArgNumber(0), ArgNumber(16)], bufferValue, [Plain(ArgNumber(0)), Plain(ArgNumber(16))]);
    assert [buffer] + [ArgNumber(0), ArgNumber(16)] == [buffer, ArgNumber(0), ArgNumber(16)];
    assert [bufferValue] + [Plain(ArgNumber(0)), Plain(ArgNumber(16))] == [bufferValue, Plain(ArgNumber(0)), Plain(ArgNumber(16))];
    DecodeCons(st, ctx, ArgNumber(6), [], Plain(ArgNumber(6)), []);
    assert [ArgNumber(6)] + [] == [ArgNumber(6)] && [Plain(ArgNumber(6))] + [] == [Plain(ArgNumber(6))];
    DecodeCons(st, ctx, ArgNumber(5), [ArgNumber(6)], Plain(ArgNumber(5)), [Plain(ArgNumber(6))]);
    assert [ArgNumber(5)] + [ArgNumber(6)] == [ArgNumber(5), ArgNumber(6)];
    assert [Plain(ArgNumber(5))] + [Plain(ArgNumber(6))] == [Plain(ArgNumber(5)), Plain(ArgNumber(6))];
    DecodeCons(st, ctx, view, [ArgNumber(5), ArgNumber(6)], viewValue, [Plain(ArgNumber(5)), Plain(ArgNumber(6))]);
    assert [view] + [ArgNumber(5), ArgNumber(6)] == [view, ArgNumber(5), ArgNumber(6)];
    assert [viewValue] + [Plain(ArgNumber(5)), Plain(ArgNumber(6))] == [viewValue, Plain(ArgNumber(5)), Plain(ArgNumber(6))];
  }

  /** One step of the left-to-right decode, for arguments that leave the caches alone. */
  lemma DecodeCons(st: Caches, ctx: Ctx, x: SerializedArg, xs: seq<SerializedArg>, v: Value, vs: seq<Value>)
    requires Deserialize(st, ctx, x) == (v, st)
    requires DeserializeAll(st, ctx, xs) == (vs, st)
    ensures DeserializeAll(st, ctx, [x] + xs) == ([v] + vs, st)
  {
    assert ([x] + xs)[0] == x && ([x] + xs)[1..] == xs;
  }

  /** The caches only grow: no list or image is ever changed or dropped, handles only increase. */
  ghost predicate Grows(a: Caches, b: Caches) {
    (forall c :: c in a.varMap ==>
      c in b.varMap && forall n :: n in a.varMap[c] ==> n in b.varMap[c] && b.varMap[c][n] == a.varMap[c][n]) &&
    (forall s :: s in a.imageMap ==> s in b.imageMap && b.imageMap[s] == a.imageMap[s]) &&
    a.nextImage <= b.nextImage
  }

  lemma {:induction false} DeserializeGrows(st: Caches, ctx: Ctx, arg: SerializedArg)
    ensures Grows(st, Deserialize(st, ctx, arg).1)
    decreases arg, 1
  {
    match arg
    case ArgConstructed(name, args) => DeserializeAllGrows(st, ctx, args);
    case ArgArray(items) => DeserializeAllGrows(st, ctx, items);
    case _ =>
  }

  lemma {:induction false} DeserializeAllGrows(st: Caches, ctx: Ctx, args: seq<SerializedArg>)
    ensures Grows(st, DeserializeAll(st, ctx, args).1)
    decreases args, 0
  {
    if args != [] {
      var st1 := Deserialize(st, ctx, args[0]).1;
      DeserializeGrows(st, ctx, args[0]);
      DeserializeAllGrows(st1, ctx, args[1..]);
    }
  }

  /** `{rr_type, index}` is element `index` of that type's list (undefined when out of range). */
  lemma IndexedLooksUpList(st: Caches, ctx: Ctx, name: string, index: int)
    ensures var (v, st1) := Deserialize(st, ctx, ArgIndexed(name, index));
      var list := ListIn(st.varMap, ctx, name);
      v == (if 0 <= index < |list| then list[index] else Undefined) &&
      st1.imageMap == st.imageMap && ctx in st1.varMap && name in st1.varMap[ctx]
  {
  }

  /**
   * `{rr_type, src}` answers the cached image when there is one; otherwise it creates a new image,
   * caches it under `src`, and a second decode of the same argument returns that same image.
   */
  lemma ImageCachedBySrc(st: Caches, ctx: Ctx, rrType: string, src: string)
    ensures var (v, st1) := Deserialize(st, ctx, ArgImage(rrType, src));
      (src in st.imageMap ==> v == st.imageMap[src] && st1 == st) &&
      (src !in st.imageMap ==> v == Image(st.nextImage, src) && st1.imageMap == st.imageMap[src := v]) &&
      Deserialize(st1, ctx, ArgImage(rrType, src)) == (v, st1)
  {
  }

  /** An argument without any `rr_type` object inside it. */
  predicate Untagged(arg: SerializedArg) {
    match arg
    case ArgNumber(_) => true
    case ArgString(_) => true
    case ArgBool(_) => true
    case ArgNull => true
    case ArgArray(items) => forall i :: 0 <= i < |items| ==> Untagged(items[i])
    case _ => false
  }

  /** How an untagged argument reads back: scalars as they are, arrays elementwise. */
  function AsValue(arg: SerializedArg): Value
    requires Untagged(arg)
  {
    match arg
    case ArgArray(items) => Arr(seq(|items|, i requires 0 <= i < |items| => AsValue(items[i])))
    case _ => Plain(arg)
  }

  /** Numbers, null and arrays of them decode to themselves and leave the caches alone. */
  lemma {:induction false} UntaggedIntact(st: Caches, ctx: Ctx, arg: SerializedArg)
    requires Untagged(arg)
    ensures Deserialize(st, ctx, arg) == (AsValue(arg), st)
    decreases arg, 1
  {
    match arg
    case ArgArray(items) =>
      UntaggedAllIntact(st, ctx, items);
      assert DeserializeAll(st, ctx, items).0 == seq(|items|, i requires 0 <= i < |items| => AsValue(items[i]));
    case _ =>
  }

  lemma {:induction false} UntaggedAllIntact(st: Caches, ctx: Ctx, args: seq<SerializedArg>)
    requires forall i :: 0 <= i < |args| ==> Untagged(args[i])
    ensures DeserializeAll(st, ctx, args).1 == st
    ensures forall i :: 0 <= i < |args| ==> DeserializeAll(st, ctx, args).0[i] == AsValue(args[i])
    decreases args, 0
  {
    if args != [] {
      UntaggedIntact(st, ctx, args[0]);
      UntaggedAllIntact(st, ctx, args[1..]);
      forall i | 1 <= i < |args| ensures args[1..][i - 1] == args[i] {}
    }
  }

  // ----- the replayer's state -----

  /** How the original WebGL method call ended. */
  datatype CallOutcome = Returned(result: Value) | Threw(error: string)

  class WebGLReplayer {
    /** `webGLVarMap` */
    var webGLVarMap: VarMap
    /** The replayer's `imageMap` and the handle for the next `new Image()`. */
    var imageMap: map<string, Value>
    var nextImage: nat
    /** Property assignments made by setter commands: context, property, `args[0]` (missing when there are no args). */
    var assignments: seq<(Ctx, string, Option<SerializedArg>)>
    /** Method calls made on contexts, with their decoded arguments. */
    var calls: seq<(Ctx, string, seq<Value>)>
    /** What `errorHandler` received. */
    var errors: seq<(CanvasCommand, string)>

    function CachesNow(): Caches
      reads this
    {
      Caches(webGLVarMap, imageMap, nextImage)
    }

    ghost predicate Valid()
      reads this
    {
      ListsDistinct(webGLVarMap)
    }

    /**
     * `webGLVarMap` is module-level in the source and shared by every replayer, so a replayer starts
     * from the table as earlier replays left it; only SaveResult adds to it, so its lists hold no repeats.
     */
    constructor(sharedVarMap: VarMap)
      requires ListsDistinct(sharedVarMap)
      ensures Valid()
      ensures webGLVarMap == sharedVarMap && imageMap == map[] && nextImage == 0
      ensures assignments == [] && calls == [] && errors == []
    {
      webGLVarMap := sharedVarMap;
      imageMap := map[];
      nextImage := 0;
      assignments := [];
      calls := [];
      errors := [];
    }

    /** `variableListFor`: the stored list for (context, constructor), created empty on first use. */
    method VariableListFor(ctx: Ctx, ctor: string) returns (list: seq<Value>)
      requires Valid()
      modifies this
      ensures Valid()
      ensures list == ListIn(old(webGLVarMap), ctx, ctor)
      ensures webGLVarMap == EnsureList(old(webGLVarMap), ctx, ctor)
      ensures imageMap == old(imageMap) && nextImage == old(nextImage)
      ensures assignments == old(assignments) && calls == old(calls) && errors == old(errors)
    {
      var contextMap: map<string, seq<Value>> := map[];
      if ctx in webGLVarMap {
        contextMap := webGLVarMap[ctx];
      } else {
        webGLVarMap := webGLVarMap[ctx := contextMap];
      }
      if ctor !in contextMap {
        contextMap := contextMap[ctor := []];
        webGLVarMap := webGLVarMap[ctx := contextMap];
      }
      list := contextMap[ctor];
    }

    /** `saveToWebGLVarMap` */
    method SaveToWebGLVarMap(ctx: Ctx, result: Value)
      requires Valid()
      modifies this
      ensures Valid()
      ensures webGLVarMap == SaveResult(old(webGLVarMap), ctx, result)
      ensures imageMap == old(imageMap) && nextImage == old(nextImage)
      ensures assignments == old(assignments) && calls == old(calls) && errors == old(errors)
    {
      SaveResultKeepsDistinct(webGLVarMap, ctx, result);
      if !result.HostObject? {
        return;
      }
      if result.ctorName !in WebGLVariableConstructorsNames {
        return;
      }
      var variables := VariableListFor(ctx, result.ctorName);
      if result !in variables {
        webGLVarMap := webGLVarMap[ctx := webGLVarMap[ctx][result.ctorName := variables + [result]]];
      }
    }

    /**
     * `webglMutation`: nothing without a context; a setter assigns the raw first argument; otherwise
     * the arguments are decoded, the method is called, a returned WebGL variable is recorded, and a
     * thrown error goes to the error handler.
     */
    method WebglMutation(mutation: CanvasCommand, ctx: Option<Ctx>, outcome: CallOutcome)
      requires Valid()
      modifies this
      ensures Valid()
      ensures ctx.None? ==>
        CachesNow() == old(CachesNow()) && assignments == old(assignments) && calls == old(calls) && errors == old(errors)
      ensures ctx.Some? && mutation.setter ==>
        CachesNow() == old(CachesNow()) && calls == old(calls) && errors == old(errors) &&
        assignments == old(assignments) + [(ctx.value, mutation.property, if mutation.args == [] then None else Some(mutation.args[0]))]
      ensures ctx.Some? && !mutation.setter ==>
        var (args, st) := DeserializeAll(old(CachesNow()), ctx.value, mutation.args);
        assignments == old(assignments) &&
        calls == old(calls) + [(ctx.value, mutation.property, args)] &&
        imageMap == st.imageMap && nextImage == st.nextImage &&
        (outcome.Returned? ==> webGLVarMap == SaveResult(st.varMap, ctx.value, outcome.result) && errors == old(errors)) &&
        (outcome.Threw? ==> webGLVarMap == st.varMap && errors == old(errors) + [(mutation, outcome.error)])
    {
      if ctx.None? {
        return;
      }
      var c := ctx.value;
      if mutation.setter {
        assignments := assignments + [(c, mutation.property, if mutation.args == [] then None else Some(mutation.args[0]))];
        return;
      }
      var (args, st) := DeserializeAll(CachesNow(), c, mutation.args);
      DeserializeAllKeepsDistinct(CachesNow(), c, mutation.args);
      webGLVarMap, imageMap, nextImage := st.varMap, st.imageMap, st.nextImage;
      calls := calls + [(c, mutation.property, args)];
      match outcome
      case Returned(result) =>
        SaveToWebGLVarMap(c, result);
      case Threw(error) =>
        errors := errors + [(mutation, error)];
    }
  }

  /** Decoding only adds empty lists, so it keeps every list free of duplicates. */
  lemma {:induction false} DeserializeKeepsDistinct(st: Caches, ctx: Ctx, arg: SerializedArg)
    requires ListsDistinct(st.varMap)
    ensures ListsDistinct(Deserialize(st, ctx, arg).1.varMap)
    decreases arg, 1
  {
    match arg
    case ArgConstructed(name, args) => DeserializeAllKeepsDistinct(st, ctx, args);
    case ArgArray(items) => DeserializeAllKeepsDistinct(st, ctx, items);
    case ArgIndexed(name, _) =>
      var m := EnsureList(st.varMap, ctx, name);
      forall c, n | c in m && n in m[c] ensures NoDups(m[c][n]) {
        if !(c in st.varMap && n in st.varMap[c]) {
          assert m[c][n] == [];
        }
      }
    case _ =>
  }

  lemma {:induction false} DeserializeAllKeepsDistinct(st: Caches, ctx: Ctx, args: seq<SerializedArg>)
    requires ListsDistinct(st.varMap)
    ensures ListsDistinct(DeserializeAll(st, ctx, args).1.varMap)
    decreases args, 0
  {
    if args != [] {
      DeserializeKeepsDistinct(st, ctx, args[0]);
      DeserializeAllKeepsDistinct(Deserialize(st, ctx, args[0]).1, ctx, args[1..]);
    }
  }

  /**
   * A `createShader` call that returns a new shader, on a fresh replayer over an empty shared table,
   * grows the context's `WebGLShader` list from 0 to 1.
   */
  method CreateShaderRecordsVariable() returns (before: nat, after: nat)
    ensures before == 0 && after == 1
  {
    var r := new WebGLReplayer(map[]);
    var ctx: Ctx := 7;
    var list := r.VariableListFor(ctx, "WebGLShader");
    before := |list|;
    r.WebglMutation(CanvasCommand("createShader", [ArgNumber(35633)], false), Some(ctx),
                    Returned(HostObject(1, "WebGLShader")));
    list := r.VariableListFor(ctx, "WebGLShader");
    after := |list|;
  }
}
