/** Running the emitted statements computes the intended conversion. */
module ConverterProof {
  import opened Wrappers
  import opened Decimal
  import opened TypeExpr
  import opened Converter

  /** A destination that can be stored to and is not the source itself. */
  ghost predicate Ready(dst: LValue, src: string, env: Env) {
    && src in env
    && Store(dst, Nil, env).Some?
    && dst.x != src
    && (dst.At? ==> dst.i != src && dst.i != dst.x)
  }

  /** Storing touches the root of the destination only, and whether it succeeds does not depend on the
      value stored. */
  lemma StoreFrame(dst: LValue, v: Val, env: Env)
    requires Store(dst, Nil, env).Some?
    ensures Store(dst, v, env).Some? && Store(dst, v, env).value.Keys == env.Keys
    ensures forall x | x in env && x != dst.x :: Store(dst, v, env).value[x] == env[x]
  {
  }

  /** Storing in a scope with extra names and leaving it again is storing outside. */
  lemma StoreThenLeave(dst: LValue, v: Val, env: Env, inner: Env, declared: set<string>)
    requires Store(dst, Nil, env).Some?
    requires env.Keys <= inner.Keys && forall x | x in env :: inner[x] == env[x]
    requires declared !! env.Keys
    ensures Store(dst, v, inner).Some?
    ensures Leave(env, Store(dst, v, inner).value, declared) == Store(dst, v, env).value
  {
    assert Store(dst, Nil, inner).Some?;
    StoreFrame(dst, v, env);
    StoreFrame(dst, v, inner);
    var a, b := Leave(env, Store(dst, v, inner).value, declared), Store(dst, v, env).value;
    assert a[dst.x] == b[dst.x];
    assert a.Keys == b.Keys;
  }

  lemma RunOne(s: Stmt, env: Env, order: Order)
    ensures Run([s], env, order) == Step(s, env, order)
  {
    assert [s][1..] == [];
  }

  lemma RunTwo(s: Stmt, t: Stmt, env: Env, order: Order)
    requires Step(s, env, order).Some?
    ensures Run([s, t], env, order) == Step(t, Step(s, env, order).value, order)
  {
    assert [s, t][1..] == [t];
    RunOne(t, Step(s, env, order).value, order);
  }

  lemma RunThree(s: Stmt, t: Stmt, u: Stmt, env: Env, order: Order)
    requires Step(s, env, order).Some? && Step(t, Step(s, env, order).value, order).Some?
    ensures Run([s, t, u], env, order) == Step(u, Step(t, Step(s, env, order).value, order).value, order)
  {
    assert [s, t, u][1..] == [t, u];
    RunTwo(t, u, Step(s, env, order).value, order);
  }

  // ---------- Leaves ----------

  lemma AssignBlock(dst: LValue, e: Expr, v: Val, env: Env, order: Order)
    requires Store(dst, Nil, env).Some? && Eval(e, env) == Some(v)
    ensures Block([Assign(dst, e)], env, order) == Store(dst, v, env)
  {
    RunOne(Assign(dst, e), env, order);
    StoreThenLeave(dst, v, env, env, {});
    assert Declared([Assign(dst, e)]) == {};
  }

  lemma ZeroBlock(dst: LValue, zero: Val, env: Env, order: Order)
    requires Store(dst, Nil, env).Some? && "z" !in env
    ensures Block([DeclareZero("z", zero), Assign(dst, Ident("z"))], env, order) == Store(dst, zero, env)
  {
    var ss := [DeclareZero("z", zero), Assign(dst, Ident("z"))];
    RunTwo(ss[0], ss[1], env, order);
    assert Declared(ss) == {"z"} by {
      assert ss[0] in ss;
    }
    StoreThenLeave(dst, zero, env, env["z" := zero], {"z"});
  }

  lemma LeafCorrect(dst: LValue, src: string, e: Option<string>, kind: Kind, env: Env, order: Order)
    requires Ready(dst, src, env) && "z" !in env
    requires e.Some? ==> TypedLeaf(env[src], e.value, SrcMode(kind))
    ensures Run(EmitLeaf(dst, src, e, kind), env, order)
         == Store(dst, if e.Some? then ConvLeaf(env[src], e.value, kind) else env[src], env)
  {
    RunOne(EmitLeaf(dst, src, e, kind)[0], env, order);
    if e.Some? && kind == RuntimeToState {
      if env[src].Nil? {
        ZeroBlock(dst, StateV(e.value, 0), env, order);
      } else {
        AssignBlock(dst, SaveOf(src), StateV(e.value, env[src].data), env, order);
      }
    }
  }

  // ---------- Loops ----------

  lemma EmitDeclaresNothing(dst: LValue, src: string, n: Node, names: set<string>, kind: Kind, seqNo: nat)
    ensures Declared(Emit(dst, src, n, names, kind, seqNo).0) == {}
  {
  }

  /** Names of one loop: the collection being built, the index or key, and the element. */
  ghost predicate LoopNames(out: string, i: string, v: string, env: Env) {
    out != i && out != v && i != v && out in env && i !in env && v !in env
  }

  /** One iteration whose body stores `c` at the element leaves everything else as it was. */
  lemma IterateStores(
    out: string, i: string, at: int, v: string, item: Val, c: Val, body: seq<Stmt>, env: Env, order: Order)
    requires LoopNames(out, i, v, env) && Declared(body) == {}
    requires var inner := env[i := Word(at)][v := item];
             Store(At(out, i), Nil, inner).Some? && Run(body, inner, order) == Store(At(out, i), c, inner)
    ensures var inner := env[i := Word(at)][v := item];
            Iterate(i, at, v, item, body, env, order) == Some(env[out := Store(At(out, i), c, inner).value[out]])
  {
    var inner := env[i := Word(at)][v := item];
    StoreFrame(At(out, i), c, inner);
    var after := Store(At(out, i), c, inner).value;
    assert Leave(inner, after, {}) == after;
    assert Leave(env, after, {i, v}) == env[out := after[out]];
  }

  ghost predicate LoopReady(out: string, i: string, v: string, env: Env, seqNo: nat) {
    LoopNames(out, i, v, env) && Scope(env, seqNo) && OldName(i, seqNo) && OldName(v, seqNo)
  }

  /** What the loop body for the element type does in one iteration. */
  lemma {:induction false} IterateConverts(
    at: int, item: Val, out: string, i: string, v: string,
    n: Node, names: set<string>, kind: Kind, seqNo: nat, env: Env, order: Order)
    requires LoopReady(out, i, v, env, seqNo) && GoodOrder(order)
    requires env[out].MapV? || (env[out].SliceV? && 0 <= at < |env[out].items|)
    requires Typed(item, n, names, SrcMode(kind))
    ensures var c := Conv(item, n, names, kind);
            var out' := if env[out].MapV? then MapV(env[out].entries[at := c]) else SliceV(env[out].items[at := c]);
            Iterate(i, at, v, item, Emit(At(out, i), v, n, names, kind, seqNo).0, env, order) == Some(env[out := out'])
    decreases n, 1
  {
    var inner := env[i := Word(at)][v := item];
    EmitCorrect(At(out, i), v, n, names, kind, seqNo, inner, order);
    EmitDeclaresNothing(At(out, i), v, n, names, kind, seqNo);
    IterateStores(out, i, at, v, item, Conv(item, n, names, kind), Emit(At(out, i), v, n, names, kind, seqNo).0, env, order);
  }

  function ConvItems(items: seq<Val>, n: Node, names: set<string>, kind: Kind): seq<Val> {
    seq(|items|, j requires 0 <= j < |items| => Conv(items[j], n, names, kind))
  }

  lemma {:induction false} SliceLoop(
    items: seq<Val>, at: nat, acc: seq<Val>, out: string, i: string, v: string,
    n: Node, names: set<string>, kind: Kind, seqNo: nat, env: Env, order: Order)
    requires LoopReady(out, i, v, env, seqNo) && GoodOrder(order)
    requires at <= |items| == |acc| && env[out] == SliceV(acc)
    requires forall j | 0 <= j < at :: acc[j] == Conv(items[j], n, names, kind)
    requires forall j | 0 <= j < |items| :: Typed(items[j], n, names, SrcMode(kind))
    ensures RangeSlice(items, at, i, v, Emit(At(out, i), v, n, names, kind, seqNo).0, env, order)
         == Some(env[out := SliceV(ConvItems(items, n, names, kind))])
    decreases n, 2, |items| - at
  {
    if at == |items| {
      assert acc == ConvItems(items, n, names, kind);
      assert env[out := SliceV(acc)] == env;
    } else {
      IterateConverts(at, items[at], out, i, v, n, names, kind, seqNo, env, order);
      var acc' := acc[at := Conv(items[at], n, names, kind)];
      var env' := env[out := SliceV(acc')];
      SliceLoop(items, at + 1, acc', out, i, v, n, names, kind, seqNo, env', order);
      var full := SliceV(ConvItems(items, n, names, kind));
      assert env'[out := full] == env[out := full];
    }
  }

  function ConvEntries(entries: map<int, Val>, n: Node, names: set<string>, kind: Kind): map<int, Val> {
    map k | k in entries :: Conv(entries[k], n, names, kind)
  }

  /** The entries converted so far. */
  ghost predicate Partial(acc: map<int, Val>, entries: map<int, Val>, n: Node, names: set<string>, kind: Kind) {
    forall k | k in acc :: k in entries && acc[k] == Conv(entries[k], n, names, kind)
  }

  lemma AllConverted(acc: map<int, Val>, entries: map<int, Val>, n: Node, names: set<string>, kind: Kind)
    requires Partial(acc, entries, n, names, kind) && forall k | k in entries :: k in acc
    ensures acc == ConvEntries(entries, n, names, kind)
  {
    var full := ConvEntries(entries, n, names, kind);
    forall k: int
      ensures k in acc <==> k in full
      ensures k in acc ==> acc[k] == full[k]
    {
      assert k in acc <==> k in entries;
    }
    assert acc.Keys == full.Keys;
  }

  lemma {:induction false} MapLoop(
    entries: map<int, Val>, keys: seq<int>, acc: map<int, Val>, out: string, i: string, v: string,
    n: Node, names: set<string>, kind: Kind, seqNo: nat, env: Env, order: Order)
    requires LoopReady(out, i, v, env, seqNo) && GoodOrder(order)
    requires env[out] == MapV(acc) && Partial(acc, entries, n, names, kind)
    requires forall k | k in entries && k !in keys :: k in acc
    requires forall k | k in keys :: k in entries
    requires forall k | k in entries :: Typed(entries[k], n, names, SrcMode(kind))
    ensures RangeMap(entries, keys, i, v, Emit(At(out, i), v, n, names, kind, seqNo).0, env, order)
         == Some(env[out := MapV(ConvEntries(entries, n, names, kind))])
    decreases n, 2, |keys|
  {
    if keys == [] {
      AllConverted(acc, entries, n, names, kind);
      assert env[out := MapV(acc)] == env;
    } else {
      var k := keys[0];
      IterateConverts(k, entries[k], out, i, v, n, names, kind, seqNo, env, order);
      var acc' := acc[k := Conv(entries[k], n, names, kind)];
      var env' := env[out := MapV(acc')];
      MapLoop(entries, keys[1..], acc', out, i, v, n, names, kind, seqNo, env', order);
      var full := MapV(ConvEntries(entries, n, names, kind));
      assert env'[out := full] == env[out := full];
    }
  }

  // ---------- The emitter ----------

  /** Declare a new collection, fill it in a loop, assign it: a block of these three statements stores the
      collection and leaves no other trace. */
  lemma BuildBlock(dst: LValue, out: string, make: Expr, loop: Stmt, empty: Val, full: Val, env: Env, order: Order)
    requires Store(dst, Nil, env).Some? && out !in env && loop.Range?
    requires Eval(make, env) == Some(empty)
    requires Step(loop, env[out := empty], order) == Some(env[out := full])
    ensures Block([Declare(out, make), loop, Assign(dst, Ident(out))], env, order) == Store(dst, full, env)
  {
    var ss := [Declare(out, make), loop, Assign(dst, Ident(out))];
    RunThree(ss[0], ss[1], ss[2], env, order);
    assert Declared(ss) == {out} by {
      assert ss[0] in ss;
    }
    StoreThenLeave(dst, full, env, env[out := full], {out});
  }

  lemma NamesFor(mid: string, w: Val, env: Env, seqNo: nat)
    requires Scope(env, seqNo) && mid in {"i", "k"}
    ensures var out, i, v := Fresh("out", seqNo), Fresh(mid, seqNo + 1), Fresh("v", seqNo + 2);
            out !in env && LoopReady(out, i, v, env[out := w], seqNo + 3)
  {
    var out, i, v := Fresh("out", seqNo), Fresh(mid, seqNo + 1), Fresh("v", seqNo + 2);
    if out == i { FreshInjective("out", seqNo, mid, seqNo + 1); }
    if out == v { FreshInjective("out", seqNo, "v", seqNo + 2); }
    if i == v { FreshInjective(mid, seqNo + 1, "v", seqNo + 2); }
    FreshIsOld("out", seqNo, seqNo + 3);
    FreshIsOld(mid, seqNo + 1, seqNo + 3);
    FreshIsOld("v", seqNo + 2, seqNo + 3);
  }

  lemma NilGuard(src: string, dst: LValue, els: seq<Stmt>, env: Env, order: Order)
    requires src in env && Store(dst, Nil, env).Some?
    ensures Run([IfNil(src, [Assign(dst, NilLit)], els)], env, order)
         == if env[src].Nil? then Store(dst, Nil, env) else Block(els, env, order)
  {
    RunOne(IfNil(src, [Assign(dst, NilLit)], els), env, order);
    AssignBlock(dst, NilLit, Nil, env, order);
  }

  /** The loop over a slice, as one statement. */
  lemma {:induction false} SliceStep(
    src: string, items: seq<Val>, zero: Val, out: string, i: string, v: string,
    elem: Node, names: set<string>, kind: Kind, seqNo: nat, env: Env, order: Order)
    requires src in env && env[src] == SliceV(items) && out !in env && GoodOrder(order)
    requires LoopReady(out, i, v, env[out := SliceV(seq(|items|, _ => zero))], seqNo)
    requires forall j | 0 <= j < |items| :: Typed(items[j], elem, names, SrcMode(kind))
    ensures Step(Range(i, v, src, Emit(At(out, i), v, elem, names, kind, seqNo).0),
                 env[out := SliceV(seq(|items|, _ => zero))], order)
         == Some(env[out := SliceV(ConvItems(items, elem, names, kind))])
    decreases elem, 3
  {
    var zeros := seq(|items|, _ => zero);
    var env1 := env[out := SliceV(zeros)];
    SliceLoop(items, 0, zeros, out, i, v, elem, names, kind, seqNo, env1, order);
    var full := SliceV(ConvItems(items, elem, names, kind));
    assert env1[out := full] == env[out := full];
  }

  lemma {:induction false} EmitSliceCorrect(
    dst: LValue, src: string, elem: Node, names: set<string>, kind: Kind, seqNo: nat, env: Env, order: Order)
    requires Scope(env, seqNo) && Ready(dst, src, env) && GoodOrder(order)
    requires Typed(env[src], Slice(elem), names, SrcMode(kind))
    ensures Run(Emit(dst, src, Slice(elem), names, kind, seqNo).0, env, order)
         == Store(dst, Conv(env[src], Slice(elem), names, kind), env)
    decreases elem, 4
  {
    var out, i, v := Fresh("out", seqNo), Fresh("i", seqNo + 1), Fresh("v", seqNo + 2);
    var loop := Range(i, v, src, Emit(At(out, i), v, elem, names, kind, seqNo + 3).0);
    var zero := Zero(elem, names, DstMode(kind));
    var make := MakeSlice(zero, src);
    NilGuard(src, dst, [Declare(out, make), loop, Assign(dst, Ident(out))], env, order);
    if env[src].SliceV? {
      var items := env[src].items;
      var zeros := SliceV(seq(|items|, _ => zero));
      NamesFor("i", zeros, env, seqNo);
      SliceStep(src, items, zero, out, i, v, elem, names, kind, seqNo + 3, env, order);
      BuildBlock(dst, out, make, loop, zeros, SliceV(ConvItems(items, elem, names, kind)), env, order);
    }
  }

  /** The loop over a map, as one statement. */
  lemma {:induction false} MapStep(
    src: string, entries: map<int, Val>, out: string, k: string, v: string,
    elem: Node, names: set<string>, kind: Kind, seqNo: nat, env: Env, order: Order)
    requires src in env && env[src] == MapV(entries) && out !in env && GoodOrder(order)
    requires LoopReady(out, k, v, env[out := MapV(map[])], seqNo)
    requires forall j | j in entries :: Typed(entries[j], elem, names, SrcMode(kind))
    ensures Step(Range(k, v, src, Emit(At(out, k), v, elem, names, kind, seqNo).0), env[out := MapV(map[])], order)
         == Some(env[out := MapV(ConvEntries(entries, elem, names, kind))])
    decreases elem, 3
  {
    var env1 := env[out := MapV(map[])];
    MapLoop(entries, order(env1, entries), map[], out, k, v, elem, names, kind, seqNo, env1, order);
    var full := MapV(ConvEntries(entries, elem, names, kind));
    assert env1[out := full] == env[out := full];
  }

  lemma {:induction false} EmitMapCorrect(
    dst: LValue, src: string, key: string, elem: Node, names: set<string>, kind: Kind, seqNo: nat, env: Env, order: Order)
    requires Scope(env, seqNo) && Ready(dst, src, env) && GoodOrder(order)
    requires Typed(env[src], MapOf(key, elem), names, SrcMode(kind))
    ensures Run(Emit(dst, src, MapOf(key, elem), names, kind, seqNo).0, env, order)
         == Store(dst, Conv(env[src], MapOf(key, elem), names, kind), env)
    decreases elem, 4
  {
    var out, k, v := Fresh("out", seqNo), Fresh("k", seqNo + 1), Fresh("v", seqNo + 2);
    var loop := Range(k, v, src, Emit(At(out, k), v, elem, names, kind, seqNo + 3).0);
    var body := [Declare(out, MakeMap(src)), loop, Assign(dst, Ident(out))];
    assert Emit(dst, src, MapOf(key, elem), names, kind, seqNo).0 == [IfNil(src, [Assign(dst, NilLit)], body)];
    NilGuard(src, dst, body, env, order);
    if env[src].MapV? {
      var entries := env[src].entries;
      NamesFor("k", MapV(map[]), env, seqNo);
      MapStep(src, entries, out, k, v, elem, names, kind, seqNo + 3, env, order);
      BuildBlock(dst, out, MakeMap(src), loop, MapV(map[]), MapV(ConvEntries(entries, elem, names, kind)), env, order);
    }
  }

  /** For every node, running the emitted statements stores the conversion of the source into the
      destination and changes no other variable, whatever order maps are visited in. */
  lemma {:induction false} EmitCorrect(
    dst: LValue, src: string, n: Node, names: set<string>, kind: Kind, seqNo: nat, env: Env, order: Order)
    requires Scope(env, seqNo) && Ready(dst, src, env) && GoodOrder(order)
    requires Typed(env[src], n, names, SrcMode(kind))
    ensures Run(Emit(dst, src, n, names, kind, seqNo).0, env, order) == Store(dst, Conv(env[src], n, names, kind), env)
    decreases n, 0
  {
    match n
    case Leaf(raw) => LeafCorrect(dst, src, DirectNested(raw, names), kind, env, order);
    case Slice(elem) => EmitSliceCorrect(dst, src, elem, names, kind, seqNo, env, order);
    case MapOf(key, elem) => EmitMapCorrect(dst, src, key, elem, names, kind, seqNo, env, order);
  }

  /** A generated converter, called with any value of its parameter type, returns the intended conversion
      and leaves its parameter alone. */
  lemma GeneratedConverterCorrect(typeExpr: string, names: set<string>, kind: Kind, env: Env, order: Order)
    requires Generate(typeExpr, names, kind).Some? && GoodOrder(order)
    requires env.Keys == {"in", "out"} && Typed(env["in"], Parse(typeExpr).value, names, SrcMode(kind))
    ensures Run(Generate(typeExpr, names, kind).value, env, order)
         == Some(env["out" := Conv(env["in"], Parse(typeExpr).value, names, kind)])
  {
    ParametersAreOld();
    EmitCorrect(Name("out"), "in", Parse(typeExpr).value, names, kind, 0, env, order);
  }

  // ---------- What the conversions mean ----------

  /** A conversion yields a value of the destination type, and at a slice or map it is nil exactly when its
      argument is. */
  lemma {:induction false} ConvTyped(v: Val, n: Node, names: set<string>, kind: Kind)
    requires Typed(v, n, names, SrcMode(kind))
    ensures Typed(Conv(v, n, names, kind), n, names, DstMode(kind))
    ensures !n.Leaf? ==> (Conv(v, n, names, kind).Nil? <==> v.Nil?)
    decreases n
  {
    match n
    case Leaf(_) =>
    case Slice(elem) =>
      if v.SliceV? {
        forall i | 0 <= i < |v.items|
          ensures Typed(Conv(v.items[i], elem, names, kind), elem, names, DstMode(kind))
        {
          ConvTyped(v.items[i], elem, names, kind);
        }
      }
    case MapOf(_, elem) =>
      if v.MapV? {
        forall k | k in v.entries
          ensures Typed(Conv(v.entries[k], elem, names, kind), elem, names, DstMode(kind))
        {
          ConvTyped(v.entries[k], elem, names, kind);
        }
      }
  }

  /** The kind that undoes a conversion out of the state form. */
  function Undo(kind: Kind): Kind {
    match kind
    case StateToRuntime => RuntimeToState
    case StateToDoc => DocToState
    case _ => CloneState
  }

  /** Cloning is the identity, and converting a state to its runtime or document form and back gives the
      same state, at every nested slice and map type. */
  lemma {:induction false} StateRoundTrip(v: Val, n: Node, names: set<string>, kind: Kind)
    requires kind in {CloneState, StateToRuntime, StateToDoc}
    requires Typed(v, n, names, State)
    ensures Conv(Conv(v, n, names, kind), n, names, Undo(kind)) == v
    decreases n
  {
    match n
    case Leaf(_) =>
    case Slice(elem) =>
      if v.SliceV? {
        forall i | 0 <= i < |v.items|
          ensures Conv(Conv(v.items[i], elem, names, kind), elem, names, Undo(kind)) == v.items[i]
        {
          StateRoundTrip(v.items[i], elem, names, kind);
        }
        assert Conv(Conv(v, n, names, kind), n, names, Undo(kind)).items == v.items;
      }
    case MapOf(_, elem) =>
      if v.MapV? {
        forall k | k in v.entries
          ensures Conv(Conv(v.entries[k], elem, names, kind), elem, names, Undo(kind)) == v.entries[k]
        {
          StateRoundTrip(v.entries[k], elem, names, kind);
        }
        assert Conv(Conv(v, n, names, kind), n, names, Undo(kind)).entries == v.entries;
      }
  }

  /** Every child entity is there and clean. */
  ghost predicate AllClean(v: Val, n: Node, names: set<string>)
    decreases n
  {
    match n
    case Leaf(raw) => DirectNested(raw, names).Some? ==> v.RuntimeV? && !v.dirty
    case Slice(elem) => v.SliceV? ==> forall i | 0 <= i < |v.items| :: AllClean(v.items[i], elem, names)
    case MapOf(_, elem) => v.MapV? ==> forall k | k in v.entries :: AllClean(v.entries[k], elem, names)
  }

  lemma SameEntries(a: map<int, Val>, b: map<int, Val>)
    requires a.Keys == b.Keys
    ensures a == b <==> forall k | k in b :: a[k] == b[k]
  {
    if forall k | k in b :: a[k] == b[k] {
      assert forall k :: k in a <==> k in b;
    }
  }

  /** In the other direction a runtime value survives exactly when no child is nil or dirty: a nil child
      comes back as an entity with the zero state, and dirty flags are not saved. */
  lemma {:induction false} RuntimeRoundTrip(v: Val, n: Node, names: set<string>)
    requires Typed(v, n, names, Runtime)
    ensures Conv(Conv(v, n, names, RuntimeToState), n, names, StateToRuntime) == v <==> AllClean(v, n, names)
    decreases n
  {
    var back := Conv(Conv(v, n, names, RuntimeToState), n, names, StateToRuntime);
    match n
    case Leaf(_) =>
    case Slice(elem) =>
      if v.SliceV? {
        forall i | 0 <= i < |v.items|
          ensures back.items[i] == v.items[i] <==> AllClean(v.items[i], elem, names)
        {
          RuntimeRoundTrip(v.items[i], elem, names);
        }
        assert back.items == v.items <==> forall i | 0 <= i < |v.items| :: back.items[i] == v.items[i];
      }
    case MapOf(_, elem) =>
      if v.MapV? {
        forall k | k in v.entries
          ensures back.entries[k] == v.entries[k] <==> AllClean(v.entries[k], elem, names)
        {
          RuntimeRoundTrip(v.entries[k], elem, names);
        }
        SameEntries(back.entries, v.entries);
      }
  }
}
