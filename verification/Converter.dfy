/** The generator's recursive converters: the statements it emits to convert a value of a nested slice or
    map type, an interpreter for those statements, and the proof that running them converts the value. */
module Converter {
  import opened Wrappers
  import opened Decimal
  import opened TypeExpr

  // ---------- Values ----------

  /** Go values as far as the converters look at them. `Nil` is the nil of pointers, slices and maps,
      `Word` stands for every value that is copied as a whole and for loop indices and map keys. */
  datatype Val =
    | Nil
    | Word(w: int)
    | StateV(name: string, data: int)
    | RuntimeV(name: string, data: int, dirty: bool)
    | DocV(name: string, data: int)
    | SliceV(items: seq<Val>)
    | MapV(entries: map<int, Val>)

  datatype Kind = CloneState | StateToRuntime | RuntimeToState | StateToDoc | DocToState

  function SrcMode(kind: Kind): Mode {
    match kind
    case RuntimeToState => Runtime
    case DocToState => Doc
    case _ => State
  }

  function DstMode(kind: Kind): Mode {
    match kind
    case StateToRuntime => Runtime
    case StateToDoc => Doc
    case _ => State
  }

  predicate TypedLeaf(v: Val, name: string, mode: Mode) {
    match mode
    case State => v.StateV? && v.name == name
    case Runtime => v.Nil? || (v.RuntimeV? && v.name == name)
    case Doc => v.DocV? && v.name == name
  }

  ghost predicate Typed(v: Val, n: Node, names: set<string>, mode: Mode)
    decreases n
  {
    match n
    case Leaf(raw) =>
      DirectNested(raw, names).Some? ==> TypedLeaf(v, DirectNested(raw, names).value, mode)
    case Slice(elem) =>
      v.Nil? || (v.SliceV? && forall i | 0 <= i < |v.items| :: Typed(v.items[i], elem, names, mode))
    case MapOf(_, elem) =>
      v.Nil? || (v.MapV? && forall k | k in v.entries :: Typed(v.entries[k], elem, names, mode))
  }

  // ---------- The intended conversion ----------

  function ConvLeaf(v: Val, name: string, kind: Kind): Val {
    match kind
    case CloneState => v
    case StateToRuntime => if v.StateV? then RuntimeV(name, v.data, false) else v
    case RuntimeToState => if v.RuntimeV? then StateV(name, v.data) else StateV(name, 0)
    case StateToDoc => if v.StateV? then DocV(name, v.data) else v
    case DocToState => if v.DocV? then StateV(name, v.data) else v
  }

  function Conv(v: Val, n: Node, names: set<string>, kind: Kind): Val
    decreases n
  {
    match n
    case Leaf(raw) =>
      var e := DirectNested(raw, names);
      if e.Some? then ConvLeaf(v, e.value, kind) else v
    case Slice(elem) =>
      if v.SliceV? then SliceV(seq(|v.items|, i requires 0 <= i < |v.items| => Conv(v.items[i], elem, names, kind)))
      else v
    case MapOf(_, elem) =>
      if v.MapV? then MapV(map k | k in v.entries :: Conv(v.entries[k], elem, names, kind)) else v
  }

  // ---------- Emitted statements ----------

  datatype LValue = Name(x: string) | At(x: string, i: string)

  datatype Expr =
    | NilLit
    | Ident(x: string)
    | HydrateOf(name: string, x: string)
    | SaveOf(x: string)
    | ToDoc(name: string, x: string)
    | ToState(name: string, x: string)
    | MakeSlice(zero: Val, lenOf: string)
    | MakeMap(lenOf: string)

  datatype Stmt =
    | Assign(dst: LValue, e: Expr)
    | Declare(x: string, e: Expr)
    | DeclareZero(x: string, zero: Val)
    | IfNil(cond: string, thn: seq<Stmt>, els: seq<Stmt>)
    | Range(i: string, v: string, over: string, body: seq<Stmt>)

  /** The zero value of a type; types without entities are copied whole, so their zero is never seen. */
  function Zero(n: Node, names: set<string>, mode: Mode): Val {
    match n
    case Leaf(raw) =>
      var e := DirectNested(raw, names);
      if e.None? then Word(0)
      else if mode == State then StateV(e.value, 0)
      else if mode == Runtime then Nil
      else DocV(e.value, 0)
    case _ => Nil
  }

  function Fresh(prefix: string, seqNo: nat): string {
    prefix + Digits(seqNo)
  }

  function EmitLeaf(dst: LValue, src: string, e: Option<string>, kind: Kind): seq<Stmt> {
    if e.None? then [Assign(dst, Ident(src))]
    else match kind
      case CloneState => [Assign(dst, Ident(src))]
      case StateToRuntime => [Assign(dst, HydrateOf(e.value, src))]
      case RuntimeToState =>
        [IfNil(src, [DeclareZero("z", StateV(e.value, 0)), Assign(dst, Ident("z"))], [Assign(dst, SaveOf(src))])]
      case StateToDoc => [Assign(dst, ToDoc(e.value, src))]
      case DocToState => [Assign(dst, ToState(e.value, src))]
  }

  /** The statements for one node and the next free sequence number. */
  function Emit(dst: LValue, src: string, n: Node, names: set<string>, kind: Kind, seqNo: nat): (seq<Stmt>, nat)
    decreases n
  {
    match n
    case Leaf(raw) => (EmitLeaf(dst, src, DirectNested(raw, names), kind), seqNo)
    case Slice(elem) =>
      var out, i, v := Fresh("out", seqNo), Fresh("i", seqNo + 1), Fresh("v", seqNo + 2);
      var (body, next) := Emit(At(out, i), v, elem, names, kind, seqNo + 3);
      ([IfNil(src, [Assign(dst, NilLit)],
              [Declare(out, MakeSlice(Zero(elem, names, DstMode(kind)), src)), Range(i, v, src, body),
               Assign(dst, Ident(out))])], next)
    case MapOf(_, elem) =>
      var out, k, v := Fresh("out", seqNo), Fresh("k", seqNo + 1), Fresh("v", seqNo + 2);
      var (body, next) := Emit(At(out, k), v, elem, names, kind, seqNo + 3);
      ([IfNil(src, [Assign(dst, NilLit)],
              [Declare(out, MakeMap(src)), Range(k, v, src, body), Assign(dst, Ident(out))])], next)
  }

  /** The body of the generated function, over its parameter `in` and its result variable `out`. */
  function Generate(typeExpr: string, names: set<string>, kind: Kind): Option<seq<Stmt>> {
    var n := Parse(typeExpr);
    if n.None? || !ContainsNested(n.value, names) then None
    else Some(Emit(Name("out"), "in", n.value, names, kind, 0).0)
  }

  // ---------- The interpreter ----------

  type Env = map<string, Val>

  /** The order in which a range statement visits a map, free to depend on everything in scope. */
  type Order = (Env, map<int, Val>) -> seq<int>

  ghost predicate GoodOrder(order: Order) {
    forall env, m {:trigger order(env, m)} :: forall k :: k in order(env, m) <==> k in m
  }

  /** None is a panic or a type error. */
  function Eval(e: Expr, env: Env): Option<Val> {
    match e
    case NilLit => Some(Nil)
    case Ident(x) => if x in env then Some(env[x]) else None
    case HydrateOf(name, x) =>
      if x in env && env[x].StateV? && env[x].name == name then Some(RuntimeV(name, env[x].data, false)) else None
    case SaveOf(x) =>
      if x in env && env[x].RuntimeV? then Some(StateV(env[x].name, env[x].data)) else None
    case ToDoc(name, x) =>
      if x in env && env[x].StateV? && env[x].name == name then Some(DocV(name, env[x].data)) else None
    case ToState(name, x) =>
      if x in env && env[x].DocV? && env[x].name == name then Some(StateV(name, env[x].data)) else None
    case MakeSlice(zero, x) =>
      if x in env && env[x].SliceV? then Some(SliceV(seq(|env[x].items|, _ => zero))) else None
    case MakeMap(x) => if x in env && env[x].MapV? then Some(MapV(map[])) else None
  }

  function Store(dst: LValue, v: Val, env: Env): Option<Env> {
    match dst
    case Name(x) => if x in env then Some(env[x := v]) else None
    case At(x, i) =>
      if x !in env || i !in env || !env[i].Word? then None
      else if env[x].MapV? then Some(env[x := MapV(env[x].entries[env[i].w := v])])
      else if env[x].SliceV? && 0 <= env[i].w < |env[x].items| then
        Some(env[x := SliceV(env[x].items[env[i].w := v])])
      else None
  }

  function Declared(ss: seq<Stmt>): set<string> {
    set s | s in ss && (s.Declare? || s.DeclareZero?) :: s.x
  }

  /** Leaving a block: names it declared mean again what they meant outside. */
  function Leave(outer: Env, inner: Env, declared: set<string>): Env {
    map x | x in outer :: if x in inner && x !in declared then inner[x] else outer[x]
  }

  function Run(ss: seq<Stmt>, env: Env, order: Order): Option<Env>
    decreases ss, 0, 0
  {
    if ss == [] then Some(env) else
    var env' := Step(ss[0], env, order);
    if env'.None? then None else Run(ss[1..], env'.value, order)
  }

  function Block(ss: seq<Stmt>, env: Env, order: Order): Option<Env>
    decreases ss, 1, 0
  {
    var env' := Run(ss, env, order);
    if env'.None? then None else Some(Leave(env, env'.value, Declared(ss)))
  }

  function Step(s: Stmt, env: Env, order: Order): Option<Env>
    decreases s, 3, 0
  {
    match s
    case Assign(dst, e) =>
      var v := Eval(e, env);
      if v.None? then None else Store(dst, v.value, env)
    case Declare(x, e) =>
      var v := Eval(e, env);
      if v.None? then None else Some(env[x := v.value])
    case DeclareZero(x, zero) => Some(env[x := zero])
    case IfNil(cond, thn, els) =>
      if cond !in env then None
      else if env[cond].Nil? then Block(thn, env, order) else Block(els, env, order)
    case Range(i, v, over, body) =>
      if over !in env then None
      else if env[over].SliceV? then RangeSlice(env[over].items, 0, i, v, body, env, order)
      else if env[over].MapV? then
        RangeMap(env[over].entries, order(env, env[over].entries), i, v, body, env, order)
      else None
  }

  /** One iteration, whose loop variables and body are scopes of their own. */
  function Iterate(i: string, at: int, v: string, item: Val, body: seq<Stmt>, env: Env, order: Order): Option<Env>
    decreases body, 2, 0
  {
    var env' := Block(body, env[i := Word(at)][v := item], order);
    if env'.None? then None else Some(Leave(env, env'.value, {i, v}))
  }

  function RangeSlice(items: seq<Val>, at: nat, i: string, v: string, body: seq<Stmt>, env: Env, order: Order): Option<Env>
    decreases body, 3, |items| - at
  {
    if at >= |items| then Some(env) else
    var env' := Iterate(i, at, v, items[at], body, env, order);
    if env'.None? then None else RangeSlice(items, at + 1, i, v, body, env'.value, order)
  }

  function RangeMap(
    entries: map<int, Val>, keys: seq<int>, i: string, v: string, body: seq<Stmt>, env: Env, order: Order): Option<Env>
    decreases body, 3, |keys|
  {
    if keys == [] then Some(env)
    else if keys[0] !in entries then None
    else
      var env' := Iterate(i, keys[0], v, entries[keys[0]], body, env, order);
      if env'.None? then None else RangeMap(entries, keys[1..], i, v, body, env'.value, order)
  }

  // ---------- Fresh names ----------

  const PREFIXES: set<string> := {"out", "i", "k", "v"}

  lemma FreshInjective(p: string, m: nat, q: string, n: nat)
    requires p in PREFIXES && q in PREFIXES && Fresh(p, m) == Fresh(q, n)
    ensures p == q && m == n
  {
    assert Fresh(p, m)[0] == p[0] && Fresh(q, n)[0] == q[0];
    assert p == q;
    assert Fresh(p, m)[|p|..] == Digits(m) && Fresh(q, n)[|q|..] == Digits(n);
    DigitsInjective(m, n);
  }

  /** No name generated from `seqNo` on equals x. */
  ghost predicate OldName(x: string, seqNo: nat) {
    x != "z" && forall p, m: nat {:trigger Fresh(p, m)} | p in PREFIXES && seqNo <= m :: x != Fresh(p, m)
  }

  ghost predicate Scope(env: Env, seqNo: nat) {
    forall x | x in env :: OldName(x, seqNo)
  }

  lemma FreshIsOld(p: string, m: nat, seqNo: nat)
    requires p in PREFIXES && m < seqNo
    ensures OldName(Fresh(p, m), seqNo)
  {
    forall q, n: nat {:trigger Fresh(q, n)} | q in PREFIXES && seqNo <= n
      ensures Fresh(p, m) != Fresh(q, n)
    {
      if Fresh(p, m) == Fresh(q, n) {
        FreshInjective(p, m, q, n);
      }
    }
    assert "z"[0] == 'z' && Fresh(p, m)[0] == p[0];
  }

  lemma ParametersAreOld()
    ensures OldName("in", 0) && OldName("out", 0)
  {
    forall p, m: nat {:trigger Fresh(p, m)} | p in PREFIXES
      ensures Fresh(p, m) != "in" && Fresh(p, m) != "out"
    {
      assert Fresh(p, m)[|p|] == Digits(m)[0];
    }
  }
}
