/** Where a converter is generated: exactly where copying would not do. */
module ConverterNeed {
  import opened Wrappers
  import opened TypeExpr
  import opened Converter

  /** Without an entity in the type every value is its own conversion. */
  lemma {:induction false} PlainIsCopied(v: Val, n: Node, names: set<string>, kind: Kind)
    requires !ContainsNested(n, names)
    ensures Conv(v, n, names, kind) == v
    decreases n
  {
    match n
    case Leaf(_) =>
    case Slice(elem) =>
      if v.SliceV? {
        forall i | 0 <= i < |v.items|
          ensures Conv(v.items[i], elem, names, kind) == v.items[i]
        {
          PlainIsCopied(v.items[i], elem, names, kind);
        }
        assert Conv(v, n, names, kind).items == v.items;
      }
    case MapOf(_, elem) =>
      if v.MapV? {
        forall k | k in v.entries
          ensures Conv(v.entries[k], elem, names, kind) == v.entries[k]
        {
          PlainIsCopied(v.entries[k], elem, names, kind);
        }
        assert Conv(v, n, names, kind).entries == v.entries;
      }
  }

  /** A value of the source type with one entity in it. */
  function Sample(n: Node, names: set<string>, mode: Mode): Val {
    match n
    case Leaf(raw) =>
      var e := DirectNested(raw, names);
      if e.None? then Word(0)
      else if mode == State then StateV(e.value, 0)
      else if mode == Runtime then RuntimeV(e.value, 0, false)
      else DocV(e.value, 0)
    case Slice(elem) => SliceV([Sample(elem, names, mode)])
    case MapOf(_, elem) => MapV(map[0 := Sample(elem, names, mode)])
  }

  lemma {:induction false} SampleTyped(n: Node, names: set<string>, mode: Mode)
    ensures Typed(Sample(n, names, mode), n, names, mode)
    decreases n
  {
    match n
    case Leaf(_) =>
    case Slice(elem) => SampleTyped(elem, names, mode);
    case MapOf(_, elem) => SampleTyped(elem, names, mode);
  }

  lemma {:induction false} SampleChanges(n: Node, names: set<string>, kind: Kind)
    requires ContainsNested(n, names) && kind != CloneState
    ensures Conv(Sample(n, names, SrcMode(kind)), n, names, kind) != Sample(n, names, SrcMode(kind))
    decreases n
  {
    var v := Sample(n, names, SrcMode(kind));
    match n
    case Leaf(_) =>
    case Slice(elem) =>
      SampleChanges(elem, names, kind);
      assert Conv(v, n, names, kind).items[0] != v.items[0];
    case MapOf(_, elem) =>
      SampleChanges(elem, names, kind);
      assert Conv(v, n, names, kind).entries[0] != v.entries[0];
  }

  ghost predicate CopyingDoes(n: Node, names: set<string>, kind: Kind) {
    forall v :: Typed(v, n, names, SrcMode(kind)) ==> Conv(v, n, names, kind) == v
  }

  /** For a type that parses no converter is generated exactly if copying converts every value of the source
      type. */
  lemma GeneratedExactlyWhereNeeded(typeExpr: string, names: set<string>, kind: Kind)
    requires Parse(typeExpr).Some? && kind != CloneState
    ensures Generate(typeExpr, names, kind).None? <==> CopyingDoes(Parse(typeExpr).value, names, kind)
  {
    var n := Parse(typeExpr).value;
    if ContainsNested(n, names) {
      SampleTyped(n, names, SrcMode(kind));
      SampleChanges(n, names, kind);
    } else {
      forall v | Typed(v, n, names, SrcMode(kind))
        ensures Conv(v, n, names, kind) == v
      {
        PlainIsCopied(v, n, names, kind);
      }
    }
  }

  /** A clone function is generated where any other conversion is. */
  lemma ClonesAlike(typeExpr: string, names: set<string>, kind: Kind)
    ensures Generate(typeExpr, names, CloneState).None? <==> Generate(typeExpr, names, kind).None?
    ensures Parse(typeExpr).None? ==> Generate(typeExpr, names, kind).None?
  {
  }
}
