/** The entity generator's type expressions: parser, printer and the transforms between the state, runtime
    and document forms of a type. */
module TypeExpr {
  import opened Wrappers

  datatype Node = Leaf(raw: string) | Slice(elem: Node) | MapOf(keyType: string, elem: Node)

  // ---------- strings.TrimSpace ----------

  /** Unicode White_Space, as unicode.IsSpace. */
  predicate IsSpace(c: char) {
    || '\t' <= c <= '\r' || c == ' ' || c == '\U{0085}' || c == '\U{00A0}' || c == '\U{1680}'
    || '\U{2000}' <= c <= '\U{200A}' || c == '\U{2028}' || c == '\U{2029}' || c == '\U{202F}'
    || c == '\U{205F}' || c == '\U{3000}'
  }

  function TrimLeft(s: string): (t: string)
    ensures |t| <= |s| && (t == "" || !IsSpace(t[0]))
  {
    if s != "" && IsSpace(s[0]) then TrimLeft(s[1..]) else s
  }

  function TrimRight(s: string): (t: string)
    ensures t <= s && (t == "" || !IsSpace(t[|t| - 1]))
  {
    if s != "" && IsSpace(s[|s| - 1]) then TrimRight(s[..|s| - 1]) else s
  }

  function Trim(s: string): string {
    TrimRight(TrimLeft(s))
  }

  predicate Trimmed(s: string) {
    s == "" || (!IsSpace(s[0]) && !IsSpace(s[|s| - 1]))
  }

  lemma TrimTrims(s: string)
    ensures Trimmed(Trim(s)) && |Trim(s)| <= |s|
    ensures Trimmed(s) ==> Trim(s) == s
  {
  }

  // ---------- Parsing ----------

  /** The position of the bracket that brings the depth back to 0, or -1. */
  function FindClose(s: string, i: nat, depth: int): (e: int)
    requires i <= |s|
    ensures e == -1 || (i <= e < |s| && s[e] == ']')
    decreases |s| - i
  {
    if i == |s| then -1
    else if s[i] == '[' then FindClose(s, i + 1, depth + 1)
    else if s[i] == ']' then (if depth - 1 == 0 then i else FindClose(s, i + 1, depth - 1))
    else FindClose(s, i + 1, depth)
  }

  const MAP_PREFIX := "map["

  predicate HasPrefix(s: string, prefix: string) {
    prefix <= s
  }

  /** Key and value type of a map type. */
  function ParseMap(typeExpr: string): (r: Option<(string, string)>)
    ensures r.Some? ==> |r.value.1| < |typeExpr| && r.value.1 != ""
  {
    var t := Trim(typeExpr);
    TrimTrims(typeExpr);
    if !HasPrefix(t, MAP_PREFIX) then None else
    var end := FindClose(t, 3, 0);
    if end < 0 || end + 1 >= |t| then None else
    assert end > 3 by { assert t[3] == '['; }
    var key, value := Trim(t[4..end]), Trim(t[end + 1..]);
    TrimTrims(t[end + 1..]);
    if key == "" || value == "" then None else Some((key, value))
  }

  /** parseMapType as written, with its scan over the string. */
  method ParseMapType(typeExpr: string) returns (r: Option<(string, string)>)
    ensures r == ParseMap(typeExpr)
  {
    var t := Trim(typeExpr);
    if !HasPrefix(t, MAP_PREFIX) {
      return None;
    }
    var start := 3;
    var depth, end := 0, -1;
    var i := start;
    while i < |t|
      invariant start <= i <= |t|
      invariant end == -1 && FindClose(t, start, 0) == FindClose(t, i, depth)
    {
      if t[i] == '[' {
        depth := depth + 1;
      } else if t[i] == ']' {
        depth := depth - 1;
        if depth == 0 {
          end := i;
          break;
        }
      }
      i := i + 1;
    }
    if end < 0 || end + 1 >= |t| {
      return None;
    }
    assert end > 3 by { assert t[3] == '['; }
    var key, value := Trim(t[start + 1..end]), Trim(t[end + 1..]);
    if key == "" || value == "" {
      return None;
    }
    r := Some((key, value));
  }

  function Parse(typeExpr: string): Option<Node>
    decreases |typeExpr|
  {
    var t := Trim(typeExpr);
    TrimTrims(typeExpr);
    if t == "" then None
    else if HasPrefix(t, "[]") then
      TrimTrims(t[2..]);
      var elem := Parse(Trim(t[2..]));
      if elem.None? then None else Some(Slice(elem.value))
    else
      var kv := ParseMap(t);
      if kv.Some? then
        var elem := Parse(kv.value.1);
        if elem.None? then None else Some(MapOf(kv.value.0, elem.value))
      else Some(Leaf(t))
  }

  // ---------- Printing ----------

  datatype Mode = State | Runtime | Doc

  /** trimPointerType, without its second result. */
  function TrimPointer(typeExpr: string): string
    decreases |typeExpr|
  {
    var t := Trim(typeExpr);
    TrimTrims(typeExpr);
    if t != "" && t[0] == '*' then TrimPointer(t[1..]) else t
  }

  function DirectNested(typeExpr: string, names: set<string>): Option<string> {
    var base := TrimPointer(typeExpr);
    if base in names then Some(base) else None
  }

  function EntityForm(name: string, mode: Mode, prefix: string): string {
    match mode
    case State => prefix + name + "State"
    case Runtime => "*" + prefix + name + "Entity"
    case Doc => prefix + name + "Doc"
  }

  function Render(n: Node, names: set<string>, mode: Mode, prefix: string): string {
    match n
    case Slice(elem) => "[]" + Render(elem, names, mode, prefix)
    case MapOf(key, elem) => "map[" + key + "]" + Render(elem, names, mode, prefix)
    case Leaf(raw) =>
      var e := DirectNested(raw, names);
      if e.Some? then EntityForm(e.value, mode, prefix) else raw
  }

  function ContainsNested(n: Node, names: set<string>): bool {
    match n
    case Leaf(raw) => DirectNested(raw, names).Some?
    case Slice(elem) => ContainsNested(elem, names)
    case MapOf(_, elem) => ContainsNested(elem, names)
  }

  function Transform(typeExpr: string, names: set<string>, mode: Mode, prefix: string): string {
    var n := Parse(typeExpr);
    if n.None? then typeExpr else Render(n.value, names, mode, prefix)
  }

  // ---------- Balanced keys ----------

  predicate Balanced(s: string, depth: nat) {
    if s == "" then depth == 0
    else if s[0] == '[' then Balanced(s[1..], depth + 1)
    else if s[0] == ']' then depth > 0 && Balanced(s[1..], depth - 1)
    else Balanced(s[1..], depth)
  }

  /** A well-formed tree is one the parser can produce. */
  predicate WellFormed(n: Node) {
    match n
    case Leaf(raw) => raw != "" && Trimmed(raw) && !HasPrefix(raw, "[]") && ParseMap(raw).None?
    case Slice(elem) => WellFormed(elem)
    case MapOf(key, elem) => key != "" && Trimmed(key) && Balanced(key, 0) && WellFormed(elem)
  }

  lemma {:induction false} FindCloseAfterBalanced(s: string, i: nat, key: string, depth: nat)
    requires i + |key| < |s| && s[i..i + |key|] == key && s[i + |key|] == ']'
    requires Balanced(key, depth)
    ensures FindClose(s, i, depth + 1) == i + |key|
    decreases |key|
  {
    if key != "" {
      assert s[i] == key[0] && s[i + 1..i + |key|] == key[1..];
      var next := if key[0] == '[' then depth + 1 else if key[0] == ']' then depth - 1 else depth;
      FindCloseAfterBalanced(s, i + 1, key[1..], next);
    }
  }

  lemma {:induction false} FindCloseBalances(s: string, i: nat, depth: nat)
    requires i <= |s| && FindClose(s, i, depth + 1) >= 0
    ensures Balanced(s[i..FindClose(s, i, depth + 1)], depth)
    decreases |s| - i
  {
    var e := FindClose(s, i, depth + 1);
    if s[i] == ']' && depth == 0 {
    } else {
      var next := if s[i] == '[' then depth + 1 else if s[i] == ']' then depth - 1 else depth;
      FindCloseBalances(s, i + 1, next);
      assert s[i..e][0] == s[i] && s[i..e][1..] == s[i + 1..e];
    }
  }

  lemma {:induction false} TrimLeftBalanced(s: string)
    ensures Balanced(TrimLeft(s), 0) == Balanced(s, 0)
    decreases |s|
  {
    if s != "" && IsSpace(s[0]) {
      TrimLeftBalanced(s[1..]);
    }
  }

  lemma {:induction false} BalancedAppendSpace(s: string, c: char, depth: nat)
    requires IsSpace(c)
    ensures Balanced(s + [c], depth) == Balanced(s, depth)
    decreases |s|
  {
    if s == "" {
      assert [c][1..] == "";
    } else {
      assert (s + [c])[1..] == s[1..] + [c];
      if s[0] == '[' {
        BalancedAppendSpace(s[1..], c, depth + 1);
      } else if s[0] != ']' {
        BalancedAppendSpace(s[1..], c, depth);
      } else if depth > 0 {
        BalancedAppendSpace(s[1..], c, depth - 1);
      }
    }
  }

  lemma {:induction false} TrimRightBalanced(s: string)
    ensures Balanced(TrimRight(s), 0) == Balanced(s, 0)
    decreases |s|
  {
    if s != "" && IsSpace(s[|s| - 1]) {
      TrimRightBalanced(s[..|s| - 1]);
      assert s == s[..|s| - 1] + [s[|s| - 1]];
      BalancedAppendSpace(s[..|s| - 1], s[|s| - 1], 0);
    }
  }

  // ---------- Round trips ----------

  lemma ParsedKeyBalanced(t: string)
    requires ParseMap(t).Some?
    ensures var key := ParseMap(t).value.0; key != "" && Trimmed(key) && Balanced(key, 0)
  {
    var u := Trim(t);
    var end := FindClose(u, 3, 0);
    assert u[3] == '[';
    assert FindClose(u, 3, 0) == FindClose(u, 4, 1);
    FindCloseBalances(u, 4, 0);
    TrimLeftBalanced(u[4..end]);
    TrimRightBalanced(TrimLeft(u[4..end]));
    TrimTrims(u[4..end]);
  }

  /** Whatever parses is a well-formed tree. */
  lemma {:induction false} ParseWellFormed(s: string)
    requires Parse(s).Some?
    ensures WellFormed(Parse(s).value)
    decreases |s|
  {
    var t := Trim(s);
    TrimTrims(s);
    if HasPrefix(t, "[]") {
      TrimTrims(t[2..]);
      ParseWellFormed(Trim(t[2..]));
    } else if ParseMap(t).Some? {
      ParsedKeyBalanced(t);
      ParseWellFormed(ParseMap(t).value.1);
    }
  }

  lemma RenderedKeyCloses(t: string, key: string)
    requires Balanced(key, 0)
    requires 4 + |key| < |t| && t[3] == '[' && t[4..4 + |key|] == key && t[4 + |key|] == ']'
    ensures FindClose(t, 3, 0) == 4 + |key|
  {
    FindCloseAfterBalanced(t, 4, key, 0);
    assert FindClose(t, 3, 0) == FindClose(t, 4, 1);
  }

  lemma ParseMapByParts(t: string, key: string, r: string)
    requires Trim(t) == t && HasPrefix(t, MAP_PREFIX)
    requires |t| == |key| + |r| + 5 && FindClose(t, 3, 0) == 4 + |key|
    requires t[4..4 + |key|] == key && t[5 + |key|..] == r
    requires key != "" && Trim(key) == key && r != "" && Trim(r) == r
    ensures ParseMap(t) == Some((key, r))
  {
  }

  lemma ParseMapOfRendered(t: string, key: string, r: string)
    requires key != "" && Trimmed(key) && Balanced(key, 0) && r != "" && Trimmed(r)
    requires |t| == |key| + |r| + 5 && Trimmed(t)
    requires MAP_PREFIX <= t && t[4..4 + |key|] == key && t[4 + |key|] == ']' && t[5 + |key|..] == r
    ensures Trim(t) == t && ParseMap(t) == Some((key, r)) && !HasPrefix(t, "[]")
  {
    TrimTrims(t);
    TrimTrims(key);
    TrimTrims(r);
    assert t[0] == MAP_PREFIX[0] && t[3] == MAP_PREFIX[3];
    RenderedKeyCloses(t, key);
    ParseMapByParts(t, key, r);
  }

  lemma RenderedMap(key: string, e: string) returns (t: string)
    requires e != "" && Trimmed(e)
    ensures t == "map[" + key + "]" + e
    ensures |t| == |key| + |e| + 5
    ensures MAP_PREFIX <= t && t[4..4 + |key|] == key && t[4 + |key|] == ']' && t[5 + |key|..] == e
    ensures Trimmed(t)
  {
    t := "map[" + key + "]" + e;
    assert t[|t| - 1] == e[|e| - 1];
  }

  /** Parsing what the printer writes for a well-formed tree, without entity names, gives the tree back. */
  lemma {:induction false} ParseRender(n: Node, mode: Mode, prefix: string)
    requires WellFormed(n)
    ensures var r := Render(n, {}, mode, prefix);
            r != "" && Trimmed(r) && Parse(r) == Some(n)
    decreases n
  {
    match n
    case Leaf(raw) =>
      TrimTrims(raw);
    case Slice(elem) =>
      ParseRender(elem, mode, prefix);
      ParseSlice(elem, Render(elem, {}, mode, prefix));
    case MapOf(key, elem) =>
      ParseRender(elem, mode, prefix);
      var e := Render(elem, {}, mode, prefix);
      var t := RenderedMap(key, e);
      ParseMapOfRendered(t, key, e);
  }

  lemma ParseSlice(elem: Node, e: string)
    requires e != "" && Trimmed(e) && Parse(e) == Some(elem)
    ensures Trimmed("[]" + e) && Parse("[]" + e) == Some(Slice(elem))
  {
    var r := "[]" + e;
    assert r[..2] == "[]" && r[2..] == e && r[|r| - 1] == e[|e| - 1];
    TrimTrims(r);
    TrimTrims(e);
    ParseOfSlice(r);
  }

  lemma ParseOfSlice(r: string)
    requires r != "" && Trim(r) == r && HasPrefix(r, "[]") && Trim(r[2..]) == r[2..] && Parse(r[2..]).Some?
    ensures Parse(r) == Some(Slice(Parse(r[2..]).value))
  {
  }

  /** For every string that parses, printing the tree and parsing again gives the same tree. */
  lemma ParseRenderParse(s: string, mode: Mode, prefix: string)
    requires Parse(s).Some?
    ensures Parse(Render(Parse(s).value, {}, mode, prefix)) == Parse(s)
  {
    ParseWellFormed(s);
    ParseRender(Parse(s).value, mode, prefix);
  }

  /** The well-formed trees are exactly those that survive printing and parsing. */
  lemma RoundTripIffWellFormed(n: Node, mode: Mode, prefix: string)
    ensures Parse(Render(n, {}, mode, prefix)) == Some(n) <==> WellFormed(n)
  {
    if WellFormed(n) {
      ParseRender(n, mode, prefix);
    } else if Parse(Render(n, {}, mode, prefix)) == Some(n) {
      ParseWellFormed(Render(n, {}, mode, prefix));
    }
  }

  // ---------- The transforms ----------

  function Relabel(n: Node, names: set<string>, mode: Mode, prefix: string): Node {
    match n
    case Leaf(raw) =>
      var e := DirectNested(raw, names);
      Leaf(if e.Some? then EntityForm(e.value, mode, prefix) else raw)
    case Slice(elem) => Slice(Relabel(elem, names, mode, prefix))
    case MapOf(key, elem) => MapOf(key, Relabel(elem, names, mode, prefix))
  }

  /** Neither brackets nor white space; entity names are Go identifiers and prefixes package qualifiers. */
  predicate Plain(s: string) {
    forall c | c in s :: c != '[' && c != ']' && !IsSpace(c)
  }

  predicate PlainNames(names: set<string>) {
    forall e | e in names :: e != "" && Plain(e)
  }

  lemma EntityFormPlain(name: string, mode: Mode, prefix: string)
    requires name != "" && Plain(name) && Plain(prefix)
    ensures WellFormed(Leaf(EntityForm(name, mode, prefix)))
  {
    var raw := EntityForm(name, mode, prefix);
    assert Plain(raw) && raw != "";
    assert raw[0] in raw && raw[|raw| - 1] in raw;
    TrimTrims(raw);
    assert forall i | 0 <= i < |raw| :: raw[i] in raw && raw[i] != '[';
    assert MAP_PREFIX[3] == '[' && "[]"[0] == '[';
  }

  lemma {:induction false} RelabelWellFormed(n: Node, names: set<string>, mode: Mode, prefix: string)
    requires WellFormed(n) && PlainNames(names) && Plain(prefix)
    ensures WellFormed(Relabel(n, names, mode, prefix))
    ensures Render(n, names, mode, prefix) == Render(Relabel(n, names, mode, prefix), {}, mode, prefix)
    decreases n
  {
    match n
    case Leaf(raw) =>
      var e := DirectNested(raw, names);
      if e.Some? {
        EntityFormPlain(e.value, mode, prefix);
      }
    case Slice(elem) => RelabelWellFormed(elem, names, mode, prefix);
    case MapOf(_, elem) => RelabelWellFormed(elem, names, mode, prefix);
  }

  /** A transform of a type expression, read back, is the same tree with only its leaves renamed. */
  lemma TransformOnlyRelabels(s: string, names: set<string>, mode: Mode, prefix: string)
    requires Parse(s).Some? && PlainNames(names) && Plain(prefix)
    ensures Parse(Transform(s, names, mode, prefix)) == Some(Relabel(Parse(s).value, names, mode, prefix))
  {
    ParseWellFormed(s);
    var n := Parse(s).value;
    RelabelWellFormed(n, names, mode, prefix);
    ParseRender(Relabel(n, names, mode, prefix), mode, prefix);
  }
}
