/** Which text an entity type becomes in each form, and which expressions name an entity. */
module TypeForms {
  import opened Wrappers
  import opened TypeExpr

  /** Pointer marks, with white space before, between and after them. */
  predicate Decoration(s: string) {
    forall c | c in s :: c == '*' || IsSpace(c)
  }

  predicate Blank(s: string) {
    forall c | c in s :: IsSpace(c)
  }

  lemma {:induction false} TrimLeftTakes(s: string) returns (front: string)
    ensures Blank(front) && s == front + TrimLeft(s)
    decreases |s|
  {
    if s != "" && IsSpace(s[0]) {
      var rest := TrimLeftTakes(s[1..]);
      front := [s[0]] + rest;
      assert s == [s[0]] + s[1..];
    } else {
      front := "";
    }
  }

  lemma {:induction false} TrimRightTakes(s: string) returns (back: string)
    ensures Blank(back) && s == TrimRight(s) + back
    decreases |s|
  {
    if s != "" && IsSpace(s[|s| - 1]) {
      var rest := TrimRightTakes(s[..|s| - 1]);
      back := rest + [s[|s| - 1]];
      assert s == s[..|s| - 1] + [s[|s| - 1]];
    } else {
      back := "";
    }
  }

  /** TrimSpace takes white space off both ends, all of it and nothing else. */
  lemma TrimTakes(s: string) returns (front: string, back: string)
    ensures Blank(front) && Blank(back) && s == front + Trim(s) + back && Trimmed(Trim(s))
  {
    front := TrimLeftTakes(s);
    back := TrimRightTakes(TrimLeft(s));
    TrimTrims(s);
  }

  lemma Regroup(a: string, f: string, base: string, b: string, z: string)
    ensures a + (['*'] + (f + base + b)) + z == (a + ['*'] + f) + base + (b + z)
  {
  }

  /** A type expression is its base with pointer marks and white space in front and white space behind; the
      base is trimmed and not a pointer. */
  lemma {:induction false} TrimPointerTakes(s: string) returns (front: string, back: string)
    ensures Decoration(front) && Blank(back) && s == front + TrimPointer(s) + back
    ensures Trimmed(TrimPointer(s)) && (TrimPointer(s) != "" ==> TrimPointer(s)[0] != '*')
    decreases |s|
  {
    var t := Trim(s);
    front, back := TrimTakes(s);
    if t != "" && t[0] == '*' {
      var f, b := TrimPointerTakes(t[1..]);
      assert t == ['*'] + t[1..];
      assert TrimPointer(s) == TrimPointer(t[1..]);
      Regroup(front, f, TrimPointer(s), b, back);
      front, back := front + ['*'] + f, b + back;
    }
  }

  /** So an expression names an entity exactly if stripping it so gives the entity's name. */
  lemma NamesEntityExactly(s: string, names: set<string>, name: string)
    requires name != "" && name[0] != '*' && Trimmed(name)
    ensures DirectNested(s, names) == Some(name) ==>
      name in names && exists front, back :: Decoration(front) && Blank(back) && s == front + name + back
    ensures name in names ==> DirectNested(name, names) == Some(name) && DirectNested("*" + name, names) == Some(name)
  {
    var front, back := TrimPointerTakes(s);
    TrimTrims(name);
    var p := "*" + name;
    assert p[0] == '*' && p[1..] == name && p[|p| - 1] == name[|name| - 1];
    TrimTrims(p);
  }

  /** A name the generator collects from the sources. */
  predicate EntityName(name: string) {
    name != "" && Plain(name) && name[0] != '*'
  }

  lemma NameIsLeaf(name: string)
    requires EntityName(name)
    ensures Trimmed(name) && Parse(name) == Some(Leaf(name)) && Parse("*" + name) == Some(Leaf("*" + name))
  {
    assert name[0] in name && name[|name| - 1] in name;
    BareIsLeaf(name);
    var p := "*" + name;
    assert forall c | c in p :: c == '*' || c in name;
    assert p[0] in p && p[|p| - 1] in p;
    BareIsLeaf(p);
  }

  lemma BareIsLeaf(t: string)
    requires t != "" && Plain(t) && Trimmed(t)
    ensures Parse(t) == Some(Leaf(t))
  {
    TrimTrims(t);
    forall i | 0 <= i < |t|
      ensures t[i] != '['
    {
      assert t[i] in t;
    }
    assert MAP_PREFIX[3] == '[' && "[]"[0] == '[';
  }

  /** The three texts of an entity type. */
  predicate Form(text: string, name: string, mode: Mode, prefix: string) {
    && (mode == State ==> text == prefix + name + "State")
    && (mode == Runtime ==> text == "*" + prefix + name + "Entity")
    && (mode == Doc ==> text == prefix + name + "Doc")
  }

  /** An entity type, by value or by pointer, becomes the text of its form. */
  lemma TransformOfEntity(name: string, names: set<string>, mode: Mode, prefix: string)
    requires EntityName(name) && name in names
    ensures Form(Transform(name, names, mode, prefix), name, mode, prefix)
    ensures Form(Transform("*" + name, names, mode, prefix), name, mode, prefix)
  {
    NameIsLeaf(name);
    NamesEntityExactly(name, names, name);
  }

  /** A slice of a type becomes the slice of what that type becomes. */
  lemma TransformOfSlice(s: string, names: set<string>, mode: Mode, prefix: string)
    requires s != "" && Trimmed(s) && Parse(s).Some?
    ensures Transform("[]" + s, names, mode, prefix) == "[]" + Transform(s, names, mode, prefix)
  {
    ParseSlice(Parse(s).value, s);
  }

  /** A map becomes the map with the same key type and what its element type becomes. */
  lemma TransformOfMap(key: string, s: string, names: set<string>, mode: Mode, prefix: string)
    requires s != "" && Trimmed(s) && Parse(s).Some?
    requires key != "" && Trimmed(key) && Balanced(key, 0)
    ensures Transform("map[" + key + "]" + s, names, mode, prefix) ==
      "map[" + key + "]" + Transform(s, names, mode, prefix)
  {
    var t := RenderedMap(key, s);
    ParseMapOfRendered(t, key, s);
    assert Parse(t) == Some(MapOf(key, Parse(s).value));
  }
}
