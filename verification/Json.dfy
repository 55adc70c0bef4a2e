/** JSON values, paths into them, and what an assignment at one path leaves alone. */
module Json {
  import opened Wrappers

  /** Numbers are integers. `undefined` is not a JSON value: a missing property is `None`. */
  datatype J =
    | Null
    | Bool(b: bool)
    | Num(n: int)
    | Str(s: string)
    | Arr(items: seq<J>)
    | Obj(fields: map<string, J>)

  datatype Seg = Key(key: string) | Idx(index: nat)

  type Path = seq<Seg>

  function Lookup(fields: map<string, J>, key: string): Option<J> {
    if key in fields then Some(fields[key]) else None
  }

  /** JavaScript truthiness, `None` standing for `undefined`. */
  predicate Truthy(v: Option<J>) {
    match v
    case None => false
    case Some(Null) => false
    case Some(Bool(b)) => b
    case Some(Num(n)) => n != 0
    case Some(Str(s)) => s != ""
    case Some(_) => true
  }

  /** The falsy values. */
  lemma FalsyValues(v: Option<J>)
    ensures !Truthy(v) <==> v in {None, Some(Null), Some(Bool(false)), Some(Num(0)), Some(Str(""))}
  {
  }

  function Child(j: J, seg: Seg): Option<J> {
    match seg
    case Key(k) => if j.Obj? then Lookup(j.fields, k) else None
    case Idx(i) => if j.Arr? && i < |j.items| then Some(j.items[i]) else None
  }

  /** Assignment to one property or element; an index past the end is never assigned. */
  function SetChild(j: J, seg: Seg, v: J): J {
    match seg
    case Key(k) => if j.Obj? then Obj(j.fields[k := v]) else j
    case Idx(i) => if j.Arr? && i < |j.items| then Arr(j.items[i := v]) else j
  }

  function At(j: J, path: Path): Option<J> {
    if path == [] then Some(j)
    else if Child(j, path[0]).None? then None
    else At(Child(j, path[0]).value, path[1..])
  }

  /** The value after an assignment at a path whose containers all exist. */
  function UpdateAt(j: J, path: Path, v: J): J {
    if path == [] then v
    else if |path| == 1 then SetChild(j, path[0], v)
    else if Child(j, path[0]).None? then j
    else SetChild(j, path[0], UpdateAt(Child(j, path[0]).value, path[1..], v))
  }

  /** The container of the last segment of a path accepts it. */
  predicate Assignable(j: J, path: Path) {
    if path == [] then true
    else if |path| == 1 then (if path[0].Key? then j.Obj? else j.Arr? && path[0].index < |j.items|)
    else Child(j, path[0]).Some? && Assignable(Child(j, path[0]).value, path[1..])
  }

  /** Neither path leads into the other. */
  predicate Apart(a: Path, b: Path) {
    a != [] && b != [] && (a[0] == b[0] ==> Apart(a[1..], b[1..]))
  }

  lemma ChildAfterSet(j: J, seg: Seg, v: J, other: Seg)
    requires seg != other
    ensures Child(SetChild(j, seg, v), other) == Child(j, other)
  {
  }

  /** An assignment leaves every path that is apart from its own as it was. */
  lemma {:induction false} UpdateFrame(j: J, path: Path, v: J, other: Path)
    requires Apart(path, other)
    ensures At(UpdateAt(j, path, v), other) == At(j, other)
  {
    if path[0] != other[0] {
      if |path| == 1 {
        ChildAfterSet(j, path[0], v, other[0]);
      } else if Child(j, path[0]).Some? {
        ChildAfterSet(j, path[0], UpdateAt(Child(j, path[0]).value, path[1..], v), other[0]);
      }
    } else if |path| > 1 && Child(j, path[0]).Some? {
      UpdateFrame(Child(j, path[0]).value, path[1..], v, other[1..]);
    }
  }

  /** An assignment is read back at its own path. */
  lemma {:induction false} UpdateRead(j: J, path: Path, v: J)
    requires Assignable(j, path)
    ensures At(UpdateAt(j, path, v), path) == Some(v)
  {
    if |path| > 1 {
      UpdateRead(Child(j, path[0]).value, path[1..], v);
    }
  }

  /** Assigning the value that is already there changes nothing. */
  lemma {:induction false} UpdateSame(j: J, path: Path, v: J)
    requires At(j, path) == Some(v)
    ensures UpdateAt(j, path, v) == j
  {
    if |path| == 1 {
      assert At(Child(j, path[0]).value, path[1..]) == Some(v);
    } else if |path| > 1 {
      UpdateSame(Child(j, path[0]).value, path[1..], v);
    }
  }

  /** Hence an assignment changes the whole value exactly when it changes what is at its path. */
  lemma {:induction false} UpdateChanges(j: J, path: Path, v: J)
    requires Assignable(j, path)
    ensures UpdateAt(j, path, v) == j <==> At(j, path) == Some(v)
  {
    UpdateRead(j, path, v);
    if At(j, path) == Some(v) {
      UpdateSame(j, path, v);
    }
  }
}
