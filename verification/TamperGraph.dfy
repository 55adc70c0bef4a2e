/**
 The forgery engine on the heap, as web/tamper.js runs it: clone the package's graph, assign into the clone
 through either form of the bundle data, then assign the new export hash. What to assign where is decided by
 the pure edits of module Tamper on the value that the graph shows.
 */
module TamperGraph {
  import opened Wrappers
  import opened Json
  import opened Tamper
  import opened TamperLaws
  import opened JsGraph

  /** JSON.parse(JSON.stringify(pkg)). */
  method Clone(env: Env, pkg: Node) returns (copy: Node)
    requires RoundTrips(env) && pkg.Valid() && !pkg.isArray
    ensures copy.Valid() && !copy.isArray && copy.value == pkg.value && fresh(copy.repr)
  {
    var shown := Show(Ref(pkg));
    var text := env.stringify(shown);
    assert env.parse(text) == Some(shown);
    var v := Build(env.parse(text).value);
    copy := v.node;
  }

  /** One assignment into a graph; the assigned value is new. */
  method Perform(n: Node, e: Edit)
    requires n.Valid() && (e.Assign? ==> e.path != [] && Assignable(n.value, e.path))
    modifies n.repr
    ensures n.Valid() && n.value == Apply(old(n.value), e) && fresh(n.repr - old(n.repr))
  {
    if e.Assign? {
      var v := Build(e.value);
      n.Assign(e.path, v);
    }
  }

  /** The package `p` after a mutation that throws or gives the fields `m.value`. */
  ghost predicate Shows(p: Node, m: Result<Fields, Thrown>)
    reads p, p.repr
  {
    m.Ok? ==> p.Valid() && p.value == Obj(m.value)
  }

  /** What was thrown, if anything. */
  function Thrower(m: Result<Fields, Thrown>): Option<Thrown> {
    match m
    case Err(e) => Some(e)
    case Ok(_) => None
  }

  /** Unless a bundle text is edited, a mutation is one assignment in place. */
  method MutateInPlace(f: Forgery, env: Env, p: Node) returns (thrown: Option<Thrown>)
    requires p.Valid() && !p.isArray && (InBundle(f) ==> IsInlined(p.value.fields))
    modifies p.repr
    ensures thrown == Thrower(Mutate(f, env, old(p.value).fields))
    ensures Shows(p, Mutate(f, env, old(p.value).fields)) && fresh(p.repr - old(p.repr))
  {
    var shown := Show(Ref(p));
    RawMutation(f, env, shown.fields);
    var e := WholeEdit(f, env, shown.fields);
    hide Mutate;
    hide WholeEdit;
    hide IsTarget;
    if e.Err? {
      return Some(e.error);
    }
    Perform(p, e.value);
    return None;
  }

  method BundleText(p: Node) returns (text: string)
    requires p.Valid() && !p.isArray
    requires "bundleData" in p.value.fields && p.value.fields["bundleData"].Str?
    ensures text == p.value.fields["bundleData"].s
  {
    ObjectKids(p);
    assert p.Below(p.kids[Key("bundleData")], p.repr);
    var shown := Show(p.kids[Key("bundleData")]);
    text := shown.s;
  }

  /** The graph of a parsed bundle text after the edit of a forgery, as the value that it shows. */
  method EditParsed(f: Forgery, env: Env, parsed: J) returns (edited: Result<J, Thrown>)
    requires InBundle(f)
    ensures
      match BundleEdit(f, env, Some(parsed))
      case Err(e) => edited == Err(e)
      case Ok(e) => edited == Ok(Apply(parsed, e))
  {
    var bd := Build(parsed);
    var e := BundleEdit(f, env, Some(parsed));
    if e.Ok? && e.value.Assign? {
      BundleEditTarget(f, env, parsed);
      AssignableContainer(parsed, e.value.path);
    }
    hide BundleEdit;
    hide IsTarget;
    hide UpdateAt;
    hide Assignable;
    hide Node.Tree;
    if e.Err? {
      return Err(e.error);
    }
    if e.value.Assign? {
      Perform(bd.node, e.value);
    }
    var shown := Show(bd);
    return Ok(shown);
  }

  /** On a bundle text: parse it, assign into the parsed graph, and put its new text into the package. */
  method MutateText(f: Forgery, env: Env, p: Node) returns (thrown: Option<Thrown>)
    requires p.Valid() && !p.isArray && InBundle(f)
    requires "bundleData" in p.value.fields && p.value.fields["bundleData"].Str?
    modifies p.repr
    ensures thrown == Thrower(Mutate(f, env, old(p.value).fields))
    ensures Shows(p, Mutate(f, env, old(p.value).fields)) && fresh(p.repr - old(p.repr))
  {
    TextMutation(f, env, p.value.fields);
    hide Mutate;
    hide BundleEdit;
    hide Node.Tree;
    var text := BundleText(p);
    var parsed := env.parse(text);
    if parsed.None? {
      return Some(SyntaxError);
    }
    var edited := EditParsed(f, env, parsed.value);
    if edited.Err? {
      return Some(edited.error);
    }
    p.Put(Key("bundleData"), Leaf(Str(env.stringify(edited.value))));
    return None;
  }

  /** The `mutate` function of a forgery. */
  method MutateGraph(f: Forgery, env: Env, p: Node) returns (thrown: Option<Thrown>)
    requires p.Valid() && !p.isArray
    modifies p.repr
    ensures thrown == Thrower(Mutate(f, env, old(p.value).fields))
    ensures Shows(p, Mutate(f, env, old(p.value).fields)) && fresh(p.repr - old(p.repr))
  {
    var shown := Show(Ref(p));
    if InBundle(f) && "bundleData" in shown.fields && shown.fields["bundleData"].Str? {
      thrown := MutateText(f, env, p);
    } else {
      thrown := MutateInPlace(f, env, p);
    }
  }

  /** `reseal`: the export hash becomes a new array with the hash of the rest of the package. */
  method ResealGraph(env: Env, p: Node)
    requires p.Valid() && !p.isArray
    modifies p.repr
    ensures p.Valid() && p.value == Obj(Reseal(env, old(p.value).fields)) && fresh(p.repr - old(p.repr))
  {
    var shown := Show(Ref(p));
    var seal := Build(HashArray(env.hash(Intermediate(env, shown.fields))));
    hide Intermediate;
    p.Put(Key("exportHash"), seal);
  }

  /**
   `applyForgery`. It changes no object that existed before, so the clean package keeps its whole graph; the
   forged package is a graph of new objects that shows the forged fields.
   */
  method ApplyForgery(pkg: Node, id: string, env: Env, canReseal: bool) returns (r: Result<Node, Thrown>)
    requires RoundTrips(env) && pkg.Valid() && !pkg.isArray
    ensures
      match Forge(id, env, pkg.value.fields, canReseal)
      case Err(e) => r == Err(e)
      case Ok(q) => r.Ok? && r.value.Valid() && fresh(r.value.repr) && r.value.value == Obj(q)
    ensures pkg.Valid() && pkg.value == old(pkg.value)
  {
    hide Node.Tree;
    hide Parse;
    var forgery := Parse(id);
    if forgery.None? {
      return Err(UnknownForgery);
    }
    var f := forgery.value;
    var p := Clone(env, pkg);
    var thrown := MutateGraph(f, env, p);
    hide Mutate;
    hide Reseal;
    if thrown.Some? {
      return Err(thrown.value);
    }
    if Reseals(f) {
      if !canReseal {
        return Err(NeedsReseal);
      }
      ResealGraph(env, p);
    }
    return Ok(p);
  }
}
