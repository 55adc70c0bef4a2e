/**
 JavaScript objects and arrays on the heap, as web/tamper.js works on them: `clone` builds a fresh graph by
 printing and parsing, and every forgery is an assignment into that graph. A graph is valid when it is a
 tree; its abstract value is the JSON value that printing it would give.
 */
module JsGraph {
  import opened Wrappers
  import opened Json

  /** A property value: a primitive, or a reference to an object or array. */
  datatype V = Leaf(j: J) | Ref(node: Node)

  ghost function ValueOf(v: V): J
    reads if v.Ref? then {v.node} else {}
  {
    match v
    case Leaf(j) => j
    case Ref(n) => n.value
  }

  ghost function ReprOf(v: V): set<Node>
    reads if v.Ref? then {v.node} else {}
  {
    match v
    case Leaf(_) => {}
    case Ref(n) => n.repr
  }

  ghost predicate ValidV(v: V)
    reads if v.Ref? then {v.node} + v.node.repr else {}
  {
    match v
    case Leaf(j) => !j.Obj? && !j.Arr?
    case Ref(n) => n.Valid()
  }

  /** Assignment to a property, or to an element of an array that may be extended by one. */
  function Stored(j: J, seg: Seg, v: J): J {
    if j.Arr? && seg.Idx? && seg.index == |j.items| then Arr(j.items + [v]) else SetChild(j, seg, v)
  }

  predicate Storable(j: J, seg: Seg) {
    (j.Obj? && seg.Key?) || (j.Arr? && seg.Idx? && seg.index <= |j.items|)
  }

  lemma ChildOfStored(j: J, seg: Seg, v: J)
    requires Storable(j, seg)
    ensures forall s :: Child(Stored(j, seg, v), s) == if s == seg then Some(v) else Child(j, s)
    ensures Stored(j, seg, v).Arr? == j.Arr? && Stored(j, seg, v).Obj? == j.Obj?
  {
  }

  lemma AssignableContainer(j: J, path: Path)
    requires path != [] && Assignable(j, path)
    ensures j.Obj? || j.Arr?
  {
  }

  /** The owners once everything in `more` lies below `seg`. */
  ghost function Given(owner: map<Node, Seg>, more: set<Node>, seg: Seg): map<Node, Seg> {
    owner + map x | x in more :: seg
  }

  lemma UpdateDeep(j: J, path: Path, v: J)
    requires |path| > 1 && Assignable(j, path)
    ensures Child(j, path[0]).Some? && Assignable(Child(j, path[0]).value, path[1..])
    ensures UpdateAt(j, path, v) == SetChild(j, path[0], UpdateAt(Child(j, path[0]).value, path[1..], v))
  {
  }

  /** An object, or an array whose elements are its children at the index segments. */
  class Node {
    const isArray: bool
    var kids: map<Seg, V>
    ghost var value: J
    ghost var repr: set<Node>
    /** The property below which a node of the tree lies. */
    ghost var owner: map<Node, Seg>

    ghost predicate Valid()
      reads this, repr
      decreases repr, 3
    {
      && this in repr
      && (isArray ==> value.Arr?) && (!isArray ==> value.Obj?)
      && Tree(kids, value, repr, owner)
    }

    /** The tree below this object, as a statement about given fields. */
    ghost predicate Tree(kids: map<Seg, V>, value: J, repr: set<Node>, owner: map<Node, Seg>)
      requires this in repr
      reads repr - {this}
      decreases repr, 2
    {
      && (forall seg | seg in kids :: Below(kids[seg], repr))
      && Shows(kids, value, repr)
      && Owns(kids, repr, owner)
    }

    /** A property value: a primitive, or a valid tree strictly inside this one. */
    ghost predicate Below(v: V, repr: set<Node>)
      requires this in repr
      reads repr - {this}
      decreases repr, 0
    {
      match v
      case Leaf(j) => !j.Obj? && !j.Arr?
      case Ref(c) => c in repr && c != this && c.repr <= repr && this !in c.repr && c.Valid()
    }

    /** The value has exactly the children that the object has. */
    ghost predicate Shows(kids: map<Seg, V>, value: J, repr: set<Node>)
      reads repr - {this}
    {
      && (forall seg | seg in kids && kids[seg].Ref? :: kids[seg].node in repr - {this})
      && forall seg :: Child(value, seg) == if seg in kids then Some(ValueOf(kids[seg])) else None
    }

    /** Everything below a property belongs to that property alone. */
    ghost predicate Owns(kids: map<Seg, V>, repr: set<Node>, owner: map<Node, Seg>)
      reads repr - {this}
    {
      && (forall seg | seg in kids && kids[seg].Ref? :: kids[seg].node in repr - {this})
      && owner.Keys <= repr
      && forall seg, x | seg in kids && x in ReprOf(kids[seg]) :: x in owner && owner[x] == seg
    }

    lemma BelowGrows(v: V, repr: set<Node>, more: set<Node>)
      requires this in repr && Below(v, repr)
      ensures Below(v, repr + more)
    {
    }

    lemma ShowsMore(kids: map<Seg, V>, value: J, repr: set<Node>, seg: Seg, v: V)
      requires this in repr && (forall s | s in kids :: Below(kids[s], repr)) && Shows(kids, value, repr)
      requires Storable(value, seg) && (v.Ref? ==> v.node !in repr && v.node in v.node.repr)
      ensures Shows(kids[seg := v], Stored(value, seg, ValueOf(v)), repr + ReprOf(v))
    {
      ChildOfStored(value, seg, ValueOf(v));
      hide Child;
      hide Stored;
      hide Storable;
    }

    lemma OwnsMore(kids: map<Seg, V>, repr: set<Node>, owner: map<Node, Seg>, seg: Seg, v: V)
      requires this in repr && (forall s | s in kids :: Below(kids[s], repr)) && Owns(kids, repr, owner)
      requires ReprOf(v) !! repr && (v.Ref? ==> v.node in v.node.repr)
      ensures Owns(kids[seg := v], repr + ReprOf(v), Given(owner, ReprOf(v), seg))
    {
      var own := Given(owner, ReprOf(v), seg);
      forall s, x | s in kids && s != seg && x in ReprOf(kids[s]) ensures x in own && own[x] == s {
        assert Below(kids[s], repr);
        assert x in repr;
      }
    }

    lemma TreeMore(kids: map<Seg, V>, value: J, repr: set<Node>, owner: map<Node, Seg>, seg: Seg, v: V)
      requires this in repr && Tree(kids, value, repr, owner) && Storable(value, seg)
      requires ValidV(v) && ReprOf(v) !! repr
      ensures Tree(kids[seg := v], Stored(value, seg, ValueOf(v)), repr + ReprOf(v),
                   Given(owner, ReprOf(v), seg))
    {
      ShowsMore(kids, value, repr, seg, v);
      OwnsMore(kids, repr, owner, seg, v);
      var more := kids[seg := v];
      forall s | s in more ensures Below(more[s], repr + ReprOf(v)) {
        if s != seg {
          BelowGrows(kids[s], repr, ReprOf(v));
        }
      }
      hide Shows;
      hide Owns;
      hide Below;
    }

    constructor (isArray: bool)
      ensures Valid() && repr == {this}
      ensures this.isArray == isArray && value == if isArray then Arr([]) else Obj(map[])
    {
      this.isArray := isArray;
      kids := map[];
      value := if isArray then Arr([]) else Obj(map[]);
      repr, owner := {this}, map[];
    }

    /** Records the new value and tree after a change below one property. */
    ghost method Record(value: J, repr: set<Node>, owner: map<Node, Seg>)
      requires this in repr && value.Arr? == isArray && value.Obj? == !isArray
      requires Tree(kids, value, repr, owner)
      modifies this`value, this`repr, this`owner
      ensures Valid() && this.value == value && this.repr == repr
    {
      hide Shows;
      hide Owns;
      this.value, this.repr, this.owner := value, repr, owner;
    }

    /** Sets or adds one property; an array is only extended by the index that is its length. */
    method Put(seg: Seg, v: V)
      requires Valid() && ValidV(v) && ReprOf(v) !! repr
      requires Storable(value, seg)
      modifies this
      ensures Valid() && repr == old(repr) + ReprOf(v)
      ensures value == Stored(old(value), seg, ValueOf(v))
    {
      ChildOfStored(value, seg, ValueOf(v));
      TreeMore(kids, value, repr, owner, seg, v);
      hide Tree;
      hide Stored;
      hide Storable;
      hide Given;
      hide ValidV;
      ghost var (shown, all) := (Stored(value, seg, ValueOf(v)), repr + ReprOf(v));
      kids := kids[seg := v];
      Record(shown, all, Given(owner, ReprOf(v), seg));
    }

    /** The tree but for the part below one property; `others` are the objects outside that part. */
    ghost predicate SiblingsKept(kids: map<Seg, V>, value: J, others: set<Node>, owner: map<Node, Seg>, seg: Seg)
      requires this !in others
      reads others
    {
      && (forall s | s in kids && s != seg ::
            Below(kids[s], others + {this}) && Child(value, s) == Some(ValueOf(kids[s])))
      && (forall s | s !in kids :: Child(value, s) == None)
      && (forall s, x | s in kids && s != seg && x in ReprOf(kids[s]) :: x in owner && owner[x] == s)
    }

    /** A valid tree splits into the part below one property and the rest. */
    lemma Split(seg: Seg)
      requires Valid() && seg in kids && kids[seg].Ref?
      ensures kids[seg].node.Valid() && kids[seg].node.repr <= repr - {this} && owner.Keys <= repr
      ensures Child(value, seg) == Some(kids[seg].node.value)
      ensures forall x | x in kids[seg].node.repr :: x in owner && owner[x] == seg
      ensures SiblingsKept(kids, value, repr - {this} - kids[seg].node.repr, owner, seg)
    {
      assert Below(kids[seg], repr);
      var others := repr - {this} - kids[seg].node.repr;
      forall s | s in kids && s != seg ensures Below(kids[s], others + {this}) {
        assert Below(kids[s], repr);
        if kids[s].Ref? {
          assert kids[s].node.Valid();
          forall x | x in kids[s].node.repr ensures x in others {
            assert owner[x] == s;
          }
        }
      }
    }

    /** A property below which something can be assigned holds an object or array. */
    lemma Container(seg: Seg, path: Path)
      requires Valid() && Child(value, seg).Some? && path != [] && Assignable(Child(value, seg).value, path)
      ensures seg in kids && kids[seg].Ref? && kids[seg].node.value == Child(value, seg).value
      ensures this in repr && value.Arr? == isArray && value.Obj? == !isArray
    {
      AssignableContainer(Child(value, seg).value, path);
      assert seg in kids && Below(kids[seg], repr);
    }

    lemma ReplacedShows(kids: map<Seg, V>, value: J, others: set<Node>, owner: map<Node, Seg>,
                        seg: Seg, c: Node, repr: set<Node>)
      requires this !in others && SiblingsKept(kids, value, others, owner, seg)
      requires seg in kids && kids[seg] == Ref(c) && Child(value, seg).Some?
      requires c in repr && c != this && others <= repr
      ensures Shows(kids, SetChild(value, seg, c.value), repr)
    {
      forall s ensures Child(SetChild(value, seg, c.value), s)
                       == if s in kids then Some(ValueOf(kids[s])) else None
      {
        if s != seg {
          ChildAfterSet(value, seg, c.value, s);
        }
      }
      forall s | s in kids && kids[s].Ref? ensures kids[s].node in repr - {this} {
        if s != seg {
          assert Below(kids[s], others + {this});
        }
      }
    }

    lemma ReplacedOwns(kids: map<Seg, V>, value: J, others: set<Node>, owner: map<Node, Seg>,
                       seg: Seg, c: Node, below: set<Node>, extra: set<Node>, repr: set<Node>)
      requires this !in others && SiblingsKept(kids, value, others, owner, seg)
      requires seg in kids && kids[seg] == Ref(c) && c in c.repr && c.repr == below + extra
      requires extra !! others && this !in extra && this !in below && owner.Keys <= repr
      requires forall x | x in below :: x in owner && owner[x] == seg
      requires others + below + extra <= repr
      ensures Owns(kids, repr, Given(owner, extra, seg))
    {
      var own := Given(owner, extra, seg);
      forall s, x | s in kids && x in ReprOf(kids[s]) ensures x in own && own[x] == s {
        if s != seg {
          assert Below(kids[s], others + {this});
          assert x in others;
        }
      }
      forall s | s in kids && kids[s].Ref? ensures kids[s].node in repr - {this} {
        if s != seg {
          assert Below(kids[s], others + {this});
        }
      }
    }

    /** The tree is whole again after the part below one property was changed in place and grew by `extra`. */
    lemma TreeReplace(kids: map<Seg, V>, value: J, others: set<Node>, owner: map<Node, Seg>,
                      seg: Seg, c: Node, below: set<Node>, extra: set<Node>, repr: set<Node>)
      requires this !in others && SiblingsKept(kids, value, others, owner, seg)
      requires seg in kids && kids[seg] == Ref(c) && Child(value, seg).Some?
      requires c.Valid() && c.repr == below + extra && this !in below && this !in extra && extra !! others
      requires owner.Keys <= repr && forall x | x in below :: x in owner && owner[x] == seg
      requires repr == {this} + others + below + extra
      ensures Tree(kids, SetChild(value, seg, c.value), repr, Given(owner, extra, seg))
      ensures SetChild(value, seg, c.value).Arr? == value.Arr? && SetChild(value, seg, c.value).Obj? == value.Obj?
    {
      ReplacedShows(kids, value, others, owner, seg, c, repr);
      ReplacedOwns(kids, value, others, owner, seg, c, below, extra, repr);
      forall s | s in kids ensures Below(kids[s], repr) {
        if s != seg {
          assert others + {this} + repr == repr;
          BelowGrows(kids[s], others + {this}, repr);
        }
      }
      hide Shows;
      hide Owns;
      hide SiblingsKept;
    }

    lemma StoredIsUpdate(j: J, seg: Seg, v: J)
      requires Assignable(j, [seg])
      ensures Storable(j, seg) && Stored(j, seg, v) == UpdateAt(j, [seg], v)
    {
    }

    /** `root.a.b.c = v`: walks to the container and assigns in place; every container on the way is updated. */
    method Assign(path: Path, v: V)
      requires Valid() && path != [] && Assignable(value, path)
      requires ValidV(v) && ReprOf(v) !! repr
      modifies repr
      ensures Valid() && repr == old(repr) + ReprOf(v)
      ensures value == UpdateAt(old(value), path, old(ValueOf(v)))
      decreases |path|
    {
      if |path| == 1 {
        assert path == [path[0]];
        StoredIsUpdate(value, path[0], ValueOf(v));
        Put(path[0], v);
      } else {
        AssignBelow(path, v);
      }
    }

    method AssignBelow(path: Path, v: V)
      requires Valid() && |path| > 1 && Assignable(value, path)
      requires ValidV(v) && ReprOf(v) !! repr
      modifies repr
      ensures Valid() && repr == old(repr) + ReprOf(v)
      ensures value == UpdateAt(old(value), path, old(ValueOf(v)))
      decreases |path|, 0
    {
      var seg := path[0];
      UpdateDeep(value, path, ValueOf(v));
      Container(seg, path[1..]);
      Split(seg);
      hide Valid;
      hide Tree;
      hide Below;
      hide Shows;
      hide Owns;
      hide Stored;
      hide Storable;
      hide Given;
      hide SiblingsKept;
      hide SetChild;
      hide UpdateAt;
      hide Assignable;
      hide Child;
      var c := kids[seg].node;
      ghost var below, extra := c.repr, ReprOf(v);
      ghost var others := repr - {this} - below;
      c.Assign(path[1..], v);
      TreeReplace(kids, value, others, owner, seg, c, below, extra, repr + extra);
      Record(SetChild(value, seg, c.value), repr + extra, Given(owner, extra, seg));
    }
  }

  // ---- JSON.parse and JSON.stringify on graphs ----

  /** The fields that are not left to do. */
  function Done(fields: map<string, J>, todo: set<string>): map<string, J> {
    map k | k in fields && k !in todo :: fields[k]
  }

  lemma DoneStarts(fields: map<string, J>)
    ensures Done(fields, fields.Keys) == map[] && Done(fields, {}) == fields
  {
  }

  lemma DoneStep(fields: map<string, J>, todo: set<string>, k: string)
    requires k in todo && k in fields
    ensures Done(fields, todo)[k := fields[k]] == Done(fields, todo - {k})
  {
  }

  /** The object graph of a parsed value; every object of it is new. */
  method Build(j: J) returns (v: V)
    ensures ValidV(v) && ValueOf(v) == j && fresh(ReprOf(v))
    decreases j, 1
  {
    if j.Arr? {
      var n := BuildArray(j);
      v := Ref(n);
    } else if j.Obj? {
      var n := BuildObject(j);
      v := Ref(n);
    } else {
      v := Leaf(j);
    }
  }

  method BuildArray(j: J) returns (n: Node)
    requires j.Arr?
    ensures n.Valid() && n.isArray && n.value == j && fresh(n.repr)
    decreases j, 0
  {
    hide Node.Tree;
    n := new Node(true);
    for i := 0 to |j.items|
      invariant n.Valid() && n.isArray && fresh(n.repr)
      invariant n.value == Arr(j.items[..i])
    {
      var item := Build(j.items[i]);
      assert j.items[..i] + [j.items[i]] == j.items[..i + 1];
      n.Put(Idx(i), item);
    }
    assert j.items[..|j.items|] == j.items;
  }

  method BuildObject(j: J) returns (n: Node)
    requires j.Obj?
    ensures n.Valid() && !n.isArray && n.value == j && fresh(n.repr)
    decreases j, 0
  {
    hide Node.Tree;
    hide Done;
    n := new Node(false);
    var todo := j.fields.Keys;
    DoneStarts(j.fields);
    while todo != {}
      invariant todo <= j.fields.Keys
      invariant n.Valid() && !n.isArray && fresh(n.repr)
      invariant n.value == Obj(Done(j.fields, todo))
      decreases |todo|
    {
      var k :| k in todo;
      var field := Build(j.fields[k]);
      DoneStep(j.fields, todo, k);
      n.Put(Key(k), field);
      todo := todo - {k};
    }
  }

  /** The value that printing a graph shows. */
  method Show(v: V) returns (j: J)
    requires ValidV(v)
    ensures j == ValueOf(v)
    decreases ReprOf(v), 1
  {
    match v
    case Leaf(p) => j := p;
    case Ref(n) =>
      if n.isArray {
        j := ShowArray(n);
      } else {
        j := ShowObject(n);
      }
  }

  method ShowArray(n: Node) returns (j: J)
    requires n.Valid() && n.isArray
    ensures j == n.value
    decreases n.repr, 0
  {
    var items := [];
    while Idx(|items|) in n.kids
      invariant |items| <= |n.value.items| && items == n.value.items[..|items|]
      decreases |n.value.items| - |items|
    {
      var kid := n.kids[Idx(|items|)];
      assert n.Below(kid, n.repr) && Child(n.value, Idx(|items|)) == Some(ValueOf(kid));
      var item := Show(kid);
      items := items + [item];
    }
    assert Child(n.value, Idx(|items|)) == None;
    j := Arr(items);
  }

  method ShowObject(n: Node) returns (j: J)
    requires n.Valid() && !n.isArray
    ensures j == n.value
    decreases n.repr, 0
  {
    hide Done;
    var fields := map[];
    ObjectKids(n);
    DoneStarts(n.value.fields);
    var todo := set seg | seg in n.kids && seg.Key? :: seg.key;
    assert todo == n.value.fields.Keys;
    while todo != {}
      invariant todo <= n.value.fields.Keys
      invariant fields == Done(n.value.fields, todo)
      decreases |todo|
    {
      var k :| k in todo;
      var field := Show(n.kids[Key(k)]);
      DoneStep(n.value.fields, todo, k);
      fields := fields[k := field];
      todo := todo - {k};
    }
    j := Obj(fields);
  }

  lemma ObjectKids(n: Node)
    requires n.Valid() && !n.isArray
    ensures n.value.Obj? && forall k :: k in n.value.fields <==> Key(k) in n.kids
    ensures forall k | k in n.value.fields ::
      n.Below(n.kids[Key(k)], n.repr) && n.value.fields[k] == ValueOf(n.kids[Key(k)])
  {
    forall k ensures k in n.value.fields <==> Key(k) in n.kids
      ensures k in n.value.fields ==>
        n.Below(n.kids[Key(k)], n.repr) && n.value.fields[k] == ValueOf(n.kids[Key(k)])
    {
      assert Child(n.value, Key(k)) == if Key(k) in n.kids then Some(ValueOf(n.kids[Key(k)])) else None;
    }
  }
}
