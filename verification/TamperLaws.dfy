/** What every forgery changes, what it leaves alone, and what re-sealing does to the export hash. */
module TamperLaws {
  import opened Wrappers
  import opened Json
  import opened Tamper

  // ---- Single edits ----

  /** An inverted first byte is a change exactly when there is a first byte. */
  lemma {:induction false} FlipFirstChanges(env: Env, v: J)
    ensures FlipFirst(env, v) != v <==> v.Arr? && v.items != []
  {
    if v.Arr? && v.items != [] {
      var first := v.items[0];
      assert FlipFirst(env, v).items[0] == Num(FlippedByte(env, first));
      if first.Num? {
        ByteParity(first.n);
      }
    }
  }

  lemma ByteParity(n: int)
    ensures 255 - n % 256 != n
  {
    if 0 <= n < 256 {
      assert n % 256 == n;
    }
  }

  /** On bytes, inverting twice gives the first array back. */
  lemma {:induction false} FlipFirstTwice(env: Env, v: J)
    requires v.Arr? && v.items != [] && v.items[0].Num? && 0 <= v.items[0].n < 256
    ensures FlipFirst(env, FlipFirst(env, v)) == v
  {
    assert v.items[0].n % 256 == v.items[0].n;
    var once := FlipFirst(env, v);
    assert once.items[0].n % 256 == once.items[0].n;
    assert once.items[0 := v.items[0]] == v.items;
  }

  /** The paths at which a forgery may assign; the first element of a list is an array element or property "0". */
  predicate IsTarget(f: Forgery, path: Path) {
    match f
    case Approver =>
      |path| == 4 && path[0] == Key("bundleData") && path[1] in [Key("approvalEvidence"), Key("ApprovalEvidence")]
      && IsFirst(path[2]) && path[3] == Key("identity")
    case PlanHash =>
      |path| == 4 && path[0] == Key("bundleData") && path[1] in [Key("approvalEvidence"), Key("ApprovalEvidence")]
      && IsFirst(path[2]) && path[3] == Key("planHash")
    case OutcomeDigest => path == [Key("outcomeDigest")]
    case ChainHash =>
      |path| == 4 && path[0] == Key("inclusionProofs") && IsFirst(path[1])
      && path[2] == Key("link") && path[3] == Key("contentHash")
    case Policy => path == [Key("bundleData"), Key("policyDecisions")]
    case Trust =>
      |path| == 3 && path[0] == Key("trustSnapshot") && IsFirst(path[1]) && path[2] == Key("blockHeight")
    case Plugin =>
      |path| == 3 && path[0] == Key("pluginVersions") && IsFirst(path[1]) && path[2] == Key("implementationHash")
  }

  predicate IsFirst(seg: Seg) {
    seg == Idx(0) || seg == Key("0")
  }

  lemma FirstIsChild(v: J)
    requires Truthy(First(v)) && (First(v).value.Obj? || First(v).value.Arr?)
    ensures Child(v, FirstSeg(v)) == First(v) && IsFirst(FirstSeg(v))
  {
  }

  lemma {:induction false} ObjAssignable(j: J, path: Path, key: string)
    requires At(j, path).Some? && At(j, path).value.Obj?
    ensures Assignable(j, path + [Key(key)])
  {
    if path != [] {
      ObjAssignable(Child(j, path[0]).value, path[1..], key);
      assert (path + [Key(key)])[1..] == path[1..] + [Key(key)];
    }
  }

  lemma AtTwo(j: J, a: Seg, b: Seg)
    requires Child(j, a).Some?
    ensures At(j, [a, b]) == Child(Child(j, a).value, b)
  {
    assert [a, b][1..] == [b];
    var c := Child(j, a).value;
    assert At(c, [b]) == Child(c, b) by {
      if Child(c, b).Some? {
        assert At(Child(c, b).value, []) == Child(c, b);
      }
    }
  }

  lemma AtThree(j: J, a: Seg, b: Seg, c: Seg)
    requires Child(j, a).Some? && Child(Child(j, a).value, b).Some?
    ensures At(j, [a, b, c]) == Child(Child(Child(j, a).value, b).value, c)
  {
    assert [a, b, c][1..] == [b, c];
    AtTwo(Child(j, a).value, b, c);
  }

  /** Assigning a property of the first element of a list. */
  lemma FirstElementEdit(root: J, list: string, key: string, v: J)
    requires Child(root, Key(list)).Some? && Truthy(First(Child(root, Key(list)).value))
    ensures
      var items := Child(root, Key(list)).value;
      var e := AssignProp([Key(list), FirstSeg(items)], First(items).value, key, v);
      e.Ok? && e.value.Assign? ==>
        && e.value.path == [Key(list), FirstSeg(items), Key(key)]
        && IsFirst(FirstSeg(items))
        && Assignable(root, e.value.path)
  {
    var items := Child(root, Key(list)).value;
    var at := [Key(list), FirstSeg(items)];
    if First(items).value.Obj? {
      FirstIsChild(items);
      AtTwo(root, Key(list), FirstSeg(items));
      ObjAssignable(root, at, key);
      assert at + [Key(key)] == [Key(list), FirstSeg(items), Key(key)];
    }
  }

  lemma BundleEditTarget(f: Forgery, env: Env, bd: J)
    requires InBundle(f) && BundleEdit(f, env, Some(bd)).Ok? && BundleEdit(f, env, Some(bd)).value.Assign?
    ensures
      var path := BundleEdit(f, env, Some(bd)).value.path;
      && path != [] && IsTarget(f, [Key("bundleData")] + path)
      && Assignable(bd, path)
  {
    if !f.Policy? {
      var list := Approvals(Some(bd)).value.value;
      var first := First(list.1);
      assert Child(bd, Key(list.0)) == Some(list.1);
      var v := if f.Approver? then Str(ATTACKER) else FlipFirst(env, Child(first.value, Key("planHash")).value);
      FirstElementEdit(bd, list.0, if f.Approver? then "identity" else "planHash", v);
    }
  }

  lemma PackageEditTarget(f: Forgery, env: Env, p: Fields)
    requires !InBundle(f) && PackageEdit(f, env, p).Ok? && PackageEdit(f, env, p).value.Assign?
    ensures
      var path := PackageEdit(f, env, p).value.path;
      && path != [] && IsTarget(f, path)
      && Assignable(Obj(p), path)
  {
    match f
    case OutcomeDigest =>
    case ChainHash => InclusionTarget(env, p);
    case Trust => FirstElementEdit(Obj(p), "trustSnapshot", "blockHeight", Num(0));
    case Plugin => FirstElementEdit(Obj(p), "pluginVersions", "implementationHash", Str(""));
  }

  lemma InclusionTarget(env: Env, p: Fields)
    requires EditInclusion(env, p).Assign?
    ensures IsTarget(ChainHash, EditInclusion(env, p).path) && Assignable(Obj(p), EditInclusion(env, p).path)
  {
    var list := Lookup(p, "inclusionProofs").value;
    FirstIsChild(list);
    var at := [Key("inclusionProofs"), FirstSeg(list), Key("link")];
    AtThree(Obj(p), at[0], at[1], at[2]);
    ObjAssignable(Obj(p), at, "contentHash");
    assert FirstOf(p, "inclusionProofs").value.0 + [Key("link"), Key("contentHash")] == at + [Key("contentHash")];
  }

  // ---- A forgery is one assignment ----

  /** The bundle data is not a JSON text: an inlined value, or missing. */
  predicate IsInlined(p: Fields) {
    "bundleData" in p ==> !p["bundleData"].Str?
  }

  /** The package with a bundle text replaced by the value that it parses to, if it does. */
  function Parsed(env: Env, p: Fields): Fields {
    if IsInlined(p) || env.parse(p["bundleData"].s).None? then p
    else p["bundleData" := env.parse(p["bundleData"].s).value]
  }

  /** The edit of a forgery, as an assignment to the whole parsed package. */
  function WholeEdit(f: Forgery, env: Env, p: Fields): Result<Edit, Thrown> {
    if !InBundle(f) then PackageEdit(f, env, p)
    else if !IsInlined(p) && env.parse(p["bundleData"].s).None? then Err(SyntaxError)
    else
      match BundleEdit(f, env, Lookup(Parsed(env, p), "bundleData"))
      case Err(e) => Err(e)
      case Ok(Nothing) => Ok(Nothing)
      case Ok(Assign(path, v)) => Ok(Assign([Key("bundleData")] + path, v))
  }

  lemma {:induction false} UpdateKeepsObject(j: J, path: Path, v: J)
    requires path != []
    ensures UpdateAt(j, path, v).Obj? == j.Obj? && UpdateAt(j, path, v).Str? == j.Str?
  {
  }

  lemma UpdateBelow(p: Fields, key: string, path: Path, v: J)
    requires key in p && path != []
    ensures UpdateAt(Obj(p), [Key(key)] + path, v) == Obj(p[key := UpdateAt(p[key], path, v)])
  {
    assert ([Key(key)] + path)[1..] == path;
  }

  /** An assignment below one field does not care about the value of another field. */
  lemma UpdateOtherField(p: Fields, path: Path, v: J, key: string, w: J)
    requires path != [] && path[0] != Key(key)
    ensures UpdateAt(Obj(p[key := w]), path, v).Obj? && UpdateAt(Obj(p), path, v).Obj?
    ensures UpdateAt(Obj(p[key := w]), path, v).fields == UpdateAt(Obj(p), path, v).fields[key := w]
  {
    if path[0].Key? {
      var k := path[0].key;
      assert Lookup(p[key := w], k) == Lookup(p, k);
      var u := if |path| > 1 && k in p then UpdateAt(p[k], path[1..], v) else v;
      assert p[key := w][k := u] == p[k := u][key := w];
    }
  }

  lemma UpdateOneField(p: Fields, path: Path, v: J, key: string)
    requires path != [] && path[0] != Key(key)
    ensures UpdateAt(Obj(p), path, v).Obj? && Lookup(UpdateAt(Obj(p), path, v).fields, key) == Lookup(p, key)
  {
  }

  /** `q` is `p` after at most one assignment, at a target of the forgery. */
  ghost predicate IsOneAssignment(f: Forgery, p: Fields, q: Fields, e: Edit) {
    && Obj(q) == Apply(Obj(p), e)
    && (e.Assign? ==> e.path != [] && IsTarget(f, e.path) && Assignable(Obj(p), e.path))
  }

  lemma PackageMutation(f: Forgery, env: Env, p: Fields)
    requires !InBundle(f)
    ensures
      match PackageEdit(f, env, p)
      case Err(e) => Mutate(f, env, p) == Err(e)
      case Ok(e) => Mutate(f, env, p).Ok? && IsOneAssignment(f, p, Mutate(f, env, p).value, e)
  {
    var edit := PackageEdit(f, env, p);
    if edit.Ok? && edit.value.Assign? {
      PackageEditTarget(f, env, p);
      UpdateKeepsObject(Obj(p), edit.value.path, edit.value.value);
    }
  }

  lemma InlinedMutation(f: Forgery, env: Env, p: Fields)
    requires InBundle(f) && IsInlined(p)
    ensures
      match WholeEdit(f, env, p)
      case Err(e) => Mutate(f, env, p) == Err(e)
      case Ok(e) =>
        && Mutate(f, env, p).Ok? && IsOneAssignment(f, p, Mutate(f, env, p).value, e)
        && IsInlined(Mutate(f, env, p).value)
  {
    if "bundleData" in p {
      var bd := p["bundleData"];
      var edit := BundleEdit(f, env, Some(bd));
      if edit.Ok? && edit.value.Assign? {
        BundleEditTarget(f, env, bd);
        UpdateBelow(p, "bundleData", edit.value.path, edit.value.value);
        UpdateKeepsObject(bd, edit.value.path, edit.value.value);
        assert ([Key("bundleData")] + edit.value.path)[1..] == edit.value.path;
      } else if edit.Ok? {
        assert p["bundleData" := bd] == p;
      }
    }
  }

  lemma TextMutation(f: Forgery, env: Env, p: Fields)
    requires InBundle(f) && !IsInlined(p)
    ensures
      var parsed := env.parse(p["bundleData"].s);
      if parsed.None? then Mutate(f, env, p) == Err(SyntaxError)
      else
        match BundleEdit(f, env, parsed)
        case Err(e) => Mutate(f, env, p) == Err(e)
        case Ok(e) => Mutate(f, env, p) == Ok(p["bundleData" := Str(env.stringify(Apply(parsed.value, e)))])
  {
  }

  /** Editing a bundle text is, on the parsed package, the same single assignment. */
  lemma ParsedTextMutation(f: Forgery, env: Env, p: Fields)
    requires InBundle(f) && !IsInlined(p) && RoundTrips(env)
    ensures
      match WholeEdit(f, env, p)
      case Err(e) => Mutate(f, env, p) == Err(e)
      case Ok(e) =>
        && Mutate(f, env, p).Ok? && IsOneAssignment(f, Parsed(env, p), Parsed(env, Mutate(f, env, p).value), e)
  {
    TextMutation(f, env, p);
    hide Mutate;
    var parsed := env.parse(p["bundleData"].s);
    if parsed.Some? && BundleEdit(f, env, parsed).Ok? {
      var edit, clear := BundleEdit(f, env, parsed).value, Parsed(env, p);
      var edited := Apply(parsed.value, edit);
      assert env.parse(env.stringify(edited)) == Some(edited);
      assert Parsed(env, Mutate(f, env, p).value) == clear["bundleData" := edited];
      if edit.Assign? {
        BundleEditTarget(f, env, parsed.value);
        UpdateBelow(clear, "bundleData", edit.path, edit.value);
        assert ([Key("bundleData")] + edit.path)[1..] == edit.path;
      } else {
        assert clear["bundleData" := parsed.value] == clear;
      }
    }
  }

  /** The forgeries of the package itself leave the bundle data as it is. */
  lemma ParsedPackageMutation(f: Forgery, env: Env, p: Fields)
    requires !InBundle(f) && Mutate(f, env, p).Ok?
    ensures IsOneAssignment(f, Parsed(env, p), Parsed(env, Mutate(f, env, p).value), PackageEdit(f, env, p).value)
  {
    PackageMutation(f, env, p);
    var e, q := PackageEdit(f, env, p).value, Mutate(f, env, p).value;
    if e.Assign? {
      UpdateOneField(p, e.path, e.value, "bundleData");
      assert Lookup(q, "bundleData") == Lookup(p, "bundleData");
      if Parsed(env, p) != p {
        var bd := env.parse(p["bundleData"].s).value;
        UpdateOtherField(p, e.path, e.value, "bundleData", bd);
        AssignableOtherField(p, e.path, "bundleData", bd);
      }
    }
  }

  lemma AssignableOtherField(p: Fields, path: Path, key: string, w: J)
    requires path != [] && path[0] != Key(key)
    ensures Assignable(Obj(p[key := w]), path) == Assignable(Obj(p), path)
  {
    if path[0].Key? {
      assert Lookup(p[key := w], path[0].key) == Lookup(p, path[0].key);
    }
  }

  /** The text of the bundle data can be read back after it was edited. */
  ghost predicate Readable(f: Forgery, env: Env, p: Fields) {
    InBundle(f) && !IsInlined(p) ==> RoundTrips(env)
  }

  /**
   A forgery of any package, in either form of the bundle data, either throws or makes at most one assignment
   to the parsed package, at one of its target paths, whose containers exist.
   */
  lemma {:induction false} MutateIsOneAssignment(f: Forgery, env: Env, p: Fields)
    requires Readable(f, env, p)
    ensures
      match WholeEdit(f, env, p)
      case Err(e) => Mutate(f, env, p) == Err(e)
      case Ok(e) =>
        && Mutate(f, env, p).Ok?
        && IsOneAssignment(f, Parsed(env, p), Parsed(env, Mutate(f, env, p).value), e)
  {
    if !InBundle(f) {
      PackageMutation(f, env, p);
      if Mutate(f, env, p).Ok? {
        ParsedPackageMutation(f, env, p);
      }
    } else if IsInlined(p) {
      InlinedMutation(f, env, p);
    } else {
      ParsedTextMutation(f, env, p);
    }
    hide Mutate;
    hide WholeEdit;
    hide IsOneAssignment;
  }

  /** Unless a bundle text is edited, the same holds of the package as it is, without any parsing. */
  lemma RawMutation(f: Forgery, env: Env, p: Fields)
    requires InBundle(f) ==> IsInlined(p)
    ensures
      match WholeEdit(f, env, p)
      case Err(e) => Mutate(f, env, p) == Err(e)
      case Ok(e) => Mutate(f, env, p).Ok? && IsOneAssignment(f, p, Mutate(f, env, p).value, e)
  {
    if InBundle(f) {
      InlinedMutation(f, env, p);
    } else {
      PackageMutation(f, env, p);
    }
    hide Mutate;
    hide IsOneAssignment;
  }

  ghost predicate ApartFromTargets(f: Forgery, path: Path) {
    forall target | IsTarget(f, target) :: Apart(target, path)
  }

  /** Re-sealing touches the export hash only. */
  lemma ResealFrame(env: Env, p: Fields, path: Path)
    requires path != [] && path[0] != Key("exportHash")
    ensures At(Obj(Parsed(env, Reseal(env, p))), path) == At(Obj(Parsed(env, p)), path)
    ensures At(Obj(Reseal(env, p)), path) == At(Obj(p), path)
  {
    var seal := HashArray(env.hash(Intermediate(env, p)));
    hide Intermediate;
    assert Obj(Reseal(env, p)) == SetChild(Obj(p), Key("exportHash"), seal);
    assert Parsed(env, Reseal(env, p)) == Parsed(env, p)["exportHash" := seal];
    assert Obj(Parsed(env, Reseal(env, p))) == SetChild(Obj(Parsed(env, p)), Key("exportHash"), seal);
    ChildAfterSet(Obj(p), Key("exportHash"), seal, path[0]);
    ChildAfterSet(Obj(Parsed(env, p)), Key("exportHash"), seal, path[0]);
  }

  /**
   Framing. A forged package, in either form of the bundle data, differs from the clean one only below the
   target path of the forgery and, if it was re-sealed, in the export hash; a bundle text that is not edited
   even keeps its spelling.
   */
  lemma {:induction false} ForgeFrame(id: string, env: Env, p: Fields, canReseal: bool, path: Path)
    requires Forge(id, env, p, canReseal).Ok? && Readable(Parse(id).value, env, p)
    requires path != [] && path[0] != Key("exportHash") && ApartFromTargets(Parse(id).value, path)
    ensures At(Obj(Parsed(env, Forge(id, env, p, canReseal).value)), path) == At(Obj(Parsed(env, p)), path)
    ensures (InBundle(Parse(id).value) ==> IsInlined(p)) ==>
              At(Obj(Forge(id, env, p, canReseal).value), path) == At(Obj(p), path)
  {
    var f := Parse(id).value;
    MutateIsOneAssignment(f, env, p);
    if InBundle(f) ==> IsInlined(p) {
      RawMutation(f, env, p);
    }
    var e, q := WholeEdit(f, env, p).value, Mutate(f, env, p).value;
    hide Mutate;
    hide WholeEdit;
    hide Parsed;
    hide Reseal;
    hide UpdateAt;
    hide At;
    if e.Assign? {
      UpdateFrame(Obj(Parsed(env, p)), e.path, e.value, path);
      UpdateFrame(Obj(p), e.path, e.value, path);
    }
    ResealFrame(env, q, path);
  }

  /** A forgery changes the parsed package exactly when its assignment changes the value at its path. */
  lemma {:induction false} ForgeryChanges(f: Forgery, env: Env, p: Fields)
    requires Mutate(f, env, p).Ok? && Readable(f, env, p)
    ensures
      var e, clear := WholeEdit(f, env, p).value, Parsed(env, p);
      Parsed(env, Mutate(f, env, p).value) != clear <==> e.Assign? && At(Obj(clear), e.path) != Some(e.value)
  {
    MutateIsOneAssignment(f, env, p);
    var e := WholeEdit(f, env, p).value;
    hide Mutate;
    hide WholeEdit;
    hide Parsed;
    if e.Assign? {
      UpdateChanges(Obj(Parsed(env, p)), e.path, e.value);
    }
  }

  /** What each forgery leaves at its target, given what was there before. */
  predicate Forged(f: Forgery, env: Env, was: Option<J>, now: J) {
    match f
    case Approver => now == Str(ATTACKER)
    case Policy => was.Some? && was.value.Arr? && now.Arr? && |was.value.items| == |now.items| + 1
                   && now.items == was.value.items[1..]
    case Trust => now == Num(0)
    case Plugin => now == Str("")
    case _ => was.Some? && was.value.Arr? && now == FlipFirst(env, was.value)
  }

  lemma ForgedBundleValue(f: Forgery, env: Env, bd: J)
    requires InBundle(f) && BundleEdit(f, env, Some(bd)).Ok? && BundleEdit(f, env, Some(bd)).value.Assign?
    ensures
      var e := BundleEdit(f, env, Some(bd)).value;
      Forged(f, env, At(bd, e.path), e.value)
  {
    match f
    case Policy =>
      assert [Key("policyDecisions")][1..] == [];
      var list := Child(bd, Key("policyDecisions")).value;
      assert At(list, []) == Some(list);
    case PlanHash =>
      var list := Approvals(Some(bd)).value.value;
      var first := First(list.1);
      FirstIsChild(list.1);
      assert [Key(list.0), FirstSeg(list.1)] + [Key("planHash")] == [Key(list.0), FirstSeg(list.1), Key("planHash")];
      AtThree(bd, Key(list.0), FirstSeg(list.1), Key("planHash"));
    case Approver =>
  }

  lemma ForgedPackageValue(f: Forgery, env: Env, p: Fields)
    requires !InBundle(f) && PackageEdit(f, env, p).Ok? && PackageEdit(f, env, p).value.Assign?
    ensures
      var e := PackageEdit(f, env, p).value;
      Forged(f, env, At(Obj(p), e.path), e.value)
  {
    match f
    case OutcomeDigest =>
      assert [Key("outcomeDigest")][1..] == [];
      var digest := Child(Obj(p), Key("outcomeDigest")).value;
      assert At(digest, []) == Some(digest);
    case ChainHash =>
      var list := Lookup(p, "inclusionProofs").value;
      FirstIsChild(list);
      var path := [Key("inclusionProofs"), FirstSeg(list), Key("link"), Key("contentHash")];
      assert EditInclusion(env, p).path == path;
      assert path[1..] == [FirstSeg(list), Key("link"), Key("contentHash")];
      AtThree(list, FirstSeg(list), Key("link"), Key("contentHash"));
    case Trust =>
    case Plugin =>
  }

  lemma PackageValuesKept(env: Env, p: Fields, path: Path)
    requires path != [] && path[0] != Key("bundleData")
    ensures At(Obj(Parsed(env, p)), path) == At(Obj(p), path)
  {
    if Parsed(env, p) != p {
      var bd := env.parse(p["bundleData"].s).value;
      ChildAfterSet(Obj(p), Key("bundleData"), bd, path[0]);
    }
  }

  /** Whenever a forgery makes an assignment, reading its target back gives the forged value. */
  lemma {:induction false} ForgeryWrites(f: Forgery, env: Env, p: Fields)
    requires Mutate(f, env, p).Ok? && Readable(f, env, p) && WholeEdit(f, env, p).value.Assign?
    ensures
      var path := WholeEdit(f, env, p).value.path;
      var now := At(Obj(Parsed(env, Mutate(f, env, p).value)), path);
      now.Some? && Forged(f, env, At(Obj(Parsed(env, p)), path), now.value)
  {
    MutateIsOneAssignment(f, env, p);
    var e, clear := WholeEdit(f, env, p).value, Parsed(env, p);
    UpdateRead(Obj(clear), e.path, e.value);
    if InBundle(f) {
      var bd := clear["bundleData"];
      ForgedBundleValue(f, env, bd);
      assert e.path[1..] == BundleEdit(f, env, Some(bd)).value.path;
    } else {
      ForgedPackageValue(f, env, p);
      PackageValuesKept(env, p, e.path);
    }
  }
}
