/**
 What each of the seven forgeries does to the parsed package, at which path and on which packages: exactly when the
 forged value is there afterwards, and exactly when the forgery throws.
 */
module ForgeryLaws {
  import opened Wrappers
  import opened Json
  import opened Tamper
  import opened TamperLaws

  /** The value of the parsed package at a path. */
  function Read(env: Env, p: Fields, path: Path): Option<J> {
    At(Obj(Parsed(env, p)), path)
  }

  predicate IsObject(v: Option<J>) {
    v.Some? && v.value.Obj?
  }

  /** A truthy value that takes no property: strict-mode code throws when it assigns one. */
  predicate IsTruthyPrimitive(v: Option<J>) {
    Truthy(v) && !v.value.Obj? && !v.value.Arr?
  }

  /** An array of bytes, or of anything, with its first element inverted. */
  function Inverted(env: Env, items: seq<J>): seq<J>
    requires items != []
  {
    [Num(255 - (if items[0].Num? then items[0].n else env.lowByte(items[0])) % 256)] + items[1..]
  }

  /** The bundle data can be read: it is inlined, or a text that parses; and it is neither null nor missing. */
  predicate BundleReadable(env: Env, p: Fields) {
    && (IsInlined(p) || env.parse(p["bundleData"].s).Some?)
    && Read(env, p, [Key("bundleData")]).Some?
    && Read(env, p, [Key("bundleData")]) != Some(Null)
  }

  // ---- Bytes ----

  /** Bit `k` of a number. */
  function Bit(n: nat, k: nat): nat {
    if k == 0 then n % 2 else Bit(n / 2, k - 1)
  }

  function TwoTo(w: nat): nat {
    if w == 0 then 1 else 2 * TwoTo(w - 1)
  }

  lemma {:induction false} ComplementBits(m: nat, w: nat, k: nat)
    requires m < TwoTo(w) && k < w
    ensures Bit(TwoTo(w) - 1 - m, k) == 1 - Bit(m, k)
  {
    if k > 0 {
      assert (TwoTo(w) - 1 - m) / 2 == TwoTo(w - 1) - 1 - m / 2;
      ComplementBits(m / 2, w - 1, k - 1);
    }
  }

  /** `(b ^ 0xff) & 0xff`: of the eight low bits of a number, exactly those are set that were not. */
  lemma {:induction false} InvertedBits(env: Env, n: int, k: nat)
    ensures 0 <= FlippedByte(env, Num(n)) < 256
    ensures k < 8 ==> Bit(FlippedByte(env, Num(n)), k) != Bit(n % 256, k)
  {
    assert TwoTo(8) == 256;
    if k < 8 {
      ComplementBits(n % 256, 8, k);
    }
  }

  // ---- Reading along paths ----

  lemma {:induction false} AtSnoc(root: J, path: Path, seg: Seg)
    ensures At(root, path + [seg]) == if At(root, path).None? then None else Child(At(root, path).value, seg)
  {
    if path == [] {
      assert path + [seg] == [seg];
      assert [seg][1..] == [];
      if Child(root, seg).Some? {
        assert At(Child(root, seg).value, []) == Child(root, seg);
      }
    } else if Child(root, path[0]).Some? {
      AtSnoc(Child(root, path[0]).value, path[1..], seg);
      assert (path + [seg])[1..] == path[1..] + [seg];
    }
  }

  lemma {:induction false} ApartBelow(base: Path, a: Path, b: Path)
    requires Apart(a, b)
    ensures Apart(base + a, base + b)
  {
    if base == [] {
      assert base + a == a && base + b == b;
    } else {
      ApartBelow(base[1..], a, b);
      assert (base + a)[1..] == base[1..] + a && (base + b)[1..] == base[1..] + b;
    }
  }

  lemma {:induction false} AssignableSnoc(root: J, path: Path, key: string)
    requires IsObject(At(root, path))
    ensures Assignable(root, path + [Key(key)])
  {
    ObjAssignable(root, path, key);
  }

  /** A forgery that assigns a property of the first element of a list, wherever the list is. */
  lemma {:induction false} FirstPropForged(root: J, base: Path, key: string, v: J, e: Edit, seg: Seg)
    requires IsFirst(seg) && At(root, base).Some?
    requires
      var c := At(root, base).value;
      if !Truthy(First(c)) then e == Nothing
      else AssignProp(base + [FirstSeg(c)], First(c).value, key, v) == Ok(e)
    ensures At(Apply(root, e), base + [seg] + [Key(key)]) == Some(v)
            <==> IsObject(At(root, base + [seg])) || At(root, base + [seg] + [Key(key)]) == Some(v)
    ensures IsObject(At(root, base + [seg])) <==> e == Assign(base + [seg] + [Key(key)], v)
    ensures !IsObject(At(root, base + [seg])) ==> At(root, base + [seg] + [Key(key)]) == None
  {
    var c := At(root, base).value;
    AtSnoc(root, base, seg);
    AtSnoc(root, base + [seg], Key(key));
    if e.Assign? {
      AtSnoc(root, base, FirstSeg(c));
      AssignableSnoc(root, base + [FirstSeg(c)], key);
      UpdateRead(root, e.path, v);
      if seg != FirstSeg(c) {
        assert Apart([FirstSeg(c), Key(key)], [seg, Key(key)]);
        ApartBelow(base, [FirstSeg(c), Key(key)], [seg, Key(key)]);
        assert base + [FirstSeg(c), Key(key)] == e.path;
        assert base + [seg, Key(key)] == base + [seg] + [Key(key)];
        UpdateFrame(root, e.path, v, base + [seg] + [Key(key)]);
      }
    }
  }

  /** Forging is the single edit of the parsed package, as far as anything but the export hash is concerned. */
  lemma {:induction false} ForgeReads(f: Forgery, id: string, env: Env, p: Fields, canReseal: bool, path: Path)
    requires Parse(id) == Some(f) && Readable(f, env, p)
    requires path != [] && path[0] != Key("exportHash")
    ensures
      match WholeEdit(f, env, p)
      case Err(e) => Forge(id, env, p, canReseal) == Err(e)
      case Ok(e) =>
        if Reseals(f) && !canReseal then Forge(id, env, p, canReseal) == Err(NeedsReseal)
        else
          && Forge(id, env, p, canReseal).Ok?
          && Read(env, Forge(id, env, p, canReseal).value, path) == At(Apply(Obj(Parsed(env, p)), e), path)
  {
    MutateIsOneAssignment(f, env, p);
    hide WholeEdit;
    hide Mutate;
    hide Parsed;
    hide Reseal;
    hide Apply;
    hide At;
    if Mutate(f, env, p).Ok? {
      ResealFrame(env, Mutate(f, env, p).value, path);
    }
  }

  /** The seven names. */
  lemma Names()
    ensures Parse("approver") == Some(Approver) && Parse("planhash") == Some(PlanHash)
    ensures Parse("outcome") == Some(OutcomeDigest) && Parse("chainhash") == Some(ChainHash)
    ensures Parse("policy") == Some(Policy) && Parse("trust") == Some(Trust) && Parse("plugin") == Some(Plugin)
  {
  }

  // ---- The package itself ----

  /** The first byte of an array at the given path is inverted if the array is not empty; nothing else is. */
  ghost predicate FlippedAt(env: Env, p: Fields, q: Fields, path: Path) {
    var was := Read(env, p, path);
    && (was.Some? && was.value.Arr? && was.value.items != []
        ==> Read(env, q, path) == Some(Arr(Inverted(env, was.value.items))))
    && (was.None? || !was.value.Arr? || was.value.items == [] ==> Read(env, q, path) == was)
    && (Read(env, q, path) != was <==> was.Some? && was.value.Arr? && was.value.items != [])
  }

  lemma {:induction false} FlipIsInverted(env: Env, items: seq<J>)
    requires items != []
    ensures FlipFirst(env, Arr(items)) == Arr(Inverted(env, items))
    ensures Inverted(env, items) != items
  {
    FlipFirstChanges(env, Arr(items));
    assert items[0 := Num(FlippedByte(env, items[0]))] == Inverted(env, items);
  }

  /**
   "outcome": the outcome digest has its first byte inverted exactly when it is a non-empty array, and is what it was
   otherwise. The forgery never throws but for a missing re-seal function.
   */
  lemma {:induction false} OutcomeForged(env: Env, p: Fields, canReseal: bool)
    ensures
      var r, path := Forge("outcome", env, p, canReseal), [Key("outcomeDigest")];
      && (r.Ok? <==> canReseal)
      && (r.Err? ==> r.error == NeedsReseal)
      && (r.Ok? ==> FlippedAt(env, p, r.value, path))
  {
    Names();
    var path := [Key("outcomeDigest")];
    ForgeReads(OutcomeDigest, "outcome", env, p, canReseal, path);
    PackageValuesKept(env, p, path);
    var root := Obj(Parsed(env, p));
    AtSnoc(Obj(p), [], Key("outcomeDigest"));
    AtSnoc(root, [], Key("outcomeDigest"));
    assert [] + path == path;
    hide Forge;
    var e := EditOutcome(env, p);
    if e.Assign? {
      UpdateRead(root, path, e.value);
      FlipUnlessEmpty(env, Lookup(p, "outcomeDigest").value);
    }
  }

  lemma FlipUnlessEmpty(env: Env, v: J)
    requires v.Arr?
    ensures FlipFirst(env, v) == if v.items == [] then v else Arr(Inverted(env, v.items))
  {
    if v.items != [] {
      FlipIsInverted(env, v.items);
    }
  }

  lemma {:induction false} FourReads(root: J, a: Seg, b: Seg, c: Seg, d: Seg)
    ensures At(root, [a]) == Child(root, a)
    ensures At(root, [a, b]) == if At(root, [a]).None? then None else Child(At(root, [a]).value, b)
    ensures At(root, [a, b, c]) == if At(root, [a, b]).None? then None else Child(At(root, [a, b]).value, c)
    ensures At(root, [a, b, c, d]) == if At(root, [a, b, c]).None? then None else Child(At(root, [a, b, c]).value, d)
  {
    assert [] + [a] == [a] && [a] + [b] == [a, b] && [a, b] + [c] == [a, b, c] && [a, b, c] + [d] == [a, b, c, d];
    AtSnoc(root, [], a);
    AtSnoc(root, [a], b);
    AtSnoc(root, [a, b], c);
    AtSnoc(root, [a, b, c], d);
  }

  /** An edit that flips the array at a path, if there is one, flips it in the value. */
  lemma {:induction false} FlipEdit(env: Env, root: J, path: Path, key: string, e: Edit)
    requires
      var was := At(root, path + [Key(key)]);
      if was.Some? && was.value.Arr? then e == Assign(path + [Key(key)], FlipFirst(env, was.value))
      else e == Nothing || (e.Assign? && Apart(e.path, path + [Key(key)]))
    requires IsObject(At(root, path)) || At(root, path + [Key(key)]).None?
    ensures
      var was, now := At(root, path + [Key(key)]), At(Apply(root, e), path + [Key(key)]);
      && (was.Some? && was.value.Arr? && was.value.items != [] ==> now == Some(Arr(Inverted(env, was.value.items))))
      && (was.None? || !was.value.Arr? || was.value.items == [] ==> now == was)
      && (now != was <==> was.Some? && was.value.Arr? && was.value.items != [])
  {
    var was := At(root, path + [Key(key)]);
    if was.Some? && was.value.Arr? {
      AssignableSnoc(root, path, key);
      UpdateRead(root, e.path, e.value);
      FlipUnlessEmpty(env, was.value);
      if was.value.items != [] {
        FlipIsInverted(env, was.value.items);
      }
    } else if e.Assign? {
      UpdateFrame(root, e.path, e.value, path + [Key(key)]);
    }
  }

  lemma {:induction false} InclusionEdit(env: Env, p: Fields, seg: Seg)
    requires IsFirst(seg)
    ensures
      var e, path := EditInclusion(env, p), [Key("inclusionProofs"), seg, Key("link"), Key("contentHash")];
      var was := At(Obj(p), path);
      && (if was.Some? && was.value.Arr? then e == Assign(path, FlipFirst(env, was.value))
          else e == Nothing || (e.Assign? && Apart(e.path, path)))
      && (IsObject(At(Obj(p), [Key("inclusionProofs"), seg, Key("link")])) || was.None?)
  {
    FourReads(Obj(p), Key("inclusionProofs"), seg, Key("link"), Key("contentHash"));
    var list := Lookup(p, "inclusionProofs");
    if list.Some? {
      FourReads(Obj(p), Key("inclusionProofs"), FirstSeg(list.value), Key("link"), Key("contentHash"));
    }
  }

  /**
   "chainhash": the content hash of the link of the first inclusion proof has its first byte inverted exactly when it
   is a non-empty array, and is what it was otherwise. The forgery never throws but for a missing re-seal function.
   */
  lemma {:induction false} ChainHashForged(env: Env, p: Fields, canReseal: bool, seg: Seg)
    requires IsFirst(seg)
    ensures
      var r, path := Forge("chainhash", env, p, canReseal),
                     [Key("inclusionProofs"), seg, Key("link"), Key("contentHash")];
      && (r.Ok? <==> canReseal)
      && (r.Err? ==> r.error == NeedsReseal)
      && (r.Ok? ==> FlippedAt(env, p, r.value, path))
  {
    hide Forge;
    hide Parse;
    hide EditInclusion;
    hide Parsed;
    hide Apply;
    hide At;
    hide FlipFirst;
    hide Inverted;
    Names();
    var at := [Key("inclusionProofs"), seg, Key("link")];
    var path := [Key("inclusionProofs"), seg, Key("link"), Key("contentHash")];
    assert at + [Key("contentHash")] == path;
    ForgeReads(ChainHash, "chainhash", env, p, canReseal, path);
    PackageValuesKept(env, p, path);
    PackageValuesKept(env, p, at);
    InclusionEdit(env, p, seg);
    FlipEdit(env, Obj(Parsed(env, p)), at, "contentHash", EditInclusion(env, p));
  }

  // ---- The first element of a list of the package ----

  /** Assigning to the first element of what is at the path throws: it is a truthy value that takes no property. */
  predicate FirstRefuses(env: Env, p: Fields, list: Path) {
    || (Read(env, p, list).Some? && Read(env, p, list).value.Str? && Read(env, p, list).value.s != "")
    || IsTruthyPrimitive(Read(env, p, list + [Idx(0)]))
    || IsTruthyPrimitive(Read(env, p, list + [Key("0")]))
  }

  /** `seg` of the list holds an object, and then `v` is assigned to its property. */
  ghost predicate AssignedAt(env: Env, p: Fields, q: Fields, at: Path, key: string, v: J) {
    Read(env, q, at + [Key(key)]) == Some(v) <==> IsObject(Read(env, p, at))
  }

  lemma {:induction false} FirstOfReads(env: Env, p: Fields, list: string)
    requires list != "bundleData"
    ensures
      var first, l := FirstOf(p, list), Read(env, p, [Key(list)]);
      && (first.Some? ==> Lookup(p, list) == l && l.Some? && Truthy(First(l.value))
                          && first.value == ([Key(list), FirstSeg(l.value)], First(l.value).value))
      && (first.None? && l.Some? ==> !Truthy(First(l.value)))
      && (FirstRefuses(env, p, [Key(list)])
          <==> first.Some? && !first.value.1.Obj? && !first.value.1.Arr?)
  {
    PackageValuesKept(env, p, [Key(list)]);
    PackageValuesKept(env, p, [Key(list)] + [Idx(0)]);
    PackageValuesKept(env, p, [Key(list)] + [Key("0")]);
    AtSnoc(Obj(p), [], Key(list));
    assert [] + [Key(list)] == [Key(list)];
    AtSnoc(Obj(p), [Key(list)], Idx(0));
    AtSnoc(Obj(p), [Key(list)], Key("0"));
    hide Parsed;
  }

  lemma {:induction false} ListForged(f: Forgery, id: string, env: Env, p: Fields, canReseal: bool, list: string,
                                      key: string, v: J, seg: Seg)
    requires Parse(id) == Some(f) && !InBundle(f) && Reseals(f) && IsFirst(seg)
    requires list != "bundleData" && list != "exportHash" && PackageEdit(f, env, p) == EditFirst(p, list, key, v)
    ensures
      var r, at := Forge(id, env, p, canReseal), [Key(list)] + [seg];
      && (r.Ok? <==> canReseal && !FirstRefuses(env, p, [Key(list)]))
      && (r.Err? ==> r.error == if FirstRefuses(env, p, [Key(list)]) then TypeError else NeedsReseal)
      && (r.Ok? ==> AssignedAt(env, p, r.value, at, key, v))
  {
    hide Forge;
    hide Parsed;
    hide PackageEdit;
    hide FirstOf;
    hide FirstRefuses;
    hide At;
    var root, base, path := Obj(Parsed(env, p)), [Key(list)], [Key(list)] + [seg] + [Key(key)];
    ForgeReads(f, id, env, p, canReseal, path);
    FirstOfReads(env, p, list);
    var e := EditFirst(p, list, key, v);
    if e.Ok? {
      if At(root, base).Some? {
        assert base + [FirstSeg(At(root, base).value)] == [Key(list), FirstSeg(At(root, base).value)];
        FirstPropForged(root, base, key, v, e.value, seg);
      } else {
        AtSnoc(root, base, seg);
        AtSnoc(root, base + [seg], Key(key));
        assert FirstOf(p, list).None?;
      }
    }
  }

  /**
   "trust": the first trust snapshot has block height zero exactly when it is an object. The forgery throws exactly
   when there is a first element that takes no property, or no re-seal function.
   */
  lemma {:induction false} TrustForged(env: Env, p: Fields, canReseal: bool, seg: Seg)
    requires IsFirst(seg)
    ensures
      var r, at := Forge("trust", env, p, canReseal), [Key("trustSnapshot")] + [seg];
      && (r.Ok? <==> canReseal && !FirstRefuses(env, p, [Key("trustSnapshot")]))
      && (r.Err? ==> r.error == if FirstRefuses(env, p, [Key("trustSnapshot")]) then TypeError else NeedsReseal)
      && (r.Ok? ==> (Read(env, r.value, at + [Key("blockHeight")]) == Some(Num(0)) <==> IsObject(Read(env, p, at))))
  {
    Names();
    ListForged(Trust, "trust", env, p, canReseal, "trustSnapshot", "blockHeight", Num(0), seg);
  }

  /** "plugin": the same for the implementation hash of the first plugin version and the empty string. */
  lemma {:induction false} PluginForged(env: Env, p: Fields, canReseal: bool, seg: Seg)
    requires IsFirst(seg)
    ensures
      var r, at := Forge("plugin", env, p, canReseal), [Key("pluginVersions")] + [seg];
      && (r.Ok? <==> canReseal && !FirstRefuses(env, p, [Key("pluginVersions")]))
      && (r.Err? ==> r.error == if FirstRefuses(env, p, [Key("pluginVersions")]) then TypeError else NeedsReseal)
      && (r.Ok? ==>
            (Read(env, r.value, at + [Key("implementationHash")]) == Some(Str("")) <==> IsObject(Read(env, p, at))))
  {
    Names();
    ListForged(Plugin, "plugin", env, p, canReseal, "pluginVersions", "implementationHash", Str(""), seg);
  }

  // ---- The bundle data ----

  /** The property that the approvals are taken from: the lower-case one unless its value is falsy. */
  function ApprovalList(env: Env, p: Fields): string {
    if Truthy(Read(env, p, [Key("bundleData"), Key("approvalEvidence")])) then "approvalEvidence"
    else "ApprovalEvidence"
  }

  /** Why the bundle data cannot be edited. */
  function Unreadable(env: Env, p: Fields): Thrown {
    if !IsInlined(p) && env.parse(p["bundleData"].s).None? then SyntaxError else TypeError
  }

  lemma {:induction false} BundleReads(env: Env, p: Fields)
    ensures Read(env, p, [Key("bundleData")]) == Lookup(Parsed(env, p), "bundleData")
    ensures
      var bd := Lookup(Parsed(env, p), "bundleData");
      forall key: string ::
        Read(env, p, [Key("bundleData"), Key(key)]) == if bd.None? then None else Child(bd.value, Key(key))
  {
    var root := Obj(Parsed(env, p));
    assert [] + [Key("bundleData")] == [Key("bundleData")];
    AtSnoc(root, [], Key("bundleData"));
    forall key: string ensures
      var bd := Lookup(Parsed(env, p), "bundleData");
      Read(env, p, [Key("bundleData"), Key(key)]) == if bd.None? then None else Child(bd.value, Key(key))
    {
      AtSnoc(root, [Key("bundleData")], Key(key));
      assert [Key("bundleData")] + [Key(key)] == [Key("bundleData"), Key(key)];
    }
  }

  /** The approvals that the code finds are those at the path. */
  lemma {:induction false} ApprovalReads(env: Env, p: Fields)
    requires BundleReadable(env, p)
    ensures
      var found := Approvals(Lookup(Parsed(env, p), "bundleData"));
      var list := Read(env, p, [Key("bundleData"), Key(ApprovalList(env, p))]);
      && found.Ok?
      && (Truthy(list) ==> found.value == Some((ApprovalList(env, p), list.value)))
      && (!Truthy(list) ==> found.value == None)
  {
    BundleReads(env, p);
    hide Read;
    hide Parsed;
  }

  /**
   "policy": the first policy decision is dropped exactly when the policy decisions are a non-empty array, and they are
   what they were otherwise. The forgery throws exactly when the bundle data cannot be read, or without a re-seal
   function.
   */
  lemma {:induction false} PolicyForged(env: Env, p: Fields, canReseal: bool)
    requires Readable(Policy, env, p)
    ensures
      var r, path := Forge("policy", env, p, canReseal), [Key("bundleData"), Key("policyDecisions")];
      var was := Read(env, p, path);
      && (r.Ok? <==> canReseal && BundleReadable(env, p))
      && (r.Err? ==> r.error == if BundleReadable(env, p) then NeedsReseal else Unreadable(env, p))
      && (r.Ok? ==>
            && (was.Some? && was.value.Arr? && was.value.items != []
                ==> Read(env, r.value, path) == Some(Arr(was.value.items[1..])))
            && (Read(env, r.value, path) != was <==> was.Some? && was.value.Arr? && was.value.items != []))
  {
    hide Forge;
    hide Parse;
    hide Parsed;
    Names();
    var path := [Key("bundleData"), Key("policyDecisions")];
    ForgeReads(Policy, "policy", env, p, canReseal, path);
    BundleReads(env, p);
    var e := WholeEdit(Policy, env, p);
    if e.Ok? && e.value.Assign? {
      assert e.value.path == path;
      BundleEditTarget(Policy, env, Lookup(Parsed(env, p), "bundleData").value);
      MutateIsOneAssignment(Policy, env, p);
      UpdateRead(Obj(Parsed(env, p)), path, e.value.value);
    }
  }

  /** The edit of the first approval, in the whole parsed package. */
  lemma {:induction false} ApprovalEdit(f: Forgery, env: Env, p: Fields)
    requires (f.Approver? || f.PlanHash?) && BundleReadable(env, p)
    ensures
      var base := [Key("bundleData"), Key(ApprovalList(env, p))];
      var list, e := Read(env, p, base), WholeEdit(f, env, p);
      if !Truthy(list) || !Truthy(First(list.value)) then e == Ok(Nothing)
      else
        var first, at := First(list.value), base + [FirstSeg(list.value)];
        if f.Approver? then e == AssignProp(at, first.value, "identity", Str(ATTACKER))
        else
          var hash := Child(first.value, Key("planHash"));
          if hash.Some? && hash.value.Arr?
          then e == AssignProp(at, first.value, "planHash", FlipFirst(env, hash.value))
          else e == Ok(Nothing)
  {
    ApprovalReads(env, p);
    BundleReads(env, p);
    var name := ApprovalList(env, p);
    var list := Read(env, p, [Key("bundleData"), Key(name)]);
    if Truthy(list) {
      var seg := FirstSeg(list.value);
      assert [Key("bundleData")] + [Key(name), seg] == [Key("bundleData"), Key(name)] + [seg];
      assert [Key("bundleData")] + ([Key(name), seg] + [Key("identity")])
          == [Key("bundleData"), Key(name)] + [seg] + [Key("identity")];
      assert [Key("bundleData")] + ([Key(name), seg] + [Key("planHash")])
          == [Key("bundleData"), Key(name)] + [seg] + [Key("planHash")];
    }
    hide Read;
    hide Parsed;
    hide ApprovalList;
    hide Approvals;
    hide FlipFirst;
  }

  /** What the first element of a list of approvals is, read along either path. */
  lemma {:induction false} FirstApprovalReads(env: Env, p: Fields, base: Path, seg: Seg)
    requires IsFirst(seg) && base != []
    ensures
      var list := Read(env, p, base);
      && Read(env, p, base + [seg]) == (if list.None? then None else Child(list.value, seg))
      && (FirstRefuses(env, p, base)
          <==> list.Some? && IsTruthyPrimitive(First(list.value)))
      && (list.Some? && !Truthy(list) ==> !Truthy(First(list.value)))
  {
    var root := Obj(Parsed(env, p));
    AtSnoc(root, base, seg);
    AtSnoc(root, base, Idx(0));
    AtSnoc(root, base, Key("0"));
    hide Parsed;
  }

  /** A bundle that cannot be edited stops every forgery of the bundle data. */
  lemma {:induction false} UnreadableBundle(f: Forgery, id: string, env: Env, p: Fields, canReseal: bool)
    requires Parse(id) == Some(f) && InBundle(f) && Readable(f, env, p)
    requires !BundleReadable(env, p)
    ensures Forge(id, env, p, canReseal) == Err(Unreadable(env, p))
  {
    BundleReads(env, p);
    ForgeReads(f, id, env, p, canReseal, [Key("bundleData")]);
    hide Forge;
  }

  /** The list of approvals that is not used keeps its value. */
  lemma {:induction false} OtherListKept(root: J, a: string, b: string, seg: Seg, key: string, e: Edit)
    requires a != b && (e == Nothing || (e.Assign? && e.path == [Key("bundleData"), Key(a)] + [seg] + [Key(key)]))
    ensures At(Apply(root, e), [Key("bundleData"), Key(b)]) == At(root, [Key("bundleData"), Key(b)])
  {
    if e.Assign? {
      assert Apart([Key(a), seg, Key(key)], [Key(b)]);
      ApartBelow([Key("bundleData")], [Key(a), seg, Key(key)], [Key(b)]);
      assert e.path == [Key("bundleData")] + [Key(a), seg, Key(key)];
      assert [Key("bundleData")] + [Key(b)] == [Key("bundleData"), Key(b)];
      UpdateFrame(root, e.path, e.value, [Key("bundleData"), Key(b)]);
    }
  }

  /** The other of the two properties. */
  function OtherList(env: Env, p: Fields): string {
    if ApprovalList(env, p) == "approvalEvidence" then "ApprovalEvidence" else "approvalEvidence"
  }

  /**
   "approver": the first approval has the attacker's identity exactly when it is an object, and the list that is not
   used keeps its value. The forgery throws exactly when the bundle data cannot be read or the first approval takes no
   property, and it needs no re-seal function.
   */
  lemma {:induction false} ApproverForged(env: Env, p: Fields, canReseal: bool, seg: Seg)
    requires Readable(Approver, env, p) && IsFirst(seg)
    ensures
      var r, list := Forge("approver", env, p, canReseal), [Key("bundleData"), Key(ApprovalList(env, p))];
      var other := [Key("bundleData"), Key(OtherList(env, p))];
      && (r.Ok? <==> BundleReadable(env, p) && !FirstRefuses(env, p, list))
      && (r.Err? ==> r.error == if BundleReadable(env, p) then TypeError else Unreadable(env, p))
      && (r.Ok? ==>
            && (Read(env, r.value, list + [seg] + [Key("identity")]) == Some(Str("acc://attacker.evil/admin"))
                <==> IsObject(Read(env, p, list + [seg])))
            && Read(env, r.value, other) == Read(env, p, other))
  {
    hide Forge;
    hide Parse;
    hide Parsed;
    hide WholeEdit;
    hide FirstRefuses;
    hide BundleReadable;
    hide ApprovalList;
    hide Apply;
    hide At;
    hide First;
    hide Child;
    Names();
    if !BundleReadable(env, p) {
      UnreadableBundle(Approver, "approver", env, p, canReseal);
    } else {
      var base := [Key("bundleData"), Key(ApprovalList(env, p))];
      var other := [Key("bundleData"), Key(OtherList(env, p))];
      ForgeReads(Approver, "approver", env, p, canReseal, base + [seg] + [Key("identity")]);
      ForgeReads(Approver, "approver", env, p, canReseal, other);
      ApprovalEdit(Approver, env, p);
      FirstApprovalReads(env, p, base, seg);
      var root, e := Obj(Parsed(env, p)), WholeEdit(Approver, env, p);
      if e.Ok? {
        FirstApprovalForged(root, base, "identity", Str(ATTACKER), e.value, seg);
        OtherListKept(root, ApprovalList(env, p), OtherList(env, p), FirstSegOf(root, base), "identity", e.value);
      }
    }
  }

  function FirstSegOf(root: J, base: Path): Seg {
    if At(root, base).Some? then FirstSeg(At(root, base).value) else Idx(0)
  }

  /** As `FirstPropForged`, for a list that may be missing or falsy. */
  lemma {:induction false} FirstApprovalForged(root: J, base: Path, key: string, v: J, e: Edit, seg: Seg)
    requires IsFirst(seg)
    requires
      var list := At(root, base);
      if !Truthy(list) || !Truthy(First(list.value)) then e == Nothing
      else AssignProp(base + [FirstSeg(list.value)], First(list.value).value, key, v) == Ok(e)
    ensures At(Apply(root, e), base + [seg] + [Key(key)]) == Some(v) <==> IsObject(At(root, base + [seg]))
    ensures e == Nothing || (e.Assign? && e.path == base + [FirstSegOf(root, base)] + [Key(key)])
  {
    AtSnoc(root, base, seg);
    AtSnoc(root, base + [seg], Key(key));
    if At(root, base).Some? {
      FirstPropForged(root, base, key, v, e, seg);
    }
  }

  /**
   "planhash": the plan hash of the first approval has its first byte inverted exactly when it is a non-empty array,
   and is what it was otherwise; the list that is not used keeps its value. The forgery throws exactly when the bundle
   data cannot be read, or without a re-seal function.
   */
  lemma {:induction false} PlanHashForged(env: Env, p: Fields, canReseal: bool, seg: Seg)
    requires Readable(PlanHash, env, p) && IsFirst(seg)
    ensures
      var r, list := Forge("planhash", env, p, canReseal), [Key("bundleData"), Key(ApprovalList(env, p))];
      var other := [Key("bundleData"), Key(OtherList(env, p))];
      && (r.Ok? <==> canReseal && BundleReadable(env, p))
      && (r.Err? ==> r.error == if BundleReadable(env, p) then NeedsReseal else Unreadable(env, p))
      && (r.Ok? ==>
            && FlippedAt(env, p, r.value, list + [seg] + [Key("planHash")])
            && Read(env, r.value, other) == Read(env, p, other))
  {
    hide Forge;
    hide Parse;
    hide Parsed;
    hide WholeEdit;
    hide BundleReadable;
    hide ApprovalList;
    hide Apply;
    hide At;
    hide First;
    hide Child;
    hide FlipFirst;
    hide AssignProp;
    hide Inverted;
    Names();
    if !BundleReadable(env, p) {
      UnreadableBundle(PlanHash, "planhash", env, p, canReseal);
    } else {
      var base := [Key("bundleData"), Key(ApprovalList(env, p))];
      var other := [Key("bundleData"), Key(OtherList(env, p))];
      ForgeReads(PlanHash, "planhash", env, p, canReseal, base + [seg] + [Key("planHash")]);
      ForgeReads(PlanHash, "planhash", env, p, canReseal, other);
      ApprovalEdit(PlanHash, env, p);
      var root, e := Obj(Parsed(env, p)), WholeEdit(PlanHash, env, p);
      PlanHashEdit(env, root, base, e, seg);
      FlipEdit(env, root, base + [seg], "planHash", e.value);
      OtherListKept(root, ApprovalList(env, p), OtherList(env, p), FirstSegOf(root, base), "planHash", e.value);
    }
  }

  lemma {:induction false} PlanHashEdit(env: Env, root: J, base: Path, e: Result<Edit, Thrown>, seg: Seg)
    requires IsFirst(seg)
    requires
      var list := At(root, base);
      if !Truthy(list) || !Truthy(First(list.value)) then e == Ok(Nothing)
      else
        var hash := Child(First(list.value).value, Key("planHash"));
        if hash.Some? && hash.value.Arr?
        then e == AssignProp(base + [FirstSeg(list.value)], First(list.value).value, "planHash",
                             FlipFirst(env, hash.value))
        else e == Ok(Nothing)
    ensures e.Ok?
    ensures
      var path := base + [seg] + [Key("planHash")];
      var was := At(root, path);
      && (if was.Some? && was.value.Arr? then e.value == Assign(path, FlipFirst(env, was.value))
          else e.value == Nothing || (e.value.Assign? && Apart(e.value.path, path)))
      && (IsObject(At(root, base + [seg])) || was.None?)
    ensures e.value == Nothing
            || (e.value.Assign? && e.value.path == base + [FirstSegOf(root, base)] + [Key("planHash")])
  {
    AtSnoc(root, base, seg);
    AtSnoc(root, base + [seg], Key("planHash"));
    if At(root, base).Some? {
      var at := FirstSegOf(root, base);
      AtSnoc(root, base, at);
      AtSnoc(root, base + [at], Key("planHash"));
      if at != seg {
        assert Apart([at, Key("planHash")], [seg, Key("planHash")]);
        ApartBelow(base, [at, Key("planHash")], [seg, Key("planHash")]);
        assert base + [at, Key("planHash")] == base + [at] + [Key("planHash")];
        assert base + [seg, Key("planHash")] == base + [seg] + [Key("planHash")];
      }
    }
  }
}
