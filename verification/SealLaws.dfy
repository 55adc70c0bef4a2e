/** The two forms of the bundle data, and the export hash as the outer seal of a package. */
module SealLaws {
  import opened Wrappers
  import opened Json
  import opened Tamper
  import opened TamperLaws

  // ---- Both forms of the bundle data ----

  /** `q` is `p` with its bundle data given by some JSON text of the same value. */
  ghost predicate Textual(env: Env, p: Fields, q: Fields) {
    && "bundleData" in p && IsInlined(p)
    && "bundleData" in q && q["bundleData"].Str?
    && env.parse(q["bundleData"].s) == Some(p["bundleData"])
    && q == p["bundleData" := q["bundleData"]]
  }

  lemma TextualFields(env: Env, p: Fields, q: Fields, key: string)
    requires Textual(env, p, q) && key != "bundleData"
    ensures Lookup(q, key) == Lookup(p, key)
  {
    assert p["bundleData" := q["bundleData"]].Keys == p.Keys + {"bundleData"};
  }

  /** Both forms have the same sealed content. */
  lemma TextualContent(env: Env, p: Fields, q: Fields)
    requires Textual(env, p, q)
    ensures Intermediate(env, q) == Intermediate(env, p)
  {
    forall k | k != "bundleData" ensures Lookup(q, k) == Lookup(p, k) {
      TextualFields(env, p, q, k);
    }
    assert Canonical(env, Lookup(q, "bundleData")) == Canonical(env, Lookup(p, "bundleData"));
  }

  lemma PackageEditSame(f: Forgery, env: Env, p: Fields, q: Fields)
    requires !InBundle(f)
    requires forall k | k != "bundleData" :: Lookup(q, k) == Lookup(p, k)
    ensures PackageEdit(f, env, q) == PackageEdit(f, env, p)
  {
    assert Lookup(q, "outcomeDigest") == Lookup(p, "outcomeDigest");
    assert Lookup(q, "inclusionProofs") == Lookup(p, "inclusionProofs");
    assert Lookup(q, "trustSnapshot") == Lookup(p, "trustSnapshot");
    assert Lookup(q, "pluginVersions") == Lookup(p, "pluginVersions");
  }

  lemma TargetHead(f: Forgery, path: Path)
    requires IsTarget(f, path)
    ensures path != [] && path[0] == Key(SealKey(f))
  {
  }

  lemma MutateTextual(f: Forgery, env: Env, p: Fields, t: Fields)
    requires RoundTrips(env) && Textual(env, p, t)
    ensures
      match Mutate(f, env, p)
      case Err(e) => Mutate(f, env, t) == Err(e)
      case Ok(q) => Mutate(f, env, t).Ok? && Textual(env, q, Mutate(f, env, t).value)
  {
    var bd := p["bundleData"];
    if InBundle(f) {
      var edit := BundleEdit(f, env, Some(bd));
      if edit.Ok? {
        if edit.value.Assign? {
          BundleEditTarget(f, env, bd);
          UpdateKeepsObject(bd, edit.value.path, edit.value.value);
        }
        var edited := Apply(bd, edit.value);
        var text := Str(env.stringify(edited));
        assert env.parse(env.stringify(edited)) == Some(edited);
        assert p["bundleData" := edited]["bundleData" := text] == t["bundleData" := text];
      }
    } else {
      MutateTextualPackage(f, env, p, t);
    }
  }

  lemma MutateTextualPackage(f: Forgery, env: Env, p: Fields, t: Fields)
    requires Textual(env, p, t) && !InBundle(f)
    ensures
      match Mutate(f, env, p)
      case Err(e) => Mutate(f, env, t) == Err(e)
      case Ok(q) => Mutate(f, env, t).Ok? && Textual(env, q, Mutate(f, env, t).value)
  {
    forall k | k != "bundleData" ensures Lookup(t, k) == Lookup(p, k) {
      TextualFields(env, p, t, k);
    }
    PackageEditSame(f, env, p, t);
    var edit := PackageEdit(f, env, p);
    if edit.Ok? && edit.value.Assign? {
      PackageEditTarget(f, env, p);
      TargetHead(f, edit.value.path);
      UpdateOtherField(p, edit.value.path, edit.value.value, "bundleData", t["bundleData"]);
      UpdateOneField(p, edit.value.path, edit.value.value, "bundleData");
    }
  }

  /**
   Representation independence. For every forgery and every package, forging the package whose bundle data is
   a JSON string (of any spelling) throws exactly when forging the inlined one throws; otherwise the result is
   again the same package with its bundle data as a string that parses to the same value, and with the same
   export hash.
   */
  lemma {:induction false} RepresentationIndependence(id: string, env: Env, p: Fields, t: Fields, canReseal: bool)
    requires RoundTrips(env) && Textual(env, p, t)
    ensures
      match Forge(id, env, p, canReseal)
      case Err(e) => Forge(id, env, t, canReseal) == Err(e)
      case Ok(q) =>
        && Forge(id, env, t, canReseal).Ok?
        && Textual(env, q, Forge(id, env, t, canReseal).value)
        && Lookup(Forge(id, env, t, canReseal).value, "exportHash") == Lookup(q, "exportHash")
  {
    if Parse(id).Some? {
      var f := Parse(id).value;
      MutateTextual(f, env, p, t);
      if Mutate(f, env, p).Ok? {
        var q, u := Mutate(f, env, p).value, Mutate(f, env, t).value;
        TextualContent(env, q, u);
        TextualFields(env, q, u, "exportHash");
        var seal := HashArray(env.hash(Intermediate(env, q)));
        assert q["exportHash" := seal]["bundleData" := u["bundleData"]]
            == q["bundleData" := u["bundleData"]]["exportHash" := seal];
      }
    }
  }

  // ---- The seal ----

  /** The field of the package, and of the sealed content, that a forgery aims at. */
  function SealKey(f: Forgery): string {
    match f
    case Approver => "bundleData"
    case PlanHash => "bundleData"
    case Policy => "bundleData"
    case OutcomeDigest => "outcomeDigest"
    case ChainHash => "inclusionProofs"
    case Trust => "trustSnapshot"
    case Plugin => "pluginVersions"
  }

  lemma HashArrayInjective(a: seq<int>, b: seq<int>)
    requires HashArray(a) == HashArray(b)
    ensures a == b
  {
    forall i | 0 <= i < |a| ensures i < |b| && a[i] == b[i] {
      assert HashArray(a).items[i] == HashArray(b).items[i];
    }
    assert |HashArray(a).items| == |HashArray(b).items|;
  }

  /** The export hash is an array of the bytes of the hash. */
  lemma {:induction false} ExportHashBytes(env: Env, p: Fields, i: nat)
    ensures
      var bytes, seal := env.hash(Intermediate(env, p)), Lookup(Reseal(env, p), "exportHash");
      && seal.Some? && seal.value.Arr? && |seal.value.items| == |bytes|
      && (i < |bytes| ==> seal.value.items[i] == Num(bytes[i]))
  {
    hide Intermediate;
  }

  lemma ExportHashNotSealed(env: Env, p: Fields)
    ensures "exportHash" !in Intermediate(env, p)
  {
    hide Lookup;
    hide Canonical;
    hide OrNull;
    hide NumberOrZero;
    hide HashArray;
  }

  lemma {:induction false} SealIgnoresExportHash(env: Env, p: Fields, v: J)
    ensures Intermediate(env, p["exportHash" := v]) == Intermediate(env, p)
  {
    hide Intermediate;
    var q := p["exportHash" := v];
    ExportHashNotSealed(env, p);
    ExportHashNotSealed(env, q);
    var a, b := Intermediate(env, p), Intermediate(env, q);
    forall k ensures k in a <==> k in b
      ensures k in a ==> a[k] == b[k]
    {
      if k in a {
        SealedKey(env, p, q, k);
      } else if k in b {
        SealedKey(env, q, p, k);
      }
    }
    assert a == b;
  }

  /**
   Re-sealing makes a package sealed, twice is the same as once, and the sealed packages are exactly its
   fixpoints.
   */
  lemma {:induction false} ResealFixpoint(env: Env, p: Fields)
    ensures IsSealed(env, Reseal(env, p))
    ensures Reseal(env, Reseal(env, p)) == Reseal(env, p)
    ensures IsSealed(env, p) <==> Reseal(env, p) == p
  {
    SealIgnoresExportHash(env, p, HashArray(env.hash(Intermediate(env, p))));
    if IsSealed(env, p) {
      assert p["exportHash" := p["exportHash"]] == p;
    }
  }

  /** A forgery touches at most one field of the package, in either form of the bundle data. */
  lemma MutateField(f: Forgery, env: Env, p: Fields, key: string)
    requires Mutate(f, env, p).Ok? && key != SealKey(f)
    ensures Lookup(Mutate(f, env, p).value, key) == Lookup(p, key)
  {
    if !InBundle(f) {
      var e := PackageEdit(f, env, p).value;
      if e.Assign? {
        PackageEditTarget(f, env, p);
        TargetHead(f, e.path);
        UpdateOneField(p, e.path, e.value, key);
      }
    }
  }

  /** Each key of the sealed content depends on the package's field of that name alone. */
  lemma SealedKey(env: Env, p: Fields, q: Fields, key: string)
    requires key in Intermediate(env, p) && Lookup(q, key) == Lookup(p, key)
    ensures key in Intermediate(env, q) && Intermediate(env, q)[key] == Intermediate(env, p)[key]
  {
    hide Lookup;
    hide Canonical;
    hide OrNull;
    hide NumberOrZero;
    hide HashArray;
    hide Truthy;
  }

  /**
   Each forgery can change the sealed content only under its own key: the inner binding that it attacks is
   the only part of the seal that it disturbs.
   */
  lemma {:induction false} ForgeryDisturbsOneSealKey(f: Forgery, env: Env, p: Fields, key: string)
    requires Mutate(f, env, p).Ok? && key in Intermediate(env, p) && key != SealKey(f)
    ensures
      var q := Mutate(f, env, p).value;
      key in Intermediate(env, q) && Intermediate(env, q)[key] == Intermediate(env, p)[key]
  {
    MutateField(f, env, p, key);
    SealedKey(env, p, Mutate(f, env, p).value, key);
    hide Mutate;
    hide Intermediate;
  }

  /** Changing the content of a sealed package without re-sealing breaks the seal, and nothing else does. */
  lemma {:induction false} SealBreaksExactly(env: Env, p: Fields, q: Fields)
    requires HashInjective(env) && IsSealed(env, p) && Lookup(q, "exportHash") == Lookup(p, "exportHash")
    ensures IsSealed(env, q) <==> Intermediate(env, q) == Intermediate(env, p)
  {
    if IsSealed(env, q) {
      HashArrayInjective(env.hash(Intermediate(env, q)), env.hash(Intermediate(env, p)));
    }
  }

  // ---- What the seal covers ----

  /** What JSON reads a field as that may hold a value or the text of one; a missing value is null. */
  function ReadAs(env: Env, v: Option<J>): J {
    if v.None? then Null
    else if v.value.Str? && env.parse(v.value.s).Some? then env.parse(v.value.s).value
    else v.value
  }

  /** `Number(v || 0)` */
  function NumberRead(env: Env, v: Option<J>): J {
    if !Truthy(v) then Num(0) else if v.value.Num? then v.value else env.toNumber(v.value)
  }

  /** Two values of a field that the seal cannot tell apart, field by field. */
  predicate SameToSeal(env: Env, key: string, a: Option<J>, b: Option<J>) {
    match key
    case "version" => a == b
    case "bundleData" => ReadAs(env, a) == ReadAs(env, b)
    case "replayCapsule" => ReadAs(env, a) == ReadAs(env, b)
    case "planHash" => env.coerce32(a) == env.coerce32(b)
    case "outcomeDigest" => env.coerce32(a) == env.coerce32(b)
    case "policyDecisionDigest" => env.coerce32(a) == env.coerce32(b)
    case "trustSnapshot" => a == b || (!Truthy(a) && !Truthy(b))
    case "inclusionProofs" => a == b || (!Truthy(a) && !Truthy(b))
    case "anchorProof" => a == b || (!Truthy(a) && !Truthy(b))
    case "anchorTxHash" => a == b || (!Truthy(a) && !Truthy(b))
    case "pluginVersions" => a == b || (!Truthy(a) && !Truthy(b))
    case "anchorBlockHeight" => NumberRead(env, a) == NumberRead(env, b)
    case _ => true
  }

  lemma CanonicalRead(env: Env, v: Option<J>)
    ensures Canonical(env, v) == Some(ReadAs(env, v))
  {
  }

  lemma HashArraySame(env: Env, a: Option<J>, b: Option<J>)
    ensures HashArray(env.coerce32(a)) == HashArray(env.coerce32(b)) <==> env.coerce32(a) == env.coerce32(b)
  {
    if HashArray(env.coerce32(a)) == HashArray(env.coerce32(b)) {
      HashArrayInjective(env.coerce32(a), env.coerce32(b));
    }
  }

  lemma FalsySame(a: Option<J>, b: Option<J>)
    ensures OrNull(a) == OrNull(b) <==> a == b || (!Truthy(a) && !Truthy(b))
    ensures (if Truthy(a) then a else Some(Str(""))) == (if Truthy(b) then b else Some(Str("")))
            <==> a == b || (!Truthy(a) && !Truthy(b))
  {
  }

  /** The sealed values under a key of two packages, and whether the seal can tell them apart. */
  ghost predicate ToldApart(env: Env, p: Fields, q: Fields, key: string) {
    var a, b := Intermediate(env, p), Intermediate(env, q);
    && (key in a <==> key in b)
    && (key in a && key in b ==> (b[key] == a[key] <==> SameToSeal(env, key, Lookup(p, key), Lookup(q, key))))
    && (key !in a ==> SameToSeal(env, key, Lookup(p, key), Lookup(q, key)))
  }

  lemma {:induction false} DigestsTold(env: Env, p: Fields, q: Fields, key: string)
    requires key == "planHash" || key == "outcomeDigest" || key == "policyDecisionDigest"
    ensures ToldApart(env, p, q, key)
  {
    hide Lookup;
    hide HashArray;
    hide Canonical;
    hide OrNull;
    hide NumberOrZero;
    hide Truthy;
    HashArraySame(env, Lookup(p, key), Lookup(q, key));
  }

  lemma SealedList(env: Env, p: Fields, key: string)
    requires key == "trustSnapshot" || key == "inclusionProofs" || key == "pluginVersions" || key == "anchorProof"
    ensures key in Intermediate(env, p) && Intermediate(env, p)[key] == OrNull(Lookup(p, key))
  {
    hide Lookup;
    hide HashArray;
    hide Canonical;
    hide OrNull;
    hide NumberOrZero;
    hide Truthy;
  }

  lemma {:induction false} ListsTold(env: Env, p: Fields, q: Fields, key: string)
    requires key == "trustSnapshot" || key == "inclusionProofs" || key == "pluginVersions" || key == "anchorProof"
    ensures ToldApart(env, p, q, key)
  {
    hide Intermediate;
    hide Lookup;
    hide OrNull;
    hide Truthy;
    FalsySame(Lookup(p, key), Lookup(q, key));
    SealedList(env, p, key);
    SealedList(env, q, key);
  }

  lemma {:induction false} AnchorTold(env: Env, p: Fields, q: Fields, key: string)
    requires key == "anchorTxHash" || key == "anchorBlockHeight"
    ensures ToldApart(env, p, q, key)
  {
    hide Lookup;
    hide HashArray;
    hide Canonical;
    hide OrNull;
    hide NumberOrZero;
    hide NumberRead;
    hide Truthy;
    FalsySame(Lookup(p, key), Lookup(q, key));
    NumbersSame(env, Lookup(p, key));
    NumbersSame(env, Lookup(q, key));
  }

  lemma NumbersSame(env: Env, v: Option<J>)
    ensures NumberOrZero(env, v) == NumberRead(env, v)
  {
  }

  lemma {:induction false} TextsTold(env: Env, p: Fields, q: Fields, key: string)
    requires key == "bundleData" || key == "replayCapsule" || key == "version"
    ensures ToldApart(env, p, q, key)
  {
    hide Lookup;
    hide HashArray;
    hide Canonical;
    hide ReadAs;
    hide OrNull;
    hide NumberOrZero;
    hide Truthy;
    CanonicalRead(env, Lookup(p, key));
    CanonicalRead(env, Lookup(q, key));
  }

  predicate IsSealedField(key: string) {
    || key == "version" || key == "bundleData" || key == "planHash" || key == "outcomeDigest"
    || key == "trustSnapshot" || key == "inclusionProofs" || key == "anchorProof" || key == "anchorTxHash"
    || key == "anchorBlockHeight" || key == "pluginVersions" || key == "policyDecisionDigest" || key == "replayCapsule"
  }

  lemma {:induction false} OthersTold(env: Env, p: Fields, q: Fields, key: string)
    requires !IsSealedField(key)
    ensures ToldApart(env, p, q, key)
  {
    hide Lookup;
    hide HashArray;
    hide Canonical;
    hide OrNull;
    hide NumberOrZero;
    hide Truthy;
  }

  /** The sealed values of one field are equal exactly when the seal cannot tell the fields apart. */
  lemma {:induction false} FieldTold(env: Env, p: Fields, q: Fields, key: string)
    ensures ToldApart(env, p, q, key)
  {
    hide ToldApart;
    if key == "planHash" || key == "outcomeDigest" || key == "policyDecisionDigest" {
      DigestsTold(env, p, q, key);
    } else if key == "trustSnapshot" || key == "inclusionProofs" || key == "pluginVersions" || key == "anchorProof" {
      ListsTold(env, p, q, key);
    } else if key == "anchorTxHash" || key == "anchorBlockHeight" {
      AnchorTold(env, p, q, key);
    } else if key == "bundleData" || key == "replayCapsule" || key == "version" {
      TextsTold(env, p, q, key);
    } else {
      OthersTold(env, p, q, key);
    }
  }

  /**
   What the seal covers. A package that carries the export hash of a sealed one is sealed itself if and only if none of
   the twelve sealed fields was changed to anything that the seal tells apart: another version, another parsed value of
   the bundle data or the replay capsule, other coerced bytes of one of the three digests, another truthy value of
   one of the three lists or of the anchor's proof or transaction, or another number as its block height.
   */
  lemma {:induction false} SealCoversExactly(env: Env, p: Fields, q: Fields)
    requires HashInjective(env) && IsSealed(env, p) && Lookup(q, "exportHash") == Lookup(p, "exportHash")
    ensures IsSealed(env, q) <==> forall key :: SameToSeal(env, key, Lookup(p, key), Lookup(q, key))
  {
    SealBreaksExactly(env, p, q);
    forall key ensures ToldApart(env, p, q, key) {
      FieldTold(env, p, q, key);
    }
    hide Intermediate;
    hide SameToSeal;
    hide Lookup;
    hide IsSealed;
    SameContent(env, p, q);
  }

  lemma SameContent(env: Env, p: Fields, q: Fields)
    requires forall key :: ToldApart(env, p, q, key)
    ensures Intermediate(env, q) == Intermediate(env, p)
            <==> forall key :: SameToSeal(env, key, Lookup(p, key), Lookup(q, key))
  {
    hide Intermediate;
    hide SameToSeal;
    hide Lookup;
    var a, b := Intermediate(env, p), Intermediate(env, q);
    forall key ensures ToldApart(env, p, q, key) {
    }
    if forall key :: SameToSeal(env, key, Lookup(p, key), Lookup(q, key)) {
      forall key ensures key in a <==> key in b
        ensures key in a ==> a[key] == b[key]
      {
        assert ToldApart(env, p, q, key);
      }
      assert a == b;
    } else {
      var key :| !SameToSeal(env, key, Lookup(p, key), Lookup(q, key));
      assert ToldApart(env, p, q, key);
    }
    if a == b {
      forall key ensures SameToSeal(env, key, Lookup(p, key), Lookup(q, key)) {
        assert ToldApart(env, p, q, key);
      }
    }
  }

  lemma SameToItself(env: Env, key: string, v: Option<J>)
    ensures SameToSeal(env, key, v, v)
  {
    hide HashArray;
    hide Canonical;
    hide OrNull;
    hide NumberOrZero;
    hide Truthy;
  }

  /** A change of a single field other than the export hash. */
  lemma {:induction false} SealCoversField(env: Env, p: Fields, q: Fields, key: string)
    requires HashInjective(env) && IsSealed(env, p) && key != "exportHash"
    requires forall k | k != key :: Lookup(q, k) == Lookup(p, k)
    ensures IsSealed(env, q) <==> SameToSeal(env, key, Lookup(p, key), Lookup(q, key))
  {
    hide SameToSeal;
    hide IsSealed;
    hide Lookup;
    hide HashInjective;
    SealCoversExactly(env, p, q);
    forall k | k != key ensures SameToSeal(env, k, Lookup(p, k), Lookup(q, k)) {
      SameToItself(env, k, Lookup(p, k));
    }
  }

  lemma SealedBundle(env: Env, p: Fields)
    ensures "bundleData" in Intermediate(env, p)
    ensures Intermediate(env, p)["bundleData"] == Canonical(env, Lookup(p, "bundleData"))
  {
    hide Canonical;
  }

  /** The sealed contents of two packages that differ in one field differ at most at the key of that field. */
  lemma {:induction false} OneKeyContent(env: Env, p: Fields, q: Fields, key: string)
    requires key in Intermediate(env, p) && key in Intermediate(env, q)
    requires forall k | k != key :: Lookup(q, k) == Lookup(p, k)
    ensures Intermediate(env, q) == Intermediate(env, p) <==> Intermediate(env, q)[key] == Intermediate(env, p)[key]
  {
    hide Intermediate;
    var a, b := Intermediate(env, p), Intermediate(env, q);
    forall k | k != key ensures k in a <==> k in b
      ensures k in a ==> a[k] == b[k]
    {
      if k in a {
        SealedKey(env, p, q, k);
      } else if k in b {
        SealedKey(env, q, p, k);
      }
    }
    if a[key] == b[key] {
      assert a == b;
    }
  }

  /** The sealed content of a package after an edit of its bundle data alone. */
  lemma {:induction false} BundleContent(env: Env, p: Fields, q: Fields)
    requires forall key | key != "bundleData" :: Lookup(q, key) == Lookup(p, key)
    ensures Intermediate(env, q) == Intermediate(env, p)
            <==> Canonical(env, Lookup(q, "bundleData")) == Canonical(env, Lookup(p, "bundleData"))
  {
    SealedBundle(env, p);
    SealedBundle(env, q);
    OneKeyContent(env, p, q, "bundleData");
    hide Intermediate;
    hide Canonical;
  }

  /**
   The naive forgery. It never touches the export hash, and on a sealed package, in either form of the bundle
   data, it leaves the seal intact exactly when the value of the bundle data is the same as before; on an
   inlined package, exactly when nothing changed at all.
   */
  lemma {:induction false} NaiveForgeryBreaksSeal(env: Env, p: Fields)
    requires HashInjective(env) && IsSealed(env, p)
    requires Forge("approver", env, p, false).Ok?
    ensures
      var q := Forge("approver", env, p, false).value;
      && Lookup(q, "exportHash") == Lookup(p, "exportHash")
      && (IsSealed(env, q)
          <==> Canonical(env, Lookup(q, "bundleData")) == Canonical(env, Lookup(p, "bundleData")))
      && (IsInlined(p) ==> (IsSealed(env, q) <==> q == p))
  {
    var q := Mutate(Approver, env, p).value;
    assert Parse("approver") == Some(Approver);
    forall key | key != "bundleData" ensures Lookup(q, key) == Lookup(p, key) {
      MutateField(Approver, env, p, key);
    }
    if IsInlined(p) {
      NaiveKeepsForm(env, p);
    }
    hide Mutate;
    hide Intermediate;
    SealBreaksExactly(env, p, q);
    BundleContent(env, p, q);
    if IsInlined(p) && Canonical(env, Lookup(q, "bundleData")) == Canonical(env, Lookup(p, "bundleData")) {
      assert q["bundleData"] == p["bundleData"];
      assert p["bundleData" := p["bundleData"]] == p;
    }
  }

  lemma NaiveKeepsForm(env: Env, p: Fields)
    requires IsInlined(p) && Mutate(Approver, env, p).Ok?
    ensures
      var q := Mutate(Approver, env, p).value;
      IsInlined(q) && q == p["bundleData" := q["bundleData"]]
  {
    var bd := p["bundleData"];
    var e := BundleEdit(Approver, env, Some(bd)).value;
    if e.Assign? {
      BundleEditTarget(Approver, env, bd);
      UpdateKeepsObject(bd, e.path, e.value);
    }
  }

  lemma SealedOutcome(env: Env, p: Fields)
    ensures "outcomeDigest" in Intermediate(env, p)
    ensures Intermediate(env, p)["outcomeDigest"] == Some(HashArray(env.coerce32(Lookup(p, "outcomeDigest"))))
  {
    hide HashArray;
  }

  /** A forgery that edits a list of the package finds it there, and leaves it, non-empty. */
  lemma EditedList(f: Forgery, env: Env, p: Fields)
    requires f.ChainHash? || f.Trust? || f.Plugin?
    requires Mutate(f, env, p).Ok?
    ensures
      var q, key := Mutate(f, env, p).value, SealKey(f);
      Lookup(q, key) == Lookup(p, key)
      || (&& Truthy(Lookup(p, key)) && Truthy(Lookup(q, key)))
  {
    var e := PackageEdit(f, env, p).value;
    if e.Assign? {
      PackageEditTarget(f, env, p);
      TargetHead(f, e.path);
      var list := Lookup(p, SealKey(f)).value;
      assert list.Arr? || list.Obj?;
      var edited := UpdateAt(list, e.path[1..], e.value);
      UpdateKeepsContainer(list, e.path[1..], e.value);
      assert Mutate(f, env, p).value == p[SealKey(f) := edited];
    }
  }

  lemma {:induction false} UpdateKeepsContainer(j: J, path: Path, v: J)
    requires path != [] && (j.Arr? || j.Obj?)
    ensures UpdateAt(j, path, v).Arr? || UpdateAt(j, path, v).Obj?
  {
  }

  /** What the export hash can see of a forgery. */
  ghost predicate ShowsInSeal(f: Forgery, env: Env, p: Fields, q: Fields) {
    if f.OutcomeDigest? then
      env.coerce32(Lookup(q, "outcomeDigest")) != env.coerce32(Lookup(p, "outcomeDigest"))
    else Parsed(env, q) != Parsed(env, p)
  }

  lemma SameLookups(a: Fields, b: Fields)
    requires forall k :: Lookup(a, k) == Lookup(b, k)
    ensures a == b
  {
    forall k ensures k in a <==> k in b
      ensures k in a ==> a[k] == b[k]
    {
      assert Lookup(a, k) == Lookup(b, k);
    }
  }

  /** Packages that differ in one field only, as parsed packages. */
  lemma {:induction false} ParsedOneField(env: Env, p: Fields, q: Fields, key: string)
    requires forall k | k != key :: Lookup(Parsed(env, q), k) == Lookup(Parsed(env, p), k)
    ensures Parsed(env, q) == Parsed(env, p) <==> Lookup(Parsed(env, q), key) == Lookup(Parsed(env, p), key)
  {
    if Lookup(Parsed(env, q), key) == Lookup(Parsed(env, p), key) {
      hide Lookup;
      hide Parsed;
      forall k ensures Lookup(Parsed(env, q), k) == Lookup(Parsed(env, p), k) {
      }
      SameLookups(Parsed(env, q), Parsed(env, p));
    }
  }

  /** Parsing concerns the bundle data only. */
  lemma ParsedLookup(env: Env, p: Fields, key: string)
    requires key != "bundleData"
    ensures Lookup(Parsed(env, p), key) == Lookup(p, key)
  {
  }

  /** The canonical form of the bundle data is its parsed value. */
  lemma CanonicalIsParsed(env: Env, p: Fields)
    requires "bundleData" in p && (IsInlined(p) || env.parse(p["bundleData"].s).Some?)
    ensures Canonical(env, Lookup(p, "bundleData")) == Lookup(Parsed(env, p), "bundleData")
  {
  }

  lemma SameParsedBundle(env: Env, p: Fields, q: Fields)
    requires Lookup(q, "bundleData") == Lookup(p, "bundleData")
    ensures Lookup(Parsed(env, q), "bundleData") == Lookup(Parsed(env, p), "bundleData")
  {
  }

  lemma ListForgeryShows(f: Forgery, env: Env, p: Fields)
    requires (f.ChainHash? || f.Trust? || f.Plugin?) && Mutate(f, env, p).Ok?
    ensures
      var q := Mutate(f, env, p).value;
      Intermediate(env, q) != Intermediate(env, p) <==> Parsed(env, q) != Parsed(env, p)
  {
    var q, key := Mutate(f, env, p).value, SealKey(f);
    EditedList(f, env, p);
    forall k | k != key ensures Lookup(q, k) == Lookup(p, k) {
      MutateField(f, env, p, k);
    }
    hide Mutate;
    SealedList(env, p, key);
    SealedList(env, q, key);
    OneKeyContent(env, p, q, key);
    hide Intermediate;
    ParsedOtherField(env, p, q, key);
    hide Parsed;
    hide Truthy;
    hide Lookup;
  }

  /** Packages that differ in one field other than the bundle data. */
  lemma ParsedOtherField(env: Env, p: Fields, q: Fields, key: string)
    requires key != "bundleData" && forall k | k != key :: Lookup(q, k) == Lookup(p, k)
    ensures Parsed(env, q) == Parsed(env, p) <==> Lookup(q, key) == Lookup(p, key)
  {
    SameParsedBundle(env, p, q);
    forall k | k != key ensures Lookup(Parsed(env, q), k) == Lookup(Parsed(env, p), k) {
      if k != "bundleData" {
        ParsedLookup(env, p, k);
        ParsedLookup(env, q, k);
      }
    }
    ParsedLookup(env, p, key);
    ParsedLookup(env, q, key);
    hide Parsed;
    hide Lookup;
    ParsedOneField(env, p, q, key);
  }

  lemma BundleForgeryShows(f: Forgery, env: Env, p: Fields)
    requires InBundle(f) && Mutate(f, env, p).Ok? && Readable(f, env, p)
    ensures
      var q := Mutate(f, env, p).value;
      Intermediate(env, q) != Intermediate(env, p) <==> Parsed(env, q) != Parsed(env, p)
  {
    var q := Mutate(f, env, p).value;
    forall k | k != "bundleData" ensures Lookup(q, k) == Lookup(p, k) {
      MutateField(f, env, p, k);
    }
    BundleReadable(f, env, p);
    hide Mutate;
    BundleContent(env, p, q);
    CanonicalIsParsed(env, p);
    CanonicalIsParsed(env, q);
    hide Intermediate;
    hide Canonical;
    forall k | k != "bundleData" ensures Lookup(Parsed(env, q), k) == Lookup(Parsed(env, p), k) {
      ParsedLookup(env, p, k);
      ParsedLookup(env, q, k);
    }
    ParsedOneField(env, p, q, "bundleData");
  }

  /** Before and after a forgery of the bundle data that does not throw, the bundle data can be read. */
  lemma BundleReadable(f: Forgery, env: Env, p: Fields)
    requires InBundle(f) && Mutate(f, env, p).Ok? && Readable(f, env, p)
    ensures
      var q := Mutate(f, env, p).value;
      && "bundleData" in p && (IsInlined(p) || env.parse(p["bundleData"].s).Some?)
      && "bundleData" in q && (IsInlined(q) || env.parse(q["bundleData"].s).Some?)
  {
    if IsInlined(p) {
      InlinedMutation(f, env, p);
    } else {
      TextMutation(f, env, p);
    }
  }

  lemma OutcomeForgeryShows(env: Env, p: Fields)
    ensures
      var q := Mutate(OutcomeDigest, env, p).value;
      Intermediate(env, q) != Intermediate(env, p)
      <==> env.coerce32(Lookup(q, "outcomeDigest")) != env.coerce32(Lookup(p, "outcomeDigest"))
  {
    var q := Mutate(OutcomeDigest, env, p).value;
    forall k | k != "outcomeDigest" ensures Lookup(q, k) == Lookup(p, k) {
      MutateField(OutcomeDigest, env, p, k);
    }
    hide Mutate;
    SealedOutcome(env, p);
    SealedOutcome(env, q);
    OneKeyContent(env, p, q, "outcomeDigest");
    hide Intermediate;
    var a, b := env.coerce32(Lookup(q, "outcomeDigest")), env.coerce32(Lookup(p, "outcomeDigest"));
    if HashArray(a) == HashArray(b) {
      HashArrayInjective(a, b);
    }
  }

  /** A forgery changes the sealed content exactly when the export hash can see it. */
  lemma {:induction false} ForgeryShows(f: Forgery, env: Env, p: Fields)
    requires Mutate(f, env, p).Ok? && Readable(f, env, p)
    ensures
      var q := Mutate(f, env, p).value;
      Intermediate(env, q) != Intermediate(env, p) <==> ShowsInSeal(f, env, p, q)
  {
    if InBundle(f) {
      BundleForgeryShows(f, env, p);
    } else if f.OutcomeDigest? {
      OutcomeForgeryShows(env, p);
    } else {
      ListForgeryShows(f, env, p);
    }
    hide Mutate;
    hide Intermediate;
    hide Parsed;
  }

  /** Whether the edit of a forgery writes something new, as a caller can tell before forging. */
  ghost predicate EditIsNew(f: Forgery, env: Env, p: Fields)
    requires WholeEdit(f, env, p).Ok?
  {
    var e := WholeEdit(f, env, p).value;
    && e.Assign?
    && if f.OutcomeDigest? then env.coerce32(Some(e.value)) != env.coerce32(Lookup(p, "outcomeDigest"))
       else At(Obj(Parsed(env, p)), e.path) != Some(e.value)
  }

  /**
   The sophisticated forgeries. They pass the outer seal; on a sealed package they give themselves away by a
   different export hash exactly when they changed the sealed content. This can be told before forging: it is
   when their edit writes a value that is not already at the target or, for the outcome, one that coerces to
   other bytes.
   */
  lemma {:induction false} ResealedForgeryPassesSeal(id: string, env: Env, p: Fields)
    requires HashInjective(env) && Forge(id, env, p, true).Ok? && Reseals(Parse(id).value)
    ensures
      var q, f := Forge(id, env, p, true).value, Parse(id).value;
      && IsSealed(env, q)
      && (IsSealed(env, p) ==>
            (Lookup(q, "exportHash") == Lookup(p, "exportHash") <==> Intermediate(env, q) == Intermediate(env, p)))
      && (IsSealed(env, p) && Readable(f, env, p) ==>
            && WholeEdit(f, env, p).Ok?
            && (Lookup(q, "exportHash") != Lookup(p, "exportHash") <==> EditIsNew(f, env, p)))
  {
    var f := Parse(id).value;
    var q := Mutate(f, env, p).value;
    if Readable(f, env, p) {
      ForgeryShows(f, env, p);
      NewEditShows(f, env, p);
    }
    hide Mutate;
    hide WholeEdit;
    hide ShowsInSeal;
    hide EditIsNew;
    ResealFixpoint(env, q);
    SealIgnoresExportHash(env, q, HashArray(env.hash(Intermediate(env, q))));
    hide Intermediate;
    if Lookup(Reseal(env, q), "exportHash") == Lookup(p, "exportHash") && IsSealed(env, p) {
      HashArrayInjective(env.hash(Intermediate(env, q)), env.hash(Intermediate(env, p)));
    }
  }

  lemma NewEditShows(f: Forgery, env: Env, p: Fields)
    requires Mutate(f, env, p).Ok? && Readable(f, env, p)
    ensures WholeEdit(f, env, p).Ok?
    ensures ShowsInSeal(f, env, p, Mutate(f, env, p).value) <==> EditIsNew(f, env, p)
  {
    MutateIsOneAssignment(f, env, p);
    if f.OutcomeDigest? {
      var e := EditOutcome(env, p);
      if e.Assign? {
        assert Mutate(f, env, p).value == p["outcomeDigest" := e.value];
      }
    } else {
      ForgeryChanges(f, env, p);
      hide Mutate;
      hide WholeEdit;
      hide Parsed;
    }
  }
}
