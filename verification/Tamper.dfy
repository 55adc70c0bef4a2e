/**
 The forgery engine of web/tamper.js, as functions on JSON values: which single assignment each forgery makes,
 through either form of `bundleData`, and the re-sealing of the export hash. Parsing, printing, number
 coercion and the canonical hasher are parameters.
 */
module Tamper {
  import opened Wrappers
  import opened Json

  /** The fields of a portable package. */
  type Fields = map<string, J>

  /** What the canonical hasher is applied to; a missing field is `undefined`. */
  type SealedContent = map<string, Option<J>>

  /**
   `parse` and `stringify` are those of JSON; `lowByte` is the low byte of a value that is not a number;
   `toNumber` is `Number(v)`; `coerce32` and `hash` are injected with the canonical hasher.
   */
  datatype Env = Env(parse: string -> Option<J>, stringify: J -> string, lowByte: J -> int,
                     toNumber: J -> J, coerce32: Option<J> -> seq<int>, hash: SealedContent -> seq<int>)

  ghost predicate RoundTrips(env: Env) {
    forall j :: env.parse(env.stringify(j)) == Some(j)
  }

  ghost predicate HashInjective(env: Env) {
    forall a, b :: env.hash(a) == env.hash(b) ==> a == b
  }

  datatype Thrown = TypeError | SyntaxError | UnknownForgery | NeedsReseal

  // ---- Helpers ----

  /** `v.key`; reading a property of null or undefined throws. */
  function Prop(v: Option<J>, key: string): Result<Option<J>, Thrown> {
    match v
    case None => Err(TypeError)
    case Some(Null) => Err(TypeError)
    case Some(Obj(fields)) => Ok(Lookup(fields, key))
    case Some(_) => Ok(None)
  }

  /** Where `v[0]` of a truthy container is: an element of an array or the property "0" of an object. */
  function FirstSeg(v: J): Seg {
    if v.Obj? then Key("0") else Idx(0)
  }

  /** `v[0]`; the first character of a non-empty string is itself a string. */
  function First(v: J): Option<J> {
    if v.Str? then (if v.s != "" then Some(Str([v.s[0]])) else None) else Child(v, FirstSeg(v))
  }

  /** `(b ^ 0xff) & 0xff` */
  function FlippedByte(env: Env, v: J): int {
    255 - (if v.Num? then v.n else env.lowByte(v)) % 256
  }

  /** `flipFirst` of an array: byte 0 is inverted. */
  function FlipFirst(env: Env, v: J): J {
    if !v.Arr? || v.items == [] then v else Arr(v.items[0 := Num(FlippedByte(env, v.items[0]))])
  }

  // ---- The forgeries ----

  datatype Forgery = Approver | PlanHash | OutcomeDigest | ChainHash | Policy | Trust | Plugin

  function Parse(id: string): Option<Forgery> {
    match id
    case "approver" => Some(Approver)
    case "planhash" => Some(PlanHash)
    case "outcome" => Some(OutcomeDigest)
    case "chainhash" => Some(ChainHash)
    case "policy" => Some(Policy)
    case "trust" => Some(Trust)
    case "plugin" => Some(Plugin)
    case _ => None
  }

  /** The forgery edits the bundle data; the others edit the package itself. */
  predicate InBundle(f: Forgery) {
    f.Approver? || f.PlanHash? || f.Policy?
  }

  predicate Reseals(f: Forgery) {
    !f.Approver?
  }

  const ATTACKER := "acc://attacker.evil/admin"

  /** The one assignment that a forgery makes, relative to the bundle data or to the package. */
  datatype Edit = Nothing | Assign(path: Path, value: J)

  /** `a.key = v` on a truthy value: primitives throw, and an array gains a property that JSON does not show. */
  function AssignProp(container: Path, a: J, key: string, v: J): Result<Edit, Thrown> {
    match a
    case Obj(_) => Ok(Assign(container + [Key(key)], v))
    case Arr(_) => Ok(Nothing)
    case _ => Err(TypeError)
  }

  /** The list of approvals: the property that is used and its value, if it is truthy. */
  function Approvals(bd: Option<J>): Result<Option<(string, J)>, Thrown> {
    match Prop(bd, "approvalEvidence")
    case Err(e) => Err(e)
    case Ok(lower) =>
      if Truthy(lower) then Ok(Some(("approvalEvidence", lower.value)))
      else
        match Prop(bd, "ApprovalEvidence")
        case Err(e) => Err(e)
        case Ok(upper) => Ok(if Truthy(upper) then Some(("ApprovalEvidence", upper.value)) else None)
  }

  function EditFirstApproval(f: Forgery, env: Env, bd: Option<J>): Result<Edit, Thrown>
    requires f.Approver? || f.PlanHash?
  {
    match Approvals(bd)
    case Err(e) => Err(e)
    case Ok(None) => Ok(Nothing)
    case Ok(Some(list)) =>
      var first := First(list.1);
      var at := [Key(list.0), FirstSeg(list.1)];
      if !Truthy(first) then Ok(Nothing)
      else if f.Approver? then AssignProp(at, first.value, "identity", Str(ATTACKER))
      else
        var hash := Child(first.value, Key("planHash"));
        if hash.Some? && hash.value.Arr?
        then AssignProp(at, first.value, "planHash", FlipFirst(env, hash.value))
        else Ok(Nothing)
  }

  function EditPolicies(bd: Option<J>): Result<Edit, Thrown> {
    match Prop(bd, "policyDecisions")
    case Err(e) => Err(e)
    case Ok(list) =>
      Ok(if list.Some? && list.value.Arr? && list.value.items != []
         then Assign([Key("policyDecisions")], Arr(list.value.items[1..])) else Nothing)
  }

  /** `(p.list || [])[0]` and the path to it, if it is truthy. */
  function FirstOf(p: Fields, list: string): Option<(Path, J)> {
    var v := Lookup(p, list);
    if !Truthy(v) || !Truthy(First(v.value)) then None
    else Some(([Key(list), FirstSeg(v.value)], First(v.value).value))
  }

  function EditOutcome(env: Env, p: Fields): Edit {
    var digest := Lookup(p, "outcomeDigest");
    if digest.Some? && digest.value.Arr? then Assign([Key("outcomeDigest")], FlipFirst(env, digest.value)) else Nothing
  }

  function EditInclusion(env: Env, p: Fields): Edit {
    var proof := FirstOf(p, "inclusionProofs");
    if proof.None? then Nothing
    else
      var link := Child(proof.value.1, Key("link"));
      if !Truthy(link) then Nothing
      else
        var hash := Child(link.value, Key("contentHash"));
        if hash.Some? && hash.value.Arr?
        then Assign(proof.value.0 + [Key("link"), Key("contentHash")], FlipFirst(env, hash.value))
        else Nothing
  }

  function EditFirst(p: Fields, list: string, key: string, v: J): Result<Edit, Thrown> {
    var first := FirstOf(p, list);
    if first.None? then Ok(Nothing) else AssignProp(first.value.0, first.value.1, key, v)
  }

  function BundleEdit(f: Forgery, env: Env, bd: Option<J>): Result<Edit, Thrown>
    requires InBundle(f)
  {
    if f.Policy? then EditPolicies(bd) else EditFirstApproval(f, env, bd)
  }

  function PackageEdit(f: Forgery, env: Env, p: Fields): Result<Edit, Thrown>
    requires !InBundle(f)
  {
    match f
    case OutcomeDigest => Ok(EditOutcome(env, p))
    case ChainHash => Ok(EditInclusion(env, p))
    case Trust => EditFirst(p, "trustSnapshot", "blockHeight", Num(0))
    case Plugin => EditFirst(p, "pluginVersions", "implementationHash", Str(""))
  }

  function Apply(j: J, e: Edit): J {
    match e
    case Nothing => j
    case Assign(path, v) => UpdateAt(j, path, v)
  }

  /** `withBundle`: parse if it was a string, edit, print again if it was a string. */
  function WithBundle(env: Env, p: Fields, edit: Option<J> -> Result<Edit, Thrown>): Result<Fields, Thrown> {
    var field := Lookup(p, "bundleData");
    var wasString := field.Some? && field.value.Str?;
    var bd := if wasString then env.parse(field.value.s) else field;
    if wasString && bd.None? then Err(SyntaxError)
    else
      match edit(bd)
      case Err(e) => Err(e)
      case Ok(e) =>
        if bd.None? then Ok(p)
        else
          var edited := Apply(bd.value, e);
          Ok(p["bundleData" := if wasString then Str(env.stringify(edited)) else edited])
  }

  function FieldsOf(j: J, otherwise: Fields): Fields {
    if j.Obj? then j.fields else otherwise
  }

  /** The `mutate` function of a forgery. */
  function Mutate(f: Forgery, env: Env, p: Fields): Result<Fields, Thrown> {
    if InBundle(f) then WithBundle(env, p, bd => BundleEdit(f, env, bd))
    else
      match PackageEdit(f, env, p)
      case Err(e) => Err(e)
      case Ok(e) => Ok(FieldsOf(Apply(Obj(p), e), p))
  }

  // ---- The seal ----

  function OrNull(v: Option<J>): Option<J> {
    if Truthy(v) then v else Some(Null)
  }

  /** `bundleDataAsCanonicalValue`: a string stands for the value that it parses to, if it does. */
  function Canonical(env: Env, v: Option<J>): Option<J> {
    match v
    case None => Some(Null)
    case Some(Str(s)) => if env.parse(s).Some? then env.parse(s) else v
    case Some(_) => v
  }

  function HashArray(bytes: seq<int>): J {
    Arr(seq(|bytes|, i requires 0 <= i < |bytes| => Num(bytes[i])))
  }

  function NumberOrZero(env: Env, v: Option<J>): J {
    if !Truthy(v) then Num(0) else if v.value.Num? then v.value else env.toNumber(v.value)
  }

  /** The content that the export hash seals: everything but the export hash itself. */
  function Intermediate(env: Env, p: Fields): SealedContent {
    map[
      "version" := Lookup(p, "version"),
      "bundleData" := Canonical(env, Lookup(p, "bundleData")),
      "planHash" := Some(HashArray(env.coerce32(Lookup(p, "planHash")))),
      "outcomeDigest" := Some(HashArray(env.coerce32(Lookup(p, "outcomeDigest")))),
      "trustSnapshot" := OrNull(Lookup(p, "trustSnapshot")),
      "inclusionProofs" := OrNull(Lookup(p, "inclusionProofs")),
      "anchorProof" := OrNull(Lookup(p, "anchorProof")),
      "anchorTxHash" := (if Truthy(Lookup(p, "anchorTxHash")) then Lookup(p, "anchorTxHash") else Some(Str(""))),
      "anchorBlockHeight" := Some(NumberOrZero(env, Lookup(p, "anchorBlockHeight"))),
      "pluginVersions" := OrNull(Lookup(p, "pluginVersions")),
      "policyDecisionDigest" := Some(HashArray(env.coerce32(Lookup(p, "policyDecisionDigest")))),
      "replayCapsule" := Canonical(env, Lookup(p, "replayCapsule"))
    ]
  }

  function Reseal(env: Env, p: Fields): Fields {
    p["exportHash" := HashArray(env.hash(Intermediate(env, p)))]
  }

  /** The package's export hash is the one that re-sealing would give it. */
  predicate IsSealed(env: Env, p: Fields) {
    Lookup(p, "exportHash") == Some(HashArray(env.hash(Intermediate(env, p))))
  }

  /** `applyForgery` on the value of a clone; `canReseal` tells whether a re-seal function was given. */
  function Forge(id: string, env: Env, p: Fields, canReseal: bool): Result<Fields, Thrown> {
    match Parse(id)
    case None => Err(UnknownForgery)
    case Some(f) =>
      match Mutate(f, env, p)
      case Err(e) => Err(e)
      case Ok(q) =>
        if !Reseals(f) then Ok(q)
        else if !canReseal then Err(NeedsReseal)
        else Ok(Reseal(env, q))
  }
}
