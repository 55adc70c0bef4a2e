/**
 The two-tier receipt store of api/receipts.go: a map in memory, changed under the lock, and one file per
 run on disk, changed after the lock is released. SHA-256 and the JSON codec of a stored run are uninterpreted
 parameters; nothing is assumed of the codec but that it keeps the ID. Times are integers.
 */
module ReceiptStore {
  import opened Wrappers

  newtype byte = x: int | 0 <= x < 256

  const HEX_DIGITS: string := "0123456789abcdef"

  /** `hex.EncodeToString` */
  function Hex(bytes: seq<byte>): (s: string)
    ensures |s| == 2 * |bytes|
  {
    if bytes == [] then ""
    else [HEX_DIGITS[bytes[0] as int / 16], HEX_DIGITS[bytes[0] as int % 16]] + Hex(bytes[1..])
  }

  /** The ID of a run: the first 12 hex digits of the SHA-256 of its receipt. */
  function DeriveId(sum: seq<byte>): (id: string)
    requires |sum| == 32
    ensures |id| == 12
  {
    Hex(sum)[..12]
  }

  lemma HexDigitsDistinct(i: int, j: int)
    requires 0 <= i < 16 && 0 <= j < 16 && HEX_DIGITS[i] == HEX_DIGITS[j]
    ensures i == j
  {
  }

  lemma {:induction false} HexPrefix(bytes: seq<byte>, n: nat)
    requires n <= |bytes|
    ensures Hex(bytes)[..2 * n] == Hex(bytes[..n])
  {
    if n > 0 {
      HexPrefix(bytes[1..], n - 1);
      assert bytes[..n][1..] == bytes[1..][..n - 1];
      var first := Hex(bytes)[..2];
      assert Hex(bytes) == first + Hex(bytes[1..]);
      assert Hex(bytes)[..2 * n] == first + Hex(bytes[1..])[..2 * (n - 1)];
    }
  }

  lemma {:induction false} HexInjective(a: seq<byte>, b: seq<byte>)
    requires Hex(a) == Hex(b)
    ensures a == b
  {
    if a != [] && b != [] {
      var x, y := a[0] as int, b[0] as int;
      assert HEX_DIGITS[x / 16] == Hex(a)[0] == Hex(b)[0] == HEX_DIGITS[y / 16];
      assert HEX_DIGITS[x % 16] == Hex(a)[1] == Hex(b)[1] == HEX_DIGITS[y % 16];
      HexDigitsDistinct(x / 16, y / 16);
      HexDigitsDistinct(x % 16, y % 16);
      assert Hex(a[1..]) == Hex(a)[2..] == Hex(b)[2..] == Hex(b[1..]);
      HexInjective(a[1..], b[1..]);
      assert a == [a[0]] + a[1..] && b == [b[0]] + b[1..];
    }
  }

  /** The value of a hexadecimal digit. */
  function DigitValue(c: char): int {
    if '0' <= c <= '9' then c as int - '0' as int else c as int - 'a' as int + 10
  }

  /** Two digits a byte, the high one first. */
  lemma {:induction false} HexDecodes(bytes: seq<byte>, i: nat)
    requires i < |bytes|
    ensures 16 * DigitValue(Hex(bytes)[2 * i]) + DigitValue(Hex(bytes)[2 * i + 1]) == bytes[i] as int
  {
    if i == 0 {
      DigitOf(bytes[0] as int / 16);
      DigitOf(bytes[0] as int % 16);
    } else {
      HexDecodes(bytes[1..], i - 1);
      assert Hex(bytes)[2..] == Hex(bytes[1..]);
    }
  }

  lemma DigitOf(n: int)
    requires 0 <= n < 16
    ensures DigitValue(HEX_DIGITS[n]) == n
  {
  }

  /** Two receipts get the same ID exactly when their digests agree on the first 48 bits. */
  lemma {:induction false} IdCollision(a: seq<byte>, b: seq<byte>)
    requires |a| == |b| == 32
    ensures DeriveId(a) == DeriveId(b) <==> a[..6] == b[..6]
  {
    HexPrefix(a, 6);
    HexPrefix(b, 6);
    if DeriveId(a) == DeriveId(b) {
      HexInjective(a[..6], b[..6]);
    }
  }

  /** A receipt and the result of encoding it: its bytes or the encoder's message. */
  datatype Receipt = Receipt(encoded: Result<seq<byte>, string>)

  /** `createdAt` is `None` for the zero time. */
  datatype StoredRun = StoredRun(id: string, mode: string, flow: string, network: string, proofLabel: string,
                                 createdAt: Option<int>, receipt: Option<Receipt>, bundle: string)

  /**
   What decoding the JSON encoding of a stored run gives back. It need not be the run itself: the encoder lays
   the bundle text, which is embedded as it is, out anew.
   */
  type Codec = StoredRun -> StoredRun

  /** A run as its file gives it back, under the same ID. */
  function OnFile(codec: Codec, run: StoredRun): StoredRun {
    codec(run).(id := run.id)
  }

  /** The content of a file: the run that it decodes to, or bytes that cannot be read or decoded. */
  datatype File = Encoded(run: StoredRun) | Unreadable

  const SUFFIX := ".run.json"

  function DiskPath(id: string): string {
    id + SUFFIX
  }

  lemma DiskPathInjective(a: string, b: string)
    requires DiskPath(a) == DiskPath(b)
    ensures a == b
  {
    assert DiskPath(a)[..|a|] == a && DiskPath(b)[..|b|] == b;
  }

  predicate IsRunFile(name: string) {
    |name| >= |SUFFIX| && name[|name| - |SUFFIX|..] == SUFFIX
  }

  /** The run files are exactly those that the store would name so for some ID. */
  lemma {:induction false} RunFileNames(name: string)
    ensures IsRunFile(name) <==> exists id :: name == DiskPath(id)
    ensures IsRunFile(name) ==> exists id :: name == id + ".run.json"
  {
    if IsRunFile(name) {
      var id := name[..|name| - |SUFFIX|];
      assert name == DiskPath(id);
    } else if exists id :: name == DiskPath(id) {
      var id :| name == DiskPath(id);
      assert DiskPath(id)[|id|..] == SUFFIX;
    }
  }

  /** `r.CreatedAt.Before(cutoff)`; the zero time is before every cutoff. */
  predicate Older(r: StoredRun, cutoff: int) {
    r.createdAt.None? || r.createdAt.value < cutoff
  }

  function Expired(runs: map<string, StoredRun>, cutoff: int): set<string> {
    set id | id in runs && Older(runs[id], cutoff)
  }

  /** What a cleanup leaves: exactly the runs whose creation time is set and not before the cutoff. */
  lemma WithoutExpired(runs: map<string, StoredRun>, cutoff: int)
    ensures
      var kept := runs - Expired(runs, cutoff);
      && (forall id, t | id in runs && runs[id].createdAt == Some(t) :: id in kept <==> t >= cutoff)
      && (forall id | id in runs && runs[id].createdAt.None? :: id !in kept)
      && (forall id | id in kept :: id in runs && kept[id] == runs[id])
      && (forall id :: id in Expired(runs, cutoff) <==> id in runs && id !in kept)
      && |Expired(runs, cutoff)| == |runs| - |kept|
  {
    var kept := runs - Expired(runs, cutoff);
    assert runs.Keys == kept.Keys + Expired(runs, cutoff);
    assert |runs.Keys| == |kept.Keys| + |Expired(runs, cutoff)|;
  }

  // ---- Loading a directory ----

  /** The run that a file contributes when the store starts. */
  function Contribution(files: map<string, File>, name: string): Option<StoredRun> {
    if name in files && files[name].Encoded? && files[name].run.id != "" then Some(files[name].run) else None
  }

  /** The map built from the run files of a directory listing, later names overriding earlier ones. */
  function Load(listing: seq<string>, files: map<string, File>): map<string, StoredRun> {
    if listing == [] then map[]
    else
      var rest := Load(listing[..|listing| - 1], files);
      var name := listing[|listing| - 1];
      if !IsRunFile(name) || Contribution(files, name).None? then rest
      else rest[files[name].run.id := files[name].run]
  }

  // ---- The locked half and the disk half of each operation ----

  /** What an operation still has to do to the directory after it released the lock. */
  datatype Half = Write(run: StoredRun) | Remove(runId: string)

  function HalfId(h: Half): string {
    match h
    case Write(run) => run.id
    case Remove(id) => id
  }

  function ApplyHalf(codec: Codec, files: map<string, File>, h: Half): map<string, File> {
    match h
    case Write(run) => files[DiskPath(run.id) := Encoded(OnFile(codec, run))]
    case Remove(id) => files - {DiskPath(id)}
  }

  datatype StoreError = NilReceipt | EncodeFailed(why: string) | RunNotEncoded(why: string) | NotWritten(why: string)

  function ErrorText(e: StoreError): string {
    match e
    case NilReceipt => "playground: cannot store a nil run/receipt"
    case EncodeFailed(why) => "playground: encode receipt: " + why
    case RunNotEncoded(why) => "playground: encode stored run: " + why
    case NotWritten(why) => "playground: persist run: " + why
  }

  /**
   How persisting a run goes: it is written; it cannot be encoded; or the write fails, which may leave the old
   file or a truncated one.
   */
  datatype WriteResult = Written | NotEncoded(why: string) | NotOpened(why: string) | Truncated(why: string)

  function AfterWrite(codec: Codec, files: map<string, File>, run: StoredRun, write: WriteResult): map<string, File> {
    match write
    case Written => ApplyHalf(codec, files, Write(run))
    case Truncated(_) => files[DiskPath(run.id) := Unreadable]
    case _ => files
  }

  function WriteError(write: WriteResult): Option<StoreError> {
    match write
    case Written => None
    case NotEncoded(why) => Some(RunNotEncoded(why))
    case NotOpened(why) => Some(NotWritten(why))
    case Truncated(why) => Some(NotWritten(why))
  }

  /** The object that a caller passes to `Put` and that `Put` completes. */
  class Draft {
    var run: StoredRun

    constructor (run: StoredRun)
      ensures this.run == run
    {
      this.run := run;
    }
  }

  class Disk {
    var files: map<string, File>

    constructor (files: map<string, File>)
      ensures this.files == files
    {
      this.files := files;
    }
  }

  class Store {
    /** Null when the store is in memory only. */
    const disk: Disk?
    const sha: seq<byte> -> seq<byte>
    const codec: Codec
    var runs: map<string, StoredRun>

    /** A store over a directory that could be created and read. */
    constructor (disk: Disk?, sha: seq<byte> -> seq<byte>, codec: Codec, listing: seq<string>)
      ensures this.disk == disk && this.sha == sha && this.codec == codec
      ensures runs == if disk == null then map[] else Load(listing, disk.files)
    {
      this.disk, this.sha, this.codec := disk, sha, codec;
      runs := map[];
      new;
      if disk != null {
        LoadFromDisk(listing);
      }
    }

    /**
     `NewReceiptStore` with its errors; `made` is the error of creating the directory, if any, and `listing`
     what reading and sorting it returned.
     */
    static method Open(disk: Disk?, sha: seq<byte> -> seq<byte>, codec: Codec, made: Option<string>,
                       listing: Result<seq<string>, string>)
      returns (r: Result<Store, string>)
      ensures r.Ok? <==> disk == null || (made.None? && listing.Ok?)
      ensures r.Ok? ==> fresh(r.value) && r.value.disk == disk && r.value.sha == sha && r.value.codec == codec
      ensures r.Ok? ==> r.value.runs == if disk == null then map[] else Load(listing.value, disk.files)
      ensures r.Err? && made.Some? ==> r.error == "playground: create receipt dir: " + made.value
      ensures r.Err? && made.None? ==> r.error == "playground: read receipt dir: " + listing.error
    {
      if disk == null {
        var store := new Store(disk, sha, codec, []);
        return Ok(store);
      }
      if made.Some? {
        return Err("playground: create receipt dir: " + made.value);
      }
      if listing.Err? {
        return Err("playground: read receipt dir: " + listing.error);
      }
      var store := new Store(disk, sha, codec, listing.value);
      return Ok(store);
    }

    method LoadFromDisk(listing: seq<string>)
      requires disk != null && runs == map[]
      modifies this`runs
      ensures runs == Load(listing, disk.files)
    {
      var names: seq<string> := [];
      var i := 0;
      while i < |listing|
        invariant 0 <= i <= |listing|
        invariant forall name | name in names :: IsRunFile(name)
        invariant Load(names, disk.files) == Load(listing[..i], disk.files)
      {
        assert listing[..i + 1][..i] == listing[..i];
        if IsRunFile(listing[i]) {
          assert (names + [listing[i]])[..|names|] == names;
          names := names + [listing[i]];
        }
        i := i + 1;
      }
      assert listing[..i] == listing;
      i := 0;
      while i < |names|
        invariant 0 <= i <= |names|
        invariant runs == Load(names[..i], disk.files)
      {
        assert names[..i + 1][..i] == names[..i];
        var name := names[i];
        if name in disk.files && disk.files[name].Encoded? && disk.files[name].run.id != "" {
          var run := disk.files[name].run;
          runs := runs[run.id := run];
        }
        i := i + 1;
      }
      assert names[..i] == names;
    }

    /** The locked half of `Put`. */
    method Insert(run: StoredRun)
      modifies this`runs
      ensures runs == old(runs)[run.id := run]
    {
      runs := runs[run.id := run];
    }

    /** The disk half of `Put`. */
    method Persist(run: StoredRun, write: WriteResult) returns (err: Option<StoreError>)
      requires disk != null
      modifies disk
      ensures err == WriteError(write)
      ensures disk.files == AfterWrite(codec, old(disk.files), run, write)
      ensures write.Written? ==> disk.files == old(disk.files)[DiskPath(run.id) := Encoded(OnFile(codec, run))]
      ensures write.Truncated? ==> disk.files == old(disk.files)[DiskPath(run.id) := Unreadable]
      ensures write.NotEncoded? || write.NotOpened? ==> disk.files == old(disk.files)
      ensures err.None? <==> write.Written?
      ensures err.Some? ==> ErrorText(err.value)
                            == (if write.NotEncoded? then "playground: encode stored run: "
                                else "playground: persist run: ") + write.why
    {
      match write {
        case Written =>
          disk.files := disk.files[DiskPath(run.id) := Encoded(OnFile(codec, run))];
          err := None;
        case NotEncoded(why) => err := Some(RunNotEncoded(why));
        case NotOpened(why) => err := Some(NotWritten(why));
        case Truncated(why) =>
          disk.files := disk.files[DiskPath(run.id) := Unreadable];
          err := Some(NotWritten(why));
      }
    }

    /** The run that `Put` stores: its ID and its creation time are filled in when they are missing. */
    function Filled(run: StoredRun, encoded: seq<byte>, now: int): StoredRun
      requires |sha(encoded)| == 32
    {
      var named := if run.id == "" then run.(id := DeriveId(sha(encoded))) else run;
      if named.createdAt.None? then named.(createdAt := Some(now)) else named
    }

    /**
     `Put`: completes the caller's object, stores it in memory and then on disk. A failed write is reported
     with the ID, the run being in memory already.
     */
    method Put(draft: Draft?, now: int, write: WriteResult) returns (id: string, err: Option<StoreError>)
      requires forall bytes :: |sha(bytes)| == 32
      modifies this`runs, disk, draft
      ensures draft == null || old(draft.run.receipt).None? <==> err == Some(NilReceipt)
      ensures draft != null && old(draft.run.receipt).Some? && old(draft.run.receipt).value.encoded.Err?
              ==> err == Some(EncodeFailed(old(draft.run.receipt).value.encoded.error))
      ensures draft == null || old(draft.run.receipt).None? || old(draft.run.receipt).value.encoded.Err?
              ==> id == "" && runs == old(runs) && (draft != null ==> draft.run == old(draft.run))
                  && (disk != null ==> disk.files == old(disk.files))
      ensures draft != null && old(draft.run.receipt).Some? && old(draft.run.receipt).value.encoded.Ok?
              ==> var stored := Filled(old(draft.run), old(draft.run.receipt).value.encoded.value, now);
                  && id == stored.id != ""
                  && draft.run == stored && runs == old(runs)[id := stored]
                  && err == (if disk == null then None else WriteError(write))
                  && (disk != null ==> disk.files == AfterWrite(codec, old(disk.files), stored, write))
      ensures draft != null && old(draft.run.receipt).Some? && old(draft.run.receipt).value.encoded.Ok?
              ==> var was, digest := old(draft.run), sha(old(draft.run.receipt).value.encoded.value);
                  && id == (if was.id != "" then was.id else Hex(digest)[..12])
                  && id in runs
                  && runs[id] == was.(id := id,
                                      createdAt := if was.createdAt.Some? then was.createdAt else Some(now))
    {
      err := None;
      if draft == null || draft.run.receipt.None? {
        return "", Some(NilReceipt);
      }
      var encoded := draft.run.receipt.value.encoded;
      if encoded.Err? {
        return "", Some(EncodeFailed(encoded.error));
      }
      if draft.run.id == "" {
        draft.run := draft.run.(id := DeriveId(sha(encoded.value)));
      }
      if draft.run.createdAt.None? {
        draft.run := draft.run.(createdAt := Some(now));
      }
      Insert(draft.run);
      if disk != null {
        err := Persist(draft.run, write);
      }
      return draft.run.id, err;
    }

    method Get(id: string) returns (r: Option<StoredRun>)
      ensures r == if id in runs then Some(runs[id]) else None
    {
      r := if id in runs then Some(runs[id]) else None;
    }

    /** The locked half of `Cleanup`: the removed IDs are returned in the order the map was walked. */
    method RemoveExpired(cutoff: int) returns (removed: seq<string>)
      modifies this`runs
      ensures runs == old(runs) - Expired(old(runs), cutoff)
      ensures forall id :: id in removed <==> id in Expired(old(runs), cutoff)
      ensures |removed| == |Expired(old(runs), cutoff)|
      ensures forall id, t | id in old(runs) && old(runs)[id].createdAt == Some(t) :: id in runs <==> t >= cutoff
      ensures forall id | id in old(runs) && old(runs)[id].createdAt.None? :: id !in runs
      ensures forall id | id in runs :: id in old(runs) && runs[id] == old(runs)[id]
      ensures forall id :: id in removed <==> id in old(runs) && id !in runs
      ensures |removed| == |old(runs)| - |runs|
    {
      var before := runs;
      var todo := runs.Keys;
      removed := [];
      ghost var gone: set<string> := {};
      while todo != {}
        invariant todo <= before.Keys
        invariant forall id :: id in gone <==> id in before && id !in todo && Older(before[id], cutoff)
        invariant forall id :: id in removed <==> id in gone
        invariant |removed| == |gone|
        invariant runs == before - gone
        decreases todo
      {
        var id :| id in todo;
        if Older(before[id], cutoff) {
          runs := runs - {id};
          removed := removed + [id];
          gone := gone + {id};
        }
        todo := todo - {id};
      }
      assert gone == Expired(before, cutoff);
      WithoutExpired(before, cutoff);
    }

    /** The disk half of `Cleanup` for one file; errors of the removal are ignored. */
    method RemoveFile(id: string, works: bool)
      requires disk != null
      modifies disk
      ensures disk.files == if works then ApplyHalf(codec, old(disk.files), Remove(id)) else old(disk.files)
    {
      if works {
        disk.files := disk.files - {DiskPath(id)};
      }
    }

    /** The disk half of `Cleanup`; `stuck` holds the files that the operating system refuses to remove. */
    method RemoveFiles(removed: seq<string>, stuck: set<string>)
      requires disk != null
      modifies disk
      ensures disk.files == old(disk.files) - ((set id | id in removed :: DiskPath(id)) - stuck)
    {
      var i := 0;
      while i < |removed|
        invariant 0 <= i <= |removed|
        invariant disk.files == old(disk.files) - ((set id | id in removed[..i] :: DiskPath(id)) - stuck)
      {
        assert removed[..i + 1] == removed[..i] + [removed[i]];
        RemoveFile(removed[i], DiskPath(removed[i]) !in stuck);
        i := i + 1;
      }
      assert removed[..i] == removed;
    }

    /** `Cleanup`; `stuck` holds the files that the operating system refuses to remove. */
    method Cleanup(now: int, maxAge: int, stuck: set<string>) returns (count: nat)
      modifies this`runs, disk
      ensures runs == old(runs) - Expired(old(runs), now - maxAge)
      ensures count == |Expired(old(runs), now - maxAge)|
      ensures disk != null ==>
                var paths := set id | id in Expired(old(runs), now - maxAge) :: DiskPath(id);
                disk.files == old(disk.files) - (paths - stuck)
      ensures forall id, t | id in old(runs) && old(runs)[id].createdAt == Some(t) :: id in runs <==> t >= now - maxAge
      ensures forall id | id in old(runs) && old(runs)[id].createdAt.None? :: id !in runs
      ensures forall id | id in runs :: id in old(runs) && runs[id] == old(runs)[id]
      ensures count == |old(runs)| - |runs|
      ensures disk != null ==>
                && (forall path | path in disk.files ::
                      path in old(disk.files) && disk.files[path] == old(disk.files)[path])
                && (forall path | path in old(disk.files) ::
                      path !in disk.files <==>
                        path !in stuck && exists id | id in old(runs) && id !in runs :: path == DiskPath(id))
    {
      var removed := RemoveExpired(now - maxAge);
      if disk != null {
        RemoveFiles(removed, stuck);
      }
      return |removed|;
    }

    /**
     A run that is put at time `put` and looked up after a cleanup at time `now`: it is there exactly when it is no
     older than the maximal age.
     */
    method PutCleanupGet(draft: Draft, put: int, write: WriteResult, now: int, maxAge: int, stuck: set<string>)
      returns (r: Option<StoredRun>)
      requires forall bytes :: |sha(bytes)| == 32
      requires draft.run.createdAt.None? && draft.run.receipt.Some? && draft.run.receipt.value.encoded.Ok?
      modifies this`runs, disk, draft
      ensures r.Some? <==> now - put <= maxAge
      ensures r.Some? ==> r.value == old(draft.run).(createdAt := Some(put), id := r.value.id)
    {
      var id, _ := Put(draft, put, write);
      var _ := Cleanup(now, maxAge, stuck);
      r := Get(id);
    }
  }
}
