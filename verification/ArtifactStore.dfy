/**
 The shared-filesystem artifact store: the kernel writes a staged file, `finalize_upload`
 checks its digest and moves it to permanent storage under its key.
 */
module ArtifactStore {
  import opened Wrappers
  import opened Text

  type Bytes = seq<bv8>

  /** The files of the two directories, by relative path. */
  datatype Files = Files(staging: map<string, Bytes>, permanent: map<string, Bytes>)

  // --- names ---

  function Key(id: int, filename: string): string {
    IntText(id) + "/" + filename
  }

  function StagedName(artifact: string, filename: string): string {
    artifact + "_" + filename
  }

  /** The text before and after the first slash: `storage_key.split("/", 1)`. */
  function Split(key: string): Option<(string, string)> {
    if key == "" then None
    else if key[0] == '/' then Some(("", key[1..]))
    else
      match Split(key[1..])
      case None => None
      case Some((a, b)) => Some(([key[0]] + a, b))
  }

  lemma {:induction false} SplitAtFirstSlash(a: string, b: string)
    requires '/' !in a
    ensures Split(a + "/" + b) == Some((a, b))
  {
    var key := a + "/" + b;
    if a == "" {
      assert key[1..] == b;
    } else {
      assert key[1..] == a[1..] + "/" + b;
      SplitAtFirstSlash(a[1..], b);
      assert [a[0]] + a[1..] == a;
    }
  }

  /** A key splits back into the id and the filename it was made of, slashes or not. */
  lemma KeySplits(id: int, filename: string)
    ensures Split(Key(id, filename)) == Some((IntText(id), filename))
  {
    SplitAtFirstSlash(IntText(id), filename);
  }

  lemma KeyInjective(i: int, f: string, j: int, g: string)
    requires Key(i, f) == Key(j, g)
    ensures i == j && f == g
  {
    KeySplits(i, f);
    KeySplits(j, g);
    IntRoundTrip(i);
    IntRoundTrip(j);
  }

  lemma {:induction false} FirstUnderscore(a: string, f: string, b: string, g: string)
    requires StagedName(a, f) == StagedName(b, g) && '_' !in a && '_' !in b
    ensures a == b && f == g
  {
    var left, right := StagedName(a, f), StagedName(b, g);
    assert a != "" ==> left[0] == a[0];
    assert b != "" ==> right[0] == b[0];
    assert (a == "" ==> left[0] == '_') && (b == "" ==> right[0] == '_');
    if a != "" && b != "" {
      assert left[1..] == StagedName(a[1..], f) && right[1..] == StagedName(b[1..], g);
      FirstUnderscore(a[1..], f, b[1..], g);
      assert a == [a[0]] + a[1..] && b == [b[0]] + b[1..];
    } else if a == b {
      assert left[1..] == f && right[1..] == g;
    }
  }

  /** Staged files of different artifacts or filenames never collide. */
  lemma StagedInjective(i: int, f: string, j: int, g: string)
    requires StagedName(IntText(i), f) == StagedName(IntText(j), g)
    ensures i == j && f == g
  {
    FirstUnderscore(IntText(i), f, IntText(j), g);
    IntRoundTrip(i);
    IntRoundTrip(j);
  }

  lemma {:induction false} SplitAtUnderscore(a: string) returns (before: string, after: string)
    requires '_' in a
    ensures a == before + "_" + after && '_' !in before
  {
    if a[0] == '_' {
      before, after := "", a[1..];
      assert a == "" + "_" + a[1..];
    } else {
      assert a == [a[0]] + a[1..];
      var rest;
      rest, after := SplitAtUnderscore(a[1..]);
      before := [a[0]] + rest;
      assert a == before + "_" + after;
    }
  }

  /** What `finalize_upload` takes for a key that `prepare_upload` did not make: the staged
      file of an artifact exactly when the text before the slash is that artifact's id, or
      goes on after it with an underscore and the beginning of its filename. */
  lemma ForeignKeyCollidesIff(a: string, f: string, i: int, g: string)
    ensures StagedName(a, f) == StagedName(IntText(i), g) <==>
            (a == IntText(i) && f == g) || exists r :: a == StagedName(IntText(i), r) && g == StagedName(r, f)
  {
    var id := IntText(i);
    forall r | a == StagedName(id, r) && g == StagedName(r, f) ensures StagedName(a, f) == StagedName(id, g) {
      assert (id + "_" + r) + "_" + f == id + "_" + (r + "_" + f);
    }
    if StagedName(a, f) == StagedName(id, g) {
      if '_' in a {
        var before, r := SplitAtUnderscore(a);
        assert (before + "_" + r) + "_" + f == before + "_" + (r + "_" + f);
        FirstUnderscore(before, StagedName(r, f), id, g);
        assert a == StagedName(id, r) && g == StagedName(r, f);
      } else {
        FirstUnderscore(a, f, id, g);
      }
    }
  }

  /** `1_2/x` names the staged file of artifact 1 called `2_x`. */
  lemma ForeignKeyExample()
    ensures Split("1_2/x") == Some(("1_2", "x"))
    ensures StagedName("1_2", "x") == StagedName(IntText(1), "2_x")
  {
    SplitAtFirstSlash("1_2", "x");
    assert "1_2" + "/" + "x" == "1_2/x";
    assert IntText(1) == "1";
    assert "1_2" == StagedName(IntText(1), "2") && "2_x" == StagedName("2", "x");
    ForeignKeyCollidesIff("1_2", "x", 1, "2_x");
  }

  /** The key and the staged file of one artifact. */
  lemma NamesExample()
    ensures Key(42, "model.joblib") == "42/model.joblib"
    ensures StagedName(IntText(42), "model.joblib") == "42_model.joblib"
  {
    Decimal(0, 4);
    Decimal(4, 2);
    assert "4" + "2" == "42";
    assert IntText(42) == "42";
  }

  // --- the operations on values ---

  function Get(m: map<string, Bytes>, name: string): Option<Bytes> {
    if name in m then Some(m[name]) else None
  }

  /** The staged file goes in any case; it arrives only with the expected digest. */
  function Finalized(s: Files, digest: Bytes -> string, artifact: string, filename: string, key: string,
      expected: string): Files {
    var staged := StagedName(artifact, filename);
    if staged !in s.staging then s
    else Files(s.staging - {staged},
               if digest(s.staging[staged]) == expected then s.permanent[key := s.staging[staged]] else s.permanent)
  }

  datatype Op =
    | Write(id: int, filename: string, bytes: Bytes)
    | Finalize(id: int, filename: string, expected: string)
    | Delete(id: int, filename: string)

  function Apply(s: Files, digest: Bytes -> string, op: Op): Files {
    match op
    case Write(id, filename, bytes) => s.(staging := s.staging[StagedName(IntText(id), filename) := bytes])
    case Finalize(id, filename, expected) => Finalized(s, digest, IntText(id), filename, Key(id, filename), expected)
    case Delete(id, filename) => s.(permanent := s.permanent - {Key(id, filename)})
  }

  function ExecFrom(s: Files, ops: seq<Op>, digest: Bytes -> string): Files {
    if ops == [] then s else Apply(ExecFrom(s, ops[..|ops| - 1], digest), digest, ops[|ops| - 1])
  }

  function Exec(ops: seq<Op>, digest: Bytes -> string): Files {
    ExecFrom(Files(map[], map[]), ops, digest)
  }

  // --- the map the store stands for ---

  /** Written since the last finalize of this artifact. */
  function Staged(ops: seq<Op>, id: int, filename: string): Option<Bytes> {
    if ops == [] then None
    else
      var last := ops[|ops| - 1];
      if last.id != id || last.filename != filename || last.Delete? then Staged(ops[..|ops| - 1], id, filename)
      else if last.Write? then Some(last.bytes)
      else None
  }

  /** The bytes last finalized with the right digest and not deleted since. */
  function Stored(ops: seq<Op>, digest: Bytes -> string, id: int, filename: string): Option<Bytes> {
    if ops == [] then None
    else
      var before, last := ops[..|ops| - 1], ops[|ops| - 1];
      if last.id != id || last.filename != filename || last.Write? then Stored(before, digest, id, filename)
      else if last.Delete? then None
      else
        var staged := Staged(before, id, filename);
        if staged.Some? && digest(staged.value) == last.expected then staged else Stored(before, digest, id, filename)
  }

  /** Over any sequence of writes, finalizes and deletes, with slash-free filenames (each a
      file of its own in its directory), the store holds under each key exactly what the map
      of artifacts holds. */
  lemma {:induction false} StoreIsMap(ops: seq<Op>, digest: Bytes -> string, id: int, filename: string)
    ensures Get(Exec(ops, digest).staging, StagedName(IntText(id), filename)) == Staged(ops, id, filename)
    ensures Get(Exec(ops, digest).permanent, Key(id, filename)) == Stored(ops, digest, id, filename)
  {
    if ops != [] {
      var before, last := ops[..|ops| - 1], ops[|ops| - 1];
      StoreIsMap(before, digest, id, filename);
      if StagedName(IntText(last.id), last.filename) == StagedName(IntText(id), filename) {
        StagedInjective(last.id, last.filename, id, filename);
      }
      if Key(last.id, last.filename) == Key(id, filename) {
        KeyInjective(last.id, last.filename, id, filename);
      }
    }
  }

  // --- kernel writes while an upload is finalized ---

  predicate OnlyWrites(ops: seq<Op>) {
    forall k :: 0 <= k < |ops| ==> ops[k].Write?
  }

  /** The last of some writes that goes to the staged file `name`. */
  function LastWritten(ops: seq<Op>, name: string): Option<Bytes>
    requires OnlyWrites(ops)
  {
    if ops == [] then None
    else
      var last := ops[|ops| - 1];
      if StagedName(IntText(last.id), last.filename) == name then Some(last.bytes)
      else LastWritten(ops[..|ops| - 1], name)
  }

  lemma {:induction false} WritesReach(s: Files, ops: seq<Op>, digest: Bytes -> string, name: string)
    requires OnlyWrites(ops)
    ensures var t := ExecFrom(s, ops, digest);
            && t.permanent == s.permanent
            && var written := LastWritten(ops, name);
               Get(t.staging, name) == if written.Some? then written else Get(s.staging, name)
  {
    if ops != [] { WritesReach(s, ops[..|ops| - 1], digest, name); }
  }

  // --- the storage backend ---

  datatype Failure = BadKey | NotStaged | DigestMismatch

  datatype Outcome = Stores(size: nat) | Fails(why: Failure)

  /** What `f.read(size)` gives at a position. */
  function Chunk(content: Bytes, position: nat, size: nat): Bytes
    requires position <= |content|
  {
    if position + size <= |content| then content[position..position + size] else content[position..]
  }

  class SharedFilesystemStorage {
    const digest: Bytes -> string
    var files: Files

    constructor (digest: Bytes -> string)
      ensures this.digest == digest && files == Exec([], digest)
    {
      this.digest, files := digest, Files(map[], map[]);
    }

    /** The kernel's write at the path of `prepare_upload`. */
    method KernelWrites(id: int, filename: string, bytes: Bytes)
      modifies this
      ensures files == Apply(old(files), digest, Write(id, filename, bytes))
    {
      var path, _ := PrepareUpload(id, filename);
      files := files.(staging := files.staging[path := bytes]);
    }

    method PrepareUpload(id: int, filename: string) returns (path: string, key: string)
      ensures path == StagedName(IntText(id), filename) && Split(key) == Some((IntText(id), filename))
    {
      path := StagedName(IntText(id), filename);
      key := Key(id, filename);
      KeySplits(id, filename);
    }

    /** Feeds the file to the hash a chunk at a time, until a read gives nothing.  A hash
        object stands for the bytes it was fed. */
    method ComputeSha256(content: Bytes, chunkSize: nat) returns (r: string)
      requires 0 < chunkSize
      ensures r == digest(content)
    {
      var fed: Bytes := [];
      var position := 0;
      var chunk := Chunk(content, 0, chunkSize);
      while chunk != []
        invariant 0 <= position <= |content| && fed == content[..position]
        invariant chunk == Chunk(content, position, chunkSize)
        decreases |content| - position
      {
        fed := fed + chunk;
        position := position + |chunk|;
        chunk := Chunk(content, position, chunkSize);
      }
      assert fed == content;
      r := digest(fed);
    }

    /** The digest is taken first and the file is moved afterwards; `between` are the
        writes of the kernel in the meantime.  What is stored is the file as it is then: the
        bytes that were checked if nobody wrote to it, and otherwise the last bytes written,
        unchecked.  A missing file or a wrong digest changes no permanent entry. */
    method FinalizeUpload(key: string, expected: string, between: seq<Op>) returns (r: Outcome)
      requires OnlyWrites(between)
      modifies this
      ensures r == Fails(BadKey) <==> Split(key).None?
      ensures Split(key).Some? ==>
                var name := StagedName(Split(key).value.0, Split(key).value.1);
                var staged := Get(old(files).staging, name);
                && (r == Fails(NotStaged) <==> staged.None?)
                && (r == Fails(DigestMismatch) <==> staged.Some? && digest(staged.value) != expected)
                && (r.Stores? ==>
                      var rewritten := LastWritten(between, name);
                      && Get(files.permanent, key) == (if rewritten.Some? then rewritten else staged)
                      && r.size == |files.permanent[key]|
                      && (digest(files.permanent[key]) == expected
                          <==> rewritten.None? || digest(rewritten.value) == expected))
      ensures r.Fails? ==> files.permanent == old(files).permanent
      // nothing else is stored, and the staged file is gone after either verdict
      ensures files.permanent - {key} == old(files).permanent - {key}
      ensures r !in {Fails(BadKey), Fails(NotStaged)} ==>
                Split(key).Some? && StagedName(Split(key).value.0, Split(key).value.1) !in files.staging
      ensures r in {Fails(BadKey), Fails(NotStaged)} ==> files == old(files)
      // with a key of prepare_upload and no write to its file, the call is one step after the writes
      ensures forall id, filename ::
        key == Key(id, filename) && r !in {Fails(BadKey), Fails(NotStaged)}
        && LastWritten(between, StagedName(IntText(id), filename)).None?
        ==> files == Apply(ExecFrom(old(files), between, digest), digest, Finalize(id, filename, expected))
    {
      if Split(key).None? {
        return Fails(BadKey);
      }
      var (artifact, filename) := Split(key).value;
      forall i, f | key == Key(i, f) ensures artifact == IntText(i) && filename == f {
        KeySplits(i, f);
      }
      var staged := StagedName(artifact, filename);
      if staged !in files.staging {
        return Fails(NotStaged);
      }
      var actual := ComputeSha256(files.staging[staged], 8 * 1024 * 1024);
      WritesReach(files, between, digest, staged);
      KernelActs(between);
      if actual != expected {
        files := files.(staging := files.staging - {staged});
        return Fails(DigestMismatch);
      }
      var bytes := files.staging[staged];
      files := Files(files.staging - {staged}, files.permanent[key := bytes]);
      r := Stores(|bytes|);
    }

    method KernelActs(writes: seq<Op>)
      requires OnlyWrites(writes)
      modifies this
      ensures files == ExecFrom(old(files), writes, digest)
    {
      var k := 0;
      while k < |writes|
        invariant 0 <= k <= |writes|
        invariant files == ExecFrom(old(files), writes[..k], digest)
      {
        KernelWrites(writes[k].id, writes[k].filename, writes[k].bytes);
        assert writes[..k + 1][..k] == writes[..k];
        k := k + 1;
      }
      assert writes[..k] == writes;
    }

    method DeleteBlob(key: string)
      modifies this
      ensures forall id, filename :: key == Key(id, filename) ==>
                files == Apply(old(files), digest, Delete(id, filename))
      ensures files == old(files).(permanent := old(files).permanent - {key})
    {
      if key in files.permanent {
        files := files.(permanent := files.permanent - {key});
      }
      assert files.permanent == old(files).permanent - {key};
    }
  }
}
