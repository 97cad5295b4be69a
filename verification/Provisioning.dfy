/**
 Provisioning of the speech model files: verify, copy from a cache, download to a temporary file,
 rename, verify again. The digest is an arbitrary function of the bytes.
 */
module Provisioning {
  import opened Wrappers
  import opened Text

  type Byte = n: nat | n < 256
  type Bytes = seq<Byte>

  datatype Path = Path(dir: string, name: string)
  type Files = map<Path, Bytes>

  // ---- Temporary names ----

  /** Index of the last dot, or -1. */
  function LastDot(name: string): (i: int)
    ensures -1 <= i < |name|
    ensures i >= 0 ==> name[i] == '.'
    ensures forall j | i < j < |name| :: name[j] != '.'
  {
    if name == "" then -1
    else if name[|name| - 1] == '.' then |name| - 1
    else LastDot(name[..|name| - 1])
  }

  /** The name without its suffix; a dot that starts or ends the name makes none. */
  function Stem(name: string): (stem: string) {
    var i := LastDot(name);
    if 0 < i < |name| - 1 then name[..i] else name
  }

  /** dest_path.with_suffix(".tmp") */
  function TempOf(p: Path): (t: Path) {
    Path(p.dir, Stem(p.name) + ".tmp")
  }

  /** The download overwrites its own target in place only for a target that is itself named .tmp. */
  lemma TempIsTargetIff(p: Path)
    ensures TempOf(p) == p <==> |p.name| > 4 && p.name[|p.name| - 4..] == ".tmp"
  {
    var n, i := p.name, LastDot(p.name);
    if TempOf(p) == p {
      assert n[|Stem(n)|..] == ".tmp";
    }
    if |n| > 4 && n[|n| - 4..] == ".tmp" {
      assert n[|n| - 4] == '.' && n[|n| - 3] == 't' && n[|n| - 2] == 'm' && n[|n| - 1] == 'p';
      assert i == |n| - 4;
      assert n == n[..i] + n[i..];
    }
  }

  predicate NoDot(s: string) { forall i | 0 <= i < |s| :: s[i] != '.' }

  /** What with_suffix makes of a name: it replaces what the last dot starts, unless that dot is the
      first or the last character; a name without a dot gets the suffix appended. */
  lemma TempNames(dir: string, a: string, b: string)
    requires NoDot(b)
    ensures TempOf(Path(dir, a + "." + b)) ==
            Path(dir, if a != "" && b != "" then a + ".tmp" else a + "." + b + ".tmp")
    ensures TempOf(Path(dir, b)) == Path(dir, b + ".tmp")
  {
    var name := a + "." + b;
    assert LastDot(name) == |a| by {
      assert name[|a|] == '.';
      assert forall j | |a| < j < |name| :: name[j] == b[j - |a| - 1];
    }
    assert name[..|a|] == a;
  }

  lemma TempKeepsFirst(p: Path)
    requires p.name != ""
    ensures TempOf(p).name != "" && TempOf(p).name[0] == p.name[0]
  {
  }

  // ---- Digests and the network ----

  const CHUNK := 65536

  function Concat(chunks: seq<Bytes>): (r: Bytes) {
    if chunks == [] then [] else Concat(chunks[..|chunks| - 1]) + chunks[|chunks| - 1]
  }

  /** What the server does: refuse, break off after some chunks, or serve all of them. The chunks
      are what read returns before its first empty answer. */
  datatype Response = Refused | Broken(chunks: seq<Bytes>) | Served(chunks: seq<Bytes>)

  datatype Expected = Expected(sha: string, size: nat)

  datatype Outcome = Provisioned | Mismatch | Failed

  predicate Matches(hash: Bytes -> string, content: Bytes, sha: string) {
    Lower(hash(content)) == Lower(sha)
  }

  predicate Verified(files: Files, hash: Bytes -> string, p: Path, sha: string, size: Option<nat>) {
    p in files && (size.Some? ==> |files[p]| == size.value) && Matches(hash, files[p], sha)
  }

  /** The rename of the temporary file onto the target. */
  function Renamed(files: Files, temp: Path, target: Path, content: Bytes): (r: Files) {
    (files - {temp})[target := content]
  }

  function CachedPath(cache: string, target: Path): Path {
    Path(cache, target.name)
  }

  /** The cache is used when the target does not verify and its namesake in the cache does. */
  predicate CacheUsed(files: Files, hash: Bytes -> string, target: Path, e: Expected, cache: Option<string>) {
    && !Verified(files, hash, target, e.sha, Some(e.size))
    && cache.Some?
    && Verified(files, hash, CachedPath(cache.value, target), e.sha, Some(e.size))
  }

  /** copy2 is only ever given two different files. */
  lemma CopyHasTwoFiles(files: Files, hash: Bytes -> string, target: Path, e: Expected, cache: Option<string>)
    requires CacheUsed(files, hash, target, e, cache)
    ensures CachedPath(cache.value, target) != target
  {
  }

  class FileSystem {
    var files: Files
    const hash: Bytes -> string

    constructor (files: Files, hash: Bytes -> string)
      ensures this.files == files && this.hash == hash
    {
      this.files, this.hash := files, hash;
    }

    /** Feed the file to the hasher in blocks; the hasher's state is what it has been fed. */
    method ComputeSha256(p: Path) returns (digest: string)
      requires p in files
      ensures digest == hash(files[p])
    {
      var content := files[p];
      var fed: Bytes := [];
      var at := 0;
      while at < |content|
        invariant 0 <= at <= |content| && fed == content[..at]
      {
        var next := if at + CHUNK <= |content| then at + CHUNK else |content|;
        fed := fed + content[at..next];
        assert content[..next] == content[..at] + content[at..next];
        at := next;
      }
      assert content[..at] == content;
      digest := hash(fed);
    }

    method VerifyFile(p: Path, sha: string, size: Option<nat>) returns (ok: bool)
      ensures ok <==> Verified(files, hash, p, sha, size)
    {
      if p !in files {
        return false;
      }
      if size.Some? && |files[p]| != size.value {
        return false;
      }
      var actual := ComputeSha256(p);
      ok := Lower(actual) == Lower(sha);
    }

    /** Stream into the temporary file, then rename it; only the rename touches the target. */
    method Download(response: Response, target: Path) returns (ok: bool)
      modifies this`files
      ensures ok == response.Served?
      ensures var temp := TempOf(target);
              match response
              case Refused => files == old(files)
              case Broken(chunks) => files == old(files)[temp := Concat(chunks)]
              case Served(chunks) => files == Renamed(old(files), temp, target, Concat(chunks))
    {
      var temp := TempOf(target);
      if response.Refused? {
        return false;
      }
      files := files[temp := []];
      var chunks := response.chunks;
      for i := 0 to |chunks|
        invariant files == old(files)[temp := Concat(chunks[..i])]
      {
        files := files[temp := files[temp] + chunks[i]];
        assert chunks[..i + 1][..i] == chunks[..i];
      }
      assert chunks[..|chunks|] == chunks;
      if response.Broken? {
        return false;
      }
      var content := files[temp];
      files := (files - {temp})[target := content];
      ok := true;
    }

    /** copied is what the copy of the cached bytes arrives as, sound or not. */
    method ProvisionFile(target: Path, response: Response, e: Expected, cache: Option<string>, copied: Bytes -> Bytes)
      returns (r: Outcome)
      modifies this`files
      ensures r == Provisioned ==> target in files && Matches(hash, files[target], e.sha)
      ensures r == Mismatch ==> target !in files && response.Served? && !Matches(hash, Concat(response.chunks), e.sha)
      ensures r == Failed ==> !response.Served?
      ensures r == OutcomeOf(old(files), hash, target, response, e, cache, copied)
      ensures files == FilesAfter(old(files), hash, target, response, e, cache, copied)
    {
      var present := VerifyFile(target, e.sha, Some(e.size));
      if present {
        return Provisioned;
      }
      if cache.Some? {
        var source := CachedPath(cache.value, target);
        var cached := VerifyFile(source, e.sha, Some(e.size));
        if cached {
          CopyHasTwoFiles(files, hash, target, e, cache);
          files := files[target := copied(files[source])];
          var arrived := VerifyFile(target, e.sha, Some(e.size));
          if arrived {
            return Provisioned;
          }
        }
      }
      var ok := Download(response, target);
      if !ok {
        return Failed;
      }
      var actual := ComputeSha256(target);
      if Lower(actual) != Lower(e.sha) {
        files := files - {target};
        return Mismatch;
      }
      r := Provisioned;
    }

    /** Both files in turn; an exception on the first leaves the second alone. A missing cache
        argument means the default cache directory. */
    method ProvisionKokoroModels(dir: string, cacheArg: Option<string>, model: Expected, voices: Expected,
                                 modelResponse: Response, voicesResponse: Response, copied: Bytes -> Bytes)
      returns (ok: bool)
      modifies this`files
      ensures var m, v := Path(dir, "kokoro-v1.0.fp16.onnx"), Path(dir, "voices-v1.0.bin");
              var cache := Some(if cacheArg.Some? && cacheArg.value != "" then cacheArg.value else BENCHMARK_CACHE_DIR);
              var first := OutcomeOf(old(files), hash, m, modelResponse, model, cache, copied);
              var between := FilesAfter(old(files), hash, m, modelResponse, model, cache, copied);
              && (ok <==>
                    first == Provisioned && OutcomeOf(between, hash, v, voicesResponse, voices, cache, copied) == Provisioned)
              && files == if first == Provisioned then FilesAfter(between, hash, v, voicesResponse, voices, cache, copied)
                          else between
      ensures var m, v := Path(dir, "kokoro-v1.0.fp16.onnx"), Path(dir, "voices-v1.0.bin");
              && (ok ==> m in files && Matches(hash, files[m], model.sha) && v in files && Matches(hash, files[v], voices.sha))
              && (forall p | p !in {m, TempOf(m), v, TempOf(v)} :: Get(files, p) == Get(old(files), p))
    {
      var m, v := Path(dir, MODEL_NAME), Path(dir, VOICES_NAME);
      var cache := EffectiveCache(cacheArg);
      var first := ProvisionFile(m, modelResponse, model, Some(cache), copied);
      ghost var between := files;
      forall p | p != m && p != TempOf(m) ensures Get(files, p) == Get(old(files), p) {
        OthersUntouched(old(files), hash, m, modelResponse, model, Some(cache), copied, p);
      }
      if first != Provisioned {
        return false;
      }
      var second := ProvisionFile(v, voicesResponse, voices, Some(cache), copied);
      forall p | p != v && p != TempOf(v) ensures Get(files, p) == Get(between, p) {
        OthersUntouched(between, hash, v, voicesResponse, voices, Some(cache), copied, p);
      }
      FilesApart(dir);
      assert Get(files, m) == Get(between, m);
      ok := second == Provisioned;
    }
  }

  const MODEL_NAME := "kokoro-v1.0.fp16.onnx"
  const VOICES_NAME := "voices-v1.0.bin"
  const BENCHMARK_CACHE_DIR := "/tmp/omega_tts_benchmark/kokoro"

  /** Neither the voices nor their temporary file are the model file. */
  lemma FilesApart(dir: string)
    ensures Path(dir, MODEL_NAME) != Path(dir, VOICES_NAME) && Path(dir, MODEL_NAME) != TempOf(Path(dir, VOICES_NAME))
  {
    TempKeepsFirst(Path(dir, VOICES_NAME));
    assert MODEL_NAME[0] == 'k' && VOICES_NAME[0] == 'v';
  }

  /** The cache argument of the command: nothing under --no-cache. */
  function CacheArgument(noCache: bool, cacheDir: string): Option<string> {
    if noCache then None else Some(cacheDir)
  }

  function EffectiveCache(cacheArg: Option<string>): string {
    if cacheArg.Some? && cacheArg.value != "" then cacheArg.value else BENCHMARK_CACHE_DIR
  }

  /** The directory the command looks in: the one given, whose text is never empty, save that
      --no-cache means the benchmark cache. */
  lemma CacheChoice(noCache: bool, cacheDir: string)
    requires cacheDir != ""
    ensures EffectiveCache(CacheArgument(noCache, cacheDir)) == if noCache then "/tmp/omega_tts_benchmark/kokoro" else cacheDir
  {
  }

  // ---- The state after one file ----

  /** The files once the cache has been tried. */
  function AfterCache(files: Files, hash: Bytes -> string, target: Path, e: Expected, cache: Option<string>,
                      copied: Bytes -> Bytes): (r: Files) {
    if CacheUsed(files, hash, target, e, cache) then files[target := copied(files[CachedPath(cache.value, target)])] else files
  }

  function OutcomeOf(files: Files, hash: Bytes -> string, target: Path, response: Response, e: Expected,
                     cache: Option<string>, copied: Bytes -> Bytes): (r: Outcome) {
    if Verified(AfterCache(files, hash, target, e, cache, copied), hash, target, e.sha, Some(e.size)) then Provisioned
    else if !response.Served? then Failed
    else if Matches(hash, Concat(response.chunks), e.sha) then Provisioned
    else Mismatch
  }

  function FilesAfter(files: Files, hash: Bytes -> string, target: Path, response: Response, e: Expected,
                      cache: Option<string>, copied: Bytes -> Bytes): (r: Files) {
    var base := AfterCache(files, hash, target, e, cache, copied);
    var temp := TempOf(target);
    if Verified(base, hash, target, e.sha, Some(e.size)) then base
    else match response
         case Refused => base
         case Broken(chunks) => base[temp := Concat(chunks)]
         case Served(chunks) =>
           var r := Renamed(base, temp, target, Concat(chunks));
           if Matches(hash, Concat(chunks), e.sha) then r else r - {target}
  }

  function Get(files: Files, p: Path): Option<Bytes> {
    if p in files then Some(files[p]) else None
  }

  /** No run touches a path other than the target and its temporary name: not the cache, and not
      another file being provisioned. */
  lemma OthersUntouched(files: Files, hash: Bytes -> string, target: Path, response: Response, e: Expected,
                        cache: Option<string>, copied: Bytes -> Bytes, p: Path)
    requires p != target && p != TempOf(target)
    ensures Get(FilesAfter(files, hash, target, response, e, cache, copied), p) == Get(files, p)
  {
  }

  /** A download that fails leaves the target as it was, unless a copy from the cache that did not
      verify already replaced it, or the target is its own temporary file and the stream broke off. */
  lemma FailureKeepsTargetIff(files: Files, hash: Bytes -> string, target: Path, response: Response, e: Expected,
                              cache: Option<string>, copied: Bytes -> Bytes)
    requires OutcomeOf(files, hash, target, response, e, cache, copied) == Failed
    ensures var after := FilesAfter(files, hash, target, response, e, cache, copied);
            var final := if response.Broken? && TempOf(target) == target then Some(Concat(response.chunks))
                         else if CacheUsed(files, hash, target, e, cache)
                         then Some(copied(files[CachedPath(cache.value, target)])) else Get(files, target);
            Get(after, target) == final
  {
  }

  /** After success the target verifies by digest; a second run finds it in place exactly when the
      size agrees too, which nothing checks after a download. */
  lemma SecondRunIff(files: Files, hash: Bytes -> string, target: Path, response: Response, e: Expected,
                     cache: Option<string>, copied: Bytes -> Bytes)
    requires OutcomeOf(files, hash, target, response, e, cache, copied) == Provisioned
    ensures var after := FilesAfter(files, hash, target, response, e, cache, copied);
            && target in after && Matches(hash, after[target], e.sha)
            && (Verified(after, hash, target, e.sha, Some(e.size)) <==> |after[target]| == e.size)
  {
  }

  /** --no-cache asks for the run of a command that knows of no cache. */
  predicate RunsUncached(files: Files, hash: Bytes -> string, target: Path, e: Expected, dir: string, response: Response) {
    var cache := Some(EffectiveCache(CacheArgument(true, dir)));
    && OutcomeOf(files, hash, target, response, e, cache, b => b) == OutcomeOf(files, hash, target, response, e, None, b => b)
    && FilesAfter(files, hash, target, response, e, cache, b => b) == FilesAfter(files, hash, target, response, e, None, b => b)
  }

  ghost predicate NoCacheHonoured(files: Files, hash: Bytes -> string, target: Path, e: Expected, dir: string) {
    forall response :: RunsUncached(files, hash, target, e, dir, response)
  }

  /** With copies that arrive intact, --no-cache does what it says, whatever the server answers,
      exactly when the default cache has nothing to offer. */
  lemma NoCacheHonouredIff(files: Files, hash: Bytes -> string, target: Path, e: Expected, dir: string)
    ensures NoCacheHonoured(files, hash, target, e, dir) <==>
            !CacheUsed(files, hash, target, e, Some(BENCHMARK_CACHE_DIR))
  {
    if CacheUsed(files, hash, target, e, Some(BENCHMARK_CACHE_DIR)) {
      NoCacheStillCopies(files, hash, target, Refused, e, dir);
      assert !RunsUncached(files, hash, target, e, dir, Refused);
    }
  }

  /** It does not switch the cache off but selects the default one, so a file found there is copied
      and the server is never asked, whatever it would answer. */
  lemma NoCacheStillCopies(files: Files, hash: Bytes -> string, target: Path, response: Response, e: Expected, dir: string)
    requires CacheUsed(files, hash, target, e, Some(BENCHMARK_CACHE_DIR))
    ensures var cache := Some(EffectiveCache(CacheArgument(true, dir)));
            && OutcomeOf(files, hash, target, response, e, cache, b => b) == Provisioned
            && FilesAfter(files, hash, target, response, e, cache, b => b) ==
               files[target := files[CachedPath(BENCHMARK_CACHE_DIR, target)]]
  {
  }

  /** A one-byte file in the default cache, a server that refuses, and an empty models directory:
      under --no-cache the file is provisioned all the same. */
  lemma NoCacheExample(hash: Bytes -> string)
    requires hash([1]) == "d1"
    ensures var files := map[Path(BENCHMARK_CACHE_DIR, MODEL_NAME) := [1]];
            && OutcomeOf(files, hash, Path("models", MODEL_NAME), Refused, Expected("d1", 1),
                         Some(EffectiveCache(CacheArgument(true, "cache"))), b => b) == Provisioned
            && OutcomeOf(files, hash, Path("models", MODEL_NAME), Refused, Expected("d1", 1), None, b => b) == Failed
  {
    var files: Files := map[Path(BENCHMARK_CACHE_DIR, MODEL_NAME) := [1]];
    assert CachedPath(BENCHMARK_CACHE_DIR, Path("models", MODEL_NAME)) == Path(BENCHMARK_CACHE_DIR, MODEL_NAME);
    NoCacheStillCopies(files, hash, Path("models", MODEL_NAME), Refused, Expected("d1", 1), "cache");
  }

  // ---- Runs one after another ----

  /** Repeated runs, each with whatever the server does that time, and copies that arrive intact. */
  function AfterRuns(files: Files, hash: Bytes -> string, target: Path, responses: seq<Response>, e: Expected,
                     cache: Option<string>): (r: Files) {
    if responses == [] then files
    else
      var before := AfterRuns(files, hash, target, responses[..|responses| - 1], e, cache);
      FilesAfter(before, hash, target, responses[|responses| - 1], e, cache, b => b)
  }

  /** However often it runs and fails, what stands at the target is either what stood there at the
      start or content with the published digest: never part of a download, never a wrong file. */
  lemma {:induction false} TargetNeverWrong(files: Files, hash: Bytes -> string, target: Path, responses: seq<Response>,
                                            e: Expected, cache: Option<string>)
    requires TempOf(target) != target
    ensures var after := AfterRuns(files, hash, target, responses, e, cache);
            target in after ==> Matches(hash, after[target], e.sha) || Get(after, target) == Get(files, target)
  {
    if responses != [] {
      TargetNeverWrong(files, hash, target, responses[..|responses| - 1], e, cache);
    }
  }
}
