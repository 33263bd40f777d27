/** The compiled-shader cache: the cache file's name, the cache-hit test, the
    random temporary name, and publishing a fresh compile by rename. Files are
    a map from path to contents; `pr::JoinPath` is the pair `FilePath(dir, name)`. */
module ShaderCache {
  import opened Ints
  import opened Wrappers

  datatype CompileMode = Release | Debug

  datatype FilePath = FilePath(dir: string, name: string)

  type Files = map<FilePath, seq<byte>>

  datatype ShaderError =
    | EmptySourceFile
    | EmptyCompileOutput
    | UnsupportedBinding(index: nat)

  // ---------------------------------------------------------------- hex digits

  function Pow16(n: nat): (p: nat)
    ensures p >= 1
  {
    if n == 0 then 1 else 16 * Pow16(n - 1)
  }

  predicate IsLowerHexDigit(c: char) { '0' <= c <= '9' || 'a' <= c <= 'f' }

  function HexDigit(d: nat): (c: char)
    requires d < 16
    ensures IsLowerHexDigit(c)
  {
    if d < 10 then ('0' as int + d) as char else ('a' as int + d - 10) as char
  }

  function DigitValue(c: char): (d: nat)
    ensures d < 16
  {
    if '0' <= c <= '9' then c as int - '0' as int
    else if 'a' <= c <= 'f' then c as int - 'a' as int + 10
    else 0
  }

  /** The low `width` hex digits of `h`, most significant first, zero-padded:
      `printf("%0*x")` for a value that fits. */
  function Hex(h: nat, width: nat): string
    decreases width
  {
    if width == 0 then "" else Hex(h / 16, width - 1) + [HexDigit(h % 16)]
  }

  function ParseHex(s: string): nat
    decreases |s|
  {
    if s == [] then 0 else ParseHex(s[..|s| - 1]) * 16 + DigitValue(s[|s| - 1])
  }

  /** A value that fits in `width` hex digits is printed in exactly `width`
      lowercase digits, and reading them back gives the value. */
  lemma {:induction false} HexRoundTrip(h: nat, width: nat)
    requires h < Pow16(width)
    ensures |Hex(h, width)| == width
    ensures forall i :: 0 <= i < width ==> IsLowerHexDigit(Hex(h, width)[i])
    ensures ParseHex(Hex(h, width)) == h
    decreases width
  {
    if width > 0 {
      var q, d := h / 16, h % 16;
      assert h == 16 * q + d;
      assert q < Pow16(width - 1);
      HexRoundTrip(q, width - 1);
      var s := Hex(h, width);
      assert s == Hex(q, width - 1) + [HexDigit(d)];
      assert s[..|s| - 1] == Hex(q, width - 1);
      assert DigitValue(HexDigit(d)) == d;
    }
  }

  lemma Pow16Of8()
    ensures Pow16(8) == TWO_TO_THE_32
  {
  }

  /** `sprintf(shaderHash, "%08x", h)`. */
  function Hex8(hash: uint32): (s: string)
    ensures |s| == 8
  {
    Pow16Of8();
    HexRoundTrip(hash as int, 8);
    Hex(hash as int, 8)
  }

  /** `"%08x"` is injective: the eight digits give back the hash. */
  lemma Hex8RoundTrip(hash: uint32)
    ensures ParseHex(Hex8(hash)) == hash as int
    ensures forall i :: 0 <= i < 8 ==> IsLowerHexDigit(Hex8(hash)[i])
  {
    Pow16Of8();
    HexRoundTrip(hash as int, 8);
  }

  // ---------------------------------------------------------------- names

  /** `basename + "_" + %08x(hash) + ".il"`, with `"_d"` appended for Debug. */
  function CacheFileName(stem: string, hash: uint32, mode: CompileMode): (name: string)
    ensures |name| == |stem| + 12 + (if mode == Debug then 2 else 0)
    ensures name[..|stem| + 1] == stem + "_"
    ensures name[|stem| + 1..|stem| + 9] == Hex8(hash)
    ensures name[|stem| + 9..|stem| + 12] == ".il"
    ensures mode == Debug ==> name[|stem| + 12..] == "_d"
  {
    stem + "_" + Hex8(hash) + ".il" + (if mode == Debug then "_d" else "")
  }

  /** Different hashes or modes give different cache files for the same kernel. */
  lemma CacheFileNameInjective(stem: string, h1: uint32, m1: CompileMode, h2: uint32, m2: CompileMode)
    requires CacheFileName(stem, h1, m1) == CacheFileName(stem, h2, m2)
    ensures h1 == h2 && m1 == m2
  {
    var n := |stem|;
    assert Hex8(h1) == CacheFileName(stem, h1, m1)[n + 1..n + 9];
    assert Hex8(h2) == CacheFileName(stem, h2, m2)[n + 1..n + 9];
    Hex8RoundTrip(h1);
    Hex8RoundTrip(h2);
  }

  /** The eight letters of the temporary name: `'a' + gen(e)`, `gen` uniform on `0..23`. */
  predicate ValidDraws(draws: seq<int>)
  {
    |draws| == 8 && forall i :: 0 <= i < 8 ==> 0 <= draws[i] <= 23
  }

  /** The temporary name's letters: `tmp[i] = 'a' + gen(e)` for the i-th draw. */
  function TempLettersOf(draws: seq<int>): (letters: string)
    requires ValidDraws(draws)
    ensures |letters| == 8
    ensures forall i :: 0 <= i < 8 ==> 'a' <= letters[i] <= 'x'
  {
    seq(8, i requires 0 <= i < 8 => ('a' as int + draws[i]) as char)
  }

  /** The loop filling `tmp[0..8]`. */
  method TempLetters(draws: seq<int>) returns (letters: string)
    requires ValidDraws(draws)
    ensures letters == TempLettersOf(draws)
  {
    var tmp := new char[8](_ => 'a');
    for i := 0 to 8
      invariant forall k :: 0 <= k < i ==> tmp[k] == TempLettersOf(draws)[k]
    {
      tmp[i] := ('a' as int + draws[i]) as char;
    }
    letters := tmp[..];
  }

  /** `basename + "_" + tmp`. */
  function TempFileName(stem: string, letters: string): (name: string)
    requires |letters| == 8
    ensures |name| == |stem| + 9
  {
    stem + "_" + letters
  }

  /** The temporary file never has the name of a cache file of the same kernel,
      so removing it cannot remove the cache. */
  lemma TempNameIsNotCacheName(stem: string, letters: string, hash: uint32, mode: CompileMode)
    requires |letters| == 8
    ensures TempFileName(stem, letters) != CacheFileName(stem, hash, mode)
  {
  }

  // ---------------------------------------------------------------- files

  /** `DXCFileBlob(path)`: a file that cannot be opened reads as empty; the
      empty path (`ilFile` when no preprocessed text was produced) is `None`. */
  function ReadBlob(files: Files, path: Option<FilePath>): (bytes: seq<byte>)
    ensures path.Some? && path.value in files ==> bytes == files[path.value]
    ensures path.None? || path.value !in files ==> bytes == []
  {
    if path.Some? && path.value in files then files[path.value] else []
  }

  /** The two steps of one writer's publish: `fwrite` of the temporary file,
      then `rename` onto the cache file, or `remove` of the temporary if the
      rename fails. The C runtime's `rename` fails when the target exists. */
  datatype PublishStep = WriteTemp(temp: FilePath, bytes: seq<byte>) | Commit(temp: FilePath, target: Option<FilePath>)

  function Apply(files: Files, step: PublishStep): Files
  {
    match step
    case WriteTemp(t, bytes) => files[t := bytes]
    case Commit(t, target) =>
      if t in files && target.Some? && target.value !in files
      then (files - {t})[target.value := files[t]]
      else files - {t}
  }

  function Run(files: Files, steps: seq<PublishStep>): Files
    decreases |steps|
  {
    if steps == [] then files else Run(Apply(files, steps[0]), steps[1..])
  }

  /** One writer's publish of `bytes`: afterwards the temporary file is gone; the
      cache file holds `bytes` if it did not exist before, and otherwise is left
      as it was; every other file is unchanged. */
  function Published(files: Files, temp: FilePath, target: Option<FilePath>, bytes: seq<byte>): (r: Files)
    ensures temp !in r
    ensures forall p :: p in files && p != temp && Some(p) != target ==> p in r && r[p] == files[p]
    ensures forall p :: p in r ==> p in files || Some(p) == target
    ensures target.Some? && target.value != temp ==>
              if target.value in files then target.value in r && r[target.value] == files[target.value]
              else target.value in r && r[target.value] == bytes
  {
    Apply(Apply(files, WriteTemp(temp, bytes)), Commit(temp, target))
  }

  class FileSystem {
    var files: Files

    constructor (files: Files)
      ensures this.files == files
    {
      this.files := files;
    }

    /** `fopen(path, "wb")`, `fwrite`, `fclose`. */
    method Write(path: FilePath, bytes: seq<byte>)
      modifies this
      ensures files == Apply(old(files), WriteTemp(path, bytes))
    {
      files := files[path := bytes];
    }

    /** `rename(from, to) != 0` is `!ok`. */
    method Rename(from: FilePath, to: Option<FilePath>) returns (ok: bool)
      modifies this
      ensures ok <==> from in old(files) && to.Some? && to.value !in old(files)
      ensures ok ==> files == (old(files) - {from})[to.value := old(files)[from]]
      ensures !ok ==> files == old(files)
    {
      ok := from in files && to.Some? && to.value !in files;
      if ok {
        files := (files - {from})[to.value := files[from]];
      }
    }

    /** `remove(path)`. */
    method Remove(path: FilePath)
      modifies this
      ensures files == old(files) - {path}
    {
      files := files - {path};
    }
  }

  /** The publish branch: write the temporary file, rename it onto the cache
      file, and remove it if the rename fails. */
  method Publish(fs: FileSystem, temp: FilePath, target: Option<FilePath>, bytes: seq<byte>)
    modifies fs
    ensures fs.files == Published(old(fs.files), temp, target, bytes)
  {
    fs.Write(temp, bytes);
    ghost var written := fs.files;
    var ok := fs.Rename(temp, target);
    if !ok {
      fs.Remove(temp);
    }
    assert fs.files == Apply(written, Commit(temp, target));
  }

  // ---------------------------------------------------------------- hit or miss

  /** What the cache step produced: the binary, whether the full compile ran, and the files after. */
  datatype CacheResult = CacheResult(binary: seq<byte>, compiled: bool, files: Files)

  /** A non-empty cache file is the binary and the compile is skipped; otherwise
      the compiler's object code is published, and empty object code is the
      `DX_ASSERT(0)` of the `else` branch. */
  function CacheStep(files: Files, cacheFile: Option<FilePath>, temp: FilePath, objectCode: seq<byte>): (r: Result<CacheResult, ShaderError>)
    ensures r.Ok? ==> |r.value.binary| > 0
  {
    var cached := ReadBlob(files, cacheFile);
    if |cached| > 0 then Ok(CacheResult(cached, false, files))
    else if |objectCode| == 0 then Err(EmptyCompileOutput)
    else Ok(CacheResult(objectCode, true, Published(files, temp, cacheFile, objectCode)))
  }

  /** The cache part of the `Shader` constructor; the compiler's output is
      consulted only on a miss. */
  method LoadOrCompile(fs: FileSystem, dir: string, stem: string, cacheFile: Option<FilePath>,
                       objectCode: seq<byte>, draws: seq<int>) returns (r: Result<CacheResult, ShaderError>)
    requires ValidDraws(draws)
    modifies fs
    ensures r == CacheStep(old(fs.files), cacheFile, FilePath(dir, TempFileName(stem, TempLettersOf(draws))), objectCode)
    ensures r.Ok? ==> fs.files == r.value.files
    ensures r.Err? ==> fs.files == old(fs.files)
  {
    var cached := ReadBlob(fs.files, cacheFile);
    if |cached| > 0 {
      return Ok(CacheResult(cached, false, fs.files));
    }
    if |objectCode| == 0 {
      return Err(EmptyCompileOutput);
    }
    var letters := TempLetters(draws);
    var temp := FilePath(dir, TempFileName(stem, letters));
    Publish(fs, temp, cacheFile, objectCode);
    r := Ok(CacheResult(objectCode, true, fs.files));
  }

  /** A hit returns the stored bytes and leaves the files alone; a miss with
      object code returns that code; a miss without it fails. */
  lemma {:induction false} CacheStepOutcomes(files: Files, cacheFile: Option<FilePath>, temp: FilePath, objectCode: seq<byte>)
    ensures var r := CacheStep(files, cacheFile, temp, objectCode);
            && (cacheFile.Some? && cacheFile.value in files && |files[cacheFile.value]| > 0 <==> r.Ok? && !r.value.compiled)
            && (r.Ok? && !r.value.compiled ==> r.value.binary == files[cacheFile.value] && r.value.files == files)
            && (r.Ok? && r.value.compiled ==> r.value.binary == objectCode && |objectCode| > 0)
            && (r.Err? <==> |ReadBlob(files, cacheFile)| == 0 && |objectCode| == 0)
  {
  }

  /** After a compile that published, a second run with the same cache file
      hits and returns the same bytes, whatever the compiler would now produce.
      A compile hits next time exactly when its cache file did not exist: an
      empty cache file blocks every later rename and is never replaced. */
  lemma {:induction false} SecondRunHits(files: Files, cacheFile: Option<FilePath>, temp1: FilePath, code1: seq<byte>,
                                         temp2: FilePath, code2: seq<byte>)
    requires cacheFile != Some(temp1)
    requires CacheStep(files, cacheFile, temp1, code1).Ok? && CacheStep(files, cacheFile, temp1, code1).value.compiled
    ensures var first := CacheStep(files, cacheFile, temp1, code1).value;
            var second := CacheStep(first.files, cacheFile, temp2, code2);
            (second.Ok? && !second.value.compiled) <==> (cacheFile.Some? && cacheFile.value !in files)
    ensures var first := CacheStep(files, cacheFile, temp1, code1).value;
            var second := CacheStep(first.files, cacheFile, temp2, code2);
            cacheFile.Some? && cacheFile.value !in files ==>
              second == Ok(CacheResult(first.binary, false, first.files))
  {
    var first := CacheStep(files, cacheFile, temp1, code1).value;
    assert first.files == Published(files, temp1, cacheFile, code1);
    if cacheFile.Some? && cacheFile.value in files {
      assert |files[cacheFile.value]| == 0;
    }
  }

  /** The six ways two writers' publishes of the same cache file can interleave. */
  function Interleavings(a1: PublishStep, a2: PublishStep, b1: PublishStep, b2: PublishStep): set<seq<PublishStep>>
  {
    {[a1, a2, b1, b2], [a1, b1, a2, b2], [a1, b1, b2, a2], [b1, a1, a2, b2], [b1, a1, b2, a2], [b1, b2, a1, a2]}
  }

  /** Within one process the mutex held across the naming, the write, the
      rename and the remove serialises two publishes: each runs whole after
      the other, as two single-writer publishes. This holds whatever the
      temporary names are and whatever cache file already exists. */
  lemma LockedPublishes(files: Files, tempA: FilePath, tempB: FilePath, target: Option<FilePath>,
                        codeA: seq<byte>, codeB: seq<byte>)
    ensures Run(files, [WriteTemp(tempA, codeA), Commit(tempA, target), WriteTemp(tempB, codeB), Commit(tempB, target)])
            == Published(Published(files, tempA, target, codeA), tempB, target, codeB)
  {
    RunFour(files, [WriteTemp(tempA, codeA), Commit(tempA, target), WriteTemp(tempB, codeB), Commit(tempB, target)]);
  }

  /** Two writers in separate processes that both missed and publish concurrently: however their
      steps interleave, the cache file ends holding one writer's complete
      output, both temporary files are gone, and nothing else changed. With
      content-addressed names both outputs are equal, so the cache holds it. */
  lemma ConcurrentPublish(files: Files, tempA: FilePath, tempB: FilePath, target: FilePath,
                          codeA: seq<byte>, codeB: seq<byte>, steps: seq<PublishStep>)
    requires tempA != tempB && tempA != target && tempB != target
    requires target !in files
    requires steps in Interleavings(WriteTemp(tempA, codeA), Commit(tempA, Some(target)),
                                    WriteTemp(tempB, codeB), Commit(tempB, Some(target)))
    ensures var r := Run(files, steps);
            && target in r && (r[target] == codeA || r[target] == codeB)
            && tempA !in r && tempB !in r
            && (forall p :: p in files && p != tempA && p != tempB ==> p in r && r[p] == files[p])
            && (forall p :: p in r ==> p in files || p == target)
            && (codeA == codeB ==> r[target] == codeA)
  {
    var winner := InterleavedRun(files, tempA, tempB, target, codeA, codeB, steps);
  }

  /** The interleaved run is the old files without either temporary file, plus
      the cache file holding the output of whichever writer committed first. */
  lemma InterleavedRun(files: Files, tempA: FilePath, tempB: FilePath, target: FilePath,
                       codeA: seq<byte>, codeB: seq<byte>, steps: seq<PublishStep>) returns (winner: seq<byte>)
    requires tempA != tempB && tempA != target && tempB != target
    requires target !in files
    requires steps in Interleavings(WriteTemp(tempA, codeA), Commit(tempA, Some(target)),
                                    WriteTemp(tempB, codeB), Commit(tempB, Some(target)))
    ensures winner == codeA || winner == codeB
    ensures Run(files, steps) == (files - {tempA, tempB})[target := winner]
  {
    var wa, ca, wb, cb := WriteTemp(tempA, codeA), Commit(tempA, Some(target)), WriteTemp(tempB, codeB), Commit(tempB, Some(target));
    assert {tempA, tempB} == {tempB, tempA};
    if steps == [wa, ca, wb, cb] {
      FirstPublishesAlone(files, tempA, codeA, tempB, codeB, target);
      winner := codeA;
    } else if steps == [wa, wb, ca, cb] {
      BothWriteThenCommit(files, tempA, codeA, tempB, codeB, target, false);
      winner := codeA;
    } else if steps == [wa, wb, cb, ca] {
      BothWriteThenCommit(files, tempB, codeB, tempA, codeA, target, true);
      winner := codeB;
    } else if steps == [wb, wa, ca, cb] {
      BothWriteThenCommit(files, tempA, codeA, tempB, codeB, target, true);
      winner := codeA;
    } else if steps == [wb, wa, cb, ca] {
      BothWriteThenCommit(files, tempB, codeB, tempA, codeA, target, false);
      winner := codeB;
    } else {
      FirstPublishesAlone(files, tempB, codeB, tempA, codeA, target);
      winner := codeB;
    }
  }

  /** One writer publishes completely before the other writes. */
  lemma FirstPublishesAlone(files: Files, temp1: FilePath, code1: seq<byte>, temp2: FilePath, code2: seq<byte>, target: FilePath)
    requires temp1 != temp2 && temp1 != target && temp2 != target && target !in files
    ensures Run(files, [WriteTemp(temp1, code1), Commit(temp1, Some(target)), WriteTemp(temp2, code2), Commit(temp2, Some(target))])
            == (files - {temp1, temp2})[target := code1]
  {
    var steps := [WriteTemp(temp1, code1), Commit(temp1, Some(target)), WriteTemp(temp2, code2), Commit(temp2, Some(target))];
    RunFour(files, steps);
    var f2 := (files[temp1 := code1] - {temp1})[target := code1];
    assert Apply(Apply(files, steps[0]), steps[1]) == f2;
    assert Apply(Apply(f2, steps[2]), steps[3]) == (files - {temp1, temp2})[target := code1];
  }

  /** Both writers write their temporary files (in either order) before either
      commits; the one that commits first wins. */
  lemma BothWriteThenCommit(files: Files, temp1: FilePath, code1: seq<byte>, temp2: FilePath, code2: seq<byte>,
                            target: FilePath, secondWritesFirst: bool)
    requires temp1 != temp2 && temp1 != target && temp2 != target && target !in files
    ensures var writes := if secondWritesFirst then [WriteTemp(temp2, code2), WriteTemp(temp1, code1)]
                          else [WriteTemp(temp1, code1), WriteTemp(temp2, code2)];
            Run(files, writes + [Commit(temp1, Some(target)), Commit(temp2, Some(target))])
            == (files - {temp1, temp2})[target := code1]
  {
    var writes := if secondWritesFirst then [WriteTemp(temp2, code2), WriteTemp(temp1, code1)]
                  else [WriteTemp(temp1, code1), WriteTemp(temp2, code2)];
    var steps := writes + [Commit(temp1, Some(target)), Commit(temp2, Some(target))];
    RunFour(files, steps);
    var f2 := files[temp1 := code1][temp2 := code2];
    assert Apply(Apply(files, steps[0]), steps[1]) == f2;
    var f3 := (f2 - {temp1})[target := code1];
    assert Apply(f2, steps[2]) == f3;
    assert Apply(f3, steps[3]) == (files - {temp1, temp2})[target := code1];
  }

  lemma RunFour(files: Files, steps: seq<PublishStep>)
    requires |steps| == 4
    ensures Run(files, steps) == Apply(Apply(Apply(Apply(files, steps[0]), steps[1]), steps[2]), steps[3])
  {
    var f1 := Apply(files, steps[0]);
    var f2 := Apply(f1, steps[1]);
    var f3 := Apply(f2, steps[2]);
    assert steps[1..][0] == steps[1] && steps[1..][1..] == steps[2..];
    assert steps[2..][0] == steps[2] && steps[2..][1..] == steps[3..];
    assert steps[3..][0] == steps[3] && steps[3..][1..] == [];
    assert Run(f3, steps[3..]) == Apply(f3, steps[3]);
    assert Run(f2, steps[2..]) == Run(f3, steps[3..]);
    assert Run(f1, steps[1..]) == Run(f2, steps[2..]);
  }
}
