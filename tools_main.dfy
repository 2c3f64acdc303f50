/**
 * The decision logic of the command-line tools (`ToolsMain`): the overwrite
 * guard, the output files of `cmptToGlb` and of `analyze`, and the pipeline
 * configurations of `gzip` and `ungzip`. The file system is a `FileSystem`
 * object: the existing files with their contents, and the paths written, in
 * order. Decoding the tile formats, upgrading and formatting glTF, and path
 * manipulation are done by code outside this model and enter as values or
 * function parameters.
 */
module ToolsMain {
  import opened Base

  // ---------------------------------------------------------------------------
  // Files and the overwrite guard

  /** What a command writes into a file: JSON text or a buffer. */
  datatype Content = JsonText(text: string) | Bytes(data: Buffer)

  /** The file system as the tools see it: which files exist, with what content, and which paths were written. */
  datatype FsState = FsState(files: map<string, Content>, written: seq<string>)

  class FileSystem {
    var files: map<string, Content>
    var written: seq<string>

    constructor (files: map<string, Content>)
      ensures this.files == files && written == []
    {
      this.files := files;
      written := [];
    }

    function State(): FsState
      reads this
    {
      FsState(files, written)
    }

    /** `fs.writeFileSync`: creates or replaces the file and records the write. */
    method WriteFile(path: string, content: Content)
      modifies this
      ensures files == old(files)[path := content]
      ensures written == old(written) + [path]
    {
      files := files[path := content];
      written := written + [path];
    }
  }

  /** `ToolsMain.canWrite`: a file may be written when `force` is set or when it does not exist yet. */
  function CanWrite(fileName: string, force: bool, existing: set<string>): (allowed: bool)
    ensures force ==> allowed
    ensures !force ==> (allowed <==> fileName !in existing)
  {
    if force then true
    else if fileName !in existing then true
    else false
  }

  function AlreadyExistsMessage(fileName: string): string
  {
    "File " + fileName + " already exists. Specify -f or --force to overwrite existing files."
  }

  /** `ToolsMain.ensureCanWrite`: `true` when `canWrite` holds, and a `DeveloperError` naming the file otherwise. */
  function EnsureCanWrite(fileName: string, force: bool, existing: set<string>): (r: Result<bool>)
    ensures r.Ok? <==> CanWrite(fileName, force, existing)
    ensures r.Ok? ==> r.value
    ensures r.Err? ==> r.error == DeveloperError(AlreadyExistsMessage(fileName)) && !force && fileName in existing
  {
    if CanWrite(fileName, force, existing) then Ok(true)
    else Err(DeveloperError(AlreadyExistsMessage(fileName)))
  }

  // ---------------------------------------------------------------------------
  // cmptToGlb: the GLBs of a composite tile, each written to its own file

  /** The file of GLB number `i` when there are several: `${prefix}_${i}.glb`. */
  function GlbPath(prefix: string, i: nat): string
  {
    prefix + "_" + NatToString(i) + ".glb"
  }

  /**
   * The output paths for `n` GLBs: the output itself for one GLB, otherwise
   * the output with its extension replaced by "" (`Paths.replaceExtension`,
   * a parameter) followed by `_i.glb`.
   */
  function GlbPaths(output: string, n: nat, replaceExtension: (string, string) -> string): (paths: seq<string>)
    ensures |paths| == n
  {
    if n == 1 then [output]
    else seq(n, i requires 0 <= i < n => GlbPath(replaceExtension(output, ""), i))
  }

  /** Different indices give different GLB file names. */
  lemma GlbPathInjective(prefix: string, i: nat, j: nat)
    requires GlbPath(prefix, i) == GlbPath(prefix, j)
    ensures i == j
  {
    var a, b := NatToString(i), NatToString(j);
    var pa, pb := GlbPath(prefix, i), GlbPath(prefix, j);
    assert |a| == |b|;
    assert pa[|prefix| + 1 .. |prefix| + 1 + |a|] == a;
    assert pb[|prefix| + 1 .. |prefix| + 1 + |b|] == b;
    NatToStringInjective(i, j);
  }

  /** The output paths of `cmptToGlb` are pairwise distinct, whatever the output name. */
  lemma GlbPathsDistinct(output: string, n: nat, replaceExtension: (string, string) -> string)
    ensures var paths := GlbPaths(output, n, replaceExtension);
            forall i, j :: 0 <= i < j < n ==> paths[i] != paths[j]
  {
    var paths := GlbPaths(output, n, replaceExtension);
    forall i, j | 0 <= i < j < n
      ensures paths[i] != paths[j]
    {
      if paths[i] == paths[j] {
        GlbPathInjective(replaceExtension(output, ""), i, j);
      }
    }
  }

  /**
   * The first loop of `cmptToGlb`: fails when there are no GLBs; otherwise
   * assigns one path per GLB, the output itself when there is one, and
   * distinct `_i.glb` names when there are several.
   */
  method AssignGlbPaths(input: string, output: string, glbsLength: nat, replaceExtension: (string, string) -> string)
    returns (r: Result<seq<string>>)
    ensures r.Err? <==> glbsLength == 0
    ensures r.Err? ==> r.error == DeveloperError("No glbs found in " + input + ".")
    ensures r.Ok? ==> |r.value| == glbsLength
    ensures r.Ok? && glbsLength == 1 ==> r.value == [output]
    ensures r.Ok? && glbsLength > 1 ==>
              forall i :: 0 <= i < glbsLength ==> r.value[i] == GlbPath(replaceExtension(output, ""), i)
    ensures r.Ok? ==> forall i, j :: 0 <= i < j < glbsLength ==> r.value[i] != r.value[j]
    ensures r.Ok? ==> r.value == GlbPaths(output, glbsLength, replaceExtension)
  {
    if glbsLength == 0 {
      return Err(DeveloperError("No glbs found in " + input + "."));
    }
    var glbPaths: seq<string>;
    if glbsLength == 1 {
      glbPaths := [output];
    } else {
      var prefix := replaceExtension(output, "");
      glbPaths := [];
      for i := 0 to glbsLength
        invariant |glbPaths| == i
        invariant forall k :: 0 <= k < i ==> glbPaths[k] == GlbPath(prefix, k)
      {
        glbPaths := glbPaths + [GlbPath(prefix, i)];
      }
    }
    assert glbPaths == GlbPaths(output, glbsLength, replaceExtension);
    GlbPathsDistinct(output, glbsLength, replaceExtension);
    return Ok(glbPaths);
  }

  /** The index of the first path that may not be written, or the number of paths when all may be. */
  function FirstRefused(paths: seq<string>, force: bool, existing: set<string>): (k: nat)
    ensures k <= |paths|
    ensures forall j :: 0 <= j < k ==> CanWrite(paths[j], force, existing)
    ensures k < |paths| ==> !CanWrite(paths[k], force, existing)
  {
    if paths == [] then 0
    else if !CanWrite(paths[0], force, existing) then 0
    else 1 + FirstRefused(paths[1..], force, existing)
  }

  /** With `force`, no path is refused. */
  lemma ForceRefusesNothing(paths: seq<string>, existing: set<string>)
    ensures FirstRefused(paths, true, existing) == |paths|
  {
  }

  /** The files after storing `contents[j]` at `paths[j]` for each j in turn. */
  function StoreAll(files: map<string, Content>, paths: seq<string>, contents: seq<Content>): map<string, Content>
    requires |paths| == |contents|
    decreases |paths|
  {
    if paths == [] then files
    else StoreAll(files, paths[..|paths| - 1], contents[..|paths| - 1])[paths[|paths| - 1] := contents[|paths| - 1]]
  }

  /** The stored files are the original ones plus the stored paths. */
  lemma {:induction false} StoreAllKeys(files: map<string, Content>, paths: seq<string>, contents: seq<Content>)
    requires |paths| == |contents|
    ensures forall p :: p in StoreAll(files, paths, contents) <==> p in files || p in paths
    decreases |paths|
  {
    if paths != [] {
      var n := |paths| - 1;
      StoreAllKeys(files, paths[..n], contents[..n]);
      assert forall p :: p in paths <==> p in paths[..n] || p == paths[n];
    }
  }

  /** A file at a path that is not stored keeps its content. */
  lemma {:induction false} StoreAllKeepsOthers(files: map<string, Content>, paths: seq<string>, contents: seq<Content>,
                                               p: string)
    requires |paths| == |contents|
    requires p in files && p !in paths
    ensures p in StoreAll(files, paths, contents) && StoreAll(files, paths, contents)[p] == files[p]
    decreases |paths|
  {
    if paths != [] {
      var n := |paths| - 1;
      assert p !in paths[..n] && p != paths[n];
      StoreAllKeepsOthers(files, paths[..n], contents[..n], p);
    }
  }

  /** At distinct paths, the j-th path holds the j-th content. */
  lemma {:induction false} StoreAllStores(files: map<string, Content>, paths: seq<string>, contents: seq<Content>, j: nat)
    requires |paths| == |contents| && j < |paths|
    requires forall i, k :: 0 <= i < k < |paths| ==> paths[i] != paths[k]
    ensures paths[j] in StoreAll(files, paths, contents) && StoreAll(files, paths, contents)[paths[j]] == contents[j]
    decreases |paths|
  {
    var n := |paths| - 1;
    if j < n {
      assert paths[..n][j] == paths[j] && contents[..n][j] == contents[j];
      assert paths[j] != paths[n];
      StoreAllStores(files, paths[..n], contents[..n], j);
    }
  }

  /**
   * Storing at distinct paths: the stored paths hold their contents, the
   * other files keep theirs, and no other file appears.
   */
  lemma StoreAllDistinct(files: map<string, Content>, paths: seq<string>, contents: seq<Content>)
    requires |paths| == |contents|
    requires forall i, j :: 0 <= i < j < |paths| ==> paths[i] != paths[j]
    ensures var after := StoreAll(files, paths, contents);
            && (forall p :: p in after <==> p in files || p in paths)
            && (forall j :: 0 <= j < |paths| ==> after[paths[j]] == contents[j])
            && (forall p :: p in files && p !in paths ==> after[p] == files[p])
  {
    StoreAllKeys(files, paths, contents);
    forall j | 0 <= j < |paths|
      ensures StoreAll(files, paths, contents)[paths[j]] == contents[j]
    {
      StoreAllStores(files, paths, contents, j);
    }
    forall p | p in files && p !in paths
      ensures StoreAll(files, paths, contents)[p] == files[p]
    {
      StoreAllKeepsOthers(files, paths, contents, p);
    }
  }

  /** Storing one more path extends the stored files by that one entry. */
  lemma StoreAllStep(files: map<string, Content>, paths: seq<string>, contents: seq<Content>, i: nat)
    requires |paths| == |contents| && i < |paths|
    ensures StoreAll(files, paths[..i + 1], contents[..i + 1])
         == StoreAll(files, paths[..i], contents[..i])[paths[i] := contents[i]]
  {
    assert paths[..i + 1][..i] == paths[..i];
    assert contents[..i + 1][..i] == contents[..i];
  }

  /** Before path i is stored, it exists exactly when it existed at the start. */
  lemma StoreAllBeforeNext(files: map<string, Content>, paths: seq<string>, contents: seq<Content>, i: nat)
    requires |paths| == |contents| && i < |paths|
    requires forall j, k :: 0 <= j < k < |paths| ==> paths[j] != paths[k]
    ensures paths[i] in StoreAll(files, paths[..i], contents[..i]) <==> paths[i] in files
  {
    StoreAllDistinct(files, paths[..i], contents[..i]);
    assert paths[i] !in paths[..i];
  }

  /** The content each GLB is written with: the GLB after `GltfUtilities.upgradeGlb` (a parameter). */
  function UpgradedGlbs(glbBuffers: seq<Buffer>, upgradeGlb: Buffer -> Buffer): (contents: seq<Content>)
    ensures |contents| == |glbBuffers|
  {
    seq(|glbBuffers|, j requires 0 <= j < |glbBuffers| => Bytes(upgradeGlb(glbBuffers[j])))
  }

  /**
   * The second loop of `cmptToGlb`: writes the GLBs in index order, checking
   * the overwrite guard for each path just before writing it. When the guard
   * refuses path k, paths 0 to k-1 have been written and nothing after.
   */
  method WriteGlbs(fs: FileSystem, glbPaths: seq<string>, force: bool, contents: seq<Content>) returns (r: Outcome)
    requires |glbPaths| == |contents|
    requires forall i, j :: 0 <= i < j < |glbPaths| ==> glbPaths[i] != glbPaths[j]
    modifies fs
    ensures var k := FirstRefused(glbPaths, force, old(fs.files).Keys);
            && (r.Done? <==> k == |glbPaths|)
            && (r.Failed? ==> r.error == DeveloperError(AlreadyExistsMessage(glbPaths[k])))
            && fs.written == old(fs.written) + glbPaths[..k]
            && fs.files == StoreAll(old(fs.files), glbPaths[..k], contents[..k])
  {
    ghost var k := FirstRefused(glbPaths, force, old(fs.files).Keys);
    for i := 0 to |glbPaths|
      invariant i <= k
      invariant fs.written == old(fs.written) + glbPaths[..i]
      invariant fs.files == StoreAll(old(fs.files), glbPaths[..i], contents[..i])
    {
      var glbPath := glbPaths[i];
      StoreAllBeforeNext(old(fs.files), glbPaths, contents, i);
      var guard := EnsureCanWrite(glbPath, force, fs.files.Keys);
      if guard.Err? {
        assert i == k;
        return Failed(guard.error);
      }
      assert i < k;
      fs.WriteFile(glbPath, contents[i]);
      StoreAllStep(old(fs.files), glbPaths, contents, i);
      assert glbPaths[..i + 1] == glbPaths[..i] + [glbPath];
    }
    return Done;
  }

  /**
   * `ToolsMain.cmptToGlb`, from the extracted GLBs on: fails before writing
   * anything when there are none; otherwise assigns the paths and writes the
   * upgraded GLBs to them in index order, stopping at the first path the
   * overwrite guard refuses.
   */
  method CmptToGlb(fs: FileSystem, input: string, output: string, force: bool, glbBuffers: seq<Buffer>,
                   replaceExtension: (string, string) -> string, upgradeGlb: Buffer -> Buffer)
    returns (r: Outcome)
    modifies fs
    ensures |glbBuffers| == 0 ==>
              r == Failed(DeveloperError("No glbs found in " + input + ".")) && fs.State() == old(fs.State())
    ensures |glbBuffers| > 0 ==>
              var paths := GlbPaths(output, |glbBuffers|, replaceExtension);
              var k := FirstRefused(paths, force, old(fs.files).Keys);
              && (r.Done? <==> k == |paths|)
              && (r.Failed? ==> r.error == DeveloperError(AlreadyExistsMessage(paths[k])))
              && fs.written == old(fs.written) + paths[..k]
              && fs.files == StoreAll(old(fs.files), paths[..k], UpgradedGlbs(glbBuffers, upgradeGlb)[..k])
  {
    var pathsResult := AssignGlbPaths(input, output, |glbBuffers|, replaceExtension);
    if pathsResult.Err? {
      return Failed(pathsResult.error);
    }
    r := WriteGlbs(fs, pathsResult.value, force, UpgradedGlbs(glbBuffers, upgradeGlb));
  }

  /**
   * What `cmptToGlb` leaves behind when it stops at path k: paths 0 to k-1
   * hold the upgraded GLBs 0 to k-1, every other file is unchanged, and no
   * file was created beyond those paths.
   */
  lemma CmptToGlbFiles(files: map<string, Content>, output: string, force: bool, glbBuffers: seq<Buffer>,
                       replaceExtension: (string, string) -> string, upgradeGlb: Buffer -> Buffer)
    ensures var paths := GlbPaths(output, |glbBuffers|, replaceExtension);
            var k := FirstRefused(paths, force, files.Keys);
            var after := StoreAll(files, paths[..k], UpgradedGlbs(glbBuffers, upgradeGlb)[..k]);
            && (forall p :: p in after <==> p in files || p in paths[..k])
            && (forall j :: 0 <= j < k ==> after[paths[j]] == Bytes(upgradeGlb(glbBuffers[j])))
            && (forall p :: p in files && p !in paths[..k] ==> after[p] == files[p])
  {
    var paths := GlbPaths(output, |glbBuffers|, replaceExtension);
    var k := FirstRefused(paths, force, files.Keys);
    var contents := UpgradedGlbs(glbBuffers, upgradeGlb);
    GlbPathsDistinct(output, |glbBuffers|, replaceExtension);
    StoreAllDistinct(files, paths[..k], contents[..k]);
    assert forall j :: 0 <= j < k ==> paths[..k][j] == paths[j] && contents[..k][j] == contents[j];
  }

  // ---------------------------------------------------------------------------
  // analyze: the parts of a tile, each written to its own file

  /**
   * A tile as the analysis sees it once its magic has been read and it has
   * been decoded: for `b3dm`, `i3dm` and `pnts` the formatted JSON of its
   * layout, feature table and batch table, its payload, and the formatted
   * JSON of the payload's glTF (used only when the payload is not empty); for
   * `cmpt` its inner tiles; for `glTF` the formatted JSON of the GLB; and any
   * other magic, which yields no files.
   */
  datatype AnalyzedTile =
    | LegacyTile(layoutJson: string, featureTableJson: string, batchTableJson: string,
                 payload: Buffer, payloadGlbJson: string)
    | CompositeTile(innerTiles: seq<AnalyzedTile>)
    | GlbTile(glbJson: string)
    | OtherTile

  /** A file the analysis offers to write: the tile name it belongs to, its path and its content. */
  datatype Output = Output(tileName: string, path: string, content: Content)

  /** The JSON text of an empty object, which is never written. */
  const EmptyJson: string := "{}"

  /** `writeJsonFileOptional` before the guard: no file for the empty object. */
  function JsonOutput(tileName: string, fileName: string, jsonString: string): seq<Output>
  {
    if jsonString == EmptyJson then [] else [Output(tileName, fileName, JsonText(jsonString))]
  }

  /** `writeFileOptional` before the guard: no file for an empty buffer. */
  function BufferOutput(tileName: string, fileName: string, buffer: Buffer): seq<Output>
  {
    if |buffer| == 0 then [] else [Output(tileName, fileName, Bytes(buffer))]
  }

  /** The name under which inner tile `i` of a composite is analysed: `${inputBaseName}.inner[${i}]`. */
  function InnerTileBaseName(inputBaseName: string, i: nat): (name: string)
    ensures inputBaseName < name
  {
    inputBaseName + ".inner[" + NatToString(i) + "]"
  }

  /** Different inner tiles of one composite are analysed under different names. */
  lemma InnerTileBaseNameInjective(inputBaseName: string, i: nat, j: nat)
    requires InnerTileBaseName(inputBaseName, i) == InnerTileBaseName(inputBaseName, j)
    ensures i == j
  {
    var a, b := InnerTileBaseName(inputBaseName, i), InnerTileBaseName(inputBaseName, j);
    var start := |inputBaseName| + 7;
    assert a[start..|a| - 1] == NatToString(i);
    assert b[start..|b| - 1] == NatToString(j);
    NatToStringInjective(i, j);
  }

  /** The paths of the files written for one tile, from its resolved base name. */
  function TileFilePaths(outputBaseName: string): set<string>
  {
    { outputBaseName + ".layout.json", outputBaseName + ".glb", outputBaseName + ".featureTable.json",
      outputBaseName + ".batchTable.json", outputBaseName + ".glb.json" }
  }

  /** An offered file that is neither the empty JSON object nor an empty buffer. */
  predicate NonEmpty(o: Output)
  {
    o.content != JsonText(EmptyJson) && o.content != Bytes([])
  }

  /** An offered file of a tile whose name extends `inputBaseName`, at one of that tile's paths. */
  predicate NamedUnder(o: Output, inputBaseName: string, outputDirectoryName: string, resolve: (string, string) -> string)
  {
    inputBaseName <= o.tileName && o.path in TileFilePaths(resolve(outputDirectoryName, o.tileName))
  }

  /**
   * The files `analyzeInternal` offers to write for a tile, in order: for a
   * legacy tile its layout, payload, feature table, batch table and glTF JSON;
   * for a composite the files of each inner tile in turn; for a GLB its JSON.
   * `resolve` is `Paths.resolve`. No offered file is the empty JSON object
   * or an empty buffer; each belongs to a tile name that extends the input's
   * base name, and its path is that name resolved in the output directory
   * followed by one of the five suffixes.
   */
  function Outputs(inputBaseName: string, tile: AnalyzedTile, outputDirectoryName: string,
                   resolve: (string, string) -> string): (outputs: seq<Output>)
    ensures forall o :: o in outputs ==> NonEmpty(o) && NamedUnder(o, inputBaseName, outputDirectoryName, resolve)
    decreases tile, 1, 0
  {
    match tile
    case LegacyTile(layoutJson, featureTableJson, batchTableJson, payload, payloadGlbJson) =>
      var outputBaseName := resolve(outputDirectoryName, inputBaseName);
      var glbJsonString := if |payload| != 0 then payloadGlbJson else EmptyJson;
      JsonOutput(inputBaseName, outputBaseName + ".layout.json", layoutJson)
      + BufferOutput(inputBaseName, outputBaseName + ".glb", payload)
      + JsonOutput(inputBaseName, outputBaseName + ".featureTable.json", featureTableJson)
      + JsonOutput(inputBaseName, outputBaseName + ".batchTable.json", batchTableJson)
      + JsonOutput(inputBaseName, outputBaseName + ".glb.json", glbJsonString)
    case CompositeTile(innerTiles) =>
      InnerOutputs(inputBaseName, tile, |innerTiles|, outputDirectoryName, resolve)
    case GlbTile(glbJson) =>
      JsonOutput(inputBaseName, resolve(outputDirectoryName, inputBaseName) + ".glb.json", glbJson)
    case OtherTile =>
      []
  }

  /** The files of the first `count` inner tiles of a composite, each under its inner name. */
  function InnerOutputs(inputBaseName: string, tile: AnalyzedTile, count: nat, outputDirectoryName: string,
                        resolve: (string, string) -> string): (outputs: seq<Output>)
    requires tile.CompositeTile? && count <= |tile.innerTiles|
    ensures forall o :: o in outputs ==> NonEmpty(o) && NamedUnder(o, inputBaseName, outputDirectoryName, resolve)
    decreases tile, 0, count
  {
    if count == 0 then []
    else
      InnerOutputs(inputBaseName, tile, count - 1, outputDirectoryName, resolve)
      + Outputs(InnerTileBaseName(inputBaseName, count - 1), tile.innerTiles[count - 1], outputDirectoryName, resolve)
  }

  /** The guard of both optional writers: write the file when `canWrite` allows it, otherwise skip it. */
  function WriteIfAllowed(s: FsState, fileName: string, content: Content, force: bool): FsState
  {
    if CanWrite(fileName, force, s.files.Keys)
    then FsState(s.files[fileName := content], s.written + [fileName])
    else s
  }

  /** The offered files written one after the other, each through the guard. */
  function ApplyAll(s: FsState, outputs: seq<Output>, force: bool): FsState
    decreases outputs
  {
    if outputs == [] then s
    else ApplyAll(WriteIfAllowed(s, outputs[0].path, outputs[0].content, force), outputs[1..], force)
  }

  lemma {:induction false} ApplyAllConcat(s: FsState, first: seq<Output>, second: seq<Output>, force: bool)
    ensures ApplyAll(s, first + second, force) == ApplyAll(ApplyAll(s, first, force), second, force)
    decreases first
  {
    if first != [] {
      assert (first + second)[1..] == first[1..] + second;
      ApplyAllConcat(WriteIfAllowed(s, first[0].path, first[0].content, force), first[1..], second, force);
    } else {
      assert first + second == second;
    }
  }

  /**
   * Every file that the writes create or change holds the content of one of
   * the offered files at that path, and every path they log is one of the
   * offered paths.
   */
  lemma {:induction false} ApplyAllWritesOnlyOutputs(s: FsState, outputs: seq<Output>, force: bool)
    ensures var t := ApplyAll(s, outputs, force);
            && s.files.Keys <= t.files.Keys
            && (forall p :: p in t.files && (p !in s.files || t.files[p] != s.files[p]) ==>
                  exists o :: o in outputs && o.path == p && o.content == t.files[p])
            && |s.written| <= |t.written| && t.written[..|s.written|] == s.written
            && (forall i :: |s.written| <= i < |t.written| ==> exists o :: o in outputs && o.path == t.written[i])
    decreases outputs
  {
    if outputs != [] {
      var s' := WriteIfAllowed(s, outputs[0].path, outputs[0].content, force);
      ApplyAllWritesOnlyOutputs(s', outputs[1..], force);
      var t := ApplyAll(s, outputs, force);
      assert t == ApplyAll(s', outputs[1..], force);
      forall p | p in t.files && (p !in s.files || t.files[p] != s.files[p])
        ensures exists o :: o in outputs && o.path == p && o.content == t.files[p]
      {
        if p in s'.files && t.files[p] == s'.files[p] {
          assert outputs[0] in outputs;
        } else {
          var o :| o in outputs[1..] && o.path == p && o.content == t.files[p];
          assert o in outputs;
        }
      }
      forall i | |s.written| <= i < |t.written|
        ensures exists o :: o in outputs && o.path == t.written[i]
      {
        if i < |s'.written| {
          assert outputs[0] in outputs;
        } else {
          var o :| o in outputs[1..] && o.path == t.written[i];
          assert o in outputs;
        }
      }
    }
  }

  /** With `force`, every offered file is written, in order. */
  lemma {:induction false} ApplyAllWithForce(s: FsState, outputs: seq<Output>)
    ensures ApplyAll(s, outputs, true).written == s.written + seq(|outputs|, i requires 0 <= i < |outputs| => outputs[i].path)
    decreases outputs
  {
    if outputs != [] {
      var s' := WriteIfAllowed(s, outputs[0].path, outputs[0].content, true);
      ApplyAllWithForce(s', outputs[1..]);
    }
  }

  /**
   * What `analyzeInternal` leaves behind: every file it creates or changes is
   * one it offered, and none holds the empty JSON object or an empty buffer.
   */
  lemma AnalyzeNeverWritesEmpty(s: FsState, inputBaseName: string, tile: AnalyzedTile,
                                outputDirectoryName: string, resolve: (string, string) -> string, force: bool)
    ensures var t := ApplyAll(s, Outputs(inputBaseName, tile, outputDirectoryName, resolve), force);
            forall p :: p in t.files && (p !in s.files || t.files[p] != s.files[p]) ==>
              t.files[p] != JsonText(EmptyJson) && t.files[p] != Bytes([])
              && exists name :: inputBaseName <= name && p in TileFilePaths(resolve(outputDirectoryName, name))
  {
    var outputs := Outputs(inputBaseName, tile, outputDirectoryName, resolve);
    ApplyAllWritesOnlyOutputs(s, outputs, force);
  }

  /** `writeJsonFileOptional`: skips the empty JSON object, then writes through the guard (a refusal is only logged). */
  method WriteJsonFileOptional(fs: FileSystem, jsonString: string, fileName: string, force: bool)
    modifies fs
    ensures fs.State() == if jsonString == EmptyJson then old(fs.State())
                          else WriteIfAllowed(old(fs.State()), fileName, JsonText(jsonString), force)
  {
    if jsonString == EmptyJson {
      return;
    }
    if !CanWrite(fileName, force, fs.files.Keys) {
      return;
    }
    fs.WriteFile(fileName, JsonText(jsonString));
  }

  /** `writeFileOptional`: skips an empty buffer, then writes through the guard (a refusal is only logged). */
  method WriteFileOptional(fs: FileSystem, buffer: Buffer, fileName: string, force: bool)
    modifies fs
    ensures fs.State() == if |buffer| == 0 then old(fs.State())
                          else WriteIfAllowed(old(fs.State()), fileName, Bytes(buffer), force)
  {
    if |buffer| == 0 {
      return;
    }
    if !CanWrite(fileName, force, fs.files.Keys) {
      return;
    }
    fs.WriteFile(fileName, Bytes(buffer));
  }

  /**
   * The branch of `analyzeInternal` for b3dm, i3dm and pnts tiles: the
   * layout JSON, the payload GLB, the feature table JSON, the batch table
   * JSON and the glTF JSON, in this order, each through its optional writer.
   */
  method AnalyzeLegacyTile(fs: FileSystem, inputBaseName: string, tile: AnalyzedTile, outputDirectoryName: string,
                           force: bool, resolve: (string, string) -> string)
    requires tile.LegacyTile?
    modifies fs
    ensures fs.State() == ApplyAll(old(fs.State()), Outputs(inputBaseName, tile, outputDirectoryName, resolve), force)
  {
    var LegacyTile(layoutJson, featureTableJson, batchTableJson, payload, payloadGlbJson) := tile;
    var glbJsonString := if |payload| != 0 then payloadGlbJson else EmptyJson;
    var outputBaseName := resolve(outputDirectoryName, inputBaseName);
    ghost var s0 := fs.State();
    ghost var o1 := JsonOutput(inputBaseName, outputBaseName + ".layout.json", layoutJson);
    ghost var o2 := BufferOutput(inputBaseName, outputBaseName + ".glb", payload);
    ghost var o3 := JsonOutput(inputBaseName, outputBaseName + ".featureTable.json", featureTableJson);
    ghost var o4 := JsonOutput(inputBaseName, outputBaseName + ".batchTable.json", batchTableJson);
    ghost var o5 := JsonOutput(inputBaseName, outputBaseName + ".glb.json", glbJsonString);
    WriteJsonFileOptional(fs, layoutJson, outputBaseName + ".layout.json", force);
    assert fs.State() == ApplyAll(s0, o1, force);
    WriteFileOptional(fs, payload, outputBaseName + ".glb", force);
    ApplyAllConcat(s0, o1, o2, force);
    WriteJsonFileOptional(fs, featureTableJson, outputBaseName + ".featureTable.json", force);
    ApplyAllConcat(s0, o1 + o2, o3, force);
    WriteJsonFileOptional(fs, batchTableJson, outputBaseName + ".batchTable.json", force);
    ApplyAllConcat(s0, o1 + o2 + o3, o4, force);
    WriteJsonFileOptional(fs, glbJsonString, outputBaseName + ".glb.json", force);
    ApplyAllConcat(s0, o1 + o2 + o3 + o4, o5, force);
    assert Outputs(inputBaseName, tile, outputDirectoryName, resolve) == o1 + o2 + o3 + o4 + o5;
  }

  /**
   * `ToolsMain.analyzeInternal`: writes the files of the tile, in order, each
   * through the guard; a composite tile is analysed inner tile by inner tile
   * under the inner names.
   */
  method AnalyzeInternal(fs: FileSystem, inputBaseName: string, tile: AnalyzedTile, outputDirectoryName: string,
                         force: bool, resolve: (string, string) -> string)
    modifies fs
    ensures fs.State() == ApplyAll(old(fs.State()), Outputs(inputBaseName, tile, outputDirectoryName, resolve), force)
    ensures forall p :: p in fs.files && (p !in old(fs.files) || fs.files[p] != old(fs.files)[p]) ==>
              fs.files[p] != JsonText(EmptyJson) && fs.files[p] != Bytes([])
    decreases tile
  {
    match tile {
      case LegacyTile(_, _, _, _, _) =>
        AnalyzeLegacyTile(fs, inputBaseName, tile, outputDirectoryName, force, resolve);
      case CompositeTile(innerTiles) =>
        ghost var s0 := fs.State();
        var n := |innerTiles|;
        for i := 0 to n
          invariant fs.State() == ApplyAll(s0, InnerOutputs(inputBaseName, tile, i, outputDirectoryName, resolve), force)
        {
          assert innerTiles[i] in innerTiles;
          AnalyzeInternal(fs, InnerTileBaseName(inputBaseName, i), innerTiles[i], outputDirectoryName, force, resolve);
          ApplyAllConcat(s0, InnerOutputs(inputBaseName, tile, i, outputDirectoryName, resolve),
                         Outputs(InnerTileBaseName(inputBaseName, i), innerTiles[i], outputDirectoryName, resolve), force);
        }
      case GlbTile(glbJson) =>
        var outputBaseName := resolve(outputDirectoryName, inputBaseName);
        WriteJsonFileOptional(fs, glbJson, outputBaseName + ".glb.json", force);
      case OtherTile =>
    }
    AnalyzeNeverWritesEmpty(old(fs.State()), inputBaseName, tile, outputDirectoryName, resolve, force);
  }

  // ---------------------------------------------------------------------------
  // gzip and ungzip: the pipeline configurations

  datatype ContentStageJson = ContentStageJson(name: string)

  /** A tileset stage of a pipeline JSON; an absent property is `None`. */
  datatype TilesetStageJson = TilesetStageJson(
    name: string,
    includedContentTypes: Option<seq<string>>,
    excludedContentTypes: Option<seq<string>>,
    contentStages: Option<seq<ContentStageJson>>)

  datatype PipelineJson = PipelineJson(input: string, output: string, tilesetStages: seq<TilesetStageJson>)

  /** The content types that `gzip` with `tilesOnly` compresses: the tile content formats. */
  const TileContentTypes: seq<string> := [
    ContentTypeB3dm, ContentTypeI3dm, ContentTypePnts, ContentTypeCmpt,
    ContentTypeVctr, ContentTypeGeom, ContentTypeGlb, ContentTypeGltf
  ]

  /** `ToolsMain.createGzipPipelineJson`. */
  function CreateGzipPipelineJson(input: string, output: string, tilesOnly: bool): (p: PipelineJson)
    ensures p.input == input && p.output == output
    ensures |p.tilesetStages| == 1 && p.tilesetStages[0].name == "gzip"
    ensures p.tilesetStages[0].excludedContentTypes.None? && p.tilesetStages[0].contentStages.None?
    ensures p.tilesetStages[0].includedContentTypes.Some? <==> tilesOnly
    ensures tilesOnly ==> p.tilesetStages[0].includedContentTypes.value == TileContentTypes
  {
    var includedContentTypes := if tilesOnly then Some(TileContentTypes) else None;
    var tilesetStageJson := TilesetStageJson("gzip", includedContentTypes, None, None);
    PipelineJson(input, output, [tilesetStageJson])
  }

  /** `ToolsMain.createUngzipPipelineJson`. */
  function CreateUngzipPipelineJson(input: string, output: string): (p: PipelineJson)
    ensures p.input == input && p.output == output
    ensures |p.tilesetStages| == 1 && p.tilesetStages[0].name == "ungzip"
    ensures p.tilesetStages[0].includedContentTypes.None? && p.tilesetStages[0].excludedContentTypes.None?
    ensures p.tilesetStages[0].contentStages == Some([ContentStageJson("ungzip")])
  {
    var contentStageJson := ContentStageJson("ungzip");
    PipelineJson(input, output, [TilesetStageJson("ungzip", None, None, Some([contentStageJson]))])
  }

  /**
   * Whether a tileset stage applies to an entry of the given content type,
   * as its two filters mean: a list of included types admits only those
   * types, and a list of excluded types rejects those types.
   */
  predicate StageApplies(stage: TilesetStageJson, contentType: Option<string>)
  {
    && (stage.includedContentTypes.Some? ==>
          contentType.Some? && contentType.value in stage.includedContentTypes.value)
    && (stage.excludedContentTypes.Some? ==>
          contentType.None? || contentType.value !in stage.excludedContentTypes.value)
  }

  /**
   * The gzip stage compresses every entry, whatever its type, unless
   * `tilesOnly` is set; then exactly the entries whose type is one of the
   * eight tile content types. The ungzip stage applies to every entry.
   */
  lemma PipelineStagesSelect(input: string, output: string, tilesOnly: bool, contentType: Option<string>)
    ensures StageApplies(CreateGzipPipelineJson(input, output, tilesOnly).tilesetStages[0], contentType)
        <==> !tilesOnly || (contentType.Some? && contentType.value in TileContentTypes)
    ensures StageApplies(CreateUngzipPipelineJson(input, output).tilesetStages[0], contentType)
  {
  }
}
