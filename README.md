# 3D Tiles tools: availability, package sources, content routing and CLI write logic, in Dafny

This project models five pieces of the 3D Tiles tools and proves properties of them:

- **Availability records for implicit tiling** (`AvailabilityInfos`, file `availability_infos.dfy`).
  An implicit-tiling `Availability` object becomes a record with a length.
  A defined `constant` always wins, and only the constant 1 means "available".
  Otherwise the `bitstream` index selects one of the subtree's buffer-view chunks.
  With neither, creation fails with an `ImplicitTilingError`.
  Tile and content availability cover the nodes of one subtree.
  Child-subtree availability covers the level just below the subtree.
  The node counts follow the Availability section of the Implicit Tiling chapter of OGC 3D Tiles 1.1.
  The per-subtree count is defined as the sum of the level counts, and the closed form (b^L - 1)/(b - 1) is proved from it.
- **The 3DTILES (SQLite) tileset source** (`TilesetSource3dtiles`, file `tileset_source_3dtiles.dfy`).
  It is a class whose one field is the optional database handle.
  `open` validates the table structure `media(key TEXT, content BLOB)`.
  On a mismatch it closes the handle again and then fails.
  `getKeys`, `getValue` and `close` are guarded by the handle.
  `open` and `getKeys` throw `TilesetError`; `getValue` and `close` throw a plain `Error`.
- **The HTTP tileset source** (`TilesetSourceHttp`, file `tileset_source_http.dfy`).
  It is a class whose one field is the optional base URL.
  "Open" means that the base URL is truthy in JavaScript, so after `open("")` the source still counts as closed.
  `getKeys` is empty and `getValue` throws a plain `Error` ("Method not implemented."), in every state, open or not.
  `open`, and `getAsyncValue`, `getFullKey` and `close` on a closed source, throw `TilesetError`.
  A key that does not resolve against the base URL makes `getAsyncValue` and `getFullKey` throw the URL constructor's error.
  `getAsyncValue` turns every fetch failure into "absent".
- **The gltfpack content processor** (`TileContentProcessorsGltfpack`, file `tile_content_processors_gltfpack.dfy`).
  The returned closure sends GLB content to the optimizer with the options captured at creation.
  All other content passes through unchanged.
- **The CLI's write logic** (`ToolsMain`, file `tools_main.dfy`):
  - the `canWrite`/`ensureCanWrite` overwrite guard;
  - the output paths of `cmptToGlb` and its check-then-write loop;
  - the files `analyzeInternal` writes, with its skip rules and the naming of inner tiles;
  - the `gzip` and `ungzip` pipeline configurations.

  The file system is a `FileSystem` object: a map from path to content, plus the sequence of paths written.

`base.dfy` holds the shared vocabulary: bytes, `Option`, JavaScript truthiness of an optional string, the error classes, `Result`/`Outcome`, decimal rendering of indices, and the content-type tags.

Code outside this model enters as function parameters:

- URL resolution and fetching;
- table-structure validation and opening a database file;
- `Paths.replaceExtension` and `Paths.resolve`;
- `GltfPack.process` and `GltfUtilities.upgradeGlb`.

Decoded tile data enters as values: the GLBs extracted from a composite, and an `AnalyzedTile` tree for `analyzeInternal`.
Every call is modelled as sequential.

## Model

| member | source | states |
|---|---|---|
| `AvailabilityInfos.Create` | packages/tilesets/src/implicitTiling/AvailabilityInfos.ts:72-91 | Succeeds exactly when a constant or a bitstream is defined, and fails only with `ImplicitTilingError`. The record always gets the given length. It is a constant record exactly when the constant is defined, and then it is available exactly when the constant is 1. A buffer record holds the chunk that the bitstream index selects. |
| `AvailabilityInfos.CreateTileOrContent` | packages/tilesets/src/implicitTiling/AvailabilityInfos.ts:29-37 | Same success condition as `create`; the length is the node count of one subtree. |
| `AvailabilityInfos.CreateChildSubtree` | packages/tilesets/src/implicitTiling/AvailabilityInfos.ts:50-60 | Same success condition as `create`; the length is the node count of level `subtreeLevels`, the level below the subtree. |
| `AvailabilityInfos.ConstantTakesPrecedence` | packages/tilesets/src/implicitTiling/AvailabilityInfos.ts:77-81 | With a constant defined, the result ignores the bitstream and the buffer views. It is the constant record (constant == 1, length). |
| `AvailabilityInfos.OnlyConstantOneIsAvailable` | packages/tilesets/src/implicitTiling/AvailabilityInfos.ts:78-80 | A constant record is available if and only if the constant is 1; 0, 2 or any other value means "not available". |
| `AvailabilityInfos.NeitherConstantNorBitstreamFails` | packages/tilesets/src/implicitTiling/AvailabilityInfos.ts:83-88 | With neither a constant nor a bitstream, creation fails with `ImplicitTilingError`. |
| `AvailabilityInfos.BitstreamSelectsChunk` | packages/tilesets/src/implicitTiling/AvailabilityInfos.ts:89-90 | Without a constant, bitstream index k gives the buffer record over chunk k with the length unchanged. |
| `AvailabilityInfos.SumOfLevelsTimesPredecessor` | packages/tilesets/src/implicitTiling/AvailabilityInfos.ts:34-35 | The node count of an L-level subtree, times (b - 1), plus 1, is b^L. |
| `AvailabilityInfos.NodesPerSubtreeClosedForm` | packages/tilesets/src/implicitTiling/AvailabilityInfos.ts:34-35 | The per-subtree node count equals (b^L - 1) / (b - 1), where b^L is the count of the level below the subtree. |
| `AvailabilityInfos.ChildSubtreeAndTileLengths` | packages/tilesets/src/implicitTiling/AvailabilityInfos.ts:34-36 | For the same availability, the two public constructors build the same record except for its length. The tile length L_t and the child-subtree length L_c satisfy L_t * (b - 1) + 1 == L_c. |
| `TilesetSource3dtiles.Keys` | packages/tilesets/src/packages/TilesetSource3dtiles.ts:63-69 | One key per row of `media`, in scan order: the key of row i is at position i. |
| `TilesetSource3dtiles.Lookup` | packages/tilesets/src/packages/TilesetSource3dtiles.ts:77-82 | Absent exactly when no row has the key. Otherwise it is the content of a row with that key. |
| `TilesetSource3dtiles.FirstIndex` | packages/tilesets/src/packages/TilesetSource3dtiles.ts:77-78 | The position of the first row with the key: that row has the key and no earlier row does. It is the number of rows when no row has the key. |
| `TilesetSource3dtiles.LookupIsFirstMatch` | packages/tilesets/src/packages/TilesetSource3dtiles.ts:77-82 | The lookup gives the content of the first row with the key, and absent when there is no such row. |
| `TilesetSource3dtiles.LookupFindsEveryRow` | packages/tilesets/src/packages/TilesetSource3dtiles.ts:59-83 | When the keys are unique, looking up the i-th key that `getKeys` yields gives the content of row i. |
| `TilesetSource3dtiles.TilesetSource3dtiles.constructor` | packages/tilesets/src/packages/TilesetSource3dtiles.ts:27-29 | A new source holds no database. |
| `TilesetSource3dtiles.TilesetSource3dtiles.Open` | packages/tilesets/src/packages/TilesetSource3dtiles.ts:32-56 | On an open source it fails with `TilesetError` and keeps the existing handle. Otherwise it opens the named database and validates it against `media(key TEXT, content BLOB)`. It is then open if the validator gives no message; an empty message does not count. On a message it is closed again and fails with `TilesetError` carrying that message. |
| `TilesetSource3dtiles.TilesetSource3dtiles.GetKeys` | packages/tilesets/src/packages/TilesetSource3dtiles.ts:59-70 | Fails with `TilesetError` when not open. When open, it gives the key of every row of `media`, in order. It changes nothing. |
| `TilesetSource3dtiles.TilesetSource3dtiles.GetValue` | packages/tilesets/src/packages/TilesetSource3dtiles.ts:73-83 | Fails with a plain `Error` when not open. When open, it gives the content of the first row with the key, or absent exactly when no row has it. It changes nothing. |
| `TilesetSource3dtiles.TilesetSource3dtiles.Close` | packages/tilesets/src/packages/TilesetSource3dtiles.ts:86-92 | On an open source it releases the handle. On a closed one it fails with a plain `Error`, so a second `close` fails. Afterwards the source is not open. |
| `TilesetSourceHttp.EntryOf` | src/tilesets/tilesetData/TilesetSourceHttp.ts:48-57 | A fetch gives an entry exactly when it yielded data, and the entry is that data. An empty result and a failure both give absent. |
| `TilesetSourceHttp.TilesetSourceHttp.constructor` | src/tilesets/tilesetData/TilesetSourceHttp.ts:24-26 | A new source has no base URL. |
| `TilesetSourceHttp.TilesetSourceHttp.Open` | src/tilesets/tilesetData/TilesetSourceHttp.ts:30-35 | Fails with `TilesetError` when a truthy base URL is set, and keeps that URL. Otherwise it stores the given URL, even "". After success, the source is open exactly when that URL is not empty. |
| `TilesetSourceHttp.TilesetSourceHttp.GetKeys` | src/tilesets/tilesetData/TilesetSourceHttp.ts:38-40 | Always the empty sequence, in every state. |
| `TilesetSourceHttp.TilesetSourceHttp.GetAsyncValue` | src/tilesets/tilesetData/TilesetSourceHttp.ts:43-58 | Fails with `TilesetError` when not open, and with the URL constructor's error when the key does not resolve against the base URL. Otherwise it never fails. It gives data only when the fetch of the resolved URL yielded that data, and absent when the fetch yielded nothing or failed. |
| `TilesetSourceHttp.TilesetSourceHttp.GetValue` | src/tilesets/tilesetData/TilesetSourceHttp.ts:60-62 | Always fails with a plain `Error`, in every state. |
| `TilesetSourceHttp.TilesetSourceHttp.GetFullKey` | src/tilesets/tilesetData/TilesetSourceHttp.ts:64-70 | Fails with `TilesetError` when not open, and with the URL constructor's error when the key does not resolve against the base URL. Otherwise it gives the resolved URL, the same URL `getAsyncValue` fetches. |
| `TilesetSourceHttp.TilesetSourceHttp.Close` | src/tilesets/tilesetData/TilesetSourceHttp.ts:73-78 | When open, it clears the base URL. When not open, it fails with `TilesetError` and changes nothing. Afterwards the source is not open, so `open` succeeds again. |
| `TilesetSourceHttp.EmptyBaseUrlStaysClosed` | src/tilesets/tilesetData/TilesetSourceHttp.ts:30-78 | After `open("")`, `getAsyncValue`, `getFullKey` and `close` fail with `TilesetError`, and a later `open` succeeds. |
| `TileContentProcessorsGltfpack.Create` | packages/tools/src/tilesetProcessing/TileContentProcessorsGltfpack.ts:26-36 | The processor returns every input unchanged for any tag other than GLB, including no tag. For GLB content it returns exactly `gltfpack(input, options)` with the options given at creation. |
| `TileContentProcessorsGltfpack.NonGlbPassesThrough` | packages/tools/src/tilesetProcessing/TileContentProcessorsGltfpack.ts:31-33 | Content whose tag is not GLB, or that has no tag, comes back unchanged. |
| `TileContentProcessorsGltfpack.RoutingDependsOnlyOnType` | packages/tools/src/tilesetProcessing/TileContentProcessorsGltfpack.ts:27-35 | For a given tag, the processor treats every input alike: either all pass through, or all go to `gltfpack` with the creation options. |
| `Base.NatToString` | packages/cli/src/ToolsMain.ts:147 | The `${i}` rendering of an index: a non-empty string of decimal digits, one digit exactly for indices below 10, and no leading zero except for 0 itself. |
| `Base.NatToStringSpellsValue` | packages/cli/src/ToolsMain.ts:147 | The rendering spells the index: reading its digits back as a decimal number, most significant first, gives the index. |
| `Base.NatToStringInjective` | packages/cli/src/ToolsMain.ts:147 | Different indices have different decimal renderings. This follows from the round trip through the decimal reading. |
| `ToolsMain.CanWrite` | packages/cli/src/ToolsMain.ts:567-575 | With `force` a file may always be written. Without `force`, it may be written exactly when it does not exist. |
| `ToolsMain.EnsureCanWrite` | packages/cli/src/ToolsMain.ts:586-593 | Returns `true` exactly when `canWrite` holds. Otherwise it fails with the `DeveloperError` naming the file, which happens only without `force` and for an existing file. |
| `ToolsMain.GlbPaths` | packages/cli/src/ToolsMain.ts:142-148 | One path per GLB. |
| `ToolsMain.GlbPathInjective` | packages/cli/src/ToolsMain.ts:147 | `prefix_i.glb` and `prefix_j.glb` coincide only when i == j. |
| `ToolsMain.GlbPathsDistinct` | packages/cli/src/ToolsMain.ts:142-148 | The output paths of `cmptToGlb` are pairwise distinct, whatever the output name. |
| `ToolsMain.AssignGlbPaths` | packages/cli/src/ToolsMain.ts:136-149 | With no GLBs, it fails with `DeveloperError`. Otherwise it gives one path per GLB. One GLB goes to the output itself. Several go to `prefix_i.glb`, where the prefix is the output with its extension replaced by "". The paths are pairwise distinct. |
| `ToolsMain.FirstRefused` | packages/cli/src/ToolsMain.ts:150-152 | Every path before the result may be written. The path at the result, if any, may not be. |
| `ToolsMain.ForceRefusesNothing` | packages/cli/src/ToolsMain.ts:150-152 | With `force`, no path is refused. |
| `ToolsMain.StoreAllDistinct` | packages/cli/src/ToolsMain.ts:150-158 | Writing to distinct paths in turn: each path holds its content and every other file keeps its own. Only those paths are added. |
| `ToolsMain.WriteGlbs` | packages/cli/src/ToolsMain.ts:150-159 | Writes in index order, checking the guard for each path just before writing it. When the guard refuses path k, it fails with the `DeveloperError` for path k. Then exactly paths 0..k-1 have been written, in order, and nothing after. |
| `ToolsMain.CmptToGlb` | packages/cli/src/ToolsMain.ts:136-162 | With no GLBs, it fails before writing anything. Otherwise it writes the upgraded GLBs to the assigned paths in order, up to the first refused path. It succeeds exactly when no path is refused. |
| `ToolsMain.CmptToGlbFiles` | packages/cli/src/ToolsMain.ts:142-158 | After `cmptToGlb` stops at path k, paths 0..k-1 hold the upgraded GLBs 0..k-1, every other file is unchanged, and no other file was created. |
| `ToolsMain.ApplyAllWritesOnlyOutputs` | packages/cli/src/ToolsMain.ts:276-301 | Through the guarded writers, every file created or changed holds the content of an offered file at that path. Existing files are never removed. The write log only grows, with offered paths. |
| `ToolsMain.ApplyAllWithForce` | packages/cli/src/ToolsMain.ts:276-301 | With `force`, every offered file is written, in order. |
| `ToolsMain.InnerTileBaseName` | packages/cli/src/ToolsMain.ts:351 | The name of an inner tile strictly extends the composite's base name. |
| `ToolsMain.InnerTileBaseNameInjective` | packages/cli/src/ToolsMain.ts:349-351 | Different inner tiles of one composite get different names, so their files do not collide by name. |
| `ToolsMain.Outputs` | packages/cli/src/ToolsMain.ts:276-372 | The files `analyzeInternal` offers to write, in order. None is the JSON text `{}` or an empty buffer. Each belongs to a tile name that extends the input's base name. Its path is that name resolved in the output directory, followed by `.layout.json`, `.glb`, `.featureTable.json`, `.batchTable.json` or `.glb.json`. |
| `ToolsMain.InnerOutputs` | packages/cli/src/ToolsMain.ts:345-358 | The files of the first inner tiles of a composite, in order. Each inner tile is analysed under `base.inner[i]`. The same non-empty and naming guarantees hold, relative to the composite's base name. |
| `ToolsMain.AnalyzeNeverWritesEmpty` | packages/cli/src/ToolsMain.ts:276-301 | After the guarded writes of a tile's files, no file created or changed holds `{}` or an empty buffer. Each lies at a path of a tile name that extends the input's base name. |
| `ToolsMain.AnalyzeLegacyTile` | packages/cli/src/ToolsMain.ts:306-344 | For a b3dm, i3dm or pnts tile, writes the layout JSON, the payload GLB, the feature table JSON, the batch table JSON and the glTF JSON, in this order, each through its optional writer. The glTF JSON is `{}`, and so skipped, when the payload is empty. |
| `ToolsMain.WriteJsonFileOptional` | packages/cli/src/ToolsMain.ts:276-286 | Skips the text `{}`. Otherwise it writes the file if `canWrite` allows it, and leaves everything unchanged if not. |
| `ToolsMain.WriteFileOptional` | packages/cli/src/ToolsMain.ts:291-301 | Skips an empty buffer. Otherwise it writes the file if `canWrite` allows it, and leaves everything unchanged if not. |
| `ToolsMain.AnalyzeInternal` | packages/cli/src/ToolsMain.ts:256-373 | Writes the tile's offered files in order, each through the guard. For a composite, it recurses on inner tile i under the name `base.inner[i]`. No file it creates or changes holds `{}` or an empty buffer. |
| `ToolsMain.CreateGzipPipelineJson` | packages/cli/src/ToolsMain.ts:375-405 | The pipeline keeps the input and the output and has exactly one tileset stage, `gzip`, with no excluded types and no content stages. It has included types exactly when `tilesOnly` is set, and then they are the eight tile content types. |
| `ToolsMain.CreateUngzipPipelineJson` | packages/cli/src/ToolsMain.ts:424-439 | The pipeline keeps the input and the output and has one tileset stage, `ungzip`, without filters. That stage has exactly one content stage, `ungzip`. |
| `ToolsMain.PipelineStagesSelect` | packages/cli/src/ToolsMain.ts:380-398 | Under the filters' meaning, the gzip stage applies to every entry unless `tilesOnly` is set. With `tilesOnly` it applies exactly to the entries whose type is one of the eight tile types. The ungzip stage applies to every entry. |

## Left out

- `ImplicitTilings` is not part of this model. The node counts are defined here from the branching factor (4 for a quadtree, 8 for an octree) over unbounded integers. The floating-point arithmetic of JavaScript numbers is not modelled.
- `ConstantAvailabilityInfo` and `BufferAvailabilityInfo` are not part of this model. The records carry their value or chunk and their length, but have no `isAvailable`. Bit decoding and any check of the chunk's size are not modelled.
- `AvailabilityInfos.Create`, `CreateTileOrContent`, `CreateChildSubtree`: a bitstream index that is used must be within the buffer views. The source indexes without a check, and JavaScript would pass `undefined` on.
- `TableStructureValidator` and better-sqlite3 are not part of this model. Validation is a parameter returning an optional message, and opening a file is a parameter giving the database as a value. A failure to open the file, SQL `NULL` contents, and the laziness of the key iterator (it is read after `getKeys` returns) are not modelled.
- The lookup of `getValue` takes the first matching row in scan order. SQLite does not promise an order without `ORDER BY`.
- URL resolution (`new URL(key, base)`, the "URL parsing" section of the WHATWG URL Standard) is a parameter that gives `None` where the constructor throws. `Resource.fetchArrayBuffer` is a parameter giving an outcome. Timeouts and the promise machinery are not modelled.
- `GltfPack.process` is a parameter and is taken to always return a buffer. Its rejections are not modelled. The options are an opaque type.
- `ContentDataTypes` is not part of this model. The tags are written as `CONTENT_TYPE_B3DM` and so on, and no property proved here depends on their values.
- `TileFormats`, `TileDataLayouts`, `GltfUtilities` and `JSON.stringify`/`JSON.parse` are not part of this model. `cmptToGlb` receives the extracted GLBs and `upgradeGlb` as inputs. `analyzeInternal` receives the decoded tile as an `AnalyzedTile` with its JSON already formatted. Reading the input file and the magic string, and the `analyze` wrapper that does this, are not modelled.
- `ToolsMain.CmptToGlb`, `ToolsMain.AnalyzeInternal`: failures of the code they call are not modelled, nor are the partial writes those failures leave.
  - In `cmptToGlb`, `upgradeGlb` is a total function. In the source, a rejection of `upgradeGlb` for GLB i leaves paths 0..i-1 written, and path i checked but not written.
  - In `analyzeInternal`, every `AnalyzedTile` decodes. In the source, `TileDataLayouts.create`, `extractTileData`, `extractJsonFromGlb`, `JSON.parse` or `readCompositeTileData` can throw. If that happens for inner tile i of a composite, inner tiles 0..i-1 have written their files and the loop stops.
- `Paths.replaceExtension` and `Paths.resolve` are not part of this model. They are parameters.
- JSON written by `analyzeInternal` is stored as its text, without the UTF-8 encoding of `Buffer.from`. Logging, `Paths.ensureDirectoryExists` and failures of `fs.writeFileSync` are not modelled.
- The other commands of `ToolsMain` are not modelled: `b3dmToGlb`, `i3dmToGlb`, the `convert*ToGlb` commands, `glbToB3dm`, `glbToI3dm`, `optimize*`, `gzip`, `ungzip`, `convert`, `combine`, `upgrade`, `merge`, `pipeline` and `createTilesetJson`. Except `pipeline`, which has no overwrite guard, each runs `ensureCanWrite` on its output and then calls code outside this model. For `gzip` and `ungzip`, it first builds the pipeline JSON that `CreateGzipPipelineJson` and `CreateUngzipPipelineJson` model.
- `ToolsMain.PipelineStagesSelect`: the pipeline executor and its content-type check are not part of this model. `StageApplies` states the meaning of the two filter properties: included types admit only those types, and excluded types reject those types.
- `ContentUpgrades`, `HttpResourceResolver`, the demo script and the directory-renaming script are not modelled. They are orchestration over external collaborators, network fetching, and file-system side effects.
