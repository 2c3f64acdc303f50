/**
 * The tile content processor that optimizes GLB content with `gltfpack`
 * (`TileContentProcessorsGltfpack.create`). The processor routes on the
 * content-type tag alone: GLB content goes to the optimizer with the options
 * captured at creation, everything else passes through. The optimizer
 * (`GltfPack.process`) is a parameter.
 */
module TileContentProcessorsGltfpack {
  import opened Base

  /** A `TileContentProcessor`: content data and its optional content-type tag to processed content data. */
  type TileContentProcessor = (Buffer, Option<string>) -> Buffer

  /** `TileContentProcessorsGltfpack.create`: a processor that applies `gltfpack` with `options` to GLB content. */
  function Create<Options>(options: Options, gltfpack: (Buffer, Options) -> Buffer): (processor: TileContentProcessor)
    ensures forall input, contentType :: contentType != Some(ContentTypeGlb) ==> processor(input, contentType) == input
    ensures forall input :: processor(input, Some(ContentTypeGlb)) == gltfpack(input, options)
  {
    (input: Buffer, contentType: Option<string>) =>
      if contentType != Some(ContentTypeGlb) then input else gltfpack(input, options)
  }

  /** Content of any other type, and content without a type, is returned unchanged. */
  lemma NonGlbPassesThrough<Options>(options: Options, gltfpack: (Buffer, Options) -> Buffer,
                                     input: Buffer, contentType: Option<string>)
    requires contentType != Some(ContentTypeGlb)
    ensures Create(options, gltfpack)(input, contentType) == input
  {
  }

  /**
   * The route depends on the tag only: for each tag the processor is either
   * the identity on every input or `gltfpack` with the creation options on
   * every input, and calls at different times use the same options.
   */
  lemma RoutingDependsOnlyOnType<Options>(options: Options, gltfpack: (Buffer, Options) -> Buffer,
                                          contentType: Option<string>, first: Buffer, second: Buffer)
    ensures var processor := Create(options, gltfpack);
            || (processor(first, contentType) == first && processor(second, contentType) == second)
            || (processor(first, contentType) == gltfpack(first, options)
                && processor(second, contentType) == gltfpack(second, options))
  {
  }
}
