/**
 * What the reels ask of the resource manager: whether loading has finished,
 * and which symbol types resolve to a texture. Loading itself (asynchronous,
 * through the rendering library) is not part of this model.
 */
module Assets {
  import opened Constants

  datatype Resources = Resources(isLoaded: bool, textures: set<SymbolType>)
}
