/** The asset-side vocabulary the bridge works with: script files, their ids,
    the handles the asset server hands out and the lifecycle events it emits. */
module Assets {

  /** One byte of a script file. */
  newtype Byte = b: int | 0 <= b < 256

  /** An opaque, comparable asset id (Bevy's `AssetId<LuaFile>`). */
  type AssetId = nat

  /** A loaded Lua script asset: nothing but its raw bytes. */
  datatype LuaFile = LuaFile(bytes: seq<Byte>)

  /** The `Assets<LuaFile>` store: the bytes currently held for each id. */
  type LuaFiles = map<AssetId, LuaFile>

  /** A strong handle to an asset, as returned by the asset server for a path. */
  datatype Handle = Handle(id: AssetId, path: string)

  /** The five lifecycle events the asset system emits for Lua files. */
  datatype AssetEvent =
    | Added(id: AssetId)
    | Modified(id: AssetId)
    | Removed(id: AssetId)
    | Unused(id: AssetId)
    | LoadedWithDependencies(id: AssetId)
}
