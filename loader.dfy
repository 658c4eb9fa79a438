/** The asset loader that turns a `.lua` file into a `LuaFile`. */
module Loader {
  import opened Assets

  /** An I/O failure reported by the reader, carried through unchanged. */
  datatype IoError = IoError(message: string)

  /** What reading the file to its end produced. The read itself is I/O and
      stays outside the model. */
  datatype ReadOutcome = ReadToEnd(bytes: seq<Byte>) | ReadFailed(error: IoError)

  /** The loader's only error kind. */
  datatype LoaderError = Io(cause: IoError)

  datatype LoadResult = Loaded(file: LuaFile) | LoadFailed(error: LoaderError)

  /** Loading keeps the bytes exactly as read; a read error becomes `Io`. */
  function Load(read: ReadOutcome): (r: LoadResult)
    ensures r.Loaded? <==> read.ReadToEnd?
    ensures r.Loaded? ==> r.file.bytes == read.bytes
    ensures r.LoadFailed? ==> r.error == Io(read.error)
  {
    match read
    case ReadToEnd(bytes) => Loaded(LuaFile(bytes))
    case ReadFailed(e) => LoadFailed(Io(e))
  }

  /** The file extensions this loader claims. */
  function Extensions(): (exts: seq<string>)
    ensures |exts| == 1 && exts[0] == "lua"
  {
    ["lua"]
  }
}
