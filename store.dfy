/** The filesystem the scripts read and write, as a map from path to contents. */
module Store {

  /** One octet of file content. */
  type Byte = b: int | 0 <= b < 256

  type Bytes = seq<Byte>

  /** The store after `os.rename(src, dst)` on a store holding `src`. */
  function Moved(files: map<string, Bytes>, src: string, dst: string): map<string, Bytes>
    requires src in files
  {
    (files - {src})[dst := files[src]]
  }

  /**
   * The files reachable by path name. Directories are not modelled: a
   * path such as "tile/qt=..." is one key.
   */
  class FileSystem {
    var files: map<string, Bytes>

    constructor (initial: map<string, Bytes>)
      ensures files == initial
    {
      files := initial;
    }

    /** `os.path.exists(path)`. */
    predicate Exists(path: string)
      reads this
    {
      path in files
    }

    /** `open(path, 'wb').write(bytes)`: creates or replaces exactly one file. */
    method Write(path: string, bytes: Bytes)
      modifies this
      ensures files == old(files)[path := bytes]
    {
      files := files[path := bytes];
    }

    /** `os.rename(src, dst)`: the contents move to `dst`; `src` is gone. */
    method Rename(src: string, dst: string)
      requires src in files
      modifies this
      ensures files == Moved(old(files), src, dst)
    {
      files := Moved(files, src, dst);
    }
  }
}
