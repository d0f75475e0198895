/** The local disk, as far as the upload handling sees it: which paths exist. */
module Files {

  class Disk {
    var paths: set<string>

    constructor (existing: set<string>)
      ensures paths == existing
    {
      paths := existing;
    }

    /** `open(path, "wb")` followed by a write: the file exists afterwards. */
    method Write(path: string)
      modifies this
      ensures paths == old(paths) + {path}
    {
      paths := paths + {path};
    }

    /** The cleanup in the `finally` blocks: if the path exists it is
        removed; afterwards it does not exist. */
    method RemoveIfExists(path: string)
      modifies this
      ensures paths == old(paths) - {path}
    {
      if path in paths {
        paths := paths - {path};
      }
    }
  }
}
