/** Text storage as the kernel's clients see it: paths that hold text, and writes that may fail. */
module TextStore {
  import opened CText

  /** How a write ends.  A failed write may leave the file alone, leave something else in it, or lose it:
      the UEFI backend deletes a file before it creates it anew. */
  datatype WriteResult = Written | Untouched | Garbled(left: string) | Lost

  type Files = map<string, string>

  function AfterWrite(files: Files, path: string, text: string, w: WriteResult): Files {
    match w
    case Written => files[path := text]
    case Untouched => files
    case Garbled(left) => files[path := left]
    case Lost => files - {path}
  }

  const READ_MAX: nat := 2048

  class Store {
    var files: Files

    constructor (initial: Files)
      ensures files == initial
    {
      files := initial;
    }

    method WriteText(path: string, text: string, w: WriteResult) returns (ok: bool)
      modifies this
      ensures files == AfterWrite(old(files), path, text, w)
      ensures ok <==> w.Written?
    {
      match w {
        case Written => files := files[path := text];
        case Untouched =>
        case Garbled(left) => files := files[path := left];
        case Lost => files := files - {path};
      }
      return w.Written?;
    }

    /** Reads into a buffer of `cap` bytes; `readable` is whether the device answers. */
    method ReadText(path: string, cap: nat, readable: bool) returns (text: Option<string>)
      requires cap > 0
      ensures text == if readable && path in files then Some(Clip(files[path], cap - 1)) else None
    {
      if readable && path in files {
        return Some(Clip(files[path], cap - 1));
      }
      return None;
    }
  }
}
