/** The data directory and every state it has been in. */
module Disks {
  import opened Kv

  /**
   The files of the data directory. `Data` and `Index` are the two files of one table; log files are
   numbered, for their random names say nothing.
   */
  datatype Path = Data(name: Bytes) | Index(name: Bytes) | Metadata | NewMetadata | LogFile(number: nat)

  type Files = map<Path, Bytes>

  /** The log files alone. */
  function LogFiles(files: Files): map<nat, Bytes> {
    map p | p in files && p.LogFile? :: p.number := files[p]
  }

  /** All the other files. */
  function OtherFiles(files: Files): Files {
    map p | p in files && !p.LogFile? :: files[p]
  }

  lemma LogFilesAt(files: Files, n: nat)
    ensures n in LogFiles(files) <==> LogFile(n) in files
    ensures n in LogFiles(files) ==> LogFiles(files)[n] == files[LogFile(n)]
  {
  }

  lemma LogFilesWrite(files: Files, path: Path, bytes: Bytes)
    ensures LogFiles(files[path := bytes]) ==
            if path.LogFile? then LogFiles(files)[path.number := bytes] else LogFiles(files)
    ensures path.LogFile? ==> OtherFiles(files[path := bytes]) == OtherFiles(files)
  {
  }

  lemma LogFilesDelete(files: Files, path: Path)
    ensures LogFiles(files - {path}) == if path.LogFile? then LogFiles(files) - {path.number} else LogFiles(files)
    ensures path.LogFile? ==> OtherFiles(files - {path}) == OtherFiles(files)
  {
  }

  /** The data directory. `history` is every state it has been in: the states a crash can leave. */
  class Disk {
    var files: Files
    ghost var history: seq<Files>

    ghost predicate Valid()
      reads this
    {
      history != [] && history[|history| - 1] == files
    }

    /** Creates or rewrites a file; with `faulty` the file cannot be opened and nothing happens. */
    method Write(path: Path, bytes: Bytes, faulty: bool) returns (ok: bool)
      requires Valid()
      modifies this
      ensures Valid() && ok == !faulty
      ensures ok ==> files == old(files)[path := bytes] && history == old(history) + [files]
      ensures !ok ==> files == old(files) && history == old(history)
      ensures !path.LogFile? ==> LogFiles(files) == old(LogFiles(files))
      ensures path.LogFile? ==> OtherFiles(files) == old(OtherFiles(files))
      ensures path.LogFile? && ok ==> LogFiles(files) == old(LogFiles(files))[path.number := bytes]
    {
      LogFilesWrite(files, path, bytes);
      if faulty {
        return false;
      }
      files := files[path := bytes];
      history := history + [files];
      return true;
    }

    /** `fs::remove`: removing a file that is not there does nothing. */
    method Delete(path: Path)
      requires Valid()
      modifies this
      ensures Valid()
      ensures files == old(files) - {path} && history == old(history) + [files]
      ensures LogFiles(files) ==
              if path.LogFile? then old(LogFiles(files)) - {path.number} else old(LogFiles(files))
      ensures path.LogFile? ==> OtherFiles(files) == old(OtherFiles(files))
    {
      LogFilesDelete(files, path);
      files := files - {path};
      history := history + [files];
    }

    /** `fs::rename` replaces the target in one step. */
    method Rename(from: Path, to: Path)
      requires Valid() && from in files && from != to
      modifies this
      ensures Valid()
      ensures files == old(files)[to := old(files)[from]] - {from} && history == old(history) + [files]
      ensures !from.LogFile? && !to.LogFile? ==> LogFiles(files) == old(LogFiles(files))
    {
      LogFilesWrite(files, to, files[from]);
      LogFilesDelete(files[to := files[from]], from);
      files := files[to := files[from]] - {from};
      history := history + [files];
    }
  }
}
