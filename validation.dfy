/**
 * `validate_config` against an abstract filesystem.  The filesystem says,
 * for each path text, whether something is there and whether it is a
 * directory; `Path::exists` and `Path::is_dir` become lookups in it.
 */
module Validation {
  import opened Results
  import opened Configuration

  datatype Kind = Directory | NotDirectory

  datatype FileSystem = FileSystem(entries: map<string, Kind>) {
    /** `Path::exists`. */
    predicate Exists(path: string) {
      path in entries
    }

    /** `Path::is_dir`: false for a path where nothing is. */
    predicate IsDir(path: string) {
      path in entries && entries[path] == Directory
    }

    /** What the filesystem has at `path`, if anything. */
    function Lookup(path: string): Option<Kind> {
      if path in entries then Some(entries[path]) else None
    }
  }

  const SourceMissing: string := "source does not exist"
  const SourceNotDirectory: string := "source is not a directory"
  const DestinationMissing: string := "destination does not exist"
  const DestinationNotDirectory: string := "destination is not a directory"

  /** A root the program can work with: it exists and is a directory. */
  predicate Usable(fs: FileSystem, path: string) {
    fs.Exists(path) && fs.IsDir(path)
  }

  /**
   * `validate_config`: the source is checked before the destination, and for
   * each of them existence before being a directory.  Each of the four
   * failures has its own message and occurs exactly under its condition.
   */
  function ValidateConfig(config: Config, fs: FileSystem): (r: Result<()>)
    ensures r.Ok? <==> Usable(fs, config.src) && Usable(fs, config.dest)
    ensures r == Err(SourceMissing) <==> !fs.Exists(config.src)
    ensures r == Err(SourceNotDirectory) <==> fs.Exists(config.src) && !fs.IsDir(config.src)
    ensures r == Err(DestinationMissing) <==>
      Usable(fs, config.src) && !fs.Exists(config.dest)
    ensures r == Err(DestinationNotDirectory) <==>
      Usable(fs, config.src) && fs.Exists(config.dest) && !fs.IsDir(config.dest)
  {
    if !fs.Exists(config.src) then Err(SourceMissing)
    else if !fs.IsDir(config.src) then Err(SourceNotDirectory)
    else if !fs.Exists(config.dest) then Err(DestinationMissing)
    else if !fs.IsDir(config.dest) then Err(DestinationNotDirectory)
    else Ok(())
  }

  /**
   * A bad source is reported whatever the destination is: two filesystems
   * that agree on the source give the same verdict once the source fails.
   */
  lemma SourceReportedFirst(config: Config, fs1: FileSystem, fs2: FileSystem)
    requires fs1.Lookup(config.src) == fs2.Lookup(config.src)
    requires !Usable(fs1, config.src)
    ensures ValidateConfig(config, fs1) == ValidateConfig(config, fs2)
    ensures ValidateConfig(config, fs1).Err?
  {
  }

  /** Only the source and the destination are consulted. */
  lemma OnlyRootsConsulted(config: Config, fs1: FileSystem, fs2: FileSystem)
    requires fs1.Lookup(config.src) == fs2.Lookup(config.src)
    requires fs1.Lookup(config.dest) == fs2.Lookup(config.dest)
    ensures ValidateConfig(config, fs1) == ValidateConfig(config, fs2)
  {
  }
}
