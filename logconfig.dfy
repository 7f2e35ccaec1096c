/** The logging configuration and its `InitDefaults` methods, which fill each
    unset field with its default and leave every set field alone. */
module LogConfig {
  import opened Common

  const DefaultConsoleLevel: string := "crit"
  const DefaultFileLevel: string := "debug"
  const DefaultFileSizeMiB: nat := 50
  const DefaultFileMaxAgeDays: nat := 7
  const DefaultFileMaxBackups: nat := 10
  const DefaultFileFlushSeconds: nat := 5

  /** The fields of `FileConfig`; the flush interval is a pointer in the
      source, `None` when nil. */
  datatype FileValues = FileValues(
    path: string, level: string, size: nat, maxAge: nat, maxBackups: nat,
    flushInterval: Option<nat>, compress: bool)

  /** The file configuration after defaulting. */
  function FileDefaults(v: FileValues): (r: FileValues)
    ensures r.level == (if v.level == "" then DefaultFileLevel else v.level)
    ensures r.size == (if v.size == 0 then DefaultFileSizeMiB else v.size)
    ensures r.maxAge == (if v.maxAge == 0 then DefaultFileMaxAgeDays else v.maxAge)
    ensures r.maxBackups == (if v.maxBackups == 0 then DefaultFileMaxBackups else v.maxBackups)
    ensures r.flushInterval == (if v.flushInterval.None? then Some(DefaultFileFlushSeconds) else v.flushInterval)
    ensures r.path == v.path && r.compress == v.compress
  {
    v.(level := if v.level == "" then DefaultFileLevel else v.level,
       size := if v.size == 0 then DefaultFileSizeMiB else v.size,
       maxAge := if v.maxAge == 0 then DefaultFileMaxAgeDays else v.maxAge,
       maxBackups := if v.maxBackups == 0 then DefaultFileMaxBackups else v.maxBackups,
       flushInterval := if v.flushInterval.None? then Some(DefaultFileFlushSeconds) else v.flushInterval)
  }

  /** The console level after defaulting. */
  function ConsoleDefaults(level: string): string
  {
    if level == "" then DefaultConsoleLevel else level
  }

  /** Every defaultable file field is set afterwards, and a configuration
      with every field set is left as it is; so defaulting is idempotent. */
  lemma FileDefaultsSettle(v: FileValues)
    ensures var d := FileDefaults(v);
            d.level != "" && d.size > 0 && d.maxAge > 0 && d.maxBackups > 0 && d.flushInterval.Some?
    ensures v.level != "" && v.size > 0 && v.maxAge > 0 && v.maxBackups > 0 && v.flushInterval.Some? ==>
              FileDefaults(v) == v
    ensures FileDefaults(FileDefaults(v)) == FileDefaults(v)
  {
  }

  /** The console level is set afterwards and defaulting is idempotent. */
  lemma ConsoleDefaultsSettle(level: string)
    ensures ConsoleDefaults(level) != ""
    ensures ConsoleDefaults(ConsoleDefaults(level)) == ConsoleDefaults(level)
  {
  }

  class FileConfig {
    var path: string
    var level: string
    var size: nat
    var maxAge: nat
    var maxBackups: nat
    var flushInterval: Option<nat>
    var compress: bool

    constructor(v: FileValues)
      ensures Values() == v
    {
      path, level, size, maxAge := v.path, v.level, v.size, v.maxAge;
      maxBackups, flushInterval, compress := v.maxBackups, v.flushInterval, v.compress;
    }

    function Values(): FileValues
      reads this
    {
      FileValues(path, level, size, maxAge, maxBackups, flushInterval, compress)
    }

    /** `FileConfig.InitDefaults`. */
    method InitDefaults()
      modifies this
      ensures Values() == FileDefaults(old(Values()))
    {
      if level == "" {
        level := DefaultFileLevel;
      }
      if size == 0 {
        size := DefaultFileSizeMiB;
      }
      if maxAge == 0 {
        maxAge := DefaultFileMaxAgeDays;
      }
      if maxBackups == 0 {
        maxBackups := DefaultFileMaxBackups;
      }
      if flushInterval.None? {
        var s := DefaultFileFlushSeconds;
        flushInterval := Some(s);
      }
    }
  }

  class ConsoleConfig {
    var level: string

    constructor(level: string)
      ensures this.level == level
    {
      this.level := level;
    }

    /** `ConsoleConfig.InitDefaults`. */
    method InitDefaults()
      modifies this
      ensures level == ConsoleDefaults(old(level))
    {
      if level == "" {
        level := DefaultConsoleLevel;
      }
    }
  }

  class Config {
    const file: FileConfig
    const console: ConsoleConfig

    constructor(f: FileValues, consoleLevel: string)
      ensures file.Values() == f && console.level == consoleLevel
      ensures fresh(file) && fresh(console)
    {
      file := new FileConfig(f);
      console := new ConsoleConfig(consoleLevel);
    }

    /** `Config.InitDefaults`: the file defaulting, then the console
        defaulting, and nothing else. */
    method InitDefaults()
      modifies file, console
      ensures file.Values() == FileDefaults(old(file.Values()))
      ensures console.level == ConsoleDefaults(old(console.level))
    {
      file.InitDefaults();
      console.InitDefaults();
    }
  }
}
