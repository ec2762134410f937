/**
 * The persisted preferences file `config.json` next to the script. Reading it
 * never fails the GUI: a missing file and a file that cannot be read or parsed
 * both give the empty config. The download directory defaults to the script's
 * directory when the config has no `download_path` entry.
 */
module Config {

  /** What reading `config.json` finds. */
  datatype ConfigFile =
    | Missing                                  // os.path.exists is false
    | Unreadable                               // open or json.load raised
    | Stored(entries: map<string, string>)     // the parsed JSON object

  const DownloadPathKey := "download_path"

  /** `read_config`: the stored entries, or the empty config on any failure. */
  function ReadConfig(file: ConfigFile): (entries: map<string, string>)
    ensures file.Stored? ==> entries == file.entries
    ensures !file.Stored? ==> entries == map[]
  {
    match file
    case Stored(entries) => entries
    case _ => map[]
  }

  /** `config.get(key, default)`. */
  function Get(config: map<string, string>, key: string, default: string): (value: string)
  {
    if key in config then config[key] else default
  }

  /** The download directory chosen at start-up. */
  function InitialDownloadPath(file: ConfigFile, scriptDir: string): (path: string)
  {
    Get(ReadConfig(file), DownloadPathKey, scriptDir)
  }

  /** The start-up directory is the stored one when there is one, the script's directory otherwise. */
  lemma InitialDownloadPathChoice(file: ConfigFile, scriptDir: string)
    ensures file.Stored? && DownloadPathKey in file.entries ==>
      InitialDownloadPath(file, scriptDir) == file.entries[DownloadPathKey]
    ensures !(file.Stored? && DownloadPathKey in file.entries) ==>
      InitialDownloadPath(file, scriptDir) == scriptDir
  {
  }

  /**
   * A config saved after `download_path` was set to `path` makes the next
   * start-up use `path`, whatever else the config holds.
   */
  lemma SavedPathIsRestored(config: map<string, string>, path: string, scriptDir: string)
    ensures InitialDownloadPath(Stored(config[DownloadPathKey := path]), scriptDir) == path
  {
  }
}
