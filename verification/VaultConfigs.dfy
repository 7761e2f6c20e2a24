/** The parts of a vault's `config.toml` that the edit policy gates, and the checked save. */
module VaultConfigs {
  import opened Wrappers
  import opened Text

  datatype StorageMode = EncryptedDir | UprivPlain

  datatype SecurityMode = AlwaysPrompt | SessionRam | RamOnCloseOnly | DiskClose | DiskOpenClose {
    /** The legacy close-password mode is read and written as `SessionRam`. */
    function Normalized(): SecurityMode {
      if this == RamOnCloseOnly then SessionRam else this
    }
  }

  /** `rest` stands for every field the edit policy leaves free: note, order, backup and so on. */
  datatype Config = Config(id: string, displayName: string, mount: string, storage: StorageMode,
                           security: SecurityMode, rest: string)

  datatype Target = DisplayName | Id | WorkspacePath | Storage | Security

  function QuietTargetsChanged(before: Config, after: Config): seq<Target> {
    (if before.displayName != after.displayName then [DisplayName] else [])
    + (if before.id != after.id then [Id] else [])
    + (if before.mount != after.mount then [WorkspacePath] else [])
    + (if before.storage != after.storage then [Storage] else [])
    + (if before.security.Normalized() != after.security.Normalized() then [Security] else [])
  }

  const DEFAULT_MOUNT := "default"

  function NormalizeMount(path: string): string {
    var trimmed := Trim(path);
    if trimmed == "" || EqualIgnoringCase(trimmed, DEFAULT_MOUNT) then DEFAULT_MOUNT else trimmed
  }

  datatype LoadError = MissingFile | BlankId | BlankDisplayName | IdDiffersFromDirectory

  /** `load_vault_config_raw` of the file in directory `dir`. */
  function Load(file: Option<Config>, dir: string): Result<Config, LoadError> {
    match file
    case None => Err(MissingFile)
    case Some(c) =>
      if Trim(c.id) == "" then Err(BlankId)
      else if Trim(c.displayName) == "" then Err(BlankDisplayName)
      else if c.id != dir then Err(IdDiffersFromDirectory)
      else Ok(c.(mount := NormalizeMount(c.mount), security := c.security.Normalized()))
  }

  /** What `save_vault_config` leaves on disk. */
  function Written(c: Config): Config {
    c.(security := c.security.Normalized())
  }

  datatype SaveError = NotLoadable(why: LoadError) | IdNeedsMigration | Busy(target: Target) | Unwritable

  /** `save_vault_config_checked` as one step: the file it leaves, or why it refused. `writable`
      is false when the new configuration cannot be serialised or stored. */
  function CheckedSave(file: Option<Config>, dir: string, after: Config, busy: bool, writable: bool)
    : Result<Config, SaveError>
  {
    match Load(file, dir)
    case Err(why) => Err(NotLoadable(why))
    case Ok(before) =>
      var changed := QuietTargetsChanged(before, after);
      if after.id != before.id then Err(IdNeedsMigration)
      else if busy && changed != [] then Err(Busy(changed[0]))
      else if !writable then Err(Unwritable)
      else Ok(Written(after))
  }

  /** The fields a session relies on, as a load gives them. */
  ghost predicate SameQuiet(a: Config, b: Config) {
    && a.displayName == b.displayName && a.id == b.id && a.mount == b.mount && a.storage == b.storage
    && a.security.Normalized() == b.security.Normalized()
  }

  lemma NormalizeMountIdempotent(path: string)
    ensures NormalizeMount(NormalizeMount(path)) == NormalizeMount(path)
  {
    hide Trim;
    CleanEndsAreKept(DEFAULT_MOUNT);
    TrimIdempotent(path);
  }

  /** Exactly when a checked save goes through, and what the next load then gives: while busy only
      a save that leaves every quiet field alone, and never one that changes the id. */
  lemma CheckedSaveIsExact(file: Option<Config>, dir: string, after: Config, busy: bool)
    requires Load(file, dir).Ok?
    ensures var before := Load(file, dir).value; var saved := CheckedSave(file, dir, after, busy, true);
            && (saved.Ok? <==> after.id == before.id && (busy ==> SameQuiet(before, after)))
            && (saved.Ok? ==> saved.value.id == before.id)
            && (saved.Ok? && busy ==>
                  Load(Some(saved.value), dir).Ok? && SameQuiet(Load(Some(saved.value), dir).value, before))
  {
    hide Trim;
    hide NormalizeMount;
    NormalizeMountIdempotent(file.value.mount);
  }
}
