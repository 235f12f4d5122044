/**
 * The configuration store of the storage crate: a cache of up to 32
 * configuration entries (name, version, size, checksum, backup flag)
 * keyed by name, with prefixed storage keys for each configuration and
 * its backup.  The backend calls are not made by the source (they are
 * placeholders), so only the cache and the key checks are observable.
 */
module ConfigStore {
  import opened Wrappers
  import opened Ints
  import opened StorageTraits

  const MAX_CONFIG_NAME: nat := 64
  const MAX_CACHED_CONFIGS: nat := 32
  const BACKUP_SUFFIX: string := ".backup"

  /** The prefix `ConfigStore::new` sets; ':' is not a key character. */
  const CONFIG_PREFIX_AS_WRITTEN: string := "config:"

  /** A namespace prefix made of key characters, the corrected one. */
  const CONFIG_PREFIX: string := "config."

  /** The placeholder bytes the store reads back: `{}`. */
  const PLACEHOLDER_DATA: seq<u8> := [0x7B, 0x7D]

  datatype ConfigEntry = ConfigEntry(
    name: string, version: u32, createdAt: u64, modifiedAt: u64,
    size: nat, checksum: u32, isBackup: bool)

  /** `ConfigEntry::new`: version 1, timestamps 0, checksum 0, not a backup; a name over 64 is `InvalidKey`. */
  function NewEntry(name: string, size: nat): (r: Result<ConfigEntry, StorageError>)
    ensures r.Ok? <==> |name| <= MAX_CONFIG_NAME
    ensures r.Err? ==> r.error == InvalidKey
    ensures r.Ok? ==> r.value.name == name && r.value.version == 1 && !r.value.isBackup
    ensures r.Ok? ==> r.value.size == size && r.value.checksum == 0 && r.value.createdAt == 0 && r.value.modifiedAt == 0
  {
    if |name| > MAX_CONFIG_NAME then Err(InvalidKey)
    else Ok(ConfigEntry(name, 1, 0, 0, size, 0, false))
  }

  /** `ConfigEntry::update`: one more version (wrapping `u32`), the new size and checksum. */
  function UpdateEntry(e: ConfigEntry, size: nat, checksum: u32): (r: ConfigEntry)
    ensures e.version < U32_MAX ==> r.version == e.version + 1
    ensures r.size == size && r.checksum == checksum && r.modifiedAt == 0
    ensures r.name == e.name && r.isBackup == e.isBackup && r.createdAt == e.createdAt
  {
    e.(modifiedAt := 0, version := Wrap32(e.version + 1), size := size, checksum := checksum)
  }

  /** `ConfigEntry::as_backup`: a backup named `<name>.backup`, or the empty name when that exceeds 64. */
  function AsBackup(e: ConfigEntry): (r: ConfigEntry)
    ensures r.isBackup
    ensures |e.name| + |BACKUP_SUFFIX| <= MAX_CONFIG_NAME ==> r.name == e.name + BACKUP_SUFFIX
    ensures |e.name| + |BACKUP_SUFFIX| > MAX_CONFIG_NAME ==> r.name == []
    ensures r.version == e.version && r.size == e.size && r.checksum == e.checksum
  {
    var backupName := e.name + BACKUP_SUFFIX;
    e.(isBackup := true, name := if |backupName| <= MAX_CONFIG_NAME then backupName else [])
  }

  /** The entry `restore_config` makes of a backup: not a backup, renamed, one version later. */
  function Restored(backup: ConfigEntry, name: string): (r: ConfigEntry)
    ensures !r.isBackup && r.name == name
    ensures r.size == backup.size && r.checksum == backup.checksum
  {
    backup.(isBackup := false, name := name, version := Wrap32(backup.version + 1))
  }

  /**
   * Backing an entry up and restoring it gives the entry back one version
   * later: the data description (size, checksum) survives the round trip.
   */
  lemma RestoreUndoesBackup(e: ConfigEntry)
    requires !e.isBackup
    ensures Restored(AsBackup(e), e.name) == e.(version := Wrap32(e.version + 1))
  {
  }

  // ------------------------------------------------------------- keys

  /** `create_config_key`: the store's prefix followed by the name, validated as a storage key. */
  function ConfigKey(prefix: string, name: string): Result<StorageKey, StorageError> {
    NewKey(prefix + name)
  }

  /** `create_backup_key`: the prefix, the name and `.backup`. */
  function BackupKey(prefix: string, name: string): Result<StorageKey, StorageError> {
    NewKey(prefix + name + BACKUP_SUFFIX)
  }

  /** Every configuration or backup key made with the `config:` prefix is rejected, whatever the name. */
  lemma ConfigKeyAsWrittenAlwaysFails(name: string)
    ensures ConfigKey(CONFIG_PREFIX_AS_WRITTEN, name) == Err(InvalidKey)
    ensures BackupKey(CONFIG_PREFIX_AS_WRITTEN, name) == Err(InvalidKey)
  {
    var full := CONFIG_PREFIX_AS_WRITTEN + name;
    assert full[6] == ':' && !IsKeyChar(full[6]);
    assert (full + BACKUP_SUFFIX)[6] == ':';
  }

  lemma KeyCharsConcat(a: string, b: string)
    ensures AllKeyChars(a + b) <==> AllKeyChars(a) && AllKeyChars(b)
  {
    assert forall i :: 0 <= i < |b| ==> b[i] == (a + b)[|a| + i];
    assert forall i :: 0 <= i < |a| ==> a[i] == (a + b)[i];
  }

  /** With the corrected prefix, a configuration key exists exactly for names of at most 57 key characters. */
  lemma ConfigKeyAccepts(name: string)
    ensures ConfigKey(CONFIG_PREFIX, name).Ok? <==> AllKeyChars(name) && |name| <= MAX_KEY_LEN - |CONFIG_PREFIX|
    ensures ConfigKey(CONFIG_PREFIX, name).Ok? ==> ConfigKey(CONFIG_PREFIX, name).value.key == CONFIG_PREFIX + name
  {
    KeyCharsConcat(CONFIG_PREFIX, name);
  }

  /** With the corrected prefix, a backup key exists exactly for names of at most 50 key characters. */
  lemma BackupKeyAccepts(name: string)
    ensures BackupKey(CONFIG_PREFIX, name).Ok? <==> AllKeyChars(name) && |name| + |BACKUP_SUFFIX| <= MAX_KEY_LEN - |CONFIG_PREFIX|
  {
    KeyCharsConcat(CONFIG_PREFIX, name);
    KeyCharsConcat(CONFIG_PREFIX + name, BACKUP_SUFFIX);
  }

  /** A valid configuration key bounds the name; a valid backup key also gives a configuration key and bounds `<name>.backup`. */
  lemma BackupKeyHasConfigKey(prefix: string, name: string)
    requires prefix != []
    ensures ConfigKey(prefix, name).Ok? ==> |name| <= MAX_CONFIG_NAME
    ensures BackupKey(prefix, name).Ok? ==> ConfigKey(prefix, name).Ok? && |name + BACKUP_SUFFIX| <= MAX_CONFIG_NAME
  {
    KeyCharsConcat(prefix + name, BACKUP_SUFFIX);
  }

  // ------------------------------------------------------------ store

  class ConfigStore {
    var metadataCache: map<string, ConfigEntry>
    const configPrefix: string

    /** The cache fits its capacity, every entry is cached under its own name, and the prefix is not empty. */
    ghost predicate Valid()
      reads this
    {
      configPrefix != [] &&
      |metadataCache| <= MAX_CACHED_CONFIGS &&
      forall k :: k in metadataCache ==> |k| <= MAX_CONFIG_NAME && metadataCache[k].name == k
    }

    /** `ConfigStore::new`: an empty cache (loading it is a no-op) and the prefix `config:`. */
    constructor ()
      ensures Valid() && metadataCache == map[] && configPrefix == CONFIG_PREFIX_AS_WRITTEN
    {
      metadataCache := map[];
      configPrefix := CONFIG_PREFIX_AS_WRITTEN;
    }

    /** `ConfigStore::new` with the corrected prefix `config.`. */
    constructor WithKeyPrefix()
      ensures Valid() && metadataCache == map[] && configPrefix == CONFIG_PREFIX
    {
      metadataCache := map[];
      configPrefix := CONFIG_PREFIX;
    }

    /** The cache slot the source looks up for a name: the name, or the empty name when it exceeds 64. */
    static function Slot(name: string): string {
      if |name| <= MAX_CONFIG_NAME then name else []
    }

    /** The entry that `store_config` records for a name. */
    function StoredEntry(name: string, size: nat, checksum: u32): (r: ConfigEntry)
      reads this
      requires |name| <= MAX_CONFIG_NAME
      ensures r.size == size && r.checksum == checksum && r.name == (if name in metadataCache then metadataCache[name].name else name)
      ensures name !in metadataCache ==> r.version == 1 && !r.isBackup
    {
      if name in metadataCache then UpdateEntry(metadataCache[name], size, checksum)
      else NewEntry(name, size).value.(checksum := checksum)
    }

    /**
     * `store_config`, given the serialised bytes: records the size and
     * checksum, bumping the version of an existing entry.  Bytes over 4096
     * (the serialiser's buffer) are `CorruptedData`.  The existing entry is
     * bumped in place before the key check, so a failed store can still
     * change it.
     */
    method StoreConfig(name: string, serialized: seq<u8>) returns (r: Result<(), StorageError>)
      requires Valid()
      modifies this
      ensures Valid()
      ensures r.Ok? <==> (|serialized| <= MAX_VALUE_SIZE && ConfigKey(configPrefix, name).Ok? &&
        (name in old(metadataCache) || |old(metadataCache)| < MAX_CACHED_CONFIGS))
      ensures r.Ok? ==> metadataCache == old(metadataCache)[name := old(StoredEntry(name, |serialized|, Checksum(serialized)))]
      ensures |serialized| > MAX_VALUE_SIZE ==> r == Err(CorruptedData)
      ensures |serialized| <= MAX_VALUE_SIZE && ConfigKey(configPrefix, name).Err? ==> r == Err(InvalidKey)
      ensures r.Err? && |serialized| <= MAX_VALUE_SIZE && ConfigKey(configPrefix, name).Ok? ==> r == Err(CapacityExceeded)
      ensures r.Err? && |serialized| <= MAX_VALUE_SIZE && Slot(name) in old(metadataCache) ==>
        metadataCache == old(metadataCache)[Slot(name) := UpdateEntry(old(metadataCache)[Slot(name)], |serialized|, Checksum(serialized))]
      ensures r.Err? && !(|serialized| <= MAX_VALUE_SIZE && Slot(name) in old(metadataCache)) ==>
        metadataCache == old(metadataCache)
    {
      if |serialized| > MAX_VALUE_SIZE {
        return Err(CorruptedData);
      }
      var checksum := CalculateChecksum(serialized);
      var slot := Slot(name);
      var entry;
      if slot in metadataCache {
        entry := UpdateEntry(metadataCache[slot], |serialized|, checksum);
        metadataCache := metadataCache[slot := entry];
      } else {
        var created := NewEntry(name, |serialized|);
        if created.Err? {
          return Err(created.error);
        }
        entry := created.value.(checksum := checksum);
      }
      assert Valid();
      assert slot in old(metadataCache) ==>
        metadataCache == old(metadataCache)[slot := UpdateEntry(old(metadataCache)[slot], |serialized|, Checksum(serialized))];
      assert slot !in old(metadataCache) ==> metadataCache == old(metadataCache);
      BackupKeyHasConfigKey(configPrefix, name);
      if ConfigKey(configPrefix, name).Err? {
        return Err(InvalidKey);
      }
      // The value and the name checks that follow cannot fail: the size is
      // within 4096 and a valid key bounds the name.
      var value := NewValue(serialized);
      if name !in metadataCache && |metadataCache| >= MAX_CACHED_CONFIGS {
        return Err(CapacityExceeded);
      }
      metadataCache := metadataCache[name := entry];
      return Ok(());
    }

    /**
     * `retrieve_config` up to deserialisation: the placeholder bytes `{}`,
     * provided they match the cached checksum.
     */
    function RetrieveConfig(name: string): (r: Result<seq<u8>, StorageError>)
      reads this
      ensures |name| > MAX_CONFIG_NAME ==> r == Err(InvalidKey)
      ensures |name| <= MAX_CONFIG_NAME && name !in metadataCache ==> r == Err(KeyNotFound)
      ensures r.Ok? <==> name in metadataCache && ConfigKey(configPrefix, name).Ok? && metadataCache[name].checksum == Checksum(PLACEHOLDER_DATA)
      ensures r.Ok? ==> r.value == PLACEHOLDER_DATA
    {
      if |name| > MAX_CONFIG_NAME then Err(InvalidKey)
      else if name !in metadataCache then Err(KeyNotFound)
      else if ConfigKey(configPrefix, name).Err? then Err(ConfigKey(configPrefix, name).error)
      else if !VerifyChecksum(PLACEHOLDER_DATA, metadataCache[name].checksum) then Err(CorruptedData)
      else Ok(PLACEHOLDER_DATA)
    }

    /** `delete_config`: after both keys check out, the name leaves the cache. */
    method DeleteConfig(name: string) returns (r: Result<(), StorageError>)
      requires Valid()
      modifies this
      ensures Valid()
      ensures r.Ok? <==> BackupKey(configPrefix, name).Ok?
      ensures r.Err? ==> r == Err(InvalidKey) && metadataCache == old(metadataCache)
      ensures r.Ok? ==> metadataCache == old(metadataCache) - {name}
    {
      BackupKeyHasConfigKey(configPrefix, name);
      if ConfigKey(configPrefix, name).Err? || BackupKey(configPrefix, name).Err? {
        return Err(InvalidKey);
      }
      // A valid backup key bounds the name, so its own check cannot fail.
      metadataCache := metadataCache - {name};
      return Ok(());
    }

    /** `config_exists`: the cache decides; a name without a key is `InvalidKey` unless cached. */
    function ConfigExists(name: string): (r: Result<bool, StorageError>)
      reads this
      ensures |name| > MAX_CONFIG_NAME ==> r == Err(InvalidKey)
      ensures |name| <= MAX_CONFIG_NAME && name in metadataCache ==> r == Ok(true)
      ensures r == Ok(true) <==> |name| <= MAX_CONFIG_NAME && name in metadataCache
      ensures r == Ok(false) <==> |name| <= MAX_CONFIG_NAME && name !in metadataCache && ConfigKey(configPrefix, name).Ok?
    {
      if |name| > MAX_CONFIG_NAME then Err(InvalidKey)
      else if name in metadataCache then Ok(true)
      else if ConfigKey(configPrefix, name).Err? then Err(ConfigKey(configPrefix, name).error)
      else Ok(false)
    }

    /** `list_configs`: the names of the cached entries that are not backups; order is not modelled. */
    function ListConfigs(): (r: set<string>)
      reads this
      ensures forall n :: n in r <==> exists k :: k in metadataCache && !metadataCache[k].isBackup && metadataCache[k].name == n
    {
      set k | k in metadataCache && !metadataCache[k].isBackup :: metadataCache[k].name
    }

    /**
     * `backup_config`: a cached configuration gets a backup entry under the
     * backup's name; an uncached one is left alone.
     */
    method BackupConfig(name: string) returns (r: Result<(), StorageError>)
      requires Valid()
      modifies this
      ensures Valid()
      ensures BackupKey(configPrefix, name).Err? ==> r == Err(InvalidKey) && metadataCache == old(metadataCache)
      ensures BackupKey(configPrefix, name).Ok? && name !in old(metadataCache) ==> r == Ok(()) && metadataCache == old(metadataCache)
      ensures BackupKey(configPrefix, name).Ok? && name in old(metadataCache) ==>
        (var b := AsBackup(old(metadataCache)[name]);
         if b.name !in old(metadataCache) && |old(metadataCache)| >= MAX_CACHED_CONFIGS
         then r == Err(CapacityExceeded) && metadataCache == old(metadataCache)
         else r == Ok(()) && metadataCache == old(metadataCache)[b.name := b])
    {
      BackupKeyHasConfigKey(configPrefix, name);
      if ConfigKey(configPrefix, name).Err? {
        return Err(InvalidKey);
      }
      var value := NewValue(PLACEHOLDER_DATA);
      if BackupKey(configPrefix, name).Err? {
        return Err(InvalidKey);
      }
      // A valid backup key bounds the name, so its own check cannot fail.
      if name in metadataCache {
        var backup := AsBackup(metadataCache[name]);
        if backup.name !in metadataCache && |metadataCache| >= MAX_CACHED_CONFIGS {
          return Err(CapacityExceeded);
        }
        metadataCache := metadataCache[backup.name := backup];
      }
      return Ok(());
    }

    /**
     * `restore_config`: a cached backup `<name>.backup` is copied to `name`
     * as a non-backup entry one version later; without a backup nothing
     * changes.
     */
    method RestoreConfig(name: string) returns (r: Result<(), StorageError>)
      requires Valid()
      modifies this
      ensures Valid()
      ensures BackupKey(configPrefix, name).Err? ==> r == Err(InvalidKey) && metadataCache == old(metadataCache)
      ensures BackupKey(configPrefix, name).Ok? && name + BACKUP_SUFFIX !in old(metadataCache) ==>
        (r == Ok(()) && metadataCache == old(metadataCache))
      ensures BackupKey(configPrefix, name).Ok? && name + BACKUP_SUFFIX in old(metadataCache) ==>
        (var restored := Restored(old(metadataCache)[name + BACKUP_SUFFIX], name);
         if name !in old(metadataCache) && |old(metadataCache)| >= MAX_CACHED_CONFIGS
         then r == Err(CapacityExceeded) && metadataCache == old(metadataCache)
         else r == Ok(()) && metadataCache == old(metadataCache)[name := restored])
    {
      BackupKeyHasConfigKey(configPrefix, name);
      if BackupKey(configPrefix, name).Err? {
        return Err(InvalidKey);
      }
      var value := NewValue(PLACEHOLDER_DATA);
      // The configuration key and the length of `<name>.backup` are then
      // valid as well (BackupKeyHasConfigKey), so those checks cannot fail.
      var backupName := name + BACKUP_SUFFIX;
      if backupName in metadataCache {
        var restored := Restored(metadataCache[backupName], name);
        if name !in metadataCache && |metadataCache| >= MAX_CACHED_CONFIGS {
          return Err(CapacityExceeded);
        }
        metadataCache := metadataCache[name := restored];
      }
      return Ok(());
    }
  }

  /**
   * With the source's prefix `config:` every store that passes the size
   * check fails with `InvalidKey`, and an empty cache stays empty.
   */
  method StoreAsWrittenFails(s: ConfigStore, name: string, serialized: seq<u8>) returns (r: Result<(), StorageError>)
    requires s.Valid() && s.configPrefix == CONFIG_PREFIX_AS_WRITTEN
    modifies s
    ensures r == Err(if |serialized| > MAX_VALUE_SIZE then CorruptedData else InvalidKey)
    ensures old(s.metadataCache) == map[] ==> s.metadataCache == map[]
  {
    ConfigKeyAsWrittenAlwaysFails(name);
    r := s.StoreConfig(name, serialized);
  }

  /** With the prefix `config:` delete, backup and restore all fail with `InvalidKey` and change nothing. */
  method KeyedUpdatesAsWrittenFail(s: ConfigStore, name: string) returns (deleted: Result<(), StorageError>,
      backedUp: Result<(), StorageError>, restored: Result<(), StorageError>)
    requires s.Valid() && s.configPrefix == CONFIG_PREFIX_AS_WRITTEN
    modifies s
    ensures deleted == Err(InvalidKey) && backedUp == Err(InvalidKey) && restored == Err(InvalidKey)
    ensures s.metadataCache == old(s.metadataCache)
  {
    ConfigKeyAsWrittenAlwaysFails(name);
    deleted := s.DeleteConfig(name);
    backedUp := s.BackupConfig(name);
    restored := s.RestoreConfig(name);
  }

  /** With the prefix `config:` no retrieve succeeds, and an uncached name is `InvalidKey`, never `Ok(false)`. */
  lemma LookupsAsWritten(s: ConfigStore, name: string)
    requires s.configPrefix == CONFIG_PREFIX_AS_WRITTEN
    ensures s.RetrieveConfig(name).Err?
    ensures name !in s.metadataCache ==> s.ConfigExists(name) == Err(InvalidKey)
  {
    ConfigKeyAsWrittenAlwaysFails(name);
  }

  /** A stored configuration then exists, and listing shows it. */
  method StoreThenExists(s: ConfigStore, name: string, serialized: seq<u8>) returns (r: Result<(), StorageError>)
    requires s.Valid()
    modifies s
    ensures s.Valid()
    ensures r.Ok? ==> s.ConfigExists(name) == Ok(true) && s.metadataCache[name].checksum == Checksum(serialized)
  {
    r := s.StoreConfig(name, serialized);
    if r.Ok? {
      BackupKeyHasConfigKey(s.configPrefix, name);
      assert s.metadataCache[name].name == name;
    }
  }
}
