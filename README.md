# ESP32-C3 IoT firmware workspace, modelled in Dafny

This project models the sequential logic of a firmware workspace for an ESP32-C3 sensor node. The node reads a BME280 sensor, publishes over MQTT, offers a serial console and keeps its configuration in flash. The workspace also holds a Python script that builds and checks every crate. The model covers the bookkeeping, codecs and validators of that workspace, not its drivers or its networking. Each source file of the core is one Dafny module:

| module | file | models |
|---|---|---|
| `BuildTest` | build_test.dfy | the build-test orchestrator: command plans, warning scan, counters, the final verdict |
| `StorageTraits` | storage_traits.dfy | storage keys and values, capacity, statistics, key sanitising, the checksum, byte formatting |
| `StorageAtomic` | storage_atomic.dfy | the transaction table: begin, commit, rollback, per-key conflicts, transactional store/retrieve/delete |
| `WearLeveling` | wear_leveling.dfy | per-sector erase counts, bad sectors, wear-levelling candidates, lifetime and average wear |
| `FlashStorage` | flash_storage.dfy | the flash region table, key map, store/delete/exists, capacity, garbage collection, wear and bad blocks |
| `StorageCrate` | storage_crate.dfy | the storage health score, fragmentation and wear; the in-memory mock backend; bounded error strings |
| `ConfigStore` | config_store.dfy | configuration entries, their storage keys under the prefix the source sets and under the corrected one, and the metadata cache |
| `Esp32c3Utils` | esp32c3_utils.dfy | address alignment, buffer rounding, the flash region check, the partition table, the lifetime estimate |
| `MainApp` | wifi_credentials.dfy | the WiFi credential setters, the 256-byte flash record and the console line editor of the main application |
| `ConfigFlash` | config_flash.dfy | the framed configuration record (magic, version, length, XOR checksum), the flash image, the persistence manager and its mock storage |
| `ConfigValidation` | config_validation.dfy | the validation report and the rules of every configuration section, IP and MQTT topic checks |
| `IotError` | iot_error.dfy | error codes and categories, the context chain, bounded messages, conversions from driver errors |
| `StandardTiming` | standard_timing.dfy | the standard timing configuration, its cycle conversions and validation, and the cycle-counting manager |
| `MqttWire` | mqtt_wire.dfy | the MQTT 3.1.1 encodings (remaining length, CONNECT, PUBLISH) with decoders, as the reference for both clients |
| `MqttNodeps` | mqtt_nodeps.dfy | the packet builders of the dependency-free application |
| `MqttEmbassy` | mqtt_embassy.dfy | the packet builders, CONNACK check, default broker address and topic names of the async MQTT client |
| `HttpClient` | http_client.dfy | building an HTTP/1.1 request and parsing a response (RFC 7230 section 3) |
| `ConsoleCommands` | console_commands.dfy | the serial console's command parser, its command execution and the system status update |
| `HalConfig` | hal_config.dfy | the hardware configuration: range checks, the pin conflict check, presets |
| `Bme280` | bme280.dfy | the integer temperature and pressure compensation (section 4.2.3 of the Bosch BME280 datasheet) |
| `PerfTiming` | perf_timing.dfy | the integer square root, bounded timing windows and their statistics, the cycle timer |
| `Regression` | regression.dfy | regression severities, the overall verdict, the bounded history and its trend |
| `TestMocks` | test_mocks.dfy | the I2C, UART and MQTT mocks used by the tests |
| `Text`, `Ints`, `Wrappers` | text.dfy, wrappers.dfy | shared helpers: decimal text, split/trim/words, ASCII case; fixed-width integers and wrapping; `Option`/`Result` |

Source code that changes state step by step is modelled as classes and methods with loops. Code that only computes a value is modelled as functions. Each method is proved against a specification function, and the properties the source promises are proved as lemmas about those functions. Integer widths (`u8`, `u16`, `u32`, `usize` of 32 bits, `u64`, `i32`, `i64`) are subset types, and wrap-around is written out where the model states it; the places where a source computation can overflow and the model does not follow it are listed under "## Left out".

## Model

| member | source | states |
|---|---|---|
| BuildTest.StripIsTrimmedInfix | workspace/build_test_all.py:229 | `str.strip()` yields an infix of the line outside which there is only whitespace, and the result neither starts nor ends with whitespace |
| BuildTest.SplitJoin | workspace/build_test_all.py:225 | splitting on `'\n'` and joining the pieces with `"\n"` gives back the original text |
| BuildTest.WarningPositionsExact | workspace/build_test_all.py:225-230 | line i is collected iff its lower-case form contains one of the six markers (`warning:`, `unused`, `dead_code`, `deprecated`, `unreachable_code`, `non_snake_case`) |
| BuildTest.WarningLinesExact | workspace/build_test_all.py:211-232 | the warnings are one stripped line per matching line, in line order, each line at most once, and never more warnings than lines |
| BuildTest.DetectWarnings | workspace/build_test_all.py:211-232 | the loop over lines and markers returns exactly the warning lines of `stdout + "\n" + stderr` |
| BuildTest.DetectedWarningsBound | workspace/build_test_all.py:226-230 | every returned warning is the stripped form of some input line, and there are no more warnings than lines |
| BuildTest.RunCommand | workspace/build_test_all.py:120-141 | success iff the process exited with code 0; stripped output on exit; a timeout gives `"Command timed out after 5 minutes"`; an exception gives `"Command failed: " + message` |
| BuildTest.WorkspaceCmdLayout | workspace/build_test_all.py:159-171 | the workspace command is `cargo build`, then `--example E` when an example is given or `-p M` otherwise, then `--features F` when features are given, then `--release` |
| BuildTest.PassedPlusFailed | workspace/build_test_all.py:246-260 | every record is counted as passed or as failed, never both, so passed + failed equals the number of records |
| BuildTest.NoFailedIffAllSucceeded | workspace/build_test_all.py:373-386 | the failed count is zero iff every recorded build succeeded |
| BuildTest.NoWarningsIffAllClean | workspace/build_test_all.py:239-241 | the warning total is zero iff no record carries a warning |
| BuildTest.CleansRecordNothing | workspace/build_test_all.py:143-157 | `cargo clean` steps add no result records |
| BuildTest.SkippedModuleRecordsNothing | workspace/build_test_all.py:281-288 | a module whose initial clean fails, or that is test-only, issues only that clean and records nothing |
| BuildTest.MainContainerSkipped | workspace/build_test_all.py:299-303 | the binary plan never contains a build of `main_container` |
| BuildTest.ExampleWorkspaceStepsAt | workspace/build_test_all.py:311-318 | the workspace example plan is a clean followed by a workspace build of example k, for each example in order |
| BuildTest.SystemConsoleUsesFullFeatures | workspace/build_test_all.py:315-317 | the `system_console` example of `serial-console-embassy` is built with `--features full` |
| BuildTest.ReportFor | workspace/build_test_all.py:339-389 | with no tests the success-rate division fails; otherwise the report succeeds iff nothing failed, and is clean iff also no warnings |
| BuildTest.BuildTester.constructor | workspace/build_test_all.py:53-118 | a fresh tester has the module registry, no results, zero counters and shows warnings |
| BuildTest.BuildTester.RecordResult | workspace/build_test_all.py:234-266 | appends exactly one record, increments the total, keeps total == passed + failed == number of records and warnings_count == the sum of the records' warning counts |
| BuildTest.BuildTester.Issue | workspace/build_test_all.py:120-141 | running a step logs it and appends the records that step produces; it reports the runner's success |
| BuildTest.BuildTester.CleanWorkspace | workspace/build_test_all.py:143-157 | issues `cargo clean`, records nothing and returns whether the clean succeeded |
| BuildTest.BuildTester.TestWorkspaceBuild | workspace/build_test_all.py:159-181 | issues one workspace build, appends exactly its record (the description `Workspace build: ` with the package and example, and the outcome of that run), and returns that build's success |
| BuildTest.BuildTester.TestModuleBuild | workspace/build_test_all.py:183-209 | a missing module directory returns false and issues and records nothing; otherwise issues one module build |
| BuildTest.BuildTester.TestBinary | workspace/build_test_all.py:300-309 | a binary other than `main_container` issues a clean and a `--bin` build; `main_container` issues nothing |
| BuildTest.BuildTester.TestBinaries | workspace/build_test_all.py:299-309 | the binary loop issues exactly the binary plan |
| BuildTest.BuildTester.TestExampleFromWorkspace | workspace/build_test_all.py:312-318 | issues a clean and the workspace build of one example with its features |
| BuildTest.BuildTester.TestExamplesFromWorkspace | workspace/build_test_all.py:311-318 | the first example loop issues exactly the workspace example plan |
| BuildTest.BuildTester.TestExampleFromModule | workspace/build_test_all.py:321-327 | issues a clean and the module build of one example |
| BuildTest.BuildTester.TestExamplesFromModule | workspace/build_test_all.py:320-327 | the second example loop issues exactly the module example plan |
| BuildTest.BuildTester.TestLibrary | workspace/build_test_all.py:290-296 | a library crate issues a workspace build, a clean and a module build |
| BuildTest.BuildTester.TestModuleTargets | workspace/build_test_all.py:290-327 | after the initial clean, a module issues its library, binary and example plans in source order |
| BuildTest.BuildTester.TestModule | workspace/build_test_all.py:277-327 | one module's session: the initial clean, then nothing when the clean fails or the module is test-only, else its targets |
| BuildTest.BuildTester.TestModules | workspace/build_test_all.py:277-327 | the module loop issues the concatenated sessions of the modules in registry order |
| BuildTest.BuildTester.TestAllModules | workspace/build_test_all.py:268-327 | issues the whole session and appends exactly the records of its non-clean steps |
| BuildTest.BuildTester.GenerateReport | workspace/build_test_all.py:329-389 | divides by zero iff there are no results; returns true iff every build succeeded; the clean verdict iff also no record has warnings |
| StorageTraits.AllKeyCharsFrom | workspace/core/iot-storage/src/traits.rs:66-70 | the character loop of `StorageKey::new` accepts iff every character is alphanumeric, `_`, `-` or `.` |
| StorageTraits.NewKey | workspace/core/iot-storage/src/traits.rs:58-75 | succeeds iff the key is non-empty, at most `MAX_KEY_LEN` long and made of allowed characters, keeping the text; otherwise `InvalidKey` |
| StorageTraits.ValidateKey | workspace/core/iot-storage/src/traits.rs:554-558 | `validate_key(k)` holds exactly when `StorageKey::new(k)` succeeds |
| StorageTraits.KeyCharsOf | workspace/core/iot-storage/src/traits.rs:562-564 | the filter keeps only allowed characters, leaves an all-allowed key unchanged, and is empty iff no character is allowed |
| StorageTraits.SanitizeKey | workspace/core/iot-storage/src/traits.rs:561-573 | the result is always a valid key; a valid key is kept; it is `"default"` when nothing survives the filter, else a prefix (the first `MAX_KEY_LEN`) of the filtered characters |
| StorageTraits.DefaultKeyValid | workspace/core/iot-storage/src/traits.rs:568-569 | the fallback `"default"` is itself a valid key |
| StorageTraits.SanitizeIdempotent | workspace/core/iot-storage/src/traits.rs:561-573 | sanitising a sanitised key changes nothing |
| StorageTraits.NewValue | workspace/core/iot-storage/src/traits.rs:116-127 | succeeds iff the data is at most 4096 bytes; the value's bytes are then exactly the input; otherwise `InvalidValue` |
| StorageTraits.StorageCapacity.UsagePercentage | workspace/core/iot-storage/src/traits.rs:192-198 | 0 when the total is 0; `used * 100 / total`, at most 100, when `used <= total` and the product fits in 32 bits |
| StorageTraits.StorageCapacity.FreePercentage | workspace/core/iot-storage/src/traits.rs:216-218 | free and used percentages add up to 100 |
| StorageTraits.PercentFits | workspace/core/iot-storage/src/traits.rs:192-198 | the `u32` product and the `as u8` cast lose nothing when `used <= total` and `used * 100` fits |
| StorageTraits.NewCapacity | workspace/core/iot-storage/src/traits.rs:180-189 | keeps total, used and sector size; available is `total` minus `used` saturating at 0; the sector count is `total / sector_size` |
| StorageTraits.CriticalIsNearlyFull | workspace/core/iot-storage/src/traits.rs:201-208 | a critically full capacity (over 95%) is also nearly full (over 90%) |
| StorageTraits.StorageCapacity.IsNearlyFull | workspace/core/iot-storage/src/traits.rs:200-203 | never with a zero total; without overflow, holds iff at least 91% of the total is used (`used * 100 >= 91 * total`) |
| StorageTraits.StorageCapacity.IsCriticallyFull | workspace/core/iot-storage/src/traits.rs:205-208 | never with a zero total; without overflow, holds iff at least 96% of the total is used |
| StorageTraits.DefaultCapacity | workspace/core/iot-storage/src/traits.rs:221-225 | the default is 64 KiB, all available, 16 sectors of 4 KiB, 0% used and 100% free |
| StorageTraits.StorageStats.TotalOperations | workspace/core/iot-storage/src/traits.rs:270-272 | reads + writes + deletes when the sum fits in 64 bits, and so at least each of them |
| StorageTraits.StorageStats.TotalFailures | workspace/core/iot-storage/src/traits.rs:275-277 | failed reads + failed writes + failed deletes when the sum fits in 64 bits |
| StorageTraits.ResetClearsCounts | workspace/core/iot-storage/src/traits.rs:308-310 | fresh or reset statistics count zero operations and zero failures |
| StorageTraits.ChecksumConcat | workspace/core/iot-storage/src/traits.rs:576-584 | the checksum fold over `a + b` continues the fold over `a` with `b` |
| StorageTraits.CalculateChecksum | workspace/core/iot-storage/src/traits.rs:576-589 | the loop computes the wrapping fold `acc = (acc + b) * 1103515245 + 12345` from 0, and `verify_checksum(d, calculate_checksum(d))` holds |
| StorageTraits.VerifyChecksum | workspace/core/iot-storage/src/traits.rs:587-589 | when it accepts a checksum, no copy of the data with one byte changed has that checksum |
| StorageTraits.ChecksumSeesEveryByte | workspace/core/iot-storage/src/traits.rs:576-584 | changing the byte at any one position changes the checksum |
| StorageTraits.ChecksumChangesWithByte | workspace/core/iot-storage/src/traits.rs:576-584 | two texts that differ in exactly one byte have different checksums |
| StorageTraits.ChecksumDetectsByteChange | workspace/core/iot-storage/src/traits.rs:576-589 | `verify_checksum` rejects every copy of the checksummed data with one byte changed, at any position: each step of the fold is a bijection of the accumulator, since 1103515245 is invertible modulo 2^32 |
| StorageTraits.DecimalLength | workspace/core/iot-storage/src/traits.rs:592-600 | a number below `10^k` prints in at most k digits |
| StorageTraits.FormatBytes | workspace/core/iot-storage/src/traits.rs:592-600 | fits in 16 characters; below 1024 it is the number with `B`, below 1 MiB the KiB count with `KB`, else the MiB count with `MB`, and the digits parse back to that count |
| StorageTraits.ScaledSize | workspace/core/iot-storage/src/traits.rs:593-598 | the printed count is the byte count, the KiB count or the MiB count by range, and stays below 10000 |
| StorageTraits.CountWithUnit | workspace/core/iot-storage/src/traits.rs:594-598 | a count below 10000 followed by its unit ends with the unit, is at most 4 digits plus the unit, and its digits parse back to the count |
| StorageAtomic.Transaction.AddOperation | workspace/core/iot-storage/src/atomic.rs:74-81 | fails with `TransactionConflict` unless the state is Active and with `CapacityExceeded` at 32 operations; succeeds iff Active with room, appending the operation and changing nothing else |
| StorageAtomic.Transaction.IsTimedOut | workspace/core/iot-storage/src/atomic.rs:83-86 | holds iff the clock reads past creation time plus timeout; a reading before the creation never times out |
| StorageAtomic.Transaction.IsTerminal | workspace/core/iot-storage/src/atomic.rs:94-96 | holds iff the state is Committed, RolledBack or Failed |
| StorageAtomic.Transaction.MarkFailed | workspace/core/iot-storage/src/atomic.rs:99-101 | the state becomes Failed, which is terminal, and the operations are kept |
| StorageAtomic.NewTransaction | workspace/core/iot-storage/src/atomic.rs:63-71 | a new transaction is Active, has no operations, is not terminal and is not timed out at time 0 |
| StorageAtomic.HoldsAfterAdd | workspace/core/iot-storage/src/atomic.rs:163-178 | after appending an operation, an Active transaction touches key k iff it already did or the new operation is on k |
| StorageAtomic.PendingLookupIsEarliestStore | workspace/core/iot-storage/src/atomic.rs:450-467 | the pending lookup gives value v iff the earliest operation on the key is a Store of v |
| StorageAtomic.LookupAfterStore | workspace/core/iot-storage/src/atomic.rs:392-467 | a store followed by a retrieve of the same key in one transaction returns the stored value when the key was not touched before, and the earlier result otherwise |
| StorageAtomic.LookupAfterDelete | workspace/core/iot-storage/src/atomic.rs:450-512 | a delete of a key left untouched before makes the transaction's retrieve give `KeyNotFound` |
| StorageAtomic.AtomicStorageManager.constructor | workspace/core/iot-storage/src/atomic.rs:120-129 | a new manager has no transactions and the id counter at 1 |
| StorageAtomic.AtomicStorageManager.NextId | workspace/core/iot-storage/src/atomic.rs:132-136 | returns the current counter and then increments it with 32-bit wrap-around, leaving the transactions alone |
| StorageAtomic.AtomicStorageManager.CleanupExpiredTransactions | workspace/core/iot-storage/src/atomic.rs:139-160 | with the clock fixed at 0 no transaction is expired, so it rolls back nothing and returns 0 |
| StorageAtomic.AtomicStorageManager.HasOperationOn | workspace/core/iot-storage/src/atomic.rs:166-175 | the inner loop finds an operation iff some operation of the transaction is on the key |
| StorageAtomic.AtomicStorageManager.CheckConflict | workspace/core/iot-storage/src/atomic.rs:163-179 | returns an id only of an Active transaction touching the key, and None iff no Active transaction touches it |
| StorageAtomic.AtomicStorageManager.ActiveTransactions | workspace/core/iot-storage/src/atomic.rs:230-242 | exactly the ids of Active transactions |
| StorageAtomic.AtomicStorageManager.ActiveIsAll | workspace/core/iot-storage/src/atomic.rs:245-390 | since only Active transactions are ever stored, the active list is every stored transaction |
| StorageAtomic.AtomicStorageManager.Begin | workspace/core/iot-storage/src/atomic.rs:245-263 | at 8 transactions it fails with `CapacityExceeded` and changes nothing; otherwise it returns the next id and inserts a fresh Active transaction under it |
| StorageAtomic.AtomicStorageManager.Commit | workspace/core/iot-storage/src/atomic.rs:265-325 | succeeds iff the id is present and Active, and then removes exactly that transaction; otherwise `TransactionConflict` and nothing changes |
| StorageAtomic.AtomicStorageManager.Rollback | workspace/core/iot-storage/src/atomic.rs:327-390 | succeeds iff the id is present and not terminal, and then removes exactly that transaction; otherwise `TransactionConflict` and nothing changes |
| StorageAtomic.AtomicStorageManager.Record | workspace/core/iot-storage/src/atomic.rs:398-432 | appends the operation iff the transaction is Active, no other Active transaction holds the key and it has room; a missing, inactive or conflicting transaction gives `TransactionConflict`, a full one `CapacityExceeded`, and on error nothing changes |
| StorageAtomic.AtomicStorageManager.RecordKeepsValid | workspace/core/iot-storage/src/atomic.rs:409-432 | a successful append keeps the number of transactions, their ids and bounds, their Active states, and the rule that no two transactions touch the same key |
| StorageAtomic.AtomicStorageManager.AtomicStore | workspace/core/iot-storage/src/atomic.rs:392-434 | records a Store of the key in the transaction exactly when `Record` allows it; a key held by another Active transaction gives `TransactionConflict` |
| StorageAtomic.AtomicStorageManager.AtomicDelete | workspace/core/iot-storage/src/atomic.rs:470-512 | records a Delete of the key exactly when `Record` allows it; a key held by another Active transaction gives `TransactionConflict` |
| StorageAtomic.AtomicStorageManager.AtomicRetrieve | workspace/core/iot-storage/src/atomic.rs:436-468 | an unknown or inactive transaction gives `TransactionConflict`; otherwise the earliest pending operation on the key decides: a Store gives its value, a Delete or no operation gives `KeyNotFound` |
| WearLeveling.CountBadUpdate | workspace/core/iot-storage/src/wear_leveling.rs:93-104 | replacing one sector changes the number of bad sectors by exactly the change in that sector's flag |
| WearLeveling.MeanLevel | workspace/core/iot-storage/src/wear_leveling.rs:206-207 | the integer mean of levels that are each at most 100 is itself at most 100 |
| WearLeveling.LifetimePercent | workspace/core/iot-storage/src/wear_leveling.rs:178-179 | at most 100; 0 once the budget is used up; `(max - cycles) * 100 / max` when that fits in 32 bits; 100 for an unused sector |
| WearLeveling.SumGoodWearBound | workspace/core/iot-storage/src/wear_leveling.rs:198-204 | the summed wear of the good sectors is at most 100 per good sector |
| WearLeveling.FirstMinUnique | workspace/core/iot-storage/src/wear_leveling.rs:160-166 | the first least-worn good sector is unique |
| WearLeveling.LeastWornPrefix | workspace/core/iot-storage/src/wear_leveling.rs:160-166 | the fold returns the first good sector with the fewest erase cycles, and None iff every sector is bad |
| WearLeveling.InsertPermutes | workspace/core/iot-storage/src/wear_leveling.rs:143-145 | inserting an index into the sorted list adds exactly that index |
| WearLeveling.InsertSorted | workspace/core/iot-storage/src/wear_leveling.rs:143-145 | inserting an index keeps the list sorted by erase cycles, equal cycles in index order (a stable sort) |
| WearLeveling.SortIndicesPermutes | workspace/core/iot-storage/src/wear_leveling.rs:139-147 | the sorted list is a permutation of `0..n` |
| WearLeveling.SortIndicesSorted | workspace/core/iot-storage/src/wear_leveling.rs:139-147 | the sorted list is ordered by erase cycles, ties kept in index order |
| WearLeveling.GoodIndices | workspace/core/iot-storage/src/wear_leveling.rs:151-157 | exactly the indices of good sectors, ascending |
| WearLeveling.WearLevelingManager.FromSectors | workspace/core/iot-storage/src/wear_leveling.rs:54-59 | builds a manager from fresh sectors with threshold 80 and no bad blocks |
| WearLeveling.WearLevelingManager.NoBadInFresh | workspace/core/iot-storage/src/wear_leveling.rs:43-58 | fresh sectors count no bad blocks |
| WearLeveling.WearLevelingManager.New | workspace/core/iot-storage/src/wear_leveling.rs:40-59 | fails with `CapacityExceeded` iff more than 64 sectors are asked for; otherwise a valid manager with `sector_count` zeroed sectors, the given budget and no bad blocks |
| WearLeveling.WearLevelingManager.CalculateWearLevel | workspace/core/iot-storage/src/wear_leveling.rs:88-90 | at most 100; when `cycles * 100` fits, it is 100 iff the budget is reached, and never more than `cycles * 100 / max` |
| WearLeveling.WearLevelingManager.MarkSectorBad | workspace/core/iot-storage/src/wear_leveling.rs:93-104 | rejects an out-of-range sector with `InvalidValue` and changes nothing; otherwise flags it bad, counting it once only if it was good |
| WearLeveling.WearLevelingManager.UpdateEraseCount | workspace/core/iot-storage/src/wear_leveling.rs:63-86 | rejects an out-of-range sector; otherwise only that sector changes: cycles + 1, wear level recomputed, last access 0, and bad once the budget is reached |
| WearLeveling.WearLevelingManager.FindWearLevelingCandidates | workspace/core/iot-storage/src/wear_leveling.rs:107-136 | returns (first most-worn, first least-worn) good sectors when their cycle difference exceeds `max / 20`; None only when no two good sectors differ by more |
| WearLeveling.WearLevelingManager.SectorsByWear | workspace/core/iot-storage/src/wear_leveling.rs:139-147 | a permutation of all sector indices, ordered by erase cycles and stable on ties |
| WearLeveling.WearLevelingManager.AvailableSectors | workspace/core/iot-storage/src/wear_leveling.rs:151-157 | exactly the good sectors, ascending |
| WearLeveling.WearLevelingManager.LeastWornSector | workspace/core/iot-storage/src/wear_leveling.rs:160-166 | the first good sector with the fewest cycles; None iff all are bad |
| WearLeveling.WearLevelingManager.CandidateIsLeastWorn | workspace/core/iot-storage/src/wear_leveling.rs:107-136 | the low candidate of the leveling pair is the sector `get_least_worn_sector` returns |
| WearLeveling.WearLevelingManager.SectorRemainingLifetime | workspace/core/iot-storage/src/wear_leveling.rs:169-181 | 0 for an out-of-range or bad sector and for a worn-out sector; else `(max - cycles) * 100 / max`, which is 100 for an unused sector |
| WearLeveling.WearLevelingManager.WearLevel | workspace/core/iot-storage/src/wear_leveling.rs:185-191 | at most 100, and 0 outside the sector range |
| WearLeveling.WearLevelingManager.AverageWearLevel | workspace/core/iot-storage/src/wear_leveling.rs:193-210 | 0 with no sectors, 100 when all are bad, else the integer mean wear of the good sectors |
| WearLeveling.WearLevelingManager.BadBlockCount | workspace/core/iot-storage/src/wear_leveling.rs:228-230 | the counter always equals the number of sectors flagged bad |
| WearLeveling.WearLevelingManager.MinLifetimePrefix | workspace/core/iot-storage/src/wear_leveling.rs:236-248 | the minimum remaining lifetime over the good sectors of a prefix, attained by one of them; None iff they are all bad |
| WearLeveling.WearLevelingManager.RemainingLifetime | workspace/core/iot-storage/src/wear_leveling.rs:236-248 | defined whenever the budget is positive or no sector is good (a zero budget with no good sector gives 0 without dividing); 0 when all sectors are bad or there are none; else the least remaining lifetime of a good sector |
| WearLeveling.WearLevelingManager.LevelWear | workspace/core/iot-storage/src/wear_leveling.rs:212-226 | always succeeds; when two good sectors differ by more than a twentieth of the budget, exactly the first most-worn and the first least-worn good sector get `last_access = 1` and every other sector is unchanged; otherwise nothing changes; the bad-block count stays |
| FlashStorage.DefaultFlashConfig | workspace/core/iot-storage/src/flash.rs:47-56 | the default config has 16 sectors, base address 0x300000, wear levelling on and a budget of 100000 erase cycles |
| FlashStorage.AddressNext | workspace/core/iot-storage/src/flash.rs:134-147 | stepping a region address by one sector (wrapping in 32 bits) gives the next address of the run |
| FlashStorage.AddressSum | workspace/core/iot-storage/src/flash.rs:125-185 | following a run of j sectors by a run of k sectors reaches the address of a run of j + k sectors |
| FlashStorage.Run | workspace/core/iot-storage/src/flash.rs:134-182 | each region-building loop gives `count` unused, never-erased regions of one sector each, at consecutive sector-size steps from its start |
| FlashStorage.ThreeRunsAreLayout | workspace/core/iot-storage/src/flash.rs:125-185 | the three runs are 2 Configuration regions, then `count - 2 - reserved` UserData regions, then `reserved` WearLeveling regions, contiguous from the base address |
| FlashStorage.FirstFit | workspace/core/iot-storage/src/flash.rs:195-202 | the first index whose region has the purpose, is not in use and is large enough; None iff there is none |
| FlashStorage.FirstAt | workspace/core/iot-storage/src/flash.rs:368-371 | the first region starting at an address; None iff there is none |
| FlashStorage.FirstZero | workspace/core/iot-storage/src/flash.rs:354-356 | the position of the first zero byte of the read buffer, or its length when there is none |
| FlashStorage.AverageWear | workspace/core/iot-storage/src/flash.rs:523-533 | at most 100; 0 with no regions or no erase cycles |
| FlashStorage.AllWornAverage | workspace/core/iot-storage/src/flash.rs:523-533 | when every region has reached the budget (and the sum does not overflow) the average wear is 100 |
| FlashStorage.SumAtLeast | workspace/core/iot-storage/src/flash.rs:527-528 | regions that all have at least `max` cycles sum to at least `max` times their number |
| FlashStorage.MaxUserPrefixIsMax | workspace/core/iot-storage/src/flash.rs:236-243 | the running maximum is the greatest UserData cycle count, held first by the index it reports (0 when no cycle count exceeds 0) |
| FlashStorage.MinUserPrefixIsMin | workspace/core/iot-storage/src/flash.rs:236-246 | the running minimum is the least UserData cycle count below `u32::MAX`, held first by the index it reports (0 when none) |
| FlashStorage.CandidatesAreExtremes | workspace/core/iot-storage/src/flash.rs:230-256 | with UserData regions present, candidates are returned iff the first most-worn and first least-worn UserData regions differ by more than `max / 10`, and they are those two regions |
| FlashStorage.NoUserDataCandidates | workspace/core/iot-storage/src/flash.rs:230-256 | without UserData regions `0 - u32::MAX` wraps to 1, so (0, 0) is returned when `max < 10` and "No wear leveling needed" otherwise |
| FlashStorage.CandidatesInRange | workspace/core/iot-storage/src/flash.rs:230-256 | returned candidates are valid region indices |
| FlashStorage.WearCheck | workspace/core/iot-storage/src/flash.rs:259-295 | the wear check changes at most one erase count of each region, by one, and on error leaves the regions as they were |
| FlashStorage.FlashStorageManager.Empty | workspace/core/iot-storage/src/flash.rs:106-115 | a manager with the config, no regions, no keys, zero statistics and threshold 80 |
| FlashStorage.FlashStorageManager.PushRegions | workspace/core/iot-storage/src/flash.rs:134-182 | a region loop succeeds iff the 16-region vector has room, appending one run and returning the address after it |
| FlashStorage.FlashStorageManager.InitializeRegions | workspace/core/iot-storage/src/flash.rs:125-185 | succeeds iff the three runs fit in 16 regions, then builds exactly the layout; otherwise "Failed to add region" |
| FlashStorage.FlashStorageManager.New | workspace/core/iot-storage/src/flash.rs:105-122 | succeeds iff the layout fits, giving a valid manager with that layout, no keys, zero statistics and threshold 80 |
| FlashStorage.FlashStorageManager.FindAvailableRegion | workspace/core/iot-storage/src/flash.rs:195-202 | the loop returns the first fitting region |
| FlashStorage.FlashStorageManager.FindWearLevelingCandidates | workspace/core/iot-storage/src/flash.rs:230-256 | the loop computes the candidate pair described by `CandidatesAreExtremes` |
| FlashStorage.FlashStorageManager.MoveRegionData | workspace/core/iot-storage/src/flash.rs:259-277 | with both indices valid, only the target's erase count grows by one; else "Invalid region indices" and nothing changes |
| FlashStorage.FlashStorageManager.CheckWearLeveling | workspace/core/iot-storage/src/flash.rs:205-227 | does nothing when wear levelling is off or the average is within the threshold, else moves data to the least-worn candidate |
| FlashStorage.FlashStorageManager.EraseSector | workspace/core/iot-storage/src/flash.rs:280-295 | an invalid index gives "Invalid region index"; otherwise the region's erase count and the global erase count each grow by one |
| FlashStorage.FlashStorageManager.Store | workspace/core/iot-storage/src/flash.rs:322-346 | with no free UserData region large enough it gives `CapacityExceeded`; otherwise counts the write, maps key to the first fitting region's start, marks that region in use and runs the wear check, whose failure gives `WearLevelingError` |
| FlashStorage.FlashStorageManager.Retrieve | workspace/core/iot-storage/src/flash.rs:348-360 | a missing key gives `KeyNotFound`; a mapped key counts a 1024-byte read and gives the bytes before the first zero of a zero-filled buffer, that is, an empty value |
| FlashStorage.FlashStorageManager.Delete | workspace/core/iot-storage/src/flash.rs:362-376 | succeeds iff the key is mapped: the key is unmapped, the region starting at its address is freed and the delete counted; a missing key gives `KeyNotFound` and nothing changes |
| FlashStorage.FlashStorageManager.Exists | workspace/core/iot-storage/src/flash.rs:378-381 | true iff the key is mapped |
| FlashStorage.FlashStorageManager.ListKeys | workspace/core/iot-storage/src/flash.rs:383-397 | exactly the mapped keys that start with the prefix (all of them without one) |
| FlashStorage.FlashStorageManager.GetCapacity | workspace/core/iot-storage/src/flash.rs:409-418 | total is the configured size; used is the number of in-use regions times the sector size; available is total minus used, saturating |
| FlashStorage.FlashStorageManager.GetStats | workspace/core/iot-storage/src/flash.rs:420-422 | returns the current statistics |
| FlashStorage.FlashStorageManager.GarbageCollect | workspace/core/iot-storage/src/flash.rs:442-461 | removes exactly the mappings whose address is not the start of an in-use region, keeps the others unchanged and returns how many it removed |
| FlashStorage.FlashStorageManager.Maintenance | workspace/core/iot-storage/src/flash.rs:399-407 | garbage-collects, then runs the wear check: the surviving keys are exactly those mapped to a live region, each keeping its address; the statistics are unchanged; the regions are those after the wear check, whose failure gives `WearLevelingError` |
| FlashStorage.FlashStorageManager.Defragment | workspace/core/iot-storage/src/flash.rs:426-440 | every region that is not in use and has erase cycles gets its count reset to 0; the sum of their sizes is returned (in 32-bit arithmetic) |
| FlashStorage.FlashStorageManager.VerifyIntegrity | workspace/core/iot-storage/src/flash.rs:463-476 | reports no corrupted keys |
| FlashStorage.FlashStorageManager.RepairData | workspace/core/iot-storage/src/flash.rs:478-488 | reports every given key as repaired |
| FlashStorage.FlashStorageManager.FragmentationLevel | workspace/core/iot-storage/src/flash.rs:490-505 | 0 with no regions; else `100 - usage` when the in-use percentage exceeds 80 and 0 otherwise, so never above 20 |
| FlashStorage.FlashStorageManager.WearLevel | workspace/core/iot-storage/src/flash.rs:513-521 | at most 100; 0 outside the region range; when `cycles * 100` fits, 100 iff the budget is reached |
| FlashStorage.FlashStorageManager.AverageWearLevel | workspace/core/iot-storage/src/flash.rs:523-533 | the capped percentage of the 32-bit average erase count over the budget |
| FlashStorage.FlashStorageManager.NeedsMaintenance | workspace/core/iot-storage/src/flash.rs:507-509 | holds iff the average wear level exceeds 70, because the fragmentation level never exceeds 20; never without regions |
| FlashStorage.FlashStorageManager.LevelWear | workspace/core/iot-storage/src/flash.rs:535-544 | always succeeds; when candidates exist, only the least-worn one's erase count grows by one |
| FlashStorage.FlashStorageManager.BadBlockCount | workspace/core/iot-storage/src/flash.rs:546-550 | the number of regions erased more often than the budget |
| FlashStorage.FlashStorageManager.MarkBadBlock | workspace/core/iot-storage/src/flash.rs:552-560 | rejects an out-of-range block with `InvalidValue`; otherwise sets its cycles to budget + 1 (which then counts as bad) and frees it |
| FlashStorage.FlashStorageManager.RemainingLifetime | workspace/core/iot-storage/src/flash.rs:562-565 | remaining lifetime and average wear add up to 100 |
| FlashStorage.WearPercentFacts | workspace/core/iot-storage/src/flash.rs:513-521 | when `cycles * 100` fits in 32 bits, the capped wear percentage is 100 iff the budget is reached |
| FlashStorage.FreshLayoutIsUnused | workspace/core/iot-storage/src/flash.rs:138-180 | a freshly laid out manager has no region in use and no erase cycles |
| FlashStorage.DefaultLayout | workspace/core/iot-storage/src/flash.rs:125-185 | the default config gives 12 UserData regions and exactly fills the 16 region slots |
| StorageCrate.BoundedString | workspace/core/iot-storage/src/lib.rs:200-210 | a message that fits is kept; a longer one is cut to its first `cap - 3` characters; the result is always a prefix of the message and fits |
| StorageCrate.ErrorString | workspace/core/iot-storage/src/lib.rs:200-210 | `create_error_string` gives a prefix of the message of at most `MAX_ERROR_LEN` characters, the whole message when it fits |
| StorageCrate.ConfigString | workspace/core/iot-storage/src/lib.rs:213-223 | `create_config_string` gives a prefix of at most `MAX_CONFIG_STRING_LEN` characters, the whole message when it fits |
| StorageCrate.BoundedStringIdempotent | workspace/core/iot-storage/src/lib.rs:200-210 | bounding an already bounded message changes nothing |
| StorageCrate.CalculateFragmentation | workspace/core/iot-storage/src/lib.rs:417-425 | 0 with no writes; otherwise `failed * 100 / total` (at most 100) when the failures do not exceed the writes and the product fits in 64 bits; never above 100 |
| StorageCrate.SharePercent | workspace/core/iot-storage/src/lib.rs:422-423 | the wrapping multiply and the cap at 100 lose nothing for a share of at most the whole |
| StorageCrate.CalculateWearLevel | workspace/core/iot-storage/src/lib.rs:428-436 | 0 with no erases; 100 at or above 100000 erases; below that `erases * 100 / 100000`, less than 100 |
| StorageCrate.NeedsMaintenance | workspace/core/iot-storage/src/lib.rs:438-441 | without overflow, holds iff at least 51% of the writes failed (`failed * 100 >= 51 * total`) or at least 81000 erase cycles were counted |
| StorageCrate.GetHealth | workspace/core/iot-storage/src/lib.rs:406-441 | the backend capacity, or the default capacity when it fails; the statistics; levels at most 100; maintenance needed iff fragmentation > 50 or wear > 80 |
| StorageCrate.HealthScoreAsWritten | workspace/core/iot-storage/src/lib.rs:461-468 | the score as computed in `u8` arithmetic, with each product wrapping modulo 256; at most 100 |
| StorageCrate.PerfectStorageScoresZero | workspace/core/iot-storage/src/lib.rs:461-468 | storage with free space and no fragmentation or wear scores 0 as written, where 100 is intended |
| StorageCrate.HealthScore | workspace/core/iot-storage/src/lib.rs:461-468 | the intended score: the integer part of `(30 * capacity + 40 * (100 - fragmentation) + 30 * (100 - wear)) / 100`, at most 100 |
| StorageCrate.HealthScoreMonotone | workspace/core/iot-storage/src/lib.rs:461-468 | more fragmentation, more wear or less capacity never raises the intended score |
| StorageCrate.Status | workspace/core/iot-storage/src/lib.rs:476-485 | the corrected `status`, grading the intended score: one of the five labels, "Excellent" iff the score is at least 90, "Critical" iff below 30; a healthy storage is "Excellent" or "Good" |
| StorageCrate.StatusAsWritten | workspace/core/iot-storage/src/lib.rs:476-485 | `status` as written, on the wrapping `u8` score: one of the five labels, "Critical" iff that score is below 30 |
| StorageCrate.PerfectStorageIsCriticalAsWritten | workspace/core/iot-storage/src/lib.rs:461-485 | as written, storage with free space and no fragmentation or wear is labelled "Critical"; with the intended score it is "Excellent" |
| StorageCrate.ValidateStorage | workspace/core/iot-storage/src/lib.rs:516-528 | the corrected validate_storage (intended score): succeeds iff the intended score exceeds 70 and no maintenance is needed; otherwise "Storage health check failed" |
| StorageCrate.IsHealthy | workspace/core/iot-storage/src/lib.rs:470-473 | on the intended score: holds iff there are free bytes, `40 * fragmentation + 30 * wear <= 2900` and no maintenance is due, so storage without free bytes is never healthy |
| StorageCrate.PerfectStorageFailsAsWritten | workspace/core/iot-storage/src/lib.rs:461-473 | with the wrapping score a perfect storage is unhealthy as written, while the intended score accepts it |
| StorageCrate.MockStorage.constructor | workspace/core/iot-storage/src/lib.rs:540-552 | an empty map, zero statistics and a 64 KiB capacity of 16 sectors of 4 KiB |
| StorageCrate.MockStorage.Store | workspace/core/iot-storage/src/lib.rs:557-565 | a key longer than the map key type gives `InvalidKey`, a new key in a full map `CapacityExceeded`; otherwise it inserts or replaces the bytes and counts one write; on error nothing changes |
| StorageCrate.MockStorage.Retrieve | workspace/core/iot-storage/src/lib.rs:567-574 | a missing key gives `KeyNotFound`; a present key counts one read and gives its bytes (or `InvalidValue` if over 4096) |
| StorageCrate.MockStorage.Delete | workspace/core/iot-storage/src/lib.rs:576-583 | succeeds iff the key is present, removing it and counting one delete; a missing key gives `KeyNotFound` |
| StorageCrate.MockStorage.Exists | workspace/core/iot-storage/src/lib.rs:585-588 | true iff the key is stored |
| StorageCrate.MockStorage.ListKeys | workspace/core/iot-storage/src/lib.rs:590-603 | exactly the stored keys that start with the prefix, all of them without one |
| StorageCrate.MockStorage.Maintenance | workspace/core/iot-storage/src/lib.rs:605-609 | zeroes the failed-write count and changes nothing else |
| StorageCrate.MockStorage.GetCapacity | workspace/core/iot-storage/src/lib.rs:611-613 | returns the fixed capacity |
| StorageCrate.MockStorage.GetStats | workspace/core/iot-storage/src/lib.rs:615-617 | returns the current statistics |
| StorageCrate.StoreThenRetrieve | workspace/core/iot-storage/src/lib.rs:557-574 | storing a value under a valid key and then retrieving it gives that value back |
| ConfigStore.NewEntry | workspace/core/iot-storage/src/config.rs:34-47 | succeeds iff the name is at most 64 characters (else `InvalidKey`), giving version 1, not a backup, the size, checksum 0 and time 0 |
| ConfigStore.UpdateEntry | workspace/core/iot-storage/src/config.rs:50-55 | increments the version and sets size and checksum, keeping name, backup flag and creation time |
| ConfigStore.AsBackup | workspace/core/iot-storage/src/config.rs:58-63 | a backup copy named `<name>.backup` (empty when that does not fit in 64 characters) with the same version, size and checksum |
| ConfigStore.Restored | workspace/core/iot-storage/src/config.rs:276-280 | a restored entry is not a backup, carries the given name, and keeps the backup's size and checksum |
| ConfigStore.RestoreUndoesBackup | workspace/core/iot-storage/src/config.rs:276-280 | restoring the backup of an entry gives the entry back with its version incremented |
| ConfigStore.ConfigKeyAsWrittenAlwaysFails | workspace/core/iot-storage/src/config.rs:100-109 | `:` is not a key character, so every config key and every backup key made with the `config:` prefix is rejected with `InvalidKey` |
| ConfigStore.ConfigKeyAccepts | workspace/core/iot-storage/src/config.rs:100-103 | with the corrected prefix `config.` a config key is accepted iff the name is made of key characters and fits after the prefix, and it is the prefix followed by the name |
| ConfigStore.BackupKeyAccepts | workspace/core/iot-storage/src/config.rs:106-109 | with the corrected prefix a backup key is accepted iff the name is made of key characters and fits with prefix and suffix |
| ConfigStore.BackupKeyHasConfigKey | workspace/core/iot-storage/src/config.rs:100-109 | for any non-empty prefix, a valid config key bounds the name by 64, and a valid backup key gives a valid config key and a `<name>.backup` of at most 64 |
| ConfigStore.ConfigStore.constructor | workspace/core/iot-storage/src/config.rs:78-89 | `ConfigStore::new` as written: an empty metadata cache and the prefix `config:` |
| ConfigStore.ConfigStore.WithKeyPrefix | workspace/core/iot-storage/src/config.rs:78-89 | the corrected store: an empty metadata cache and the key-character prefix `config.` |
| ConfigStore.ConfigStore.StoredEntry | workspace/core/iot-storage/src/config.rs:136-144 | the entry written for a name has the new size and checksum, starts at version 1 for a new name and keeps the cached name for an existing one |
| ConfigStore.ConfigStore.StoreConfig | workspace/core/iot-storage/src/config.rs:124-158 | for the store's prefix: over 4096 bytes is `CorruptedData`; an invalid config key is `InvalidKey`; a full cache without the name is `CapacityExceeded`; succeeds iff none of these, caching the updated or new entry; an existing entry is still bumped when the key check then fails. With the source's `config:` see StoreAsWrittenFails |
| ConfigStore.ConfigStore.RetrieveConfig | workspace/core/iot-storage/src/config.rs:160-188 | for the store's prefix: a name that is too long gives `InvalidKey`, an uncached name `KeyNotFound`; it succeeds iff the config key is valid and the placeholder `{}` matches the stored checksum, and then returns the placeholder bytes. With `config:` see LookupsAsWritten |
| ConfigStore.ConfigStore.DeleteConfig | workspace/core/iot-storage/src/config.rs:190-204 | for the store's prefix: succeeds iff the backup key is valid, removing the name from the cache; otherwise `InvalidKey` and nothing changes. With `config:` see KeyedUpdatesAsWrittenFail |
| ConfigStore.ConfigStore.ConfigExists | workspace/core/iot-storage/src/config.rs:206-219 | for the store's prefix: true iff the name is cached; false for an uncached name with a valid config key; `InvalidKey` otherwise. With `config:` see LookupsAsWritten |
| ConfigStore.ConfigStore.ListConfigs | workspace/core/iot-storage/src/config.rs:221-235 | exactly the names of the non-backup cached entries |
| ConfigStore.ConfigStore.BackupConfig | workspace/core/iot-storage/src/config.rs:237-258 | for the store's prefix: an invalid backup key gives `InvalidKey`; an uncached name changes nothing; otherwise caches the backup copy, or gives `CapacityExceeded` when a new slot is needed in a full cache. With `config:` see KeyedUpdatesAsWrittenFail |
| ConfigStore.ConfigStore.RestoreConfig | workspace/core/iot-storage/src/config.rs:260-287 | for the store's prefix: an invalid backup key gives `InvalidKey`; with no backup nothing changes; otherwise caches the restored entry under the name, or gives `CapacityExceeded`. With `config:` see KeyedUpdatesAsWrittenFail |
| ConfigStore.StoreThenExists | workspace/core/iot-storage/src/config.rs:124-158 | after a successful store the config exists, with the checksum of the stored data |
| ConfigStore.StoreAsWrittenFails | workspace/core/iot-storage/src/config.rs:124-158 | with the source's prefix `config:` a store is `CorruptedData` over 4096 bytes and `InvalidKey` otherwise, and an empty cache stays empty, so nothing is ever cached |
| ConfigStore.KeyedUpdatesAsWrittenFail | workspace/core/iot-storage/src/config.rs:190-287 | with `config:` delete, backup and restore are each `InvalidKey` and leave the cache unchanged |
| ConfigStore.LookupsAsWritten | workspace/core/iot-storage/src/config.rs:160-219 | with `config:` no retrieve succeeds, and `config_exists` of an uncached name is `InvalidKey`, never `Ok(false)` |
| Esp32c3Utils.LowMaskKeeps | workspace/core/iot-storage/src/esp32c3.rs:290-292 | masking a value below `2^n` with `2^n - 1` keeps it |
| Esp32c3Utils.HighMaskClears | workspace/core/iot-storage/src/esp32c3.rs:290-292 | masking with `2^n - 2^k` clears exactly the low k bits, that is, rounds down to a multiple of `2^k` |
| Esp32c3Utils.RoundDownByMask | workspace/core/iot-storage/src/esp32c3.rs:291 | `x & !(2^k - 1)` on 32 bits rounds x down to a multiple of `2^k` |
| Esp32c3Utils.AlignAddress | workspace/core/iot-storage/src/esp32c3.rs:290-292 | never above the wrapped `address + alignment - 1` |
| Esp32c3Utils.AlignAddressRoundsUp | workspace/core/iot-storage/src/esp32c3.rs:285-292 | for a power-of-two alignment without overflow, the result is aligned (`% alignment == 0`), at least the address and below `address + alignment` |
| Esp32c3Utils.IsAddressAligned | workspace/core/iot-storage/src/esp32c3.rs:285-287 | holds iff the address is a whole number of alignments (`(address / alignment) * alignment == address`) |
| Esp32c3Utils.AlignedIsFixedPoint | workspace/core/iot-storage/src/esp32c3.rs:284-292 | for a power-of-two alignment without overflow, `is_address_aligned` holds iff `align_address` leaves the address unchanged |
| Esp32c3Utils.OptimalBufferSize | workspace/core/iot-storage/src/esp32c3.rs:295-298 | without overflow, a multiple of 4 that is at least the size and less than size + 4 |
| Esp32c3Utils.OptimalBufferIsLeast | workspace/core/iot-storage/src/esp32c3.rs:295-298 | it is the least multiple of 4 that is at least the size |
| Esp32c3Utils.WrappedRegionAccepted | workspace/core/iot-storage/src/esp32c3.rs:301-308 | as written, start 0xFFFFFFFF with size 2 wraps to end 1 and is accepted although it lies beyond the 4 MB flash |
| Esp32c3Utils.ValidateFlashRegionAsWritten | workspace/core/iot-storage/src/esp32c3.rs:301-308 | the written check accepts exactly the regions whose end `start + size` is at most 0x400000 or, wrapped, lies in `[2^32, 2^32 + 0x400000]` |
| Esp32c3Utils.ValidateFlashRegionExact | workspace/core/iot-storage/src/esp32c3.rs:301-308 | the corrected check holds iff start + size is at most 0x400000; it implies the written check and agrees with it whenever the sum does not overflow |
| Esp32c3Utils.ValidateFlashRegion | workspace/core/iot-storage/src/esp32c3.rs:301-308 | the corrected check is stricter than the written one, and an accepted non-empty region starts inside the flash |
| Esp32c3Utils.RecommendedPartitions | workspace/core/iot-storage/src/esp32c3.rs:311-322 | five partitions, ascending, non-overlapping and each inside the 4 MB flash |
| Esp32c3Utils.EstimateLifetimeRemaining | workspace/core/iot-storage/src/esp32c3.rs:341-352 | 0 when the budget is used up or the daily rate is 0; otherwise the floor of the remaining cycles divided by the rate |
| MainApp.RecordFields | workspace/apps/main-app/src/main.rs:309-322 | the ssid occupies bytes 8-39, the password 40-103 and the broker IP 104-119, each followed by zero padding inside its field |
| MainApp.BuiltIsRecord | workspace/apps/main-app/src/main.rs:290-322 | a buffer filled field by field up to byte 256 is exactly the record encoding |
| MainApp.EncodeRecord | workspace/apps/main-app/src/main.rs:287-322 | 256 bytes: `CA FE`, the three lengths at 2-4, the port little-endian at 5-6, 0 at 7, and zeros from byte 120 on |
| MainApp.DecodeRecord | workspace/apps/main-app/src/main.rs:226-284 | the decoded credentials always fit their arrays and always have a broker IP |
| MainApp.LoadAfterSave | workspace/apps/main-app/src/main.rs:237-322 | loading a saved record gives the saved credentials back, except that an empty broker IP becomes `10.10.10.210` and `is_configured` becomes ssid and password non-empty |
| MainApp.LoadRejectsBadRecord | workspace/apps/main-app/src/main.rs:227-284 | bad magic or an out-of-range length loads the defaults (broker `10.10.10.210`, port 1883, unconfigured); loaded `is_configured` iff accepted with non-empty ssid and password; the port comes from bytes 5-6 only when accepted |
| MainApp.LoadIsStable | workspace/apps/main-app/src/main.rs:209-337 | saving what was loaded and loading again gives the same credentials |
| MainApp.WifiCredentials.Value | workspace/apps/main-app/src/main.rs:136-146 | the credentials held by the arrays and lengths always fit their capacities |
| MainApp.WifiCredentials.constructor | workspace/apps/main-app/src/main.rs:123-134 | zeroed ssid and password, broker `10.10.10.210` padded with zeros, port 1883, unconfigured |
| MainApp.WifiCredentials.CopyFrom | workspace/apps/main-app/src/main.rs:242-254 | `copy_from_slice` writes n source bytes at the offset and leaves every other byte as it was |
| MainApp.WifiCredentials.CopyPadded | workspace/apps/main-app/src/main.rs:150-157 | the array becomes the bytes followed by zeros |
| MainApp.WifiCredentials.SetSsid | workspace/apps/main-app/src/main.rs:148-161 | succeeds iff at most 32 bytes, then the ssid is exactly the bytes with a zeroed tail; on failure nothing changes |
| MainApp.WifiCredentials.SetPassword | workspace/apps/main-app/src/main.rs:163-176 | succeeds iff at most 64 bytes, then the password is the bytes with a zeroed tail; on failure nothing changes |
| MainApp.WifiCredentials.SetMqttBrokerIp | workspace/apps/main-app/src/main.rs:178-191 | succeeds iff at most 16 bytes, then the broker IP is the bytes with a zeroed tail; on failure nothing changes |
| MainApp.WifiCredentials.SaveRecord | workspace/apps/main-app/src/main.rs:287-322 | the buffer written to flash is the record encoding of the current credentials |
| MainApp.WifiCredentials.WriteHeader | workspace/apps/main-app/src/main.rs:292-307 | writes the magic, lengths, port and reserved byte of the record |
| MainApp.WifiCredentials.CopyField | workspace/apps/main-app/src/main.rs:309-322 | copies one field into its slot, extending the part of the buffer that matches the record |
| MainApp.WifiCredentials.Load | workspace/apps/main-app/src/main.rs:209-285 | a failed flash read is passed up; otherwise fresh credentials equal to the decoded record |
| MainApp.WifiCredentials.FromAcceptedRecord | workspace/apps/main-app/src/main.rs:237-267 | an accepted record loads as its decoding |
| MainApp.WifiCredentials.LoadSsid | workspace/apps/main-app/src/main.rs:241-244 | copies the stored ssid into the fresh credentials |
| MainApp.WifiCredentials.LoadPassword | workspace/apps/main-app/src/main.rs:247-250 | copies the stored password into the fresh credentials |
| MainApp.WifiCredentials.LoadBrokerIp | workspace/apps/main-app/src/main.rs:252-261 | copies a non-empty stored broker IP, or the default IP, into the fresh credentials |
| MainApp.WifiCredentials.WithDefaultBroker | workspace/apps/main-app/src/main.rs:275-284 | the fallback credentials are the defaults |
| MainApp.EditLine | workspace/apps/main-app/src/main.rs:652-682 | CR or LF ends the line, yielding a command iff the line is non-empty; backspace or delete drops a byte; a printable byte is appended while fewer than 127 are held; anything else changes nothing |
| MainApp.TypedLineIsKept | workspace/apps/main-app/src/main.rs:674-681 | typing printable bytes appends them and keeps the first 127 |
| MainApp.ConsoleInput.constructor | workspace/apps/main-app/src/main.rs:643-644 | a 128-byte buffer holding an empty line |
| MainApp.ConsoleInput.Receive | workspace/apps/main-app/src/main.rs:648-682 | the line and command follow the line-editing rule, and only an accepted printable byte is stored into the buffer at `input_len` |
| ConfigFlash.ChecksumConcat | workspace/core/iot-config/src/flash_integration.rs:216-218 | the XOR checksum of `a + b` is the XOR of the two checksums |
| ConfigFlash.ChecksumDetectsByteChange | workspace/core/iot-config/src/flash_integration.rs:216-218 | changing one data byte changes the checksum by the XOR of the old and new byte, so any single-byte change is detected |
| ConfigFlash.AsciiChecksum | workspace/core/iot-config/src/flash_integration.rs:216-218 | the checksum of 7-bit data is below 0x80 |
| ConfigFlash.Frame | workspace/core/iot-config/src/flash_integration.rs:92-161 | a framed payload is 8 bytes longer than the payload |
| ConfigFlash.SerializeFrame | workspace/core/iot-config/src/flash_integration.rs:92-161 | fails iff the payload is longer than `FLASH_CONFIG_SIZE - 8`; otherwise the frame `CA FE C0 DE`, version 1, little-endian length, the data and the XOR checksum byte |
| ConfigFlash.Deserialize | workspace/core/iot-config/src/flash_integration.rs:164-213 | an accepted payload plus the 8 framing bytes fits in the input |
| ConfigFlash.DeserializeAcceptsFrames | workspace/core/iot-config/src/flash_integration.rs:164-213 | deserialize gives payload p iff the input starts with the frame of p; short input, bad magic, bad version, a length beyond the input or a checksum mismatch are rejected |
| ConfigFlash.DeserializeFramePrefix | workspace/core/iot-config/src/flash_integration.rs:164-213 | any input that starts with the frame of p, whatever follows, deserializes to p |
| ConfigFlash.DeserializedIsFramed | workspace/core/iot-config/src/flash_integration.rs:164-213 | an accepted input starts with the frame of the payload it gives |
| ConfigFlash.DeserializeFrame | workspace/core/iot-config/src/flash_integration.rs:92-213 | deserializing the frame of p gives p back |
| ConfigFlash.FlashImage | workspace/core/iot-config/src/flash_integration.rs:256-260 | the flash buffer is the frame followed by 0xFF up to `FLASH_CONFIG_SIZE` |
| ConfigFlash.SaveConfig | workspace/core/iot-config/src/flash_integration.rs:251-274 | succeeds iff the payload fits, writing the frame padded with 0xFF |
| ConfigFlash.DataEnd | workspace/core/iot-config/src/flash_integration.rs:290-296 | the length up to the last byte that is not 0xFF; everything after it is 0xFF |
| ConfigFlash.ActualLength | workspace/core/iot-config/src/flash_integration.rs:290-296 | the scanned data length never exceeds the buffer |
| ConfigFlash.DataEndPadded | workspace/core/iot-config/src/flash_integration.rs:290-296 | appending 0xFF bytes does not move the data end |
| ConfigFlash.LoadConfigAsWritten | workspace/core/iot-config/src/flash_integration.rs:276-300 | as written: a read error becomes a storage error; otherwise the buffer is cut after its last non-0xFF byte and deserialized |
| ConfigFlash.LoadAsWrittenAfterSave | workspace/core/iot-config/src/flash_integration.rs:251-300 | as written, a saved payload loads back whenever its checksum byte is not 0xFF |
| ConfigFlash.ErasedChecksumIsLost | workspace/core/iot-config/src/flash_integration.rs:290-296 | the payload `[0xFF]` has checksum 0xFF, which the trimming drops, so as written it loads as "Data too short" |
| ConfigFlash.AsciiPayloadLoadsAsWritten | workspace/core/iot-config/src/flash_integration.rs:251-300 | a 7-bit payload (JSON text) always loads back as written |
| ConfigFlash.LoadConfig | workspace/core/iot-config/src/flash_integration.rs:276-300 | the corrected load deserializes the whole buffer, since the framed length already marks the data end |
| ConfigFlash.LoadAfterSave | workspace/core/iot-config/src/flash_integration.rs:251-325 | with the corrected load, every saved payload loads back, and an erased region gives "Invalid magic bytes" |
| ConfigFlash.ConfigExists | workspace/core/iot-config/src/flash_integration.rs:302-313 | a read error gives "Flash read error"; otherwise true iff the header starts with the magic bytes |
| ConfigFlash.ExistsAfterSaveAndClear | workspace/core/iot-config/src/flash_integration.rs:251-325 | a config exists after a save and not after a clear |
| ConfigFlash.NewCapacity | workspace/core/iot-config/src/flash_integration.rs:50-58 | available is total minus used, saturating at 0 |
| ConfigFlash.UsagePercentage | workspace/core/iot-config/src/flash_integration.rs:61-67 | 0 with no total; otherwise the floor of `used * 100 / total`, at most 100, when used fits and the product fits |
| ConfigFlash.NearlyFullThreshold | workspace/core/iot-config/src/flash_integration.rs:70-72 | nearly full (over 90%) iff `used * 100 >= 91 * total` |
| ConfigFlash.MockStorage.constructor | workspace/core/iot-config/src/flash_integration.rs:340-345 | no config and an unused capacity |
| ConfigFlash.MockStorage.SetConfig | workspace/core/iot-config/src/flash_integration.rs:348-352 | stores the config and marks 256 bytes used |
| ConfigFlash.MockStorage.SaveConfig | workspace/core/iot-config/src/flash_integration.rs:358-363 | always succeeds, storing the config and marking 256 bytes used |
| ConfigFlash.MockStorage.LoadConfig | workspace/core/iot-config/src/flash_integration.rs:365-371 | the stored config, or "No config found" |
| ConfigFlash.MockStorage.ConfigExists | workspace/core/iot-config/src/flash_integration.rs:373-375 | true iff a load would succeed |
| ConfigFlash.MockStorage.ClearConfig | workspace/core/iot-config/src/flash_integration.rs:377-382 | removes the config and frees the capacity |
| ConfigFlash.MockStorage.GetCapacity | workspace/core/iot-config/src/flash_integration.rs:384-386 | used and available add up to the total, and something is used iff a config is stored |
| ConfigFlash.BackupConfig | workspace/core/iot-config/src/flash_integration.rs:487-498 | succeeds iff the primary has a config, which the backup then holds; otherwise "No config found" and the backup is unchanged |
| ConfigFlash.ConfigPersistenceManager.constructor | workspace/core/iot-config/src/flash_integration.rs:398-404 | no cached config and not dirty |
| ConfigFlash.ConfigPersistenceManager.Load | workspace/core/iot-config/src/flash_integration.rs:407-418 | returns the cache when it holds a config and is not dirty; otherwise loads from storage, caching the result and clearing dirty on success |
| ConfigFlash.ConfigPersistenceManager.Save | workspace/core/iot-config/src/flash_integration.rs:421-426 | returns the backend's outcome; on success the storage holds the config, which is cached clean; on a backend error that error is returned and the cache, dirty flag and storage are unchanged |
| ConfigFlash.FailedSaveKeepsLoad | workspace/core/iot-config/src/flash_integration.rs:407-426 | after a save the backend refuses, load gives exactly what the storage held before |
| ConfigFlash.ConfigPersistenceManager.UpdateCache | workspace/core/iot-config/src/flash_integration.rs:429-432 | caches the config and sets dirty |
| ConfigFlash.ConfigPersistenceManager.Exists | workspace/core/iot-config/src/flash_integration.rs:435-437 | asks the storage |
| ConfigFlash.ConfigPersistenceManager.Clear | workspace/core/iot-config/src/flash_integration.rs:440-445 | returns the backend's outcome; on success clears storage and cache and clears dirty; on a backend error that error is returned and nothing changes |
| ConfigFlash.ConfigPersistenceManager.Reload | workspace/core/iot-config/src/flash_integration.rs:448-453 | always loads from storage, caching the result and clearing dirty on success |
| ConfigFlash.ConfigPersistenceManager.GetCapacity | workspace/core/iot-config/src/flash_integration.rs:456-458 | the storage's capacity |
| ConfigFlash.SaveUpdateLoad | workspace/core/iot-config/src/flash_integration.rs:407-432 | save, then a load returns the saved config from the clean cache; then update_cache, and the next load bypasses the dirty cache and re-reads the saved config from storage |
| ConfigValidation.NoCriticalConcat | workspace/core/iot-config/src/validation.rs:44-55 | a list of issues has no critical issue iff neither of its halves has one |
| ConfigValidation.Count | workspace/core/iot-config/src/validation.rs:57-63 | the number of issues of one severity is at most the number of issues |
| ConfigValidation.CountAppend | workspace/core/iot-config/src/validation.rs:57-63 | counting by severity distributes over concatenation |
| ConfigValidation.CountZero | workspace/core/iot-config/src/validation.rs:57-63 | the count of a severity is 0 iff no issue has that severity |
| ConfigValidation.NoCriticalThen | workspace/core/iot-config/src/validation.rs:44-55 | adding one optional finding keeps the list free of critical issues iff the list was and the finding passes |
| ConfigValidation.ValidationReport.constructor | workspace/core/iot-config/src/validation.rs:37-42 | a new report has no issues and is valid |
| ConfigValidation.ValidationReport.AddIssue | workspace/core/iot-config/src/validation.rs:44-55 | appends the issue; the report stays valid iff it was and the issue is not critical; the critical count grows by one exactly for a critical issue; validity keeps meaning "no critical issue" |
| ConfigValidation.ValidationReport.Add | workspace/core/iot-config/src/validation.rs:44-55 | appends an optional finding, keeping validity equal to "no critical issue" |
| ConfigValidation.ValidationReport.Extend | workspace/core/iot-config/src/validation.rs:81-120 | appending a sub-report's issues leaves this report valid iff both were |
| ConfigValidation.ValidationReport.CriticalCount | workspace/core/iot-config/src/validation.rs:57-59 | at most the number of issues; 0 iff no issue is critical; in a well-formed report, 0 iff the report is valid |
| ConfigValidation.ValidationReport.WarningCount | workspace/core/iot-config/src/validation.rs:61-63 | at most the number of issues; 0 iff no issue is a warning |
| ConfigValidation.ValidationReport.Summary | workspace/core/iot-config/src/validation.rs:65-68 | the summary starts with "Validation: " and ends with " total issues" |
| ConfigValidation.IpPartExact | workspace/core/iot-config/src/validation.rs:587-595 | a part is accepted iff it is a decimal number without leading zeros (or sign) whose value fits in a u8 |
| ConfigValidation.FormattedIpIsValid | workspace/core/iot-config/src/validation.rs:581-598 | every dotted quad printed from four bytes is accepted |
| ConfigValidation.ValidIpIsFormatted | workspace/core/iot-config/src/validation.rs:581-598 | every accepted address is the dotted quad of four bytes |
| ConfigValidation.ValidDottedQuad | workspace/core/iot-config/src/validation.rs:581-598 | four valid parts joined by dots are accepted |
| ConfigValidation.InvalidDottedQuad | workspace/core/iot-config/src/validation.rs:581-598 | four dot-free parts joined by dots, one of them invalid, are rejected |
| ConfigValidation.ThreeParts | workspace/core/iot-config/src/validation.rs:583-585 | an address of only three parts is rejected |
| ConfigValidation.ValidIpExample | workspace/core/iot-config/src/validation.rs:664-667 | "192.168.1.1" is accepted |
| ConfigValidation.ValidIpExampleWithZeros | workspace/core/iot-config/src/validation.rs:664-667 | "10.0.0.1" is accepted |
| ConfigValidation.OutOfRangeIpExample | workspace/core/iot-config/src/validation.rs:668 | "192.168.1.256" is rejected |
| ConfigValidation.LeadingZeroIpExample | workspace/core/iot-config/src/validation.rs:669 | "192.168.01.1" is rejected for its leading zero |
| ConfigValidation.ThreePartIpExample | workspace/core/iot-config/src/validation.rs:664-670 | "192.168.1" is rejected |
| ConfigValidation.TopicRule | workspace/core/iot-config/src/validation.rs:601-631 | critical iff the topic is empty or has a '#' but does not end with one; otherwise a warning iff it contains "//"; otherwise info iff it starts with '/' |
| ConfigValidation.InnerWildcardBeforeFinalOne | workspace/core/iot-config/src/validation.rs:609 | "a/#/#" passes the wildcard check, since only the last character is compared |
| ConfigValidation.SsidRule | workspace/core/iot-config/src/validation.rs:159-174 | a critical issue iff the SSID is empty or longer than 32 characters |
| ConfigValidation.PasswordRule | workspace/core/iot-config/src/validation.rs:176-198 | a warning iff the password is shorter than 8 characters (empty included), critical iff longer than 64, nothing otherwise |
| ConfigValidation.WiFiTimeoutRule | workspace/core/iot-config/src/validation.rs:200-215 | critical iff the timeout is 0, a warning iff above 60 seconds |
| ConfigValidation.RetryAttemptsRule | workspace/core/iot-config/src/validation.rs:217-232 | a warning iff the retry count is 0 or above 10 |
| ConfigValidation.WiFiVerdict | workspace/core/iot-config/src/validation.rs:155-235 | the WiFi issues hold no critical one iff the SSID has 1 to 32 characters, the password at most 64 and the timeout is not 0 |
| ConfigValidation.ValidateWiFi | workspace/core/iot-config/src/validation.rs:156-235 | the report lists the WiFi findings in source order and is valid iff the WiFi config is acceptable |
| ConfigValidation.BrokerIpRule | workspace/core/iot-config/src/validation.rs:242-261 | a critical issue iff the broker address is not a valid dotted quad (the empty address included) |
| ConfigValidation.BrokerPortRule | workspace/core/iot-config/src/validation.rs:263-278 | critical iff the port is 0, info iff it is none of 0, 1883 and 8883, never a warning |
| ConfigValidation.ClientIdRule | workspace/core/iot-config/src/validation.rs:280-295 | critical iff the client id is empty, a warning iff longer than 23 characters |
| ConfigValidation.SensorIntervalRule | workspace/core/iot-config/src/validation.rs:302-317 | critical iff the interval is below 1 second, a warning iff above 3600 |
| ConfigValidation.HeartbeatIntervalRule | workspace/core/iot-config/src/validation.rs:319-326 | a warning iff the heartbeat interval is below 10 seconds |
| ConfigValidation.MqttVerdict | workspace/core/iot-config/src/validation.rs:238-329 | the MQTT issues hold no critical one iff the broker address is valid, the port is not 0, the client id is not empty, all three topics are acceptable and the sensor interval is positive |
| ConfigValidation.ValidateMqtt | workspace/core/iot-config/src/validation.rs:239-329 | the report lists the MQTT findings in source order and is valid iff the MQTT config is acceptable |
| ConfigValidation.DefaultBrokerIpValid | workspace/core/iot-config/src/validation.rs:243-261 | the default broker "192.168.1.100" is a valid address |
| ConfigValidation.DefaultTopicsAcceptable | workspace/core/iot-config/src/validation.rs:297-300 | the default sensor, status and heartbeat topics pass the topic checks |
| ConfigValidation.DefaultMqttAccepted | workspace/core/iot-config/src/validation.rs:657-661 | the default MQTT config is valid |
| ConfigValidation.I2cAddressRule | workspace/core/iot-config/src/validation.rs:336-351 | critical iff the address is 0, a warning iff it is neither 0x76 nor 0x77 |
| ConfigValidation.ReadingIntervalRule | workspace/core/iot-config/src/validation.rs:353-368 | critical iff the interval is 0, a warning iff above 3600 seconds |
| ConfigValidation.Abs | workspace/core/iot-config/src/validation.rs:371 | the absolute value is non-negative and equals x or -x |
| ConfigValidation.OffsetRule | workspace/core/iot-config/src/validation.rs:370-396 | a warning iff the offset's magnitude exceeds its limit |
| ConfigValidation.SensorVerdict | workspace/core/iot-config/src/validation.rs:332-399 | the sensor issues hold no critical one iff the I2C address and the reading interval are non-zero |
| ConfigValidation.ValidateSensor | workspace/core/iot-config/src/validation.rs:333-399 | the report lists the sensor findings in source order and is valid iff the sensor config is acceptable |
| ConfigValidation.BaudRateRule | workspace/core/iot-config/src/validation.rs:406-421 | critical iff the baud rate is 0, a warning iff it is not one of the eight standard rates |
| ConfigValidation.CommandTimeoutRule | workspace/core/iot-config/src/validation.rs:423-438 | a warning iff the command timeout is below 1000 ms or above 30000 ms |
| ConfigValidation.HistorySizeRule | workspace/core/iot-config/src/validation.rs:440-455 | info iff the history size is 0, a warning iff above 50, never critical |
| ConfigValidation.ConsoleVerdict | workspace/core/iot-config/src/validation.rs:402-458 | the console issues hold no critical one iff the baud rate is not 0 |
| ConfigValidation.ValidateConsole | workspace/core/iot-config/src/validation.rs:403-458 | the report lists the console findings in source order and is valid iff the baud rate is not 0 |
| ConfigValidation.LowOffsetRule | workspace/core/iot-config/src/validation.rs:466-473 | a warning iff the flash offset is below 0x100000 |
| ConfigValidation.HighOffsetRule | workspace/core/iot-config/src/validation.rs:475-483 | a warning iff the flash offset is above 0x380000 |
| ConfigValidation.SectorAlignmentRule | workspace/core/iot-config/src/validation.rs:485-493 | a critical issue iff the flash offset is not a multiple of 4096 |
| ConfigValidation.StorageVerdict | workspace/core/iot-config/src/validation.rs:461-496 | the storage issues hold no critical one iff the offset is sector-aligned, and there are at most two of them (low and high cannot both hold) |
| ConfigValidation.ValidateStorage | workspace/core/iot-config/src/validation.rs:462-496 | the report lists the storage findings in source order and is valid iff the offset is sector-aligned |
| ConfigValidation.ValidGpioPins | workspace/core/iot-config/src/validation.rs:504 | the valid ESP32-C3 pins are exactly 0-10 and 18-21 |
| ConfigValidation.PinRule | workspace/core/iot-config/src/validation.rs:506-531 | a critical issue iff the pin is not a valid ESP32-C3 GPIO |
| ConfigValidation.I2cPinConflictRule | workspace/core/iot-config/src/validation.rs:533-541 | a critical issue iff SDA and SCL are the same pin |
| ConfigValidation.LedPinConflictRule | workspace/core/iot-config/src/validation.rs:543-550 | a warning iff the LED shares a pin with SDA or SCL |
| ConfigValidation.I2cFrequencyRule | workspace/core/iot-config/src/validation.rs:552-574 | critical iff the frequency is 0, a warning iff above 1 MHz, info iff below 1 MHz and neither 100 kHz nor 400 kHz |
| ConfigValidation.HardwareVerdict | workspace/core/iot-config/src/validation.rs:499-577 | the hardware issues hold no critical one iff the three pins are valid, SDA differs from SCL and the frequency is not 0 |
| ConfigValidation.ValidateHardware | workspace/core/iot-config/src/validation.rs:500-577 | the report lists the hardware findings in source order and is valid iff the hardware config is acceptable |
| ConfigValidation.MqttWithoutWiFiRule | workspace/core/iot-config/src/validation.rs:122-130 | a critical issue iff MQTT is enabled without WiFi |
| ConfigValidation.HeapSizeRule | workspace/core/iot-config/src/validation.rs:132-140 | a warning iff the heap is below 32 KiB |
| ConfigValidation.StackSizeRule | workspace/core/iot-config/src/validation.rs:142-149 | a warning iff a task's stack is below 2048 bytes |
| ConfigValidation.SectionsVerdict | workspace/core/iot-config/src/validation.rs:77-120 | the six sections' issues hold no critical one iff every section is acceptable |
| ConfigValidation.SystemVerdict | workspace/core/iot-config/src/validation.rs:77-152 | the whole config has no critical issue iff every section is acceptable and MQTT is not enabled without WiFi |
| ConfigValidation.ExtendWithNetworkSections | workspace/core/iot-config/src/validation.rs:80-99 | the empty report gains the WiFi, MQTT and sensor issues, in that order |
| ConfigValidation.ExtendWithDeviceSections | workspace/core/iot-config/src/validation.rs:101-120 | the report gains the console, storage and hardware issues, in that order |
| ConfigValidation.ValidateSystem | workspace/core/iot-config/src/validation.rs:77-152 | the report lists every section's issues, then the cross-component and resource findings, and is valid iff every section is acceptable and MQTT is not enabled without WiFi |
| ConfigValidation.DefaultSystemRejected | workspace/core/iot-config/src/validation.rs:673-678 | the default config is rejected (its empty SSID is critical), while its storage and console sections pass |
| ConfigValidation.NamedWiFiAccepted | workspace/core/iot-config/src/validation.rs:639-646 | the default WiFi config with a 1-32 byte SSID and an 8-64 byte password is valid |
| IotError.ErrorMessage | workspace/core/iot-common/src/error.rs:625-640 | a message of at most 64 characters is kept; a longer one becomes its first 61 characters followed by "..." (64 characters) |
| IotError.ErrorMessageIdempotent | workspace/core/iot-common/src/error.rs:625-640 | bounding a bounded message changes nothing, and a message is unchanged iff it fits |
| IotError.SensorError.ErrorCode | workspace/core/iot-common/src/error.rs:90-99 | sensor codes lie in 1001-1006 |
| IotError.NetworkError.ErrorCode | workspace/core/iot-common/src/error.rs:141-151 | network codes lie in 2001-2007 |
| IotError.HardwareError.ErrorCode | workspace/core/iot-common/src/error.rs:194-204 | hardware codes lie in 3001-3007 |
| IotError.ConfigError.ErrorCode | workspace/core/iot-common/src/error.rs:243-251 | configuration codes lie in 4001-4005 |
| IotError.SystemError.ErrorCode | workspace/core/iot-common/src/error.rs:292-302 | system codes lie in 5001-5007 |
| IotError.CodesDistinctWithinCategories | workspace/core/iot-common/src/error.rs:90-302 | within a category, two errors have the same code iff they are the same variant |
| IotError.IoTErrorKind.ErrorCode | workspace/core/iot-common/src/error.rs:399-407 | the thousands digit of the code names the category: 1 sensor, 2 network, 3 hardware, 4 configuration, 5 system |
| IotError.IoTErrorKind.Category | workspace/core/iot-common/src/error.rs:410-418 | one of the five category names |
| IotError.IoTErrorKind.Display | workspace/core/iot-common/src/error.rs:447-463 | the displayed text ends with the error's message |
| IotError.CodeDeterminesCategory | workspace/core/iot-common/src/error.rs:399-418 | equal codes give equal categories, and two errors share a category iff their codes share the thousands digit |
| IotError.AddedContext | workspace/core/iot-common/src/error.rs:42-46 | the context is pushed at the front when it fits in 64 characters and fewer than 4 contexts are held; otherwise nothing changes; the depth never exceeds 4 |
| IotError.AddedContextBounded | workspace/core/iot-common/src/error.rs:42-46 | adding a context keeps the chain at most 4 deep with every entry at most 64 characters |
| IotError.JoinContexts | workspace/core/iot-common/src/error.rs:60-68 | no context prints nothing, one context prints itself |
| IotError.ErrorContext.constructor | workspace/core/iot-common/src/error.rs:35-39 | a new context chain is empty |
| IotError.ErrorContext.AddContext | workspace/core/iot-common/src/error.rs:42-46 | the chain becomes the added-context chain of the old one, keeping the bounds |
| IotError.IoTError.WithContext | workspace/core/iot-common/src/error.rs:383-386 | keeps the kind, code and category and adds the context to the chain |
| IotError.IoTError.Display | workspace/core/iot-common/src/error.rs:447-463 | starts with the kind's text, and is exactly that text without contexts |
| IotError.NewError | workspace/core/iot-common/src/error.rs:350-380 | a new error has the given kind and an empty chain |
| IotError.ContextDepthLimit | workspace/core/iot-common/src/error.rs:42-46 | after four contexts a fifth one is dropped |
| IotError.FromWifiError | workspace/core/iot-common/src/error.rs:534-544 | a network error with the bounded message; hardware-init, configuration and DHCP failures get 2007, 2002 and 2003, every other kind 2001 |
| IotError.FromMqttError | workspace/core/iot-common/src/error.rs:552-565 | a serialization error becomes a system-initialization error, every other kind a TCP connection failure, with the bounded message |
| IotError.FromUartError | workspace/core/iot-common/src/error.rs:573-576 | a hardware UART failure, code 3003, with the bounded message |
| IotError.SensorErrorOf | workspace/core/iot-common/src/error.rs:643-655 | a sensor error with the bounded message; an unknown type name gives 1001 |
| IotError.NetworkErrorOf | workspace/core/iot-common/src/error.rs:658-671 | a network error with the bounded message; an unknown type name gives 2001 |
| IotError.ErrorNamesSelectCodes | workspace/core/iot-common/src/error.rs:643-671 | the type names select their codes (i2c_error 1002, invalid_config 1006, timeout 2005, hw_init_failed 2007), and a WiFi connection error equals a wifi_failed network error |
| IotError.FromI2cErrorKind | workspace/core/iot-common/src/error.rs:586-595 | every I2C error becomes code 1002 (sensor I2C communication) |
| IotError.FromNbError | workspace/core/iot-common/src/error.rs:604-617 | WouldBlock becomes 5003 "Operation would block", any other non-blocking error 3001 "Hardware operation failed" |
| StandardTiming.SecsToCycles | workspace/core/iot-common/src/standard_timing.rs:105-111 | when the loop delay divides a second and nothing overflows, the cycle count times the delay is exactly the interval in milliseconds |
| StandardTiming.CyclesTimesDelay | workspace/core/iot-common/src/standard_timing.rs:105-111 | `secs * (1000 / delay) * delay == secs * 1000` whenever the delay divides 1000 |
| StandardTiming.MsToCycles | workspace/core/iot-common/src/standard_timing.rs:112-114 | the offset in cycles is the floor of the milliseconds over the delay: the largest count of whole cycles that fits |
| StandardTiming.ToSyncCycles | workspace/core/iot-common/src/standard_timing.rs:105-116 | each event's interval becomes cycles per second times its seconds (wrapping at 32 bits) and each offset its milliseconds over the delay |
| StandardTiming.DefaultSyncCycles | workspace/core/iot-common/src/standard_timing.rs:314-322 | the default config gives 600, 1200 and 2400 interval cycles and 0, 100 and 200 offset cycles |
| StandardTiming.Validate | workspace/core/iot-common/src/standard_timing.rs:197-228 | accepted iff every interval, the loop delay and the async cycle are positive and sensor <= heartbeat <= status; a zero sensor interval is reported first |
| StandardTiming.ValidCyclesOrdered | workspace/core/iot-common/src/standard_timing.rs:197-228 | for a valid config whose delay is at most a second and whose cycles fit in 32 bits, the interval cycles are positive and ordered like the intervals |
| StandardTiming.DefaultValid | workspace/core/iot-common/src/standard_timing.rs:41-52 | the default config is valid, and the default with a zero sensor interval is rejected with "Sensor interval must be > 0" |
| StandardTiming.SyncEventDue | workspace/core/iot-common/src/standard_timing.rs:133-150 | due iff the cycle is positive and its remainder modulo the interval equals the offset |
| StandardTiming.SyncDueTimes | workspace/core/iot-common/src/standard_timing.rs:133-150 | a positive cycle is due iff the offset is below the interval and the cycle is a multiple of the interval plus the offset |
| StandardTiming.SyncEventPeriodic | workspace/core/iot-common/src/standard_timing.rs:133-150 | shifting a positive cycle by one interval does not change whether the event is due |
| StandardTiming.AsyncCyclesPerInterval | workspace/core/iot-common/src/standard_timing.rs:156-167 | the cycles per interval is the ceiling of the interval over the async cycle duration, when the sum does not overflow |
| StandardTiming.Quotient | workspace/core/iot-common/src/standard_timing.rs:156-167 | 32-bit division of a u32 by a positive u32 is exact |
| StandardTiming.CeilingBounds | workspace/core/iot-common/src/standard_timing.rs:156-167 | `(secs + d - 1) / d` is the least count whose product with d covers secs |
| StandardTiming.AsyncEventDue | workspace/core/iot-common/src/standard_timing.rs:154-171 | due iff the counter is positive and a multiple of the cycles per interval, so never before the first full interval |
| StandardTiming.DefaultAsyncCycles | workspace/core/iot-common/src/standard_timing.rs:154-171 | with the defaults, readings are due every 3 async cycles, heartbeats every 6 and status reports every 12 |
| StandardTiming.ForArchitecture | workspace/core/iot-common/src/standard_timing.rs:174-194 | every architecture's adjustment sets the value the default already has, so all three get the default config |
| StandardTiming.TimingManager.constructor | workspace/core/iot-common/src/standard_timing.rs:251-257 | a new manager has its architecture's config and counter 0 |
| StandardTiming.TimingManager.IncrementCycle | workspace/core/iot-common/src/standard_timing.rs:260-262 | the counter advances by one, wrapping at 2^32; nothing else changes |
| StandardTiming.TimingManager.Reset | workspace/core/iot-common/src/standard_timing.rs:294-296 | the counter returns to 0; nothing else changes |
| StandardTiming.TimingManager.IsTimeForEvent | workspace/core/iot-common/src/standard_timing.rs:265-281 | a synchronous manager follows the synchronous schedule; the others follow the asynchronous schedule with the embassy feature and never fire without it |
| StandardTiming.DefaultSyncSchedule | workspace/core/iot-common/src/standard_timing.rs:335-349 | with the defaults, a heartbeat is due at cycle 100 but not at cycle 1, and no reading is due before cycle 600, when one is |
| StandardTiming.FirstCycle | workspace/core/iot-common/src/standard_timing.rs:335-343 | a new synchronous manager stepped once reports neither a reading nor a heartbeat |
| MqttWire.Be16 | workspace/mqtt-embassy/src/mqtt_client.rs:108-122 | the two big-endian bytes of a u16 (`to_be_bytes`) read back as the same value |
| MqttWire.EncodeRemainingLength | workspace/apps/main-nodeps/src/mqtt.rs:292-300 | the standard remaining length: every byte but the last has the continuation bit, and one byte is used iff the length is below 128 |
| MqttWire.EncodedLengthBytes | workspace/apps/main-nodeps/src/mqtt.rs:292-300 | a length below 128^k takes at most k bytes |
| MqttWire.DecodeDigits | workspace/apps/main-nodeps/src/mqtt.rs:292-300 | a decoded length consumed at least one and at most the available bytes |
| MqttWire.RemainingLengthRoundTrip | workspace/apps/main-nodeps/src/mqtt.rs:292-300 | every length up to 268435455 takes at most four bytes and decodes back, whatever follows |
| MqttWire.ConnectBody | workspace/mqtt-embassy/src/mqtt_client.rs:104-122 | the CONNECT variable header and payload are 12 bytes plus the client identifier |
| MqttWire.ConnectBodyFields | workspace/mqtt-embassy/src/mqtt_client.rs:104-122 | the body holds the protocol name "MQTT" with its length, level 4, the clean-session flag, the keep-alive and the client identifier behind its length |
| MqttWire.ConnectRoundTrip | workspace/apps/main-nodeps/src/mqtt.rs:262-304 | the standard CONNECT of any client identifier up to 65535 bytes parses back to level 4, clean session, its keep-alive and the identifier |
| MqttWire.ConnectPacket | workspace/apps/main-nodeps/src/mqtt.rs:262-304 | the standard CONNECT starts with 0x10, takes 14 to 17 bytes besides the client identifier and ends with the identifier after its full 16-bit length |
| MqttWire.PublishHeader | workspace/mqtt-embassy/src/mqtt_client.rs:137-142 | packet type 3 in the high nibble, the QoS in bits 1-2 and the retain flag in bit 0 |
| MqttWire.PublishBody | workspace/apps/main-nodeps/src/mqtt.rs:314-323 | the PUBLISH body has the length of topic length, topic, optional packet identifier and payload |
| MqttWire.PublishBodyRoundTrip | workspace/apps/main-nodeps/src/mqtt.rs:314-323 | a PUBLISH body parses back to its topic, packet identifier 1 when QoS is above 0, and payload |
| MqttWire.PublishRoundTrip | workspace/apps/main-nodeps/src/mqtt.rs:307-341 | the standard PUBLISH of any topic, QoS up to 2 and payload within the length limit parses back whole |
| MqttWire.PublishPacket | workspace/apps/main-nodeps/src/mqtt.rs:307-341 | the standard PUBLISH header byte has type 3, the QoS and the RETAIN bit; the packet ends with the payload and, when the body fits the length field, takes at most 5 bytes more than the body |
| MqttNodeps.RemainingLengthAsWritten | workspace/apps/main-nodeps/src/mqtt.rs:292-300 | one byte below 128, two bytes otherwise |
| MqttNodeps.RemainingLengthAgrees | workspace/apps/main-nodeps/src/mqtt.rs:292-300 | below 16384 the one- or two-byte form is the standard encoding |
| MqttNodeps.RemainingLengthAsWrittenMisread | workspace/apps/main-nodeps/src/mqtt.rs:297-299 | a length of 16384 is written `80 80`, which a receiver does not read as 16384 in two bytes |
| MqttNodeps.ConnectBodyAsWritten | workspace/apps/main-nodeps/src/mqtt.rs:268-290 | the CONNECT body as written is 12 bytes plus the client identifier |
| MqttNodeps.ConnectPacketAsWritten | workspace/apps/main-nodeps/src/mqtt.rs:262-304 | starts with 0x10 and ends with the client identifier, after at least 14 header bytes |
| MqttNodeps.CreateMqttConnect | workspace/apps/main-nodeps/src/mqtt.rs:262-304 | building the packet field by field gives exactly the CONNECT as written |
| MqttNodeps.ConnectAgrees | workspace/apps/main-nodeps/src/mqtt.rs:262-304 | with a client identifier under 256 bytes the packet is the standard CONNECT with keep-alive 60 and parses back |
| MqttNodeps.LongClientIdRejected | workspace/apps/main-nodeps/src/mqtt.rs:288-289 | with a client identifier of 256 bytes or more (and a body under 16384) no receiver parses the packet as a CONNECT |
| MqttNodeps.PublishHeaderAsWritten | workspace/apps/main-nodeps/src/mqtt.rs:325-328 | for QoS up to 2, the standard PUBLISH header without retain |
| MqttNodeps.PublishBodyAsWritten | workspace/apps/main-nodeps/src/mqtt.rs:310-323 | the body has the standard PUBLISH body length |
| MqttNodeps.PublishPacketAsWritten | workspace/apps/main-nodeps/src/mqtt.rs:307-341 | starts with the flags byte and ends with the payload, after at least 4 header bytes plus the topic |
| MqttNodeps.CreateSimpleMqttPublish | workspace/apps/main-nodeps/src/mqtt.rs:307-341 | building the packet step by step gives exactly the PUBLISH as written |
| MqttNodeps.PublishAgrees | workspace/apps/main-nodeps/src/mqtt.rs:307-341 | for QoS up to 2 and a body under 16384 bytes the packet is the standard PUBLISH and parses back with packet identifier 1 when QoS is above 0 |
| MqttNodeps.QosFourLeaksPacketId | workspace/apps/main-nodeps/src/mqtt.rs:318-328 | a configured QoS of 4 sets no QoS bits yet writes a packet identifier, which the receiver reads as the first two payload bytes |
| MqttEmbassy.BrokerIp | workspace/mqtt-embassy/src/mqtt_client.rs:28-45 | four dot-separated parts that each parse as a u8 give that address; anything else gives 192.168.1.100 |
| MqttEmbassy.BrokerIpOfFormatted | workspace/mqtt-embassy/src/mqtt_client.rs:28-45 | a dotted quad printed from four bytes is parsed back to them |
| MqttEmbassy.ValidBrokerIpUsed | workspace/mqtt-embassy/src/mqtt_client.rs:28-45 | every address the configuration validator accepts is used as configured |
| MqttEmbassy.BrokerPort | workspace/mqtt-embassy/src/mqtt_client.rs:47-49 | a setting that parses as a u16 is the port, otherwise 1883 |
| MqttEmbassy.DefaultConfig | workspace/mqtt-embassy/src/mqtt_client.rs:27-58 | the address and port come from their settings, client id and topic prefix as set, keep-alive 60 |
| MqttEmbassy.ConnectPacketAsWritten | workspace/mqtt-embassy/src/mqtt_client.rs:97-130 | 14 bytes plus the client identifier, starting with 0x10 and the body length truncated to one byte |
| MqttEmbassy.CreateConnectPacket | workspace/mqtt-embassy/src/mqtt_client.rs:97-130 | building the packet field by field gives exactly the CONNECT as written |
| MqttEmbassy.ConnectAgrees | workspace/mqtt-embassy/src/mqtt_client.rs:97-130 | while the body is under 128 bytes the packet is the standard CONNECT and parses back with the configured keep-alive |
| MqttEmbassy.PublishHeaderAsWritten | workspace/mqtt-embassy/src/mqtt_client.rs:136-142 | for QoS up to 2, the standard PUBLISH header with the retain flag |
| MqttEmbassy.PublishPacketAsWritten | workspace/mqtt-embassy/src/mqtt_client.rs:133-164 | two header bytes plus the body, the second being the body length truncated to a byte |
| MqttEmbassy.CreatePublishPacket | workspace/mqtt-embassy/src/mqtt_client.rs:133-164 | building the packet step by step gives exactly the PUBLISH as written |
| MqttEmbassy.PublishAgrees | workspace/mqtt-embassy/src/mqtt_client.rs:133-164 | while the body is under 128 bytes the packet is the standard PUBLISH and parses back whole |
| MqttEmbassy.LongPublishRejected | workspace/mqtt-embassy/src/mqtt_client.rs:160 | a body of 128 to 255 bytes gets a length byte the receiver reads as the start of a two-byte length, and the packet is rejected |
| MqttEmbassy.ConnackAccepted | workspace/mqtt-embassy/src/mqtt_client.rs:193-198 | accepted only when at least 4 bytes arrived, the first is the CONNACK type and the fourth is return code 0 |
| MqttEmbassy.ConnackAcceptedIffReturnCodeZero | workspace/mqtt-embassy/src/mqtt_client.rs:193-198 | a CONNACK of four bytes is accepted iff its return code is 0, whatever the session-present flag |
| MqttEmbassy.PushBounded | workspace/mqtt-embassy/src/mqtt_client.rs:254-260 | a push that fits in 64 characters appends; one that does not leaves the string unchanged |
| MqttEmbassy.GetTopic | workspace/mqtt-embassy/src/mqtt_client.rs:254-260 | at most 64 characters; prefix "/" suffix when that fits; otherwise a prefix of it that keeps the whole prefix (or, for a prefix over 64, a prefix of "/" suffix) |
| HttpClient.NewRequest | workspace/supporting/modules/esp32c3-modular-wifi/src/http_client.rs:53-60 | a request with the given method, host and path and no extra headers |
| HttpClient.AddHeader | workspace/supporting/modules/esp32c3-modular-wifi/src/http_client.rs:62-65 | the header is appended after the existing ones; nothing else changes |
| HttpClient.CrlfJoin | workspace/supporting/modules/esp32c3-modular-wifi/src/http_client.rs:68-92 | lines joined by CRLF start with the first line |
| HttpClient.CrlfJoinAppend | workspace/supporting/modules/esp32c3-modular-wifi/src/http_client.rs:68-92 | joining one more line adds CRLF and that line at the end |
| HttpClient.HeaderLines | workspace/supporting/modules/esp32c3-modular-wifi/src/http_client.rs:83-86 | one "name: value" line per header, in order |
| HttpClient.RequestLinesShape | workspace/supporting/modules/esp32c3-modular-wifi/src/http_client.rs:68-92 | the request has the request line, Host, User-Agent and "Connection: close" lines, then one line per extra header |
| HttpClient.RequestHead | workspace/supporting/modules/esp32c3-modular-wifi/src/http_client.rs:71-80 | the first four lines, each ending in CRLF, are the request line, Host, User-Agent and Connection lines |
| HttpClient.PushHeader | workspace/supporting/modules/esp32c3-modular-wifi/src/http_client.rs:83-86 | pushing one extra header line extends the request by exactly the next line |
| HttpClient.RequestTail | workspace/supporting/modules/esp32c3-modular-wifi/src/http_client.rs:88-89 | the final CRLF completes the request text |
| HttpClient.RequestTextStart | workspace/supporting/modules/esp32c3-modular-wifi/src/http_client.rs:71-72 | every request text starts with "METHOD path HTTP/1.1" and CRLF |
| HttpClient.BuildRequest | workspace/supporting/modules/esp32c3-modular-wifi/src/http_client.rs:68-92 | the string built push by push is the request text: the CRLF-terminated lines and a blank line |
| HttpClient.LinesOfCrlfJoin | workspace/supporting/modules/esp32c3-modular-wifi/src/http_client.rs:114 | splitting a CRLF join of clean lines into lines gives the lines back |
| HttpClient.CrlfJoinNoBlankLine | workspace/supporting/modules/esp32c3-modular-wifi/src/http_client.rs:109-110 | a CRLF join of clean lines holds no blank line, so the header end is not inside it |
| HttpClient.ReadMessageHead | workspace/supporting/modules/esp32c3-modular-wifi/src/http_client.rs:109-112 | there is a head iff the text contains a blank line (CRLF CRLF) |
| HttpClient.MessageRoundTrip | workspace/supporting/modules/esp32c3-modular-wifi/src/http_client.rs:109-114 | a message of clean lines and a body is read back as those lines and that body |
| HttpClient.ParseHeader | workspace/supporting/modules/esp32c3-modular-wifi/src/http_client.rs:127-131 | a line gives a header iff it contains a colon; the name is the trimmed text before the first colon and the value the trimmed rest (see ParsedHeaderTrimmed) |
| HttpClient.ParsedHeaderTrimmed | workspace/supporting/modules/esp32c3-modular-wifi/src/http_client.rs:127-131 | a header's name stops before the first colon, and neither name nor value starts or ends with whitespace |
| HttpClient.FilterMap | workspace/supporting/modules/esp32c3-modular-wifi/src/http_client.rs:126-133 | keeping the lines that give a header never yields more headers than lines |
| HttpClient.ParseHeaders | workspace/supporting/modules/esp32c3-modular-wifi/src/http_client.rs:126-133 | at most one header per line |
| HttpClient.TrimAfterSpace | workspace/supporting/modules/esp32c3-modular-wifi/src/http_client.rs:129-130 | trimming skips the space after the colon |
| HttpClient.HeaderLineOk | workspace/supporting/modules/esp32c3-modular-wifi/src/http_client.rs:83-86 | a clean header prints as a clean line |
| HttpClient.HeaderRoundTrip | workspace/supporting/modules/esp32c3-modular-wifi/src/http_client.rs:127-131 | a clean header's line parses back to the same name and value |
| HttpClient.HeadersRoundTrip | workspace/supporting/modules/esp32c3-modular-wifi/src/http_client.rs:126-133 | the lines of clean headers parse back to the same headers, in order |
| HttpClient.HeaderLinesOk | workspace/supporting/modules/esp32c3-modular-wifi/src/http_client.rs:83-86 | the lines of clean headers are clean |
| HttpClient.StandardHeadersClean | workspace/supporting/modules/esp32c3-modular-wifi/src/http_client.rs:74-80 | Host, User-Agent and "Connection: close" are clean headers when the host and agent are |
| HttpClient.RequestReadBack | workspace/supporting/modules/esp32c3-modular-wifi/src/http_client.rs:68-133 | a request with clean parts is read back as its lines, an empty body, and the standard plus extra headers |
| HttpClient.Parse | workspace/supporting/modules/esp32c3-modular-wifi/src/http_client.rs:106-149 | a response with no blank line is rejected as an invalid format, and only such a response |
| HttpClient.ParseAccepts | workspace/supporting/modules/esp32c3-modular-wifi/src/http_client.rs:106-149 | with a status line of three or more words whose second is a u16, the response has that code, the rest of the words joined by spaces as reason, the parsed headers and the body |
| HttpClient.ParseHeaderLines | workspace/supporting/modules/esp32c3-modular-wifi/src/http_client.rs:126-133 | the header loop collects exactly the parsed headers |
| HttpClient.ParseResponse | workspace/supporting/modules/esp32c3-modular-wifi/src/http_client.rs:106-149 | the response parser run step by step gives the result of parse |
| HttpClient.StatusLineWords | workspace/supporting/modules/esp32c3-modular-wifi/src/http_client.rs:118 | a status line's words are "HTTP/1.1", the code and the reason words |
| HttpClient.StatusLineOk | workspace/supporting/modules/esp32c3-modular-wifi/src/http_client.rs:116-118 | a status line of words is clean |
| HttpClient.ParseOfFormatted | workspace/supporting/modules/esp32c3-modular-wifi/src/http_client.rs:106-149 | a response formatted from a code, reason words, clean headers and a body parses back to exactly those |
| HttpClient.ShortStatusLineRefused | workspace/supporting/modules/esp32c3-modular-wifi/src/http_client.rs:119-121 | a status line of fewer than three words is refused |
| HttpClient.FindHeader | workspace/supporting/modules/esp32c3-modular-wifi/src/http_client.rs:152-156 | the value of the first header whose name equals the one asked for up to ASCII case; none iff no header matches |
| ConsoleCommands.Bounded | workspace/serial-console-embassy/src/commands.rs:92-151 | a heapless string push: the text when it fits the capacity, otherwise nothing |
| ConsoleCommands.CommandWord | workspace/serial-console-embassy/src/commands.rs:71-78 | the command word is lower-cased into a 32-character buffer, keeping at most 32 characters |
| ConsoleCommands.LowerCommandWord | workspace/serial-console-embassy/src/commands.rs:73-78 | the character-by-character lowering loop yields the command word |
| ConsoleCommands.CommandWordIgnoresCase | workspace/serial-console-embassy/src/commands.rs:71-78 | words equal up to ASCII case give the same command word |
| ConsoleCommands.WifiCommand | workspace/serial-console-embassy/src/commands.rs:87-110 | a wifi sub-command shows or sets the SSID or the password, within its buffer sizes |
| ConsoleCommands.MqttCommand | workspace/serial-console-embassy/src/commands.rs:111-154 | an mqtt sub-command shows or sets the broker, port, client id or prefix, or reports an invalid port number |
| ConsoleCommands.Dispatch | workspace/serial-console-embassy/src/commands.rs:79-162 | every command built fits its buffers |
| ConsoleCommands.DispatchHelp | workspace/serial-console-embassy/src/commands.rs:80 | the command is Help iff the word is "help", "h" or "?" |
| ConsoleCommands.DispatchKnown | workspace/serial-console-embassy/src/commands.rs:79-161 | a known command word does not depend on the line it came from |
| ConsoleCommands.DispatchUnknown | workspace/serial-console-embassy/src/commands.rs:155-161 | an unknown word gives Unknown holding the line, or nothing if the line exceeds 128 characters |
| ConsoleCommands.NonBlankHasWords | workspace/serial-console-embassy/src/commands.rs:65-71 | a line that is not blank has a first word |
| ConsoleCommands.LineWords | workspace/serial-console-embassy/src/commands.rs:65-70 | every word is a non-empty run of non-whitespace characters, and there are none exactly when the line is all whitespace |
| Text.IsWhitespace | workspace/serial-console-embassy/src/commands.rs:65-70 | the whitespace `trim` and `split_whitespace` skip, among ASCII characters: exactly U+0009 to U+000D and the space, as Unicode White_Space has it |
| ConsoleCommands.ParseCommand | workspace/serial-console-embassy/src/commands.rs:64-163 | every parsed command fits its buffers |
| ConsoleCommands.HelpIffBlankOrHelpWord | workspace/serial-console-embassy/src/commands.rs:66-80 | a line parses as Help iff it is blank or its first word lowers to "help", "h" or "?" |
| ConsoleCommands.ParseIgnoresCommandCase | workspace/serial-console-embassy/src/commands.rs:71-78 | two lines whose known command words differ only in case and whose arguments agree parse alike |
| ConsoleCommands.UnknownKeepsLine | workspace/serial-console-embassy/src/commands.rs:155-161 | an unknown command keeps the trimmed line (nothing if it exceeds 128 characters) |
| ConsoleCommands.WifiSubcommands | workspace/serial-console-embassy/src/commands.rs:87-110 | with fewer than two arguments or another word the config is shown; "ssid" sets the SSID (empty if over 32), "password" or "pass" sets the password |
| ConsoleCommands.MqttPortArgument | workspace/serial-console-embassy/src/commands.rs:123-135 | a port argument that parses as a u16 sets that port; otherwise, and only then, "Invalid port number" |
| ConsoleCommands.ParseOfTypedWords | workspace/serial-console-embassy/src/commands.rs:64-163 | a line of single-space-separated words dispatches on its lowered first word with the other words as arguments |
| ConsoleCommands.PortCommandRoundTrip | workspace/serial-console-embassy/src/commands.rs:123-135 | "mqtt port N" parses as setting port N for every u16 N |
| ConsoleCommands.SsidCommandRoundTrip | workspace/serial-console-embassy/src/commands.rs:90-98 | "wifi ssid S" parses as setting S for every one-word SSID of at most 32 characters |
| ConsoleCommands.DispatchMqtt | workspace/serial-console-embassy/src/commands.rs:111 | the word "mqtt" goes to the MQTT sub-commands |
| ConsoleCommands.DispatchWifi | workspace/serial-console-embassy/src/commands.rs:87 | the word "wifi" goes to the WiFi sub-commands |
| ConsoleCommands.Apply | workspace/serial-console-embassy/src/commands.rs:166-347 | executing a command never changes the system status |
| ConsoleCommands.ApplyChangesOnlyItsField | workspace/serial-console-embassy/src/commands.rs:240-297 | a setter changes exactly its own field and keeps the config within its buffers; every other command leaves the config unchanged |
| ConsoleCommands.SsidSetterKeepsOtherFields | workspace/serial-console-embassy/src/commands.rs:240-245 | setting the SSID leaves the password, the MQTT settings and the status untouched |
| ConsoleCommands.HelpTextTooLong | workspace/serial-console-embassy/src/commands.rs:170-194 | the help text is 660 characters, more than the 512 the response holds |
| ConsoleCommands.HelpResponseEmpty | workspace/serial-console-embassy/src/commands.rs:168-194 | as written, the single push of the help text fails and the Help response is empty |
| ConsoleCommands.ResponseFixedShowsHelp | workspace/serial-console-embassy/src/commands.rs:168-194 | with a buffer of 1024 characters the Help response is the whole help text and every other response is unchanged |
| ConsoleCommands.Response | workspace/serial-console-embassy/src/commands.rs:166-194 | as written, the Help response is empty |
| ConsoleCommands.ResponseFixed | workspace/serial-console-embassy/src/commands.rs:166-194 | with room for the help text, Help answers with the whole text and every other command as before |
| ConsoleCommands.OtherResponsesNonEmpty | workspace/serial-console-embassy/src/commands.rs:166-347 | every command but Help answers with some text |
| ConsoleCommands.PortResponseIgnoresPort | workspace/serial-console-embassy/src/commands.rs:278-284 | the port confirmation is the same whatever port was set (it always names 1883) |
| ConsoleCommands.ShowWifiHidesPassword | workspace/serial-console-embassy/src/commands.rs:252-269 | the WiFi display does not depend on a non-empty password's value |
| ConsoleCommands.CommandHandler.constructor | workspace/serial-console-embassy/src/commands.rs:57-61 | the console starts with the initial config |
| ConsoleCommands.CommandHandler.ExecuteCommand | workspace/serial-console-embassy/src/commands.rs:166-347 | the config becomes the command applied to the old one and the response is the command's response to the old config |
| ConsoleCommands.CommandHandler.UpdateSystemStatus | workspace/serial-console-embassy/src/commands.rs:355-367 | the four status fields are set (the IP kept only when it fits in 15 characters); WiFi and MQTT settings are untouched |
| ConsoleCommands.TypedSsidIsStored | workspace/serial-console-embassy/src/commands.rs:240-245 | typing "wifi ssid S" and executing it stores S as the SSID |
| HalConfig.I2cWithPins | workspace/core/iot-hal/src/config.rs:235-241 | the default I2C config with the given SDA and SCL pins |
| HalConfig.I2cWithFrequency | workspace/core/iot-hal/src/config.rs:254-257 | the same config with the given frequency |
| HalConfig.I2cValidate | workspace/core/iot-hal/src/config.rs:267-287 | accepted iff both pins are at most 21, the frequency is 10 kHz to 1 MHz and the timeout 1 to 10000 ms; the first failing check names the error |
| HalConfig.UartWithPins | workspace/core/iot-hal/src/config.rs:350-356 | the default UART config with the given TX and RX pins |
| HalConfig.UartWithBaudRate | workspace/core/iot-hal/src/config.rs:359-362 | the same config with the given baud rate |
| HalConfig.UsbSerialUart | workspace/core/iot-hal/src/config.rs:367-373 | the default UART config with the USB Serial/JTAG marker (both pins 255) |
| HalConfig.UartValidate | workspace/core/iot-hal/src/config.rs:376-406 | the USB Serial/JTAG marker is always accepted; otherwise accepted iff both pins are at most 21, the baud rate is 300 to 2000000, data bits 5-8 and stop bits 1-2, the first failing check naming the error |
| HalConfig.AddUserPin | workspace/core/iot-hal/src/config.rs:439-441 | the pin is appended iff fewer than 8 user pins are held; otherwise the config is unchanged and "Too many user pins" is returned |
| HalConfig.GpioValidate | workspace/core/iot-hal/src/config.rs:444-458 | accepted iff the status LED pin and every user pin are at most 21; a bad LED pin is reported first |
| HalConfig.ValidateGpio | workspace/core/iot-hal/src/config.rs:444-458 | the loop over the user pins gives the GPIO verdict |
| HalConfig.AddUserPinValid | workspace/core/iot-hal/src/config.rs:439-458 | adding a pin to a valid config with room keeps it valid iff the pin is at most 21 |
| HalConfig.WifiValidate | workspace/core/iot-hal/src/config.rs:527-544 | accepted iff the timeout is 1-300 s, the retries 1-20 and the retry delay 1-60 s; the first failing check names the error |
| HalConfig.WifiPresetsValid | workspace/core/iot-hal/src/config.rs:492-524 | the default, high-performance and power-save WiFi presets are valid |
| HalConfig.CheckedPins | workspace/core/iot-hal/src/config.rs:143-168 | the five pins checked: SDA, SCL, TX, RX and the status LED |
| HalConfig.FirstRepeat | workspace/core/iot-hal/src/config.rs:143-168 | the first position whose pin was already used, if any; none iff all five are distinct |
| HalConfig.PinConflicts | workspace/core/iot-hal/src/config.rs:143-168 | no conflict iff the five checked pins are distinct |
| HalConfig.Insert | workspace/core/iot-hal/src/config.rs:146 | a new pin is added and reported new; a used pin is reported used; a full 16-pin set fails |
| HalConfig.CheckPinConflicts | workspace/core/iot-hal/src/config.rs:143-168 | inserting the pins one by one into the set gives the conflict verdict |
| HalConfig.FirstRepeatAt | workspace/core/iot-hal/src/config.rs:143-168 | the first repeated pin is found at its position |
| HalConfig.Validate | workspace/core/iot-hal/src/config.rs:121-138 | the first failing part (I2C, then UART, then GPIO, WiFi and pin conflicts) decides the error |
| HalConfig.ValidateIff | workspace/core/iot-hal/src/config.rs:121-138 | the hardware config is accepted iff every part is in range and the five pins are distinct (or the UART is USB serial) |
| HalConfig.RepeatedPinRejected | workspace/core/iot-hal/src/config.rs:143-168 | any two of the checked pins being equal makes validation fail |
| HalConfig.New | workspace/core/iot-hal/src/config.rs:90-107 | construction succeeds iff validation does, with the config built or the validation error |
| HalConfig.DefaultValid | workspace/core/iot-hal/src/config.rs:90-107 | the default hardware config is valid and constructible |
| HalConfig.DevkitRejected | workspace/core/iot-hal/src/config.rs:174-182 | as written, the devkit preset fails with "UART RX pin conflict", since both USB serial markers are 255 |
| HalConfig.UsedPins | workspace/core/iot-hal/src/config.rs:143-168 | the pins really in use: without the UART pins for USB serial, all five otherwise |
| HalConfig.PinConflictsFixed | workspace/core/iot-hal/src/config.rs:143-168 | no conflict iff the used pins are distinct |
| HalConfig.ValidateFixed | workspace/core/iot-hal/src/config.rs:121-168 | the same verdict as validate except for USB serial, whose marker pins are not checked for conflicts |
| HalConfig.DevkitValidFixed | workspace/core/iot-hal/src/config.rs:174-182 | with the corrected check the devkit and default presets are valid |
| HalConfig.FixedStillRejectsSharedPins | workspace/core/iot-hal/src/config.rs:143-168 | the corrected check still rejects a real conflict such as SDA on the LED pin |
| Bme280.TruncDiv | workspace/supporting/modules/bme280-algorithms-test/src/lib.rs:87 | Rust's `/` on i64: the quotient times the divisor plus the remainder gives the dividend, and the remainder has the dividend's sign and is smaller than the divisor in magnitude |
| Bme280.TemperatureCenti | workspace/supporting/modules/bme280-algorithms-test/src/lib.rs:67 | the temperature in hundredths of a degree is `5 * t_fine / 256` rounded to nearest, ties up |
| Bme280.CompensateTemperature | workspace/supporting/modules/bme280-algorithms-test/src/lib.rs:60-70 | the returned temperature is `t_fine * 5 / 256` rounded to the nearest hundredth of a degree |
| Bme280.TemperatureMonotone | workspace/supporting/modules/bme280-algorithms-test/src/lib.rs:67 | a larger `t_fine` never gives a lower temperature |
| Bme280.TestTemperatures | workspace/supporting/modules/bme280-algorithms-test/src/lib.rs:60-70 | with the test calibration, raw 519888 gives 25.08 °C and `t_fine` 128422; raw 400000, 600000 and 300000 give -12.64, 50.11 and -44.36 °C |
| Bme280.TestCalibrationFitsI32 | workspace/supporting/modules/bme280-algorithms-test/src/lib.rs:61-67 | for every 20-bit raw temperature, the test calibration's intermediate products fit in i32, so the release arithmetic does not wrap |
| Bme280.CompensatePressure | workspace/supporting/modules/bme280-algorithms-test/src/lib.rs:82-84 | a zero denominator gives 0 instead of a division |
| Bme280.ZeroP1GivesZeroPressure | workspace/supporting/modules/bme280-algorithms-test/src/lib.rs:79-84 | a zero `dig_p1` makes the denominator 0 and the pressure 0 |
| Bme280.TestPressure | workspace/supporting/modules/bme280-algorithms-test/src/lib.rs:73-94 | with the test calibration, raw pressure 415148 at `t_fine` 128422 gives 25767233 (Q24.8 Pa), about 1006.5 hPa, within 950-1100 hPa |
| Bme280.TestPressureAtTestTFine | workspace/supporting/modules/bme280-algorithms-test/tests/algorithm_tests.rs:63-79 | with the test calibration and the pressure test's `t_fine` 128066, raw pressure 415148 gives 25764492 (Q24.8 Pa), about 1006.4 hPa, within 950-1100 hPa |
| PerfTiming.SquareIsProduct | workspace/iot-performance/src/timing.rs:304 | the recursive square is `d * d` |
| PerfTiming.TimesIsProduct | workspace/iot-performance/src/timing.rs:230-232 | the recursive product is `a * n` |
| PerfTiming.FloorSqrtUnique | workspace/iot-performance/src/timing.rs:11-22 | the floor square root of a value is unique |
| PerfTiming.FloorSqrtIsRoot | workspace/iot-performance/src/timing.rs:11-22 | the reference floor square root r satisfies `r * r <= v < (r + 1) * (r + 1)` |
| PerfTiming.NewtonStepAbove | workspace/iot-performance/src/timing.rs:17-20 | a Newton step from any positive guess stays above the floor square root |
| PerfTiming.NewtonExit | workspace/iot-performance/src/timing.rs:17-21 | when the next Newton guess no longer decreases, the current one is at most the square root |
| PerfTiming.IntSqrt | workspace/iot-performance/src/timing.rs:11-22 | the Newton iteration returns exactly the floor square root, for every u64 (with the overflow-free first guess) |
| PerfTiming.IntSqrtFirstGuessAsWritten | workspace/iot-performance/src/timing.rs:16 | the first guess is `(value + 1) / 2` whenever the sum does not overflow |
| PerfTiming.FirstStepDivisorAsWritten | workspace/iot-performance/src/timing.rs:16-19 | the loop is entered iff the first guess is below the value, and below `u64::MAX` the divisor of its first step is never 0 |
| PerfTiming.IntSqrtAsWrittenDividesByZero | workspace/iot-performance/src/timing.rs:16-19 | at `u64::MAX` the sum wraps, the first guess is 0, the loop is entered and its first step divides by 0 |
| PerfTiming.AllCategoriesListed | workspace/iot-performance/src/timing.rs:218-228 | the category list names every category |
| PerfTiming.PushNewest | workspace/iot-performance/src/timing.rs:178-183 | the new measurement is last, and the window keeps at most 32 |
| PerfTiming.Window | workspace/iot-performance/src/timing.rs:178-183 | the window holds at most 32 measurements |
| PerfTiming.PushNewestWindow | workspace/iot-performance/src/timing.rs:178-183 | recording into the window of a history gives the window of the history extended: the newest 32 are kept |
| PerfTiming.ReplayKeepsNewest | workspace/iot-performance/src/timing.rs:165-185 | recording a history one measurement at a time leaves exactly its newest 32 measurements |
| PerfTiming.Durations | workspace/iot-performance/src/timing.rs:283-288 | one duration per measurement, in order |
| PerfTiming.SeqMin | workspace/iot-performance/src/timing.rs:293-295 | the smallest duration, which is one of them |
| PerfTiming.SeqMax | workspace/iot-performance/src/timing.rs:293-296 | the largest duration, which is one of them |
| PerfTiming.SumBetween | workspace/iot-performance/src/timing.rs:283-297 | the sum of n durations between lo and hi lies between n*lo and n*hi |
| PerfTiming.AverageBetween | workspace/iot-performance/src/timing.rs:297 | an integer average of values between lo and hi lies between them |
| PerfTiming.StatsOrdered | workspace/iot-performance/src/timing.rs:262-332 | the count is the window size and min <= average <= max |
| PerfTiming.StatsCoverWindow | workspace/iot-performance/src/timing.rs:262-332 | every measurement lies between min and max, and the last measurement is the window's last |
| PerfTiming.StatsDeviation | workspace/iot-performance/src/timing.rs:299-312 | the standard deviation is the floor square root of the mean squared deviation from the integer average |
| PerfTiming.SumAndExtremes | workspace/iot-performance/src/timing.rs:283-297 | the collecting loop computes the sum, the minimum and the maximum of the durations |
| PerfTiming.SumSquaredDeviations | workspace/iot-performance/src/timing.rs:299-309 | the variance loop sums the squared distances from the average |
| PerfTiming.Average | workspace/iot-performance/src/timing.rs:297 | the floor of total over count |
| PerfTiming.CalculateCategoryStatistics | workspace/iot-performance/src/timing.rs:262-332 | the computed statistics are those of the window |
| PerfTiming.TimingStatistics.AverageTime | workspace/iot-performance/src/timing.rs:385-387 | present exactly for categories with statistics, giving their average |
| PerfTiming.TimingStatistics.MaxTime | workspace/iot-performance/src/timing.rs:390-392 | present exactly for categories with statistics, giving their maximum |
| PerfTiming.TimingStatistics.Count | workspace/iot-performance/src/timing.rs:395-397 | the category's count, 0 for a category without statistics |
| PerfTiming.HasPerformanceIssues | workspace/iot-performance/src/timing.rs:400-414 | true iff some category's average exceeds its threshold |
| PerfTiming.CategoryStatsOfContents | workspace/iot-performance/src/timing.rs:219-231 | statistics are kept exactly for the categories with measurements, and they are those of the window |
| PerfTiming.CategoryStatsStep | workspace/iot-performance/src/timing.rs:219-231 | each category visited adds its statistics iff it has measurements |
| PerfTiming.TotalOperationsStep | workspace/iot-performance/src/timing.rs:226 | each category visited adds its count to the total |
| PerfTiming.TotalTimeStep | workspace/iot-performance/src/timing.rs:227-229 | each category visited adds its average times its count to the total time |
| PerfTiming.TotalOperationsBound | workspace/iot-performance/src/timing.rs:165-185 | the total count is at most 32 per category |
| PerfTiming.TotalTimeBound | workspace/iot-performance/src/timing.rs:227-229 | the total time is at most the sum of each category's maximum times its count |
| PerfTiming.Aggregate | workspace/iot-performance/src/timing.rs:214-231 | the loop over the categories gives their statistics, total count and total time |
| PerfTiming.TimingData.constructor | workspace/iot-performance/src/timing.rs:156-162 | no measurements, nothing recorded, collection starting now |
| PerfTiming.TimingData.RecordMeasurementWithContext | workspace/iot-performance/src/timing.rs:188-211 | the measurement with its context joins its category's window (dropping the oldest at 32), and the total count saturates at u32::MAX |
| PerfTiming.TimingData.RecordMeasurement | workspace/iot-performance/src/timing.rs:165-185 | the same with context 0 |
| PerfTiming.TimingData.GetMeasurements | workspace/iot-performance/src/timing.rs:371-373 | the category's window, present iff something was recorded for it |
| PerfTiming.TimingData.Clear | workspace/iot-performance/src/timing.rs:376-380 | removes every measurement, resets the count and restarts collection now |
| PerfTiming.TimingData.GetStatistics | workspace/iot-performance/src/timing.rs:214-259 | per-category statistics, total count and time, their average (0 without operations) and the elapsed collection time |
| PerfTiming.CountOfRecorded | workspace/iot-performance/src/timing.rs:395-397 | the reported count of a category is the size of its window |
| PerfTiming.CycleTimer.constructor | workspace/iot-performance/src/timing.rs:424-430 | a new timer is stopped, with context 0 |
| PerfTiming.CycleTimer.WithContext | workspace/iot-performance/src/timing.rs:433-439 | a new stopped timer with the given context |
| PerfTiming.CycleTimer.Start | workspace/iot-performance/src/timing.rs:442-444 | the timer runs from now |
| PerfTiming.CycleTimer.Stop | workspace/iot-performance/src/timing.rs:447-453 | a running timer returns the time since its start and stops; a stopped one returns nothing |
| PerfTiming.CycleTimer.IsRunning | workspace/iot-performance/src/timing.rs:475-478 | holds from a `Start` until the next `Stop`: `Start` ensures it, `Stop` ends it and returns a duration exactly when it held |
| PerfTiming.CycleTimer.StopAndRecord | workspace/iot-performance/src/timing.rs:456-463 | the elapsed time, when there is one, is recorded under the timer's category and context; otherwise nothing is recorded |
| PerfTiming.StartStop | workspace/iot-performance/src/timing.rs:442-453 | a timer started and then stopped reports the time between |
| Regression.SeverityMonotone | workspace/iot-performance/src/regression.rs:587-601 | a larger magnitude of change never gives a lower severity |
| Regression.DefaultSeverityBands | workspace/iot-performance/src/regression.rs:587-601 | with the default 15% threshold: below 5% none, then minor below 7.5%, moderate below 15%, major below 30%, critical from 30% on, all by magnitude |
| Regression.DegradationSeverity | workspace/iot-performance/src/regression.rs:587-601 | the corrected severity: no regression for a change that is not an increase, the band of the change otherwise |
| Regression.TimingRecommendations | workspace/iot-performance/src/regression.rs:613-619 | review the code changes and optimise the critical path, plus review the compiler settings exactly for major and critical regressions |
| Regression.TimingEntry | workspace/iot-performance/src/regression.rs:450-482 | a result exists iff the threshold is enabled, the category has statistics and a metric; it passes iff the average is within the maximum time |
| Regression.TimingResults | workspace/iot-performance/src/regression.rs:450-497 | at most one result per enabled threshold |
| Regression.TimingRegressions | workspace/iot-performance/src/regression.rs:485-494 | at most one regression per result, each with a severity above none |
| Regression.TimingResultsStep | workspace/iot-performance/src/regression.rs:450-497 | each threshold visited adds its entry, if any |
| Regression.TimingRegressionsSnoc | workspace/iot-performance/src/regression.rs:485-494 | each result adds a regression iff its severity is above none |
| Regression.EvaluateThreshold | workspace/iot-performance/src/regression.rs:450-482 | one pass of the loop body computes the threshold's entry |
| Regression.TestTimingMetrics | workspace/iot-performance/src/regression.rs:444-497 | the loop over the thresholds produces the timing results and their regressions |
| Regression.MemoryRegressions | workspace/iot-performance/src/regression.rs:500-555 | at most one memory regression (heap), with a severity above none |
| Regression.DefaultHeapGrowthIsRegression | workspace/iot-performance/src/regression.rs:500-555 | under the default config, heap growth beyond the allowed increase is reported as at least a minor regression |
| Regression.FailedCount | workspace/iot-performance/src/regression.rs:676-704 | the number of failed metrics is 0 iff every metric passed |
| Regression.StatisticalAnalysisOf | workspace/iot-performance/src/regression.rs:676-704 | the statistical test can pass only when it is enabled and there are metrics; the sample size is the metric count then, 0 otherwise |
| Regression.DefaultStatisticalPassIff | workspace/iot-performance/src/regression.rs:676-704 | with the defaults and up to 16 metrics, the statistical test passes iff no metric failed (one failure is already above the 5% rate) |
| Regression.DetermineOverallResult | workspace/iot-performance/src/regression.rs:707-743 | inconclusive iff there are no metrics; critical fail iff a critical regression; fail iff a major one or a failed statistical test; pass iff no regression at all and the statistical test (if enabled) passed |
| Regression.MoreRegressionsNeverBetter | workspace/iot-performance/src/regression.rs:707-743 | an extra regression never improves the verdict |
| Regression.DefaultFailedMetricFails | workspace/iot-performance/src/regression.rs:676-743 | with the defaults, one failed metric makes the verdict at least Fail |
| Regression.DefaultThresholdsWellFormed | workspace/iot-performance/src/regression.rs:325-395 | the default thresholds are eight well-formed entries, four of them enabled |
| Regression.CapacitiesNeverReached | workspace/iot-performance/src/regression.rs:398-441 | a run yields at most 7 metric results and 5 regressions, within the 16 and 8 the buffers hold |
| Regression.TestResultOf | workspace/iot-performance/src/regression.rs:398-441 | the stored record carries the given time and duration, at most 7 results and 5 regressions, is inconclusive iff no metric was checked and a critical failure iff a critical regression was detected |
| Regression.AppendBoundedKeepsNewest | workspace/iot-performance/src/regression.rs:434-438 | the history keeps the newest results, dropping the oldest beyond its capacity |
| Regression.Failures | workspace/iot-performance/src/regression.rs:751-771 | at most one failure per result |
| Regression.FailuresAppend | workspace/iot-performance/src/regression.rs:751-771 | failures add up over concatenation |
| Regression.Newest | workspace/iot-performance/src/regression.rs:756 | the newest n results, in order, or all of them when fewer are stored |
| Regression.Trend | workspace/iot-performance/src/regression.rs:751-771 | none with fewer than 3 results; otherwise the failures among the last 5 decide: 3 or more worsening, 2 unstable, at most 1 stable, never improving |
| Regression.ThreeRecentFailuresWorsen | workspace/iot-performance/src/regression.rs:751-771 | three failed runs in a row make the trend worsening |
| Regression.StoringFailureNeverLowersFailures | workspace/iot-performance/src/regression.rs:751-771 | storing a failed run never lowers the recent failure count |
| Regression.StoringSuccessNeverRaisesFailures | workspace/iot-performance/src/regression.rs:751-771 | storing a successful run never raises the recent failure count |
| Regression.FasterSensorIsCritical | workspace/iot-performance/src/regression.rs:587-601 | a sensor reading at 200 µs against the 450 µs baseline passes its limit but is graded a critical regression |
| Regression.FastSensorTimingResults | workspace/iot-performance/src/regression.rs:444-497 | with only that sensor measurement, the timing results are that single critical entry |
| Regression.FasterSensorFailsTest | workspace/iot-performance/src/regression.rs:707-743 | as written, a run whose sensor got faster ends in CriticalFail |
| Regression.FasterSensorIsNoRegressionFixed | workspace/iot-performance/src/regression.rs:587-601 | with the corrected severity that change is no regression, and slowdowns are graded as before |
| Regression.RegressionTester.constructor | workspace/iot-performance/src/regression.rs:306-308 | the default config and an empty history |
| Regression.RegressionTester.WithConfig | workspace/iot-performance/src/regression.rs:311-322 | the given config and an empty history |
| Regression.RegressionTester.ExecuteRegressionTest | workspace/iot-performance/src/regression.rs:398-441 | returns the result the metrics determine and appends it to the bounded history |
| Regression.RegressionTester.AnalyzeRegressionTrends | workspace/iot-performance/src/regression.rs:751-771 | no trend with fewer than 3 stored results |
| TestMocks.SwapRemove | workspace/iot-common/src/testing.rs:160 | removing an expectation moves the last one into its slot and keeps the rest in place |
| TestMocks.SwapRemovePermutes | workspace/iot-common/src/testing.rs:160 | what remains, plus the removed expectation, is the original multiset |
| TestMocks.FirstIndex | workspace/iot-common/src/testing.rs:157-159 | the first position satisfying the predicate, or none when no element does |
| TestMocks.MemoryNeverFull | workspace/iot-common/src/testing.rs:117-124 | the 256-entry register memory always has room for a register it lacks, so storing never fails |
| TestMocks.RegisterValue | workspace/iot-common/src/testing.rs:164-174 | a read without an expectation answers the stored value, else 0x60 for the chip id register 0xD0, else 0 |
| TestMocks.MockI2c.constructor | workspace/iot-common/src/testing.rs:64-75 | no expectations, address 0x76, empty memory, no calls, error mode off with the default message |
| TestMocks.MockI2c.SetAddress | workspace/iot-common/src/testing.rs:78-80 | only the device address changes |
| TestMocks.MockI2c.ExpectReadRegister | workspace/iot-common/src/testing.rs:83-89 | the read expectation is queued while fewer than 32 are queued; otherwise the out-of-memory error and nothing changes |
| TestMocks.MockI2c.ExpectWriteRegister | workspace/iot-common/src/testing.rs:92-98 | the write expectation is queued while fewer than 32 are queued; otherwise the out-of-memory error and nothing changes |
| TestMocks.MockI2c.ExpectReadRegisters | workspace/iot-common/src/testing.rs:101-114 | data over 32 bytes is refused, a thirty-third expectation is refused, otherwise the block expectation is queued |
| TestMocks.MockI2c.SetRegister | workspace/iot-common/src/testing.rs:117-124 | the register now holds the value, and the call succeeds |
| TestMocks.MockI2c.SetErrorMode | workspace/iot-common/src/testing.rs:127-130 | only the error switch and message change |
| TestMocks.MockI2c.Verify | workspace/iot-common/src/testing.rs:138-146 | succeeds iff no expectation of any kind is left |
| TestMocks.MockI2c.ReadRegister | workspace/iot-common/src/testing.rs:149-175 | counts the call; in error mode fails; otherwise the first matching expectation is answered and removed, or memory answers |
| TestMocks.MockI2c.WriteRegister | workspace/iot-common/src/testing.rs:178-196 | counts the call; in error mode fails; otherwise a matching expectation is consumed, or the value is stored |
| TestMocks.MockI2c.ReadRegisters | workspace/iot-common/src/testing.rs:199-234 | counts the call; a matching block expectation fills as much of the buffer as it has and is removed; otherwise each byte comes from memory from the start register on |
| TestMocks.ExpectedReadAnswered | workspace/iot-common/src/testing.rs:138-175 | an expected read is answered with its value, after which verification succeeds |
| TestMocks.StoredRegisterRead | workspace/iot-common/src/testing.rs:117-124 | a stored register reads back its value and the chip id defaults to 0x60 |
| TestMocks.WrittenRegisterReadBack | workspace/iot-common/src/testing.rs:149-196 | an unexpected write is stored and read back, two calls counted |
| TestMocks.Bme280MockI2c | workspace/iot-common/src/testing.rs:717-732 | the BME280 scenario memory holds the chip id, status and the first calibration word |
| TestMocks.MockUart.constructor | workspace/iot-common/src/testing.rs:281-289 | empty buffers at position 0, error mode off with the default message |
| TestMocks.MockUart.AddInput | workspace/iot-common/src/testing.rs:292-299 | input is appended up to the 256-byte capacity, failing iff it did not all fit |
| TestMocks.MockUart.ClearOutput | workspace/iot-common/src/testing.rs:317-319 | only the output is emptied |
| TestMocks.MockUart.SetErrorMode | workspace/iot-common/src/testing.rs:322-325 | only the error switch and message change |
| TestMocks.MockUart.Read | workspace/iot-common/src/testing.rs:337-354 | copies the next unread input that fits the buffer, advances the position by that count and returns it; fails in error mode |
| TestMocks.MockUart.Write | workspace/iot-common/src/testing.rs:357-372 | appends what fits of the data to the output and returns the count; fails in error mode |
| TestMocks.UartInputReadBack | workspace/iot-common/src/testing.rs:292-354 | input added to a fresh UART is read back whole |
| TestMocks.UartReadsInOrder | workspace/iot-common/src/testing.rs:337-354 | consecutive reads return consecutive stretches of the input |
| TestMocks.MockMqttClient.constructor | workspace/iot-common/src/testing.rs:582-591 | disconnected, nothing published, no failure switch, no host, port 1883 |
| TestMocks.MockMqttClient.SetConnectionBehavior | workspace/iot-common/src/testing.rs:594-596 | only the connection failure switch changes |
| TestMocks.MockMqttClient.SetPublishBehavior | workspace/iot-common/src/testing.rs:599-601 | only the publish failure switch changes |
| TestMocks.MockMqttClient.Connect | workspace/iot-common/src/testing.rs:604-616 | fails when told to; otherwise connected with the port set and the host pushed onto the stored host |
| TestMocks.MockMqttClient.Publish | workspace/iot-common/src/testing.rs:619-643 | refused when disconnected, when told to fail or when 32 messages are stored; otherwise the message is recorded and found again |
| TestMocks.MockMqttClient.GetConnectionInfo | workspace/iot-common/src/testing.rs:663-669 | the host and port iff connected |
| TestMocks.MockMqttClient.Disconnect | workspace/iot-common/src/testing.rs:672-676 | disconnected, host and published messages cleared |
| TestMocks.SuccessfulMqttMock | workspace/iot-common/src/testing.rs:763-768 | the successful scenario: disconnected, no failure switch, port 1883 |
| TestMocks.PublishAfterDisconnect | workspace/iot-common/src/testing.rs:619-676 | after a disconnect a publish is refused; reconnecting publishes again and the message is found |

## Left out

- Process execution, timeouts, printing and argument parsing in build_test_all.py: the outcome of every cargo invocation is a function parameter `run`, and the existence of module directories is a set parameter.
- All WiFi, TCP, DHCP and MQTT socket code (publish_via_tcp and the publish_*_tcp helpers in mqtt.rs; connect, publish and the publish_* helpers and task in mqtt_client.rs; the application tasks and main loops in main.rs): network I/O and async tasks. Only the packets they send and the CONNACK check they apply are modelled.
- Hardware drivers and the ESP32-C3 flash device (the Esp32c3Storage backend methods in esp32c3.rs): foreign calls. The flash itself is modelled as the simulated byte counters the source keeps.
- The dependency-injection container, global mutex and signal state, and the async delays of the mocks (`Timer::after`): concurrency and timing, with no effect on the state.
- Floating point: the `f32` change percentages, rates and efficiency ratio in regression.rs are `real`s, so `f32` rounding is not modelled. The failure and success rates of StorageStats (traits.rs:279-304), the percentiles and trend of the timing statistics (calculate_trend, timing.rs:335-368), calculate_wear_efficiency in esp32c3.rs, compensate_humidity and the final `f32` conversions of the BME280 results are left out. The integer quantities those conversions start from are modelled.
- serde and JSON: the serialized configuration is an opaque byte sequence. estimate_config_size, validate_config and the ConfigManager defaults in config.rs (register_default, get_config_or_default, reset_to_default, store_config_with_backup and list_configs_with_metadata) work only through serde and are left out.
- The order of `list_keys` and `list_configs` results: a heapless map iterates in an order that depends on its hashing. The model states the set of names returned.
- Accessors that only read a field (`as_str`, `len`, `is_empty`, `value`, `kind`, `contexts`, `get_config`, `call_count`, `is_connected`, `get_published_messages`, `get_overall_stats`, `get_test_history`, `get_cycle_count`): in the model these are the fields themselves. The `is_*_error` tests of error.rs are the variant discriminators of the kind datatype.
- The `&str` convenience front ends of the mocks (add_input_str, write_str, get_output_str, output_contains) and the UART console scenario: they convert text to bytes. The byte operations they call are modelled.
- The WiFi mock of testing.rs and its scenarios (successful_wifi_mock, failing_wifi_mock): it stands in for network code the model leaves out.
- The storage traits in traits.rs (StorageBackend, ConfigStorage, AtomicStorage, WearLeveling, EncryptedStorage, CompressedStorage, StorageEventHandler): declarations without bodies. Their implementations are modelled where the core holds them.
- StorageValue::from_serializable and deserialize (traits.rs:135-160): they serialize through serde.
- The UnifiedStorageManager delegation and its init_* and builder helpers in lib.rs (lib.rs:239-397, 494-730): they forward to the backends and hold no logic of their own.
- The TransactionBuilder and atomic_operation in atomic.rs (atomic.rs:530-660): they chain the begin, store, delete, commit and rollback operations the model covers. execute_commit and execute_rollback run empty backend calls, and is_timed_out needs a clock.
- load_key_mappings in flash.rs and load_metadata_cache in config.rs: placeholders that return success without doing anything.
- is_flash_erased in flash_integration.rs is an unused private helper. get_capacity of the flash persistence backend is a constant report.
- to_async_durations and the `embassy_time::Duration` values in standard_timing.rs: they only copy fields into duration types.
- The test functions in the source files: their expectations appear in the model as lemmas where they concern modelled behaviour.
- StorageTraits.NewKey: a character counts as a key character only when it is ASCII alphanumeric, `_`, `-` or `.`. Rust's `char::is_alphanumeric` also accepts non-ASCII letters and digits, and the model does not.
- Text is a sequence of characters, and a length in the model counts characters. Rust's `str::len`, the capacity of a heapless `String<N>` and a slice `&s[..k]` count UTF-8 bytes, and the slice panics when `k` falls inside a multi-byte character. The two agree only for ASCII text, so each member below states its bound in characters and does not model the slicing panic:
- BuildTest.StripIsTrimmedInfix: whitespace is the ASCII whitespace of `str.isspace`; Python's `str.strip()` also strips Unicode whitespace such as U+00A0, which the model keeps.
- BuildTest.WarningPositionsExact: lower-casing maps only `A`-`Z`; Python's `str.lower()` also lowers non-ASCII letters (U+212A becomes `k`), so a line that matches a marker only after such lowering is not a warning in the model.
- StorageCrate.BoundedString: the message is cut to `cap - 3` characters; `&msg[..MAX_ERROR_LEN - 3]` (lib.rs:204) cuts bytes and panics off a character boundary.
- StorageCrate.ErrorString: the `MAX_ERROR_LEN` bound counts characters, the heapless string's bytes.
- StorageCrate.ConfigString: the `MAX_CONFIG_STRING_LEN` bound counts characters; lib.rs:217 slices bytes.
- ConfigStore.NewEntry: the 64 bound on the name counts characters; `name.len()` counts bytes.
- ConfigStore.AsBackup: the fit of `<name>.backup` in 64 counts characters; `String<64>` counts bytes.
- ConfigValidation.SsidRule: the 32 bound counts characters; `ssid.len()` (validation.rs:167) counts bytes.
- ConfigValidation.PasswordRule: the 8 and 64 bounds count characters; `password.len()` (validation.rs:184, 191) counts bytes.
- ConfigValidation.WiFiVerdict: the 32 and 64 bounds count characters, as in SsidRule and PasswordRule.
- ConfigValidation.ClientIdRule: the 23 bound counts characters; `client_id.len()` (validation.rs:288) counts bytes.
- IotError.ErrorMessage: keeps 61 characters and measures the message in characters; error.rs:628-634 measures bytes and slices `&msg[..61]`, which panics inside a multi-byte character.
- IotError.AddedContext: the 64 bound on a context counts characters; the `String<64>` context counts bytes.
- MqttEmbassy.PushBounded: the 64 capacity counts characters; `String<64>` counts bytes.
- MqttEmbassy.GetTopic: the 64 cap on the topic counts characters, as in PushBounded.
- HttpClient.Parse: takes the response as text, so the "Invalid UTF-8 response" error that `parse(data: &[u8])` returns for bytes that are not UTF-8 (http_client.rs:106-107) is not modelled.
- HttpClient.ParseResponse: the step-by-step parser also takes text and never yields the UTF-8 error.
- ConsoleCommands.Bounded: the capacity counts characters; heapless `push_str` counts bytes.
- ConsoleCommands.CommandWord: keeps 32 characters; `String<32>` (commands.rs:75) holds 32 bytes.
- ConsoleCommands.DispatchUnknown: the 128 bound on the kept line counts characters; `String<128>` counts bytes.
- ConsoleCommands.UnknownKeepsLine: the 128 bound counts characters, as in DispatchUnknown.
- ConsoleCommands.WifiSubcommands: the SSID that is over 32 and left empty is over 32 characters; `String<32>` counts bytes.
- ConsoleCommands.SsidCommandRoundTrip: "at most 32 characters" is the source's 32 bytes only for ASCII SSIDs.
- ConsoleCommands.CommandHandler.UpdateSystemStatus: the IP is kept when it fits in 15 characters; the heapless string bounds bytes.
- Text.IsWhitespace: only the ASCII whitespace characters (space, tab, LF, VT, FF, CR). Rust's `trim` and `split_whitespace` also treat Unicode White_Space as whitespace, such as U+0085, U+00A0, U+2000-U+200A and U+3000.
- HttpClient.ParseHeader: trims name and value with the ASCII `Text.IsWhitespace`, so Unicode whitespace around them is kept, where `trim` (http_client.rs:130-131) drops it.
- HttpClient.Parse: the status line is split into words at ASCII whitespace, so `"HTTP/1.1\u{00A0}200 OK"` has two words and is refused, where `split_whitespace` (http_client.rs:118) finds three and code 200.
- ConsoleCommands.LineWords: trims and splits at ASCII whitespace, so `"help\u{3000}"` parses as Unknown, where `trim` and `split_whitespace` (commands.rs:65, 70) give Help.
- ConsoleCommands.ParseCommand: inherits the ASCII whitespace of LineWords.
- TestMocks.MockMqttClient.Connect: the host push into `String<64>` (testing.rs:612) counts characters.
- TestMocks.MockMqttClient.Publish: the topic `String<64>` and payload `String<256>` capacities (testing.rs:632-633) count characters.
- Bme280.CompensateTemperature: computed in unbounded integers. The source's `i32` intermediates (lib.rs:60-69) overflow for extreme calibrations, e.g. dig_t1 = 0, dig_t2 = 32767 and a raw temperature of 2^20 - 1, where `(adc_t >> 3) * dig_t2` exceeds `i32::MAX`; the model's result is then the unbounded value. Bme280.TestCalibrationFitsI32 shows the test calibration does not overflow.
- Bme280.CompensatePressure: the `i64` pipeline (lib.rs:74-93) is computed in unbounded integers, with no bound on its intermediates.
- PerfTiming.CalculateCategoryStatistics: the `u64` sums `sum_micros` (timing.rs:285) and `variance_sum` (timing.rs:304) are unbounded; `Computable` bounds only the mean squared deviation, so a window whose sums overflow `u64` is not modelled.
- ConfigValidation.OffsetRule: the `f32` offset and its limit are `real`s, so `f32` rounding is not modelled.
- ConfigFlash.ConfigPersistenceManager: the manager holds the mock storage. The outcome of the generic backend's `save_config` and `clear_config` is the `backend` parameter of Save and Clear. A reported error is passed up and leaves the cache, the dirty flag and the storage as they were. What a backend's flash holds after a partly failed write is not modelled.
- StandardTiming.SecsToCycles, MsToCycles and ToSyncCycles: require a positive `sync_loop_delay_ms`. The source divides by it (standard_timing.rs:106, 112-114) and panics when it is 0.
- StandardTiming.SyncEventDue: requires `SyncSchedulable`, a positive delay and, past cycle 0, a positive interval in cycles. The source panics on `current_cycle % 0` (standard_timing.rs:139-147). That happens for a delay of 0 and for a delay over 1000 ms, which Validate accepts and which makes `1000 / delay` 0.
- StandardTiming.AsyncCyclesPerInterval: requires a positive `async_cycle_duration_secs`. The source divides by it (standard_timing.rs:158-166) and panics when it is 0.
- StandardTiming.AsyncEventDue: requires `AsyncSchedulable`, which excludes that division by zero. Past cycle 0 it also excludes the `% 0` of standard_timing.rs:170 for an interval of 0 cycles. TimingManager uses only the default config, which meets all these requirements.
- Regression.TestResultOf: the efficiency ratio is the `real` parameter `efficiency`. In the source it is `timing_stats.get_overall_stats().efficiency_ratio` (regression.rs:566), a float computed at timing.rs:240-250 that is not tied to PerfTiming here.
- Regression.RegressionTester.ExecuteRegressionTest: takes the efficiency ratio as a parameter, as TestResultOf does.
- WearLeveling.WearLevelingManager.CalculateWearLevel: requires a positive erase budget. The source divides by `max_erase_cycles` (wear_leveling.rs:89) and panics when it is 0, which `WearLevelingManager::new` accepts; no code in the source constructs the manager.
- WearLeveling.WearLevelingManager.UpdateEraseCount: requires a positive erase budget, because it computes the wear level of wear_leveling.rs:89, which panics on a budget of 0.
- WearLeveling.WearLevelingManager.SectorRemainingLifetime: requires a positive erase budget for a good sector in range. The source divides by it (wear_leveling.rs:180) and panics when it is 0.
- WearLeveling.WearLevelingManager.MinLifetimePrefix: requires a positive erase budget unless every sector of the prefix is bad, as SectorRemainingLifetime does (wear_leveling.rs:180).
- WearLeveling.WearLevelingManager.RemainingLifetime: requires a positive erase budget unless every sector is bad, as SectorRemainingLifetime does (wear_leveling.rs:180).
- FlashStorage.DataSectors: requires a positive sector size. The source divides `total_size / sector_size` (flash.rs:126) and panics when it is 0; the default configuration has 4096.
- FlashStorage.LaidOut: requires a positive sector size, as DataSectors does (flash.rs:126).
- FlashStorage.IsLayout: requires a positive sector size, as DataSectors does (flash.rs:126).
- FlashStorage.ThreeRunsAreLayout: requires a positive sector size, as DataSectors does (flash.rs:126).
- FlashStorage.FreshLayoutIsUnused: requires a positive sector size, as DataSectors does (flash.rs:126).
- FlashStorage.FlashStorageManager.Empty: requires a positive sector size, as DataSectors does (flash.rs:126).
- FlashStorage.FlashStorageManager.New: requires a positive sector size. `initialize_regions` divides by it (flash.rs:126) and panics when it is 0.
- FlashStorage.FlashStorageManager.GetCapacity: requires a positive sector size. `StorageCapacity::new` divides by it (traits.rs:182, called at flash.rs:411-417) and panics when it is 0.
- FlashStorage.AverageWear: requires a positive erase budget for a non-empty region table. The source divides by `max_erase_cycles` (flash.rs:532) and panics when it is 0; the default configuration has 100000.
- FlashStorage.WearCheck: requires a positive erase budget when wear leveling is enabled, because it computes the average wear of flash.rs:532.
- FlashStorage.FlashStorageManager.WearMathDefined: states the positive erase budget (when wear leveling is enabled) that CheckWearLeveling, Store and Maintenance require; the source panics without it at flash.rs:532.
- FlashStorage.FlashStorageManager.CheckWearLeveling: requires WearMathDefined, because it computes the average wear of flash.rs:532.
- FlashStorage.FlashStorageManager.Store: requires WearMathDefined, because a store runs the wear check, which divides at flash.rs:532.
- FlashStorage.FlashStorageManager.Maintenance: requires WearMathDefined, because maintenance runs the wear check, which divides at flash.rs:532.
- FlashStorage.FlashStorageManager.NeedsMaintenance: requires a positive erase budget when there are regions, because it computes the average wear of flash.rs:532.
- FlashStorage.FlashStorageManager.WearLevel: requires a positive erase budget for a region in range. The source divides by it (flash.rs:517) and panics when it is 0.
- FlashStorage.FlashStorageManager.AverageWearLevel: requires a positive erase budget when there are regions (flash.rs:532).
- FlashStorage.FlashStorageManager.RemainingLifetime: requires a positive erase budget when there are regions, because `get_remaining_lifetime` (flash.rs:562-565) computes the average wear of flash.rs:532.
- StorageTraits.NewCapacity: requires a positive sector size. `StorageCapacity::new` divides `total / sector_size` (traits.rs:182) and panics when it is 0; the calls in the source pass 4096, 100 or the flash configuration's sector size.
- Esp32c3Utils.IsAddressAligned: requires a positive alignment. The source computes `address % alignment` (esp32c3.rs:286) and panics when it is 0.
- ConfigFlash: ConfigErrorKind is imported from a crate root that is not part of this model, and is defined locally with the two variants the core uses.
- FlashStorage.FlashStorageManager.Retrieve: a read fills a zeroed buffer, so every retrieved value is empty. That is the source's behaviour, and it is modelled as written.

## Findings

| source | as written | input that shows it | evidently intended | confidence | as-written member | corrected member |
|---|---|---|---|---|---|---|
| workspace/core/iot-storage/src/lib.rs:461-468 | the weighted sum of the health score is computed in `u8` and wraps | available bytes > 0, fragmentation 0, wear 0: the score is 0, the storage is reported unhealthy and labelled "Critical" | the 30/40/30 weighted mean, 100 for perfect storage | high (not executed; a debug build panics instead) | StorageCrate.HealthScoreAsWritten, StorageCrate.PerfectStorageScoresZero, StorageCrate.PerfectStorageFailsAsWritten, StorageCrate.StatusAsWritten, StorageCrate.PerfectStorageIsCriticalAsWritten | StorageCrate.HealthScore, StorageCrate.ValidateStorage, StorageCrate.Status |
| workspace/core/iot-storage/src/config.rs:81-103 | configuration keys get the prefix `config:`, and `:` is not a key character | any name, e.g. `wifi`: `config:wifi` is rejected with InvalidKey, so every store, delete, backup and restore fails and nothing is ever cached | a prefix made of key characters, so every short valid name has a key | high (not executed) | ConfigStore.ConfigStore.constructor, ConfigStore.ConfigKeyAsWrittenAlwaysFails, ConfigStore.StoreAsWrittenFails, ConfigStore.KeyedUpdatesAsWrittenFail, ConfigStore.LookupsAsWritten | ConfigStore.ConfigStore.WithKeyPrefix, ConfigStore.ConfigKeyAccepts, ConfigStore.BackupKeyAccepts, ConfigStore.StoreThenExists |
| workspace/core/iot-storage/src/esp32c3.rs:301-308 | the region end `start + size` is computed in wrapping `u32` | start 0xFFFFFFFF, size 2: the end wraps to 1 and the region is accepted | accept exactly the regions inside the 4 MiB flash | medium (not executed; a debug build panics instead) | Esp32c3Utils.WrappedRegionAccepted | Esp32c3Utils.ValidateFlashRegion, Esp32c3Utils.ValidateFlashRegionExact |
| workspace/core/iot-config/src/flash_integration.rs:289-298 | the loaded image is cut after its last byte that is not 0xFF | a payload whose checksum byte is 0xFF, e.g. the payload [0xFF]: the checksum is cut off and loading fails | cut the image at the length recorded in the frame | medium (not executed; ASCII payloads are not affected) | ConfigFlash.LoadConfigAsWritten, ConfigFlash.ErasedChecksumIsLost | ConfigFlash.LoadConfig, ConfigFlash.LoadAfterSave |
| workspace/apps/main-nodeps/src/mqtt.rs:288-289 | the high byte of the client identifier length is always written 0 | a 256-byte client identifier: its length is encoded as 0 | the full 16-bit big-endian length (section 3.1.3.1 of MQTT 3.1.1) | high (not executed) | MqttNodeps.ConnectPacketAsWritten, MqttNodeps.LongClientIdRejected | MqttWire.ConnectPacket, MqttWire.ConnectRoundTrip |
| workspace/apps/main-nodeps/src/mqtt.rs:292-300 | the remaining length is written in at most two bytes, the second being `len >> 7` | a remaining length of 16384: the second byte is 128 and has its continuation bit set, so a reader misreads it | the variable-length encoding of section 2.2.3 of MQTT 3.1.1, up to four bytes | high (not executed) | MqttNodeps.RemainingLengthAsWritten, MqttNodeps.RemainingLengthAsWrittenMisread | MqttWire.EncodeRemainingLength, MqttWire.RemainingLengthRoundTrip |
| workspace/mqtt-embassy/src/mqtt_client.rs:126-160 | the remaining length is one byte, `len as u8` | a PUBLISH whose topic and payload exceed 127 bytes | the variable-length encoding of section 2.2.3 of MQTT 3.1.1 | high (not executed) | MqttEmbassy.PublishPacketAsWritten, MqttEmbassy.LongPublishRejected | MqttWire.PublishPacket, MqttWire.PublishRoundTrip |
| workspace/serial-console-embassy/src/commands.rs:166-194 | the help text is 660 bytes, and it is pushed into a `String<512>` whose failed push is ignored | the command `help`: the response is empty | a response buffer long enough for the help text | high (not executed) | ConsoleCommands.Response, ConsoleCommands.HelpResponseEmpty | ConsoleCommands.ResponseFixed, ConsoleCommands.ResponseFixedShowsHelp |
| workspace/core/iot-hal/src/config.rs:143-182 | the pin conflict check counts the USB Serial/JTAG marker pin 255 for both UART TX and RX | the esp32c3_devkit preset: validation fails with the UART RX pin conflict | the marker occupies no GPIO, so the devkit preset is valid | medium (not executed) | HalConfig.DevkitRejected | HalConfig.ValidateFixed, HalConfig.DevkitValidFixed |
| workspace/iot-performance/src/timing.rs:11-22 | the first Newton guess `(x + 1) / 2` overflows at `u64::MAX` | value 18446744073709551615: the guess wraps to 0 and the next step divides by zero | the floor square root of every `u64` | medium (not executed; a debug build panics at the addition) | PerfTiming.IntSqrtFirstGuessAsWritten, PerfTiming.FirstStepDivisorAsWritten, PerfTiming.IntSqrtAsWrittenDividesByZero | PerfTiming.IntSqrt |
| workspace/iot-performance/src/regression.rs:587-601 | the severity is graded by the magnitude of the change, so a speed-up counts as a regression | a sensor reading of 200 µs against the 450 µs baseline: a Critical regression and a CriticalFail verdict | only a degradation is a regression | medium (not executed) | Regression.FasterSensorFailsTest | Regression.DegradationSeverity, Regression.FasterSensorIsNoRegressionFixed |

Other behaviours of the source that the model keeps as written and states as lemmas:
- The default system configuration has an empty SSID, so validation reports a critical issue, although the source's test expects the default to be valid (ConfigValidation.DefaultSystemRejected).
- The timing manager's first cycle triggers no reading, although the source's test expects one (StandardTiming.FirstCycle).
- The MQTT topic check only looks at the last character for `#`, so an inner `#` before a final `#` passes (ConfigValidation.InnerWildcardBeforeFinalOne).
- The mock MQTT client appends the host of each connect to the stored host.
- The mock MQTT client records an over-long topic or payload as empty.
- The mock I2C `set_register` cannot fail, because the map has a slot for every `u8` key (TestMocks.MemoryNeverFull).
