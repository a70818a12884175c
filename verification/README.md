# display-switch configuration resolution in Dafny

This project models the configuration core of display-switch. That core decides which video
input a monitor is switched to when the watched USB device is connected or disconnected.

A configuration has three parts:

- the lower-cased USB device identifier;
- a global pair of optional input sources, one for `Connect` and one for `Disconnect`;
- six optional per-monitor sections, `monitor1` … `monitor6`.

Each section holds a monitor-identifier fragment and its own pair of optional sources.
To resolve a monitor, the slots are scanned in declared order. The first populated section
whose fragment occurs in the monitor identifier, ignoring case, is taken. Its sources are
merged over the global ones, direction by direction. When no section matches, the global
sources are used unchanged.

Files:

- `options.dfy`: module `Options`. The `Option` type and its `Or`, which is the `Option::or` of Rust.
- `ascii.dfy`: module `Ascii`. ASCII lower- and upper-casing of strings, and substring containment.
- `configuration.dfy`: module `Configuration`. This module holds:
  - `InputSource`, `SwitchDirection` and `InputSources` with `Source` and `Merge`;
  - `PerMonitorConfiguration` with `Matches`;
  - the scan `FindMatch`;
  - the `Configuration` aggregate with `ConfigurationForMonitor`;
  - the normalisation `DeserializeUsbDevice`;
  - `FromRawFields`, which builds a configuration from its fields, and the predicate `Valid`
    that holds of every configuration it builds.
- `configuration_examples.dfy`: module `ConfigurationExamples`. The tests in
  `src/configuration.rs`, stated as lemmas.

`Configuration.Resolve` composes `ConfigurationForMonitor` with `Source`. That is how a caller
asks for one direction's input source. The caller itself is not part of this model.

The resolution algorithm can be described as merging an empty override over the global sources
when nothing matches. The code instead returns the global sources directly (src/configuration.rs:147). The
model follows the code. `Configuration.MergeIdentities` proves that the two readings agree.

## Model

| member | source | states |
|---|---|---|
| Ascii.Lower | src/configuration.rs:57 | lower-casing keeps the length and maps every character to its ASCII lower case |
| Ascii.LowerCharacterisation | src/configuration.rs:93-99 | the lower-cased text contains no upper-case letter; a string is its own lower case exactly when it has no upper-case letter |
| Ascii.LowerIdempotent | src/configuration.rs:93-99 | lower-casing twice gives the same string as lower-casing once |
| Ascii.Contains | src/configuration.rs:57 | containment is true exactly when the needle occurs at some position of the haystack |
| Configuration.InputSources.Source | src/configuration.rs:69-74 | `Connect` selects the on-connect source and `Disconnect` the on-disconnect source, and nothing else is involved |
| Configuration.SourceDeterminesSources | src/configuration.rs:69-74 | two source pairs are equal exactly when they answer the same for both directions |
| Configuration.InputSources.Merge | src/configuration.rs:62-67 | for each direction independently, the merged source is the override's when present and otherwise the default's |
| Configuration.MergeOverridePrevails | src/configuration.rs:62-67 | a direction the override sets is kept whatever the default holds |
| Configuration.MergeFallsBack | src/configuration.rs:62-67 | a direction the override leaves unset comes from the default |
| Configuration.MergeIdentities | src/configuration.rs:62-67 | merging with an empty pair on either side, or a pair with itself, changes nothing |
| Configuration.MergeAssociative | src/configuration.rs:62-67 | chained merges associate |
| Configuration.MergeNotCommutative | src/configuration.rs:62-67 | some pairs give different results when the two sides are swapped, so the override side has priority |
| Configuration.PerMonitorConfiguration.Matches | src/configuration.rs:56-58 | a section matches exactly when its lower-cased fragment occurs at some position of the lower-cased queried identifier |
| Configuration.MatchesIgnoresCase | src/configuration.rs:56-58 | lower- or upper-casing either the queried identifier or the fragment does not change whether they match |
| Configuration.MatchesUpToCase | src/configuration.rs:56-58 | any change of case of the queried identifier or of the fragment, even a mixed one, leaves the verdict unchanged |
| Configuration.MatchesEmbeddedFragment | src/configuration.rs:56-58 | a fragment occurring verbatim anywhere in the identifier matches it, so partial identifiers are enough |
| Configuration.EmptyFragmentMatchesAll | src/configuration.rs:56-58 | an empty fragment matches every identifier |
| Configuration.LongerFragmentNeverMatches | src/configuration.rs:56-58 | (ASCII) a fragment longer than the identifier never matches |
| Configuration.MissingCharacterNeverMatches | src/configuration.rs:56-58 | (ASCII) a fragment with a character that, ignoring case, is absent from the identifier never matches |
| Configuration.FindMatch | src/configuration.rs:132-145 | the scan yields nothing exactly when no populated slot matches, and otherwise yields the section of the first matching slot; empty slots never match |
| Configuration.FindMatchSkipsEmptySlot | src/configuration.rs:141-145 | removing an empty slot from the scanned sequence does not change the scan's outcome |
| Configuration.Configuration.ConfigurationForMonitor | src/configuration.rs:130-150 | with no matching slot the result is the global sources unchanged; otherwise it is the first matching slot's sources merged over the global sources |
| Configuration.Configuration.Resolve | src/configuration.rs:130-150 | one direction's result is the first matching slot's source for it, or the global source when that slot leaves it unset or no slot matches |
| Configuration.FirstMatchOrNone | src/configuration.rs:132-149 | every identifier either matches no slot or has a first matching slot, so the resolution contract covers every input |
| Configuration.FirstMatchWins | src/configuration.rs:132-149 | a later matching slot never contributes, even for a direction the first matching slot leaves unset; that direction comes from the global sources |
| Configuration.ResultIndependentOfLaterSlots | src/configuration.rs:132-149 | the result depends only on the global sources and the slots up to the first match |
| Configuration.DeserializeUsbDevice | src/configuration.rs:93-99 | the stored identifier has the same length and no upper-case letter; upper-case letters become their lower case and all other characters are kept |
| Configuration.FromRawFields | src/configuration.rs:32-44 | a configuration built from its fields is valid: the USB device identifier is stored lower-cased; the global sources and the six sections are stored as given, in slot order, without merging |
| Configuration.ValidIsReadable | src/configuration.rs:32-44 | a configuration is valid exactly when building it from its own fields gives it back, so validity describes exactly the configurations that reading can yield |
| Configuration.DeserializeUsbDeviceIdempotent | src/configuration.rs:93-99 | normalising an already normalised identifier changes nothing |
| ConfigurationExamples.TwoSectionResolution | src/configuration.rs:132-149 | with only slots 1 and 2 populated, an identifier resolves to the global sources when neither matches, to slot 1's sources merged over them when slot 1 matches, and to slot 2's otherwise when slot 2 matches |
| ConfigurationExamples.UsbDeviceIsLowerCased | src/configuration.rs:173-182 | "dead:BEEF" is stored as "dead:beef" |
| ConfigurationExamples.NoMatchUsesGlobalSources | src/configuration.rs:246-250 | "333" matches no section and resolves to inputs whose values are 0x10 on connect and 0x20 on disconnect |
| ConfigurationExamples.FirstSectionWithGlobalFallback | src/configuration.rs:251-263 | "1234" matches section 1 and resolves to its 0x11 on connect and the global 0x20 on disconnect |
| ConfigurationExamples.SecondSectionOverridesBoth | src/configuration.rs:264-276 | "2345" matches only section 2 and resolves to its 0x12 and 0x13 |

## Left out

- `Configuration::load` (src/configuration.rs:78-91) is left out. It reads a file and environment variables through the `config` crate and deserialises them with serde. This is I/O and foreign library behaviour. The field mapping of a successful load is `Configuration.FromRawFields`. Its results satisfy `Configuration.Valid`. The `Configuration` datatype itself also admits a `usbDevice` with upper-case letters, which no load produces.
- `config_file_name` and `log_file_name` (src/configuration.rs:101-128) are left out. They are platform directory lookups and directory creation on the file system.
- The `Display` implementation of `SwitchDirection` (src/configuration.rs:46-53) is left out. It is plain string formatting.
- Parsing of input-source text (symbolic names, decimal, hexadecimal) is left out. `input_source.rs` is not part of this model. `InputSource` is an opaque wrapper around a natural-number code, and the width of that code is not modelled.
- Ascii.Lower: models ASCII lower-casing only. Rust's `to_lowercase` applies full Unicode case mapping, which can also change a string's length. Matching and normalisation of non-ASCII identifiers are therefore not modelled.
- Configuration.DeserializeUsbDevice: only the lower-casing is modelled. The serde error raised when the value is not a string is out of scope, because the input is already a string here.
- `src/logging.rs` (logger setup and log file creation) and `src/main.rs` (argument handling and application start-up) are left out.
