# konfigurator: the configuration tree and its projection to Rust source

konfigurator reads an XML description of a build configuration and writes
it out as a Rust source file. The description is a tree. A `Konfigurator`
holds sections, a section holds nested sections and configs, and each
config carries one typed value slot. This project models the decoded tree
and the `dump` walk that turns it into text. It covers two versions of
that walk:

- `src/model/mod.rs` is the current one. It has five value kinds. Each
  config becomes `#[no_mangle] pub static KEY: T = V;`, where `KEY` is the
  upper-cased key and `T` follows the kind.
- `src/model.rs` is the older one. It has three value kinds, and enum
  members are `i32`. Each config is declared `i64` under the name
  `CONFIG_<section path joined by _>_<KEY>`, upper-cased.

Modules:

- `Base`: `Option`, `Result`, the `Outcome` of a dump, and the `i32`/`u32`
  ranges.
- `Strings`: `join`, ASCII `to_uppercase`, the `Display` text of `bool` and
  `i32`, and `quote!`. The `Display` texts and `quote!` come with a reader
  that undoes them; `join` and `to_uppercase` come with lemmas about their
  results.
- `Emit`: the `banner!` macro, the header banner, and the declaration line
  written by `generic_impl`, each with a parser proved to read it back. It
  also holds the `Fault` type and the two pieces of mutable state the walk
  threads through: the `Buffer` (`String`) and the `PathStack`
  (`depth: Vec<String>`).
- `Model`: the tree of `src/model/mod.rs`. It contains:
  - `ConfigType.Value`, the value resolution;
  - the `Text` functions, which say what a dump writes;
  - the `Dump` methods, which append to the buffer and push and pop the
    path stack.
- `LegacyModel`: the same for `src/model.rs`. It reuses the boolean and
  integer slot types of `Model`.

How the model handles the places where the Rust code panics and the values
it cannot compute:

- **Panics become faults.** The Rust code panics on an enum index past the
  last member (`.get(..).unwrap()`) and on a config with no value child
  (`unreachable!()`). The model returns a `Fault` instead. A dump stops at
  the first fault and reports it.
- **`depth.unwrap()` is a precondition.** The `Option<&mut Vec<String>>`
  that `SectionType::dump` and the legacy config dump unwrap is a nullable
  `PathStack?`, and the methods require it to be non-null. The walk always
  passes one.
- **External values are parameters.** Three values come from outside the
  modelled code: the `Display` text of an `f64` (`showF64`), and the
  title-cased crate name and crate version (`crateTitle`, `crateVersion`).

Two points about the code that the model follows exactly:

- A config may carry several value children. `value` takes the first in
  the order boolean, integer, double, string, enum, and
  `Model.ConfigType.Value` proves that order.
- The legacy path-qualified name is built in `generic_impl`
  (`src/model.rs:169`), and `LegacyModel.Name` follows it.

The identity line `<name>/<arch>/<profile>` of the header cannot be read
back when the name or the architecture holds a `/`: `Emit.HeaderCanCollide`
gives two trees with the same header.

What the older version writes for a boolean: it declares every value
`i64`, so a boolean config becomes `...: i64 = true;`.
`LegacyModel.ConfigType.Line` states exactly that text.

## Model

| member | source | states |
|---|---|---|
| Strings.Join | src/model/mod.rs:104 | `join` puts the separator between neighbouring elements; the result is as long as the elements together plus one separator per gap |
| Strings.JoinSnoc | src/model/mod.rs:103-113 | pushing a section name extends the `::`-joined path by the separator and that name |
| Strings.JoinChars | src/model.rs:169 | a character found neither in the separator nor in any element is not in the joined string |
| Strings.Upper | src/model/mod.rs:192 | upper-casing keeps the length and maps each character on its own |
| Strings.UpperConcat | src/model.rs:169 | upper-casing a concatenation is the concatenation of the upper-cased parts |
| Strings.UpperIdempotent | src/model/mod.rs:192 | an upper-cased name has no lower-case letter, and upper-casing it again changes nothing |
| Strings.UpperKeepsChar | src/model/mod.rs:192 | upper-casing neither adds nor removes a non-letter such as `:` |
| Strings.NatText | src/model/mod.rs:198 | decimal digits are non-empty, all digits, and have no leading zero |
| Strings.NatTextValue | src/model/mod.rs:198 | the decimal digits of `n` denote `n` |
| Strings.IntText | src/model/mod.rs:198 | the `Display` text of an integer (an optional `-`, then its digits) reads back as that integer, for every integer |
| Strings.BoolText | src/model/mod.rs:197 | the `Display` text of a `bool` reads back as that `bool` |
| Strings.Quote | src/model/mod.rs:185-187 | `quote!` adds one `"` on each side and escapes nothing, so unquoting gives the text back |
| Emit.Banner | src/model/mod.rs:30-34 | `banner!` builds `//\n`, then `// ` + each line + `\n`, then `//\n`; `BannerLines` states how it splits back |
| Emit.Commented | src/model/mod.rs:30-34 | each banner line is `// ` followed by the given line |
| Emit.CommentLinesSplit | src/model/mod.rs:30-34 | the commented lines split back into `// ` + each line, in order |
| Emit.BannerLines | src/model/mod.rs:30-34 | when no given line holds a newline, a banner's lines are `//`, then `// ` + each given line, then `//` |
| Emit.Header | src/model/mod.rs:64-74 | the header is the banner of the notice line and `<title> v<version> \| <name>/<arch>/<profile>`; `HeaderShape`, `HeaderRoundTrip` and `HeaderCanCollide` state what it holds |
| Emit.HeaderShape | src/model/mod.rs:68-74 | the header banner is the fixed notice frame around the identity line |
| Emit.HeaderRoundTrip | src/model/mod.rs:64-76 | when the name and architecture hold no `/` and the title and version no `\|`, the identity line of the header reads back as name, architecture and profile |
| Emit.HeaderCanCollide | src/model/mod.rs:70-73 | a name `a/b` with architecture `c` and a name `a` with architecture `b/c` give the same header, so no reader recovers a name or architecture holding `/` |
| Emit.DeclarationRoundTrip | src/model/mod.rs:192 | when the name holds no `:` and the type no `=`, a declaration line reads back as its name, type and literal |
| Emit.Declaration | src/model/mod.rs:192 | the `format!` text `#[no_mangle]\npub static <name>: <type> = <literal>;\n`, shared with src/model.rs:170; `DeclarationRoundTrip` states its read-back |
| Emit.Buffer.PushStr | src/model/mod.rs:76 | `push_str` appends the text and keeps what was there |
| Emit.PathStack.Push | src/model/mod.rs:81 | `push` appends one name at the end |
| Emit.PathStack.Pop | src/model/mod.rs:83 | `pop` removes and returns the last name; an empty stack is unchanged and gives `None` |
| Model.ConfigDataType.Literal | src/model/mod.rs:196-202 | booleans and integers are written as `Display` text and read back as the value; a double is written as its `Display` text; strings and enum members are quoted and read back unquoted |
| Model.ConfigDataType.TypeName | src/model/mod.rs:196-201 | the declared type per kind: `bool`, `i32`, `f64`, and `&'static str` for strings and enum members |
| Model.EnumType.Index | src/model/mod.rs:176 | the member index: the override if present, else the default |
| Model.ConfigType.Value | src/model/mod.rs:147-182 | the first present slot in the order boolean, integer, double, string, enum decides the kind; its override is used if present, else its default; an enum selects the member at that index or faults past the last member; no slot is the `unreachable!` fault |
| Model.ConfigType.Line | src/model/mod.rs:189-204 | a config's line fails exactly when resolution fails; otherwise it is the declaration of the upper-cased key with the kind's type and literal, for every key, and when the key has no `:` it reads back as those three parts |
| Model.ConfigType.Dump | src/model/mod.rs:189-204 | dumping a config appends exactly its line, or nothing when it faults |
| Model.GenericImpl | src/model/mod.rs:191-194 | `generic_impl` appends exactly the declaration of the upper-cased key with the given type and value |
| Model.LineProblem | src/model/mod.rs:173-180 | a line faults exactly when no slot is present or the leading enum's index is out of range, and with that fault |
| Model.SectionType.Text | src/model/mod.rs:99-120 | what a section dump writes at path `p`: the banner of `p` joined by `::`, each nested section's text at `p` plus its name after a blank line, then each config's line; the first fault otherwise |
| Model.SectionsText | src/model/mod.rs:109-114 | the text of consecutive nested sections, each after a blank line at the path extended by its name |
| Model.ConfigsText | src/model/mod.rs:116-118 | the lines of consecutive configs, in order |
| Model.SectionType.Dump | src/model/mod.rs:99-120 | a section dump leaves `depth` as it found it, only appends, and appends exactly the section's text (banner, nested sections each after a blank line, then declarations) or reports its first fault |
| Model.SectionsStep | src/model/mod.rs:109-114 | dumping one more nested section appends a blank line and that section's text at the pushed path |
| Model.ConfigsStep | src/model/mod.rs:116-118 | dumping one more config appends its line |
| Model.SectionsErrExtends | src/model/mod.rs:109-114 | once a nested section faults, the rest of the walk reports that same fault |
| Model.ConfigsErrExtends | src/model/mod.rs:116-118 | once a config faults, the rest of the section reports that same fault |
| Model.SectionTextFaults | src/model/mod.rs:99-120 | a section's text fails exactly when the section holds a fault, and then with the first fault in document order |
| Model.SectionsTextFaults | src/model/mod.rs:109-114 | sibling sections fail exactly when one of them holds a fault, and then with the first one |
| Model.ConfigsTextFaults | src/model/mod.rs:116-118 | a run of configs fails exactly when one of them faults, and then with the first one |
| Model.OwnBanner | src/model/mod.rs:103-111 | a section's text opens with the banner naming its parent's `::` path followed by its own name |
| Model.Konfigurator.Text | src/model/mod.rs:63-86 | what the whole dump writes: the header, then each top-level section's text at its own name after a blank line; the first fault otherwise |
| Model.Konfigurator.Dump | src/model/mod.rs:63-86 | the whole dump only appends and appends exactly the header, then each top-level section after a blank line, or reports the first fault |
| Model.Konfigurator.DumpToFile | src/model/mod.rs:54-61 | the text handed to the file write is exactly the document's text |
| Model.TextFaults | src/model/mod.rs:78-84 | the document fails exactly when some config in it faults, and then with the first such fault in document order |
| Model.IdentityReadsBack | src/model/mod.rs:64-76 | the generated file opens with the header; when the tree's name and architecture hold no `/` and the title and version no `\|`, its identity line reads back as name, architecture and profile |
| LegacyModel.ConfigDataType.Literal | src/model.rs:172-178 | booleans, integers and enum members are written as `Display` text that reads back as the value |
| LegacyModel.Name | src/model.rs:169 | the declared name: `CONFIG_` + the path joined by `_` + `_` + the key, upper-cased |
| LegacyModel.NameShape | src/model.rs:169 | the declared name is `CONFIG_`, the upper-cased `_`-joined path, `_`, and the upper-cased key |
| LegacyModel.NameDeterminesPath | src/model.rs:169 | for one key, equal names mean equal upper-cased joined paths, so the name depends on the full section path |
| LegacyModel.NamesCanCollide | src/model.rs:169 | the name is not injective: section `a_b` with key `c` and section `a` with key `b_c` share `CONFIG_A_B_C` |
| LegacyModel.EnumType.Index | src/model.rs:157 | the member index: the override if present, else the default |
| LegacyModel.ConfigType.Value | src/model.rs:141-164 | the first present slot in the order boolean, integer, enum decides the kind; its override is used if present, else its default; an enum selects the `i32` content of the member at that index or faults past the last member; no slot is the `unreachable!` fault |
| LegacyModel.ConfigType.Line | src/model.rs:166-180 | a config's line fails exactly when resolution fails; otherwise it is the `i64` declaration of the path-qualified name and the literal, whatever the kind and for every key and path, and when neither the key nor a section name has a `:` it reads back as those three parts |
| LegacyModel.ConfigType.Dump | src/model.rs:166-180 | dumping a config with `depth` present appends exactly its line at the current path, or nothing when it faults |
| LegacyModel.GenericImpl | src/model.rs:168-172 | the legacy `generic_impl` appends exactly the `i64` declaration named after `depth` and the key |
| LegacyModel.LineProblem | src/model.rs:154-161 | a line faults exactly when no slot is present or the leading enum's index is out of range, and with that fault |
| LegacyModel.SectionType.Text | src/model.rs:99-120 | what a section dump writes at path `p`: the banner of `p` joined by `::`, each nested section's text after a blank line, then each config's line named after `p`; the first fault otherwise |
| LegacyModel.SectionsText | src/model.rs:109-114 | the text of consecutive nested sections, each after a blank line at the path extended by its name |
| LegacyModel.ConfigsText | src/model.rs:116-118 | the lines of consecutive configs of the section at a path, in order |
| LegacyModel.SectionType.Dump | src/model.rs:99-120 | a section dump leaves `depth` as it found it, only appends, and appends exactly the section's text with each declaration qualified by the section's path, or reports its first fault |
| LegacyModel.SectionsStep | src/model.rs:109-114 | dumping one more nested section appends a blank line and that section's text at the pushed path |
| LegacyModel.ConfigsStep | src/model.rs:116-118 | dumping one more config appends its line at the section's path |
| LegacyModel.SectionsErrExtends | src/model.rs:109-114 | once a nested section faults, the rest of the walk reports that same fault |
| LegacyModel.ConfigsErrExtends | src/model.rs:116-118 | once a config faults, the rest of the section reports that same fault |
| LegacyModel.SectionTextFaults | src/model.rs:99-120 | a section's text fails exactly when the section holds a fault, and then with the first fault in document order |
| LegacyModel.SectionsTextFaults | src/model.rs:109-114 | sibling sections fail exactly when one of them holds a fault, and then with the first one |
| LegacyModel.ConfigsTextFaults | src/model.rs:116-118 | a run of configs fails exactly when one of them faults, and then with the first one |
| LegacyModel.OwnBanner | src/model.rs:103-111 | a section's text opens with the banner naming its parent's `::` path followed by its own name |
| LegacyModel.Konfigurator.Text | src/model.rs:63-86 | what the whole dump writes: the header, then each top-level section's text at its own name after a blank line; the first fault otherwise |
| LegacyModel.Konfigurator.Dump | src/model.rs:63-86 | the whole dump only appends and appends exactly the header, then each top-level section after a blank line, or reports the first fault |
| LegacyModel.Konfigurator.DumpToFile | src/model.rs:54-61 | the text handed to the file write is exactly the document's text |
| LegacyModel.IdentityReadsBack | src/model.rs:64-76 | the generated file opens with the header; when the tree's name and architecture hold no `/` and the title and version no `\|`, its identity line reads back as name, architecture and profile |
| LegacyModel.TextFaults | src/model.rs:78-84 | the document fails exactly when some config in it faults, and then with the first such fault in document order |

## Left out

- `dump_to_file`, `bake` in `src/lib.rs`, and the file reads and writes.
  These are file I/O. `DumpToFile` returns the text that would be written.
- The XML decoding derived by `strong_xml`. It is foreign library code. The
  model starts from the decoded tree.
- The formatting of `f64` through `Display`. It is floating point. A double
  is kept as its bits, and its text comes from the `showF64` parameter.
- The `titlecase` crate and the `env!` build metadata in the header. They
  are an external crate and build data. The title-cased name and the
  version come from the `crateTitle` and `crateVersion` parameters.
- The `min`, `max`, `min-length` and `max-length` attributes. They are
  decoded but never read, so they are carried in the datatypes and nothing
  checks them.
- `src/error.rs` and `src/cli/mod.rs`. They hold error messages and
  argument parsing, not tree logic, and are not part of this model.
- Strings.Upper: upper-cases ASCII letters only. Rust's `to_uppercase`
  also maps other Unicode letters, some to several characters.
- Model.ConfigType.Dump: does not take the `depth` argument, because this
  version of `ConfigType::dump` ignores it.
- Model.Konfigurator.Dump: does not take the `_depth` argument, because
  `Konfigurator::dump` ignores it and starts its own empty stack.
- LegacyModel.Konfigurator.Dump: does not take the `_depth` argument, for
  the same reason.
- Model.SectionType.Dump: on a fault it returns `Fail` where Rust panics.
  For that case it states only that the buffer was appended to, not what
  was appended before the fault.
- Model.Konfigurator.Dump: the same as `Model.SectionType.Dump` for a fault.
- LegacyModel.SectionType.Dump: the same as `Model.SectionType.Dump` for a
  fault.
- LegacyModel.Konfigurator.Dump: the same as `Model.SectionType.Dump` for a
  fault.
- Model.ConfigDataType.Literal: a double's literal is `showF64` of it, and
  nothing is proved about how it reads back.
