# ketch core in Dafny

A model of the core of `ketch`, a small build tool for C projects. ketch
reads a `ketchfile` written in a parenthesised notation and checks it
against the project schema. It then compiles every `.c` file under `./src/`
to an object under `build/` and links the objects into a binary or a
library, stopping at the first command that fails.

The project has six modules:

- `Errors` (`errors.dfy`): the crate's error type. Each variant names which
  error it is and the data its message mentions: the line, the key, or the
  rejected token.
- `Strings` (`strings.dfy`): the parts of Rust's string library the core
  relies on: `starts_with`, `ends_with`, `replace`, decimal formatting and
  joining. It also holds the lemmas about them that the other modules use.
- `Config` (`config.dfy`): the notation and its parser. Pure functions
  (`ParseOneAt`, `ParseBodyAt`, `ParseItemsAt`) specify the parser over a
  text and a cursor (position, line). The class `ConfigParser` has the
  fields `current`, `line` and `output` of the source's parser. Its methods
  update those fields the way the source does, and are proved to compute
  what the functions specify. `FindVal` is the first-match lookup by key.
- `Syntax` (`syntax.dfy`): what the parser can produce and how it counts
  lines. It also has a serializer proved to be the parser's inverse on
  every list of forms the parser can return, plus the examples from the
  crate's unit tests.
- `ProjectModel` (`project.dfy`):
  - the project descriptor, the defaults, and rendering of `-std=` tokens;
  - the schema check of `Project::from_config`, stated per key and
    independently of the order of the checks (`Accepts`), plus the
    first-error-wins order of the checks;
  - the five-line summary that `Display for Project` prints.
- `Manager` (`manager.dfy`): `build_project` and the ketchfile text that
  `create_project` writes.
  - Per file, it derives the compile arguments and the object path; it
    then derives the link program and arguments from the project type.
  - The fail-fast compile loop is a method with a `for` loop and a
    `seq<string>` of objects. It is proved against the plan of every
    command a fully successful build issues.
  - Launching a command is not modelled. Instead, a sequence of outcomes
    says, for the k-th command issued, whether it could not be started,
    exited with failure, or exited with success.

The paths of the files under `./src/` come from the recursive walk of
`./src/`, which the model takes as the parameter `tree` (in walk order).

The source's `current >= input.len()` compares a character index with a
byte length. The model treats the text as a sequence of characters and so
assumes ASCII input, where the two agree.

A top-level `)` behaves differently from a `)` inside a body. At the top
level, `parse_one`'s catch-all branch consumes the `)` as the first
character of a bare identifier. So a top-level identifier may start with
`)` (`StrayCloseExample`: the text `)` parses to `[Ident(")")]`). Only the
characters after an identifier's first are free of the terminators. Inside
a body, the loop stops at the `)` first, so nested identifiers never
contain one. The model follows the code here.

## Model

| member | source | states |
|---|---|---|
| Config.IdentEnd | src/config.rs:41-48 | an identifier stops at the first of `\n \r space \t )` at or after the start, or at the end of the text |
| Config.IdentChars | src/config.rs:42-46 | no character of an identifier is a terminator |
| Config.ParseOneAt | src/config.rs:49-77 | every successful `parse_one` consumes at least one character and stays within the text; its only error is the missing `)` |
| Config.ParseBodyAt | src/config.rs:57-68 | a body that parses stops at a `)` that is still in the text; reaching the end first is the missing-`)` error |
| Config.ParseItemsAt | src/config.rs:78-86 | the top-level loop returns at most one form per character left, and its only error is the missing `)` |
| Config.ParseConfig | src/config.rs:89-91 | the parse of a whole text from position 0 on line 1 returns at most one form per character, and fails only with the missing `)` |
| Config.Keep | src/config.rs:59-61 | the `None` filter applied before every push (also src/config.rs:81-83): a `None` result is dropped and any other form is kept; `Syntax.BodyShape` and `Syntax.ItemsShape` state that no `None` reaches a list |
| Config.ConfigParser.constructor | src/config.rs:22-29 | a new parser starts at position 0 on line 1 with no output |
| Config.ConfigParser.Advance | src/config.rs:30-34 | returns the current character and moves exactly one position forward |
| Config.ConfigParser.Peek | src/config.rs:35-37 | when there is a character under the cursor, it is the input's character at `current` |
| Config.ConfigParser.IsAtEnd | src/config.rs:38-40 | the parser is at the end exactly when `peek` has no character |
| Config.ConfigParser.ParseIdent | src/config.rs:41-48 | consumes exactly up to the next terminator and returns the consumed text |
| Config.ConfigParser.ParseOne | src/config.rs:49-77 | the value, the error and the new position and line are those the parser specification gives from the old cursor |
| Config.ConfigParser.Parse | src/config.rs:78-86 | on success returns the old output followed by the parsed forms, with the whole input consumed; otherwise the specification's error |
| Config.ParseString | src/config.rs:89-91 | a fresh parser over the text returns exactly `ParseConfig` of it |
| Config.FindVal | src/config.rs:99-109 | `None` iff no value is a pair with that key; otherwise the body of the first such pair, skipping non-pairs |
| Syntax.OneShape | src/config.rs:49-77 | a form is `None`, a bare identifier or a pair whose body is an `Array` of nested forms; it is never `None` inside a body |
| Syntax.BodyShape | src/config.rs:54-68 | every form collected into a body is nested, so none is `None` |
| Syntax.ItemsShape | src/config.rs:78-86 | every top-level form collected is an identifier or a pair, never `None` |
| Syntax.ParsedForms | src/config.rs:78-86 | a successful parse returns only top-level forms: identifiers and pairs with `Array` bodies, with no `None` at any depth |
| Syntax.RoundTrip | src/config.rs:49-86 | serializing any list of top-level forms and parsing the text gives the list back |
| Syntax.ParseIdempotent | src/config.rs:78-86 | re-serializing a parse result and parsing it again gives the same result |
| Syntax.OneLines | src/config.rs:50-77 | after one form, the line counter has grown by exactly the line breaks consumed; an error names the line at the end of the text |
| Syntax.BodyLines | src/config.rs:57-64 | the same line accounting holds over a body, and its error names the line at the end of the text |
| Syntax.ItemsLines | src/config.rs:78-86 | a failing parse names the start line plus the line breaks up to the end of the text |
| Syntax.ErrorLine | src/config.rs:53-64 | the only error `parse` returns is the missing `)`, on line 1 plus the number of line breaks in the text |
| Syntax.UnclosedFails | src/config.rs:57-64 | a `(` with no `)` after it fails with the missing-`)` error |
| Syntax.ParseExample | src/config.rs:120-142 | `(jsp a b c)` and `(non plus)` on two lines parse to the two pairs `jsp`→`[a, b, c]` and `non`→`[plus]` |
| Syntax.UnclosedExample | src/config.rs:114-118 | `(jsp a b` fails with the missing-`)` error on line 1 |
| Syntax.StrayCloseExample | src/config.rs:70-74 | a top-level `)` is kept as the bare identifier `)` |
| Syntax.EmptyKeyExample | src/config.rs:54-68 | `()` is a pair with the empty key and an empty body |
| ProjectModel.Spelling | src/project/project.rs:39-43 | the `format!` of the prefix and the year's discriminant, shared by rendering and by the parse comparison at src/project/project.rs:116; `SpellingPrefix` and `ParseStandardIff` state what it yields |
| ProjectModel.RenderStandard | src/project/project.rs:34-47 | `Display for Standard`: the prefix and the year with every `23` replaced by `2x`; what it yields is stated by `RenderStandardText` and `RenderParseRoundTrip` |
| ProjectModel.RenderStandardText | src/project/project.rs:34-47 | the token is `gnu` or `c` and then the year, with C23 shown as `c2x` / `gnu2x` |
| ProjectModel.FirstSpelled | src/project/project.rs:109-122 | finds a revision whose prefixed year equals the token, or none exists |
| ProjectModel.ParseStandard | src/project/project.rs:97-137 | a rejected token yields the invalid-standard error naming that token |
| ProjectModel.SpellingPrefix | src/project/project.rs:107-112 | a spelling starts with `gnu` exactly when it names the GNU dialect |
| ProjectModel.ParseStandardIff | src/project/project.rs:99-136 | a token yields a standard iff it is `ansi` (C89, no GNU) or is exactly that standard's prefix and year, with `gnu` iff the prefix is `gnu` |
| ProjectModel.RenderParseRoundTrip | src/project/project.rs:34-47 | the rendered token parses back to the same standard iff the year is not 23 |
| ProjectModel.GetFirst | src/project/project.rs:180-191 | succeeds iff the list is one identifier, returning its text; otherwise an error naming the key |
| ProjectModel.IdentTexts | src/project/project.rs:146-156 | succeeds iff every element is an identifier, returning their texts in order with duplicates kept |
| ProjectModel.ProjectTypeOf | src/project/project.rs:161-166 | accepts exactly `binary`, `shared` and `static`; any other token is an error naming it |
| ProjectModel.TypeName | src/project/project.rs:161-166 | the word of each project type is accepted as that type |
| ProjectModel.ProjectOf | src/project/project.rs:86-178 | `from_config` as a function: the six key checks combined in order by the `?` chain; characterized by `ProjectOfIff` and `ProjectOfFirstError` |
| ProjectModel.RequiredField | src/project/project.rs:87-96 | the `name` / `version` check: the first pair with the key must have a body of one identifier; characterized by `RequiredFieldIff` |
| ProjectModel.StandardField | src/project/project.rs:97-138 | the `standard` check: the default when absent, else one identifier parsed as a standard; characterized by `StandardFieldIff` |
| ProjectModel.CompilerField | src/project/project.rs:139-143 | the `cc` check: `cc` when absent, else one identifier; characterized by `CompilerFieldIff` |
| ProjectModel.FlagsField | src/project/project.rs:144-158 | the `flags` check: the four defaults when absent, else an `Array` of identifiers; characterized by `FlagsFieldIff` |
| ProjectModel.TypeField | src/project/project.rs:159-168 | the `type` check: Binary when absent, else one of the three words; characterized by `TypeFieldIff` |
| ProjectModel.RequiredFieldIff | src/project/project.rs:87-96 | `name` / `version` yield `x` iff the first pair with that key has exactly the body `[x]` |
| ProjectModel.StandardFieldIff | src/project/project.rs:97-138 | `standard` yields a standard iff it is absent and the standard is C99 without GNU, or the body is that standard's spelling, or `ansi` for C89 |
| ProjectModel.CompilerFieldIff | src/project/project.rs:139-143 | `cc` yields a compiler iff it is absent and the compiler is `cc`, or the body is exactly that one identifier |
| ProjectModel.FlagsFieldIff | src/project/project.rs:144-158 | `flags` yields a list iff it is absent and the list is the four default flags in order, or the body is exactly those identifiers, `(flags)` giving `[]` |
| ProjectModel.TypeFieldIff | src/project/project.rs:159-168 | `type` yields a type iff it is absent and the type is Binary, or the body is exactly that type's word |
| ProjectModel.ProjectOfIff | src/project/project.rs:86-178 | `from_config` yields a project iff every key of the value list meets the schema for that project |
| ProjectModel.ProjectOfFirstError | src/project/project.rs:86-178 | `from_config` fails iff some key's check fails, with the error of the first failing key in the order name, version, standard, cc, flags, type |
| ProjectModel.Assemble | src/project/project.rs:86-178 | the `?` chain over the six checks and the struct built from their values; `AssembleFirstError` states which error wins |
| ProjectModel.AssembleFirstError | src/project/project.rs:86-178 | the chain of `?` returns the first error among the six checks, in order |
| ProjectModel.ConfigRoundTrip | src/project/project.rs:86-178 | the value list that spells out every field of a project yields that project |
| ProjectModel.DefaultsWhenAbsent | src/project/project.rs:8-19 | with only `name` and `version` given, the project has standard C99 without GNU, compiler `cc`, the four default flags and type Binary |
| ProjectModel.CollectFlags | src/project/project.rs:147-155 | the push loop with its early return yields exactly the identifier texts, or the flag error |
| ProjectModel.FromConfig | src/project/project.rs:86-178 | the method, whose flags branch is the loop, returns exactly what the schema function gives |
| ProjectModel.FlagsText | src/project/project.rs:67-69 | the fold writing every flag followed by a space; `FlagsTextJoin` states it is a single-space join |
| ProjectModel.TypeLabel | src/project/project.rs:75-79 | the TYPE line's label: `BIN`, `SHARED` or `STATIC`; `SummaryLinesNoBreak` uses that it holds no line break |
| ProjectModel.Summary | src/project/project.rs:61-84 | `Display for Project`: the five labelled lines joined by line breaks; `SummaryLineCount` states it is exactly five lines |
| ProjectModel.FlagsTextJoin | src/project/project.rs:64-71 | the CFLAGS fold followed by `-std=…` is the flags and the standard joined by single spaces |
| ProjectModel.SummaryLinesNoBreak | src/project/project.rs:61-84 | none of the five summary lines holds a line break when the fields hold none |
| ProjectModel.SummaryLineCount | src/project/project.rs:61-84 | the summary is five lines: exactly four line breaks when no field holds one |
| Manager.ObjectPath | src/project/manager.rs:50-52 | `build/`, then the path without `./src/`, every `/` turned into `_` and then every `.c` into `.o`; its shape is stated by `ObjectPathShape` |
| Manager.ObjectPathShape | src/project/manager.rs:50-52 | the object path is directly in `build/`, as long as the source path, and ends in `.o` when the source ends in `.c` |
| Manager.ObjectPathCollision | src/project/manager.rs:50-52 | `./src/a/b.c` and `./src/a_b.c` both compile to `build/a_b.o` |
| Manager.CSources | src/project/manager.rs:39 | the files compiled are exactly those of the walk ending in `.c`, each taken from the walk; order and multiplicity are stated by `CSourcesSingle` and `CSourcesAppend` |
| Manager.CSourcesSingle | src/project/manager.rs:39 | one path is kept exactly when it ends in `.c` |
| Manager.CSourcesAppend | src/project/manager.rs:39 | filtering two stretches of the walk is filtering each in turn, so the filter keeps walk order and duplicates |
| Manager.CompileArgs | src/project/manager.rs:44-54 | the arguments the loop pushes for one file, from a fresh copy of the flags; their shape is stated by `CompileArgsShape` and their construction by `CompileStep` |
| Manager.CompileArgsShape | src/project/manager.rs:44-54 | each compile starts from the project's own flags, has `-fpic` after them iff the library is shared, and ends with the standard, `-c f -o` and the object |
| Manager.LinkProgram | src/project/manager.rs:65-69 | `ar` for a static library, the project's compiler otherwise; `LinkStep` is proved to choose it |
| Manager.LinkArgs | src/project/manager.rs:70-80 | the link arguments of each project type; their shape is stated by `LinkArgsShape` |
| Manager.LinkArgsShape | src/project/manager.rs:70-80 | the link arguments hold every object in order, after `rcs` for an archive and first otherwise, followed by `-o` / `-shared -o`, and end with the artifact |
| Manager.Objects | src/project/manager.rs:43-53 | one object path per file, in file order |
| Manager.Plan | src/project/manager.rs:43-80 | one compile per file in order, then the link of all their objects |
| Manager.FirstFailure | src/project/manager.rs:56-62 | the index of the first command that did not succeed, with every earlier one successful |
| Manager.Run | src/project/manager.rs:56-90 | the commands up to and including the first failure are issued, and the result is its error; or all are issued and the result is `Ok` |
| Manager.Failure | src/project/manager.rs:56-61 | the error of a failed command: `LaunchFailed` with the program and arguments when it could not be started (also src/project/manager.rs:84-89), `CommandFailed` when it exited without success; `RunOutcome` states it is the error returned |
| Manager.RunOutcome | src/project/manager.rs:56-92 | a run succeeds iff every command succeeds; otherwise it stops right after the first that does not, with that command's error |
| Manager.CompileStep | src/project/manager.rs:44-54 | one turn of the loop builds exactly the compile command and object of the file |
| Manager.LinkStep | src/project/manager.rs:65-80 | the link is `ar` for a static library and the compiler otherwise, with the link arguments of the type |
| Manager.CompileAndLink | src/project/manager.rs:40-92 | the loop and the link issue exactly the commands and return exactly the result of running the plan against the outcomes: `Ok` iff every compile and the link succeed, with at least one and at most one command per file plus the link issued |
| Manager.LoadProject | src/project/manager.rs:38 | `parse_file` then `from_config`: the first error of either, else the project |
| Manager.Build | src/project/manager.rs:37-93 | the whole build as a function of the ketchfile, the walk and the outcomes; characterized by `BuildOutcome` and `CompileFailureStops` |
| Manager.BuildProject | src/project/manager.rs:37-93 | `build_project` issues exactly the commands and returns exactly the result of the build specification |
| Manager.BuildOutcome | src/project/manager.rs:37-93 | a load failure issues nothing; the build succeeds iff the project loads and every compile and the link succeed; a failure issues the plan up to and including the failed command |
| Manager.CompileFailureStops | src/project/manager.rs:56-62 | a failed compile of file k issues the compiles of files 0..k and no link, and returns that compile's error |
| Manager.CompiledSources | src/project/manager.rs:43-80 | every compile names its source and its own `.o` object, and the link lists those objects in file order |
| Manager.KetchfileText | src/project/manager.rs:25 | the ketchfile `create_project` writes: `(name N)` and `(version 0.1.0)`, each on its own line; `KetchfileSerializes` and `NewProjectLoads` state what it parses to |
| Manager.KetchfileSerializes | src/project/manager.rs:25 | the new project's ketchfile is the serialization of the `name` and `version` pairs |
| Manager.NewProjectLoads | src/project/manager.rs:25-34 | for any name that is a single identifier, the new ketchfile loads as that name, version `0.1.0` and all defaults |

## Left out

- File reads and writes are not modelled. `parse_file`'s read becomes the
  ketchfile text as a parameter. `create_project`'s directories, its
  ketchfile and its `main.c` are not modelled, except for the ketchfile's
  text.
- The walk of `./src/` (`read_dir`) is not modelled: its output, in
  whatever order the file system yields, is the parameter `tree`. Its I/O
  errors are left out with it.
- Launching processes is not modelled: an outcome sequence stands in for
  it. `BuildProject` requires one outcome more than the walk holds, which
  covers every command a build can issue.
- The `println!` progress lines of `build_project` are output only and are
  left out.
- Non-ASCII input is left out. The source mixes character positions with
  byte lengths there and can panic; the model's text is a sequence of
  characters.
- Paths shorter than six characters are left out. `file[6..]` would panic
  on them, and every path of the walk starts with `./src/`, so the model
  requires that prefix.
- Exact error messages are left out: `Error` records which error it is and
  the data its message names.
- `src/build/build.rs` and `src/install/wanager.rs` are not part of this
  model. Neither is declared by `main.rs`, and both are process and network
  glue.
- A release flag and `-O3` are left out: `build_project` takes no argument
  and never adds either.
- Config.ParseBodyAt: the contract states only that a successful body parse
  stops at a `)`. What the body holds is stated by `Syntax.BodyShape` and
  its line accounting by `Syntax.BodyLines`.
- ProjectModel.RenderParseRoundTrip: C23 renders as `c2x` / `gnu2x`, which
  `from_config` does not accept back. The lemma proves that the round trip
  holds exactly for the other four years.
- Manager.ObjectPathShape: flattening a source path into `build/` can map
  two sources to the same object, as `Manager.ObjectPathCollision` shows.
  The model keeps the source's behaviour and does not prove objects
  distinct.
