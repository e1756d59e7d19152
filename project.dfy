/** The project descriptor and its validation against the ketchfile schema
    (src/project/project.rs). */
module ProjectModel {
  import opened Errors
  import opened Strings
  import opened Config

  /** A C standard revision; `Year` is the enum's `u8` discriminant. */
  datatype Std = C89 | C99 | C11 | C17 | C23

  function Year(s: Std): nat {
    match s
    case C89 => 89
    case C99 => 99
    case C11 => 11
    case C17 => 17
    case C23 => 23
  }

  /** The revisions `from_config` tries, in its order. */
  const Standards: seq<Std> := [C89, C99, C11, C17, C23]

  datatype Standard = Standard(std: Std, gnuExtensions: bool)

  datatype ProjectType = Binary | Shared | Static

  datatype Project = Project(
    name: string,
    version: string,
    standard: Standard,
    compiler: string,
    flags: seq<string>,
    ptype: ProjectType)

  const DefaultCompiler: string := "cc"
  const DefaultFlags: seq<string> := ["-Wall", "-Wextra", "-Wwrite-strings", "-Werror=discarded-qualifiers"]
  const DefaultStandard: Standard := Standard(C99, false)
  const DefaultPType: ProjectType := Binary

  function Prefix(gnu: bool): string {
    if gnu then "gnu" else "c"
  }

  /** The prefix followed by the decimal year: the token a ketchfile names
      a standard by. */
  function Spelling(st: Standard): string {
    Prefix(st.gnuExtensions) + Decimal(Year(st.std))
  }

  /** `Display for Standard`: the spelling with every "23" turned into "2x". */
  function RenderStandard(st: Standard): string {
    ReplaceAll(Spelling(st), "23", "2x")
  }

  lemma {:induction false} YearText(s: Std)
    ensures Decimal(Year(s)) == match s
      case C89 => "89"
      case C99 => "99"
      case C11 => "11"
      case C17 => "17"
      case C23 => "23"
  {
  }

  /** No match of "23" starts inside the prefix. */
  lemma {:induction false} ReplaceAfterPrefix(gnu: bool, y: string)
    ensures ReplaceAll(Prefix(gnu) + y, "23", "2x") == Prefix(gnu) + ReplaceAll(y, "23", "2x")
  {
    assert '2' !in Prefix(gnu);
    ReplaceKeepsPrefix(Prefix(gnu), y, "23", "2x");
  }

  /** `c2x` and `gnu2x` for C23, the plain spelling for every other year. */
  lemma {:induction false} RenderStandardText(st: Standard)
    ensures RenderStandard(st) == if st.std == C23 then Prefix(st.gnuExtensions) + "2x" else Spelling(st)
  {
    YearText(st.std);
    ReplaceAfterPrefix(st.gnuExtensions, Decimal(Year(st.std)));
    match st.std
    case C89 =>
      assert ReplaceAll("89", "23", "2x") == "89";
    case C99 =>
      assert ReplaceAll("99", "23", "2x") == "99";
    case C11 =>
      assert ReplaceAll("11", "23", "2x") == "11";
    case C17 =>
      assert ReplaceAll("17", "23", "2x") == "17";
    case C23 =>
      assert ReplaceAll("23", "23", "2x") == "2x";
  }

  /** The first revision of `stds` that `prefix` followed by its year spells
      as `raw` (the `filter_map(..).next()` over the revisions). */
  function FirstSpelled(prefix: string, raw: string, stds: seq<Std>): (r: Option<Std>)
    ensures r.Some? ==> r.value in stds && prefix + Decimal(Year(r.value)) == raw
    ensures r.None? ==> forall s :: s in stds ==> prefix + Decimal(Year(s)) != raw
    decreases |stds|
  {
    if |stds| == 0 then Option.None
    else if prefix + Decimal(Year(stds[0])) == raw then Some(stds[0])
    else FirstSpelled(prefix, raw, stds[1..])
  }

  /** The `standard` token: `ansi`, or the prefix the token starts with
      (`gnu`, else `c`) followed by one of the five years. */
  function ParseStandard(raw: string): (r: Result<Standard>)
    ensures r.Err? ==> r.error == InvalidStandard(raw)
  {
    if raw == "ansi" then Ok(Standard(C89, false))
    else
      var prefix := if StartsWith(raw, "gnu") then "gnu" else "c";
      match FirstSpelled(prefix, raw, Standards)
      case Some(s) => Ok(Standard(s, prefix == "gnu"))
      case None => Err(InvalidStandard(raw))
  }

  lemma {:induction false} SpellingInjective(a: Standard, b: Standard)
    requires Spelling(a) == Spelling(b)
    ensures a == b
  {
    YearText(a.std);
    YearText(b.std);
    assert Decimal(Year(a.std)) == Decimal(Year(b.std)) by {
      var p := Prefix(a.gnuExtensions);
      assert Decimal(Year(a.std)) == Spelling(a)[|p|..];
      assert Decimal(Year(b.std)) == Spelling(b)[|p|..];
    }
  }

  /** A spelling starts with "gnu" exactly when it names the GNU dialect. */
  lemma {:induction false} SpellingPrefix(st: Standard)
    ensures StartsWith(Spelling(st), "gnu") <==> st.gnuExtensions
  {
    YearText(st.std);
    var q := Prefix(st.gnuExtensions);
    assert Spelling(st)[..|q|] == q;
    if !st.gnuExtensions {
      assert Spelling(st)[0] == 'c';
    }
  }

  /** A token is accepted exactly when it is `ansi` (C89 without GNU
      extensions) or the spelling of the standard it yields. */
  lemma {:induction false} ParseStandardIff(raw: string, st: Standard)
    ensures ParseStandard(raw) == Ok(st)
        <==> (raw == "ansi" && st == Standard(C89, false)) || (raw != "ansi" && raw == Spelling(st))
  {
    if raw != "ansi" {
      var prefix := if StartsWith(raw, "gnu") then "gnu" else "c";
      var found := FirstSpelled(prefix, raw, Standards);
      if found.Some? {
        var got := Standard(found.value, prefix == "gnu");
        assert ParseStandard(raw) == Ok(got);
        assert Spelling(got) == raw;
        if raw == Spelling(st) {
          SpellingInjective(got, st);
        }
      } else {
        SpellingPrefix(st);
        assert st.std in Standards;
      }
    }
  }

  /** The rendered token parses back to the same standard exactly when the
      year is not 23, whose `2x` rendering the parser does not accept. */
  lemma {:induction false} RenderParseRoundTrip(st: Standard)
    ensures ParseStandard(RenderStandard(st)) == Ok(st) <==> st.std != C23
  {
    RenderStandardText(st);
    ParseStandardIff(RenderStandard(st), st);
    if st.std == C23 {
      YearText(st.std);
      var p := Prefix(st.gnuExtensions);
      assert RenderStandard(st) == p + "2x";
      assert Spelling(st) == p + "23";
      assert (p + "2x")[|p| + 1] != (p + "23")[|p| + 1];
    } else {
      YearText(st.std);
      assert Spelling(st) != "ansi" by {
        assert Spelling(st)[|Spelling(st)| - 1] != 'i';
      }
    }
  }

  /** `get_first`: exactly one identifier, or an error naming the key. */
  function GetFirst(av: seq<ConfigValue>, key: string): (r: Result<string>)
    ensures r.Ok? <==> |av| == 1 && av[0].Ident?
    ensures r.Ok? ==> r.value == av[0].text
    ensures r.Err? ==> r.error == NotSingleString(key)
  {
    if |av| == 1 then
      if av[0].Ident? then Ok(av[0].text) else Err(NotSingleString(key))
    else Err(NotSingleString(key))
  }

  /** `name` and `version`: a pair whose body is one identifier. */
  function RequiredField(vals: seq<ConfigValue>, key: string): Result<string> {
    match FindVal(vals, key)
    case Some(Array(av)) => GetFirst(av, key)
    case _ => Err(NotSingleString(key))
  }

  function StandardField(vals: seq<ConfigValue>): Result<Standard> {
    match FindVal(vals, "standard")
    case None => Ok(DefaultStandard)
    case Some(Array(av)) =>
      var raw :- GetFirst(av, "standard");
      ParseStandard(raw)
    case Some(_) => Err(NotSingleString("standard"))
  }

  function CompilerField(vals: seq<ConfigValue>): Result<string> {
    match FindVal(vals, "cc")
    case None => Ok(DefaultCompiler)
    case Some(Array(av)) => GetFirst(av, "cc")
    case Some(_) => Err(NotSingleString("cc"))
  }

  /** The texts of a list of identifiers, in order; any other element is an
      error. */
  function IdentTexts(av: seq<ConfigValue>): (r: Result<seq<string>>)
    ensures r.Ok? <==> forall i :: 0 <= i < |av| ==> av[i].Ident?
    ensures r.Ok? ==> |r.value| == |av| && forall i :: 0 <= i < |av| ==> r.value[i] == av[i].text
    ensures r.Err? ==> r.error == FlagNotIdent
    decreases |av|
  {
    if |av| == 0 then Ok([])
    else if !av[0].Ident? then Err(FlagNotIdent)
    else
      var rest := IdentTexts(av[1..]);
      assert forall i :: 1 <= i < |av| ==> av[i] == av[1..][i - 1];
      match rest
      case Ok(fs) => Ok([av[0].text] + fs)
      case Err(e) => Err(e)
  }

  function FlagsField(vals: seq<ConfigValue>): Result<seq<string>> {
    match FindVal(vals, "flags")
    case None => Ok(DefaultFlags)
    case Some(Array(av)) => IdentTexts(av)
    case Some(_) => Err(FlagsNotArray)
  }

  function ProjectTypeOf(raw: string): (r: Result<ProjectType>)
    ensures r.Ok? <==> raw == "binary" || raw == "shared" || raw == "static"
    ensures r.Err? ==> r.error == InvalidType(raw)
  {
    if raw == "binary" then Ok(Binary)
    else if raw == "shared" then Ok(Shared)
    else if raw == "static" then Ok(Static)
    else Err(InvalidType(raw))
  }

  function TypeField(vals: seq<ConfigValue>): Result<ProjectType> {
    match FindVal(vals, "type")
    case None => Ok(DefaultPType)
    case Some(Array(av)) =>
      var raw :- GetFirst(av, "type");
      ProjectTypeOf(raw)
    case Some(_) => Err(NotSingleString("type"))
  }

  /** `Project::from_config`, key by key in the source's order; the first
      failing key's error is the result. */
  function ProjectOf(vals: seq<ConfigValue>): Result<Project> {
    Assemble(RequiredField(vals, "name"), RequiredField(vals, "version"), StandardField(vals),
             CompilerField(vals), FlagsField(vals), TypeField(vals))
  }

  /** The `?` chain of `from_config`: the first failing field's error, or
      the project of all six values. */
  function Assemble(name: Result<string>, version: Result<string>, standard: Result<Standard>,
                    compiler: Result<string>, flags: Result<seq<string>>, ptype: Result<ProjectType>)
    : Result<Project>
  {
    var name :- name;
    var version :- version;
    var standard :- standard;
    var compiler :- compiler;
    var flags :- flags;
    var ptype :- ptype;
    Ok(Project(name, version, standard, compiler, flags, ptype))
  }

  /** The ketchfile word naming each project type. */
  function TypeName(t: ProjectType): (r: string)
    ensures ProjectTypeOf(r) == Ok(t)
  {
    match t
    case Binary => "binary"
    case Shared => "shared"
    case Static => "static"
  }

  /** A list of identifiers with the given texts. */
  function Idents(fs: seq<string>): (r: seq<ConfigValue>)
    ensures |r| == |fs| && forall i :: 0 <= i < |fs| ==> r[i] == Ident(fs[i])
  {
    seq(|fs|, i requires 0 <= i < |fs| => Ident(fs[i]))
  }

  /** A body holding exactly one identifier, `x`. */
  function Single(x: string): ConfigValue {
    Array([Ident(x)])
  }

  /** The schema, stated per key and independently of the checking order:
      what `vals` must hold for `from_config` to yield `p`. */
  predicate Accepts(vals: seq<ConfigValue>, p: Project) {
    && FindVal(vals, "name") == Some(Single(p.name))
    && FindVal(vals, "version") == Some(Single(p.version))
    && (|| (FindVal(vals, "standard").None? && p.standard == DefaultStandard)
        || FindVal(vals, "standard") == Some(Single(Spelling(p.standard)))
        || (FindVal(vals, "standard") == Some(Single("ansi")) && p.standard == Standard(C89, false)))
    && (|| (FindVal(vals, "cc").None? && p.compiler == DefaultCompiler)
        || FindVal(vals, "cc") == Some(Single(p.compiler)))
    && (|| (FindVal(vals, "flags").None? && p.flags == DefaultFlags)
        || FindVal(vals, "flags") == Some(Array(Idents(p.flags))))
    && (|| (FindVal(vals, "type").None? && p.ptype == DefaultPType)
        || FindVal(vals, "type") == Some(Single(TypeName(p.ptype))))
  }

  /** Spells out when a body is `Single` of its one identifier. */
  lemma {:induction false} SingleOf(v: ConfigValue)
    requires v.Array? && |v.items| == 1 && v.items[0].Ident?
    ensures v == Single(v.items[0].text)
  {
    assert v.items == [Ident(v.items[0].text)];
  }

  lemma {:induction false} RequiredFieldIff(vals: seq<ConfigValue>, key: string, x: string)
    ensures RequiredField(vals, key) == Ok(x) <==> FindVal(vals, key) == Some(Single(x))
  {
    var v := FindVal(vals, key);
    if v.Some? && v.value.Array? && |v.value.items| == 1 && v.value.items[0].Ident? {
      SingleOf(v.value);
    }
  }

  lemma {:induction false} StandardFieldIff(vals: seq<ConfigValue>, st: Standard)
    ensures StandardField(vals) == Ok(st)
        <==> || (FindVal(vals, "standard").None? && st == DefaultStandard)
             || FindVal(vals, "standard") == Some(Single(Spelling(st)))
             || (FindVal(vals, "standard") == Some(Single("ansi")) && st == Standard(C89, false))
  {
    var v := FindVal(vals, "standard");
    if v.Some? && v.value.Array? && |v.value.items| == 1 && v.value.items[0].Ident? {
      var raw := v.value.items[0].text;
      SingleOf(v.value);
      ParseStandardIff(raw, st);
      if raw == "ansi" {
        assert Spelling(st) != "ansi" by {
          assert Spelling(st)[|Spelling(st)| - 1] != 'i' by {
            YearText(st.std);
          }
        }
      }
    }
  }

  lemma {:induction false} IdentTextsIff(av: seq<ConfigValue>, fs: seq<string>)
    ensures IdentTexts(av) == Ok(fs) <==> av == Idents(fs)
  {
    if IdentTexts(av) == Ok(fs) {
      assert av == Idents(fs);
    }
    if av == Idents(fs) {
      assert IdentTexts(av).value == fs;
    }
  }

  lemma {:induction false} FlagsFieldIff(vals: seq<ConfigValue>, fs: seq<string>)
    ensures FlagsField(vals) == Ok(fs)
        <==> || (FindVal(vals, "flags").None? && fs == DefaultFlags)
             || FindVal(vals, "flags") == Some(Array(Idents(fs)))
  {
    var v := FindVal(vals, "flags");
    if v.Some? && v.value.Array? {
      IdentTextsIff(v.value.items, fs);
    }
  }

  lemma {:induction false} TypeFieldIff(vals: seq<ConfigValue>, t: ProjectType)
    ensures TypeField(vals) == Ok(t)
        <==> || (FindVal(vals, "type").None? && t == DefaultPType)
             || FindVal(vals, "type") == Some(Single(TypeName(t)))
  {
    var v := FindVal(vals, "type");
    if v.Some? && v.value.Array? && |v.value.items| == 1 && v.value.items[0].Ident? {
      var raw := v.value.items[0].text;
      SingleOf(v.value);
      if ProjectTypeOf(raw) == Ok(t) {
        assert raw == TypeName(t);
      }
    }
  }

  /** `from_config` yields `p` exactly when `vals` satisfies the schema for `p`. */
  lemma {:induction false} ProjectOfIff(vals: seq<ConfigValue>, p: Project)
    ensures ProjectOf(vals) == Ok(p) <==> Accepts(vals, p)
  {
    RequiredFieldIff(vals, "name", p.name);
    RequiredFieldIff(vals, "version", p.version);
    StandardFieldIff(vals, p.standard);
    CompilerFieldIff(vals, p.compiler);
    FlagsFieldIff(vals, p.flags);
    TypeFieldIff(vals, p.ptype);
  }

  lemma {:induction false} CompilerFieldIff(vals: seq<ConfigValue>, cc: string)
    ensures CompilerField(vals) == Ok(cc)
        <==> || (FindVal(vals, "cc").None? && cc == DefaultCompiler)
             || FindVal(vals, "cc") == Some(Single(cc))
  {
    var v := FindVal(vals, "cc");
    if v.Some? && v.value.Array? && |v.value.items| == 1 && v.value.items[0].Ident? {
      SingleOf(v.value);
    }
  }

  function ErrorOf<T>(r: Result<T>): Option<Error> {
    if r.Err? then Some(r.error) else Option.None
  }

  /** The outcome of each key's check, in the order `from_config` runs them. */
  function FieldErrors(vals: seq<ConfigValue>): seq<Option<Error>> {
    [ ErrorOf(RequiredField(vals, "name")), ErrorOf(RequiredField(vals, "version")),
      ErrorOf(StandardField(vals)), ErrorOf(CompilerField(vals)),
      ErrorOf(FlagsField(vals)), ErrorOf(TypeField(vals)) ]
  }

  /** The first error of a list of check outcomes, if any. */
  function FirstError(errs: seq<Option<Error>>): (r: Option<Error>)
    ensures r.None? <==> forall k :: 0 <= k < |errs| ==> errs[k].None?
    ensures r.Some? ==> exists k :: 0 <= k < |errs| && errs[k] == r
                          && forall j :: 0 <= j < k ==> errs[j].None?
    decreases |errs|
  {
    if |errs| == 0 then Option.None
    else if errs[0].Some? then errs[0]
    else
      var r := FirstError(errs[1..]);
      assert forall k :: 1 <= k < |errs| ==> errs[k] == errs[1..][k - 1];
      r
  }

  /** `from_config` fails exactly when some key's check fails, and then with
      the error of the first key (in the order name, version, standard, cc,
      flags, type) whose check fails. */
  lemma {:induction false} ProjectOfFirstError(vals: seq<ConfigValue>)
    ensures ErrorOf(ProjectOf(vals)) == FirstError(FieldErrors(vals))
  {
    AssembleFirstError(RequiredField(vals, "name"), RequiredField(vals, "version"), StandardField(vals),
                       CompilerField(vals), FlagsField(vals), TypeField(vals));
  }

  lemma {:induction false} AssembleFirstError(name: Result<string>, version: Result<string>, standard: Result<Standard>,
                           compiler: Result<string>, flags: Result<seq<string>>, ptype: Result<ProjectType>)
    ensures ErrorOf(Assemble(name, version, standard, compiler, flags, ptype))
         == FirstError([ErrorOf(name), ErrorOf(version), ErrorOf(standard),
                        ErrorOf(compiler), ErrorOf(flags), ErrorOf(ptype)])
  {
    var fe := [ErrorOf(name), ErrorOf(version), ErrorOf(standard),
               ErrorOf(compiler), ErrorOf(flags), ErrorOf(ptype)];
    if fe[0].Some? {
      FirstErrorAt(fe, 0);
    } else if fe[1].Some? {
      FirstErrorAt(fe, 1);
    } else if fe[2].Some? {
      FirstErrorAt(fe, 2);
    } else if fe[3].Some? {
      FirstErrorAt(fe, 3);
    } else if fe[4].Some? {
      FirstErrorAt(fe, 4);
    } else if fe[5].Some? {
      FirstErrorAt(fe, 5);
    }
  }

  /** The first failing check is the one reported. */
  lemma {:induction false} FirstErrorAt(errs: seq<Option<Error>>, k: nat)
    requires k < |errs| && errs[k].Some?
    requires forall j :: 0 <= j < k ==> errs[j].None?
    ensures FirstError(errs) == errs[k]
  {
  }

  /** The first pair with the key decides the lookup. */
  lemma {:induction false} FindValAt(vals: seq<ConfigValue>, i: nat, key: string)
    requires i < |vals| && HasKey(vals[i], key)
    requires forall j :: 0 <= j < i ==> !HasKey(vals[j], key)
    ensures FindVal(vals, key) == Some(vals[i].body)
  {
  }

  /** The key/value list a ketchfile for `p` spells out: every key given. */
  function ToConfig(p: Project): seq<ConfigValue> {
    [ Pair("name", Single(p.name)),
      Pair("version", Single(p.version)),
      Pair("standard", Single(Spelling(p.standard))),
      Pair("cc", Single(p.compiler)),
      Pair("flags", Array(Idents(p.flags))),
      Pair("type", Single(TypeName(p.ptype))) ]
  }

  /** Every project is described by its own key/value list. */
  lemma {:induction false} ConfigRoundTrip(p: Project)
    ensures ProjectOf(ToConfig(p)) == Ok(p)
  {
    var vals := ToConfig(p);
    ToConfigLookup(p, 0);
    ToConfigLookup(p, 1);
    ToConfigLookup(p, 2);
    ToConfigLookup(p, 3);
    ToConfigLookup(p, 4);
    ToConfigLookup(p, 5);
    RequiredFieldIff(vals, "name", p.name);
    RequiredFieldIff(vals, "version", p.version);
    StandardFieldIff(vals, p.standard);
    CompilerFieldIff(vals, p.compiler);
    FlagsFieldIff(vals, p.flags);
    TypeFieldIff(vals, p.ptype);
    assert ProjectOf(vals) == Assemble(Ok(p.name), Ok(p.version), Ok(p.standard),
                                       Ok(p.compiler), Ok(p.flags), Ok(p.ptype));
  }

  /** Each key of `ToConfig(p)` is found at its own position. */
  lemma {:induction false} ToConfigLookup(p: Project, i: nat)
    requires i < 6
    ensures FindVal(ToConfig(p), ToConfig(p)[i].key) == Some(ToConfig(p)[i].body)
  {
    var vals := ToConfig(p);
    forall j | 0 <= j < i
      ensures !HasKey(vals[j], vals[i].key)
    {
      assert |vals[j].key| != |vals[i].key| || vals[j].key[0] != vals[i].key[0];
    }
    FindValAt(vals, i, vals[i].key);
  }

  /** A list with only `name` and `version` yields the default project. */
  lemma {:induction false} DefaultsWhenAbsent(name: string, version: string)
    ensures ProjectOf([Pair("name", Single(name)), Pair("version", Single(version))])
         == Ok(Project(name, version, DefaultStandard, DefaultCompiler, DefaultFlags, DefaultPType))
  {
    var vals := [Pair("name", Single(name)), Pair("version", Single(version))];
    var p := Project(name, version, DefaultStandard, DefaultCompiler, DefaultFlags, DefaultPType);
    assert FindVal(vals, "name") == Some(Single(name));
    assert FindVal(vals, "version") == Some(Single(version));
    assert FindVal(vals, "standard").None?;
    assert FindVal(vals, "cc").None?;
    assert FindVal(vals, "flags").None?;
    assert FindVal(vals, "type").None?;
    ProjectOfIff(vals, p);
  }

  /** The `flags` loop: pushes each identifier's text, returning early at
      the first element that is not an identifier. */
  method CollectFlags(av: seq<ConfigValue>) returns (r: Result<seq<string>>)
    ensures r == IdentTexts(av)
  {
    var flags: seq<string> := [];
    for i := 0 to |av|
      invariant |flags| == i
      invariant forall j :: 0 <= j < i ==> av[j].Ident? && flags[j] == av[j].text
    {
      if av[i].Ident? {
        flags := flags + [av[i].text];
      } else {
        return Err(FlagNotIdent);
      }
    }
    assert IdentTexts(av).value == flags;
    return Ok(flags);
  }

  method FromConfig(vals: seq<ConfigValue>) returns (r: Result<Project>)
    ensures r == ProjectOf(vals)
  {
    var name :- RequiredField(vals, "name");
    var version :- RequiredField(vals, "version");
    var standard :- StandardField(vals);
    var compiler :- CompilerField(vals);
    var flags: seq<string>;
    match FindVal(vals, "flags") {
      case None =>
        flags := DefaultFlags;
      case Some(Array(av)) =>
        var collected := CollectFlags(av);
        if collected.Err? {
          return Err(collected.error);
        }
        flags := collected.value;
      case Some(_) =>
        return Err(FlagsNotArray);
    }
    var ptype :- TypeField(vals);
    return Ok(Project(name, version, standard, compiler, flags, ptype));
  }

  function TypeLabel(t: ProjectType): string {
    match t
    case Binary => "BIN"
    case Shared => "SHARED"
    case Static => "STATIC"
  }

  /** The fold in `Display for Project`: every flag followed by a space. */
  function FlagsText(flags: seq<string>): string
    decreases |flags|
  {
    if |flags| == 0 then "" else flags[0] + " " + FlagsText(flags[1..])
  }

  /** The five labelled lines `Display for Project` writes. */
  function SummaryLines(p: Project): seq<string> {
    [ "CC       " + p.compiler,
      "CFLAGS   " + FlagsText(p.flags) + "-std=" + RenderStandard(p.standard),
      "TYPE     " + TypeLabel(p.ptype),
      "NAME     " + p.name,
      "VERSION  " + p.version ]
  }

  /** `Display for Project`: the lines, each but the last ended by `writeln`. */
  function Summary(p: Project): string {
    Join(SummaryLines(p), "\n")
  }

  /** The CFLAGS line lists the flags and then the `-std=` flag, separated
      by single spaces: the fold is a join. */
  lemma {:induction false} FlagsTextJoin(flags: seq<string>, last: string)
    ensures FlagsText(flags) + last == Join(flags + [last], " ")
    decreases |flags|
  {
    if |flags| == 0 {
      assert flags + [last] == [last];
    } else {
      FlagsTextJoin(flags[1..], last);
      assert (flags + [last])[1..] == flags[1..] + [last];
      assert flags[0] + " " + FlagsText(flags[1..]) + last == flags[0] + " " + (FlagsText(flags[1..]) + last);
    }
  }

  lemma {:induction false} FlagsTextNewlines(flags: seq<string>)
    requires forall i :: 0 <= i < |flags| ==> '\n' !in flags[i]
    ensures '\n' !in FlagsText(flags)
    decreases |flags|
  {
    if |flags| > 0 {
      FlagsTextNewlines(flags[1..]);
    }
  }

  /** No rendered standard holds a line break. */
  lemma {:induction false} StandardNoBreak(st: Standard)
    ensures '\n' !in RenderStandard(st)
  {
    RenderStandardText(st);
    YearText(st.std);
    assert '\n' !in Prefix(st.gnuExtensions);
  }

  /** None of the summary's lines holds a line break of its own. */
  lemma {:induction false} SummaryLinesNoBreak(p: Project)
    requires '\n' !in p.compiler && '\n' !in p.name && '\n' !in p.version
    requires forall i :: 0 <= i < |p.flags| ==> '\n' !in p.flags[i]
    ensures forall i :: 0 <= i < |SummaryLines(p)| ==> '\n' !in SummaryLines(p)[i]
  {
    var ls := SummaryLines(p);
    assert '\n' !in ls[1] by {
      FlagsTextNewlines(p.flags);
      StandardNoBreak(p.standard);
      assert ls[1] == "CFLAGS   " + FlagsText(p.flags) + "-std=" + RenderStandard(p.standard);
    }
    assert '\n' !in ls[2] by {
      assert ls[2] == "TYPE     " + TypeLabel(p.ptype);
    }
    assert '\n' !in ls[0] && '\n' !in ls[3] && '\n' !in ls[4];
  }

  /** The summary is five lines: four line breaks, when no field holds one. */
  lemma {:induction false} SummaryLineCount(p: Project)
    requires '\n' !in p.compiler && '\n' !in p.name && '\n' !in p.version
    requires forall i :: 0 <= i < |p.flags| ==> '\n' !in p.flags[i]
    ensures Newlines(Summary(p)) == 4
  {
    SummaryLinesNoBreak(p);
    JoinNewlines(SummaryLines(p));
  }
}
