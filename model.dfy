/** The configuration tree of `src/model/mod.rs` and its projection to
    Rust source text.

    The XML document has already been decoded into the datatypes below;
    `Value` resolves a config to its effective value, the `Text` functions
    say what the file holds, and the `Dump` methods are the walk itself:
    they append to a caller-owned `Buffer` and push and pop section names
    on a shared `PathStack`, and are proved to write exactly that text.

    Where the Rust code panics (no value child, enum index past the last
    member) the model returns the `Fault` instead, and the walk stops there. */
module Model {
  import opened Base
  import opened Strings
  import opened Emit

  /** An `f64`, kept as its IEEE-754 bits. Its `Display` text is supplied
      by the caller as `showF64`. */
  datatype F64 = F64(bits: bv64)

  // `min`, `max`, `min-length` and `max-length` are decoded but never read.
  datatype BooleanType = BooleanType(default: bool, value: Option<bool>)
  datatype IntegerType = IntegerType(default: i32, value: Option<i32>, min: Option<i32>, max: Option<i32>)
  datatype DoubleType = DoubleType(default: F64, value: Option<F64>, min: Option<F64>, max: Option<F64>)
  datatype StringType = StringType(default: string, value: Option<string>,
                                   minLength: Option<u32>, maxLength: Option<u32>)
  datatype MemberType = MemberType(content: string)

  datatype EnumType = EnumType(default: u32, value: Option<u32>, members: seq<MemberType>)
  {
    /** The member index `value.unwrap_or(default)` selects. */
    function Index(): nat
    {
      value.UnwrapOr(default)
    }
  }

  datatype Kind = BooleanKind | IntegerKind | DoubleKind | StringKind | EnumKind

  /** A resolved value, as `ConfigType::value` returns it. */
  datatype ConfigDataType =
    | Boolean(b: bool)
    | Integer(i: i32)
    | Double(d: F64)
    | String(s: string)
    | Enum(e: string)
  {
    function Kind(): Kind
    {
      match this
      case Boolean(_) => BooleanKind
      case Integer(_) => IntegerKind
      case Double(_) => DoubleKind
      case String(_) => StringKind
      case Enum(_) => EnumKind
    }

    /** The Rust type of the static declared for this value. */
    function TypeName(): string
    {
      match this
      case Boolean(_) => "bool"
      case Integer(_) => "i32"
      case Double(_) => "f64"
      case String(_) => "&'static str"
      case Enum(_) => "&'static str"
    }

    /** The literal written after `=`: the `Display` text of booleans,
        integers and doubles, and the quoted text of strings and enum
        members. Each reads back as the value it came from. */
    function Literal(showF64: F64 -> string): (r: string)
      ensures Boolean? ==> ParseBool(r) == Some(b)
      ensures Integer? ==> ParseInt(r) == Some(i)
      ensures Double? ==> r == showF64(d)
      ensures String? ==> Unquote(r) == Some(s)
      ensures Enum? ==> Unquote(r) == Some(e)
    {
      match this
      case Boolean(b) => BoolText(b)
      case Integer(i) => IntText(i)
      case Double(d) => showF64(d)
      case String(s) => Quote(s)
      case Enum(e) => Quote(e)
    }
  }

  datatype ConfigType = ConfigType(
    key: string,
    boolean: Option<BooleanType>,
    integer: Option<IntegerType>,
    double: Option<DoubleType>,
    str: Option<StringType>,
    enumeration: Option<EnumType>)
  {
    /** The kinds whose child element is present, in document-independent
        priority order. */
    function Slots(): seq<Kind>
    {
      (if boolean.Some? then [BooleanKind] else [])
      + (if integer.Some? then [IntegerKind] else [])
      + (if double.Some? then [DoubleKind] else [])
      + (if str.Some? then [StringKind] else [])
      + (if enumeration.Some? then [EnumKind] else [])
    }

    /** `ConfigType::value`: the first present child wins; its override if
        given, else its default. An enum selects the member at that index. */
    function Value(): (r: Result<ConfigDataType, Fault>)
      ensures r.Ok? ==> Slots() != [] && r.value.Kind() == Slots()[0]
      ensures r == Err(NoValueKind(key)) <==> Slots() == []
      ensures r.Err? ==> Slots() == [] || Slots()[0] == EnumKind
      ensures r.Ok? && r.value.Boolean? ==>
        boolean.Some? && r.value.b == (if boolean.value.value.Some? then boolean.value.value.value else boolean.value.default)
      ensures r.Ok? && r.value.Integer? ==>
        integer.Some? && r.value.i == (if integer.value.value.Some? then integer.value.value.value else integer.value.default)
      ensures r.Ok? && r.value.Double? ==>
        double.Some? && r.value.d == (if double.value.value.Some? then double.value.value.value else double.value.default)
      ensures r.Ok? && r.value.String? ==>
        str.Some? && r.value.s == (if str.value.value.Some? then str.value.value.value else str.value.default)
      ensures Slots() != [] && Slots()[0] == EnumKind ==>
        enumeration.Some? &&
        var e := enumeration.value;
        if e.Index() < |e.members| then r == Ok(Enum(e.members[e.Index()].content))
        else r == Err(MemberOutOfRange(key, e.Index(), |e.members|))
    {
      if boolean.Some? then
        Ok(Boolean(boolean.value.value.UnwrapOr(boolean.value.default)))
      else if integer.Some? then
        Ok(Integer(integer.value.value.UnwrapOr(integer.value.default)))
      else if double.Some? then
        Ok(Double(double.value.value.UnwrapOr(double.value.default)))
      else if str.Some? then
        Ok(String(str.value.value.UnwrapOr(str.value.default)))
      else if enumeration.Some? then
        var e := enumeration.value;
        if e.Index() < |e.members| then Ok(Enum(e.members[e.Index()].content))
        else Err(MemberOutOfRange(key, e.Index(), |e.members|))
      else
        Err(NoValueKind(key))
    }

    /** The fault resolution runs into, read off the slots alone: no slot
        is present, or the enum is first in line and its index is past its
        last member. */
    function Problem(): Option<Fault>
    {
      if Slots() == [] then Some(NoValueKind(key))
      else if Slots()[0] == EnumKind && enumeration.Some?
              && enumeration.value.Index() >= |enumeration.value.members| then
        Some(MemberOutOfRange(key, enumeration.value.Index(), |enumeration.value.members|))
      else None
    }

    /** What `dump` appends for this config: one declaration whose name is
        the upper-cased key and whose type and literal follow the resolved
        value. It reads back as exactly those three parts. */
    function Line(showF64: F64 -> string): (r: Result<string, Fault>)
      ensures r.Err? <==> Value().Err?
      ensures r.Err? ==> r.error == Value().error
      ensures r.Ok? ==> r.value == Declaration(Upper(key), Value().value.TypeName(), Value().value.Literal(showF64))
      ensures r.Ok? && ':' !in key ==>
        ParseDeclaration(r.value)
        == Some(Decl(Upper(key), Value().value.TypeName(), Value().value.Literal(showF64)))
    {
      match Value()
      case Err(f) => Err(f)
      case Ok(v) =>
        DeclarationReadsBack(key, v, showF64);
        Ok(Declaration(Upper(key), v.TypeName(), v.Literal(showF64)))
    }

    /** `ConfigType::dump`. The `depth` argument is ignored by this
        version and is left out. */
    method Dump(buffer: Buffer, showF64: F64 -> string) returns (outcome: Outcome<Fault>)
      modifies buffer
      ensures Line(showF64).Ok? ==> outcome == Pass && buffer.text == old(buffer.text) + Line(showF64).value
      ensures Line(showF64).Err? ==> outcome == Fail(Line(showF64).error) && buffer.text == old(buffer.text)
    {
      var v := Value();
      if v.Err? {
        return Fail(v.error);
      }
      match v.value {
        case Boolean(b) => GenericImpl(this, "bool", buffer, BoolText(b));
        case Integer(i) => GenericImpl(this, "i32", buffer, IntText(i));
        case Double(d) => GenericImpl(this, "f64", buffer, showF64(d));
        case String(s) => GenericImpl(this, "&'static str", buffer, Quote(s));
        case Enum(e) => GenericImpl(this, "&'static str", buffer, Quote(e));
      }
      outcome := Pass;
    }
  }

  lemma DeclarationReadsBack(key: string, v: ConfigDataType, showF64: F64 -> string)
    ensures ':' !in key ==>
      ParseDeclaration(Declaration(Upper(key), v.TypeName(), v.Literal(showF64)))
      == Some(Decl(Upper(key), v.TypeName(), v.Literal(showF64)))
  {
    if ':' !in key {
      UpperKeepsChar(key, ':');
      DeclarationRoundTrip(Upper(key), v.TypeName(), v.Literal(showF64));
    }
  }

  /** `generic_impl`: appends the declaration of `outer`'s upper-cased key
      with the given type and the already formatted value, and nothing else. */
  method GenericImpl(outer: ConfigType, dtype: string, buffer: Buffer, value: string)
    modifies buffer
    ensures buffer.text == old(buffer.text) + Declaration(Upper(outer.key), dtype, value)
  {
    buffer.PushStr(DeclPrefix + Upper(outer.key) + ": " + dtype + " = " + value + DeclSuffix);
  }

  datatype SectionType = SectionType(name: string, sections: seq<SectionType>, configs: seq<ConfigType>)
  {
    /** What `dump` appends when `depth` holds `path`: the banner naming
        `path` joined by `::`, then each nested section (with its own name
        pushed) after a blank line, then each config's declaration. */
    function Text(path: seq<string>, showF64: F64 -> string): Result<string, Fault>
      decreases this
    {
      match SectionsText(path, sections, showF64)
      case Err(f) => Err(f)
      case Ok(nested) =>
        match ConfigsText(configs, showF64)
        case Err(f) => Err(f)
        case Ok(decls) => Ok(Banner([Join(path, "::")]) + nested + decls)
    }

    /** `SectionType::dump`: `depth` must be present (`unwrap`). Each
        nested section is dumped with its name pushed on `depth` and popped
        again afterwards, so `depth` ends as it started. */
    method Dump(buffer: Buffer, depth: PathStack?, showF64: F64 -> string) returns (outcome: Outcome<Fault>)
      requires depth != null
      modifies buffer, depth
      ensures depth.names == old(depth.names)
      ensures old(buffer.text) <= buffer.text
      ensures Text(old(depth.names), showF64).Ok? ==>
        outcome == Pass && buffer.text == old(buffer.text) + Text(old(depth.names), showF64).value
      ensures Text(old(depth.names), showF64).Err? ==>
        outcome == Fail(Text(old(depth.names), showF64).error)
      decreases this
    {
      ghost var path := depth.names;
      ghost var start := buffer.text;
      var banner := Banner([Join(depth.names, "::")]);
      buffer.PushStr(banner);
      ghost var head := buffer.text;

      ghost var nested := "";
      var i := 0;
      while i < |sections|
        invariant 0 <= i <= |sections|
        invariant depth.names == path
        invariant SectionsText(path, sections[..i], showF64) == Ok(nested)
        invariant buffer.text == head + nested
      {
        var child := sections[i];
        ghost var before := buffer.text;
        buffer.PushStr("\n");
        depth.Push(child.name);
        var r := child.Dump(buffer, depth, showF64);
        var _ := depth.Pop();
        SectionsStep(path, sections, i, showF64);
        if r.Fail? {
          SectionsErrExtends(path, sections, i + 1, showF64);
          PrefixTrans(start, head, before);
          PrefixTrans(start, before, before + "\n");
          PrefixTrans(start, before + "\n", buffer.text);
          return r;
        }
        Assoc(head + nested, "\n", child.Text(path + [child.name], showF64).value);
        Assoc(head, nested, "\n" + child.Text(path + [child.name], showF64).value);
        Assoc(nested, "\n", child.Text(path + [child.name], showF64).value);
        nested := nested + "\n" + child.Text(path + [child.name], showF64).value;
        i := i + 1;
      }
      assert sections[..i] == sections;

      ghost var decls := "";
      var j := 0;
      while j < |configs|
        invariant 0 <= j <= |configs|
        invariant depth.names == path
        invariant ConfigsText(configs[..j], showF64) == Ok(decls)
        invariant buffer.text == head + nested + decls
      {
        ghost var before := buffer.text;
        var r := configs[j].Dump(buffer, showF64);
        ConfigsStep(configs, j, showF64);
        if r.Fail? {
          ConfigsErrExtends(configs, j + 1, showF64);
          PrefixTrans(start, head, before);
          return r;
        }
        Assoc(head + nested, decls, configs[j].Line(showF64).value);
        decls := decls + configs[j].Line(showF64).value;
        j := j + 1;
      }
      assert configs[..j] == configs;
      Assoc(start, banner, nested);
      Assoc(start, banner + nested, decls);
      outcome := Pass;
    }
  }

  lemma SectionsStep(path: seq<string>, ss: seq<SectionType>, i: nat, showF64: F64 -> string)
    requires i < |ss|
    ensures SectionsText(path, ss[..i + 1], showF64) ==
      match SectionsText(path, ss[..i], showF64)
      case Err(f) => Err(f)
      case Ok(before) =>
        match ss[i].Text(path + [ss[i].name], showF64)
        case Err(f) => Err(f)
        case Ok(t) => Ok(before + "\n" + t)
  {
    assert ss[..i + 1][..i] == ss[..i];
  }

  lemma ConfigsStep(cs: seq<ConfigType>, j: nat, showF64: F64 -> string)
    requires j < |cs|
    ensures ConfigsText(cs[..j + 1], showF64) ==
      match ConfigsText(cs[..j], showF64)
      case Err(f) => Err(f)
      case Ok(before) =>
        match cs[j].Line(showF64)
        case Err(f) => Err(f)
        case Ok(t) => Ok(before + t)
  {
    assert cs[..j + 1][..j] == cs[..j];
  }

  /** The text of consecutive sibling sections, each after a blank line
      and with its own name appended to `path`. */
  function SectionsText(path: seq<string>, ss: seq<SectionType>, showF64: F64 -> string): Result<string, Fault>
    decreases ss
  {
    if ss == [] then Ok("")
    else
      var last := ss[|ss| - 1];
      match SectionsText(path, ss[..|ss| - 1], showF64)
      case Err(f) => Err(f)
      case Ok(before) =>
        match last.Text(path + [last.name], showF64)
        case Err(f) => Err(f)
        case Ok(t) => Ok(before + "\n" + t)
  }

  /** The declarations of consecutive configs. */
  function ConfigsText(cs: seq<ConfigType>, showF64: F64 -> string): Result<string, Fault>
  {
    if cs == [] then Ok("")
    else
      match ConfigsText(cs[..|cs| - 1], showF64)
      case Err(f) => Err(f)
      case Ok(before) =>
        match cs[|cs| - 1].Line(showF64)
        case Err(f) => Err(f)
        case Ok(t) => Ok(before + t)
  }

  /** Once a prefix of the siblings fails, so does the whole run, with the same fault. */
  lemma {:induction false} SectionsErrExtends(path: seq<string>, ss: seq<SectionType>, k: nat,
                                              showF64: F64 -> string)
    requires k <= |ss|
    requires SectionsText(path, ss[..k], showF64).Err?
    ensures SectionsText(path, ss, showF64) == SectionsText(path, ss[..k], showF64)
    decreases |ss|
  {
    if k < |ss| {
      assert ss[..|ss| - 1][..k] == ss[..k];
      SectionsErrExtends(path, ss[..|ss| - 1], k, showF64);
    } else {
      assert ss[..k] == ss;
    }
  }

  lemma {:induction false} ConfigsErrExtends(cs: seq<ConfigType>, k: nat, showF64: F64 -> string)
    requires k <= |cs|
    requires ConfigsText(cs[..k], showF64).Err?
    ensures ConfigsText(cs, showF64) == ConfigsText(cs[..k], showF64)
    decreases |cs|
  {
    if k < |cs| {
      assert cs[..|cs| - 1][..k] == cs[..k];
      ConfigsErrExtends(cs[..|cs| - 1], k, showF64);
    } else {
      assert cs[..k] == cs;
    }
  }

  /** A config's line fails exactly when `Problem` names a fault, and with that fault. */
  lemma LineProblem(c: ConfigType, showF64: F64 -> string)
    ensures c.Line(showF64).Err? <==> c.Problem().Some?
    ensures c.Line(showF64).Err? ==> c.Line(showF64).error == c.Problem().value
  {
  }

  /** Every fault of a section, in document order: those of its nested
      sections first, then those of its configs. */
  function SectionFaults(s: SectionType): seq<Fault>
    decreases s
  {
    SectionsFaults(s.sections) + ConfigsFaults(s.configs)
  }

  function SectionsFaults(ss: seq<SectionType>): seq<Fault>
    decreases ss
  {
    if ss == [] then [] else SectionsFaults(ss[..|ss| - 1]) + SectionFaults(ss[|ss| - 1])
  }

  function ConfigsFaults(cs: seq<ConfigType>): seq<Fault>
  {
    if cs == [] then []
    else
      ConfigsFaults(cs[..|cs| - 1])
      + (match cs[|cs| - 1].Problem() case None => [] case Some(f) => [f])
  }

  /** A section's text fails exactly when the section holds a fault, and
      then with the first one in document order. */
  lemma {:induction false} SectionTextFaults(s: SectionType, path: seq<string>, showF64: F64 -> string)
    ensures s.Text(path, showF64).Err? <==> SectionFaults(s) != []
    ensures s.Text(path, showF64).Err? ==> s.Text(path, showF64).error == SectionFaults(s)[0]
    decreases s
  {
    SectionsTextFaults(path, s.sections, showF64);
    ConfigsTextFaults(s.configs, showF64);
  }

  lemma {:induction false} SectionsTextFaults(path: seq<string>, ss: seq<SectionType>, showF64: F64 -> string)
    ensures SectionsText(path, ss, showF64).Err? <==> SectionsFaults(ss) != []
    ensures SectionsText(path, ss, showF64).Err? ==>
      SectionsText(path, ss, showF64).error == SectionsFaults(ss)[0]
    decreases ss
  {
    if ss != [] {
      var last := ss[|ss| - 1];
      SectionsTextFaults(path, ss[..|ss| - 1], showF64);
      SectionTextFaults(last, path + [last.name], showF64);
    }
  }

  lemma {:induction false} ConfigsTextFaults(cs: seq<ConfigType>, showF64: F64 -> string)
    ensures ConfigsText(cs, showF64).Err? <==> ConfigsFaults(cs) != []
    ensures ConfigsText(cs, showF64).Err? ==> ConfigsText(cs, showF64).error == ConfigsFaults(cs)[0]
  {
    if cs != [] {
      ConfigsTextFaults(cs[..|cs| - 1], showF64);
      LineProblem(cs[|cs| - 1], showF64);
    }
  }

  /** A section's text opens with the banner of its path; for a section
      dumped with its own name pushed, that is its parent's path, `::` and
      its name (or its name alone at the top level). */
  lemma OwnBanner(path: seq<string>, s: SectionType, showF64: F64 -> string)
    requires s.Text(path + [s.name], showF64).Ok?
    ensures Banner([if path == [] then s.name else Join(path, "::") + "::" + s.name])
            <= s.Text(path + [s.name], showF64).value
  {
    if path != [] {
      JoinSnoc(path, s.name, "::");
    } else {
      assert path + [s.name] == [s.name];
    }
    var nested := SectionsText(path + [s.name], s.sections, showF64).value;
    var decls := ConfigsText(s.configs, showF64).value;
    var b := Banner([Join(path + [s.name], "::")]);
    Assoc(b, nested, decls);
    assert (b + (nested + decls))[..|b|] == b;
  }

  datatype Konfigurator = Konfigurator(name: string, arch: string, profile: string, sections: seq<SectionType>)
  {
    /** The whole generated file: the header banner, then each top-level
        section after a blank line, its path being its own name alone. */
    function Text(crateTitle: string, crateVersion: string, showF64: F64 -> string): (r: Result<string, Fault>)
    {
      match SectionsText([], sections, showF64)
      case Err(f) => Err(f)
      case Ok(body) => Ok(Header(crateTitle, crateVersion, name, arch, profile) + body)
    }

    /** `Konfigurator::dump`: the header, then the top-level sections with a
        fresh, empty path stack that is empty again after each of them. */
    method Dump(buffer: Buffer, crateTitle: string, crateVersion: string, showF64: F64 -> string)
      returns (outcome: Outcome<Fault>)
      modifies buffer
      ensures old(buffer.text) <= buffer.text
      ensures Text(crateTitle, crateVersion, showF64).Ok? ==>
        outcome == Pass && buffer.text == old(buffer.text) + Text(crateTitle, crateVersion, showF64).value
      ensures Text(crateTitle, crateVersion, showF64).Err? ==>
        outcome == Fail(Text(crateTitle, crateVersion, showF64).error)
    {
      ghost var start := buffer.text;
      var header := Header(crateTitle, crateVersion, name, arch, profile);
      buffer.PushStr(header);

      ghost var head := buffer.text;

      var depth := new PathStack();
      ghost var body := "";
      var i := 0;
      while i < |sections|
        invariant 0 <= i <= |sections|
        invariant depth.names == []
        invariant SectionsText([], sections[..i], showF64) == Ok(body)
        invariant buffer.text == head + body
      {
        var child := sections[i];
        ghost var before := buffer.text;
        buffer.PushStr("\n");
        depth.Push(child.name);
        var r := child.Dump(buffer, depth, showF64);
        var _ := depth.Pop();
        SectionsStep([], sections, i, showF64);
        if r.Fail? {
          SectionsErrExtends([], sections, i + 1, showF64);
          PrefixTrans(start, head, before);
          PrefixTrans(start, before, before + "\n");
          PrefixTrans(start, before + "\n", buffer.text);
          return r;
        }
        Assoc(head + body, "\n", child.Text([] + [child.name], showF64).value);
        Assoc(head, body, "\n" + child.Text([] + [child.name], showF64).value);
        Assoc(body, "\n", child.Text([] + [child.name], showF64).value);
        body := body + "\n" + child.Text([] + [child.name], showF64).value;
        i := i + 1;
      }
      assert sections[..i] == sections;
      Assoc(start, header, body);
      outcome := Pass;
    }

    /** `Konfigurator::dump_to_file` without the write: the text handed to
        `fs::write`, or the fault at which the dump stopped. */
    method DumpToFile(crateTitle: string, crateVersion: string, showF64: F64 -> string)
      returns (contents: Result<string, Fault>)
      ensures contents == Text(crateTitle, crateVersion, showF64)
    {
      var buffer := new Buffer();
      var outcome := Dump(buffer, crateTitle, crateVersion, showF64);
      if outcome.Fail? {
        return Err(outcome.error);
      }
      assert Text(crateTitle, crateVersion, showF64).Ok?;
      assert "" + Text(crateTitle, crateVersion, showF64).value == Text(crateTitle, crateVersion, showF64).value;
      return Ok(buffer.text);
    }
  }

  /** The file fails exactly when some config in it faults, and then with
      the first such fault in document order. */
  lemma TextFaults(k: Konfigurator, crateTitle: string, crateVersion: string, showF64: F64 -> string)
    ensures k.Text(crateTitle, crateVersion, showF64).Err? <==> SectionsFaults(k.sections) != []
    ensures k.Text(crateTitle, crateVersion, showF64).Err? ==>
      k.Text(crateTitle, crateVersion, showF64).error == SectionsFaults(k.sections)[0]
  {
    SectionsTextFaults([], k.sections, showF64);
  }

  /** The file opens with the header, from which the tree's name,
      architecture and profile read back. */
  lemma IdentityReadsBack(k: Konfigurator, crateTitle: string, crateVersion: string, showF64: F64 -> string)
    requires '|' !in crateTitle && '|' !in crateVersion
    requires '/' !in k.name && '/' !in k.arch
    requires k.Text(crateTitle, crateVersion, showF64).Ok?
    ensures var h := Header(crateTitle, crateVersion, k.name, k.arch, k.profile);
      h <= k.Text(crateTitle, crateVersion, showF64).value
      && ParseIdentity(k.Text(crateTitle, crateVersion, showF64).value[..|h|]) == Some((k.name, k.arch, k.profile))
  {
    var h := Header(crateTitle, crateVersion, k.name, k.arch, k.profile);
    var body := SectionsText([], k.sections, showF64).value;
    HeaderRoundTrip(crateTitle, crateVersion, k.name, k.arch, k.profile);
    assert (h + body)[..|h|] == h;
  }
}
