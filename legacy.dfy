/** The older configuration tree of `src/model.rs`. The walk is the same
    as in `Model`; what differs is the config: only boolean, integer and
    enum values (enum members are `i32`), every constant is declared `i64`,
    and its name is qualified by the whole section path held on `depth`. */
module LegacyModel {
  import opened Base
  import opened Strings
  import opened Emit
  import Model

  type BooleanType = Model.BooleanType
  type IntegerType = Model.IntegerType

  datatype MemberType = MemberType(content: i32)

  datatype EnumType = EnumType(default: u32, value: Option<u32>, members: seq<MemberType>)
  {
    /** The member index `value.unwrap_or(default)` selects. */
    function Index(): nat
    {
      value.UnwrapOr(default)
    }
  }

  datatype Kind = BooleanKind | IntegerKind | EnumKind

  /** A resolved value: only three kinds exist here. */
  datatype ConfigDataType =
    | Boolean(b: bool)
    | Integer(i: i32)
    | Enum(e: i32)
  {
    function Kind(): Kind
    {
      match this
      case Boolean(_) => BooleanKind
      case Integer(_) => IntegerKind
      case Enum(_) => EnumKind
    }

    /** The `Display` text written after `=`; it reads back as the value. */
    function Literal(): (r: string)
      ensures Boolean? ==> ParseBool(r) == Some(b)
      ensures Integer? ==> ParseInt(r) == Some(i)
      ensures Enum? ==> ParseInt(r) == Some(e)
    {
      match this
      case Boolean(b) => BoolText(b)
      case Integer(i) => IntText(i)
      case Enum(e) => IntText(e)
    }
  }

  /** The declared name of `key` in the section whose path is `path`. */
  function Name(path: seq<string>, key: string): string
  {
    Upper("CONFIG_" + Join(path, "_") + "_" + key)
  }

  /** The name is the fixed prefix, the upper-cased `_`-joined path, `_`
      and the upper-cased key. */
  lemma NameShape(path: seq<string>, key: string)
    ensures Name(path, key) == "CONFIG_" + Upper(Join(path, "_")) + "_" + Upper(key)
  {
    UpperConcat("CONFIG_" + Join(path, "_") + "_", key);
    UpperConcat("CONFIG_" + Join(path, "_"), "_");
    UpperConcat("CONFIG_", Join(path, "_"));
  }

  /** For a given key, the name tells the (upper-cased, joined) section
      path apart: configs with the same key in sections whose joined paths
      differ get different names. */
  lemma NameDeterminesPath(p: seq<string>, q: seq<string>, key: string)
    requires Name(p, key) == Name(q, key)
    ensures Upper(Join(p, "_")) == Upper(Join(q, "_"))
  {
    NameShape(p, key);
    NameShape(q, key);
    var a := Upper(Join(p, "_"));
    var b := Upper(Join(q, "_"));
    var k := "_" + Upper(key);
    Assoc("CONFIG_" + a, "_", Upper(key));
    Assoc("CONFIG_" + b, "_", Upper(key));
    var n := Name(p, key);
    assert n[7..|n| - |k|] == a;
    assert n[7..|n| - |k|] == b;
  }

  /** The name is not injective: `_` inside a section name or a key cannot
      be told apart from the `_` the join inserts. */
  lemma NamesCanCollide()
    ensures Name(["a_b"], "c") == Name(["a"], "b_c")
  {
  }

  datatype ConfigType = ConfigType(
    key: string,
    boolean: Option<BooleanType>,
    integer: Option<IntegerType>,
    enumeration: Option<EnumType>)
  {
    /** The kinds whose child element is present, in priority order. */
    function Slots(): seq<Kind>
    {
      (if boolean.Some? then [BooleanKind] else [])
      + (if integer.Some? then [IntegerKind] else [])
      + (if enumeration.Some? then [EnumKind] else [])
    }

    /** `ConfigType::value`: boolean before integer before enum; an enum
        selects the `i32` content of the member at its index. */
    function Value(): (r: Result<ConfigDataType, Fault>)
      ensures r.Ok? ==> Slots() != [] && r.value.Kind() == Slots()[0]
      ensures r == Err(NoValueKind(key)) <==> Slots() == []
      ensures r.Err? ==> Slots() == [] || Slots()[0] == EnumKind
      ensures r.Ok? && r.value.Boolean? ==>
        boolean.Some? && r.value.b == (if boolean.value.value.Some? then boolean.value.value.value else boolean.value.default)
      ensures r.Ok? && r.value.Integer? ==>
        integer.Some? && r.value.i == (if integer.value.value.Some? then integer.value.value.value else integer.value.default)
      ensures Slots() != [] && Slots()[0] == EnumKind ==>
        enumeration.Some? &&
        var e := enumeration.value;
        if e.Index() < |e.members| then r == Ok(Enum(e.members[e.Index()].content))
        else r == Err(MemberOutOfRange(key, e.Index(), |e.members|))
    {
      if boolean.Some? then
        Ok(Boolean(boolean.value.value.UnwrapOr(boolean.value.default)))
      else if integer.Some? then
        Ok(Integer(integer.value.value.UnwrapOr(integer.value.default)))
      else if enumeration.Some? then
        var e := enumeration.value;
        if e.Index() < |e.members| then Ok(Enum(e.members[e.Index()].content))
        else Err(MemberOutOfRange(key, e.Index(), |e.members|))
      else
        Err(NoValueKind(key))
    }

    /** The fault resolution runs into, read off the slots alone. */
    function Problem(): Option<Fault>
    {
      if Slots() == [] then Some(NoValueKind(key))
      else if Slots()[0] == EnumKind && enumeration.Some?
              && enumeration.value.Index() >= |enumeration.value.members| then
        Some(MemberOutOfRange(key, enumeration.value.Index(), |enumeration.value.members|))
      else None
    }

    /** What `dump` appends for this config while `depth` holds `path`: an
        `i64` declaration named after the path and the key, whatever the
        kind. It reads back as exactly that name, `i64` and the literal. */
    function Line(path: seq<string>): (r: Result<string, Fault>)
      ensures r.Err? <==> Value().Err?
      ensures r.Err? ==> r.error == Value().error
      ensures r.Ok? ==> r.value == Declaration(Name(path, key), "i64", Value().value.Literal())
      ensures r.Ok? && ':' !in key && (forall i :: 0 <= i < |path| ==> ':' !in path[i]) ==>
        ParseDeclaration(r.value) == Some(Decl(Name(path, key), "i64", Value().value.Literal()))
    {
      match Value()
      case Err(f) => Err(f)
      case Ok(v) =>
        DeclarationReadsBack(path, key, v.Literal());
        Ok(Declaration(Name(path, key), "i64", v.Literal()))
    }

    /** `ConfigType::dump`: `depth` must be present, and is only read. */
    method Dump(buffer: Buffer, depth: PathStack?) returns (outcome: Outcome<Fault>)
      requires depth != null
      modifies buffer
      ensures Line(depth.names).Ok? ==> outcome == Pass && buffer.text == old(buffer.text) + Line(depth.names).value
      ensures Line(depth.names).Err? ==> outcome == Fail(Line(depth.names).error) && buffer.text == old(buffer.text)
    {
      var v := Value();
      if v.Err? {
        return Fail(v.error);
      }
      match v.value {
        case Boolean(b) => GenericImpl(this, buffer, BoolText(b), depth);
        case Integer(i) => GenericImpl(this, buffer, IntText(i), depth);
        case Enum(e) => GenericImpl(this, buffer, IntText(e), depth);
      }
      outcome := Pass;
    }
  }

  lemma DeclarationReadsBack(path: seq<string>, key: string, literal: string)
    ensures ':' !in key && (forall i :: 0 <= i < |path| ==> ':' !in path[i]) ==>
      ParseDeclaration(Declaration(Name(path, key), "i64", literal))
      == Some(Decl(Name(path, key), "i64", literal))
  {
    if ':' !in key && (forall i :: 0 <= i < |path| ==> ':' !in path[i]) {
      JoinChars(path, "_", ':');
      UpperKeepsChar("CONFIG_" + Join(path, "_") + "_" + key, ':');
      DeclarationRoundTrip(Name(path, key), "i64", literal);
    }
  }

  /** `generic_impl`: appends the `i64` declaration named after the path on
      `depth` and `outer`'s key, with the already formatted value. */
  method GenericImpl(outer: ConfigType, buffer: Buffer, value: string, depth: PathStack?)
    requires depth != null
    modifies buffer
    ensures buffer.text == old(buffer.text) + Declaration(Name(depth.names, outer.key), "i64", value)
  {
    var key := Upper("CONFIG_" + Join(depth.names, "_") + "_" + outer.key);
    buffer.PushStr(DeclPrefix + key + ": " + "i64" + " = " + value + DeclSuffix);
  }

  /** A config's line fails exactly when `Problem` names a fault, and with that fault. */
  lemma LineProblem(c: ConfigType, path: seq<string>)
    ensures c.Line(path).Err? <==> c.Problem().Some?
    ensures c.Line(path).Err? ==> c.Line(path).error == c.Problem().value
  {
  }

  datatype SectionType = SectionType(name: string, sections: seq<SectionType>, configs: seq<ConfigType>)
  {
    /** What `dump` appends when `depth` holds `path`: the banner naming
        `path` joined by `::`, each nested section after a blank line, then
        each config's declaration qualified by `path`. */
    function Text(path: seq<string>): Result<string, Fault>
      decreases this
    {
      match SectionsText(path, sections)
      case Err(f) => Err(f)
      case Ok(nested) =>
        match ConfigsText(path, configs)
        case Err(f) => Err(f)
        case Ok(decls) => Ok(Banner([Join(path, "::")]) + nested + decls)
    }

    /** `SectionType::dump`: `depth` must be present and ends as it started. */
    method Dump(buffer: Buffer, depth: PathStack?) returns (outcome: Outcome<Fault>)
      requires depth != null
      modifies buffer, depth
      ensures depth.names == old(depth.names)
      ensures old(buffer.text) <= buffer.text
      ensures Text(old(depth.names)).Ok? ==>
        outcome == Pass && buffer.text == old(buffer.text) + Text(old(depth.names)).value
      ensures Text(old(depth.names)).Err? ==> outcome == Fail(Text(old(depth.names)).error)
      decreases this
    {
      ghost var path := depth.names;
      ghost var start := buffer.text;
      var banner := Banner([Join(depth.names, "::")]);
      buffer.PushStr(banner);
      ghost var head := buffer.text;

      ghost var nested := "";
      var i := 0;
      while i < |sections|
        invariant 0 <= i <= |sections|
        invariant depth.names == path
        invariant SectionsText(path, sections[..i]) == Ok(nested)
        invariant buffer.text == head + nested
      {
        var child := sections[i];
        ghost var before := buffer.text;
        buffer.PushStr("\n");
        depth.Push(child.name);
        var r := child.Dump(buffer, depth);
        var _ := depth.Pop();
        SectionsStep(path, sections, i);
        if r.Fail? {
          SectionsErrExtends(path, sections, i + 1);
          PrefixTrans(start, head, before);
          PrefixTrans(start, before, before + "\n");
          PrefixTrans(start, before + "\n", buffer.text);
          return r;
        }
        Assoc(head + nested, "\n", child.Text(path + [child.name]).value);
        Assoc(head, nested, "\n" + child.Text(path + [child.name]).value);
        Assoc(nested, "\n", child.Text(path + [child.name]).value);
        nested := nested + "\n" + child.Text(path + [child.name]).value;
        i := i + 1;
      }
      assert sections[..i] == sections;

      ghost var decls := "";
      var j := 0;
      while j < |configs|
        invariant 0 <= j <= |configs|
        invariant depth.names == path
        invariant ConfigsText(path, configs[..j]) == Ok(decls)
        invariant buffer.text == head + nested + decls
      {
        ghost var before := buffer.text;
        var r := configs[j].Dump(buffer, depth);
        ConfigsStep(path, configs, j);
        if r.Fail? {
          ConfigsErrExtends(path, configs, j + 1);
          PrefixTrans(start, head, before);
          return r;
        }
        Assoc(head + nested, decls, configs[j].Line(path).value);
        decls := decls + configs[j].Line(path).value;
        j := j + 1;
      }
      assert configs[..j] == configs;
      Assoc(start, banner, nested);
      Assoc(start, banner + nested, decls);
      outcome := Pass;
    }
  }

  /** The text of consecutive sibling sections, each after a blank line
      and with its own name appended to `path`. */
  function SectionsText(path: seq<string>, ss: seq<SectionType>): Result<string, Fault>
    decreases ss
  {
    if ss == [] then Ok("")
    else
      var last := ss[|ss| - 1];
      match SectionsText(path, ss[..|ss| - 1])
      case Err(f) => Err(f)
      case Ok(before) =>
        match last.Text(path + [last.name])
        case Err(f) => Err(f)
        case Ok(t) => Ok(before + "\n" + t)
  }

  /** The declarations of consecutive configs of the section at `path`. */
  function ConfigsText(path: seq<string>, cs: seq<ConfigType>): Result<string, Fault>
  {
    if cs == [] then Ok("")
    else
      match ConfigsText(path, cs[..|cs| - 1])
      case Err(f) => Err(f)
      case Ok(before) =>
        match cs[|cs| - 1].Line(path)
        case Err(f) => Err(f)
        case Ok(t) => Ok(before + t)
  }

  lemma SectionsStep(path: seq<string>, ss: seq<SectionType>, i: nat)
    requires i < |ss|
    ensures SectionsText(path, ss[..i + 1]) ==
      match SectionsText(path, ss[..i])
      case Err(f) => Err(f)
      case Ok(before) =>
        match ss[i].Text(path + [ss[i].name])
        case Err(f) => Err(f)
        case Ok(t) => Ok(before + "\n" + t)
  {
    assert ss[..i + 1][..i] == ss[..i];
  }

  lemma ConfigsStep(path: seq<string>, cs: seq<ConfigType>, j: nat)
    requires j < |cs|
    ensures ConfigsText(path, cs[..j + 1]) ==
      match ConfigsText(path, cs[..j])
      case Err(f) => Err(f)
      case Ok(before) =>
        match cs[j].Line(path)
        case Err(f) => Err(f)
        case Ok(t) => Ok(before + t)
  {
    assert cs[..j + 1][..j] == cs[..j];
  }

  /** Once a prefix of the siblings fails, so does the whole run, with the same fault. */
  lemma {:induction false} SectionsErrExtends(path: seq<string>, ss: seq<SectionType>, k: nat)
    requires k <= |ss|
    requires SectionsText(path, ss[..k]).Err?
    ensures SectionsText(path, ss) == SectionsText(path, ss[..k])
    decreases |ss|
  {
    if k < |ss| {
      assert ss[..|ss| - 1][..k] == ss[..k];
      SectionsErrExtends(path, ss[..|ss| - 1], k);
    } else {
      assert ss[..k] == ss;
    }
  }

  lemma {:induction false} ConfigsErrExtends(path: seq<string>, cs: seq<ConfigType>, k: nat)
    requires k <= |cs|
    requires ConfigsText(path, cs[..k]).Err?
    ensures ConfigsText(path, cs) == ConfigsText(path, cs[..k])
    decreases |cs|
  {
    if k < |cs| {
      assert cs[..|cs| - 1][..k] == cs[..k];
      ConfigsErrExtends(path, cs[..|cs| - 1], k);
    } else {
      assert cs[..k] == cs;
    }
  }

  /** Every fault of a section, in document order. */
  function SectionFaults(s: SectionType): seq<Fault>
    decreases s
  {
    SectionsFaults(s.sections) + ConfigsFaults(s.configs)
  }

  function SectionsFaults(ss: seq<SectionType>): seq<Fault>
    decreases ss
  {
    if ss == [] then [] else SectionsFaults(ss[..|ss| - 1]) + SectionFaults(ss[|ss| - 1])
  }

  function ConfigsFaults(cs: seq<ConfigType>): seq<Fault>
  {
    if cs == [] then []
    else
      ConfigsFaults(cs[..|cs| - 1])
      + (match cs[|cs| - 1].Problem() case None => [] case Some(f) => [f])
  }

  /** A section's text fails exactly when the section holds a fault, and
      then with the first one in document order. */
  lemma {:induction false} SectionTextFaults(s: SectionType, path: seq<string>)
    ensures s.Text(path).Err? <==> SectionFaults(s) != []
    ensures s.Text(path).Err? ==> s.Text(path).error == SectionFaults(s)[0]
    decreases s
  {
    SectionsTextFaults(path, s.sections);
    ConfigsTextFaults(path, s.configs);
  }

  lemma {:induction false} SectionsTextFaults(path: seq<string>, ss: seq<SectionType>)
    ensures SectionsText(path, ss).Err? <==> SectionsFaults(ss) != []
    ensures SectionsText(path, ss).Err? ==> SectionsText(path, ss).error == SectionsFaults(ss)[0]
    decreases ss
  {
    if ss != [] {
      var last := ss[|ss| - 1];
      SectionsTextFaults(path, ss[..|ss| - 1]);
      SectionTextFaults(last, path + [last.name]);
    }
  }

  lemma {:induction false} ConfigsTextFaults(path: seq<string>, cs: seq<ConfigType>)
    ensures ConfigsText(path, cs).Err? <==> ConfigsFaults(cs) != []
    ensures ConfigsText(path, cs).Err? ==> ConfigsText(path, cs).error == ConfigsFaults(cs)[0]
  {
    if cs != [] {
      ConfigsTextFaults(path, cs[..|cs| - 1]);
      LineProblem(cs[|cs| - 1], path);
    }
  }

  /** A section's text opens with the banner of its path: its parent's
      path, `::` and its own name (or its name alone at the top level). */
  lemma OwnBanner(path: seq<string>, s: SectionType)
    requires s.Text(path + [s.name]).Ok?
    ensures Banner([if path == [] then s.name else Join(path, "::") + "::" + s.name])
            <= s.Text(path + [s.name]).value
  {
    if path != [] {
      JoinSnoc(path, s.name, "::");
    } else {
      assert path + [s.name] == [s.name];
    }
    var nested := SectionsText(path + [s.name], s.sections).value;
    var decls := ConfigsText(path + [s.name], s.configs).value;
    var b := Banner([Join(path + [s.name], "::")]);
    Assoc(b, nested, decls);
    assert (b + (nested + decls))[..|b|] == b;
  }

  datatype Konfigurator = Konfigurator(name: string, arch: string, profile: string, sections: seq<SectionType>)
  {
    /** The whole generated file: the header banner, then each top-level
        section after a blank line, its path being its own name alone. */
    function Text(crateTitle: string, crateVersion: string): Result<string, Fault>
    {
      match SectionsText([], sections)
      case Err(f) => Err(f)
      case Ok(body) => Ok(Header(crateTitle, crateVersion, name, arch, profile) + body)
    }

    /** `Konfigurator::dump`: the header, then the top-level sections with a
        fresh path stack that is empty again after each of them. */
    method Dump(buffer: Buffer, crateTitle: string, crateVersion: string) returns (outcome: Outcome<Fault>)
      modifies buffer
      ensures old(buffer.text) <= buffer.text
      ensures Text(crateTitle, crateVersion).Ok? ==>
        outcome == Pass && buffer.text == old(buffer.text) + Text(crateTitle, crateVersion).value
      ensures Text(crateTitle, crateVersion).Err? ==> outcome == Fail(Text(crateTitle, crateVersion).error)
    {
      ghost var start := buffer.text;
      var header := Header(crateTitle, crateVersion, name, arch, profile);
      buffer.PushStr(header);
      ghost var head := buffer.text;

      var depth := new PathStack();
      ghost var body := "";
      var i := 0;
      while i < |sections|
        invariant 0 <= i <= |sections|
        invariant depth.names == []
        invariant SectionsText([], sections[..i]) == Ok(body)
        invariant buffer.text == head + body
      {
        var child := sections[i];
        ghost var before := buffer.text;
        buffer.PushStr("\n");
        depth.Push(child.name);
        var r := child.Dump(buffer, depth);
        var _ := depth.Pop();
        SectionsStep([], sections, i);
        if r.Fail? {
          SectionsErrExtends([], sections, i + 1);
          PrefixTrans(start, head, before);
          PrefixTrans(start, before, before + "\n");
          PrefixTrans(start, before + "\n", buffer.text);
          return r;
        }
        Assoc(head + body, "\n", child.Text([] + [child.name]).value);
        Assoc(head, body, "\n" + child.Text([] + [child.name]).value);
        Assoc(body, "\n", child.Text([] + [child.name]).value);
        body := body + "\n" + child.Text([] + [child.name]).value;
        i := i + 1;
      }
      assert sections[..i] == sections;
      Assoc(start, header, body);
      outcome := Pass;
    }

    /** `Konfigurator::dump_to_file` without the write: the text handed to
        `fs::write`, or the fault at which the dump stopped. */
    method DumpToFile(crateTitle: string, crateVersion: string) returns (contents: Result<string, Fault>)
      ensures contents == Text(crateTitle, crateVersion)
    {
      var buffer := new Buffer();
      var outcome := Dump(buffer, crateTitle, crateVersion);
      if outcome.Fail? {
        return Err(outcome.error);
      }
      assert Text(crateTitle, crateVersion).Ok?;
      assert "" + Text(crateTitle, crateVersion).value == Text(crateTitle, crateVersion).value;
      return Ok(buffer.text);
    }
  }

  /** The file fails exactly when some config in it faults, and then with
      the first such fault in document order. */
  lemma TextFaults(k: Konfigurator, crateTitle: string, crateVersion: string)
    ensures k.Text(crateTitle, crateVersion).Err? <==> SectionsFaults(k.sections) != []
    ensures k.Text(crateTitle, crateVersion).Err? ==>
      k.Text(crateTitle, crateVersion).error == SectionsFaults(k.sections)[0]
  {
    SectionsTextFaults([], k.sections);
  }

  /** The file opens with the header, from which the tree's name,
      architecture and profile read back. */
  lemma IdentityReadsBack(k: Konfigurator, crateTitle: string, crateVersion: string)
    requires '|' !in crateTitle && '|' !in crateVersion
    requires '/' !in k.name && '/' !in k.arch
    requires k.Text(crateTitle, crateVersion).Ok?
    ensures var h := Header(crateTitle, crateVersion, k.name, k.arch, k.profile);
      h <= k.Text(crateTitle, crateVersion).value
      && ParseIdentity(k.Text(crateTitle, crateVersion).value[..|h|]) == Some((k.name, k.arch, k.profile))
  {
    var h := Header(crateTitle, crateVersion, k.name, k.arch, k.profile);
    var body := SectionsText([], k.sections).value;
    HeaderRoundTrip(crateTitle, crateVersion, k.name, k.arch, k.profile);
    assert (h + body)[..|h|] == h;
  }
}
