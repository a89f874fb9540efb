/** What the two `model` files share: the `banner!` macro, the file header
    written by `Konfigurator::dump`, the declaration written by
    `generic_impl`, the conditions under which the walk panics, and the
    two pieces of caller-owned state the walk mutates (the output `String`
    and the `depth` path stack). Each text comes with a reader that
    recovers what was written into it. */
module Emit {
  import opened Base
  import opened Strings

  // ---------------------------------------------------------------------
  // Banners
  // ---------------------------------------------------------------------

  /** One argument of `banner!`, as a comment line. */
  function CommentLine(line: string): string
  {
    "// " + line + "\n"
  }

  function CommentLines(lines: seq<string>): string
  {
    if lines == [] then "" else CommentLine(lines[0]) + CommentLines(lines[1..])
  }

  /** `banner!(l1, l2, ...)`: the lines as `// ` comments between two bare `//` lines. */
  function Banner(lines: seq<string>): string
  {
    "//\n" + CommentLines(lines) + "//\n"
  }

  /** The lines of a text, split at each `\n` (the piece after the last `\n` included). */
  function SplitLines(s: string): seq<string>
    decreases |s|
  {
    var i := IndexOf(s, '\n');
    if i == |s| then [s] else [s[..i]] + SplitLines(s[i + 1..])
  }

  lemma SplitLinesCons(a: string, b: string)
    requires '\n' !in a
    ensures SplitLines(a + "\n" + b) == [a] + SplitLines(b)
  {
    IndexOfAfter(a, '\n', b);
    assert (a + "\n" + b)[..|a|] == a;
    assert (a + "\n" + b)[|a| + 1..] == b;
  }

  /** The `// ` form of each line. */
  function Commented(lines: seq<string>): (r: seq<string>)
    ensures |r| == |lines|
    ensures forall i :: 0 <= i < |lines| ==> r[i] == "// " + lines[i]
  {
    if lines == [] then [] else ["// " + lines[0]] + Commented(lines[1..])
  }

  lemma CommentLinesCons(lines: seq<string>, tail: string)
    requires lines != [] && '\n' !in lines[0]
    ensures '\n' !in "// " + lines[0]
    ensures CommentLines(lines) + tail == ("// " + lines[0]) + "\n" + (CommentLines(lines[1..]) + tail)
  {
    assert '\n' !in "// ";
  }

  lemma ConsAssoc(x: string, a: seq<string>, b: seq<string>)
    ensures [x] + (a + b) == ([x] + a) + b
  {
  }

  lemma {:induction false} CommentLinesSplit(lines: seq<string>, tail: string)
    requires forall i :: 0 <= i < |lines| ==> '\n' !in lines[i]
    ensures SplitLines(CommentLines(lines) + tail) == Commented(lines) + SplitLines(tail)
  {
    if lines == [] {
      assert CommentLines(lines) + tail == tail;
    } else {
      var first, rest := "// " + lines[0], CommentLines(lines[1..]) + tail;
      CommentLinesCons(lines, tail);
      SplitLinesCons(first, rest);
      CommentLinesSplit(lines[1..], tail);
      ConsAssoc(first, Commented(lines[1..]), SplitLines(tail));
    }
  }

  /** A banner reads back, line by line, as a bare `//`, one `// ` comment
      per argument in order, a bare `//`, and the empty rest after the final
      newline. */
  lemma BannerLines(lines: seq<string>)
    requires forall i :: 0 <= i < |lines| ==> '\n' !in lines[i]
    ensures SplitLines(Banner(lines)) == ["//"] + Commented(lines) + ["//", ""]
  {
    var slash: string := "//";
    var close := slash + "\n" + "";
    var rest := CommentLines(lines) + close;
    var ends: seq<string> := ["//", ""];
    assert SplitLines(Banner(lines)) == [slash] + SplitLines(rest) by {
      BannerSplit(lines);
      SplitLinesCons(slash, rest);
    }
    assert SplitLines(close) == ends by {
      BannerSplit(lines);
      SplitLinesCons(slash, "");
      assert [slash] + [""] == ends;
    }
    CommentLinesSplit(lines, close);
    ConsAssoc(slash, Commented(lines), ends);
  }

  lemma BannerSplit(lines: seq<string>)
    ensures '\n' !in "//"
    ensures Banner(lines) == "//" + "\n" + (CommentLines(lines) + ("//" + "\n" + ""))
    ensures SplitLines("") == [""]
  {
  }

  // ---------------------------------------------------------------------
  // File header
  // ---------------------------------------------------------------------

  const Notice := "This is an auto-generated file; Do not edit."

  /** The banner `Konfigurator::dump` writes first. `crateTitle` is the
      title-cased package name (underscores read as spaces) and
      `crateVersion` the package version, both fixed at build time. */
  function Header(crateTitle: string, crateVersion: string,
                  name: string, arch: string, profile: string): string
  {
    Banner([Notice, crateTitle + " v" + crateVersion + " | " + name + "/" + arch + "/" + profile])
  }

  const HeaderPrefix := "//\n// " + Notice + "\n// "
  const HeaderSuffix := "\n//\n"

  /** Reads `name`, `arch` and `profile` back out of a header. */
  function ParseIdentity(h: string): Option<(string, string, string)>
  {
    if |h| < |HeaderPrefix| + |HeaderSuffix|
       || h[..|HeaderPrefix|] != HeaderPrefix
       || h[|h| - |HeaderSuffix|..] != HeaderSuffix then None
    else ParseIdentityLine(h[|HeaderPrefix|..|h| - |HeaderSuffix|])
  }

  /** Skips the product text up to the first ` | `, then splits the rest
      at its first two `/`. */
  function ParseIdentityLine(line: string): Option<(string, string, string)>
  {
    var i := IndexOf(line, '|');
    if i < 1 || i + 2 > |line| || line[i - 1] != ' ' || line[i + 1] != ' ' then None
    else ParseTriple(line[i + 2..])
  }

  function ParseTriple(rest: string): Option<(string, string, string)>
  {
    var j := IndexOf(rest, '/');
    if j == |rest| then None
    else
      var rest' := rest[j + 1..];
      var k := IndexOf(rest', '/');
      if k == |rest'| then None
      else Some((rest[..j], rest'[..k], rest'[k + 1..]))
  }

  lemma TripleRoundTrip(name: string, arch: string, profile: string)
    requires '/' !in name && '/' !in arch
    ensures ParseTriple(name + "/" + arch + "/" + profile) == Some((name, arch, profile))
  {
    var rest := name + "/" + arch + "/" + profile;
    assert rest == name + ['/'] + (arch + "/" + profile);
    IndexOfAfter(name, '/', arch + "/" + profile);
    var rest' := arch + "/" + profile;
    assert rest[|name| + 1..] == rest' && rest[..|name|] == name;
    assert rest' == arch + ['/'] + profile;
    IndexOfAfter(arch, '/', profile);
    assert rest'[..|arch|] == arch && rest'[|arch| + 1..] == profile;
  }

  lemma IdentityLineRoundTrip(product: string, rest: string)
    requires '|' !in product
    ensures ParseIdentityLine(product + " | " + rest) == ParseTriple(rest)
  {
    var line := product + " | " + rest;
    assert line == (product + " ") + ['|'] + (" " + rest);
    assert '|' !in product + " ";
    IndexOfAfter(product + " ", '|', " " + rest);
    assert line[|product| + 3..] == rest;
  }

  lemma HeaderLineShape(crateTitle: string, crateVersion: string,
                        name: string, arch: string, profile: string)
    ensures Header(crateTitle, crateVersion, name, arch, profile)
            == Banner([Notice, (crateTitle + " v" + crateVersion) + " | " + (name + "/" + arch + "/" + profile)])
  {
    assert crateTitle + " v" + crateVersion + " | " + name + "/" + arch + "/" + profile
        == (crateTitle + " v" + crateVersion) + " | " + (name + "/" + arch + "/" + profile);
  }

  lemma HeaderShape(line: string)
    ensures Banner([Notice, line]) == HeaderPrefix + line + HeaderSuffix
  {
    assert [Notice, line][1..] == [line];
    assert CommentLines([line]) == CommentLine(line);
  }

  /** The header names the document it came from: `name`, `arch` and
      `profile` read back verbatim, provided the product text has no `|`
      and the name and architecture have no `/`. */
  lemma HeaderRoundTrip(crateTitle: string, crateVersion: string,
                        name: string, arch: string, profile: string)
    requires '|' !in crateTitle && '|' !in crateVersion
    requires '/' !in name && '/' !in arch
    ensures ParseIdentity(Header(crateTitle, crateVersion, name, arch, profile))
            == Some((name, arch, profile))
  {
    var product := crateTitle + " v" + crateVersion;
    var rest := name + "/" + arch + "/" + profile;
    var line := product + " | " + rest;
    assert '|' !in product;
    TripleRoundTrip(name, arch, profile);
    IdentityLineRoundTrip(product, rest);
    HeaderShape(line);
    HeaderLineShape(crateTitle, crateVersion, name, arch, profile);
    Framed(HeaderPrefix, line, HeaderSuffix);
  }

  /** The identity line cannot always be read back: a `/` inside the name
      or the architecture is indistinguishable from the separators. */
  lemma HeaderCanCollide(crateTitle: string, crateVersion: string)
    ensures Header(crateTitle, crateVersion, "a/b", "c", "d") == Header(crateTitle, crateVersion, "a", "b/c", "d")
  {
    var p := crateTitle + " v" + crateVersion + " | ";
    assert p + "a/b" + "/" + "c" == p + "a" + "/" + "b/c";
  }

  // ---------------------------------------------------------------------
  // Declarations
  // ---------------------------------------------------------------------

  const DeclPrefix := "#[no_mangle]\npub static "
  const DeclSuffix := ";\n"

  /** The text `generic_impl` appends: one exported, unmangled static with
      the given symbol name, Rust type and literal. */
  function Declaration(name: string, dtype: string, literal: string): string
  {
    DeclPrefix + name + ": " + dtype + " = " + literal + DeclSuffix
  }

  datatype Decl = Decl(name: string, dtype: string, literal: string)

  /** Reads a declaration: the symbol name runs to the first `:`, the type
      to the first `=`, and the literal to the closing `;`. */
  function ParseDeclaration(t: string): Option<Decl>
  {
    if |t| < |DeclPrefix| + |DeclSuffix|
       || t[..|DeclPrefix|] != DeclPrefix
       || t[|t| - |DeclSuffix|..] != DeclSuffix then None
    else ParseDeclBody(t[|DeclPrefix|..|t| - |DeclSuffix|])
  }

  function ParseDeclBody(body: string): Option<Decl>
  {
    var i := IndexOf(body, ':');
    if i + 2 > |body| || body[i + 1] != ' ' then None
    else ParseDeclTail(body[..i], body[i + 2..])
  }

  function ParseDeclTail(name: string, rest: string): Option<Decl>
  {
    var j := IndexOf(rest, '=');
    if j < 1 || j + 2 > |rest| || rest[j - 1] != ' ' || rest[j + 1] != ' ' then None
    else Some(Decl(name, rest[..j - 1], rest[j + 2..]))
  }

  lemma DeclTailRoundTrip(name: string, dtype: string, literal: string)
    requires '=' !in dtype
    ensures ParseDeclTail(name, dtype + " = " + literal) == Some(Decl(name, dtype, literal))
  {
    var rest := dtype + " = " + literal;
    assert rest == (dtype + " ") + ['='] + (" " + literal);
    assert '=' !in dtype + " ";
    IndexOfAfter(dtype + " ", '=', " " + literal);
    assert rest[..|dtype|] == dtype && rest[|dtype| + 3..] == literal;
  }

  lemma DeclBodyRoundTrip(name: string, rest: string)
    requires ':' !in name
    ensures ParseDeclBody(name + ": " + rest) == ParseDeclTail(name, rest)
  {
    var body := name + ": " + rest;
    assert body == name + [':'] + (" " + rest);
    IndexOfAfter(name, ':', " " + rest);
    assert body[..|name|] == name && body[|name| + 2..] == rest;
  }

  /** A declaration reads back as the name, type and literal it was built
      from whenever the name has no `:` and the type no `=`; the literal
      may be any text. */
  lemma DeclarationRoundTrip(name: string, dtype: string, literal: string)
    requires ':' !in name && '=' !in dtype
    ensures ParseDeclaration(Declaration(name, dtype, literal)) == Some(Decl(name, dtype, literal))
  {
    var body := name + ": " + (dtype + " = " + literal);
    DeclTailRoundTrip(name, dtype, literal);
    DeclBodyRoundTrip(name, dtype + " = " + literal);
    DeclarationShape(name, dtype, literal);
    Framed(DeclPrefix, body, DeclSuffix);
  }

  lemma DeclarationShape(name: string, dtype: string, literal: string)
    ensures Declaration(name, dtype, literal) == DeclPrefix + (name + ": " + (dtype + " = " + literal)) + DeclSuffix
  {
  }

  /** Slicing off a known prefix and suffix leaves the middle. */
  lemma Framed(p: string, m: string, q: string)
    ensures |p + m + q| == |p| + |m| + |q|
    ensures (p + m + q)[..|p|] == p
    ensures (p + m + q)[|p + m + q| - |q|..] == q
    ensures (p + m + q)[|p|..|p + m + q| - |q|] == m
  {
  }

  // ---------------------------------------------------------------------
  // Faults
  // ---------------------------------------------------------------------

  /** The two conditions under which `ConfigType::value` panics: no value
      child is present (`unreachable!()`), or the enum index selects no
      member (`unwrap()` of `None`). */
  datatype Fault =
    | NoValueKind(key: string)
    | MemberOutOfRange(key: string, index: nat, count: nat)

  // ---------------------------------------------------------------------
  // Caller-owned state
  // ---------------------------------------------------------------------

  /** The `String` buffer every `dump` appends to with `push_str`. */
  class Buffer {
    var text: string

    constructor ()
      ensures text == ""
    {
      text := "";
    }

    method PushStr(s: string)
      modifies this
      ensures text == old(text) + s
    {
      text := text + s;
    }
  }

  /** The `depth: Vec<String>` of section names from the root to the
      section being dumped. */
  class PathStack {
    var names: seq<string>

    constructor ()
      ensures names == []
    {
      names := [];
    }

    method Push(name: string)
      modifies this
      ensures names == old(names) + [name]
    {
      names := names + [name];
    }

    /** `Vec::pop`: removes and returns the last name; on an empty stack
        returns `None` and changes nothing. */
    method Pop() returns (top: Option<string>)
      modifies this
      ensures old(names) == [] ==> top == None && names == []
      ensures old(names) != [] ==> top == Some(old(names)[|old(names)| - 1])
                                   && names == old(names)[..|old(names)| - 1]
    {
      if names == [] {
        top := None;
      } else {
        top := Some(names[|names| - 1]);
        names := names[..|names| - 1];
      }
    }
  }
}
