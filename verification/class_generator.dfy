/**
 * PropertiesClassGenerator: writes one Java class for a group of locale
 * files. The class is named by the configured strategy, gets the provenance
 * annotation, `final` and a private constructor, and then one localized
 * member per property key. The file system is left out: the result is the
 * path the file would be written to, the builder calls made, and the text.
 */
module Generator {
  import opened Outcomes
  import opened JavaStrings
  import opened HashOrder
  import opened ConstantNames
  import opened ClassNames
  import opened Builder

  /** `new File(new File(outputDirectory, packagePath), fileName)`, kept as its three parts. */
  datatype OutputPath = OutputPath(directory: string, packagePath: string, fileName: string)

  /** What one successful `generateClass` produces. */
  datatype GeneratedFile = GeneratedFile(path: OutputPath, calls: seq<BuilderCall>, text: string)

  /** key → language → value, as collected from a group of locale files. */
  type Translations = map<string, map<string, string>>

  /** The file pattern a class says it was generated from. */
  function SourceDescriptor(baseName: string): string {
    baseName + "_*.properties"
  }

  /** The builder calls every generated class starts with. */
  function HeaderCalls(baseName: string): seq<BuilderCall> {
    [AddGenerated(SourceDescriptor(baseName)), MakeClassFinal, AddPrivateConstructor]
  }

  /** `toConstantName` applied to a map key, which is never null. */
  function ConstantNameOf(key: string): Result<string> {
    ToConstantName(Some(key))
  }

  /** The member call made for one key whose constant name `convert` accepts. */
  function MemberCall(convert: string -> Result<string>, key: string, translations: Translations): BuilderCall
    requires key in translations && convert(key).Ok?
  {
    AddLocalizedConstant(key, convert(key).value, translations[key])
  }

  /**
   * The member calls for the keys in iteration order, or the exception of the
   * first key whose constant name `convert` rejects.
   */
  function MemberCalls(convert: string -> Result<string>, translations: Translations, order: seq<string>)
    : (r: Result<seq<BuilderCall>>)
    requires forall i :: 0 <= i < |order| ==> order[i] in translations
    ensures r.Ok? <==> forall i :: 0 <= i < |order| ==> convert(order[i]).Ok?
    ensures r.Ok? ==> (
      && |r.value| == |order|
      && forall i :: 0 <= i < |order| ==> r.value[i] == MemberCall(convert, order[i], translations))
    ensures r.Err? ==> (exists i ::
      && 0 <= i < |order|
      && convert(order[i]) == Err(r.message)
      && forall j :: 0 <= j < i ==> convert(order[j]).Ok?)
    decreases |order|
  {
    if order == [] then Ok([])
    else
      var init, key := order[..|order| - 1], order[|order| - 1];
      assert forall j :: 0 <= j < |init| ==> init[j] == order[j];
      var previous := MemberCalls(convert, translations, init);
      if previous.Err? then
        previous
      else if convert(key).Err? then
        Err(convert(key).message)
      else
        Ok(previous.value + [MemberCall(convert, key, translations)])
  }

  /** A rejected key ends the member calls, whatever follows it. */
  lemma {:induction false} MemberCallsStopAtFirstError(
    convert: string -> Result<string>, translations: Translations, order: seq<string>, n: nat)
    requires forall i :: 0 <= i < |order| ==> order[i] in translations
    requires n <= |order| && MemberCalls(convert, translations, order[..n]).Err?
    ensures MemberCalls(convert, translations, order) == MemberCalls(convert, translations, order[..n])
    decreases |order| - n
  {
    if n < |order| {
      assert order[..n + 1][..n] == order[..n];
      MemberCallsStopAtFirstError(convert, translations, order, n + 1);
    } else {
      assert order[..n] == order;
    }
  }

  /**
   * `generateClass` with a given class-naming strategy, plugin version and
   * iteration order; `convert` is the key-to-constant-name converter, which
   * the generator fixes to `ConstantNameOf`.
   */
  function GeneratedClass(
    packageName: string, outputDirectory: string, strategy: Strategy, pluginVersion: Option<string>,
    convert: string -> Result<string>,
    baseName: string, translations: Translations, order: seq<string>, host: Host): (r: Result<GeneratedFile>)
    requires IsEnumeration(order, translations.Keys)
    // the class name comes from the strategy, and a naming failure is passed on
    ensures ClassNameFor(strategy, Some(baseName)).Err? ==> r == Err(ClassNameFor(strategy, Some(baseName)).message)
    // a file is produced exactly when the class is named and every key is accepted
    ensures r.Ok? <==> (
      && ClassNameFor(strategy, Some(baseName)).Ok?
      && forall k :: k in translations ==> convert(k).Ok?)
    ensures r.Ok? ==>
      var className := ClassNameFor(strategy, Some(baseName)).value;
      && r.value.path == OutputPath(outputDirectory, Replace(packageName, '.', '/'), className + ".java")
      && '.' !in r.value.path.packagePath
      // header calls first, then one member per key in iteration order
      && |r.value.calls| == |HeaderCalls(baseName)| + |order|
      && r.value.calls[..|HeaderCalls(baseName)|] == HeaderCalls(baseName)
      && (forall i :: 0 <= i < |order| ==>
            r.value.calls[|HeaderCalls(baseName)| + i] == MemberCall(convert, order[i], translations))
      && r.value.text == Rendered(packageName,
           Replay(className, BuilderState([], pluginVersion), r.value.calls, host).code)
  {
    var className := ClassNameFor(strategy, Some(baseName));
    if className.Err? then Err(className.message)
    else
      var members := MemberCalls(convert, translations, order);
      if members.Err? then
        Err(members.message)
      else
        Ok(Assembled(packageName, outputDirectory, className.value, pluginVersion, baseName, members.value, host))
  }

  /** The file of a named class whose member calls are `members`. */
  function Assembled(packageName: string, outputDirectory: string, className: string, pluginVersion: Option<string>,
                     baseName: string, members: seq<BuilderCall>, host: Host): (f: GeneratedFile)
    ensures f.path == OutputPath(outputDirectory, Replace(packageName, '.', '/'), className + ".java")
    ensures '.' !in f.path.packagePath
    ensures |f.calls| == |HeaderCalls(baseName)| + |members|
    ensures f.calls[..|HeaderCalls(baseName)|] == HeaderCalls(baseName)
    ensures forall i :: 0 <= i < |members| ==> f.calls[|HeaderCalls(baseName)| + i] == members[i]
    ensures f.text == Rendered(packageName, Replay(className, BuilderState([], pluginVersion), f.calls, host).code)
  {
    var calls := HeaderCalls(baseName) + members;
    assert calls[..|HeaderCalls(baseName)|] == HeaderCalls(baseName);
    var code := Replay(className, BuilderState([], pluginVersion), calls, host).code;
    GeneratedFile(OutputPath(outputDirectory, Replace(packageName, '.', '/'), className + ".java"),
                  calls, Rendered(packageName, code))
  }

  /** The text the three header calls leave in the buffer. */
  function HeaderCode(className: string, baseName: string, pluginVersion: Option<string>, host: Host): string {
    GeneratedOpening(host.now)
      + CommentsLine(Comments(SourceDescriptor(baseName), EffectiveVersion(pluginVersion), host.javaVersion, host.javaVendor))
      + GeneratedClosing
      + ClassDeclaration(className)
      + PrivateConstructor(className)
  }

  /** The three header calls, one step at a time. */
  lemma HeaderCallsSteps(className: string, s: BuilderState, baseName: string, host: Host)
    ensures Replay(className, s, HeaderCalls(baseName), host)
         == Step(className,
              Step(className, Step(className, s, AddGenerated(SourceDescriptor(baseName)), host), MakeClassFinal, host),
              AddPrivateConstructor, host)
  {
    var calls := HeaderCalls(baseName);
    assert calls[..2][..1] == calls[..1] && calls[..1][..0] == [];
    assert Replay(className, s, [], host) == s;
    var s1 := Replay(className, s, calls[..1], host);
    assert calls[..1][0] == calls[0];
    assert s1 == Step(className, s, calls[0], host);
    var s2 := Replay(className, s, calls[..2], host);
    assert s2 == Step(className, s1, calls[1], host);
    assert Replay(className, s, calls, host) == Step(className, s2, calls[2], host);
  }

  /** What the header calls leave in an empty buffer. */
  lemma HeaderCallsCode(className: string, baseName: string, pluginVersion: Option<string>, host: Host)
    ensures Replay(className, BuilderState([], pluginVersion), HeaderCalls(baseName), host).code
         == HeaderCode(className, baseName, pluginVersion, host)
  {
    HeaderCallsSteps(className, BuilderState([], pluginVersion), baseName, host);
    var generated := Fragment(className, pluginVersion, AddGenerated(SourceDescriptor(baseName)), host);
    var s1 := Step(className, BuilderState([], pluginVersion), AddGenerated(SourceDescriptor(baseName)), host);
    assert s1.code == generated;
    assert s1.pluginVersion.Some?;
  }

  /** Whatever members follow, the buffer starts with what the header calls wrote. */
  lemma HeaderComesFirst(className: string, baseName: string, pluginVersion: Option<string>,
                         members: seq<BuilderCall>, host: Host)
    ensures HeaderCode(className, baseName, pluginVersion, host)
         <= Replay(className, BuilderState([], pluginVersion), HeaderCalls(baseName) + members, host).code
  {
    var s0 := BuilderState([], pluginVersion);
    ReplayConcat(className, s0, HeaderCalls(baseName), members, host);
    HeaderCallsCode(className, baseName, pluginVersion, host);
    ReplayOnlyAppends(className, Replay(className, s0, HeaderCalls(baseName), host), members, host);
  }

  /**
   * The text of a class whose builder got the header calls and then any
   * members opens with the package header, the annotation, the class
   * declaration and the private constructor, and closes with the brace.
   */
  lemma TextLayout(packageName: string, className: string, baseName: string, pluginVersion: Option<string>,
                   members: seq<BuilderCall>, host: Host)
    ensures
      var text := Rendered(packageName,
        Replay(className, BuilderState([], pluginVersion), HeaderCalls(baseName) + members, host).code);
      && Header(packageName) + HeaderCode(className, baseName, pluginVersion, host) <= text
      && text[|text| - |Footer|..] == Footer
  {
    HeaderComesFirst(className, baseName, pluginVersion, members, host);
    var code := Replay(className, BuilderState([], pluginVersion), HeaderCalls(baseName) + members, host).code;
    var head := HeaderCode(className, baseName, pluginVersion, host);
    PrefixInContext(Header(packageName), head, code, Footer);
  }

  lemma PrefixInContext(before: string, p: string, s: string, after: string)
    requires p <= s
    ensures before + p <= before + s + after
  {
    assert (before + s + after)[..|before| + |p|] == before + p;
  }

  /** Every generated file has that layout. */
  lemma GeneratedTextLayout(
    packageName: string, outputDirectory: string, strategy: Strategy, pluginVersion: Option<string>,
    convert: string -> Result<string>,
    baseName: string, translations: Translations, order: seq<string>, host: Host, file: GeneratedFile)
    requires IsEnumeration(order, translations.Keys)
    requires GeneratedClass(packageName, outputDirectory, strategy, pluginVersion, convert, baseName, translations, order, host)
          == Ok(file)
    ensures Header(packageName) + HeaderCode(ClassNameFor(strategy, Some(baseName)).value, baseName, pluginVersion, host)
         <= file.text
    ensures file.text[|file.text| - |Footer|..] == Footer
  {
    var members := file.calls[|HeaderCalls(baseName)|..];
    assert file.calls == HeaderCalls(baseName) + members;
    TextLayout(packageName, ClassNameFor(strategy, Some(baseName)).value, baseName, pluginVersion, members, host);
  }

  /** `GeneratedClass` once the class name and the member calls are known. */
  lemma GeneratedClassOk(
    packageName: string, outputDirectory: string, strategy: Strategy, pluginVersion: Option<string>,
    convert: string -> Result<string>,
    baseName: string, translations: Translations, order: seq<string>, host: Host,
    className: string, members: seq<BuilderCall>)
    requires IsEnumeration(order, translations.Keys)
    requires ClassNameFor(strategy, Some(baseName)) == Ok(className)
    requires MemberCalls(convert, translations, order) == Ok(members)
    ensures GeneratedClass(packageName, outputDirectory, strategy, pluginVersion, convert, baseName, translations, order, host)
         == Ok(GeneratedFile(
              OutputPath(outputDirectory, Replace(packageName, '.', '/'), className + ".java"),
              HeaderCalls(baseName) + members,
              Rendered(packageName, Replay(className, BuilderState([], pluginVersion), HeaderCalls(baseName) + members, host).code)))
  {
  }

  /** `GeneratedClass` when the strategy cannot name the class. */
  lemma GeneratedClassNameErr(
    packageName: string, outputDirectory: string, strategy: Strategy, pluginVersion: Option<string>,
    convert: string -> Result<string>,
    baseName: string, translations: Translations, order: seq<string>, host: Host, message: string)
    requires IsEnumeration(order, translations.Keys)
    requires ClassNameFor(strategy, Some(baseName)) == Err(message)
    ensures GeneratedClass(packageName, outputDirectory, strategy, pluginVersion, convert, baseName, translations, order, host)
         == Err(message)
  {
  }

  /** `GeneratedClass` when a key is rejected. */
  lemma GeneratedClassErr(
    packageName: string, outputDirectory: string, strategy: Strategy, pluginVersion: Option<string>,
    convert: string -> Result<string>,
    baseName: string, translations: Translations, order: seq<string>, host: Host, message: string)
    requires IsEnumeration(order, translations.Keys)
    requires ClassNameFor(strategy, Some(baseName)).Ok?
    requires MemberCalls(convert, translations, order) == Err(message)
    ensures GeneratedClass(packageName, outputDirectory, strategy, pluginVersion, convert, baseName, translations, order, host)
         == Err(message)
  {
  }

  /** A group with no keys still gives a class: header, annotation, declaration and constructor only. */
  lemma EmptyTranslationsGiveSkeleton(
    packageName: string, outputDirectory: string, strategy: Strategy, pluginVersion: Option<string>,
    convert: string -> Result<string>, baseName: string, host: Host)
    requires ClassNameFor(strategy, Some(baseName)).Ok?
    ensures
      var r := GeneratedClass(packageName, outputDirectory, strategy, pluginVersion, convert, baseName, map[], [], host);
      && r.Ok?
      && r.value.text == Header(packageName)
           + HeaderCode(ClassNameFor(strategy, Some(baseName)).value, baseName, pluginVersion, host) + Footer
  {
    var r := GeneratedClass(packageName, outputDirectory, strategy, pluginVersion, convert, baseName, map[], [], host);
    assert r.value.calls == HeaderCalls(baseName);
    HeaderCallsCode(ClassNameFor(strategy, Some(baseName)).value, baseName, pluginVersion, host);
  }

  /** A key the converter rejects means no file at all, with the converter's message. */
  lemma RejectedKeyWritesNothing(
    packageName: string, outputDirectory: string, strategy: Strategy, pluginVersion: Option<string>,
    convert: string -> Result<string>,
    baseName: string, translations: Translations, order: seq<string>, host: Host, key: string)
    requires IsEnumeration(order, translations.Keys)
    requires key in translations && convert(key).Err?
    ensures
      var r := GeneratedClass(packageName, outputDirectory, strategy, pluginVersion, convert, baseName, translations, order, host);
      && r.Err?
      && (ClassNameFor(strategy, Some(baseName)).Ok? ==>
            exists k :: k in translations && convert(k) == Err(r.message))
  {
    var r := GeneratedClass(packageName, outputDirectory, strategy, pluginVersion, convert, baseName, translations, order, host);
    if ClassNameFor(strategy, Some(baseName)).Ok? {
      var m := MemberCalls(convert, translations, order);
      assert m.Err?;
      var i :| 0 <= i < |order| && convert(order[i]) == Err(m.message);
      assert order[i] in translations;
    }
  }

  /** The strategy a generator uses: the given one, or the default when none is given. */
  function EffectiveStrategy(classNameStrategy: Option<Strategy>): (s: Strategy)
    ensures classNameStrategy.None? ==> s == DefaultStrategy
    ensures classNameStrategy.Some? ==> s == classNameStrategy.value
  {
    if classNameStrategy.None? then DefaultStrategy else classNameStrategy.value
  }

  class PropertiesClassGenerator {
    const packageName: string
    const outputDirectory: string
    const classNameStrategy: Strategy
    const pluginVersion: Option<string>

    constructor(packageName: string, outputDirectory: string, classNameStrategy: Option<Strategy>, pluginVersion: Option<string>)
      ensures this.packageName == packageName && this.outputDirectory == outputDirectory
      ensures classNameStrategy.None? ==> this.classNameStrategy == DefaultStrategy
      ensures classNameStrategy.Some? ==> this.classNameStrategy == classNameStrategy.value
      ensures this.pluginVersion == pluginVersion
    {
      this.packageName := packageName;
      this.outputDirectory := outputDirectory;
      this.classNameStrategy := EffectiveStrategy(classNameStrategy);
      this.pluginVersion := pluginVersion;
    }

    /**
     * Names the class, feeds a fresh builder the header calls and then one
     * localized member per key in `order` (the map's iteration order), and
     * renders the text.
     */
    method GenerateClass(baseName: string, translations: Translations, order: seq<string>, host: Host)
      returns (r: Result<GeneratedFile>)
      requires IsEnumeration(order, translations.Keys)
      ensures r == GeneratedClass(packageName, outputDirectory, classNameStrategy, pluginVersion,
                                  ConstantNameOf, baseName, translations, order, host)
    {
      var named := GenerateClassName(classNameStrategy, Some(baseName));
      if named.Err? {
        GeneratedClassNameErr(packageName, outputDirectory, classNameStrategy, pluginVersion, ConstantNameOf,
                              baseName, translations, order, host, named.message);
        return Err(named.message);
      }
      var className := named.value;
      var packagePath := Replace(packageName, '.', '/');
      var builder := StartClass(className, packageName, pluginVersion, baseName, host);
      ghost var s0 := BuilderState([], pluginVersion);
      var calls := HeaderCalls(baseName);
      var members := AddMembers(builder, translations, order, host);
      if members.Err? {
        GeneratedClassErr(packageName, outputDirectory, classNameStrategy, pluginVersion, ConstantNameOf,
                          baseName, translations, order, host, members.message);
        return Err(members.message);
      }
      ReplayConcat(className, s0, calls, members.value, host);
      GeneratedClassOk(packageName, outputDirectory, classNameStrategy, pluginVersion, ConstantNameOf,
                       baseName, translations, order, host, className, members.value);
      var text := builder.Build();
      r := Ok(GeneratedFile(OutputPath(outputDirectory, packagePath, className + ".java"), calls + members.value, text));
    }
  }

  /** A fresh builder that has received the three header calls. */
  method StartClass(className: string, packageName: string, pluginVersion: Option<string>, baseName: string, host: Host)
    returns (builder: ClassBuilder)
    ensures fresh(builder)
    ensures builder.className == className && builder.packageName == packageName
    ensures builder.State() == Replay(className, BuilderState([], pluginVersion), HeaderCalls(baseName), host)
  {
    builder := new ClassBuilder(className, packageName, pluginVersion);
    ghost var s0 := builder.State();
    builder.AddGenerated(SourceDescriptor(baseName), host);
    builder.MakeClassFinal();
    builder.AddPrivateConstructor();
    HeaderCallsSteps(className, s0, baseName, host);
  }

  /**
   * The loop of `generateClass`: one localized member per key, in iteration
   * order, until a key's constant name is rejected.
   */
  method AddMembers(builder: ClassBuilder, translations: Translations, order: seq<string>, host: Host)
    returns (r: Result<seq<BuilderCall>>)
    requires forall i :: 0 <= i < |order| ==> order[i] in translations
    modifies builder
    ensures r == MemberCalls(ConstantNameOf, translations, order)
    ensures r.Ok? ==> builder.State() == Replay(builder.className, old(builder.State()), r.value, host)
  {
    ghost var s0 := builder.State();
    var members: seq<BuilderCall> := [];
    for i := 0 to |order|
      invariant MemberCalls(ConstantNameOf, translations, order[..i]) == Ok(members)
      invariant builder.State() == Replay(builder.className, s0, members, host)
    {
      assert order[..i + 1][..i] == order[..i];
      var key := order[i];
      var constantName := ToConstantName(Some(key));
      if constantName.Err? {
        MemberCallsStopAtFirstError(ConstantNameOf, translations, order, i + 1);
        return Err(constantName.message);
      }
      builder.AddLocalizedConstant(key, constantName.value, translations[key], host);
      ghost var before := members;
      members := members + [MemberCall(ConstantNameOf, key, translations)];
      assert members[..|before|] == before;
    }
    assert order[..|order|] == order;
    return Ok(members);
  }
}
