/**
 * ClassBuilder: a fluent builder that appends source fragments to a private
 * buffer in call order and wraps the buffer in a package/import header and a
 * closing brace on `build()`.
 *
 * What the builder reads from outside its own state is passed in as a `Host`:
 * the formatted current time, the `java.version` and `java.vendor` system
 * properties, and the text of the localized-constant member, whose source is
 * not part of this model.
 */
module Builder {
  import opened Outcomes

  const MojoClassName := "io.github.yottabytecrafter.PropertiesGeneratorMojo"
  const UnknownVersion := "unknown"

  /** The member text `addLocalizedConstant(originalKey, constantName, translations)` appends. */
  type LocalizedRenderer = (string, string, map<string, string>) -> string

  datatype Host = Host(
    /** DateTimeUtils.getCurrentDateTime() */
    now: string,
    javaVersion: string,
    javaVendor: string,
    localizedMember: LocalizedRenderer)

  // ----- The fragments -----

  /** The first three lines of the `@Generated(` annotation. */
  function GeneratedOpening(now: string): string {
    "@Generated(\n" + "    value = \"" + MojoClassName + "\",\n" + "    date = \"" + now + "\",\n"
  }

  /** The provenance text of the annotation's `comments` element. */
  function Comments(sourceFile: string, version: string, javaVersion: string, javaVendor: string): string {
    "Generated from " + sourceFile + ", version: " + version
      + ", environment: Java " + javaVersion + " (" + javaVendor + ")"
  }

  function CommentsLine(comments: string): string {
    "    comments = \"" + comments + "\"\n"
  }

  const GeneratedClosing := ")\n"

  function ClassDeclaration(className: string): string {
    "public final class " + className + " {\n\n"
  }

  function PrivateConstructor(className: string): string {
    "    private " + className + "() {\n" + "        // Prevent instantiation\n" + "    }\n\n"
  }

  /** A constant declaration; the value is inserted as it is, without escaping. */
  function ConstantDeclaration(name: string, value: string): string {
    "    public static final String " + name + " = \"" + value + "\";\n"
  }

  function Header(packageName: string): string {
    "package " + packageName + ";\n\n" + "import javax.annotation.Generated;\n\n"
  }

  const Footer := "}\n"

  /** The text `build()` returns for a buffer. */
  function Rendered(packageName: string, code: string): (text: string)
    ensures |text| == |Header(packageName)| + |code| + |Footer|
    ensures text[..|Header(packageName)|] == Header(packageName)
    ensures text[|Header(packageName)|..|text| - |Footer|] == code
    ensures text[|text| - |Footer|..] == Footer
  {
    var text := Header(packageName) + code + Footer;
    assert text[|Header(packageName)|..|text| - |Footer|] == code;
    text
  }

  /** The plugin version written into the comments: null or empty reads as "unknown". */
  function EffectiveVersion(pluginVersion: Option<string>): (v: string)
    ensures v != []
    ensures pluginVersion.Some? && pluginVersion.value != [] ==> v == pluginVersion.value
    ensures pluginVersion.None? || pluginVersion.value == [] ==> v == UnknownVersion
  {
    if pluginVersion.None? || pluginVersion.value == [] then UnknownVersion else pluginVersion.value
  }

  // ----- The builder as a state machine -----

  /** One fluent call on a builder. */
  datatype BuilderCall =
    | AddGenerated(sourceFile: string)
    | MakeClassFinal
    | AddPrivateConstructor
    | AddConstant(name: string, value: string)
    | AddLocalizedConstant(originalKey: string, constantName: string, translations: map<string, string>)

  /** The mutable part of a builder: the buffer and the plugin version. */
  datatype BuilderState = BuilderState(code: string, pluginVersion: Option<string>)

  /** The text one call appends, given the class name and the plugin version before the call. */
  function Fragment(className: string, pluginVersion: Option<string>, call: BuilderCall, host: Host): string {
    match call
    case AddGenerated(sourceFile) =>
      GeneratedOpening(host.now)
        + CommentsLine(Comments(sourceFile, EffectiveVersion(pluginVersion), host.javaVersion, host.javaVendor))
        + GeneratedClosing
    case MakeClassFinal => ClassDeclaration(className)
    case AddPrivateConstructor => PrivateConstructor(className)
    case AddConstant(name, value) => ConstantDeclaration(name, value)
    case AddLocalizedConstant(originalKey, constantName, translations) =>
      host.localizedMember(originalKey, constantName, translations)
  }

  /** The state after one call. */
  function Step(className: string, s: BuilderState, call: BuilderCall, host: Host): BuilderState {
    BuilderState(
      s.code + Fragment(className, s.pluginVersion, call, host),
      if call.AddGenerated? then Some(EffectiveVersion(s.pluginVersion)) else s.pluginVersion)
  }

  /** The state after a sequence of calls, the last one applied last. */
  function Replay(className: string, s: BuilderState, calls: seq<BuilderCall>, host: Host): BuilderState
    decreases |calls|
  {
    if calls == [] then s
    else Step(className, Replay(className, s, calls[..|calls| - 1], host), calls[|calls| - 1], host)
  }

  // ----- Properties of the state machine -----

  /** Calls never change text already in the buffer: the old buffer is a prefix of the new one. */
  lemma {:induction false} ReplayOnlyAppends(className: string, s: BuilderState, calls: seq<BuilderCall>, host: Host)
    ensures s.code <= Replay(className, s, calls, host).code
    decreases |calls|
  {
    if calls != [] {
      ReplayOnlyAppends(className, s, calls[..|calls| - 1], host);
    }
  }

  /** Running two call sequences one after the other is running their concatenation. */
  lemma {:induction false} ReplayConcat(className: string, s: BuilderState, a: seq<BuilderCall>, b: seq<BuilderCall>, host: Host)
    ensures Replay(className, s, a + b, host) == Replay(className, Replay(className, s, a, host), b, host)
    decreases |b|
  {
    if b == [] {
      assert a + b == a;
    } else {
      assert (a + b)[..|a + b| - 1] == a + b[..|b| - 1];
      ReplayConcat(className, s, a, b[..|b| - 1], host);
    }
  }

  /**
   * Fragments land in call order: the buffer after a list of calls is the
   * buffer after all but the last, followed by the last call's fragment.
   */
  lemma FragmentsInCallOrder(className: string, s: BuilderState, calls: seq<BuilderCall>, call: BuilderCall, host: Host)
    ensures Replay(className, s, calls + [call], host).code
         == Replay(className, s, calls, host).code
            + Fragment(className, Replay(className, s, calls, host).pluginVersion, call, host)
  {
    assert (calls + [call])[..|calls|] == calls;
  }

  /**
   * Once `addGenerated` has run, the plugin version is set and non-empty, and
   * it stays so.
   */
  lemma {:induction false} VersionSetAfterGenerated(className: string, s: BuilderState, calls: seq<BuilderCall>, host: Host)
    requires exists i :: 0 <= i < |calls| && calls[i].AddGenerated?
    ensures Replay(className, s, calls, host).pluginVersion.Some?
    ensures Replay(className, s, calls, host).pluginVersion.value != []
    decreases |calls|
  {
    var init := calls[..|calls| - 1];
    if !calls[|calls| - 1].AddGenerated? {
      var i :| 0 <= i < |calls| && calls[i].AddGenerated?;
      assert init[i].AddGenerated?;
      VersionSetAfterGenerated(className, s, init, host);
    }
  }

  /** Apart from `addGenerated`, no call reads or changes the plugin version. */
  lemma {:induction false} VersionUntouchedWithoutGenerated(className: string, s: BuilderState, calls: seq<BuilderCall>, host: Host)
    requires forall i :: 0 <= i < |calls| ==> !calls[i].AddGenerated?
    ensures Replay(className, s, calls, host).pluginVersion == s.pluginVersion
    decreases |calls|
  {
    if calls != [] {
      VersionUntouchedWithoutGenerated(className, s, calls[..|calls| - 1], host);
    }
  }

  /**
   * Without `addGenerated` the buffer has no annotation block: it is the same
   * whatever the clock, the Java version and vendor and the plugin version.
   */
  lemma {:induction false} NoAnnotationWithoutGenerated(
    className: string, s1: BuilderState, s2: BuilderState, calls: seq<BuilderCall>, h1: Host, h2: Host)
    requires forall i :: 0 <= i < |calls| ==> !calls[i].AddGenerated?
    requires s1.code == s2.code && h1.localizedMember == h2.localizedMember
    ensures Replay(className, s1, calls, h1).code == Replay(className, s2, calls, h2).code
    decreases |calls|
  {
    if calls != [] {
      NoAnnotationWithoutGenerated(className, s1, s2, calls[..|calls| - 1], h1, h2);
    }
  }

  /** `makeClassFinal` and `addPrivateConstructor` append text that depends on the class name alone. */
  lemma ClassNameIsTheOnlyParameter(className: string, v1: Option<string>, v2: Option<string>, h1: Host, h2: Host)
    ensures Fragment(className, v1, MakeClassFinal, h1) == Fragment(className, v2, MakeClassFinal, h2)
    ensures Fragment(className, v1, AddPrivateConstructor, h1) == Fragment(className, v2, AddPrivateConstructor, h2)
  {
  }

  // ----- The builder object -----

  class ClassBuilder {
    var code: string
    var pluginVersion: Option<string>
    const className: string
    const packageName: string

    /** The builder's state as a value. */
    function State(): BuilderState
      reads this
    {
      BuilderState(code, pluginVersion)
    }

    constructor(className: string, packageName: string, pluginVersion: Option<string>)
      ensures this.className == className && this.packageName == packageName
      ensures State() == BuilderState([], pluginVersion)
    {
      this.className := className;
      this.packageName := packageName;
      this.pluginVersion := pluginVersion;
      code := [];
    }

    method AddGenerated(sourceFile: string, host: Host)
      modifies this
      ensures State() == Step(className, old(State()), BuilderCall.AddGenerated(sourceFile), host)
    {
      ghost var version := EffectiveVersion(pluginVersion);
      ghost var comments := CommentsLine(Comments(sourceFile, version, host.javaVersion, host.javaVendor));
      code := code + GeneratedOpening(host.now);
      AddVersionToComments(sourceFile, host);
      code := code + GeneratedClosing;
      assert code == old(code) + (GeneratedOpening(host.now) + comments + GeneratedClosing);
    }

    /** Writes the `comments` line; a null or empty plugin version is replaced by "unknown" for good. */
    method AddVersionToComments(sourceFile: string, host: Host)
      modifies this
      ensures pluginVersion == Some(EffectiveVersion(old(pluginVersion)))
      ensures code == old(code)
        + CommentsLine(Comments(sourceFile, EffectiveVersion(old(pluginVersion)), host.javaVersion, host.javaVendor))
    {
      if pluginVersion.None? || pluginVersion.value == [] {
        pluginVersion := Some(UnknownVersion);
      }
      var comments := Comments(sourceFile, pluginVersion.value, host.javaVersion, host.javaVendor);
      code := code + CommentsLine(comments);
    }

    method MakeClassFinal()
      modifies this
      ensures code == old(code) + ClassDeclaration(className)
      ensures pluginVersion == old(pluginVersion)
    {
      code := code + ClassDeclaration(className);
    }

    method AddPrivateConstructor()
      modifies this
      ensures code == old(code) + PrivateConstructor(className)
      ensures pluginVersion == old(pluginVersion)
    {
      code := code + PrivateConstructor(className);
    }

    method AddConstant(name: string, value: string)
      modifies this
      ensures code == old(code) + ConstantDeclaration(name, value)
      ensures pluginVersion == old(pluginVersion)
    {
      code := code + ConstantDeclaration(name, value);
    }

    method AddLocalizedConstant(originalKey: string, constantName: string, translations: map<string, string>, host: Host)
      modifies this
      ensures State() == Step(className, old(State()), BuilderCall.AddLocalizedConstant(originalKey, constantName, translations), host)
    {
      code := code + host.localizedMember(originalKey, constantName, translations);
    }

    /** Runs one call on this builder. */
    method Apply(call: BuilderCall, host: Host)
      modifies this
      ensures State() == Step(className, old(State()), call, host)
    {
      match call
      case AddGenerated(sourceFile) => this.AddGenerated(sourceFile, host);
      case MakeClassFinal => this.MakeClassFinal();
      case AddPrivateConstructor => this.AddPrivateConstructor();
      case AddConstant(name, value) => this.AddConstant(name, value);
      case AddLocalizedConstant(originalKey, constantName, translations) =>
        this.AddLocalizedConstant(originalKey, constantName, translations, host);
    }

    /** The class text; the builder is left as it was, so a second call returns the same text. */
    method Build() returns (text: string)
      ensures |text| == |Header(packageName)| + |code| + |Footer|
      ensures text[..|Header(packageName)|] == Header(packageName)
      ensures text[|Header(packageName)|..|text| - |Footer|] == code
      ensures text[|text| - |Footer|..] == Footer
      ensures text == Rendered(packageName, code)
    {
      text := Header(packageName) + code + Footer;
      assert text[|Header(packageName)|..|text| - |Footer|] == code;
    }
  }

  /**
   * A builder that only had `makeClassFinal` called renders the header, the
   * class declaration and the closing brace (ClassBuilderTest, minimal class).
   */
  lemma MinimalClass(packageName: string, className: string, pluginVersion: Option<string>, host: Host)
    ensures Rendered(packageName, Replay(className, BuilderState([], pluginVersion), [MakeClassFinal], host).code)
         == Header(packageName) + ClassDeclaration(className) + Footer
  {
    assert [MakeClassFinal][..0] == [];
    assert [] + ClassDeclaration(className) == ClassDeclaration(className);
  }
}
