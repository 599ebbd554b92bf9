/**
 * The ClassNameStrategy family: a strategy turns a properties base name into
 * the simple name of the generated class. Dafny has no interfaces here, so the
 * implementations are the cases of one datatype and `ClassNameFor` dispatches.
 */
module ClassNames {
  import opened Outcomes
  import opened JavaStrings

  const PropertiesExtension := ".properties"
  const ClassSuffix := "Properties"
  const CustomPrefix := "Custom_"
  const EmptyFilenameMessage := "Filename cannot be null or empty"
  const NullPointerMessage := "java.lang.NullPointerException"

  /** A ClassNameStrategy instance. */
  datatype Strategy =
    | DefaultStrategy
      /** com.example.it.CustomStrategy, from the integration test. */
    | CustomStrategy
      /** Any other class that implements the interface; its code is not part of the model. */
    | UserStrategy(className: string, naming: Option<string> -> Result<string>)

  // ----- DefaultClassNameStrategy -----

  /**
   * The base name with its dots dropped and a character upper-cased exactly
   * when it is the first one or follows a dot. Read from the right: the last
   * character is dropped if it is a dot, and otherwise capitalized by that rule.
   */
  function Capitalized(s: string): (r: string)
    ensures '.' !in r
    ensures |r| == NonDotCount(s)
    decreases |s|
  {
    if s == [] then []
    else
      var init, c := s[..|s| - 1], s[|s| - 1];
      if c == '.' then Capitalized(init)
      else Capitalized(init) + [if init == [] || init[|init| - 1] == '.' then UpperChar(c) else c]
  }

  /** How many characters of `s` are not dots. */
  function NonDotCount(s: string): nat
    decreases |s|
  {
    if s == [] then 0 else NonDotCount(s[..|s| - 1]) + (if s[|s| - 1] == '.' then 0 else 1)
  }

  /** `filename` without a trailing `.properties`, cut at its last dot. */
  function StripExtension(filename: string): (r: string)
    ensures EndsWith(filename, PropertiesExtension) ==> r == filename[..|filename| - |PropertiesExtension|]
    ensures !EndsWith(filename, PropertiesExtension) ==> r == filename
  {
    if EndsWith(filename, PropertiesExtension) then
      ExtensionDotIsLastDot(filename);
      filename[..LastIndexOf(filename, '.')]
    else
      filename
  }

  /** In a name ending in `.properties`, the last dot is the extension's. */
  lemma ExtensionDotIsLastDot(filename: string)
    requires EndsWith(filename, PropertiesExtension)
    ensures LastIndexOf(filename, '.') == |filename| - |PropertiesExtension|
  {
    var k := |filename| - |PropertiesExtension|;
    assert filename[k] == PropertiesExtension[0];
    forall i | k < i < |filename|
      ensures filename[i] != '.'
    {
      assert filename[i] == PropertiesExtension[i - k];
    }
  }

  /** DefaultClassNameStrategy.generateClassName, as a value. */
  function DefaultClassName(filename: Option<string>): (r: Result<string>)
    ensures filename.None? || filename.value == [] <==> r == Err(EmptyFilenameMessage)
    ensures filename.Some? && filename.value != [] ==> r.Ok?
    ensures r.Ok? ==> EndsWith(r.value, ClassSuffix)
    ensures r.Ok? ==> '.' !in r.value[..|r.value| - |ClassSuffix|]
  {
    if filename.None? || filename.value == [] then Err(EmptyFilenameMessage)
    else
      var name := Capitalized(StripExtension(filename.value)) + ClassSuffix;
      assert name[..|name| - |ClassSuffix|] == Capitalized(StripExtension(filename.value));
      Ok(name)
  }

  method GenerateDefaultClassName(filename: Option<string>) returns (r: Result<string>)
    ensures r == DefaultClassName(filename)
  {
    if filename.None? || filename.value == [] {
      return Err(EmptyFilenameMessage);
    }
    var f := filename.value;
    var baseName := f;
    if EndsWith(f, PropertiesExtension) {
      ExtensionDotIsLastDot(f);
      baseName := f[..LastIndexOf(f, '.')];
    }
    var result := "";
    var capitalizeNext := true;
    for i := 0 to |baseName|
      invariant result == Capitalized(baseName[..i])
      invariant capitalizeNext == (i == 0 || baseName[i - 1] == '.')
    {
      var c := baseName[i];
      assert baseName[..i + 1][..i] == baseName[..i];
      if c == '.' {
        capitalizeNext := true;
      } else if capitalizeNext {
        result := result + [UpperChar(c)];
        capitalizeNext := false;
      } else {
        result := result + [c];
      }
    }
    assert baseName[..|baseName|] == baseName;
    return Ok(result + ClassSuffix);
  }

  /** How many non-dot characters come before position `i`. */
  lemma {:induction false} NonDotCountPrefix(s: string, i: nat)
    requires i < |s| && s[i] != '.'
    ensures NonDotCount(s[..i]) < NonDotCount(s)
    decreases |s|
  {
    if i < |s| - 1 {
      assert s[..|s| - 1][..i] == s[..i];
      NonDotCountPrefix(s[..|s| - 1], i);
    } else {
      assert s[..|s| - 1] == s[..i];
    }
  }

  /**
   * Every non-dot character of the base name lands, in order, at the position
   * given by the non-dots before it; it is upper-cased when it is the first
   * character or follows a dot, and is otherwise kept as it is.
   */
  lemma {:induction false} CapitalizedAt(s: string, i: nat)
    requires i < |s| && s[i] != '.'
    ensures NonDotCount(s[..i]) < |Capitalized(s)|
      && Capitalized(s)[NonDotCount(s[..i])]
         == if i == 0 || s[i - 1] == '.' then UpperChar(s[i]) else s[i]
    decreases |s|
  {
    NonDotCountPrefix(s, i);
    var init := s[..|s| - 1];
    if i < |s| - 1 {
      assert init[..i] == s[..i];
      assert init[i] == s[i];
      assert i > 0 ==> init[i - 1] == s[i - 1];
      CapitalizedAt(init, i);
      NonDotCountPrefix(init, i);
    } else {
      assert init == s[..i];
    }
  }

  /** A trailing `.properties` makes no difference to a name that lacks one. */
  lemma ExtensionIsOptional(name: string)
    requires name != [] && !EndsWith(name, PropertiesExtension)
    ensures DefaultClassName(Some(name + PropertiesExtension)) == DefaultClassName(Some(name))
  {
    var f := name + PropertiesExtension;
    assert f[|f| - |PropertiesExtension|..] == PropertiesExtension;
    assert f[..|f| - |PropertiesExtension|] == name;
  }

  /** Only one `.properties` is removed: a doubled extension keeps the inner one. */
  lemma ExtensionStrippedOnce(name: string)
    ensures DefaultClassName(Some(name + PropertiesExtension)) == Ok(Capitalized(name) + ClassSuffix)
  {
    var f := name + PropertiesExtension;
    assert f[|f| - |PropertiesExtension|..] == PropertiesExtension;
    assert f[..|f| - |PropertiesExtension|] == name;
  }

  /** The bare extension names the class `Properties`. */
  lemma ExtensionOnlyExample()
    ensures DefaultClassName(Some(PropertiesExtension)) == Ok(ClassSuffix)
  {
    ExtensionStrippedOnce("");
    assert "" + PropertiesExtension == PropertiesExtension;
  }

  /** A dotless word gets its first character upper-cased and keeps the rest. */
  lemma {:induction false} CapitalizedWord(w: string)
    requires w != [] && '.' !in w
    ensures Capitalized(w) == [UpperChar(w[0])] + w[1..]
    decreases |w|
  {
    var init := w[..|w| - 1];
    if init == [] {
      assert w == [w[0]];
    } else {
      assert '.' !in init by {
        forall i | 0 <= i < |init| ensures init[i] != '.' { assert init[i] == w[i]; }
      }
      CapitalizedWord(init);
      assert init[|init| - 1] == w[|w| - 2];
      assert w[|w| - 1] != '.' by { assert w[|w| - 1] in w; }
      assert init[1..] + [w[|w| - 1]] == w[1..];
    }
  }

  /** Dots separate segments that are capitalized independently of each other. */
  lemma {:induction false} CapitalizedSplitsAtDot(a: string, b: string)
    ensures Capitalized(a + "." + b) == Capitalized(a) + Capitalized(b)
    decreases |b|
  {
    var s := a + "." + b;
    if b == [] {
      assert s[..|s| - 1] == a;
    } else {
      var binit, c := b[..|b| - 1], b[|b| - 1];
      var init := s[..|s| - 1];
      assert init == a + "." + binit;
      assert s[|s| - 1] == c;
      CapitalizedSplitsAtDot(a, binit);
      if c == '.' {
        assert Capitalized(s) == Capitalized(init);
        assert Capitalized(b) == Capitalized(binit);
      } else {
        var atStart := binit == [] || binit[|binit| - 1] == '.';
        if binit == [] {
          assert init[|init| - 1] == '.';
        } else {
          assert init[|init| - 1] == binit[|binit| - 1];
        }
        var x := if atStart then UpperChar(c) else c;
        assert Capitalized(s) == Capitalized(init) + [x];
        assert Capitalized(b) == Capitalized(binit) + [x];
      }
    }
  }

  /** Cases from DefaultClassNameStrategyTest. */
  lemma DefaultNamingExamples()
    ensures DefaultClassName(Some("a")) == Ok("AProperties")
    ensures DefaultClassName(Some("a.properties")) == Ok("AProperties")
    ensures DefaultClassName(Some("")) == Err(EmptyFilenameMessage)
    ensures DefaultClassName(None) == Err(EmptyFilenameMessage)
  {
    assert !EndsWith("a", PropertiesExtension);
    assert "a"[..0] == [] && "a"[0] == 'a';
    assert UpperChar('a') == 'A';
    assert Capitalized("a") == "A";
    assert StripExtension("a") == "a";
    assert "A" + ClassSuffix == "AProperties";
    ExtensionIsOptional("a");
    assert "a" + PropertiesExtension == "a.properties";
  }

  /** A two-segment base name gives both segments capitalized and joined. */
  lemma TwoSegmentName(a: string, b: string)
    requires a != [] && b != [] && '.' !in a && '.' !in b
    ensures DefaultClassName(Some(a + "." + b + PropertiesExtension))
         == Ok(([UpperChar(a[0])] + a[1..]) + ([UpperChar(b[0])] + b[1..]) + ClassSuffix)
  {
    ExtensionStrippedOnce(a + "." + b);
    CapitalizedSplitsAtDot(a, b);
    CapitalizedWord(a);
    CapitalizedWord(b);
  }

  lemma DottedNameSpelling()
    ensures "my" + "." + "config" + PropertiesExtension == "my.config.properties"
    ensures ([UpperChar('m')] + "y") + ([UpperChar('c')] + "onfig") + ClassSuffix == "MyConfigProperties"
  {
    assert UpperChar('m') == 'M' && UpperChar('c') == 'C';
  }

  /** The dotted case of DefaultClassNameStrategyTest. */
  lemma DottedNameExample()
    ensures DefaultClassName(Some("my.config.properties")) == Ok("MyConfigProperties")
  {
    var a, b := "my", "config";
    assert '.' !in a && '.' !in b;
    assert a[0] == 'm' && a[1..] == "y" && b[0] == 'c' && b[1..] == "onfig";
    TwoSegmentName(a, b);
    DottedNameSpelling();
  }

  // ----- CustomStrategy (integration test) -----

  /** The characters `[a-zA-Z0-9_]` CustomStrategy keeps. */
  predicate IsWordChar(c: char) {
    IsAsciiLower(c) || IsAsciiUpper(c) || IsAsciiDigit(c) || c == '_'
  }

  function CustomClassName(filename: Option<string>): (r: Result<string>)
    ensures r.Err? <==> filename.None?
    ensures r.Ok? ==> |r.value| >= |CustomPrefix| && r.value[..|CustomPrefix|] == CustomPrefix
    ensures r.Ok? ==> forall i :: |CustomPrefix| <= i < |r.value| ==> IsWordChar(r.value[i])
  {
    if filename.None? then Err(NullPointerMessage)
    else
      var f := filename.value;
      var baseName := if EndsWith(f, PropertiesExtension) then f[..|f| - |PropertiesExtension|] else f;
      var kept := Keep(baseName, IsWordChar);
      assert (CustomPrefix + kept)[|CustomPrefix|..] == kept;
      Ok(CustomPrefix + kept)
  }

  /** Only one `.properties` is removed, and a name without it gives the same class. */
  lemma CustomExtensionStrippedOnce(name: string)
    ensures CustomClassName(Some(name + PropertiesExtension)) == Ok(CustomPrefix + Keep(name, IsWordChar))
    ensures !EndsWith(name, PropertiesExtension) ==>
      CustomClassName(Some(name)) == CustomClassName(Some(name + PropertiesExtension))
  {
    var f := name + PropertiesExtension;
    assert f[|f| - |PropertiesExtension|..] == PropertiesExtension;
    assert f[..|f| - |PropertiesExtension|] == name;
  }

  /**
   * The interface documents that an empty filename is rejected. The default
   * strategy does so; CustomStrategy returns `Custom_`. A caller of the
   * interface can therefore not rely on the rejection.
   */
  lemma EmptyFilenameDependsOnStrategy()
    ensures ClassNameFor(DefaultStrategy, Some("")) == Err(EmptyFilenameMessage)
    ensures ClassNameFor(CustomStrategy, Some("")) == Ok(CustomPrefix)
  {
    assert !EndsWith("", PropertiesExtension);
    assert Keep("", IsWordChar) == "";
    assert CustomPrefix + [] == CustomPrefix;
  }

  // ----- Dispatch -----

  /** `strategy.generateClassName(filename)`. */
  function ClassNameFor(strategy: Strategy, filename: Option<string>): Result<string> {
    match strategy
    case DefaultStrategy => DefaultClassName(filename)
    case CustomStrategy => CustomClassName(filename)
    case UserStrategy(_, naming) => naming(filename)
  }

  method GenerateClassName(strategy: Strategy, filename: Option<string>) returns (r: Result<string>)
    ensures r == ClassNameFor(strategy, filename)
  {
    match strategy
    case DefaultStrategy =>
      r := GenerateDefaultClassName(filename);
    case CustomStrategy =>
      r := CustomClassName(filename);
    case UserStrategy(_, naming) =>
      r := naming(filename);
  }
}
