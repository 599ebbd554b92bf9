# property-constant-maven-plugin, modelled in Dafny

The property-constant-maven-plugin is a Maven plugin. It turns groups of
localized Java properties files into Java source classes with one constant
per property key. For every configured source directory it does the following:

- It collects the regular files named `base_ll.properties` or
  `base_ll_RR.properties` and groups them by base name.
- For each group, it loads every file with the configured encoding. It merges
  the files into a table `key → language → value`.
- For each group with at least one key, it writes one class. The configured
  class-naming strategy names the class. It is placed under the target package
  in the output directory. It carries a `@Generated` provenance annotation,
  `final`, a private constructor and one member per key. The member is named by
  the constant-name converter.

This project models the core of that pipeline and proves properties of it.
Each Dafny module follows one source unit:

- `JavaStrings` (`java_strings.dfy`): the `java.lang.String` operations the code
  relies on. These are ASCII upper-casing, `replace`, the `replaceAll` character
  filter, `trim`/`isEmpty`, `endsWith` and `lastIndexOf`.
- `ConstantNames` (`constant_names.dfy`): `ConstantNameConverter.toConstantName`.
- `StringEscape` (`string_escape.dfy`): `StringEscapeUtils.escapeJavaString`
  over UTF-16 code units. It also has a decoder for Java string literals
  following the Java Language Specification, section 3.3 (Unicode escapes) and
  section 3.10.7 (escape sequences). Escaping is proved lossless against this
  decoder.
- `ClassNames` (`class_names.dfy`): the `ClassNameStrategy` interface as a
  datatype of its implementations. These are the default strategy, the
  integration-test `CustomStrategy` and any other user strategy.
- `StrategyFactory` (`strategy_factory.dfy`):
  `ClassNameStrategyFactory.createStrategy`, with reflection replaced by a
  table of known classes.
- `Builder` (`class_builder.dfy`): `ClassBuilder` as a class with a mutable
  buffer and plugin version. It also has a value-level state machine (`Replay`)
  that the class's methods are proved against.
- `HashOrder` (`hash_order.dfy`): an iteration order of a `HashMap` as an
  enumeration of its key set.
- `Generator` (`class_generator.dfy`): `PropertiesClassGenerator` and
  `generateClass`, with the file system replaced by the output path, the
  builder calls and the text.
- `LocaleNames` (`locale_names.dfy`): the two locale file name regular
  expressions of the mojo.
- `PropertyGroups` (`property_groups.dfy`): `processSource` and
  `processPropertyGroup` of `PropertiesGeneratorMojo`.

Java `null` is `Option.None`. A thrown exception is `Result.Err(message)`, or
`GroupOutcome.Failed` / `SourceOutcome.failure` where the exception ends the run.

The tests disagree with the code in four places. The model follows the code
in each:

- `ConstantNameConverterTest.java:23` expects `123property` to become
  `123PROPERTY`. The code gives `_123PROPERTY` (`ConstantNames.LeadingDigitExample`).
- `ConstantNameConverterTest.java:45-46` expect `_` and `___` to be accepted
  unchanged. The code rejects every name made only of underscores
  (`ConstantNames.UnderscoreOnlyExample`).
- `PropertiesClassGeneratorTest.java:80-93` expect `Map` imports and
  static-initializer text.
- `PropertiesClassGeneratorTest.java:365-384` expect `@Generated(` in a class
  whose builder never had `addGenerated` called. No such text is produced
  there: `ClassBuilder.build` (`ClassBuilder.java:61-68`) writes only the
  package line, one import, the buffer and the closing brace.

`PropertiesClassGenerator.java:69` calls `addLocalizedConstant`, but the
`ClassBuilder.java` modelled here has no such method. Its text is therefore a
parameter of the model (`Builder.Host.localizedMember`).

## Model

| member | source | states |
|---|---|---|
| JavaStrings.UpperChar | src/main/java/io/github/yottabytecrafter/strategy/DefaultClassNameStrategy.java:23 | a lower-case ASCII letter becomes its own upper-case letter (code 32 lower, `a` to `A`); any other character is unchanged |
| JavaStrings.UpperCase | src/main/java/io/github/yottabytecrafter/utils/ConstantNameConverter.java:12 | `toUpperCase` keeps the length and upper-cases character by character |
| JavaStrings.Replace | src/main/java/io/github/yottabytecrafter/utils/ConstantNameConverter.java:13-15 | `replace(from, to)` keeps the length; every `from` becomes `to` and every other character is kept in place |
| JavaStrings.Keep | src/main/java/io/github/yottabytecrafter/utils/ConstantNameConverter.java:16 | the `replaceAll("[^…]", "")` filter keeps only accepted characters, never lengthens, leaves an all-accepted string unchanged, and keeps a single character exactly when it is accepted; with `KeepAppend` this fixes the result for every string |
| JavaStrings.KeepAppend | src/main/java/io/github/yottabytecrafter/utils/ConstantNameConverter.java:16 | the filter distributes over concatenation |
| JavaStrings.TrimStart | src/main/java/io/github/yottabytecrafter/utils/ConstantNameConverter.java:6 | `trim` drops exactly the leading characters `<= ' '`: the result is a suffix and starts with a non-trimmable character |
| JavaStrings.TrimEnd | src/main/java/io/github/yottabytecrafter/utils/ConstantNameConverter.java:6 | `trim` drops the trailing characters `<= ' '`: the result is a prefix ending in a non-trimmable character, and every dropped character is trimmable |
| JavaStrings.TrimEmptyIffBlank | src/main/java/io/github/yottabytecrafter/utils/ConstantNameConverter.java:6 | `trim().isEmpty()` holds exactly when every character is `<= ' '` |
| JavaStrings.LastIndexOf | src/main/java/io/github/yottabytecrafter/strategy/DefaultClassNameStrategy.java:13 | `lastIndexOf` is -1 or an index holding the character, with no occurrence after it |
| ConstantNames.Normalized | src/main/java/io/github/yottabytecrafter/utils/ConstantNameConverter.java:12-16 | the conversion chain yields only `[A-Z0-9_]` characters and never lengthens the key |
| ConstantNames.DigitGuarded | src/main/java/io/github/yottabytecrafter/utils/ConstantNameConverter.java:19-21 | the result is the name itself or the name with one `_` in front, the `_` being added exactly when the name starts with a digit; so it never starts with a digit, and is all underscores exactly when the name was |
| ConstantNames.ToConstantName | src/main/java/io/github/yottabytecrafter/utils/ConstantNameConverter.java:5-31 | a null or blank key fails with the "null or empty" message; any other key succeeds exactly when its converted form is not all underscores, and otherwise fails with the message naming the key; a success is a valid constant name at most one character longer than the key |
| ConstantNames.NormalizedAppend | src/main/java/io/github/yottabytecrafter/utils/ConstantNameConverter.java:12-16 | the conversion chain distributes over concatenation |
| ConstantNames.NormalizedChar | src/main/java/io/github/yottabytecrafter/utils/ConstantNameConverter.java:12-16 | on one character the chain gives that character's image read off the rules |
| ConstantNames.NormalizedIsPerChar | src/main/java/io/github/yottabytecrafter/utils/ConstantNameConverter.java:12-16 | the chain works character by character, in order: lower case is upper-cased, `.`, `-` and space become `_`, `[A-Z0-9_]` is kept, anything else is dropped |
| ConstantNames.ConversionIsPerCharacter | src/main/java/io/github/yottabytecrafter/utils/ConstantNameConverter.java:12-28 | for a non-blank key: when the per-character image of the key (lower case upper-cased, `.` `-` space to `_`, `[A-Z0-9_]` kept, the rest dropped) is empty or all underscores the key is rejected with the message naming it; otherwise the result is that image, with one `_` in front exactly when it starts with a digit |
| ConstantNames.PerCharImageOfName | src/main/java/io/github/yottabytecrafter/utils/ConstantNameConverter.java:16 | a string of `[A-Z0-9_]` is its own per-character image |
| ConstantNames.ConstantNameIsFixedPoint | src/main/java/io/github/yottabytecrafter/utils/ConstantNameConverter.java:5-31 | every valid constant name converts to itself |
| ConstantNames.ConversionIsIdempotent | src/main/java/io/github/yottabytecrafter/utils/ConstantNameConverter.java:5-31 | converting a converted key again gives the same result |
| ConstantNames.DroppedCharacterExample | src/test/java/io/github/yottabytecrafter/utils/ConstantNameConverterTest.java:13-46 | `a!b 1` converts to `AB_1`: `!` is dropped and the space becomes `_` |
| ConstantNames.LeadingDigitExample | src/main/java/io/github/yottabytecrafter/utils/ConstantNameConverter.java:19-21 | `1a` converts to `_1A`, as the code does (the test at ConstantNameConverterTest.java:23 expects no `_`) |
| ConstantNames.UnderscoreOnlyExample | src/main/java/io/github/yottabytecrafter/utils/ConstantNameConverter.java:24-28 | `_` is rejected with the message naming it, as the code does (the test at ConstantNameConverterTest.java:45 expects `_`) |
| ConstantNames.SeparatorsImage | src/main/java/io/github/yottabytecrafter/utils/ConstantNameConverter.java:13-15 | a key of `.`, `-` and spaces maps to underscores only |
| ConstantNames.SeparatorsOnlyAreRejected | src/main/java/io/github/yottabytecrafter/utils/ConstantNameConverter.java:24-28 | a non-blank key of `.`, `-` and spaces only is rejected with the message naming it |
| StringEscape.HexDigit | src/main/java/io/github/yottabytecrafter/utils/StringEscapeUtils.java:22 | a `%04x` digit is a lower-case hexadecimal digit whose value is the digit |
| StringEscape.UnicodeEscape | src/main/java/io/github/yottabytecrafter/utils/StringEscapeUtils.java:22 | `\u%04x` is six units: backslash, `u`, four lower-case hexadecimal digits |
| StringEscape.UnicodeEscapeValue | src/main/java/io/github/yottabytecrafter/utils/StringEscapeUtils.java:22 | the four digits of `\u%04x` spell the code unit's value |
| StringEscape.EscapeUnit | src/main/java/io/github/yottabytecrafter/utils/StringEscapeUtils.java:14-25 | one code unit becomes between one and six units |
| StringEscape.EscapedUnitTable | src/main/java/io/github/yottabytecrafter/utils/StringEscapeUtils.java:12-25 | `"`, `\`, LF, CR and TAB become `\"`, `\\`, `\n`, `\r`, `\t`; any other unit below 32 or above 127 becomes `\u` with four lower-case hexadecimal digits; printable ASCII other than `"` and `\` is copied |
| StringEscape.ConcatMapAppend | src/main/java/io/github/yottabytecrafter/utils/StringEscapeUtils.java:12-27 | the per-unit loop distributes over concatenation |
| StringEscape.EscapedLength | src/main/java/io/github/yottabytecrafter/utils/StringEscapeUtils.java:11-27 | the escaped text is at least as long as the input and at most six times as long |
| StringEscape.EscapedIsPrintable | src/main/java/io/github/yottabytecrafter/utils/StringEscapeUtils.java:14-26 | every unit of the escaped text lies in 32..127 |
| StringEscape.EscapeJavaString | src/main/java/io/github/yottabytecrafter/utils/StringEscapeUtils.java:5-29 | null gives null; otherwise the loop produces exactly the escaped text of the value |
| StringEscape.EscapedAppend | src/main/java/io/github/yottabytecrafter/utils/StringEscapeUtils.java:12-27 | escaping distributes over concatenation |
| StringEscape.EscapedCons | src/main/java/io/github/yottabytecrafter/utils/StringEscapeUtils.java:12-27 | the escaped text of a unit followed by a rest is the unit's escape followed by the escaped rest |
| StringEscape.PlainTextIsFixedPoint | src/main/java/io/github/yottabytecrafter/utils/StringEscapeUtils.java:23-24 | text of printable ASCII without `"` and `\` is left unchanged |
| StringEscape.TranslateTwoUnitEscape | src/main/java/io/github/yottabytecrafter/utils/StringEscapeUtils.java:15-19 | a two-unit escape passes the Unicode-escape translation unchanged |
| StringEscape.TranslateUnicodeEscape | src/main/java/io/github/yottabytecrafter/utils/StringEscapeUtils.java:22 | the Unicode-escape translation turns `\u%04x` back into the code unit |
| StringEscape.TranslateStep | src/main/java/io/github/yottabytecrafter/utils/StringEscapeUtils.java:14-25 | the Unicode-escape translation of one unit's escape, followed by any rest |
| StringEscape.TranslateEscaped | src/main/java/io/github/yottabytecrafter/utils/StringEscapeUtils.java:12-27 | the Unicode-escape translation of escaped text succeeds and leaves only the two-unit escapes and plain units |
| StringEscape.InterpretStep | src/main/java/io/github/yottabytecrafter/utils/StringEscapeUtils.java:15-24 | the escape-sequence interpretation of one unit's resolved escape, followed by any rest |
| StringEscape.InterpretResolved | src/main/java/io/github/yottabytecrafter/utils/StringEscapeUtils.java:12-27 | interpreting the escape sequences then gives back the original units |
| StringEscape.EscapeRoundTrip | src/main/java/io/github/yottabytecrafter/utils/StringEscapeUtils.java:5-29 | the escaped text, read as the body of a Java string literal, denotes exactly the original value |
| StringEscape.EscapeIsInjective | src/main/java/io/github/yottabytecrafter/utils/StringEscapeUtils.java:5-29 | two different values never escape to the same text |
| StringEscape.LowerCaseEscapeExamples | src/test/java/io/github/yottabytecrafter/utils/StringEscapeUtilsTest.java:33-40 | U+001F, U+00A9 and U+20AC escape to `\u001f`, `\u00a9` and `\u20ac` |
| ClassNames.Capitalized | src/main/java/io/github/yottabytecrafter/strategy/DefaultClassNameStrategy.java:16-28 | the capitalising loop drops every dot and keeps every other character |
| ClassNames.CapitalizedAt | src/main/java/io/github/yottabytecrafter/strategy/DefaultClassNameStrategy.java:17-27 | each non-dot character lands at its non-dot position, upper-cased when it is first or follows a dot and unchanged otherwise |
| ClassNames.StripExtension | src/main/java/io/github/yottabytecrafter/strategy/DefaultClassNameStrategy.java:11-14 | a trailing `.properties` is removed; any other name is kept |
| ClassNames.ExtensionDotIsLastDot | src/main/java/io/github/yottabytecrafter/strategy/DefaultClassNameStrategy.java:12-13 | for a name ending in `.properties`, `lastIndexOf('.')` is the dot of that extension |
| ClassNames.DefaultClassName | src/main/java/io/github/yottabytecrafter/strategy/DefaultClassNameStrategy.java:6-31 | null or empty fails with the empty-filename message and nothing else fails; a name ends in `Properties` with no dot before the suffix |
| ClassNames.GenerateDefaultClassName | src/main/java/io/github/yottabytecrafter/strategy/DefaultClassNameStrategy.java:6-31 | the character loop computes exactly the default class name |
| ClassNames.ExtensionIsOptional | src/test/java/io/github/yottabytecrafter/strategy/impl/DefaultClassNameStrategyTest.java:13-22 | `x` and `x.properties` get the same class name |
| ClassNames.ExtensionStrippedOnce | src/main/java/io/github/yottabytecrafter/strategy/DefaultClassNameStrategy.java:11-30 | `x.properties` gives the capitalised `x` followed by `Properties`, whatever `x` ends with, the empty `x` included |
| ClassNames.ExtensionOnlyExample | src/main/java/io/github/yottabytecrafter/strategy/DefaultClassNameStrategy.java:11-30 | the name `.properties` gives the class name `Properties` |
| ClassNames.CapitalizedWord | src/test/java/io/github/yottabytecrafter/strategy/impl/DefaultClassNameStrategyTest.java:25-34 | a dot-free word only has its first letter upper-cased; the rest keeps its case |
| ClassNames.CapitalizedSplitsAtDot | src/main/java/io/github/yottabytecrafter/strategy/DefaultClassNameStrategy.java:20-21 | a dot splits the name into independently capitalised segments |
| ClassNames.DefaultNamingExamples | src/test/java/io/github/yottabytecrafter/strategy/impl/DefaultClassNameStrategyTest.java:43-70 | `a` and `a.properties` give `AProperties`; null and the empty name fail |
| ClassNames.TwoSegmentName | src/main/java/io/github/yottabytecrafter/strategy/DefaultClassNameStrategy.java:16-30 | for dot-free non-empty `a` and `b`, `a.b.properties` gives `a` with its first letter upper-cased, then `b` likewise, then `Properties` |
| ClassNames.DottedNameExample | src/test/java/io/github/yottabytecrafter/strategy/impl/DefaultClassNameStrategyTest.java:37-40 | `my.config.properties` gives `MyConfigProperties` |
| ClassNames.CustomClassName | src/it/custom-strategy-test/src/main/java/com/example/it/CustomStrategy.java:8-14 | only null fails; a name is `Custom_` followed by word characters |
| ClassNames.CustomExtensionStrippedOnce | src/it/custom-strategy-test/src/main/java/com/example/it/CustomStrategy.java:10-13 | `x.properties` gives `Custom_` plus the word characters of `x`; a name without the extension keeps all its word characters |
| ClassNames.EmptyFilenameDependsOnStrategy | src/main/java/io/github/yottabytecrafter/strategy/ClassNameStrategy.java:3-11 | the empty name fails under the default strategy but gives `Custom_` under the custom one |
| ClassNames.GenerateClassName | src/main/java/io/github/yottabytecrafter/strategy/ClassNameStrategy.java:11 | dispatch gives the chosen implementation's class name |
| StrategyFactory.CreateStrategy | src/main/java/io/github/yottabytecrafter/factory/ClassNameStrategyFactory.java:7-22 | a null or blank name gives the default strategy; any other name gives the user strategy of that class when it is known, implements the interface and can be instantiated, and otherwise the matching message |
| StrategyFactory.ErrorNamesTheClass | src/main/java/io/github/yottabytecrafter/factory/ClassNameStrategyFactory.java:14-21 | a failure happens only for a non-blank name and its message names the class |
| StrategyFactory.PaddedNameIsNotTrimmed | src/main/java/io/github/yottabytecrafter/factory/ClassNameStrategyFactory.java:8-14 | the name is looked up untrimmed, so a padded known name is not found |
| StrategyFactory.BlankNameExamples | src/test/java/io/github/yottabytecrafter/factory/ClassNameStrategyFactoryTest.java:11-26 | null, empty and spaces give the default strategy |
| StrategyFactory.MissingClassExample | src/test/java/io/github/yottabytecrafter/factory/ClassNameStrategyFactoryTest.java:35-45 | an unknown class fails with "could not instantiate" naming it |
| StrategyFactory.NonStrategyClassExample | src/test/java/io/github/yottabytecrafter/factory/ClassNameStrategyFactoryTest.java:48-58 | `java.lang.String` fails with "does not implement" naming it |
| Builder.Rendered | src/main/java/io/github/yottabytecrafter/builder/ClassBuilder.java:61-68 | the built text is the package/import header, then exactly the buffer, then the closing brace |
| Builder.EffectiveVersion | src/main/java/io/github/yottabytecrafter/builder/ClassBuilder.java:31-33 | the version in the comments is never empty: the plugin version, or `unknown` when it is null or empty |
| Builder.ReplayOnlyAppends | src/main/java/io/github/yottabytecrafter/builder/ClassBuilder.java:18-59 | builder calls never change text already in the buffer |
| Builder.ReplayConcat | src/main/java/io/github/yottabytecrafter/builder/ClassBuilder.java:18-59 | running two call sequences one after the other is running their concatenation |
| Builder.FragmentsInCallOrder | src/main/java/io/github/yottabytecrafter/builder/ClassBuilder.java:18-59 | each call's text lands after the text of all earlier calls |
| Builder.VersionSetAfterGenerated | src/main/java/io/github/yottabytecrafter/builder/ClassBuilder.java:31-33 | after any `addGenerated` the plugin version is set and non-empty for good |
| Builder.VersionUntouchedWithoutGenerated | src/main/java/io/github/yottabytecrafter/builder/ClassBuilder.java:40-59 | no call other than `addGenerated` changes the plugin version |
| Builder.NoAnnotationWithoutGenerated | src/main/java/io/github/yottabytecrafter/builder/ClassBuilder.java:18-25 | without `addGenerated` the buffer does not depend on the clock, the JVM properties or the plugin version |
| Builder.ClassNameIsTheOnlyParameter | src/main/java/io/github/yottabytecrafter/builder/ClassBuilder.java:40-50 | `makeClassFinal` and `addPrivateConstructor` depend on the class name alone |
| Builder.ClassBuilder.constructor | src/main/java/io/github/yottabytecrafter/builder/ClassBuilder.java:12-16 | a new builder has an empty buffer and the given names and version |
| Builder.ClassBuilder.AddGenerated | src/main/java/io/github/yottabytecrafter/builder/ClassBuilder.java:18-25 | appends the annotation with its comments and sets the version, as the state machine's step |
| Builder.ClassBuilder.AddVersionToComments | src/main/java/io/github/yottabytecrafter/builder/ClassBuilder.java:27-38 | replaces a null or empty version by `unknown` and appends the comments line with that version |
| Builder.ClassBuilder.MakeClassFinal | src/main/java/io/github/yottabytecrafter/builder/ClassBuilder.java:40-43 | appends the class declaration; the version is unchanged |
| Builder.ClassBuilder.AddPrivateConstructor | src/main/java/io/github/yottabytecrafter/builder/ClassBuilder.java:45-50 | appends the private constructor; the version is unchanged |
| Builder.ClassBuilder.AddConstant | src/main/java/io/github/yottabytecrafter/builder/ClassBuilder.java:52-59 | appends the constant declaration with the value unescaped; the version is unchanged |
| Builder.ClassBuilder.AddLocalizedConstant | src/main/java/io/github/yottabytecrafter/generator/PropertiesClassGenerator.java:69 | appends the member text for the key, as the state machine's step |
| Builder.ClassBuilder.Apply | src/main/java/io/github/yottabytecrafter/builder/ClassBuilder.java:18-59 | each fluent call moves the builder by exactly one step of the state machine |
| Builder.ClassBuilder.Build | src/main/java/io/github/yottabytecrafter/builder/ClassBuilder.java:61-68 | returns the header, the buffer and the closing brace, and leaves the builder unchanged |
| Builder.MinimalClass | src/test/java/io/github/yottabytecrafter/builder/ClassBuilderTest.java:14-31 | a builder given only `makeClassFinal` renders the header, the declaration and the closing brace |
| HashOrder.EnumerationLength | src/main/java/io/github/yottabytecrafter/generator/PropertiesClassGenerator.java:63 | an iteration of a map visits as many entries as it has keys |
| Generator.MemberCalls | src/main/java/io/github/yottabytecrafter/generator/PropertiesClassGenerator.java:63-70 | the loop succeeds exactly when every key converts, making one member call per key in iteration order; otherwise it fails with the message of the first rejected key |
| Generator.MemberCallsStopAtFirstError | src/main/java/io/github/yottabytecrafter/generator/PropertiesClassGenerator.java:63-70 | once a key is rejected, later keys change nothing |
| Generator.GeneratedClass | src/main/java/io/github/yottabytecrafter/generator/PropertiesClassGenerator.java:41-76 | a naming failure is passed on; a file is produced exactly when the class is named and every key converts; it goes to `<output>/<package with / for .>/<ClassName>.java` and holds the header calls, then one member per key in iteration order, rendered by the builder |
| Generator.HeaderCallsSteps | src/main/java/io/github/yottabytecrafter/generator/PropertiesClassGenerator.java:51-55 | the three header calls are three steps in order |
| Generator.HeaderCallsCode | src/main/java/io/github/yottabytecrafter/generator/PropertiesClassGenerator.java:51-55 | the header calls write the annotation for `base_*.properties`, the declaration and the constructor |
| Generator.HeaderComesFirst | src/main/java/io/github/yottabytecrafter/generator/PropertiesClassGenerator.java:51-70 | whatever members follow, the buffer starts with the header calls' text |
| Generator.TextLayout | src/main/java/io/github/yottabytecrafter/generator/PropertiesClassGenerator.java:51-74 | the class text starts with the package header and the header calls' text and ends with the closing brace |
| Generator.GeneratedTextLayout | src/main/java/io/github/yottabytecrafter/generator/PropertiesClassGenerator.java:41-76 | every generated file has that layout |
| Generator.GeneratedClassOk | src/main/java/io/github/yottabytecrafter/generator/PropertiesClassGenerator.java:45-75 | with a class name and member calls, the file is the header calls plus those members at the package path |
| Generator.GeneratedClassNameErr | src/main/java/io/github/yottabytecrafter/generator/PropertiesClassGenerator.java:45 | a naming failure is the generator's failure |
| Generator.GeneratedClassErr | src/main/java/io/github/yottabytecrafter/generator/PropertiesClassGenerator.java:63-70 | a rejected key is the generator's failure |
| Generator.EmptyTranslationsGiveSkeleton | src/main/java/io/github/yottabytecrafter/generator/PropertiesClassGenerator.java:51-75 | a group without keys still gets a class with only the header, annotation, declaration and constructor |
| Generator.RejectedKeyWritesNothing | src/main/java/io/github/yottabytecrafter/generator/PropertiesClassGenerator.java:63-75 | a rejected key means no file, and the failure message is some rejected key's message |
| Generator.EffectiveStrategy | src/main/java/io/github/yottabytecrafter/generator/PropertiesClassGenerator.java:33-34 | a null strategy falls back to the default strategy |
| Generator.PropertiesClassGenerator.constructor | src/main/java/io/github/yottabytecrafter/generator/PropertiesClassGenerator.java:26-36 | stores the settings, with the default strategy in place of null |
| Generator.PropertiesClassGenerator.GenerateClass | src/main/java/io/github/yottabytecrafter/generator/PropertiesClassGenerator.java:41-76 | the method's outcome is exactly the generated-class function with its stored settings and the key converter |
| Generator.StartClass | src/main/java/io/github/yottabytecrafter/generator/PropertiesClassGenerator.java:51-55 | a fresh builder in the state the three header calls leave |
| Generator.AddMembers | src/main/java/io/github/yottabytecrafter/generator/PropertiesClassGenerator.java:63-70 | the loop's result is the member calls, and on success the builder has taken exactly those steps |
| LocaleNames.SplitLocaleName | src/main/java/io/github/yottabytecrafter/PropertiesGeneratorMojo.java:130-136 | a split found rebuilds the name as `base + "_" + locale + ".properties"` with a well-formed locale and a base name free of line terminators, which `.` does not match |
| LocaleNames.SplitIsUnique | src/main/java/io/github/yottabytecrafter/PropertiesGeneratorMojo.java:130 | a name splits in at most one way, so the pattern's groups are determined |
| LocaleNames.LocaleLengthFromLastChar | src/main/java/io/github/yottabytecrafter/PropertiesGeneratorMojo.java:130 | the last character of `base_locale` is lower case exactly when the locale is a bare language code |
| LocaleNames.SplitLocaleNameComplete | src/main/java/io/github/yottabytecrafter/PropertiesGeneratorMojo.java:130-136 | any split of a name is the one found |
| LocaleNames.SplitMatchesGroupPattern | src/main/java/io/github/yottabytecrafter/PropertiesGeneratorMojo.java:130-136 | a split is found exactly when the base-name pattern matches in full (`.*` excluding line terminators), and it is that pattern's group 1 and group 2 |
| LocaleNames.LanguagePatternAgrees | src/main/java/io/github/yottabytecrafter/PropertiesGeneratorMojo.java:163-171 | the language pattern matches with a locale exactly when the split finds that locale |
| LocaleNames.SplitReconstructs | src/main/java/io/github/yottabytecrafter/PropertiesGeneratorMojo.java:130-136 | a name built from a line-terminator-free base and a well-formed locale splits back into them |
| LocaleNames.RegionExample | src/main/java/io/github/yottabytecrafter/PropertiesGeneratorMojo.java:130 | `app_en_US.properties` has base `app` and locale `en_US` |
| LocaleNames.EmptyBaseExample | src/main/java/io/github/yottabytecrafter/PropertiesGeneratorMojo.java:130 | `_en.properties` has the empty base name |
| LocaleNames.UpperCaseLanguageExample | src/main/java/io/github/yottabytecrafter/PropertiesGeneratorMojo.java:130 | `app_EN.properties` does not match |
| LocaleNames.LineTerminatorExample | src/main/java/io/github/yottabytecrafter/PropertiesGeneratorMojo.java:130 | `a\nb_en.properties` does not match, since `.` does not match a line feed |
| PropertyGroups.Members | src/main/java/io/github/yottabytecrafter/PropertiesGeneratorMojo.java:132-140 | a group's members are exactly the listed regular files with that base name |
| PropertyGroups.GroupedIsFilter | src/main/java/io/github/yottabytecrafter/PropertiesGeneratorMojo.java:132-140 | the grouping map has a base name exactly when some file belongs to it, and the group lists its files in listing order |
| PropertyGroups.EntryIsInItsGroupOnly | src/main/java/io/github/yottabytecrafter/PropertiesGeneratorMojo.java:133-137 | an entry is in a group exactly when it is a listed regular file with that base name |
| PropertyGroups.MembersHaveDistinctNames | src/main/java/io/github/yottabytecrafter/PropertiesGeneratorMojo.java:132-140 | the grouping never lists a file twice |
| PropertyGroups.GroupLocalesAreDistinct | src/main/java/io/github/yottabytecrafter/PropertiesGeneratorMojo.java:130-137 | the files of one group have distinct locales |
| PropertyGroups.GroupedFilesMatchLanguagePattern | src/main/java/io/github/yottabytecrafter/PropertiesGeneratorMojo.java:163-170 | every grouped file matches the language pattern, so the skip branch never runs |
| PropertyGroups.GroupDirectory | src/main/java/io/github/yottabytecrafter/PropertiesGeneratorMojo.java:124-140 | the grouping loop produces the grouping map of the listing |
| PropertyGroups.MergeWithKeysStep | src/main/java/io/github/yottabytecrafter/PropertiesGeneratorMojo.java:187-189 | the last file adds exactly its own keys to the table |
| PropertyGroups.MergedKeys | src/main/java/io/github/yottabytecrafter/PropertiesGeneratorMojo.java:165-190 | the table has a key exactly when some file of the group loads and defines it |
| PropertyGroups.MergedDefinesExactly | src/main/java/io/github/yottabytecrafter/PropertiesGeneratorMojo.java:165-190 | with distinct locales, the table holds a key for a locale exactly when that locale's file defines it, with that file's value |
| PropertyGroups.UnreadableFileContributesNothing | src/main/java/io/github/yottabytecrafter/PropertiesGeneratorMojo.java:174-185 | a file whose reading throws an IOException is skipped and contributes nothing, wherever it stands |
| PropertyGroups.LoadFailureIsFirst | src/main/java/io/github/yottabytecrafter/PropertiesGeneratorMojo.java:165-185 | the group's load failure is None exactly when no file is malformed, and otherwise the message of a malformed file with none before it |
| PropertyGroups.LoadFailureStopsAt | src/main/java/io/github/yottabytecrafter/PropertiesGeneratorMojo.java:174-185 | files after the first malformed one do not change the failure |
| PropertyGroups.FirstMalformedFileDecides | src/main/java/io/github/yottabytecrafter/PropertiesGeneratorMojo.java:174-185 | after files that load or are skipped, a malformed file's message is the failure, whatever follows |
| PropertyGroups.MergeLoopStep | src/main/java/io/github/yottabytecrafter/PropertiesGeneratorMojo.java:165-190 | one more file: the failure becomes that file's message when it is the first malformed one, and the table gains that file's keys under its locale when it has a locale and loads |
| PropertyGroups.MergeTranslations | src/main/java/io/github/yottabytecrafter/PropertiesGeneratorMojo.java:165-190 | the merge loop builds exactly the merged table, or ends with the first malformed file's message, which `processPropertyGroup` does not catch |
| PropertyGroups.PutAllStep | src/main/java/io/github/yottabytecrafter/PropertiesGeneratorMojo.java:188 | putting one more key sets that key's value for the locale and leaves every other entry alone |
| PropertyGroups.PutProperties | src/main/java/io/github/yottabytecrafter/PropertiesGeneratorMojo.java:187-189 | the inner loop puts every key of the file under its locale and nothing else |
| PropertyGroups.ResolveCharset | src/main/java/io/github/yottabytecrafter/PropertiesGeneratorMojo.java:155-161 | a supported encoding is used; an unsupported or illegal one falls back to UTF-8 |
| PropertyGroups.PluginVersion | src/main/java/io/github/yottabytecrafter/PropertiesGeneratorMojo.java:197 | without a descriptor the version is `unknown`, otherwise the descriptor's version |
| PropertyGroups.GroupResult | src/main/java/io/github/yottabytecrafter/PropertiesGeneratorMojo.java:152-206 | a malformed file fails the group with its message; otherwise a group writes nothing exactly when its table is empty, and writes a file exactly when the table is non-empty, the class is named and every key converts; the file is named after the strategy's class name; and the file written is exactly the generator's output for the group's merged table |
| PropertyGroups.UnreadableGroupWritesNothing | src/main/java/io/github/yottabytecrafter/PropertiesGeneratorMojo.java:192-195 | a group none of whose files can be read generates no class |
| PropertyGroups.MalformedFileFailsGroup | src/main/java/io/github/yottabytecrafter/PropertiesGeneratorMojo.java:174-185 | after files that load or are skipped, a file with malformed text fails its group with its own message, whatever follows it |
| PropertyGroups.UnsupportedEncodingReadsAsUtf8 | src/main/java/io/github/yottabytecrafter/PropertiesGeneratorMojo.java:156-161 | an unsupported encoding gives the same outcome as UTF-8 |
| PropertyGroups.EmptyBaseNameFails | src/main/java/io/github/yottabytecrafter/PropertiesGeneratorMojo.java:199-206 | a group of `_ll.properties` files with keys fails under the default strategy with the empty-filename message |
| PropertyGroups.ProcessPropertyGroup | src/main/java/io/github/yottabytecrafter/PropertiesGeneratorMojo.java:152-209 | the method's outcome is exactly the group-result function |
| PropertyGroups.Collected | src/main/java/io/github/yottabytecrafter/PropertiesGeneratorMojo.java:142-148 | there is a failure exactly when some group fails, and then it is the first failing group's; without failure every written file is collected, and only written files are ever collected |
| PropertyGroups.CollectedStopsAtFailure | src/main/java/io/github/yottabytecrafter/PropertiesGeneratorMojo.java:142-148 | groups after a failure are never processed |
| PropertyGroups.GroupOutcomes | src/main/java/io/github/yottabytecrafter/PropertiesGeneratorMojo.java:142-148 | one outcome per base name, in hash order |
| PropertyGroups.SourceResult | src/main/java/io/github/yottabytecrafter/PropertiesGeneratorMojo.java:105-150 | a missing path, a regular file, a non-directory or an unreadable directory writes nothing and does not fail |
| PropertyGroups.WrittenFilesComeFromGroups | src/main/java/io/github/yottabytecrafter/PropertiesGeneratorMojo.java:142-148 | every written file is the class of one group of the listing |
| PropertyGroups.EveryGroupIsWritten | src/main/java/io/github/yottabytecrafter/PropertiesGeneratorMojo.java:142-148 | when no group fails, every group that generates a class has that class written |
| PropertyGroups.ProcessSource | src/main/java/io/github/yottabytecrafter/PropertiesGeneratorMojo.java:105-150 | the method's outcome is exactly the source-result function |

## Left out

- Unicode casing: `toUpperCase` and `Character.toUpperCase` are modelled for ASCII letters only, with other characters kept as they are. Java's `String.toUpperCase()` uses the default locale and the full Unicode case mapping. Some non-ASCII characters map to ASCII and then survive the converter's filter: `ß` becomes `SS`, `ı` and `ſ` become `I` and `S`, and `ﬁ` becomes `FI`. So `straße` converts to `STRASSE` in Java but to `STRAE` in the model. Under a Turkish or Azerbaijani default locale `i` becomes `İ`, which the filter then drops. The model does not capture these characters or the locale dependence. `UpperCase` keeping the length, and `Normalized` never lengthening, hold for the model only.
- `Properties.load` and charset decoding: how loading a file ends is given by a loader function of the file name and the charset name. It yields the properties, an IOException (the file is skipped) or an IllegalArgumentException such as a malformed `\uXXXX` (the group fails and so does the run). Which texts are malformed, and the `.properties` syntax itself, are not part of this model.
- The file system: `exists`, `isFile`, `isDirectory` and `listFiles` become the `SourcePath` value and a listing. `mkdirs` and the file write become the `OutputPath` of the result. In the source the package directory is created before any key is converted, so a rejected key can leave an empty directory. The model does not capture this. The model assumes the write succeeds. When `mkdirs` fails or the file cannot be opened, `FileOutputStream` throws an IOException (`PropertiesClassGenerator.java:47-49,72-75`), and that failure is not modelled.
- The clock (`DateTimeUtils.getCurrentDateTime`) and the `java.version`/`java.vendor` system properties are fields of `Builder.Host`. `DateTimeUtils` is not part of this model.
- Reflection in `ClassNameStrategyFactory` (`Class.forName`, `isAssignableFrom`, the no-argument constructor) is a table of known classes. A user strategy's own naming rule is a function held by its `Strategy` value.
- `HashMap` iteration order is a parameter. It is an enumeration of the key set (`order`, `Environment.hashOrder`), so the order depends on the key set alone. This is a simplification: keys sharing a `HashMap` bucket iterate in insertion order, so the real order also depends on the listing and load order. Nothing proved here relies on a particular order.
- `addLocalizedConstant`: its text is the `Host.localizedMember` parameter, because `ClassBuilder.java` as modelled has no such method.
- `StringEscape.EscapeJavaString` is not called by the builder or the generator in this source, so values reach the class text unescaped (`Builder.ConstantDeclaration`), as in the code.
- `StringEscape.EscapeUnit`: its own contract gives only the length bounds. What it writes for each code unit is stated by `StringEscape.EscapedUnitTable`, through `Escaped` of a one-unit string.
- Java strings containing `null` (a null package name or source file name formatted as `"null"`) are not modelled. Strings are values and the model's inputs are never null there.
- The fluent `return this` is left out: each builder method is a call on the object.
- `Generator.GeneratedClass` takes the key converter as a parameter. The generator class always passes `ConstantNameOf`.
- The output path is kept as its three parts (directory, package path, file name), not joined with the platform separator.
- The Maven lifecycle is not part of this model: `execute`, the `sources` loop, `project.addCompileSourceRoot`, the `MojoExecutionException` wrapping, logging and the message bundle. A failed group is the end of its source. The model stops at that failure and does not model how `execute` reports it.
- The `strategy.generateClassName(baseName)` call at PropertiesGeneratorMojo.java:207-208 only feeds a log message and is left out.
- Files listed by the directory but removed before they are read behave like unreadable files: they are skipped (`PropertyGroups.UnreadableFileContributesNothing`).
