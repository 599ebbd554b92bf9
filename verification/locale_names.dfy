/**
 * The locale file names the plugin collects: `base_ll.properties` and
 * `base_ll_RR.properties`, as matched by the regular expressions
 * `(.*)_([a-z]{2}(?:_[A-Z]{2})?)\.properties` (which yields the base name)
 * and `.*_([a-z]{2}(?:_[A-Z]{2})?)\.properties` (which yields the locale).
 *
 * Both expressions are read as the set of names they match in full
 * (`Matcher.matches`), with the groups they capture. They are compiled
 * without DOTALL, so `.*` matches no line terminator: a base name holding
 * `\n`, `\r`, U+0085, U+2028 or U+2029 matches neither. One executable split
 * decides both, and the lemmas below show it agrees with each of them.
 */
module LocaleNames {
  import opened Outcomes
  import opened JavaStrings
  import opened ClassNames

  /** `[a-z]{2}(?:_[A-Z]{2})?`: a language code, optionally followed by `_` and a region code. */
  predicate IsLocaleCode(s: string) {
    || (|s| == 2 && IsAsciiLower(s[0]) && IsAsciiLower(s[1]))
    || (|s| == 5 && IsAsciiLower(s[0]) && IsAsciiLower(s[1]) && s[2] == '_'
        && IsAsciiUpper(s[3]) && IsAsciiUpper(s[4]))
  }

  /** A character `java.util.regex` treats as a line terminator, which `.` does not match. */
  predicate IsLineTerminator(c: char) {
    c == '\n' || c == '\r' || c == '\U{85}' || c == '\U{2028}' || c == '\U{2029}'
  }

  /** `.*` matches `s` in full. */
  predicate MatchesDotStar(s: string) {
    forall i :: 0 <= i < |s| ==> !IsLineTerminator(s[i])
  }

  /**
   * `name` is `baseName + "_" + locale + ".properties"` with a well-formed
   * locale and a base name that `.*` matches.
   */
  predicate IsLocaleSplit(name: string, baseName: string, locale: string) {
    IsLocaleCode(locale) && MatchesDotStar(baseName) && name == baseName + "_" + locale + PropertiesExtension
  }

  /** The name matches `(.*)_([a-z]{2}(?:_[A-Z]{2})?)\.properties` in full. */
  ghost predicate MatchesGroupPattern(name: string) {
    exists baseName, locale :: IsLocaleSplit(name, baseName, locale)
  }

  /** The name matches `.*_([a-z]{2}(?:_[A-Z]{2})?)\.properties` in full, with group 1 equal to `locale`. */
  ghost predicate MatchesLanguagePattern(name: string, locale: string) {
    exists prefix :: IsLocaleSplit(name, prefix, locale)
  }

  /** The base name and the locale of a locale file name, or None when the name does not match. */
  function SplitLocaleName(name: string): (r: Option<(string, string)>)
    ensures r.Some? ==> IsLocaleSplit(name, r.value.0, r.value.1)
  {
    if !EndsWith(name, PropertiesExtension) then None
    else
      var stem := name[..|name| - |PropertiesExtension|];
      assert name == stem + PropertiesExtension;
      if |stem| >= 6 && stem[|stem| - 6] == '_' && IsLocaleCode(stem[|stem| - 5..])
         && MatchesDotStar(stem[..|stem| - 6]) then
        assert stem == stem[..|stem| - 6] + "_" + stem[|stem| - 5..];
        Some((stem[..|stem| - 6], stem[|stem| - 5..]))
      else if |stem| >= 3 && stem[|stem| - 3] == '_' && IsLocaleCode(stem[|stem| - 2..])
         && MatchesDotStar(stem[..|stem| - 3]) then
        assert stem == stem[..|stem| - 3] + "_" + stem[|stem| - 2..];
        Some((stem[..|stem| - 3], stem[|stem| - 2..]))
      else None
  }

  /** A name splits in at most one way: a region code is upper case, so it never passes for a language code. */
  lemma SplitIsUnique(name: string, b1: string, l1: string, b2: string, l2: string)
    requires IsLocaleSplit(name, b1, l1) && IsLocaleSplit(name, b2, l2)
    ensures b1 == b2 && l1 == l2
  {
    var stem := name[..|name| - |PropertiesExtension|];
    assert stem == b1 + "_" + l1 && stem == b2 + "_" + l2;
    LocaleLengthFromLastChar(stem, b1, l1);
    LocaleLengthFromLastChar(stem, b2, l2);
    assert l1 == stem[|stem| - |l1|..] == l2;
    assert b1 == stem[..|stem| - |l1| - 1] == b2;
  }

  /** The last character tells the locale's length: a language code ends in lower case, a region code in upper case. */
  lemma LocaleLengthFromLastChar(stem: string, baseName: string, locale: string)
    requires IsLocaleCode(locale) && stem == baseName + "_" + locale
    ensures |locale| == 2 <==> IsAsciiLower(stem[|stem| - 1])
  {
    assert stem[|stem| - 1] == locale[|locale| - 1];
  }

  /** Every split of a name is the one `SplitLocaleName` finds. */
  lemma SplitLocaleNameComplete(name: string, baseName: string, locale: string)
    requires IsLocaleSplit(name, baseName, locale)
    ensures SplitLocaleName(name) == Some((baseName, locale))
  {
    var stem := name[..|name| - |PropertiesExtension|];
    assert name[|name| - |PropertiesExtension|..] == PropertiesExtension;
    assert stem == baseName + "_" + locale;
    if |locale| == 2 {
      assert stem[..|stem| - 3] == baseName && stem[|stem| - 2..] == locale;
      if |stem| >= 5 {
        assert stem[|stem| - 5..][3] == stem[|stem| - 2] == locale[0];
      }
    } else {
      assert stem[|stem| - 6..] == "_" + locale;
      assert stem[..|stem| - 6] == baseName && stem[|stem| - 5..] == locale;
    }
    var r := SplitLocaleName(name);
    assert r.Some?;
    SplitIsUnique(name, r.value.0, r.value.1, baseName, locale);
  }

  /**
   * The executable split accepts exactly the names the line-130 pattern
   * matches, and returns the pattern's group 1 and group 2.
   */
  lemma SplitMatchesGroupPattern(name: string)
    ensures SplitLocaleName(name).Some? <==> MatchesGroupPattern(name)
    ensures forall baseName, locale :: IsLocaleSplit(name, baseName, locale) <==> SplitLocaleName(name) == Some((baseName, locale))
  {
    forall baseName, locale | IsLocaleSplit(name, baseName, locale)
      ensures SplitLocaleName(name) == Some((baseName, locale))
    {
      SplitLocaleNameComplete(name, baseName, locale);
    }
  }

  /**
   * The line-163 pattern matches a name exactly when the line-130 pattern
   * does, and its group 1 is the locale of that split.
   */
  lemma LanguagePatternAgrees(name: string, locale: string)
    ensures MatchesLanguagePattern(name, locale) <==> SplitLocaleName(name).Some? && SplitLocaleName(name).value.1 == locale
  {
    if MatchesLanguagePattern(name, locale) {
      var prefix :| IsLocaleSplit(name, prefix, locale);
      SplitLocaleNameComplete(name, prefix, locale);
    }
  }

  /** A name rebuilt from its base name and locale is the name itself. */
  lemma SplitReconstructs(baseName: string, locale: string)
    requires IsLocaleCode(locale) && MatchesDotStar(baseName)
    ensures SplitLocaleName(baseName + "_" + locale + PropertiesExtension) == Some((baseName, locale))
  {
    SplitLocaleNameComplete(baseName + "_" + locale + PropertiesExtension, baseName, locale);
  }

  /** A region name such as `app_en_US.properties` keeps the region in the locale, not in the base name. */
  lemma RegionExample()
    ensures SplitLocaleName("app_en_US.properties") == Some(("app", "en_US"))
  {
    assert "app_en_US.properties" == "app" + "_" + "en_US" + PropertiesExtension;
    SplitLocaleNameComplete("app_en_US.properties", "app", "en_US");
  }

  /** The base name may be empty. */
  lemma EmptyBaseExample()
    ensures SplitLocaleName("_en.properties") == Some(("", "en"))
  {
    SplitReconstructs("", "en");
    assert "" + "_" + "en" + PropertiesExtension == "_en.properties";
  }

  /** An upper-case language code does not match. */
  lemma UpperCaseLanguageExample()
    ensures SplitLocaleName("app_EN.properties").None?
  {
    var stem := "app_EN";
    assert "app_EN.properties"[..|"app_EN.properties"| - |PropertiesExtension|] == stem;
    assert stem[0] != '_' && !IsAsciiLower(stem[|stem| - 2..][0]);
  }

  /** A line feed in the base name keeps the name out of every group. */
  lemma LineTerminatorExample()
    ensures SplitLocaleName("a\nb_en.properties").None?
  {
    var name := "a\nb_en.properties";
    var stem := name[..|name| - |PropertiesExtension|];
    assert EndsWith(name, PropertiesExtension) && stem == "a\nb_en";
    assert stem[0] != '_' && IsLineTerminator(stem[..3][1]);
  }
}
