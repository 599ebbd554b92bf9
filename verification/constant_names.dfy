/**
 * ConstantNameConverter.toConstantName: a property key becomes a Java
 * constant identifier over `[A-Z0-9_]`.
 */
module ConstantNames {
  import opened Outcomes
  import opened JavaStrings

  const NullOrEmptyKeyMessage := "Property key cannot be null or empty"

  function InvalidNameMessage(key: string): string {
    "Property key '" + key + "' results in an invalid or empty constant name after conversion."
  }

  /** The characters `[A-Z0-9_]` a constant name is made of. */
  predicate IsConstantChar(c: char) {
    IsAsciiUpper(c) || IsAsciiDigit(c) || c == '_'
  }

  predicate AllUnderscores(s: string) {
    forall i :: 0 <= i < |s| ==> s[i] == '_'
  }

  /** What `toConstantName` returns, and so what it accepts unchanged. */
  predicate IsConstantName(s: string) {
    && s != []
    && (forall i :: 0 <= i < |s| ==> IsConstantChar(s[i]))
    && !IsAsciiDigit(s[0])
    && !AllUnderscores(s)
  }

  /**
   * The key after the chain upper-case, `.` to `_`, `-` to `_`, space to `_`,
   * then drop everything outside `[A-Z0-9_]`.
   */
  function Normalized(key: string): (r: string)
    ensures |r| <= |key|
    ensures forall i :: 0 <= i < |r| ==> IsConstantChar(r[i])
  {
    Keep(Replace(Replace(Replace(UpperCase(key), '.', '_'), '-', '_'), ' ', '_'), IsConstantChar)
  }

  /** The digit rule: a name that starts with a digit gets one `_` in front. */
  function DigitGuarded(name: string): (r: string)
    requires forall i :: 0 <= i < |name| ==> IsConstantChar(name[i])
    ensures forall i :: 0 <= i < |r| ==> IsConstantChar(r[i])
    ensures r != [] ==> !IsAsciiDigit(r[0])
    ensures AllUnderscores(r) <==> AllUnderscores(name)
    ensures r == name || r == "_" + name
    ensures r != name <==> name != [] && IsAsciiDigit(name[0])
  {
    if name != [] && IsAsciiDigit(name[0]) then
      assert ("_" + name)[1] == name[0];
      "_" + name
    else
      name
  }

  function ToConstantName(propertyKey: Option<string>): (r: Result<string>)
    ensures propertyKey.None? || IsBlank(propertyKey.value) ==> r == Err(NullOrEmptyKeyMessage)
    ensures r.Ok? <==>
      propertyKey.Some? && !IsBlank(propertyKey.value) && !AllUnderscores(Normalized(propertyKey.value))
    ensures propertyKey.Some? && !IsBlank(propertyKey.value) && r.Err? ==>
      r == Err(InvalidNameMessage(propertyKey.value))
    ensures r.Ok? ==> IsConstantName(r.value) && |r.value| <= |propertyKey.value| + 1
  {
    if propertyKey.None? then
      Err(NullOrEmptyKeyMessage)
    else
      var key := propertyKey.value;
      TrimEmptyIffBlank(key);
      if Trim(key) == [] then
        Err(NullOrEmptyKeyMessage)
      else
        var prefixed := DigitGuarded(Normalized(key));
        if prefixed == [] || AllUnderscores(prefixed) then
          Err(InvalidNameMessage(key))
        else
          Ok(prefixed)
  }

  /** What one key character contributes, read off the conversion rules directly. */
  function CharImage(c: char): (r: string)
    ensures |r| <= 1
  {
    if c == '.' || c == '-' || c == ' ' then "_"
    else if IsAsciiLower(c) then [UpperChar(c)]
    else if IsConstantChar(c) then [c]
    else []
  }

  /** The images of the key's characters, concatenated in order. */
  function PerCharImage(key: string): string
    decreases |key|
  {
    if key == [] then [] else CharImage(key[0]) + PerCharImage(key[1..])
  }

  lemma NormalizedAppend(a: string, b: string)
    ensures Normalized(a + b) == Normalized(a) + Normalized(b)
  {
    var up := UpperCase(a + b);
    assert up == UpperCase(a) + UpperCase(b);
    var r1 := Replace(up, '.', '_');
    assert r1 == Replace(UpperCase(a), '.', '_') + Replace(UpperCase(b), '.', '_');
    var r2 := Replace(r1, '-', '_');
    assert r2 == Replace(Replace(UpperCase(a), '.', '_'), '-', '_')
               + Replace(Replace(UpperCase(b), '.', '_'), '-', '_');
    var r3 := Replace(r2, ' ', '_');
    assert r3 == Replace(Replace(Replace(UpperCase(a), '.', '_'), '-', '_'), ' ', '_')
               + Replace(Replace(Replace(UpperCase(b), '.', '_'), '-', '_'), ' ', '_');
    KeepAppend(Replace(Replace(Replace(UpperCase(a), '.', '_'), '-', '_'), ' ', '_'),
               Replace(Replace(Replace(UpperCase(b), '.', '_'), '-', '_'), ' ', '_'), IsConstantChar);
  }

  lemma NormalizedChar(c: char)
    ensures Normalized([c]) == CharImage(c)
  {
    var r := Replace(Replace(Replace(UpperCase([c]), '.', '_'), '-', '_'), ' ', '_');
    assert |r| == 1;
    assert Keep(r, IsConstantChar) == (if IsConstantChar(r[0]) then [r[0]] else []) + Keep(r[1..], IsConstantChar);
  }

  /**
   * The conversion chain works character by character: lower-case letters are
   * upper-cased, each `.`, `-` and space becomes one `_`, `[A-Z0-9_]` is kept,
   * everything else is dropped, and the order is preserved.
   */
  lemma {:induction false} NormalizedIsPerChar(key: string)
    ensures Normalized(key) == PerCharImage(key)
    decreases |key|
  {
    if key == [] {
      assert Normalized(key) == [];
    } else {
      assert key == [key[0]] + key[1..];
      NormalizedAppend([key[0]], key[1..]);
      NormalizedChar(key[0]);
      NormalizedIsPerChar(key[1..]);
    }
  }

  /**
   * For a non-blank key the conversion is decided by the per-character image:
   * an image of underscores only (or none at all) is rejected with the message
   * naming the key, and any other image is the result, with exactly one `_` in
   * front when it starts with a digit.
   */
  lemma ConversionIsPerCharacter(key: string)
    requires !IsBlank(key)
    ensures var image := PerCharImage(key);
      ToConstantName(Some(key))
        == if AllUnderscores(image) then Err(InvalidNameMessage(key))
           else Ok(if IsAsciiDigit(image[0]) then "_" + image else image)
  {
    var image := Normalized(key);
    assert image == PerCharImage(key) by {
      NormalizedIsPerChar(key);
    }
    NonBlankConversion(key);
    if !AllUnderscores(image) {
      assert image != [];
    }
  }

  /** Past the blank check, the result is the digit-guarded conversion chain, or the invalid-name failure. */
  lemma NonBlankConversion(key: string)
    requires !IsBlank(key)
    ensures var prefixed := DigitGuarded(Normalized(key));
      ToConstantName(Some(key))
        == if prefixed == [] || AllUnderscores(prefixed) then Err(InvalidNameMessage(key)) else Ok(prefixed)
  {
    TrimEmptyIffBlank(key);
  }

  lemma {:induction false} PerCharImageOfName(s: string)
    requires forall i :: 0 <= i < |s| ==> IsConstantChar(s[i])
    ensures PerCharImage(s) == s
    decreases |s|
  {
    if s != [] {
      PerCharImageOfName(s[1..]);
    }
  }

  /** The conversion chain leaves a string of `[A-Z0-9_]` as it is. */
  lemma NormalizedName(s: string)
    requires forall i :: 0 <= i < |s| ==> IsConstantChar(s[i])
    ensures Normalized(s) == s
  {
    NormalizedIsPerChar(s);
    PerCharImageOfName(s);
  }

  /** A constant name is converted to itself. */
  lemma ConstantNameIsFixedPoint(s: string)
    requires IsConstantName(s)
    ensures ToConstantName(Some(s)) == Ok(s)
  {
    NormalizedName(s);
    TrimEmptyIffBlank(s);
    assert !IsTrimmable(s[0]);
  }

  /** Converting an already converted key changes nothing. */
  lemma ConversionIsIdempotent(key: Option<string>)
    requires ToConstantName(key).Ok?
    ensures ToConstantName(Some(ToConstantName(key).value)) == ToConstantName(key)
  {
    ConstantNameIsFixedPoint(ToConstantName(key).value);
  }

  lemma DroppedCharacterImage()
    ensures PerCharImage("a!b 1") == "AB_1"
  {
    assert "a!b 1"[1..] == "!b 1" && "!b 1"[1..] == "b 1" && "b 1"[1..] == " 1" && " 1"[1..] == "1";
  }

  /** Unwanted characters are dropped and a space becomes `_`. */
  lemma DroppedCharacterExample()
    ensures ToConstantName(Some("a!b 1")) == Ok("AB_1")
  {
    assert !IsTrimmable("a!b 1"[0]);
    DroppedCharacterImage();
    ConversionIsPerCharacter("a!b 1");
    assert "AB_1"[0] == 'A';
  }

  /** A leading digit gets a `_` in front (the code's answer; the test expects none). */
  lemma LeadingDigitExample()
    ensures ToConstantName(Some("1a")) == Ok("_1A")
  {
    assert !IsTrimmable("1a"[0]);
    assert "1a"[1..] == "a" && PerCharImage("1a") == "1A";
    ConversionIsPerCharacter("1a");
    assert "1A"[0] == '1';
    assert "_" + "1A" == "_1A";
  }

  /** A key that reduces to underscores only is rejected (the code rejects `_`; the test expects `_`). */
  lemma UnderscoreOnlyExample()
    ensures ToConstantName(Some("_")) == Err(InvalidNameMessage("_"))
  {
    assert !IsTrimmable("_"[0]);
    assert PerCharImage("_") == "_";
    ConversionIsPerCharacter("_");
  }

  predicate IsSeparator(c: char) { c == '.' || c == '-' || c == ' ' }

  lemma {:induction false} SeparatorsImage(key: string)
    requires forall i :: 0 <= i < |key| ==> IsSeparator(key[i])
    ensures AllUnderscores(PerCharImage(key))
    decreases |key|
  {
    if key != [] {
      SeparatorsImage(key[1..]);
      assert CharImage(key[0]) == "_";
    }
  }

  /**
   * Separators become underscores, so a key made of `.`, `-` and spaces only
   * (and not of spaces only, which is blank) is rejected with a message naming it.
   */
  lemma SeparatorsOnlyAreRejected(key: string)
    requires forall i :: 0 <= i < |key| ==> IsSeparator(key[i])
    requires exists i :: 0 <= i < |key| && key[i] != ' '
    ensures ToConstantName(Some(key)) == Err(InvalidNameMessage(key))
  {
    var i :| 0 <= i < |key| && key[i] != ' ';
    assert !IsTrimmable(key[i]);
    NormalizedIsPerChar(key);
    SeparatorsImage(key);
  }
}
