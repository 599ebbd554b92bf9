/**
 * ClassNameStrategyFactory: picks the class-name strategy named in the plugin
 * configuration. Reflection is replaced by a table of the classes visible to
 * the context class loader.
 */
module StrategyFactory {
  import opened Outcomes
  import opened JavaStrings
  import opened ClassNames

  /** What reflection finds out about a loaded class. */
  datatype ClassInfo = ClassInfo(
    /** `ClassNameStrategy.class.isAssignableFrom(clazz)` */
    implementsStrategy: bool,
    /** the class has a public no-argument constructor that returns normally */
    instantiable: bool,
    /** the object that constructor creates */
    instance: Strategy)

  /** The classes the context class loader can load, by binary name. */
  type ClassTable = map<string, ClassInfo>

  function DoesNotImplementMessage(name: string): string {
    "Class " + name + " does not implement ClassNameStrategy"
  }

  function CouldNotInstantiateMessage(name: string): string {
    "Could not instantiate strategy class: " + name
  }

  /** `createStrategy(strategyClass)`; an `Err` is the IllegalArgumentException thrown. */
  function CreateStrategy(strategyClass: Option<string>, classes: ClassTable): (r: Result<Strategy>)
    // no configured name, or a blank one, selects the default strategy
    ensures strategyClass.None? || IsBlank(strategyClass.value) ==> r == Ok(DefaultStrategy)
    // otherwise the name is looked up exactly as written, without trimming
    ensures strategyClass.Some? && !IsBlank(strategyClass.value) ==>
      var name := strategyClass.value;
      && (r.Ok? <==> name in classes && classes[name].implementsStrategy && classes[name].instantiable)
      && (r.Ok? ==> r.value == classes[name].instance)
      && (name !in classes ==> r == Err(CouldNotInstantiateMessage(name)))
      && (name in classes && !classes[name].implementsStrategy ==> r == Err(DoesNotImplementMessage(name)))
      && (name in classes && classes[name].implementsStrategy && !classes[name].instantiable ==>
            r == Err(CouldNotInstantiateMessage(name)))
  {
    if strategyClass.None? then Ok(DefaultStrategy)
    else
      var name := strategyClass.value;
      TrimEmptyIffBlank(name);
      if Trim(name) == [] then Ok(DefaultStrategy)
      else if name !in classes then Err(CouldNotInstantiateMessage(name))
      else if !classes[name].implementsStrategy then Err(DoesNotImplementMessage(name))
      else if !classes[name].instantiable then Err(CouldNotInstantiateMessage(name))
      else Ok(classes[name].instance)
  }

  /**
   * Every error names the configured class, and an error happens only when a
   * name was configured.
   */
  lemma ErrorNamesTheClass(strategyClass: Option<string>, classes: ClassTable)
    requires CreateStrategy(strategyClass, classes).Err?
    ensures strategyClass.Some? && !IsBlank(strategyClass.value)
    ensures CreateStrategy(strategyClass, classes).message
         in {DoesNotImplementMessage(strategyClass.value), CouldNotInstantiateMessage(strategyClass.value)}
  {
  }

  /** A name padded with blanks is not trimmed before loading, so it is not found. */
  lemma PaddedNameIsNotTrimmed(name: string, classes: ClassTable)
    requires !IsBlank(name) && name in classes && " " + name !in classes
    ensures CreateStrategy(Some(" " + name), classes) == Err(CouldNotInstantiateMessage(" " + name))
  {
    var i :| 0 <= i < |name| && !IsTrimmable(name[i]);
    assert (" " + name)[i + 1] == name[i];
  }

  /** The blank cases of ClassNameStrategyFactoryTest. */
  lemma BlankNameExamples(classes: ClassTable)
    ensures CreateStrategy(None, classes) == Ok(DefaultStrategy)
    ensures CreateStrategy(Some(""), classes) == Ok(DefaultStrategy)
    ensures CreateStrategy(Some("   "), classes) == Ok(DefaultStrategy)
  {
    assert IsBlank("   ");
  }

  /** The failing lookups of ClassNameStrategyFactoryTest. */
  lemma MissingClassExample(classes: ClassTable)
    requires "com.example.NonExistentStrategy" !in classes
    ensures CreateStrategy(Some("com.example.NonExistentStrategy"), classes)
         == Err(CouldNotInstantiateMessage("com.example.NonExistentStrategy"))
  {
    assert !IsTrimmable("com.example.NonExistentStrategy"[0]);
  }

  lemma NonStrategyClassExample(classes: ClassTable)
    requires "java.lang.String" in classes && !classes["java.lang.String"].implementsStrategy
    ensures CreateStrategy(Some("java.lang.String"), classes)
         == Err(DoesNotImplementMessage("java.lang.String"))
  {
    assert !IsTrimmable("java.lang.String"[0]);
  }
}
