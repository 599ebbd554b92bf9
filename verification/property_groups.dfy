/**
 * PropertiesGeneratorMojo.processSource / processPropertyGroup: the files of a
 * source directory are grouped by base name, the locale files of each group
 * are loaded and merged into one key → locale → value table, and a group with
 * at least one key is handed to a PropertiesClassGenerator.
 *
 * The file system is a value: a listing of entries, and a loader that yields
 * the properties of a file read with a given charset, or says that the file
 * cannot be opened or read, or that its text is malformed. `HashMap`
 * iteration order is a parameter.
 */
module PropertyGroups {
  import opened Outcomes
  import opened HashOrder
  import opened ClassNames
  import opened Builder
  import opened Generator
  import opened LocaleNames

  // ----- Grouping the directory listing -----

  /** An entry of the source directory; `isFile` is `File.isFile()`. */
  datatype DirEntry = DirEntry(name: string, isFile: bool)

  /** `filesByBaseName`: base name → the group's files, in listing order. */
  type Groups = map<string, seq<DirEntry>>

  /** The entry is a regular file whose name is a locale file name with this base name. */
  predicate InGroup(f: DirEntry, baseName: string) {
    f.isFile && SplitLocaleName(f.name).Some? && SplitLocaleName(f.name).value.0 == baseName
  }

  /** The entries of a group, in listing order: the reference the grouping loop is compared with. */
  function Members(files: seq<DirEntry>, baseName: string): (r: seq<DirEntry>)
    ensures forall f :: f in r <==> f in files && InGroup(f, baseName)
    ensures |r| <= |files|
    decreases |files|
  {
    if files == [] then []
    else
      var init := files[..|files| - 1];
      var f := files[|files| - 1];
      assert files == init + [f];
      if InGroup(f, baseName) then Members(init, baseName) + [f] else Members(init, baseName)
  }

  /** `filesByBaseName` after the loop has visited `files`. */
  function Grouped(files: seq<DirEntry>): Groups
    decreases |files|
  {
    if files == [] then map[]
    else
      var groups := Grouped(files[..|files| - 1]);
      var f := files[|files| - 1];
      var split := SplitLocaleName(f.name);
      if f.isFile && split.Some? then
        var baseName := split.value.0;
        groups[baseName := (if baseName in groups then groups[baseName] else []) + [f]]
      else groups
  }

  /**
   * A base name has a group exactly when some entry belongs to it, and the
   * group holds exactly the entries that belong to it, in listing order.
   */
  lemma {:induction false} GroupedIsFilter(files: seq<DirEntry>)
    ensures forall b :: b in Grouped(files) <==> Members(files, b) != []
    ensures forall b :: b in Grouped(files) ==> Grouped(files)[b] == Members(files, b)
    decreases |files|
  {
    if files != [] {
      var init := files[..|files| - 1];
      GroupedIsFilter(init);
    }
  }

  /**
   * Each regular file with a locale file name is in the group of its base name
   * and in no other group; other entries (directories, other names) are in none.
   */
  lemma EntryIsInItsGroupOnly(files: seq<DirEntry>, f: DirEntry, baseName: string)
    ensures baseName in Grouped(files) && f in Grouped(files)[baseName] <==> f in files && InGroup(f, baseName)
  {
    GroupedIsFilter(files);
  }

  /** A directory listing names each entry once. */
  predicate DistinctNames(files: seq<DirEntry>) {
    forall i, j :: 0 <= i < j < |files| ==> files[i].name != files[j].name
  }

  lemma {:induction false} MembersHaveDistinctNames(files: seq<DirEntry>, baseName: string)
    requires DistinctNames(files)
    ensures DistinctNames(Members(files, baseName))
    decreases |files|
  {
    if files != [] {
      var init := files[..|files| - 1];
      var f := files[|files| - 1];
      assert DistinctNames(init) by {
        forall i, j | 0 <= i < j < |init| ensures init[i] == files[i] && init[j] == files[j] { }
      }
      MembersHaveDistinctNames(init, baseName);
      var m := Members(init, baseName);
      forall x | x in m ensures x.name != f.name {
        var k :| 0 <= k < |init| && init[k] == x;
        assert files[k] == x;
      }
    }
  }

  /**
   * In a directory no two files of a group share a locale: the base name and
   * the locale together spell the whole file name.
   */
  lemma GroupLocalesAreDistinct(files: seq<DirEntry>, baseName: string)
    requires DistinctNames(files) && baseName in Grouped(files)
    ensures DistinctLocales(Grouped(files)[baseName])
  {
    GroupedIsFilter(files);
    MembersHaveDistinctNames(files, baseName);
    var g := Grouped(files)[baseName];
    forall i, j | 0 <= i < j < |g|
      ensures SplitLocaleName(g[i].name).Some? && SplitLocaleName(g[j].name).Some? ==>
        SplitLocaleName(g[i].name).value.1 != SplitLocaleName(g[j].name).value.1
    {
      assert g[i] in g && g[j] in g;
      assert InGroup(g[i], baseName) && InGroup(g[j], baseName);
    }
  }

  /**
   * Every grouped file matches the second pattern too, so the branch that
   * skips a group file whose name does not match can never be taken.
   */
  lemma GroupedFilesMatchLanguagePattern(files: seq<DirEntry>, baseName: string, f: DirEntry)
    requires baseName in Grouped(files) && f in Grouped(files)[baseName]
    ensures exists locale :: MatchesLanguagePattern(f.name, locale)
  {
    EntryIsInItsGroupOnly(files, f, baseName);
    assert SplitLocaleName(f.name).Some?;
    LanguagePatternAgrees(f.name, SplitLocaleName(f.name).value.1);
  }

  /** The grouping loop of `processSource`; `listing` is what `listFiles()` returned. */
  method GroupDirectory(listing: seq<DirEntry>) returns (groups: Groups)
    ensures groups == Grouped(listing)
  {
    groups := map[];
    for i := 0 to |listing|
      invariant groups == Grouped(listing[..i])
    {
      assert listing[..i + 1][..i] == listing[..i];
      var file := listing[i];
      if file.isFile {
        var split := SplitLocaleName(file.name);
        if split.Some? {
          var baseName := split.value.0;
          var bucket := if baseName in groups then groups[baseName] else [];
          groups := groups[baseName := bucket + [file]];
        }
      }
    }
    assert listing[..|listing|] == listing;
  }

  // ----- Merging a group's files -----

  /** How `Properties.load` on a file ends. */
  datatype LoadOutcome =
    | Loaded(props: map<string, string>)
      /** An IOException (FileNotFoundException included): the file is skipped. */
    | Unreadable
      /** An IllegalArgumentException, such as a malformed `\uXXXX`: nothing catches it, so the run ends. */
    | Malformed(message: string)

  /** How loading a file with a charset ends. */
  type Loader = (string, string) -> LoadOutcome

  /** One loaded file's keys put into the table under `locale`. */
  function PutAll(t: Translations, locale: string, props: map<string, string>): Translations {
    map k | k in t.Keys + props.Keys ::
      if k in props then (if k in t then t[k] else map[])[locale := props[k]] else t[k]
  }

  /** What one file puts into the table: its locale and its properties, or nothing. */
  type Contribution = Option<(string, map<string, string>)>

  /** A file contributes when its name has a locale and it can be loaded. */
  function ContributionOf(load: Loader, charset: string): DirEntry -> Contribution {
    (f: DirEntry) =>
      var split := SplitLocaleName(f.name);
      var props := load(f.name, charset);
      if split.None? || !props.Loaded? then None else Some((split.value.1, props.props))
  }

  /** The table after the contributions of `files`, in order. */
  function MergeWith(files: seq<DirEntry>, contrib: DirEntry -> Contribution): Translations
    decreases |files|
  {
    if files == [] then map[]
    else
      var t := MergeWith(files[..|files| - 1], contrib);
      var c := contrib(files[|files| - 1]);
      if c.None? then t else PutAll(t, c.value.0, c.value.1)
  }

  /** `propertyTranslations` after the loop has visited `files`. */
  function Merged(files: seq<DirEntry>, load: Loader, charset: string): Translations {
    MergeWith(files, ContributionOf(load, charset))
  }

  /** The file has a locale, loads, and defines `key`. */
  predicate DefinesKey(f: DirEntry, load: Loader, charset: string, key: string) {
    && SplitLocaleName(f.name).Some?
    && load(f.name, charset).Loaded?
    && key in load(f.name, charset).props
  }

  /** The file has locale `locale`, loads, and defines `key`. */
  predicate Defines(f: DirEntry, load: Loader, charset: string, locale: string, key: string) {
    DefinesKey(f, load, charset, key) && SplitLocaleName(f.name).value.1 == locale
  }

  /** No two files of the sequence have the same locale. */
  predicate DistinctLocales(files: seq<DirEntry>) {
    forall i, j ::
      0 <= i < j < |files| && SplitLocaleName(files[i].name).Some? && SplitLocaleName(files[j].name).Some? ==>
        SplitLocaleName(files[i].name).value.1 != SplitLocaleName(files[j].name).value.1
  }

  predicate Contributes(c: Contribution, key: string) {
    c.Some? && key in c.value.1
  }

  predicate ContributesAt(c: Contribution, locale: string, key: string) {
    Contributes(c, key) && c.value.0 == locale
  }

  /** The contribution of a file, read off its name and its properties. */
  lemma ContributionOfFile(f: DirEntry, load: Loader, charset: string)
    ensures var c := ContributionOf(load, charset)(f);
      && (c.Some? <==> SplitLocaleName(f.name).Some? && load(f.name, charset).Loaded?)
      && (c.Some? ==> c.value == (SplitLocaleName(f.name).value.1, load(f.name, charset).props))
  {
  }

  /** The last contribution adds exactly its own keys. */
  lemma MergeWithKeysStep(files: seq<DirEntry>, contrib: DirEntry -> Contribution, key: string)
    requires files != []
    ensures key in MergeWith(files, contrib) <==>
      key in MergeWith(files[..|files| - 1], contrib) || Contributes(contrib(files[|files| - 1]), key)
  {
  }

  lemma {:induction false} MergeWithKeys(files: seq<DirEntry>, contrib: DirEntry -> Contribution, key: string)
    ensures key in MergeWith(files, contrib) <==> exists i :: 0 <= i < |files| && Contributes(contrib(files[i]), key)
    decreases |files|
  {
    if files != [] {
      var init := files[..|files| - 1];
      MergeWithKeys(init, contrib, key);
      MergeWithKeysStep(files, contrib, key);
      if key in MergeWith(init, contrib) {
        var i :| 0 <= i < |init| && Contributes(contrib(init[i]), key);
        assert files[i] == init[i];
      }
      if exists i :: 0 <= i < |files| && Contributes(contrib(files[i]), key) {
        var i :| 0 <= i < |files| && Contributes(contrib(files[i]), key);
        if i < |init| {
          assert init[i] == files[i];
        }
      }
    }
  }

  /** The merged table has a key exactly when some file of the group loads and defines it. */
  lemma MergedKeys(files: seq<DirEntry>, load: Loader, charset: string, key: string)
    ensures key in Merged(files, load, charset) <==> exists i :: 0 <= i < |files| && DefinesKey(files[i], load, charset, key)
  {
    var contrib := ContributionOf(load, charset);
    MergeWithKeys(files, contrib, key);
    forall i | 0 <= i < |files|
      ensures DefinesKey(files[i], load, charset, key) <==> Contributes(contrib(files[i]), key)
    {
      ContributionOfFile(files[i], load, charset);
    }
  }

  /** What the last contribution does to the entry of one key and one locale. */
  lemma MergeWithEntryStep(files: seq<DirEntry>, contrib: DirEntry -> Contribution, locale: string, key: string)
    requires files != []
    ensures var m, t, c := MergeWith(files, contrib), MergeWith(files[..|files| - 1], contrib), contrib(files[|files| - 1]);
      && ((key in m && locale in m[key]) <==> (key in t && locale in t[key]) || ContributesAt(c, locale, key))
      && (ContributesAt(c, locale, key) ==> key in m && locale in m[key] && m[key][locale] == c.value.1[key])
      && (!ContributesAt(c, locale, key) && key in t && locale in t[key] ==> m[key][locale] == t[key][locale])
  {
  }

  lemma {:induction false} MergeWithEntry(files: seq<DirEntry>, contrib: DirEntry -> Contribution, locale: string, key: string)
    ensures (key in MergeWith(files, contrib) && locale in MergeWith(files, contrib)[key])
        <==> exists i :: 0 <= i < |files| && ContributesAt(contrib(files[i]), locale, key)
    decreases |files|
  {
    if files != [] {
      var init := files[..|files| - 1];
      MergeWithEntry(init, contrib, locale, key);
      MergeWithEntryStep(files, contrib, locale, key);
      var t := MergeWith(init, contrib);
      if key in t && locale in t[key] {
        var i :| 0 <= i < |init| && ContributesAt(contrib(init[i]), locale, key);
        assert files[i] == init[i];
      }
      if exists i :: 0 <= i < |files| && ContributesAt(contrib(files[i]), locale, key) {
        var i :| 0 <= i < |files| && ContributesAt(contrib(files[i]), locale, key);
        if i < |init| {
          assert init[i] == files[i];
        }
      }
    }
  }

  /** No two contributions of the sequence have the same locale. */
  predicate DistinctContributions(files: seq<DirEntry>, contrib: DirEntry -> Contribution) {
    forall i, j ::
      0 <= i < j < |files| && contrib(files[i]).Some? && contrib(files[j]).Some? ==>
        contrib(files[i]).value.0 != contrib(files[j]).value.0
  }

  lemma {:induction false} MergeWithValue(files: seq<DirEntry>, contrib: DirEntry -> Contribution, locale: string, key: string, i: nat)
    requires DistinctContributions(files, contrib)
    requires i < |files| && ContributesAt(contrib(files[i]), locale, key)
    ensures key in MergeWith(files, contrib) && locale in MergeWith(files, contrib)[key]
    ensures MergeWith(files, contrib)[key][locale] == contrib(files[i]).value.1[key]
    decreases |files|
  {
    var init := files[..|files| - 1];
    MergeWithEntryStep(files, contrib, locale, key);
    if i < |init| {
      assert init[i] == files[i];
      assert DistinctContributions(init, contrib) by {
        forall j, k | 0 <= j < k < |init| ensures init[j] == files[j] && init[k] == files[k] { }
      }
      MergeWithValue(init, contrib, locale, key, i);
      assert !ContributesAt(contrib(files[|files| - 1]), locale, key);
    }
  }

  /**
   * With one file per locale, `translations[key][locale]` exists exactly when
   * the file of that locale loads and defines the key, and then it is that
   * file's value.
   */
  lemma MergedDefinesExactly(files: seq<DirEntry>, load: Loader, charset: string, locale: string, key: string)
    requires DistinctLocales(files)
    ensures (key in Merged(files, load, charset) && locale in Merged(files, load, charset)[key])
        <==> exists i :: 0 <= i < |files| && Defines(files[i], load, charset, locale, key)
    ensures forall i :: 0 <= i < |files| && Defines(files[i], load, charset, locale, key) ==>
      && key in Merged(files, load, charset)
      && locale in Merged(files, load, charset)[key]
      && Merged(files, load, charset)[key][locale] == load(files[i].name, charset).props[key]
  {
    var contrib := ContributionOf(load, charset);
    forall i | 0 <= i < |files|
      ensures contrib(files[i]).Some? ==> SplitLocaleName(files[i].name).Some?
      ensures contrib(files[i]).Some? ==> contrib(files[i]).value.0 == SplitLocaleName(files[i].name).value.1
      ensures Defines(files[i], load, charset, locale, key) <==> ContributesAt(contrib(files[i]), locale, key)
      ensures Defines(files[i], load, charset, locale, key) ==>
        contrib(files[i]).value.1[key] == load(files[i].name, charset).props[key]
    {
      ContributionOfFile(files[i], load, charset);
    }
    MergeWithEntry(files, contrib, locale, key);
    forall i | 0 <= i < |files| && Defines(files[i], load, charset, locale, key)
      ensures key in Merged(files, load, charset) && locale in Merged(files, load, charset)[key]
      ensures Merged(files, load, charset)[key][locale] == load(files[i].name, charset).props[key]
    {
      MergeWithValue(files, contrib, locale, key, i);
    }
  }

  lemma {:induction false} MergeWithSkips(
    a: seq<DirEntry>, f: DirEntry, b: seq<DirEntry>, contrib: DirEntry -> Contribution)
    requires contrib(f).None?
    ensures MergeWith(a + [f] + b, contrib) == MergeWith(a + b, contrib)
    decreases |b|
  {
    if b == [] {
      assert (a + [f] + b)[..|a| + 1 - 1] == a;
      assert a + b == a;
    } else {
      var init := b[..|b| - 1];
      MergeWithSkips(a, f, init, contrib);
      assert (a + [f] + b)[..|a + [f] + b| - 1] == a + [f] + init;
      assert (a + b)[..|a + b| - 1] == a + init;
    }
  }

  /** A file that cannot be read contributes nothing, wherever it stands in the group. */
  lemma UnreadableFileContributesNothing(a: seq<DirEntry>, f: DirEntry, b: seq<DirEntry>, load: Loader, charset: string)
    requires load(f.name, charset).Unreadable?
    ensures Merged(a + [f] + b, load, charset) == Merged(a + b, load, charset)
  {
    ContributionOfFile(f, load, charset);
    MergeWithSkips(a, f, b, ContributionOf(load, charset));
  }

  /** The file has a locale and its text is malformed: loading it throws. */
  predicate FailsToLoad(f: DirEntry, load: Loader, charset: string) {
    SplitLocaleName(f.name).Some? && load(f.name, charset).Malformed?
  }

  /** The message of the first file of `files` whose text is malformed, or None when there is none. */
  function LoadFailure(files: seq<DirEntry>, load: Loader, charset: string): Option<string>
    decreases |files|
  {
    if files == [] then None
    else
      var before := LoadFailure(files[..|files| - 1], load, charset);
      var last := files[|files| - 1];
      if before.Some? then before
      else if FailsToLoad(last, load, charset) then Some(load(last.name, charset).message)
      else None
  }

  /**
   * The failure is None exactly when no file is malformed; otherwise it is
   * the message of a malformed file with none before it.
   */
  lemma {:induction false} LoadFailureIsFirst(files: seq<DirEntry>, load: Loader, charset: string)
    ensures var r := LoadFailure(files, load, charset);
      && (r.None? <==> forall i :: 0 <= i < |files| ==> !FailsToLoad(files[i], load, charset))
      && (r.Some? ==> exists i ::
        && 0 <= i < |files|
        && FailsToLoad(files[i], load, charset)
        && load(files[i].name, charset).message == r.value
        && forall j :: 0 <= j < i ==> !FailsToLoad(files[j], load, charset))
    decreases |files|
  {
    if files != [] {
      var init := files[..|files| - 1];
      LoadFailureIsFirst(init, load, charset);
      assert forall i :: 0 <= i < |init| ==> init[i] == files[i];
    }
  }

  /** One more file of the merge loop: its failure, if it is the first, and its contribution. */
  lemma MergeLoopStep(files: seq<DirEntry>, load: Loader, charset: string, i: nat)
    requires i < |files|
    ensures var before, f := LoadFailure(files[..i], load, charset), files[i];
      LoadFailure(files[..i + 1], load, charset)
        == if before.Some? then before
           else if FailsToLoad(f, load, charset) then Some(load(f.name, charset).message)
           else None
    ensures var c := ContributionOf(load, charset)(files[i]);
      Merged(files[..i + 1], load, charset)
        == if c.None? then Merged(files[..i], load, charset)
           else PutAll(Merged(files[..i], load, charset), c.value.0, c.value.1)
  {
    assert files[..i + 1][..i] == files[..i];
  }

  lemma {:induction false} LoadFailureStopsAt(files: seq<DirEntry>, load: Loader, charset: string, n: nat)
    requires n <= |files| && LoadFailure(files[..n], load, charset).Some?
    ensures LoadFailure(files, load, charset) == LoadFailure(files[..n], load, charset)
    decreases |files| - n
  {
    if n < |files| {
      assert files[..n + 1][..n] == files[..n];
      LoadFailureStopsAt(files, load, charset, n + 1);
    } else {
      assert files[..n] == files;
    }
  }

  /** The first malformed file decides the failure, whatever follows it. */
  lemma FirstMalformedFileDecides(a: seq<DirEntry>, f: DirEntry, b: seq<DirEntry>, load: Loader, charset: string)
    requires forall i :: 0 <= i < |a| ==> !FailsToLoad(a[i], load, charset)
    requires FailsToLoad(f, load, charset)
    ensures LoadFailure(a + [f] + b, load, charset) == Some(load(f.name, charset).message)
  {
    var files := a + [f] + b;
    LoadFailureIsFirst(files, load, charset);
    assert files[|a|] == f;
    assert forall j :: 0 <= j < |a| ==> files[j] == a[j];
  }

  /**
   * The merge loop of `processPropertyGroup`: the table, or the message of
   * the first malformed file, whose exception leaves the loop.
   */
  method MergeTranslations(files: seq<DirEntry>, load: Loader, charset: string) returns (r: Result<Translations>)
    ensures LoadFailure(files, load, charset).Some? ==> r == Err(LoadFailure(files, load, charset).value)
    ensures LoadFailure(files, load, charset).None? ==> r == Ok(Merged(files, load, charset))
  {
    var t := map[];
    for i := 0 to |files|
      invariant LoadFailure(files[..i], load, charset).None?
      invariant t == Merged(files[..i], load, charset)
    {
      MergeLoopStep(files, load, charset, i);
      var file := files[i];
      ContributionOfFile(file, load, charset);
      var split := SplitLocaleName(file.name);
      if split.Some? {
        match load(file.name, charset) {
          case Malformed(message) =>
            LoadFailureStopsAt(files, load, charset, i + 1);
            return Err(message);
          case Unreadable =>
          case Loaded(props) =>
            t := PutProperties(t, split.value.1, props);
        }
      }
    }
    assert files[..|files|] == files;
    return Ok(t);
  }

  /** The part of `props` whose keys are in `keys`. */
  function Restrict(props: map<string, string>, keys: set<string>): map<string, string> {
    map k | k in keys && k in props :: props[k]
  }

  /** Putting one more key of a file into the table. */
  lemma PutAllStep(t0: Translations, locale: string, props: map<string, string>, done: set<string>, key: string)
    requires key in props && key !in done
    ensures var t := PutAll(t0, locale, Restrict(props, done));
      t[key := (if key in t then t[key] else map[])[locale := props[key]]]
        == PutAll(t0, locale, Restrict(props, done + {key}))
  {
    var t := PutAll(t0, locale, Restrict(props, done));
    var lhs := t[key := (if key in t then t[key] else map[])[locale := props[key]]];
    var rhs := PutAll(t0, locale, Restrict(props, done + {key}));
    assert lhs.Keys == rhs.Keys;
    forall k | k in lhs ensures lhs[k] == rhs[k] {
      if k != key {
        assert k in Restrict(props, done) <==> k in Restrict(props, done + {key});
      }
    }
  }

  lemma PutAllNothing(t0: Translations, locale: string, props: map<string, string>)
    ensures PutAll(t0, locale, Restrict(props, {})) == t0
  {
    assert Restrict(props, {}) == map[];
  }

  lemma RestrictAll(props: map<string, string>)
    ensures Restrict(props, props.Keys) == props
  {
  }

  /** The inner loop: each key of a loaded file goes into its key's map under the file's locale. */
  method PutProperties(t0: Translations, locale: string, props: map<string, string>) returns (t: Translations)
    ensures t == PutAll(t0, locale, props)
  {
    t := t0;
    PutAllNothing(t0, locale, props);
    var pending := props.Keys;
    ghost var done: set<string> := {};
    while pending != {}
      invariant pending == props.Keys - done && done <= props.Keys
      invariant t == PutAll(t0, locale, Restrict(props, done))
      decreases |pending|
    {
      var key :| key in pending;
      assert key in props && key !in done;
      PutAllStep(t0, locale, props, done, key);
      var translations := if key in t then t[key] else map[];
      t := t[key := translations[locale := props[key]]];
      pending := pending - {key};
      done := done + {key};
    }
    assert done == props.Keys;
    RestrictAll(props);
  }

  // ----- One group -----

  const DefaultCharset := "UTF-8"

  /** `Charset.forName` with the fallback of `processPropertyGroup`: an unknown or illegal name reads as UTF-8. */
  function ResolveCharset(encoding: string, charsetFor: string -> Option<string>): (charset: string)
    ensures charsetFor(encoding).Some? ==> charset == charsetFor(encoding).value
    ensures charsetFor(encoding).None? ==> charset == DefaultCharset
  {
    if charsetFor(encoding).Some? then charsetFor(encoding).value else DefaultCharset
  }

  /** The plugin's descriptor; only its version is read. */
  datatype PluginDescriptor = PluginDescriptor(version: Option<string>)

  /** The version handed to the generator: "unknown" when there is no descriptor. */
  function PluginVersion(descriptor: Option<PluginDescriptor>): (v: Option<string>)
    ensures descriptor.None? ==> v == Some(UnknownVersion)
    ensures descriptor.Some? ==> v == descriptor.value.version
  {
    if descriptor.None? then Some(UnknownVersion) else descriptor.value.version
  }

  /** What the plugin reads from outside: charsets, file contents, hash order, its descriptor, the clock and JVM. */
  datatype Environment = Environment(
    /** `Charset.forName`: the charset a name denotes, or None when it is unsupported or illegal. */
    charsetFor: string -> Option<string>,
    load: Loader,
    /** The iteration order of a `HashMap` with these keys. */
    hashOrder: set<string> -> seq<string>,
    pluginDescriptor: Option<PluginDescriptor>,
    host: Host)

  /** The hash order lists every key set in some order, each key once. */
  ghost predicate IsHashOrder(hashOrder: set<string> -> seq<string>) {
    forall keys :: IsEnumeration(hashOrder(keys), keys)
  }

  /** The plugin's configuration: `outputDirectory`, the resolved strategy and `propertiesEncoding`. */
  datatype Settings = Settings(outputDirectory: string, strategy: Strategy, propertiesEncoding: string)

  /** How processing one group ends. */
  datatype GroupOutcome =
    | NoProperties
    | Written(file: GeneratedFile)
    | Failed(message: string)

  /** The message of the group's first malformed file, or None. */
  function GroupLoadFailure(settings: Settings, env: Environment, languageFiles: seq<DirEntry>): Option<string> {
    LoadFailure(languageFiles, env.load, ResolveCharset(settings.propertiesEncoding, env.charsetFor))
  }

  /** The translations table of a group. */
  function GroupTranslations(settings: Settings, env: Environment, languageFiles: seq<DirEntry>): Translations {
    Merged(languageFiles, env.load, ResolveCharset(settings.propertiesEncoding, env.charsetFor))
  }

  /** The class a group with a non-empty table gets, or the failure of its generator. */
  function GeneratedGroup(settings: Settings, env: Environment, targetPackage: string,
                          baseName: string, translations: Translations): GroupOutcome
    requires IsHashOrder(env.hashOrder)
  {
    var generated := GeneratedClass(
      targetPackage, settings.outputDirectory, settings.strategy, PluginVersion(env.pluginDescriptor),
      ConstantNameOf, baseName, translations, env.hashOrder(translations.Keys), env.host);
    if generated.Ok? then Written(generated.value) else Failed(generated.message)
  }

  /** `processPropertyGroup` as a value. */
  function GroupResult(settings: Settings, env: Environment, targetPackage: string,
                       baseName: string, languageFiles: seq<DirEntry>): (r: GroupOutcome)
    requires IsHashOrder(env.hashOrder)
    // a malformed file fails the group with its message
    ensures GroupLoadFailure(settings, env, languageFiles).Some? ==>
      r == Failed(GroupLoadFailure(settings, env, languageFiles).value)
    // no key in any file: no class
    ensures r.NoProperties? <==>
      GroupLoadFailure(settings, env, languageFiles).None? && GroupTranslations(settings, env, languageFiles) == map[]
    // a class exactly when every file loads or is skipped, there is a key, the strategy names the class and every key is accepted
    ensures r.Written? <==> (
      && GroupLoadFailure(settings, env, languageFiles).None?
      && GroupTranslations(settings, env, languageFiles) != map[]
      && ClassNameFor(settings.strategy, Some(baseName)).Ok?
      && forall k :: k in GroupTranslations(settings, env, languageFiles) ==> ConstantNameOf(k).Ok?)
    ensures r.Written? ==> r.file.path.fileName == ClassNameFor(settings.strategy, Some(baseName)).value + ".java"
    // the file written is the generator's output for the merged table
    ensures r.Written? ==>
      var translations := GroupTranslations(settings, env, languageFiles);
      GeneratedClass(
        targetPackage, settings.outputDirectory, settings.strategy, PluginVersion(env.pluginDescriptor),
        ConstantNameOf, baseName, translations, env.hashOrder(translations.Keys), env.host) == Ok(r.file)
  {
    var failure := GroupLoadFailure(settings, env, languageFiles);
    var translations := GroupTranslations(settings, env, languageFiles);
    if failure.Some? then Failed(failure.value)
    else if translations == map[] then NoProperties
    else GeneratedGroup(settings, env, targetPackage, baseName, translations)
  }

  /** A group none of whose files can be read generates no class. */
  lemma UnreadableGroupWritesNothing(settings: Settings, env: Environment, targetPackage: string,
                                     baseName: string, languageFiles: seq<DirEntry>)
    requires IsHashOrder(env.hashOrder)
    requires forall i :: 0 <= i < |languageFiles| ==>
      env.load(languageFiles[i].name, ResolveCharset(settings.propertiesEncoding, env.charsetFor)).Unreadable?
    ensures GroupResult(settings, env, targetPackage, baseName, languageFiles) == NoProperties
  {
    var charset := ResolveCharset(settings.propertiesEncoding, env.charsetFor);
    LoadFailureIsFirst(languageFiles, env.load, charset);
    forall key | true ensures key !in Merged(languageFiles, env.load, charset) {
      MergedKeys(languageFiles, env.load, charset, key);
    }
  }

  /**
   * A file with malformed text fails its group with its own message, after
   * any number of files that load or are skipped and before anything else.
   */
  lemma MalformedFileFailsGroup(settings: Settings, env: Environment, targetPackage: string, baseName: string,
                                a: seq<DirEntry>, f: DirEntry, b: seq<DirEntry>)
    requires IsHashOrder(env.hashOrder)
    requires var charset := ResolveCharset(settings.propertiesEncoding, env.charsetFor);
      && (forall i :: 0 <= i < |a| ==> !FailsToLoad(a[i], env.load, charset))
      && FailsToLoad(f, env.load, charset)
    ensures GroupResult(settings, env, targetPackage, baseName, a + [f] + b)
         == Failed(env.load(f.name, ResolveCharset(settings.propertiesEncoding, env.charsetFor)).message)
  {
    FirstMalformedFileDecides(a, f, b, env.load, ResolveCharset(settings.propertiesEncoding, env.charsetFor));
  }

  /** An unsupported encoding name gives the same outcome as "UTF-8". */
  lemma UnsupportedEncodingReadsAsUtf8(settings: Settings, env: Environment, targetPackage: string,
                                       baseName: string, languageFiles: seq<DirEntry>)
    requires IsHashOrder(env.hashOrder)
    requires env.charsetFor(settings.propertiesEncoding).None?
    requires env.charsetFor(DefaultCharset) == Some(DefaultCharset)
    ensures GroupResult(settings, env, targetPackage, baseName, languageFiles)
         == GroupResult(settings.(propertiesEncoding := DefaultCharset), env, targetPackage, baseName, languageFiles)
  {
  }

  /**
   * The files `_en.properties`, `_de.properties`, … form a group with the
   * empty base name, which the default strategy refuses to name: the group
   * fails as soon as it has a key.
   */
  lemma EmptyBaseNameFails(settings: Settings, env: Environment, targetPackage: string, languageFiles: seq<DirEntry>)
    requires IsHashOrder(env.hashOrder)
    requires settings.strategy == DefaultStrategy
    requires GroupLoadFailure(settings, env, languageFiles).None?
    requires GroupTranslations(settings, env, languageFiles) != map[]
    ensures GroupResult(settings, env, targetPackage, "", languageFiles) == Failed(EmptyFilenameMessage)
  {
  }

  /** `processPropertyGroup` for a group the generator's strategy names. */
  method ProcessPropertyGroup(settings: Settings, env: Environment, targetPackage: string,
                              baseName: string, languageFiles: seq<DirEntry>)
    returns (outcome: GroupOutcome)
    requires IsHashOrder(env.hashOrder)
    ensures outcome == GroupResult(settings, env, targetPackage, baseName, languageFiles)
  {
    var charset := ResolveCharset(settings.propertiesEncoding, env.charsetFor);
    var merged := MergeTranslations(languageFiles, env.load, charset);
    if merged.Err? {
      return Failed(merged.message);
    }
    var translations := merged.value;
    if translations == map[] {
      return NoProperties;
    }
    var pluginVersion := PluginVersion(env.pluginDescriptor);
    var generator := new PropertiesClassGenerator(targetPackage, settings.outputDirectory, Some(settings.strategy), pluginVersion);
    var generated := generator.GenerateClass(baseName, translations, env.hashOrder(translations.Keys), env.host);
    outcome := if generated.Ok? then Written(generated.value) else Failed(generated.message);
  }

  // ----- One source -----

  /** What `new File(source.getPath())` denotes. */
  datatype SourcePath =
    | NotFound
      /** It exists but is no directory: a regular file is warned about, anything else ignored. */
    | NotADirectory
      /** `listing` is None when `listFiles()` returns null. */
    | Directory(listing: Option<seq<DirEntry>>)

  /** The files written for a source, and the message of the failure that ended it, if any. */
  datatype SourceOutcome = SourceOutcome(written: seq<GeneratedFile>, failure: Option<string>)

  /** Groups processed in order: files are collected until the first failure, which ends the run. */
  function Collected(outcomes: seq<GroupOutcome>): (r: SourceOutcome)
    ensures r.failure.None? <==> forall i :: 0 <= i < |outcomes| ==> !outcomes[i].Failed?
    ensures r.failure.Some? ==> exists i ::
      && 0 <= i < |outcomes|
      && outcomes[i] == Failed(r.failure.value)
      && forall j :: 0 <= j < i ==> !outcomes[j].Failed?
    ensures r.failure.None? ==> forall i :: 0 <= i < |outcomes| && outcomes[i].Written? ==> outcomes[i].file in r.written
    ensures forall f :: f in r.written ==> exists i :: 0 <= i < |outcomes| && outcomes[i] == Written(f)
    decreases |outcomes|
  {
    if outcomes == [] then SourceOutcome([], None)
    else
      var init := outcomes[..|outcomes| - 1];
      var last := outcomes[|outcomes| - 1];
      var before := Collected(init);
      assert forall i :: 0 <= i < |init| ==> init[i] == outcomes[i];
      if before.failure.Some? then before
      else match last
        case NoProperties => before
        case Written(file) => SourceOutcome(before.written + [file], None)
        case Failed(message) => SourceOutcome(before.written, Some(message))
  }

  lemma {:induction false} CollectedStopsAtFailure(outcomes: seq<GroupOutcome>, n: nat)
    requires n <= |outcomes| && Collected(outcomes[..n]).failure.Some?
    ensures Collected(outcomes) == Collected(outcomes[..n])
    decreases |outcomes| - n
  {
    if n < |outcomes| {
      assert outcomes[..n + 1][..n] == outcomes[..n];
      CollectedStopsAtFailure(outcomes, n + 1);
    } else {
      assert outcomes[..n] == outcomes;
    }
  }

  /** One more group after a run without failure. */
  lemma CollectedStep(outcomes: seq<GroupOutcome>, i: nat)
    requires i < |outcomes| && Collected(outcomes[..i]).failure.None?
    ensures var before := Collected(outcomes[..i]);
      Collected(outcomes[..i + 1]) == match outcomes[i]
        case NoProperties => before
        case Written(file) => SourceOutcome(before.written + [file], None)
        case Failed(message) => SourceOutcome(before.written, Some(message))
  {
    assert outcomes[..i + 1][..i] == outcomes[..i];
  }

  /** The outcome of each group, in the hash order of the base names. */
  function GroupOutcomes(settings: Settings, env: Environment, targetPackage: string, groups: Groups)
    : (r: seq<GroupOutcome>)
    requires IsHashOrder(env.hashOrder)
    ensures |r| == |groups.Keys|
  {
    var order := env.hashOrder(groups.Keys);
    EnumerationLength(order, groups.Keys);
    seq(|order|, i requires 0 <= i < |order| =>
      GroupResult(settings, env, targetPackage, order[i], groups[order[i]]))
  }

  /** `processSource` as a value. */
  function SourceResult(settings: Settings, env: Environment, targetPackage: string, source: SourcePath)
    : (r: SourceOutcome)
    requires IsHashOrder(env.hashOrder)
    ensures !(source.Directory? && source.listing.Some?) ==> r == SourceOutcome([], None)
  {
    match source
    case Directory(Some(listing)) => Collected(GroupOutcomes(settings, env, targetPackage, Grouped(listing)))
    case _ => SourceOutcome([], None)
  }

  /** Every file written for a source is the class of one group of its listing. */
  lemma WrittenFilesComeFromGroups(settings: Settings, env: Environment, targetPackage: string,
                                   listing: seq<DirEntry>, file: GeneratedFile)
    requires IsHashOrder(env.hashOrder)
    requires file in SourceResult(settings, env, targetPackage, Directory(Some(listing))).written
    ensures exists b ::
      b in Grouped(listing) && GroupResult(settings, env, targetPackage, b, Grouped(listing)[b]) == Written(file)
  {
    var groups := Grouped(listing);
    var order := env.hashOrder(groups.Keys);
    var outcomes := GroupOutcomes(settings, env, targetPackage, groups);
    var i :| 0 <= i < |outcomes| && outcomes[i] == Written(file);
    assert order[i] in groups;
    assert outcomes[i] == GroupResult(settings, env, targetPackage, order[i], groups[order[i]]);
  }

  /** When no group of a source fails, every group with a key has its class written. */
  lemma EveryGroupIsWritten(settings: Settings, env: Environment, targetPackage: string,
                            listing: seq<DirEntry>, baseName: string)
    requires IsHashOrder(env.hashOrder)
    requires SourceResult(settings, env, targetPackage, Directory(Some(listing))).failure.None?
    requires baseName in Grouped(listing)
    requires GroupResult(settings, env, targetPackage, baseName, Grouped(listing)[baseName]).Written?
    ensures GroupResult(settings, env, targetPackage, baseName, Grouped(listing)[baseName]).file
      in SourceResult(settings, env, targetPackage, Directory(Some(listing))).written
  {
    var groups := Grouped(listing);
    var order := env.hashOrder(groups.Keys);
    var outcomes := GroupOutcomes(settings, env, targetPackage, groups);
    var i :| 0 <= i < |order| && order[i] == baseName;
    assert outcomes[i] == GroupResult(settings, env, targetPackage, baseName, groups[baseName]);
  }

  /** `processSource`: group the listing, then process each group until one fails. */
  method ProcessSource(settings: Settings, env: Environment, targetPackage: string, source: SourcePath)
    returns (outcome: SourceOutcome)
    requires IsHashOrder(env.hashOrder)
    ensures outcome == SourceResult(settings, env, targetPackage, source)
  {
    if !source.Directory? || source.listing.None? {
      return SourceOutcome([], None);
    }
    var groups := GroupDirectory(source.listing.value);
    var order := env.hashOrder(groups.Keys);
    ghost var outcomes := GroupOutcomes(settings, env, targetPackage, groups);
    outcome := SourceOutcome([], None);
    for i := 0 to |order|
      invariant outcome == Collected(outcomes[..i]) && outcome.failure.None?
    {
      var baseName := order[i];
      var result := ProcessPropertyGroup(settings, env, targetPackage, baseName, groups[baseName]);
      assert result == outcomes[i];
      CollectedStep(outcomes, i);
      match result {
        case NoProperties =>
        case Written(file) =>
          outcome := SourceOutcome(outcome.written + [file], None);
        case Failed(message) =>
          outcome := SourceOutcome(outcome.written, Some(message));
          CollectedStopsAtFailure(outcomes, i + 1);
          return;
      }
    }
    assert outcomes[..|order|] == outcomes;
  }
}
