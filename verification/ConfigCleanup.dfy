/** The cleanup of retired keys in the configuration files, layer by layer (`clean`), and why it
    never changes which compile database applies. */
module ConfigCleanup {
  import opened Collections
  import opened TomlTree
  import opened LayerMerge
  import opened ConfigSchema
  import opened ConfigLoad

  const COMPILE_COMMANDS := "compile_commands"

  /** The values that name the database of fw-context's own build; the last is the built-in default. */
  const ROOT_DATABASE := "compile_commands.json"
  const BUILD_DATABASE := ".fw-context/build/compile_commands.json"

  /** `path` is the normal form that `Path(value)` gives a text. */
  predicate IsBuildDatabase(path: string -> string, value: string) {
    path(value) in {path(ROOT_DATABASE), path(BUILD_DATABASE)}
  }

  datatype FileState = Absent | Unreadable | Readable

  /** `doc` is what the file holds, also when the cleanup cannot read it. */
  datatype ConfigFile = ConfigFile(state: FileState, doc: Toml, ofProject: bool, writable: bool)

  ghost predicate WellFormed(f: ConfigFile) {
    f.doc.Tab? && (f.state == Absent ==> f.doc == Tab(map[]))
  }

  // ---------------------------------------------------------------- one document

  const RETIRED_LLM_KEYS := {"allow_external_llm"}
  const RETIRED_BUILD_KEYS := {"build_dir"}

  /** `_remove_retired_keys`. */
  function RemoveRetired(doc: Toml): Toml {
    var d1 := DropInVariants(DropInSection(doc, INDEX, RETIRED_INDEX_KEYS), RETIRED_INDEX_KEYS);
    var d2 := DropInSection(d1, LLM, RETIRED_LLM_KEYS);
    DropInVariants(DropInSection(d2, BUILD, RETIRED_BUILD_KEYS), RETIRED_BUILD_KEYS)
  }

  /** The value of [index] compile_commands as the layers above see it: None for a value that is
      not a string. */
  function DatabaseText(doc: Toml): Option<string>
    requires Lookup(doc, INDEX, COMPILE_COMMANDS).Some?
  {
    var v := Lookup(doc, INDEX, COMPILE_COMMANDS).value;
    if v.Str? then Some(v.s) else None
  }

  predicate HasNoEffect(path: string -> string, doc: Toml, lower: Option<string>) {
    && Lookup(doc, INDEX, COMPILE_COMMANDS).Some? && DatabaseText(doc).Some? && lower.Some?
    && IsBuildDatabase(path, DatabaseText(doc).value) && IsBuildDatabase(path, lower.value)
  }

  /** The document in memory after the edits. */
  function Edited(path: string -> string, f: ConfigFile, lower: Option<string>, runsBuild: bool): Toml {
    var d := RemoveRetired(f.doc);
    if f.ofProject && HasNoEffect(path, d, lower) && runsBuild
    then DropInSection(d, INDEX, {COMPILE_COMMANDS}) else d
  }

  /** What is on disk after the layer, and the value that the layers above see below them. */
  function CleanLayer(path: string -> string, f: ConfigFile, lower: Option<string>, runsBuild: bool, dryRun: bool): (Toml, Option<string>) {
    match f.state
    case Absent => (f.doc, lower)
    case Unreadable => (f.doc, None)
    case Readable =>
      var d := Edited(path, f, lower, runsBuild);
      (if d != f.doc && f.writable && !dryRun then d else f.doc,
       if Lookup(d, INDEX, COMPILE_COMMANDS).Some? then DatabaseText(d) else lower)
  }

  function CleanFrom(path: string -> string, files: seq<ConfigFile>, lower: Option<string>, runsBuild: bool, dryRun: bool): (r: seq<Toml>)
    ensures |r| == |files|
    decreases |files|
  {
    if files == [] then []
    else
      var (doc, above) := CleanLayer(path, files[0], lower, runsBuild, dryRun);
      [doc] + CleanFrom(path, files[1..], above, runsBuild, dryRun)
  }

  /** The layer loop of `clean`: the files on disk afterwards. */
  method Clean(path: string -> string, files: seq<ConfigFile>, runsBuild: bool, dryRun: bool) returns (disk: seq<Toml>)
    ensures disk == CleanFrom(path, files, Some(BUILD_DATABASE), runsBuild, dryRun)
  {
    disk := [];
    var lowerDatabase := Some(BUILD_DATABASE);
    assert files[0..] == files;
    for n := 0 to |files|
      invariant disk + CleanFrom(path, files[n..], lowerDatabase, runsBuild, dryRun) ==
                CleanFrom(path, files, Some(BUILD_DATABASE), runsBuild, dryRun)
    {
      var f := files[n];
      assert files[n..][0] == f && files[n..][1..] == files[n + 1..];
      ghost var rest := CleanFrom(path, files[n..], lowerDatabase, runsBuild, dryRun);
      ghost var (doc, above) := CleanLayer(path, f, lowerDatabase, runsBuild, dryRun);
      assert rest == [doc] + CleanFrom(path, files[n + 1..], above, runsBuild, dryRun);
      var written := f.doc;
      match f.state {
        case Absent =>
        case Unreadable => lowerDatabase := None;
        case Readable =>
          var document := RemoveRetired(f.doc);
          if f.ofProject && HasNoEffect(path, document, lowerDatabase) && runsBuild {
            document := DropInSection(document, INDEX, {COMPILE_COMMANDS});
          }
          if Lookup(document, INDEX, COMPILE_COMMANDS).Some? { lowerDatabase := DatabaseText(document); }
          if document != f.doc && f.writable && !dryRun { written := document; }
      }
      assert written == doc && lowerDatabase == above;
      assert disk + ([written] + CleanFrom(path, files[n + 1..], above, runsBuild, dryRun)) ==
             (disk + [written]) + CleanFrom(path, files[n + 1..], above, runsBuild, dryRun);
      disk := disk + [written];
    }
    assert files[|files|..] == [];
  }

  // ---------------------------------------------------------------- the database that applies

  /** None: no layer gives a value, and the built-in default applies. */
  function Database(merged: Toml): Option<Toml> {
    Lookup(merged, INDEX, COMPILE_COMMANDS)
  }

  predicate NamesBuildDatabase(path: string -> string, v: Option<Toml>) {
    v.None? || (v.value.Str? && IsBuildDatabase(path, v.value.s))
  }

  /** The two values select the same database. */
  predicate SameDatabase(path: string -> string, before: Option<Toml>, after: Option<Toml>) {
    before == after || (NamesBuildDatabase(path, before) && NamesBuildDatabase(path, after))
  }

  predicate HasIndex(t: Toml) {
    t.Tab? && INDEX in t.entries && t.entries[INDEX].Tab?
  }

  /** What one layer does to the value below it. */
  lemma {:induction false} DatabaseOverLayer(m: Toml, d: Toml)
    requires m.Tab? && d.Tab?
    ensures HasIndex(Merge(m, d)) <==> HasIndex(d) || (HasIndex(m) && INDEX !in d.entries)
    ensures Database(Merge(m, d)) ==
              if INDEX !in d.entries then Database(m)
              else if !HasIndex(d) then None
              else if Database(d).None? then Database(m)
              else if Database(m).None? then Database(d)
              else Some(Merge(Database(m).value, Database(d).value))
  {
    if INDEX in m.entries && INDEX in d.entries {
      assert Merge(m, d).entries[INDEX] == Merge(m.entries[INDEX], d.entries[INDEX]);
    }
  }

  lemma {:induction false} RetiredKeysAreOthers()
    ensures COMPILE_COMMANDS !in RETIRED_INDEX_KEYS
    ensures INDEX != LLM && INDEX != BUILD && LLM != BUILD
  {
    assert COMPILE_COMMANDS[0] == 'c';
    forall k | k in RETIRED_INDEX_KEYS ensures k[0] == 'q' {}
  }

  lemma {:induction false} RemoveRetiredKeepsDatabase(d: Toml)
    requires d.Tab?
    ensures RemoveRetired(d).Tab?
    ensures Database(RemoveRetired(d)) == Database(d)
    ensures HasIndex(RemoveRetired(d)) == HasIndex(d)
    ensures INDEX in RemoveRetired(d).entries <==> INDEX in d.entries
  {
    RetiredKeysAreOthers();
  }

  /** What the cleanup of one layer leaves on disk, seen from the database. */
  lemma {:induction false} CleanLayerEffect(path: string -> string, f: ConfigFile, lower: Option<string>, runsBuild: bool, dryRun: bool)
    requires WellFormed(f)
    ensures
      var (after, above) := CleanLayer(path, f, lower, runsBuild, dryRun);
      && after.Tab? && HasIndex(after) == HasIndex(f.doc) && (INDEX in after.entries <==> INDEX in f.doc.entries)
      && (|| Database(after) == Database(f.doc)
          || (Database(after).None? && Database(f.doc).Some? && NamesBuildDatabase(path, Database(f.doc))
              && lower.Some? && IsBuildDatabase(path, lower.value)))
      && (above.Some? && IsBuildDatabase(path, above.value) ==>
            && NamesBuildDatabase(path, Database(f.doc)) && NamesBuildDatabase(path, Database(after))
            && (Database(after).None? ==> lower.Some? && IsBuildDatabase(path, lower.value)))
  {
    RemoveRetiredKeepsDatabase(f.doc);
  }

  /** The merges of the layers so far, before and after, and the value the next layer sees. */
  ghost predicate Tracks(path: string -> string, before: Toml, after: Toml, lower: Option<string>) {
    && before.Tab? && after.Tab? && HasIndex(before) == HasIndex(after)
    && SameDatabase(path, Database(before), Database(after))
    && (lower.Some? && IsBuildDatabase(path, lower.value) ==>
          NamesBuildDatabase(path, Database(before)) && NamesBuildDatabase(path, Database(after)))
  }

  lemma {:induction false} TracksOverLayer(path: string -> string, before: Toml, after: Toml, lower: Option<string>, f: ConfigFile, runsBuild: bool, dryRun: bool)
    requires Tracks(path, before, after, lower) && WellFormed(f)
    ensures
      var (doc, above) := CleanLayer(path, f, lower, runsBuild, dryRun);
      Tracks(path, Merge(before, f.doc), Merge(after, doc), above)
  {
    var (doc, above) := CleanLayer(path, f, lower, runsBuild, dryRun);
    CleanLayerEffect(path, f, lower, runsBuild, dryRun);
    DatabaseOverLayer(before, f.doc);
    DatabaseOverLayer(after, doc);
  }

  ghost function MergeOnto(base: Toml, layers: seq<Toml>): Toml
    decreases |layers|
  {
    if layers == [] then base else MergeOnto(Merge(base, layers[0]), layers[1..])
  }

  ghost function Docs(files: seq<ConfigFile>): (r: seq<Toml>)
    ensures |r| == |files|
    decreases |files|
  {
    if files == [] then [] else [files[0].doc] + Docs(files[1..])
  }

  lemma {:induction false} CleanTracks(path: string -> string, files: seq<ConfigFile>, before: Toml, after: Toml, lower: Option<string>, runsBuild: bool, dryRun: bool)
    requires Tracks(path, before, after, lower) && forall i | 0 <= i < |files| :: WellFormed(files[i])
    ensures SameDatabase(path, Database(MergeOnto(before, Docs(files))),
                         Database(MergeOnto(after, CleanFrom(path, files, lower, runsBuild, dryRun))))
    decreases |files|
  {
    if files != [] {
      var (doc, above) := CleanLayer(path, files[0], lower, runsBuild, dryRun);
      TracksOverLayer(path, before, after, lower, files[0], runsBuild, dryRun);
      CleanTracks(path, files[1..], Merge(before, files[0].doc), Merge(after, doc), above, runsBuild, dryRun);
      assert Docs(files)[1..] == Docs(files[1..]);
      assert CleanFrom(path, files, lower, runsBuild, dryRun)[1..] == CleanFrom(path, files[1..], above, runsBuild, dryRun);
    }
  }

  lemma {:induction false} MergeOntoIsMergeAll(base: seq<Toml>, layers: seq<Toml>)
    ensures MergeOnto(MergeAll(base), layers) == MergeAll(base + layers)
    decreases |layers|
  {
    if layers == [] {
      assert base + layers == base;
    } else {
      var next := base + [layers[0]];
      assert next[..|next| - 1] == base;
      assert next + layers[1..] == base + layers;
      MergeOntoIsMergeAll(next, layers[1..]);
    }
  }

  /** The cleanup keeps the database that applies: whatever the files hold (also the ones that
      cannot be read), whichever writes fail, and in a dry run or not, the merged value before
      and after are equal or both name the database of fw-context's own build. */
  lemma {:induction false} CleanKeepsTheDatabase(path: string -> string, files: seq<ConfigFile>, runsBuild: bool, dryRun: bool)
    requires forall i | 0 <= i < |files| :: WellFormed(files[i])
    ensures
      var before := Database(MergeAll(Docs(files)));
      var after := Database(MergeAll(CleanFrom(path, files, Some(BUILD_DATABASE), runsBuild, dryRun)));
      && SameDatabase(path, before, after)
      && (!NamesBuildDatabase(path, before) ==> after == before)
      && (!NamesBuildDatabase(path, after) ==> after == before)
  {
    CleanTracks(path, files, Tab(map[]), Tab(map[]), Some(BUILD_DATABASE), runsBuild, dryRun);
    var cleaned := CleanFrom(path, files, Some(BUILD_DATABASE), runsBuild, dryRun);
    MergeOntoIsMergeAll([], Docs(files));
    MergeOntoIsMergeAll([], cleaned);
    assert [] + Docs(files) == Docs(files) && [] + cleaned == cleaned;
  }

  /** The test of the layers below is needed: without it, dropping an old default would let a
      value of a lower layer come up. */
  lemma DroppingWithoutTheTestWouldChangeTheDatabase(path: string -> string, other: string)
    requires !IsBuildDatabase(path, other)
    ensures
      var lower := Tab(map[INDEX := Tab(map[COMPILE_COMMANDS := Str(other)])]);
      var upper := Tab(map[INDEX := Tab(map[COMPILE_COMMANDS := Str(BUILD_DATABASE)])]);
      && !SameDatabase(path, Database(Merge(lower, upper)), Database(Merge(lower, DropInSection(upper, INDEX, {COMPILE_COMMANDS}))))
      && CleanLayer(path, ConfigFile(Readable, upper, true, true), Some(other), true, false).0 == upper
  {
    var lower := Tab(map[INDEX := Tab(map[COMPILE_COMMANDS := Str(other)])]);
    var upper := Tab(map[INDEX := Tab(map[COMPILE_COMMANDS := Str(BUILD_DATABASE)])]);
    DatabaseOverLayer(lower, upper);
    DatabaseOverLayer(lower, DropInSection(upper, INDEX, {COMPILE_COMMANDS}));
    RetiredKeysAreOthers();
    assert RemoveRetired(upper) == upper by {
      assert upper.entries[INDEX].entries - RETIRED_INDEX_KEYS == upper.entries[INDEX].entries;
      assert upper.entries[INDEX := upper.entries[INDEX]] == upper.entries;
    }
  }

  // ---------------------------------------------------------------- a second run finds nothing

  predicate FreeOf(t: Toml, keys: set<string>) {
    t.Tab? ==> t.entries.Keys !! keys
  }

  predicate SectionFreeOf(d: Toml, s: string, keys: set<string>) {
    d.Tab? && s in d.entries ==> FreeOf(d.entries[s], keys)
  }

  predicate VariantsFreeOf(d: Toml, keys: set<string>) {
    Lookup(d, BUILD, VARIANTS).Some? && Lookup(d, BUILD, VARIANTS).value.Arr? ==>
      forall i | 0 <= i < |Lookup(d, BUILD, VARIANTS).value.items| :: FreeOf(Lookup(d, BUILD, VARIANTS).value.items[i], keys)
  }

  lemma {:induction false} FreeSectionStays(d: Toml, s: string, keys: set<string>)
    requires SectionFreeOf(d, s, keys)
    ensures DropInSection(d, s, keys) == d
  {
    if d.Tab? && s in d.entries {
      if d.entries[s].Tab? { assert d.entries[s].entries - keys == d.entries[s].entries; }
      assert d.entries[s := d.entries[s]] == d.entries;
    }
  }

  lemma {:induction false} FreeVariantsStay(d: Toml, keys: set<string>)
    requires VariantsFreeOf(d, keys)
    ensures DropInVariants(d, keys) == d
  {
    if Lookup(d, BUILD, VARIANTS).Some? {
      var b, v := d.entries[BUILD], Lookup(d, BUILD, VARIANTS).value;
      if v.Arr? {
        forall i | 0 <= i < |v.items| ensures DropFrom(v.items[i], keys) == v.items[i] {
          assert FreeOf(v.items[i], keys);
          if v.items[i].Tab? { assert v.items[i].entries - keys == v.items[i].entries; }
        }
        assert DropFromEach(v, keys).items == v.items;
      }
      assert b.entries[VARIANTS := v] == b.entries;
      assert d.entries[BUILD := b] == d.entries;
    }
  }

  /** No retired key is left anywhere in the document. */
  predicate RetiredFree(d: Toml) {
    && SectionFreeOf(d, INDEX, RETIRED_INDEX_KEYS) && SectionFreeOf(d, LLM, RETIRED_LLM_KEYS)
    && SectionFreeOf(d, BUILD, RETIRED_BUILD_KEYS)
    && VariantsFreeOf(d, RETIRED_INDEX_KEYS) && VariantsFreeOf(d, RETIRED_BUILD_KEYS)
  }

  lemma {:induction false} DropInSectionFrees(d: Toml, s: string, keys: set<string>, s': string, keys': set<string>)
    ensures SectionFreeOf(DropInSection(d, s, keys), s, keys)
    ensures SectionFreeOf(d, s', keys') ==> SectionFreeOf(DropInSection(d, s, keys), s', keys')
  {
  }

  lemma {:induction false} DropInSectionKeepsVariants(d: Toml, s: string, keys: set<string>, keys': set<string>)
    requires VARIANTS !in keys
    ensures Lookup(DropInSection(d, s, keys), BUILD, VARIANTS) == Lookup(d, BUILD, VARIANTS)
  {
  }

  lemma {:induction false} DropInVariantsFrees(d: Toml, keys: set<string>, keys': set<string>)
    ensures VariantsFreeOf(DropInVariants(d, keys), keys)
    ensures VariantsFreeOf(d, keys') ==> VariantsFreeOf(DropInVariants(d, keys), keys')
  {
    if Lookup(d, BUILD, VARIANTS).Some? && Lookup(d, BUILD, VARIANTS).value.Arr? {
      var before, after := Lookup(d, BUILD, VARIANTS).value, Lookup(DropInVariants(d, keys), BUILD, VARIANTS).value;
      forall i | 0 <= i < |after.items|
        ensures FreeOf(after.items[i], keys)
        ensures VariantsFreeOf(d, keys') ==> FreeOf(after.items[i], keys')
      {
        assert after.items[i] == DropFrom(before.items[i], keys);
      }
    }
  }

  lemma {:induction false} DropInVariantsKeepsSections(d: Toml, keys: set<string>, s: string, keys': set<string>)
    requires VARIANTS !in keys'
    ensures SectionFreeOf(d, s, keys') ==> SectionFreeOf(DropInVariants(d, keys), s, keys')
  {
  }

  lemma {:induction false} RemoveRetiredFrees(doc: Toml)
    ensures RetiredFree(RemoveRetired(doc))
  {
    VariantsIsNotRetired();
    var d0 := DropInSection(doc, INDEX, RETIRED_INDEX_KEYS);
    var d1 := DropInVariants(d0, RETIRED_INDEX_KEYS);
    var d2 := DropInSection(d1, LLM, RETIRED_LLM_KEYS);
    var d3 := DropInSection(d2, BUILD, RETIRED_BUILD_KEYS);
    DropInSectionFrees(doc, INDEX, RETIRED_INDEX_KEYS, INDEX, RETIRED_INDEX_KEYS);
    DropInVariantsKeepsSections(d0, RETIRED_INDEX_KEYS, INDEX, RETIRED_INDEX_KEYS);
    DropInVariantsFrees(d0, RETIRED_INDEX_KEYS, RETIRED_INDEX_KEYS);
    DropInSectionFrees(d1, LLM, RETIRED_LLM_KEYS, INDEX, RETIRED_INDEX_KEYS);
    DropInSectionKeepsVariants(d1, LLM, RETIRED_LLM_KEYS, RETIRED_INDEX_KEYS);
    DropInSectionFrees(d2, BUILD, RETIRED_BUILD_KEYS, INDEX, RETIRED_INDEX_KEYS);
    DropInSectionFrees(d2, BUILD, RETIRED_BUILD_KEYS, LLM, RETIRED_LLM_KEYS);
    DropInSectionKeepsVariants(d2, BUILD, RETIRED_BUILD_KEYS, RETIRED_INDEX_KEYS);
    DropInVariantsKeepsSections(d3, RETIRED_BUILD_KEYS, INDEX, RETIRED_INDEX_KEYS);
    DropInVariantsKeepsSections(d3, RETIRED_BUILD_KEYS, LLM, RETIRED_LLM_KEYS);
    DropInVariantsKeepsSections(d3, RETIRED_BUILD_KEYS, BUILD, RETIRED_BUILD_KEYS);
    DropInVariantsFrees(d3, RETIRED_BUILD_KEYS, RETIRED_INDEX_KEYS);
  }

  lemma {:induction false} VariantsIsNotRetired()
    ensures VARIANTS !in RETIRED_INDEX_KEYS && VARIANTS !in RETIRED_LLM_KEYS && VARIANTS !in RETIRED_BUILD_KEYS
    ensures COMPILE_COMMANDS !in RETIRED_INDEX_KEYS && VARIANTS != COMPILE_COMMANDS
  {
    assert VARIANTS[0] == 'v' && COMPILE_COMMANDS[0] == 'c';
    forall k | k in RETIRED_INDEX_KEYS ensures k[0] == 'q' {}
    forall k | k in RETIRED_LLM_KEYS ensures k[0] == 'a' {}
    forall k | k in RETIRED_BUILD_KEYS ensures k[0] == 'b' {}
  }

  lemma {:induction false} RetiredFreeStays(d: Toml)
    requires RetiredFree(d)
    ensures RemoveRetired(d) == d
  {
    FreeSectionStays(d, INDEX, RETIRED_INDEX_KEYS);
    FreeVariantsStay(d, RETIRED_INDEX_KEYS);
    FreeSectionStays(d, LLM, RETIRED_LLM_KEYS);
    FreeSectionStays(d, BUILD, RETIRED_BUILD_KEYS);
    FreeVariantsStay(d, RETIRED_BUILD_KEYS);
  }

  /** A file that can be written is left as its own edit: the same cleanup of it changes nothing
      and shows the layers above the same value. */
  lemma {:induction false} CleanLayerTwice(path: string -> string, f: ConfigFile, lower: Option<string>, runsBuild: bool)
    requires f.writable
    ensures
      var (doc, above) := CleanLayer(path, f, lower, runsBuild, false);
      CleanLayer(path, f.(doc := doc), lower, runsBuild, false) == (doc, above)
  {
    if f.state == Readable {
      var d := RemoveRetired(f.doc);
      RemoveRetiredFrees(f.doc);
      VariantsIsNotRetired();
      DropInSectionFrees(d, INDEX, {COMPILE_COMMANDS}, INDEX, RETIRED_INDEX_KEYS);
      DropInSectionFrees(d, INDEX, {COMPILE_COMMANDS}, LLM, RETIRED_LLM_KEYS);
      DropInSectionFrees(d, INDEX, {COMPILE_COMMANDS}, BUILD, RETIRED_BUILD_KEYS);
      DropInSectionKeepsVariants(d, INDEX, {COMPILE_COMMANDS}, RETIRED_INDEX_KEYS);
      var e := Edited(path, f, lower, runsBuild);
      RetiredFreeStays(e);
      assert CleanLayer(path, f, lower, runsBuild, false).0 == e;
    }
  }

  /** The files with what is on disk now. */
  ghost function Rewritten(files: seq<ConfigFile>, disk: seq<Toml>): (r: seq<ConfigFile>)
    requires |files| == |disk|
    ensures |r| == |files|
    decreases |files|
  {
    if files == [] then [] else [files[0].(doc := disk[0])] + Rewritten(files[1..], disk[1..])
  }

  /** When every file can be written, a second cleanup changes nothing. */
  lemma {:induction false} CleanTwice(path: string -> string, files: seq<ConfigFile>, lower: Option<string>, runsBuild: bool)
    requires forall i | 0 <= i < |files| :: files[i].writable
    ensures
      var disk := CleanFrom(path, files, lower, runsBuild, false);
      CleanFrom(path, Rewritten(files, disk), lower, runsBuild, false) == disk
    decreases |files|
  {
    if files != [] {
      var (doc, above) := CleanLayer(path, files[0], lower, runsBuild, false);
      var disk := CleanFrom(path, files, lower, runsBuild, false);
      CleanLayerTwice(path, files[0], lower, runsBuild);
      CleanTwice(path, files[1..], above, runsBuild);
      assert disk[1..] == CleanFrom(path, files[1..], above, runsBuild, false);
      assert Rewritten(files, disk)[1..] == Rewritten(files[1..], disk[1..]);
    }
  }
}
