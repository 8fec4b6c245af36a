/** The previous configuration of an installation, merged from its files, and the update of a generated config. */
module HHConfig {
  import opened Text
  import opened ConfigTree
  import opened ConfigLookup
  import opened ConfigEdit
  import opened ConfigMerge
  import B = ConfigBuilder
  import P = ConfigParser
  import G = ConfigGrammar
  import R = ConfigRemoval

  /** The options of a list that the previous config has. */
  function Used(prior: Document, keys: seq<Key>): set<Key> {
    set key | key in keys && HasOption(prior, key.0, key.1)
  }

  lemma UsedStep(prior: Document, keys: seq<Key>, rest: seq<Key>)
    ensures Used(prior, keys + rest) == Used(prior, keys) + Used(prior, rest)
  {
  }

  /** An option of a section outside exclusion blocks. */
  predicate Included(doc: Document, key: Key) {
    key.0 in IncludedSections(doc) && HasOption(doc, key.0, key.1)
  }

  /** Options of one file that no update has used. */
  function Unused(origins: map<Key, string>, used: set<Key>, origin: string): set<Key> {
    set key | key in origins && origins[key] == origin && key !in used
  }

  /** After a refresh that used nothing before: the options reported for a file read as in the template, and all its
      others but gcode and empty ones read as the previous config's. */
  lemma UnusedAreDropped(origins: map<Key, string>, doc: Document, prior: Document, origin: string, key: Key)
    requires Mergeable(doc, prior, REFRESH) && key in origins && origins[key] == origin
    ensures
      var reported := key in Unused(origins, Used(prior, MergedKeys(doc)), origin);
      var merged := Merged(doc, prior, REFRESH);
      && (reported <==> !(Included(doc, key) && HasOption(prior, key.0, key.1)))
      && (reported ==> LookUp(merged, key.0, key.1) == LookUp(doc, key.0, key.1))
      && (!reported && !("gcode" <= key.1) && Get(prior, key.0, key.1).Some? && Get(prior, key.0, key.1).value != "" ==>
            Get(merged, key.0, key.1) == Get(prior, key.0, key.1))
  {
    MergedKeysAre(doc, key);
    MergedReads(doc, prior, REFRESH, key);
    RefreshReads(doc, prior, key.0, key.1);
  }

  /** An included option, not gcode and not held back, with an old value that is not empty. */
  predicate TakesOld(doc: Document, prior: Document, x: Exclusions, key: Key) {
    && Included(doc, key) && !("gcode" <= key.1) && !HeldBack(x, key)
    && Get(prior, key.0, key.1).Some? && Get(prior, key.0, key.1).value != ""
  }

  lemma MergedRules(doc: Document, prior: Document, x: Exclusions)
    ensures forall key | HeldBack(x, key) || "gcode" <= key.1 ::
              LookUp(Merged(doc, prior, x), key.0, key.1) == LookUp(doc, key.0, key.1)
    ensures Mergeable(doc, prior, x) ==>
              forall key | TakesOld(doc, prior, x, key) ::
                Get(Merged(doc, prior, x), key.0, key.1) == Get(prior, key.0, key.1)
  {
    forall key: Key | HeldBack(x, key) || "gcode" <= key.1
      ensures LookUp(Merged(doc, prior, x), key.0, key.1) == LookUp(doc, key.0, key.1)
    {
      HeldBackStays(doc, prior, x, key);
    }
    if Mergeable(doc, prior, x) {
      forall key | TakesOld(doc, prior, x, key)
        ensures Get(Merged(doc, prior, x), key.0, key.1) == Get(prior, key.0, key.1)
      {
        OthersAreRestored(doc, prior, x, key);
      }
    }
  }

  /** Two documents with the same option names everywhere. */
  ghost predicate SameOptions(a: Document, b: Document) {
    && (forall s :: Options(a, s) == Options(b, s))
    && (forall s, o :: HasOption(a, s, o) <==> HasOption(b, s, o))
  }

  lemma SameThrough(a: Document, b: Document, c: Document)
    requires SameOptions(a, b) && SameOptions(b, c)
    ensures SameOptions(a, c)
  {
  }

  lemma {:induction false} SameNames(body: seq<Item>, k: nat, item: Item)
    requires k < |body| && body[k].OptionItem? && IsOption(item, body[k].name)
    ensures OptionNames(body[k := item]) == OptionNames(body)
  {
    if k > 0 {
      SameNames(body[1..], k - 1, item);
      assert body[k := item][1..] == body[1..][k - 1 := item];
    } else {
      assert body[k := item][1..] == body[1..];
    }
  }

  /** Setting an existing option changes no list of option names. */
  lemma SetKeepsOptions(doc: Document, section: string, option: string, value: Option<string>, other: string)
    requires HasOption(doc, section, option)
    ensures Set(doc, section, option, value).Some?
    ensures Options(Set(doc, section, option, value).value, other) == Options(doc, other)
  {
    var r := FindSection(doc, section).value;
    var v := Strip(if value.Some? then value.value else "");
    var body := SectionAt(doc, r).body;
    var k := FindOption(body, option).value;
    var edited := EditedBody(body, option, v);
    SameNames(body, k, edited[k]);
    WithBodySections(doc, r, edited, other);
    if FindSection(doc, other).Some? {
      WithBodyAt(doc, r, edited, FindSection(doc, other).value);
    }
  }

  class HHConfig {
    var document: Document
    var origins: map<Key, string>
    var usedOptions: set<Key>

    constructor ()
      ensures document == [] && origins == map[] && usedOptions == {} && GoodDocument(document)
    {
      document := [];
      origins := map[];
      usedOptions := {};
    }

    /** Reads one file behind those read before. Every included option that can now be looked up belongs to a file, the
        first one it was seen in. */
    method Read(parser: P.Parser, buffer: string, origin: Option<string>, basename: string)
      requires GoodDocument(document)
      modifies this`document, this`origins, parser
      ensures GoodDocument(document)
      ensures document == old(document) + G.Parse(buffer, parser.errorMarker, origin)
      ensures forall key :: key in origins <==> key in old(origins) || Included(document, key)
      ensures forall key | key in origins ::
                origins[key] == if key in old(origins) then old(origins)[key] else basename
    {
      var doc := parser.Parse(buffer, origin);
      R.ParsedDocumentGood(buffer, parser.errorMarker, origin);
      R.GoodConcat(document, doc);
      document := document + doc;
      RecordOrigins(basename);
    }

    method RecordOrigins(basename: string)
      modifies this`origins
      ensures forall key :: key in origins <==> key in old(origins) || Included(document, key)
      ensures forall key | key in origins ::
                origins[key] == if key in old(origins) then old(origins)[key] else basename
    {
      var sections := IncludedSections(document);
      var i := 0;
      while i < |sections|
        invariant 0 <= i <= |sections|
        invariant forall key :: key in origins <==>
                    key in old(origins) || (key.0 in sections[..i] && ConfigLookup.HasOption(document, key.0, key.1))
        invariant forall key | key in origins ::
                    origins[key] == if key in old(origins) then old(origins)[key] else basename
      {
        var options := Options(document, sections[i]);
        AddOrigins(sections[i], options, basename);
        forall o ensures o in options <==> ConfigLookup.HasOption(document, sections[i], o) {
          ListedExactly(document, sections[i], o);
        }
        assert sections[..i + 1] == sections[..i] + [sections[i]];
        i := i + 1;
      }
      assert sections[..i] == sections;
    }

    method AddOrigins(section: string, options: seq<string>, basename: string)
      modifies this`origins
      ensures forall key :: key in origins <==> key in old(origins) || (key.0 == section && key.1 in options)
      ensures forall key | key in origins ::
                origins[key] == if key in old(origins) then old(origins)[key] else basename
    {
      var j := 0;
      while j < |options|
        invariant 0 <= j <= |options|
        invariant forall key :: key in origins <==> key in old(origins) || (key.0 == section && key.1 in options[..j])
        invariant forall key | key in origins ::
                    origins[key] == if key in old(origins) then old(origins)[key] else basename
      {
        if (section, options[j]) !in origins {
          origins := origins[(section, options[j]) := basename];
        }
        assert options[..j + 1] == options[..j] + [options[j]];
        j := j + 1;
      }
      assert options[..j] == options;
    }

    /** Restores one option of the builder, if the previous config has it and it is not excluded. */
    method RestoreOption(builder: B.ConfigBuilder, x: Exclusions, section: string, option: string)
      requires builder.Valid() && ConfigLookup.HasOption(builder.document, section, option)
      modifies builder, this`usedOptions
      ensures builder.Valid()
      ensures builder.document == MergeOne(old(builder.document), document, x, (section, option))
      ensures usedOptions == old(usedOptions) + Used(document, [(section, option)])
      ensures SameOptions(builder.document, old(builder.document))
      ensures HeldBack(x, (section, option)) || "gcode" <= option || !ConfigLookup.HasOption(document, section, option)
              ==> builder.document == old(builder.document)
    {
      RestoresIs(x, (section, option));
      ghost var before := builder.document;
      MergeOneSameOptions(before, document, x, (section, option));
      if HasOption(document, section, option) {
        if Restores(x, section, option) {
          var value := ConfigLookup.Get(document, section, option);
          var ok := builder.Set(section, option, value);
        }
        usedOptions := usedOptions + {(section, option)};
      }
    }

    /** Restores the options of one section, those of the `later` keys being still to come. */
    method RestoreSection(builder: B.ConfigBuilder, x: Exclusions, section: string, ghost later: seq<Key>)
      requires builder.Valid()
      modifies builder, this`usedOptions
      ensures builder.Valid()
      ensures var keys := SectionKeys(section, Sorted(Options(old(builder.document), section)));
              && MergeKeys(builder.document, document, x, later)
                 == MergeKeys(old(builder.document), document, x, keys + later)
              && usedOptions == old(usedOptions) + Used(document, keys)
      ensures SameOptions(builder.document, old(builder.document))
    {
      var options := Sorted(Options(builder.document, section));
      ghost var start := builder.document;
      ghost var keys := SectionKeys(section, options);
      ghost var merged, used := MergeKeys(start, document, x, keys + later), usedOptions;
      var j := 0;
      AllKeys(keys, later);
      while j < |options|
        invariant 0 <= j <= |options|
        invariant builder.Valid() && SameOptions(builder.document, start)
        invariant MergeKeys(builder.document, document, x, keys[j..] + later) == merged
        invariant usedOptions == used + Used(document, keys[..j])
      {
        RestoreNext(builder, x, section, options, j, start, later, used);
        j := j + 1;
      }
      NoKeys(keys, later);
    }

    /** One round of the loop over the options of a section. */
    method RestoreNext(builder: B.ConfigBuilder, x: Exclusions, section: string, options: seq<string>, j: nat,
                       ghost start: Document, ghost later: seq<Key>, ghost used: set<Key>)
      requires builder.Valid() && SameOptions(builder.document, start)
      requires j < |options| && options == Sorted(Options(start, section))
      requires usedOptions == used + Used(document, SectionKeys(section, options)[..j])
      modifies builder, this`usedOptions
      ensures builder.Valid() && SameOptions(builder.document, start)
      ensures var keys := SectionKeys(section, options);
              && MergeKeys(builder.document, document, x, keys[j + 1..] + later)
                 == MergeKeys(old(builder.document), document, x, keys[j..] + later)
              && usedOptions == used + Used(document, keys[..j + 1])
    {
      ghost var keys := SectionKeys(section, options);
      ListedOption(start, section, options[j]);
      MergeNext(builder.document, document, x, keys, later, j);
      UsedNext(document, keys, j);
      ghost var before := builder.document;
      RestoreOption(builder, x, section, options[j]);
      SameThrough(builder.document, before, start);
    }

    /** Restores every option the previous config has. */
    method RestoreOptions(builder: B.ConfigBuilder, x: Exclusions)
      requires builder.Valid()
      modifies builder, this`usedOptions
      ensures builder.Valid()
      ensures builder.document == Merged(old(builder.document), document, x)
      ensures usedOptions == old(usedOptions) + Used(document, MergedKeys(old(builder.document)))
    {
      ghost var start := builder.document;
      var sections := Sorted(IncludedSections(builder.document));
      RestoreSections(builder, x, sections, start);
    }

    /** The loop over the sections of a generated config. */
    method RestoreSections(builder: B.ConfigBuilder, x: Exclusions, sections: seq<string>, ghost start: Document)
      requires builder.Valid() && SameOptions(builder.document, start)
      modifies builder, this`usedOptions
      ensures builder.Valid()
      ensures builder.document == MergeKeys(old(builder.document), document, x, KeysOf(start, sections))
      ensures usedOptions == old(usedOptions) + Used(document, KeysOf(start, sections))
    {
      var i := 0;
      ghost var merged := MergeKeys(builder.document, document, x, KeysOf(start, sections));
      ghost var used := usedOptions + Used(document, KeysOf(start, sections));
      assert sections[0..] == sections;
      while i < |sections|
        invariant 0 <= i <= |sections|
        invariant builder.Valid() && SameOptions(builder.document, start)
        invariant MergeKeys(builder.document, document, x, KeysOf(start, sections[i..])) == merged
        invariant usedOptions + Used(document, KeysOf(start, sections[i..])) == used
      {
        RestoreNextSection(builder, x, sections, i, start);
        i := i + 1;
      }
      assert sections[i..] == [] && KeysOf(start, []) == [] && Used(document, []) == {};
    }

    /** One round of the loop over the sections. */
    method RestoreNextSection(builder: B.ConfigBuilder, x: Exclusions, sections: seq<string>, i: nat,
                              ghost start: Document)
      requires builder.Valid() && SameOptions(builder.document, start) && i < |sections|
      modifies builder, this`usedOptions
      ensures builder.Valid() && SameOptions(builder.document, start)
      ensures MergeKeys(builder.document, document, x, KeysOf(start, sections[i + 1..]))
           == MergeKeys(old(builder.document), document, x, KeysOf(start, sections[i..]))
      ensures usedOptions + Used(document, KeysOf(start, sections[i + 1..]))
           == old(usedOptions) + Used(document, KeysOf(start, sections[i..]))
    {
      ghost var later := KeysOf(start, sections[i + 1..]);
      NextSection(start, sections, i);
      UsedStep(document, SectionKeys(sections[i], Sorted(Options(start, sections[i]))), later);
      RestoreSection(builder, x, sections[i], later);
    }

    /** Copies exclusion blocks to the end of a document. */
    method CopyExcluded(start: Document, excluded: Document) returns (doc: Document)
      ensures doc == ConfigMerge.CopyExcluded(start, excluded)
    {
      doc := start;
      var k := 0;
      while k < |excluded|
        invariant 0 <= k <= |excluded|
        invariant ConfigMerge.CopyExcluded(doc, excluded[k..]) == ConfigMerge.CopyExcluded(start, excluded)
      {
        assert excluded[k..][1..] == excluded[k + 1..];
        ghost var before := doc;
        if doc != [] && !EndsWithSpace(doc) {
          doc := doc + [NEWLINE];
        }
        doc := doc + [excluded[k]];
        assert doc == before + (if before != [] && !EndsWithSpace(before) then [NEWLINE] else []) + [excluded[k]];
        k := k + 1;
      }
    }

    /** Puts the exclusion blocks of a file in the place of the builder's. */
    method CarryExclusions(builder: B.ConfigBuilder, origin: Option<string>)
      requires builder.Valid() && GoodDocument(document)
      modifies builder, this`document
      ensures builder.Valid()
      ensures if Carries(old(builder.document), old(document), origin) then
                && document == DeleteExcluded(old(document), origin)
                && builder.document == ConfigMerge.CopyExcluded(DeleteExcluded(old(builder.document), None),
                                                                ExcludedNodes(old(document), origin))
              else document == old(document) && builder.document == old(builder.document)
    {
      if Carries(builder.document, document, origin) {
        var excluded := ExcludedNodes(document, origin);
        var cleaned := DeleteExcluded(builder.document, None);
        ExcludedGood(document, origin);
        DeletedGood(builder.document);
        CopiedGood(cleaned, excluded);
        var doc := CopyExcluded(cleaned, excluded);
        builder.document := doc;
        document := DeleteExcluded(document, origin);
      }
    }

    method UpdateBuilder(builder: B.ConfigBuilder, x: Exclusions, origin: Option<string>)
      requires builder.Valid() && GoodDocument(document)
      modifies builder, this`usedOptions, this`document
      ensures builder.Valid()
      ensures builder.document == Updated(old(builder.document), old(document), x, origin)
      ensures usedOptions == old(usedOptions) + Used(old(document), MergedKeys(old(builder.document)))
      ensures document == if HasBlock(old(document), origin) && HasBlock(old(builder.document), None)
                          then DeleteExcluded(old(document), origin) else old(document)
      ensures !(HasBlock(old(document), origin) && HasBlock(old(builder.document), None)) ==>
                forall key | HeldBack(x, key) || "gcode" <= key.1 ::
                  LookUp(builder.document, key.0, key.1) == LookUp(old(builder.document), key.0, key.1)
      ensures !(HasBlock(old(document), origin) && HasBlock(old(builder.document), None))
              && Mergeable(old(builder.document), old(document), x) ==>
                forall key | TakesOld(old(builder.document), old(document), x, key) ::
                  ConfigLookup.Get(builder.document, key.0, key.1) == ConfigLookup.Get(old(document), key.0, key.1)
    {
      MergedRules(builder.document, document, x);
      CarriesIs(builder.document, document, x, origin);
      RestoreOptions(builder, x);
      CarryExclusions(builder, origin);
    }

    /** Options of one file that no update has used. */
    method UnusedOptionsFor(origin: string) returns (r: set<Key>)
      ensures r == Unused(origins, usedOptions, origin)
    {
      r := set key | key in origins && origins[key] == origin && key !in usedOptions;
    }
  }

  lemma AllKeys(keys: seq<Key>, later: seq<Key>)
    ensures keys[0..] + later == keys + later && keys[..0] == []
  {
  }

  lemma NoKeys(keys: seq<Key>, later: seq<Key>)
    ensures keys[|keys|..] + later == later && keys[..|keys|] == keys
  {
  }

  lemma NextKey(keys: seq<Key>, later: seq<Key>, j: nat)
    requires j < |keys|
    ensures keys[j..] + later != [] && (keys[j..] + later)[0] == keys[j]
    ensures (keys[j..] + later)[1..] == keys[j + 1..] + later
  {
  }

  lemma MergeNext(doc: Document, prior: Document, x: Exclusions, keys: seq<Key>, later: seq<Key>, j: nat)
    requires j < |keys|
    ensures MergeKeys(MergeOne(doc, prior, x, keys[j]), prior, x, keys[j + 1..] + later)
         == MergeKeys(doc, prior, x, keys[j..] + later)
  {
    NextKey(keys, later, j);
  }

  lemma UsedNext(prior: Document, keys: seq<Key>, j: nat)
    requires j < |keys|
    ensures Used(prior, keys[..j + 1]) == Used(prior, keys[..j]) + Used(prior, [keys[j]])
  {
    assert keys[..j + 1] == keys[..j] + [keys[j]];
    UsedStep(prior, keys[..j], [keys[j]]);
  }

  lemma NextSection(doc: Document, sections: seq<string>, i: nat)
    requires i < |sections|
    ensures KeysOf(doc, sections[i..])
         == SectionKeys(sections[i], Sorted(Options(doc, sections[i]))) + KeysOf(doc, sections[i + 1..])
  {
    assert sections[i..][0] == sections[i] && sections[i..][1..] == sections[i + 1..];
  }

  lemma ListedExactly(doc: Document, section: string, option: string)
    ensures option in Options(doc, section) <==> HasOption(doc, section, option)
  {
    if FindSection(doc, section).Some? {
      OptionNamed(SectionAt(doc, FindSection(doc, section).value).body, option);
    }
  }

  lemma ListedOption(doc: Document, section: string, option: string)
    requires option in Sorted(Options(doc, section))
    ensures HasOption(doc, section, option)
  {
    SameMembers(Options(doc, section), option);
    ListedExactly(doc, section, option);
  }

  lemma MergeOneSameOptions(doc: Document, prior: Document, x: Exclusions, key: Key)
    requires HasOption(doc, key.0, key.1)
    ensures SameOptions(MergeOne(doc, prior, x, key), doc)
  {
    var doc' := MergeOne(doc, prior, x, key);
    forall s, o ensures HasOption(doc', s, o) <==> HasOption(doc, s, o) {
      MergeOneReads(doc, prior, x, key, (s, o));
    }
    forall s ensures Options(doc', s) == Options(doc, s) {
      SetKeepsOptions(doc, key.0, key.1, Get(prior, key.0, key.1), s);
    }
  }

  lemma {:induction false} ExcludedGood(doc: Document, origin: Option<string>)
    requires GoodDocument(doc)
    ensures GoodDocument(ExcludedNodes(doc, origin))
  {
    if doc != [] {
      assert GoodTop(doc[0]);
      assert GoodDocument(doc[1..]);
      ExcludedGood(doc[1..], origin);
    }
  }

  lemma {:induction false} DeletedGood(doc: Document)
    requires GoodDocument(doc)
    ensures GoodDocument(DeleteExcluded(doc, None))
  {
    if doc != [] {
      assert GoodTop(doc[0]);
      assert GoodDocument(doc[1..]);
      DeletedGood(doc[1..]);
    }
  }

  lemma {:induction false} CopiedGood(doc: Document, excluded: Document)
    requires GoodDocument(doc) && GoodDocument(excluded)
    ensures GoodDocument(CopyExcluded(doc, excluded))
    decreases |excluded|
  {
    if excluded != [] {
      assert GoodTop(excluded[0]);
      assert GoodDocument(excluded[1..]);
      CopiedGood(doc + (if doc != [] && !EndsWithSpace(doc) then [NEWLINE] else []) + [excluded[0]], excluded[1..]);
    }
  }
}
