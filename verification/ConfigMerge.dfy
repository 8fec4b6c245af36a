/** Carrying the values of an existing config over to a freshly generated one. */
module ConfigMerge {
  import opened Text
  import opened ConfigTree
  import opened ConfigLookup
  import opened ConfigEdit
  import opened ConfigValues
  import R = ConfigRemoval
  import G = ConfigGrammar

  type Key = (string, string)

  // ----------------------------------------------------------------------------------------- sorted names

  /** Python's order of strings, by character code. */
  predicate NotAfter(a: string, b: string) {
    a == "" || (b != "" && (a[0] < b[0] || (a[0] == b[0] && NotAfter(a[1..], b[1..]))))
  }

  function SortedInsert(x: string, xs: seq<string>): (r: seq<string>)
    ensures multiset(r) == multiset(xs) + multiset{x}
  {
    if xs == [] || NotAfter(x, xs[0]) then [x] + xs
    else
      assert xs == [xs[0]] + xs[1..];
      [xs[0]] + SortedInsert(x, xs[1..])
  }

  function Sorted(xs: seq<string>): (r: seq<string>)
    ensures multiset(r) == multiset(xs)
  {
    if xs == [] then []
    else
      assert xs == [xs[0]] + xs[1..];
      SortedInsert(xs[0], Sorted(xs[1..]))
  }

  lemma SameMembers(xs: seq<string>, x: string)
    ensures x in Sorted(xs) <==> x in xs
  {
    assert x in multiset(Sorted(xs)) <==> x in multiset(xs);
  }

  // ------------------------------------------------------------------------------------ the options merged

  /** Names of the sections outside exclusion blocks. */
  function IncludedSections(doc: Document): seq<string> {
    if doc == [] then []
    else
      (if doc[0].Plain? && doc[0].block.SectionBlock? then [doc[0].block.name] else []) + IncludedSections(doc[1..])
  }

  function OptionNames(body: seq<Item>): seq<string> {
    if body == [] then []
    else (if body[0].OptionItem? then [body[0].name] else []) + OptionNames(body[1..])
  }

  /** Names of the options a lookup in the section can find. */
  function Options(doc: Document, section: string): seq<string> {
    match FindSection(doc, section)
    case None => []
    case Some(r) => OptionNames(SectionAt(doc, r).body)
  }

  datatype Exclusions = Exclusions(params: seq<string>, vars: seq<Key>)

  /** Both lists empty: every previous value wins. */
  const REFRESH := Exclusions([], [])

  predicate InVarSection(x: Exclusions, section: string) {
    exists i | 0 <= i < |x.vars| :: x.vars[i].0 == section
  }

  /** Whether the previous value of an option that both configs have is restored. */
  predicate Restores(x: Exclusions, section: string, option: string) {
    var isGcode := "gcode" <= option;
    var isExcludedVar := (section, option) in x.vars;
    var isExcludedParam := !("gcode_macro" <= section) && option in x.params;
    !isGcode && !isExcludedVar && (InVarSection(x, section) || !isExcludedParam)
  }

  function MergeOne(doc: Document, prior: Document, x: Exclusions, key: Key): Document {
    if HasOption(prior, key.0, key.1) && Restores(x, key.0, key.1) then
      match Set(doc, key.0, key.1, Get(prior, key.0, key.1)) case Some(d) => d case None => doc
    else doc
  }

  function MergeKeys(doc: Document, prior: Document, x: Exclusions, keys: seq<Key>): Document
    decreases |keys|
  {
    if keys == [] then doc else MergeKeys(MergeOne(doc, prior, x, keys[0]), prior, x, keys[1..])
  }

  function SectionKeys(section: string, options: seq<string>): (r: seq<Key>)
    ensures |r| == |options| && forall i | 0 <= i < |r| :: r[i] == (section, options[i])
  {
    if options == [] then [] else [(section, options[0])] + SectionKeys(section, options[1..])
  }

  function KeysOf(doc: Document, sections: seq<string>): seq<Key> {
    if sections == [] then []
    else SectionKeys(sections[0], Sorted(Options(doc, sections[0]))) + KeysOf(doc, sections[1..])
  }

  /** The options visited by the merge, in its order. */
  function MergedKeys(doc: Document): seq<Key> {
    KeysOf(doc, Sorted(IncludedSections(doc)))
  }

  function Merged(doc: Document, prior: Document, x: Exclusions): Document {
    MergeKeys(doc, prior, x, MergedKeys(doc))
  }

  // --------------------------------------------------------------------------------- what is visited

  lemma {:induction false} OptionNamed(body: seq<Item>, name: string)
    ensures name in OptionNames(body) <==> FindOption(body, name).Some?
  {
    if body != [] {
      OptionNamed(body[1..], name);
      if FindOption(body[1..], name).Some? {
        assert IsOption(body[1 + FindOption(body[1..], name).value], name);
      } else {
        assert forall m | 1 <= m < |body| :: body[m] == body[1..][m - 1];
      }
    }
  }

  lemma {:induction false} KeysAre(doc: Document, sections: seq<string>, key: Key)
    ensures key in KeysOf(doc, sections) <==> key.0 in sections && HasOption(doc, key.0, key.1)
  {
    if sections != [] {
      var head := SectionKeys(sections[0], Sorted(Options(doc, sections[0])));
      KeysAre(doc, sections[1..], key);
      assert key in KeysOf(doc, sections) <==> key in head || key in KeysOf(doc, sections[1..]);
      SameMembers(Options(doc, sections[0]), key.1);
      if key.0 == sections[0] {
        if FindSection(doc, key.0).Some? {
          OptionNamed(SectionAt(doc, FindSection(doc, key.0).value).body, key.1);
        }
        if key.1 in Sorted(Options(doc, key.0)) {
          var i :| 0 <= i < |Sorted(Options(doc, key.0))| && Sorted(Options(doc, key.0))[i] == key.1;
          assert head[i] == key;
        }
      }
    }
  }

  /** The merge visits exactly the options that can be found in a section outside the exclusion blocks. */
  lemma MergedKeysAre(doc: Document, key: Key)
    ensures key in MergedKeys(doc) <==> key.0 in IncludedSections(doc) && HasOption(doc, key.0, key.1)
  {
    KeysAre(doc, Sorted(IncludedSections(doc)), key);
    SameMembers(IncludedSections(doc), key.0);
  }

  // ----------------------------------------------------------------------------------- reading the result

  /** The template's value can be replaced by `v`: it has text or layout but no placeholder, or it is empty and
      `v` is read as a whole without one. */
  ghost predicate Restorable(lines: seq<Line>, v: string) {
    && GoodLines(lines) && AllSlotFree(lines)
    && (lines == [] && v != "" ==> PlainValue(v) && AllSlotFree(G.ParseValue(v, false).value))
  }

  function OldValue(prior: Document, key: Key): string {
    match Get(prior, key.0, key.1) case None => "" case Some(v) => v
  }

  /** What an option reads as once `v` is restored: an empty value written to an empty option stays missing. */
  function Restored(lines: seq<Line>, v: string): Option<string> {
    if lines == [] && v == "" then None else Some(v)
  }

  lemma OldValueStripped(prior: Document, key: Key)
    ensures Strip(OldValue(prior, key)) == OldValue(prior, key)
  {
    if Get(prior, key.0, key.1).Some? {
      var raw := LinesValue(LookUp(prior, key.0, key.1).value.lines);
      StripInk(raw);
    }
    StripPadded("", OldValue(prior, key), "");
    assert "" + OldValue(prior, key) + "" == OldValue(prior, key);
  }

  /** Writing once: the value reads back, and writing it again would change nothing that is read. */
  lemma NewLinesRestored(lines: seq<Line>, v: string)
    requires Restorable(lines, v) && Stripped(v)
    ensures var r := NewLines(lines, v);
            && Restorable(r, v) && Restored(r, v) == Restored(lines, v)
            && (if r == [] then None else Some(Strip(LinesValue(r)))) == Restored(lines, v)
  {
    if lines == [] {
      ParsedReadsBack(v);
      ParsedValueGood(v, false);
    } else {
      GoodReplaceable(lines);
      RewriteReadsBack(lines, v);
      RewriteGood(lines, v);
    }
  }

  /** One restored option, everything else untouched. */
  lemma MergeOneReads(doc: Document, prior: Document, x: Exclusions, key: Key, other: Key)
    requires HasOption(doc, key.0, key.1)
    ensures var doc' := MergeOne(doc, prior, x, key);
            && (HasOption(doc', other.0, other.1) <==> HasOption(doc, other.0, other.1))
            && (if other == key && HasOption(prior, key.0, key.1) && Restores(x, key.0, key.1) then
                  LookUp(doc', key.0, key.1).value.lines ==
                    NewLines(LookUp(doc, key.0, key.1).value.lines, OldValue(prior, key))
                else LookUp(doc', other.0, other.1) == LookUp(doc, other.0, other.1))
  {
    if HasOption(prior, key.0, key.1) && Restores(x, key.0, key.1) {
      OldValueStripped(prior, key);
      SetTarget(doc, key.0, key.1, Get(prior, key.0, key.1));
      if other != key {
        SetKeepsOthers(doc, key.0, key.1, Get(prior, key.0, key.1), other.0, other.1);
      }
    }
  }

  ghost predicate AllRestorable(doc: Document, prior: Document, x: Exclusions, keys: seq<Key>) {
    forall i | 0 <= i < |keys| ::
      var key := keys[i];
      && HasOption(doc, key.0, key.1)
      && (HasOption(prior, key.0, key.1) && Restores(x, key.0, key.1) ==>
            Restorable(LookUp(doc, key.0, key.1).value.lines, OldValue(prior, key)))
  }

  ghost predicate IsRestored(prior: Document, x: Exclusions, keys: seq<Key>, key: Key) {
    key in keys && HasOption(prior, key.0, key.1) && Restores(x, key.0, key.1)
  }

  lemma MergeOneRestorable(doc: Document, prior: Document, x: Exclusions, keys: seq<Key>)
    requires keys != [] && AllRestorable(doc, prior, x, keys)
    ensures AllRestorable(MergeOne(doc, prior, x, keys[0]), prior, x, keys[1..])
  {
    var doc' := MergeOne(doc, prior, x, keys[0]);
    assert HasOption(doc, keys[0].0, keys[0].1);
    forall i | 0 <= i < |keys[1..]|
      ensures var key := keys[1..][i];
              && HasOption(doc', key.0, key.1)
              && (HasOption(prior, key.0, key.1) && Restores(x, key.0, key.1) ==>
                    Restorable(LookUp(doc', key.0, key.1).value.lines, OldValue(prior, key)))
    {
      var key := keys[1..][i];
      assert keys[i + 1] == key;
      MergeOneReads(doc, prior, x, keys[0], key);
      if key == keys[0] && HasOption(prior, key.0, key.1) && Restores(x, key.0, key.1) {
        OldValueIsStripped(prior, key);
        NewLinesRestored(LookUp(doc, key.0, key.1).value.lines, OldValue(prior, key));
      }
    }
  }

  lemma OldValueIsStripped(prior: Document, key: Key)
    ensures Stripped(OldValue(prior, key))
  {
    OldValueStripped(prior, key);
    StripInk(OldValue(prior, key));
  }

  /** After merging any list of options, each restored one reads as the old value, every other option of any
      section as the template's. */
  lemma {:induction false} MergeKeysReads(doc: Document, prior: Document, x: Exclusions, keys: seq<Key>, key: Key)
    requires AllRestorable(doc, prior, x, keys)
    ensures var doc' := MergeKeys(doc, prior, x, keys);
            if IsRestored(prior, x, keys, key) then
              && HasOption(doc', key.0, key.1)
              && Get(doc', key.0, key.1) == Restored(LookUp(doc, key.0, key.1).value.lines, OldValue(prior, key))
              && Restorable(LookUp(doc', key.0, key.1).value.lines, OldValue(prior, key))
              && Restored(LookUp(doc', key.0, key.1).value.lines, OldValue(prior, key))
                 == Restored(LookUp(doc, key.0, key.1).value.lines, OldValue(prior, key))
            else LookUp(doc', key.0, key.1) == LookUp(doc, key.0, key.1)
    decreases |keys|
  {
    if keys != [] {
      var next := MergeOne(doc, prior, x, keys[0]);
      assert HasOption(doc, keys[0].0, keys[0].1);
      MergeOneRestorable(doc, prior, x, keys);
      MergeKeysReads(next, prior, x, keys[1..], key);
      MergeOneReads(doc, prior, x, keys[0], key);
      if key == keys[0] && HasOption(prior, key.0, key.1) && Restores(x, key.0, key.1) {
        OldValueIsStripped(prior, key);
        NewLinesRestored(LookUp(doc, key.0, key.1).value.lines, OldValue(prior, key));
      }
    }
  }

  /** In refresh mode every option but gcode is restored. */
  lemma RefreshRestores(section: string, option: string)
    ensures Restores(REFRESH, section, option) <==> !("gcode" <= option)
  {
  }

  // -------------------------------------------------------------------------------------- merging twice

  lemma {:induction false} IncludedNames(doc: Document, i: nat, top: Top)
    requires i < |doc|
    requires top.Plain? && top.block.SectionBlock? <==> doc[i].Plain? && doc[i].block.SectionBlock?
    requires top.Plain? && top.block.SectionBlock? ==> top.block.name == doc[i].block.name
    ensures IncludedSections(doc[i := top]) == IncludedSections(doc)
  {
    if i > 0 {
      IncludedNames(doc[1..], i - 1, top);
      assert doc[i := top][1..] == doc[1..][i - 1 := top];
    } else {
      assert doc[i := top][1..] == doc[1..];
    }
  }

  lemma {:induction false} MergeKeepsSections(doc: Document, prior: Document, x: Exclusions, keys: seq<Key>)
    ensures IncludedSections(MergeKeys(doc, prior, x, keys)) == IncludedSections(doc)
    decreases |keys|
  {
    if keys != [] {
      var next := MergeOne(doc, prior, x, keys[0]);
      if FindSection(doc, keys[0].0).Some? {
        var r := FindSection(doc, keys[0].0).value;
        IncludedNames(doc, r.i, next[r.i]);
        assert next == doc[r.i := next[r.i]];
      }
      MergeKeepsSections(next, prior, x, keys[1..]);
    }
  }

  /** A template the values of `prior` can be restored to. */
  ghost predicate Mergeable(doc: Document, prior: Document, x: Exclusions) {
    AllRestorable(doc, prior, x, MergedKeys(doc))
  }

  /** No option of the document holds a placeholder. */
  ghost predicate PlaceholderFree(doc: Document) {
    forall s, o | HasOption(doc, s, o) :: AllSlotFree(LookUp(doc, s, o).value.lines)
  }

  /** A value that an option without one takes: none, or one that is read as a whole and without a placeholder. */
  ghost predicate TakenWhole(v: string) {
    v == "" || (PlainValue(v) && AllSlotFree(G.ParseValue(v, false).value))
  }

  /** The option is restored and the template has no value for it. */
  ghost predicate FillsEmpty(doc: Document, prior: Document, x: Exclusions, key: Key) {
    IsRestored(prior, x, MergedKeys(doc), key)
    && HasOption(doc, key.0, key.1) && LookUp(doc, key.0, key.1).value.lines == []
  }

  /** A parsed or edited template without placeholders takes any values wherever it has a value itself, and so all
      values exactly when those for its empty options are read as a whole. */
  lemma PlaceholderFreeMergeable(doc: Document, prior: Document, x: Exclusions)
    requires GoodDocument(doc) && PlaceholderFree(doc)
    ensures Mergeable(doc, prior, x) <==>
              forall key | key in MergedKeys(doc) && FillsEmpty(doc, prior, x, key) :: TakenWhole(OldValue(prior, key))
  {
    var keys := MergedKeys(doc);
    forall i | 0 <= i < |keys|
      ensures HasOption(doc, keys[i].0, keys[i].1)
      ensures var lines := LookUp(doc, keys[i].0, keys[i].1).value.lines;
              Restorable(lines, OldValue(prior, keys[i])) <==> lines != [] || TakenWhole(OldValue(prior, keys[i]))
    {
      MergedKeysAre(doc, keys[i]);
      LookUpGood(doc, keys[i].0, keys[i].1);
    }
    if Mergeable(doc, prior, x) {
      forall key | key in keys && FillsEmpty(doc, prior, x, key) ensures TakenWhole(OldValue(prior, key)) {
        var i :| 0 <= i < |keys| && keys[i] == key;
      }
    }
  }

  lemma LookUpGood(doc: Document, section: string, option: string)
    requires GoodDocument(doc) && HasOption(doc, section, option)
    ensures GoodLines(LookUp(doc, section, option).value.lines)
  {
    var r := FindSection(doc, section).value;
    SectionAtGood(doc, r);
    var body := SectionAt(doc, r).body;
    assert GoodItem(body[FindOption(body, option).value]);
  }

  /** Reading after a merge: restored options as in the previous config, all others as in the template. */
  lemma MergedReads(doc: Document, prior: Document, x: Exclusions, key: Key)
    requires Mergeable(doc, prior, x)
    ensures var restored := key.0 in IncludedSections(doc) && HasOption(doc, key.0, key.1)
                            && HasOption(prior, key.0, key.1) && Restores(x, key.0, key.1);
            var doc' := Merged(doc, prior, x);
            && (restored ==>
                  Get(doc', key.0, key.1) == Restored(LookUp(doc, key.0, key.1).value.lines, OldValue(prior, key)))
            && (!restored ==> LookUp(doc', key.0, key.1) == LookUp(doc, key.0, key.1))
  {
    MergedKeysAre(doc, key);
    MergeKeysReads(doc, prior, x, MergedKeys(doc), key);
  }

  /** In refresh mode: every included option but gcode that both have and that has a value reads as the previous
      value; every other option reads as the template's. */
  lemma RefreshReads(doc: Document, prior: Document, section: string, option: string)
    requires Mergeable(doc, prior, REFRESH)
    ensures var doc' := Merged(doc, prior, REFRESH);
            if section in IncludedSections(doc) && HasOption(doc, section, option)
               && HasOption(prior, section, option) && !("gcode" <= option) then
              Get(prior, section, option).Some? && Get(prior, section, option).value != "" ==>
                Get(doc', section, option) == Get(prior, section, option)
            else Get(doc', section, option) == Get(doc, section, option)
  {
    RefreshRestores(section, option);
    MergedReads(doc, prior, REFRESH, (section, option));
  }

  /** A listed variable; or a listed parameter outside the macros, in a section of which no variable is listed. */
  predicate HeldBack(x: Exclusions, key: Key) {
    || key in x.vars
    || (key.1 in x.params && !("gcode_macro" <= key.0) && forall i | 0 <= i < |x.vars| :: x.vars[i].0 != key.0)
  }

  /** What is restored is what the lists do not hold back, gcode apart. */
  lemma RestoresIs(x: Exclusions, key: Key)
    ensures Restores(x, key.0, key.1) <==> !("gcode" <= key.1) && !HeldBack(x, key)
  {
  }

  lemma {:induction false} MergeKeysKeeps(doc: Document, prior: Document, x: Exclusions, keys: seq<Key>, key: Key)
    requires forall i | 0 <= i < |keys| :: HasOption(doc, keys[i].0, keys[i].1)
    requires !Restores(x, key.0, key.1) || !HasOption(prior, key.0, key.1)
    ensures LookUp(MergeKeys(doc, prior, x, keys), key.0, key.1) == LookUp(doc, key.0, key.1)
    decreases |keys|
  {
    if keys != [] {
      var next := MergeOne(doc, prior, x, keys[0]);
      forall i | 0 <= i < |keys[1..]| ensures HasOption(next, keys[1..][i].0, keys[1..][i].1) {
        assert keys[1..][i] == keys[i + 1];
        MergeOneReads(doc, prior, x, keys[0], keys[i + 1]);
      }
      MergeKeysKeeps(next, prior, x, keys[1..], key);
      MergeOneReads(doc, prior, x, keys[0], key);
    }
  }

  /** Whatever the two configs hold: an option the lists hold back, gcode, and an option the previous config does
      not have are the template's after a merge. */
  lemma HeldBackStays(doc: Document, prior: Document, x: Exclusions, key: Key)
    requires HeldBack(x, key) || "gcode" <= key.1 || !HasOption(prior, key.0, key.1)
    ensures LookUp(Merged(doc, prior, x), key.0, key.1) == LookUp(doc, key.0, key.1)
  {
    RestoresIs(x, key);
    forall i | 0 <= i < |MergedKeys(doc)| ensures HasOption(doc, MergedKeys(doc)[i].0, MergedKeys(doc)[i].1) {
      MergedKeysAre(doc, MergedKeys(doc)[i]);
    }
    MergeKeysKeeps(doc, prior, x, MergedKeys(doc), key);
  }

  /** Every other included option that both have reads as the previous config's; an old value that is empty or
      missing empties the option. */
  lemma OthersAreRestored(doc: Document, prior: Document, x: Exclusions, key: Key)
    requires Mergeable(doc, prior, x)
    requires !HeldBack(x, key) && !("gcode" <= key.1)
    requires key.0 in IncludedSections(doc) && HasOption(doc, key.0, key.1) && HasOption(prior, key.0, key.1)
    ensures var value := Get(prior, key.0, key.1);
            Get(Merged(doc, prior, x), key.0, key.1)
            == if value.Some? && value.value != "" then value
               else if LookUp(doc, key.0, key.1).value.lines == [] then None else Some("")
  {
    RestoresIs(x, key);
    MergedReads(doc, prior, x, key);
  }

  lemma MergedMergeable(doc: Document, prior: Document, x: Exclusions)
    requires Mergeable(doc, prior, x)
    ensures Mergeable(Merged(doc, prior, x), prior, x)
  {
    var doc' := Merged(doc, prior, x);
    var keys := MergedKeys(doc');
    MergeKeepsSections(doc, prior, x, MergedKeys(doc));
    forall i | 0 <= i < |keys|
      ensures var key := keys[i];
              && HasOption(doc', key.0, key.1)
              && (HasOption(prior, key.0, key.1) && Restores(x, key.0, key.1) ==>
                    Restorable(LookUp(doc', key.0, key.1).value.lines, OldValue(prior, key)))
    {
      var key := keys[i];
      assert key in keys;
      MergedKeysAre(doc', key);
      MergedKeysAre(doc, key);
      MergeKeysReads(doc, prior, x, MergedKeys(doc), key);
    }
  }

  /** Merging the result with the same previous config changes nothing that is read. */
  lemma MergeIsIdempotent(doc: Document, prior: Document, x: Exclusions, key: Key)
    requires Mergeable(doc, prior, x)
    ensures var once := Merged(doc, prior, x);
            Get(Merged(once, prior, x), key.0, key.1) == Get(once, key.0, key.1)
  {
    var once := Merged(doc, prior, x);
    MergedMergeable(doc, prior, x);
    MergeKeepsSections(doc, prior, x, MergedKeys(doc));
    MergedReads(once, prior, x, key);
    MergedKeysAre(doc, key);
    MergeKeysReads(doc, prior, x, MergedKeys(doc), key);
  }

  // ------------------------------------------------------------------------------------- exclusion blocks

  predicate IsExclusionOf(top: Top, origin: Option<string>) {
    top.Exclusion? && (origin.None? || top.origin == origin)
  }

  /** `excluded_nodes`, of one file or of all. */
  function ExcludedNodes(doc: Document, origin: Option<string>): Document {
    if doc == [] then []
    else (if IsExclusionOf(doc[0], origin) then [doc[0]] else []) + ExcludedNodes(doc[1..], origin)
  }

  function DeleteExcluded(doc: Document, origin: Option<string>): Document {
    if doc == [] then []
    else (if IsExclusionOf(doc[0], origin) then [] else [doc[0]]) + DeleteExcluded(doc[1..], origin)
  }

  const NEWLINE := Plain(ItemBlock(SpaceItem("\n")))

  predicate EndsWithSpace(doc: Document) {
    doc != [] && var last := doc[|doc| - 1]; last.Plain? && last.block.ItemBlock? && last.block.item.SpaceItem?
  }

  function CopyExcluded(doc: Document, excluded: Document): Document
    decreases |excluded|
  {
    if excluded == [] then doc
    else
      CopyExcluded(doc + (if doc != [] && !EndsWithSpace(doc) then [NEWLINE] else []) + [excluded[0]], excluded[1..])
  }

  /** Whether exclusion blocks are carried over: both configs have some. */
  predicate Carries(merged: Document, prior: Document, origin: Option<string>) {
    ExcludedNodes(prior, origin) != [] && ExcludedNodes(merged, None) != []
  }

  /** `update_builder` */
  function Updated(doc: Document, prior: Document, x: Exclusions, origin: Option<string>): Document {
    var merged := Merged(doc, prior, x);
    if Carries(merged, prior, origin) then CopyExcluded(DeleteExcluded(merged, None), ExcludedNodes(prior, origin))
    else merged
  }

  lemma {:induction false} CopyExcludedLast(doc: Document, excluded: Document, name: string)
    ensures R.LastSection(CopyExcluded(doc, excluded), name) ==
              if R.LastSection(excluded, name).Some? then R.LastSection(excluded, name) else R.LastSection(doc, name)
    decreases |excluded|
  {
    if excluded != [] {
      var gap := if doc != [] && !EndsWithSpace(doc) then [NEWLINE] else [];
      CopyExcludedLast(doc + gap + [excluded[0]], excluded[1..], name);
      R.LastSectionAppend(doc + gap, [excluded[0]], name);
      R.LastSectionAppend(doc, gap, name);
      assert R.LastSection(gap, name).None? by {
        if gap != [] {
          assert gap[1..] == [];
        }
      }
      assert R.LastSection([excluded[0]], name) == R.LastOfTop(excluded[0], name) by {
        assert [excluded[0]][1..] == [];
      }
    }
  }

  /** No exclusion block has a section of the name. */
  ghost predicate OnlyIncluded(doc: Document, name: string) {
    forall i | 0 <= i < |doc| && doc[i].Exclusion? :: R.LastOfTop(doc[i], name).None?
  }

  lemma {:induction false} DeleteExcludedLast(doc: Document, name: string)
    requires OnlyIncluded(doc, name)
    ensures R.LastSection(DeleteExcluded(doc, None), name) == R.LastSection(doc, name)
  {
    if doc != [] {
      assert OnlyIncluded(doc[1..], name) by {
        assert forall i | 0 <= i < |doc[1..]| :: doc[1..][i] == doc[i + 1];
      }
      DeleteExcludedLast(doc[1..], name);
      if doc[0].Exclusion? {
        assert DeleteExcluded(doc, None) == DeleteExcluded(doc[1..], None);
        assert R.LastOfTop(doc[0], name).None?;
      } else {
        assert DeleteExcluded(doc, None)[1..] == DeleteExcluded(doc[1..], None);
      }
    }
  }

  lemma {:induction false} MergeKeepsOnlyIncluded(doc: Document, prior: Document, x: Exclusions, keys: seq<Key>,
                                                  name: string)
    requires OnlyIncluded(doc, name)
    ensures OnlyIncluded(MergeKeys(doc, prior, x, keys), name)
    decreases |keys|
  {
    if keys != [] {
      var next := MergeOne(doc, prior, x, keys[0]);
      if HasOption(prior, keys[0].0, keys[0].1) && Restores(x, keys[0].0, keys[0].1)
         && FindSection(doc, keys[0].0).Some? {
        var r := FindSection(doc, keys[0].0).value;
        var v := OldValue(prior, keys[0]);
        var body := EditedBody(SectionAt(doc, r).body, keys[0].1, Strip(v));
        forall i | 0 <= i < |next| && next[i].Exclusion? ensures R.LastOfTop(next[i], name).None? {
          assert next == WithBody(doc, r, body);
          WithBodyTop(doc, r, body, i, name);
          R.LastOfTopIs(next[i], i, name);
          R.LastOfTopIs(doc[i], i, name);
        }
      }
      MergeKeepsOnlyIncluded(next, prior, x, keys[1..], name);
    }
  }

  /** The document has an exclusion block, of that file if one is named. */
  predicate HasBlock(doc: Document, origin: Option<string>) {
    exists i | 0 <= i < |doc| :: doc[i].Exclusion? && (origin.None? || doc[i].origin == origin)
  }

  lemma {:induction false} ExcludedIs(doc: Document, origin: Option<string>)
    ensures ExcludedNodes(doc, origin) != [] <==> HasBlock(doc, origin)
  {
    if doc != [] {
      ExcludedIs(doc[1..], origin);
      if HasBlock(doc[1..], origin) {
        var i :| 0 <= i < |doc[1..]| && doc[1..][i].Exclusion? && (origin.None? || doc[1..][i].origin == origin);
        assert doc[i + 1] == doc[1..][i];
      }
      if HasBlock(doc, origin) {
        var i :| 0 <= i < |doc| && doc[i].Exclusion? && (origin.None? || doc[i].origin == origin);
        assert i > 0 ==> doc[1..][i - 1] == doc[i];
      }
    }
  }

  lemma {:induction false} MergeKeepsBlocks(doc: Document, prior: Document, x: Exclusions, keys: seq<Key>)
    ensures |MergeKeys(doc, prior, x, keys)| == |doc|
    ensures forall i | 0 <= i < |doc| :: MergeKeys(doc, prior, x, keys)[i].Exclusion? <==> doc[i].Exclusion?
    decreases |keys|
  {
    if keys != [] {
      MergeKeepsBlocks(MergeOne(doc, prior, x, keys[0]), prior, x, keys[1..]);
    }
  }

  /** Blocks are carried over exactly when the previous config has one of the file and the template has any. */
  lemma CarriesIs(doc: Document, prior: Document, x: Exclusions, origin: Option<string>)
    ensures Carries(Merged(doc, prior, x), prior, origin) <==> HasBlock(prior, origin) && HasBlock(doc, None)
  {
    var merged := Merged(doc, prior, x);
    ExcludedIs(prior, origin);
    ExcludedIs(merged, None);
    MergeKeepsBlocks(doc, prior, x, MergedKeys(doc));
    if HasBlock(doc, None) {
      var i :| 0 <= i < |doc| && doc[i].Exclusion?;
      assert merged[i].Exclusion?;
    }
  }

  /** Reading after exclusion blocks were carried over: a block carried over that has the section takes its place in
      every lookup; if none has, the section reads as merged outside the template's own blocks, which are gone. */
  lemma UpdatedReads(doc: Document, prior: Document, x: Exclusions, origin: Option<string>, section: string,
                     option: string)
    ensures var merged := Merged(doc, prior, x);
            var shadow := R.LastSection(ExcludedNodes(prior, origin), section);
            && (shadow.Some? ==> shadow.value.SectionBlock?)
            && LookUp(Updated(doc, prior, x, origin), section, option) ==
                 (if !(HasBlock(prior, origin) && HasBlock(doc, None)) then LookUp(merged, section, option)
                  else if shadow.Some? then R.OptionOf(shadow, option)
                  else LookUp(DeleteExcluded(merged, None), section, option))
            && (OnlyIncluded(doc, section) ==>
                  LookUp(DeleteExcluded(merged, None), section, option) == LookUp(merged, section, option))
  {
    var merged := Merged(doc, prior, x);
    var excluded := ExcludedNodes(prior, origin);
    R.LookUpIs(excluded, section, option);
    R.LookUpIs(Updated(doc, prior, x, origin), section, option);
    R.LookUpIs(merged, section, option);
    R.LookUpIs(DeleteExcluded(merged, None), section, option);
    CarriesIs(doc, prior, x, origin);
    if Carries(merged, prior, origin) {
      CopyExcludedLast(DeleteExcluded(merged, None), excluded, section);
    }
    if OnlyIncluded(doc, section) {
      MergeKeepsOnlyIncluded(doc, prior, x, MergedKeys(doc), section);
      DeleteExcludedLast(merged, section);
    }
  }
}
