/** Building the ownership registry (`ArrManager.build_arr_instances`, `_validate_category_assignments`). */
module ArrManagers {
  import opened CategoryPaths
  import opened PythonStrings
  import opened CategoryOwnership

  /** An Arr's category: the configured one in canonical form, else its trimmed text, else the section name. */
  function ArrCategory(config: Config, name: string): string {
    var raw := if name in config.category then config.category[name] else name;
    if NormalizeCategory(raw) != "" then NormalizeCategory(raw)
    else if Strip(raw) != "" then Strip(raw)
    else name
  }

  /**
   In terms of segments: the canonical form of the configured category, or of
   the section name if none is configured.  Text of separators alone is kept
   as it is, and a blank one gives way to the section name.
   */
  lemma ArrCategoryMeans(config: Config, name: string)
    ensures var raw := if name in config.category then config.category[name] else name;
            if SplitCategory(raw) != []
            then Normal(ArrCategory(config, name)) && SplitCategory(ArrCategory(config, name)) == SplitCategory(raw)
            else ArrCategory(config, name) == if Blank(raw) then name else Strip(raw)
  {
    var raw := if name in config.category then config.category[name] else name;
    SplitCategoryCanonical(raw);
    NormalizeIdempotent(raw);
    BlankStripsAway(raw);
  }

  predicate IsBuilt(config: Config, builds: set<string>, name: string) {
    name in config.sections && IsArrSection(name) && name in builds
  }

  /** Categories of those of the given sections that are Arrs whose worker could be built. */
  function ArrCategoriesIn(config: Config, builds: set<string>, sections: seq<string>): set<string> {
    set s | s in sections && IsArrSection(s) && s in builds :: ArrCategory(config, s)
  }

  function ArrCategories(config: Config, builds: set<string>): set<string> {
    ArrCategoriesIn(config, builds, config.sections)
  }

  function SectionCategories(config: Config, section: string): set<string> {
    if IsQbitSection(section) && section in config.managedCategories
    then NormalNames(config.managedCategories[section]) else {}
  }

  function QbitCategoriesIn(config: Config, sections: seq<string>): set<string> {
    set s, c | s in sections && c in SectionCategories(config, s) :: c
  }

  function QbitCategories(config: Config): set<string> {
    QbitCategoriesIn(config, config.sections)
  }

  lemma CategoriesStep(config: Config, builds: set<string>, sections: seq<string>, k: nat)
    requires k < |sections|
    ensures QbitCategoriesIn(config, sections[..k + 1]) ==
            QbitCategoriesIn(config, sections[..k]) + SectionCategories(config, sections[k])
    ensures ArrCategoriesIn(config, builds, sections[..k + 1]) ==
            ArrCategoriesIn(config, builds, sections[..k]) +
            if IsArrSection(sections[k]) && sections[k] in builds then {ArrCategory(config, sections[k])} else {}
  {
    assert sections[..k + 1] == sections[..k] + [sections[k]];
  }

  predicate HasQbitSection(config: Config) {
    exists i :: 0 <= i < |config.sections| && IsQbitSection(config.sections[i])
  }

  /** The Arr workers by category; a later section replaces an earlier one with the same category. */
  function RegisteredArrs(config: Config, builds: set<string>, sections: seq<string>): map<string, Managed> {
    if |sections| == 0 then map[]
    else
      var name := sections[|sections| - 1];
      var before := RegisteredArrs(config, builds, sections[..|sections| - 1]);
      if IsArrSection(name) && name in builds
      then before[ArrCategory(config, name) := Arr(name, ArrCategory(config, name))]
      else before
  }

  predicate FiledUnder(config: Config, builds: set<string>, k: string, m: Managed) {
    m.Arr? && m.category == k && m.name != "" && IsBuilt(config, builds, m.name) && ArrCategory(config, m.name) == k
  }

  lemma {:induction false} RegisteredArrsKeys(config: Config, builds: set<string>, sections: seq<string>)
    ensures RegisteredArrs(config, builds, sections).Keys == ArrCategoriesIn(config, builds, sections)
  {
    if |sections| > 0 {
      var n := |sections| - 1;
      RegisteredArrsKeys(config, builds, sections[..n]);
      CategoriesStep(config, builds, sections, n);
      assert sections[..n + 1] == sections;
    }
  }

  ghost predicate AllFiled(config: Config, builds: set<string>, m: map<string, Managed>) {
    forall k :: k in m ==> FiledUnder(config, builds, k, m[k])
  }

  lemma {:induction false} RegisteredArrsFiled(config: Config, builds: set<string>, sections: seq<string>)
    requires forall s <- sections :: s in config.sections
    ensures AllFiled(config, builds, RegisteredArrs(config, builds, sections))
  {
    if |sections| > 0 {
      var n := |sections| - 1;
      RegisteredArrsFiled(config, builds, sections[..n]);
      var name := sections[n];
      assert name in sections;
      if IsArrSection(name) && name in builds {
        assert |name| >= 5;
        assert FiledUnder(config, builds, ArrCategory(config, name), Arr(name, ArrCategory(config, name)));
      }
    }
  }

  /** Of several built sections with one category the last is registered. */
  lemma {:induction false} LastIsRegistered(config: Config, builds: set<string>, sections: seq<string>, k: string)
    ensures k in RegisteredArrs(config, builds, sections) ==>
              exists i :: 0 <= i < |sections| && IsArrSection(sections[i]) && sections[i] in builds &&
                          RegisteredArrs(config, builds, sections)[k] == Arr(sections[i], k) &&
                          ArrCategory(config, sections[i]) == k &&
                          forall j :: i < j < |sections| && IsArrSection(sections[j]) && sections[j] in builds ==>
                                        ArrCategory(config, sections[j]) != k
  {
    hide IsArrSection, ArrCategory;
    if |sections| > 0 {
      var n := |sections| - 1;
      var before := sections[..n];
      LastIsRegistered(config, builds, before, k);
      if k in RegisteredArrs(config, builds, sections) {
        if IsArrSection(sections[n]) && sections[n] in builds && ArrCategory(config, sections[n]) == k {
          assert RegisteredArrs(config, builds, sections)[k] == Arr(sections[n], k);
        } else {
          var i :| 0 <= i < n && IsArrSection(before[i]) && before[i] in builds &&
                   RegisteredArrs(config, builds, before)[k] == Arr(before[i], k) &&
                   ArrCategory(config, before[i]) == k &&
                   forall j :: i < j < n && IsArrSection(before[j]) && before[j] in builds ==>
                                 ArrCategory(config, before[j]) != k;
          assert sections[i] == before[i];
        }
      }
    }
  }

  class ArrManager {
    const config: Config
    const specialCategories: set<string>
    var arrCategories: set<string>
    var qbitManagedCategories: set<string>
    var prefixOwners: set<string>
    var managedObjects: map<string, Managed>

    constructor (config: Config, specialCategories: set<string>)
      ensures this.config == config && this.specialCategories == specialCategories
      ensures managedObjects == map[] && arrCategories == {}
    {
      this.config := config;
      this.specialCategories := specialCategories;
      arrCategories := {};
      qbitManagedCategories := {};
      prefixOwners := {};
      managedObjects := map[];
    }

    function ToRegistry(): Registry
      reads this
    {
      Registry(config, managedObjects, prefixOwners)
    }

    /** Fails exactly on a category claimed by both an Arr and a qBit section. */
    method ValidateCategoryAssignments() returns (ok: bool)
      modifies `qbitManagedCategories, `prefixOwners
      ensures qbitManagedCategories == QbitCategories(config)
      ensures ok <==> arrCategories !! qbitManagedCategories
      ensures ok ==> prefixOwners == arrCategories + qbitManagedCategories
    {
      qbitManagedCategories := {};
      prefixOwners := {};
      for k := 0 to |config.sections|
        invariant qbitManagedCategories == QbitCategoriesIn(config, config.sections[..k])
        modifies `qbitManagedCategories
      {
        var section := config.sections[k];
        CategoriesStep(config, {}, config.sections, k);
        if IsQbitSection(section) {
          if section in config.managedCategories {
            var managed := CollectNames(config.managedCategories[section], true);
            assert (set c | c in managed) == SectionCategories(config, section);
            qbitManagedCategories := qbitManagedCategories + (set c | c in managed);
          }
        }
      }
      assert config.sections[..|config.sections|] == config.sections;
      if arrCategories * qbitManagedCategories != {} {
        return false;
      }
      prefixOwners := prefixOwners + arrCategories;
      prefixOwners := prefixOwners + qbitManagedCategories;
      ok := true;
    }

    method RegisterArrs(builds: set<string>)
      requires managedObjects == map[] && arrCategories == {}
      modifies `arrCategories, `managedObjects
      ensures managedObjects == RegisteredArrs(config, builds, config.sections)
      ensures arrCategories == ArrCategories(config, builds)
    {
      for k := 0 to |config.sections|
        invariant managedObjects == RegisteredArrs(config, builds, config.sections[..k])
        invariant arrCategories == ArrCategoriesIn(config, builds, config.sections[..k])
      {
        var name := config.sections[k];
        CategoriesStep(config, builds, config.sections, k);
        assert config.sections[..k + 1][..k] == config.sections[..k];
        if IsArrSection(name) && name in builds {
          var category := ArrCategory(config, name);
          managedObjects := managedObjects[category := Arr(name, category)];
          arrCategories := arrCategories + {category};
        }
      }
      assert config.sections[..|config.sections|] == config.sections;
    }

    /** Special categories displace whatever is registered; managed categories only fill gaps. */
    method RegisterPlaceHolders()
      modifies `managedObjects
      ensures managedObjects.Keys == old(managedObjects).Keys + specialCategories + qbitManagedCategories
      ensures forall k <- managedObjects ::
                managedObjects[k] ==
                if k !in specialCategories && k in old(managedObjects) then old(managedObjects)[k] else PlaceHolder
    {
      var todo := specialCategories;
      while todo != {}
        invariant todo <= specialCategories
        invariant managedObjects.Keys == old(managedObjects).Keys + (specialCategories - todo)
        invariant forall k <- managedObjects ::
                    managedObjects[k] == if k in specialCategories - todo then PlaceHolder else old(managedObjects)[k]
        decreases todo
      {
        var cat :| cat in todo;
        managedObjects := managedObjects[cat := PlaceHolder];
        todo := todo - {cat};
      }
      ghost var withSpecial := managedObjects;
      todo := qbitManagedCategories;
      while todo != {}
        invariant todo <= qbitManagedCategories
        invariant managedObjects.Keys == withSpecial.Keys + (qbitManagedCategories - todo)
        invariant forall k <- managedObjects ::
                    managedObjects[k] == if k in withSpecial then withSpecial[k] else PlaceHolder
        decreases todo
      {
        var cat :| cat in todo;
        if cat !in managedObjects {
          managedObjects := managedObjects[cat := PlaceHolder];
        }
        todo := todo - {cat};
      }
    }

    /**
     The registry a successful build leaves behind: the built Arrs except those
     whose key the policy worker or a special category takes over.
     */
    method BuildArrInstances(builds: set<string>) returns (ok: bool)
      requires managedObjects == map[] && arrCategories == {}
      modifies this
      ensures ok <==> ArrCategories(config, builds) !! QbitCategories(config)
      ensures ok ==> prefixOwners == ArrCategories(config, builds) + QbitCategories(config)
      ensures ok ==> managedObjects.Keys == prefixOwners + specialCategories +
                     (if prefixOwners != {} && HasQbitSection(config) then {POLICY_KEY} else {})
      ensures ok ==> forall k :: ToRegistry().IsArr(k) <==>
                                   k in ArrCategories(config, builds) && k !in specialCategories &&
                                   !(k == POLICY_KEY && HasQbitSection(config))
      ensures ok ==> forall k :: ToRegistry().IsArr(k) ==>
                                   FiledUnder(config, builds, k, managedObjects[k])
      ensures ok && HasQbitSection(config) ==> ToRegistry().Valid()
    {
      hide IsBuilt, ArrCategory, ArrCategoriesIn, QbitCategoriesIn, RegisteredArrs, HasQbitSection, IsQbitSection,
           IsArrSection, NormalNames;
      RegisterArrs(builds);
      RegisteredArrsKeys(config, builds, config.sections);
      RegisteredArrsFiled(config, builds, config.sections);
      ok := ValidateCategoryAssignments();
      if !ok {
        return;
      }
      if prefixOwners != {} && HasQbitSection(config) {
        managedObjects := managedObjects[POLICY_KEY := PolicyManager];
      }
      RegisterPlaceHolders();
    }
  }

  /** A configuration whose Arr categories are not blank after trimming only yields canonical roots. */
  lemma RootsAreNormal(config: Config, builds: set<string>, r: Registry)
    requires forall s :: IsBuilt(config, builds, s) && s in config.category ==>
               NormalizeCategory(config.category[s]) != ""
    requires forall s :: IsBuilt(config, builds, s) && s !in config.category ==> NormalizeCategory(s) != ""
    requires r.prefixOwners == ArrCategories(config, builds) + QbitCategories(config)
    ensures NormalRoots(r)
  {
    forall k | k in r.prefixOwners
      ensures Normal(k)
    {
      if k in ArrCategories(config, builds) {
        var s :| IsBuilt(config, builds, s) && ArrCategory(config, s) == k;
        NormalizeIdempotent(if s in config.category then config.category[s] else s);
      } else {
        var s :| s in config.sections && k in SectionCategories(config, s);
        NormalNamesAreNormal(config.managedCategories[s]);
      }
    }
  }
}
