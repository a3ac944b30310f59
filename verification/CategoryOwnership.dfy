/**
 Which worker owns a torrent (`qBitrr/arss/manager.py`) and which torrents a
 worker scans (`ArrBase._get_torrents_from_all_instances`).

 The rule "is prefix matching on?" is written twice in the program: once for
 the scan and once for the resolver.  The main results say that the two agree
 and that the scans of the Arr workers therefore partition the torrents.
 */
module CategoryOwnership {
  import opened Wrappers
  import opened Sequences
  import opened CategoryPaths
  import opened PythonStrings

  const POLICY_KEY := "TorrentPolicyManager"

  /** The configuration entries that category ownership reads. */
  datatype Config = Config(
    sections: seq<string>,                      // section names, in file order
    category: map<string, string>,              // `<Arr>.Category`, where present
    matchSubcategories: map<string, bool>,      // `<section>.MatchSubcategories`, where present
    managedCategories: map<string, seq<string>> // `<qBit*>.ManagedCategories`, where present
  )
  {
    function Flag(section: string): bool {
      section in matchSubcategories && matchSubcategories[section]
    }
  }

  predicate IsQbitSection(section: string) {
    section == "qBit" || "qBit-" <= section
  }

  function Lower(c: char): char {
    if 'A' <= c <= 'Z' then (c as int + 32) as char else c
  }

  predicate StartsWithIgnoringCase(s: string, prefix: string) {
    |prefix| <= |s| && forall i :: 0 <= i < |prefix| ==> Lower(s[i]) == prefix[i]
  }

  predicate IsArrSection(section: string) {
    StartsWithIgnoringCase(section, "radarr") || StartsWithIgnoringCase(section, "sonarr") ||
    StartsWithIgnoringCase(section, "lidarr") || StartsWithIgnoringCase(section, "readarr")
  }

  /** A value of `managed_objects`. */
  datatype Managed =
    | Arr(name: string, category: string)
    | PlaceHolder
    | PolicyManager

  /** What the resolver reads of an `ArrManager`. */
  datatype Registry = Registry(config: Config, managed: map<string, Managed>, prefixOwners: set<string>)
  {
    /** Every Arr worker is filed under its own category, which is also a prefix root. */
    ghost predicate Valid() {
      forall k <- managed :: managed[k].Arr? ==>
                               managed[k].category == k && k in prefixOwners && managed[k].name != "" && k != POLICY_KEY
    }

    predicate IsArr(key: string) {
      key in managed && managed[key].Arr?
    }

    /** The scan's rule: `arr_match_subcategories_effective`. */
    predicate MatchSubcategoriesEffective(arrName: string, section: string) {
      if arrName in config.matchSubcategories then config.matchSubcategories[arrName]
      else config.Flag(section)
    }

    predicate AnyQbitFlag() {
      exists i :: 0 <= i < |config.sections| && IsQbitSection(config.sections[i]) && config.Flag(config.sections[i])
    }

    /** The resolver's rule: `_prefix_match_allowed_for_owner`. */
    predicate PrefixMatchAllowed(owner: string, section: Option<string>) {
      if owner !in managed || owner == POLICY_KEY then false
      else
        match managed[owner]
        case PlaceHolder =>
          if section.Some? && section.value != "" then config.Flag(section.value) else AnyQbitFlag()
        case PolicyManager => false
        case Arr(name, _) =>
          if name == "" then false
          else if name in config.matchSubcategories then config.matchSubcategories[name]
          else if section.Some? && section.value != "" then config.Flag(section.value)
          else AnyQbitFlag()
    }

    function EligibleNames(section: Option<string>): set<string> {
      set k | k in prefixOwners && PrefixMatchAllowed(k, section) && NormalizeCategory(k) != "" :: NormalizeCategory(k)
    }

    /** The key that owns a category: exact, else the nearest eligible ancestor that is managed. */
    function Owner(category: string, section: Option<string>): Option<string> {
      var norm := NormalizeCategory(category);
      if norm == "" then None
      else if norm in managed then Some(norm)
      else
        var owner := ConfiguredOwner(norm, EligibleNames(section), true);
        if owner.Some? && owner.value in managed then owner else None
    }
  }

  /** The two rules agree for every managed Arr on every named qBit section. */
  lemma RulesAgree(r: Registry, key: string, section: string)
    requires r.Valid() && r.IsArr(key) && section != ""
    ensures r.PrefixMatchAllowed(key, Some(section)) <==> r.MatchSubcategoriesEffective(r.managed[key].name, section)
  {
  }

  /** Owning a category: it is that managed category, or the deepest eligible root above it, if that is managed. */
  lemma OwnerIff(r: Registry, category: string, section: Option<string>, key: string)
    ensures r.Owner(category, section) == Some(key) <==>
            var norm := NormalizeCategory(category);
            norm != "" && key in r.managed &&
            if norm in r.managed then key == norm
            else key in r.EligibleNames(section) && AncestorOrSelf(category, key) &&
                 forall n <- r.EligibleNames(section) ::
                   AncestorOrSelf(category, n) && n != key ==> Depth(n) < Depth(key)
  {
    hide AncestorOrSelf, Depth, ConfiguredOwner;
    var norm, names := NormalizeCategory(category), r.EligibleNames(section);
    EligibleAreNormal(r, section);
    NormalizeIdempotent(category);
    SameAncestors(norm, category);
    OwnerIsUniqueDeepest(norm, names);
    if key in names && AncestorOrSelf(norm, key) &&
       forall n <- names :: AncestorOrSelf(norm, n) && n != key ==> Depth(n) < Depth(key) {
      DeepestIsOwner(norm, names, key);
    }
  }

  lemma EligibleAreNormal(r: Registry, section: Option<string>)
    ensures forall n <- r.EligibleNames(section) :: Normal(n) && n != ""
  {
    forall n | n in r.EligibleNames(section)
      ensures Normal(n)
    {
      var k :| k in r.prefixOwners && NormalizeCategory(k) == n;
      NormalizeIdempotent(k);
    }
  }

  lemma SameAncestors(a: string, b: string)
    requires NormalizeCategory(a) == NormalizeCategory(b)
    ensures forall n :: AncestorOrSelf(a, n) <==> AncestorOrSelf(b, n)
  {
  }

  /** The category lies below this configured root, is not managed itself, and no other root is above it. */
  ghost predicate BelowRoot(r: Registry, category: string, root: string) {
    root in r.prefixOwners && Normal(root) && IsSubcategoryOf(category, root) &&
    NormalizeCategory(category) !in r.managed &&
    forall k <- r.prefixOwners :: NormalizeCategory(k) != root ==> !AncestorOrSelf(category, NormalizeCategory(k))
  }

  /** Then it belongs to the root exactly if the root is managed and may claim descendants, and else to nobody. */
  lemma RootOwns(r: Registry, category: string, section: Option<string>, root: string)
    requires BelowRoot(r, category, root) && forall k <- r.prefixOwners :: Normal(k)
    ensures r.Owner(category, section) ==
            if root in r.managed && r.PrefixMatchAllowed(root, section) then Some(root) else None
  {
    hide Depth, Registry.PrefixMatchAllowed;
    var names := r.EligibleNames(section);
    forall n | n in names && AncestorOrSelf(category, n)
      ensures n == root
    {
      var k :| k in r.prefixOwners && NormalizeCategory(k) == n;
    }
    OwnerIff(r, category, section, root);
    var owner := r.Owner(category, section);
    if owner.Some? {
      OwnerIff(r, category, section, owner.value);
    }
  }

  /** This section's own setting; `None` stands for a category seen without knowing the instance. */
  predicate SectionMatches(config: Config, section: Option<string>) {
    if section.Some? && section.value != ""
    then section.value in config.matchSubcategories && config.matchSubcategories[section.value]
    else exists s <- config.sections ::
           (s == "qBit" || "qBit-" <= s) && s in config.matchSubcategories && config.matchSubcategories[s]
  }

  /** A root that qBit manages owns what is below it exactly where the instance matches subcategories. */
  lemma ManagedRootOwns(r: Registry, category: string, section: Option<string>, root: string)
    requires BelowRoot(r, category, root) && forall k <- r.prefixOwners :: Normal(k)
    requires root in r.managed && r.managed[root].PlaceHolder? && root != "TorrentPolicyManager"
    ensures r.Owner(category, section) == if SectionMatches(r.config, section) then Some(root) else None
  {
    RootOwns(r, category, section, root);
    AnyFlagMeans(r);
  }

  /** An Arr's root does so exactly where the Arr says so, or says nothing and the instance does. */
  lemma ArrRootOwns(r: Registry, category: string, section: Option<string>, root: string)
    requires BelowRoot(r, category, root) && forall k <- r.prefixOwners :: Normal(k)
    requires root in r.managed && r.managed[root].Arr? && r.managed[root].name != "" && root != "TorrentPolicyManager"
    ensures var name := r.managed[root].name;
            r.Owner(category, section) ==
            if (if name in r.config.matchSubcategories then r.config.matchSubcategories[name]
                else SectionMatches(r.config, section)) then Some(root) else None
  {
    RootOwns(r, category, section, root);
    AnyFlagMeans(r);
  }

  lemma AnyFlagMeans(r: Registry)
    ensures r.AnyQbitFlag() <==>
            exists s <- r.config.sections ::
              (s == "qBit" || "qBit-" <= s) && s in r.config.matchSubcategories && r.config.matchSubcategories[s]
  {
    if r.AnyQbitFlag() {
      var sections := r.config.sections;
      var i :| 0 <= i < |sections| && IsQbitSection(sections[i]) && r.config.Flag(sections[i]);
      assert sections[i] in sections;
    }
  }

  lemma ArrInitial(section: string)
    requires IsArrSection(section)
    ensures section != "" && Lower(section[0]) in "rsl"
  {
    assert "radarr"[0] == "readarr"[0] == "rsl"[0] && "sonarr"[0] == "rsl"[1] && "lidarr"[0] == "rsl"[2];
  }

  lemma QbitInitial(section: string)
    requires IsQbitSection(section)
    ensures section != "" && section[0] == 'q'
  {
    assert section[0] == "qBit-"[0];
  }

  /** No section belongs to qBit and to an Arr. */
  lemma SectionsApart(section: string)
    ensures !(IsQbitSection(section) && IsArrSection(section))
  {
    if IsArrSection(section) {
      ArrInitial(section);
    }
    if IsQbitSection(section) {
      QbitInitial(section);
    }
  }

  lemma StartsWith(s: string, rest: string, prefix: string)
    requires |s| == |prefix| && forall i :: 0 <= i < |s| ==> Lower(s[i]) == prefix[i]
    ensures StartsWithIgnoringCase(s + rest, prefix)
  {
  }

  /** The four Arrs in any case, and the qBit sections. */
  lemma SectionNames(rest: string)
    ensures IsArrSection("Radarr" + rest) && IsArrSection("SONARR" + rest) && IsArrSection("LidArr" + rest) &&
            IsArrSection("readarr" + rest)
    ensures IsQbitSection("qBit") && IsQbitSection("qBit-" + rest) && !IsQbitSection("qBit2" + rest)
  {
    StartsWith("Radarr", rest, "radarr");
    StartsWith("SONARR", rest, "sonarr");
    StartsWith("LidArr", rest, "lidarr");
    StartsWith("readarr", rest, "readarr");
    hide StartsWithIgnoringCase;
    assert ("qBit2" + rest)[4] != "qBit-"[4];
  }

  /** `resolve_owning_category`, which collects the eligible roots and asks for the longest prefix. */
  method ResolveOwningCategory(r: Registry, category: string, section: Option<string>) returns (owner: Option<string>)
    ensures owner == r.Owner(category, section)
  {
    if category == "" {
      return None;
    }
    var norm := NormalizeCategory(category);
    if norm == "" {
      return None;
    }
    if norm in r.managed {
      return Some(norm);
    }
    var eligible: seq<string> := [];
    var todo := r.prefixOwners;
    while todo != {}
      invariant todo <= r.prefixOwners
      invariant forall k :: k in eligible <==> k in r.prefixOwners - todo && r.PrefixMatchAllowed(k, section)
      decreases todo
    {
      var k :| k in todo;
      if r.PrefixMatchAllowed(k, section) {
        eligible := eligible + [k];
      }
      todo := todo - {k};
    }
    var found := MatchesConfigured(norm, eligible, true);
    assert NormalNames(eligible) == r.EligibleNames(section);
    owner := if found.Some? && found.value in r.managed then found else None;
  }

  // ---------------------------------------------------------------- the scan

  /** A torrent as the client lists it; `None` stands for a missing category. */
  datatype Torrent = Torrent(hash: string, category: Option<string>)

  /** A qBittorrent client during one scan. */
  datatype Instance = Instance(section: string, reachable: bool, connected: bool, fetchFails: bool,
                               torrents: seq<Torrent>)
  {
    predicate Live() {
      reachable && connected && !fetchFails
    }
  }

  datatype ScanResult = Scanned(torrents: seq<(string, Torrent)>) | FetchError

  function TargetCategory(key: string): string {
    if NormalizeCategory(key) != "" then NormalizeCategory(key) else key
  }

  /** What `torrents.info` returns: everything, or the torrents in exactly that category. */
  function Fetched(r: Registry, worker: Managed, inst: Instance): seq<Torrent>
    requires worker.Arr?
  {
    if r.MatchSubcategoriesEffective(worker.name, inst.section) then inst.torrents
    else Filter((t: Torrent) => t.category == Some(TargetCategory(worker.category)), inst.torrents)
  }

  /** The tests the scan applies to a fetched torrent. */
  predicate Kept(r: Registry, worker: Managed, section: string, t: Torrent)
    requires worker.Arr?
  {
    var cat := if t.category.Some? then NormalizeCategory(t.category.value) else "";
    var target := TargetCategory(worker.category);
    cat != "" &&
    (r.MatchSubcategoriesEffective(worker.name, section) ==> cat == target || target + [SEPARATOR] <= cat) &&
    r.Owner(cat, Some(section)) == Some(worker.category)
  }

  /** Whether this worker's scan of a live instance takes the torrent. */
  predicate Takes(r: Registry, worker: Managed, section: string, t: Torrent)
    requires worker.Arr?
  {
    (r.MatchSubcategoriesEffective(worker.name, section) || t.category == Some(TargetCategory(worker.category))) &&
    Kept(r, worker, section, t)
  }

  function Taken(r: Registry, worker: Managed, inst: Instance): seq<Torrent>
    requires worker.Arr?
  {
    if inst.Live() then Filter((t: Torrent) => Takes(r, worker, inst.section, t), inst.torrents) else []
  }

  function Tagged(section: string, torrents: seq<Torrent>): seq<(string, Torrent)> {
    seq(|torrents|, i requires 0 <= i < |torrents| => (section, torrents[i]))
  }

  function TakenFromAll(r: Registry, worker: Managed, insts: seq<Instance>): seq<(string, Torrent)>
    requires worker.Arr?
  {
    if insts == [] then []
    else TakenFromAll(r, worker, insts[..|insts| - 1]) +
         Tagged(insts[|insts| - 1].section, Taken(r, worker, insts[|insts| - 1]))
  }

  predicate FetchAttemptFails(inst: Instance) {
    inst.reachable && inst.connected && inst.fetchFails
  }

  /** Filtering what was fetched is filtering everything. */
  lemma FetchThenKeep(r: Registry, worker: Managed, inst: Instance, kept: Torrent -> bool)
    requires worker.Arr? && inst.Live()
    requires forall t :: kept(t) == Kept(r, worker, inst.section, t)
    ensures Filter(kept, Fetched(r, worker, inst)) == Taken(r, worker, inst)
  {
    hide Filter, Kept, TargetCategory;
    var fetched := (t: Torrent) => t.category == Some(TargetCategory(worker.category));
    var takes := (t: Torrent) => Takes(r, worker, inst.section, t);
    if r.MatchSubcategoriesEffective(worker.name, inst.section) {
      FilterSame(kept, takes, inst.torrents);
    } else {
      FilterTwice(kept, fetched, takes, inst.torrents);
    }
  }

  /** The loop body's tests, in the order the program makes them. */
  method PassesScan(r: Registry, worker: Managed, section: string, t: Torrent) returns (keep: bool)
    requires worker.Arr?
    ensures keep == Kept(r, worker, section, t)
  {
    if t.category.None? {
      return false;
    }
    var target := TargetCategory(worker.category);
    var cat := NormalizeCategory(t.category.value);
    if cat == "" {
      return false;
    }
    if r.MatchSubcategoriesEffective(worker.name, section) {
      if cat != target && !(target + [SEPARATOR] <= cat) {
        return false;
      }
    }
    var owner := ResolveOwningCategory(r, cat, Some(section));
    return owner == Some(worker.category);
  }

  /** One instance of the scan: fetch, then filter in a loop. */
  method ScanInstance(r: Registry, worker: Managed, inst: Instance) returns (kept: seq<Torrent>)
    requires worker.Arr? && inst.Live()
    ensures kept == Taken(r, worker, inst)
  {
    hide Fetched, Taken, Kept;
    var torrents := Fetched(r, worker, inst);
    kept := [];
    ghost var p := (t: Torrent) => Kept(r, worker, inst.section, t);
    for k := 0 to |torrents|
      invariant kept == Filter(p, torrents[..k])
    {
      var keep := PassesScan(r, worker, inst.section, torrents[k]);
      assert torrents[..k + 1] == torrents[..k] + [torrents[k]];
      FilterSnoc(p, torrents[..k], torrents[k]);
      if keep {
        kept := kept + [torrents[k]];
      }
    }
    assert torrents[..|torrents|] == torrents;
    FetchThenKeep(r, worker, inst, p);
  }

  /** The whole scan: unreachable instances are skipped, and an error surfaces only if nothing was found. */
  method GetTorrentsFromAllInstances(r: Registry, worker: Managed, insts: seq<Instance>) returns (result: ScanResult)
    requires worker.Arr?
    ensures result.FetchError? <==>
            (exists i :: 0 <= i < |insts| && FetchAttemptFails(insts[i])) && TakenFromAll(r, worker, insts) == []
    ensures result.Scanned? ==> result.torrents == TakenFromAll(r, worker, insts)
  {
    var all: seq<(string, Torrent)> := [];
    var failures := 0;
    for k := 0 to |insts|
      invariant all == TakenFromAll(r, worker, insts[..k])
      invariant failures >= 0
      invariant failures > 0 <==> exists i :: 0 <= i < k && FetchAttemptFails(insts[i])
    {
      var inst := insts[k];
      assert insts[..k + 1] == insts[..k] + [inst];
      if !inst.reachable {
        continue;
      }
      if !inst.connected {
        continue;
      }
      if inst.fetchFails {
        failures := failures + 1;
        continue;
      }
      var kept := ScanInstance(r, worker, inst);
      all := all + Tagged(inst.section, kept);
    }
    assert insts[..|insts|] == insts;
    if failures > 0 && all == [] {
      return FetchError;
    }
    return Scanned(all);
  }

  /** What the whole scan returns: each live instance's torrents that the worker takes, with that instance's name. */
  lemma {:induction false} TakenFromAllMembers(r: Registry, worker: Managed, insts: seq<Instance>, section: string,
                                               t: Torrent)
    requires worker.Arr?
    ensures (section, t) in TakenFromAll(r, worker, insts) <==>
            exists inst <- insts ::
              inst.section == section && inst.reachable && inst.connected && !inst.fetchFails &&
              t in inst.torrents && Takes(r, worker, section, t)
  {
    hide Takes;
    if insts != [] {
      var n := |insts| - 1;
      var inst, before := insts[n], insts[..n];
      TakenFromAllMembers(r, worker, before, section, t);
      assert insts == before + [inst];
      FilterMembers((t: Torrent) => Takes(r, worker, inst.section, t), inst.torrents);
      var taken := Taken(r, worker, inst);
      if t in taken {
        var k :| 0 <= k < |taken| && taken[k] == t;
        assert Tagged(inst.section, taken)[k] == (inst.section, t);
      }
    }
  }

  // ------------------------------------------------------- the partition claim

  /** A torrent that resolves to an Arr owner on this instance. */
  predicate OwnedByArr(r: Registry, section: string, t: Torrent) {
    t.category.Some? && r.Owner(t.category.value, Some(section)).Some? &&
    r.IsArr(r.Owner(t.category.value, Some(section)).value)
  }

  lemma OwnerOfNormalForm(r: Registry, category: string, section: Option<string>)
    ensures r.Owner(NormalizeCategory(category), section) == r.Owner(category, section)
  {
    NormalizeIdempotent(category);
  }

  /** A resolved owner always passes the scan's own prefix test. */
  lemma OwnerIsAncestor(r: Registry, category: string, section: Option<string>)
    requires r.Owner(category, section).Some?
    ensures var cat := NormalizeCategory(category);
            var key := r.Owner(category, section).value;
            cat != "" && Normal(key) && TargetCategory(key) == key && (cat == key || key + [SEPARATOR] <= cat)
  {
    var norm := NormalizeCategory(category);
    NormalizeIdempotent(category);
    if norm !in r.managed {
      var names := r.EligibleNames(section);
      forall n | n in names
        ensures Normal(n)
      {
        var k :| k in r.prefixOwners && NormalizeCategory(k) == n;
        NormalizeIdempotent(k);
      }
      OwnerIsUniqueDeepest(norm, names);
    }
  }

  /**
   A worker takes exactly the torrents that it owns and that its fetch lists:
   all of them with prefix matching, otherwise those whose raw category string
   is the configured one.
   */
  lemma TakesIff(r: Registry, key: string, section: string, t: Torrent)
    requires r.Valid() && r.IsArr(key)
    ensures Takes(r, r.managed[key], section, t) <==>
            (t.category.Some? && r.Owner(t.category.value, Some(section)) == Some(key) &&
             (r.MatchSubcategoriesEffective(r.managed[key].name, section) || t.category.value == key))
  {
    if t.category.Some? {
      OwnerOfNormalForm(r, t.category.value, Some(section));
      if r.Owner(t.category.value, Some(section)) == Some(key) {
        OwnerIsAncestor(r, t.category.value, Some(section));
      }
    }
    if Takes(r, r.managed[key], section, t) {
      OwnerIsAncestor(r, t.category.value, Some(section));
    }
  }

  /** No torrent is taken by two workers, whatever the configuration. */
  lemma TakenAtMostOnce(r: Registry, key1: string, key2: string, section: string, t: Torrent)
    requires r.Valid() && r.IsArr(key1) && r.IsArr(key2)
    ensures Takes(r, r.managed[key1], section, t) && Takes(r, r.managed[key2], section, t) ==> key1 == key2
  {
    hide Takes, NormalizeCategory;
    TakesIff(r, key1, section, t);
    TakesIff(r, key2, section, t);
  }

  ghost predicate NormalRoots(r: Registry) {
    forall k <- r.prefixOwners :: Normal(k)
  }

  /** With canonical roots and a canonical torrent category the owner's scan does take the torrent. */
  lemma NormalTorrentNotMissed(r: Registry, key: string, section: string, t: Torrent)
    requires r.Valid() && NormalRoots(r) && r.IsArr(key) && section != ""
    requires t.category.Some? && Normal(t.category.value)
    ensures Takes(r, r.managed[key], section, t) <==> r.Owner(t.category.value, Some(section)) == Some(key)
  {
    TakesIff(r, key, section, t);
    var cat := t.category.value;
    if r.Owner(cat, Some(section)) == Some(key) && cat != key {
      var names := r.EligibleNames(Some(section));
      forall n | n in names
        ensures Normal(n) && r.PrefixMatchAllowed(n, Some(section))
      {
      }
      OwnerIsUniqueDeepest(cat, names);
      RulesAgree(r, key, section);
    }
  }

  /**
   The one way to miss a torrent: its raw category is not in canonical form and
   the owner fetches by exact string.
   */
  lemma MissedIff(r: Registry, key: string, section: string, t: Torrent)
    requires r.Valid() && NormalRoots(r) && r.IsArr(key) && section != ""
    requires t.category.Some? && r.Owner(t.category.value, Some(section)) == Some(key)
    ensures !Takes(r, r.managed[key], section, t) <==>
            !Normal(t.category.value) && !r.MatchSubcategoriesEffective(r.managed[key].name, section)
  {
    TakesIff(r, key, section, t);
    OwnerIsAncestor(r, t.category.value, Some(section));
    if Normal(t.category.value) {
      NormalTorrentNotMissed(r, key, section, t);
    }
  }

  /** For instance, a torrent whose category carries a trailing separator. */
  lemma TrailingSeparatorMissed(r: Registry, key: string, section: string, t: Torrent)
    requires r.Valid() && NormalRoots(r) && r.IsArr(key) && key != "" && section != ""
    requires !r.MatchSubcategoriesEffective(r.managed[key].name, section)
    requires t.category == Some(key + [SEPARATOR])
    ensures r.Owner(t.category.value, Some(section)) == Some(key) && !Takes(r, r.managed[key], section, t)
  {
    hide NormalizeCategory, Takes;
    TrailingSeparatorIsDropped(key);
    MissedIff(r, key, section, t);
  }
}
