/**
 Category strings of qBittorrent (`qBitrr/category_paths.py`).

 The program compares category *strings*; what it means to compare are lists of
 path *segments*.  This module models the string code and proves that the two
 views agree: canonical strings and canonical segment lists are in bijection,
 and every string test is the corresponding test on segments.
 */
module CategoryPaths {
  import opened Wrappers
  import Sequences
  import opened PythonStrings

  // --------------------------------------------------------------- normalising

  /** Trim each segment and drop the empty ones. */
  function CleanSegments(parts: seq<string>): seq<string> {
    if parts == [] then []
    else
      var seg := Strip(parts[0]);
      (if seg == "" then [] else [seg]) + CleanSegments(parts[1..])
  }

  function NormalizeCategory(value: string): string {
    var s := Strip(value);
    if s == "" then "" else Join(CleanSegments(SplitOn(s)))
  }

  function SplitCategory(value: string): seq<string> {
    var norm := NormalizeCategory(value);
    if norm == "" then [] else SplitOn(norm)
  }

  function CategoryParents(value: string): seq<string> {
    var parts := SplitCategory(value);
    if |parts| < 2 then []
    else seq(|parts| - 1, i requires 0 <= i < |parts| - 1 => Join(parts[..i + 1]))
  }

  predicate IsSubcategoryOf(child: string, parent: string) {
    var c := NormalizeCategory(child);
    var p := NormalizeCategory(parent);
    c != "" && p != "" && c != p && p + [SEPARATOR] <= c
  }

  /** `norm.count("/") + 1` */
  function Depth(norm: string): nat {
    Separators(norm) + 1
  }

  function Separators(s: string): nat {
    if s == "" then 0 else (if s[0] == SEPARATOR then 1 else 0) + Separators(s[1..])
  }

  /** A segment list that some category string stands for. */
  predicate Canonical(parts: seq<string>) {
    forall p <- parts :: p != "" && Flat(p) && Stripped(p)
  }

  predicate Normal(s: string) {
    NormalizeCategory(s) == s
  }

  lemma CanonicalSlice(parts: seq<string>, from: nat, to: nat)
    requires from <= to <= |parts| && Canonical(parts)
    ensures Canonical(parts[from..to]) && Canonical(parts[..to]) && Canonical(parts[from..])
  {
    forall p | p in parts[from..to] || p in parts[..to] || p in parts[from..]
      ensures p in parts
    {
    }
  }

  lemma {:induction false} CleanIsCanonical(parts: seq<string>)
    requires forall p <- parts :: Flat(p)
    ensures Canonical(CleanSegments(parts))
  {
    if parts != [] {
      CleanIsCanonical(parts[1..]);
      var a, b := StripShape(parts[0]);
      assert Flat(parts[0]);
    }
  }

  lemma {:induction false} CleanIsFixed(parts: seq<string>)
    requires Canonical(parts)
    ensures CleanSegments(parts) == parts
  {
    if parts != [] {
      assert parts[0] in parts;
      CanonicalSlice(parts, 1, |parts|);
      StrippedIsFixed(parts[0]);
      CleanIsFixed(parts[1..]);
    }
  }

  lemma StrippedAround(a: string, b: string)
    requires a != "" && b != "" && Stripped(a) && Stripped(b)
    ensures Stripped(a + [SEPARATOR] + b)
  {
    var s := a + [SEPARATOR] + b;
    assert s[0] == a[0] && s[|s| - 1] == b[|b| - 1];
  }

  lemma {:induction false} JoinCanonical(parts: seq<string>)
    requires |parts| > 0 && Canonical(parts)
    ensures Join(parts) != "" && Stripped(Join(parts))
  {
    assert parts[0] in parts;
    if |parts| > 1 {
      CanonicalSlice(parts, 1, |parts|);
      JoinCanonical(parts[1..]);
      StrippedAround(parts[0], Join(parts[1..]));
    }
  }

  /** Canonical segment lists survive the trip through a category string. */
  lemma CanonicalRoundTrip(parts: seq<string>)
    requires Canonical(parts)
    ensures Normal(Join(parts)) && SplitCategory(Join(parts)) == parts
  {
    if parts != [] {
      JoinCanonical(parts);
      StrippedIsFixed(Join(parts));
      SplitUndoesJoin(parts);
      CleanIsFixed(parts);
    }
  }

  /** Every category string is named by its canonical segment list. */
  lemma SplitCategoryCanonical(value: string)
    ensures Canonical(SplitCategory(value))
    ensures NormalizeCategory(value) == Join(SplitCategory(value))
    ensures SplitCategory(value) == [] <==> NormalizeCategory(value) == ""
  {
    var s := Strip(value);
    if s != "" {
      SplitIsFlat(s);
      var parts := CleanSegments(SplitOn(s));
      CleanIsCanonical(SplitOn(s));
      if parts != [] {
        JoinCanonical(parts);
        SplitUndoesJoin(parts);
      }
    }
  }

  lemma NormalizeIdempotent(value: string)
    ensures Normal(NormalizeCategory(value))
    ensures SplitCategory(NormalizeCategory(value)) == SplitCategory(value)
  {
    SplitCategoryCanonical(value);
    CanonicalRoundTrip(SplitCategory(value));
  }

  lemma {:induction false} CleanDropsLast(parts: seq<string>)
    requires Canonical(parts)
    ensures CleanSegments(parts + [""]) == parts
  {
    if parts == [] {
      assert CleanSegments([""]) == CleanSegments([""][1..]) == [];
    } else {
      assert (parts + [""])[0] == parts[0] && (parts + [""])[1..] == parts[1..] + [""];
      assert parts[0] in parts;
      CanonicalSlice(parts, 1, |parts|);
      StrippedIsFixed(parts[0]);
      CleanDropsLast(parts[1..]);
    }
  }

  lemma {:induction false} SplitTrailing(s: string)
    ensures SplitOn(s + [SEPARATOR]) == SplitOn(s) + [""]
  {
    if s == "" {
      assert SplitOn("/"[1..]) == [""];
    } else {
      SplitTrailing(s[1..]);
      assert (s + [SEPARATOR])[0] == s[0] && (s + [SEPARATOR])[1..] == s[1..] + [SEPARATOR];
    }
  }

  /** A trailing separator names the same category, but is not its canonical string. */
  lemma TrailingSeparatorIsDropped(s: string)
    requires Normal(s) && s != ""
    ensures NormalizeCategory(s + [SEPARATOR]) == s && !Normal(s + [SEPARATOR])
  {
    hide NormalizeCategory, SplitCategory, Strip;
    var parts := SplitCategory(s);
    SplitCategoryCanonical(s);
    JoinCanonical(parts);
    StrippedIsFixed(s + [SEPARATOR]);
    SplitTrailing(s);
    SplitUndoesJoin(parts);
    CleanDropsLast(parts);
    NormalizeShape(s + [SEPARATOR]);
  }

  lemma NormalizeShape(value: string)
    ensures NormalizeCategory(value) == if Strip(value) == "" then "" else Join(CleanSegments(SplitOn(Strip(value))))
  {
  }

  /** Two strings name the same category exactly when their segments agree. */
  lemma SameSegmentsSameCategory(a: string, b: string)
    ensures NormalizeCategory(a) == NormalizeCategory(b) <==> SplitCategory(a) == SplitCategory(b)
  {
    SplitCategoryCanonical(a);
    SplitCategoryCanonical(b);
  }

  // ------------------------------------------------- string test, segment test

  lemma {:induction false} JoinAppend(left: seq<string>, right: seq<string>)
    requires left != [] && right != []
    ensures Join(left + right) == Join(left) + [SEPARATOR] + Join(right)
  {
    if |left| == 1 {
      assert (left + right)[1..] == right;
    } else {
      JoinAppend(left[1..], right);
      assert (left + right)[1..] == left[1..] + right;
    }
  }

  lemma {:induction false} SplitAppend(a: string, b: string)
    ensures SplitOn(a + [SEPARATOR] + b) == SplitOn(a) + SplitOn(b)
  {
    SplitIsFlat(a);
    SplitIsFlat(b);
    JoinUndoesSplit(a);
    JoinUndoesSplit(b);
    JoinAppend(SplitOn(a), SplitOn(b));
    SplitUndoesJoin(SplitOn(a) + SplitOn(b));
  }

  lemma {:induction false} CleanAppend(a: seq<string>, b: seq<string>)
    ensures CleanSegments(a + b) == CleanSegments(a) + CleanSegments(b)
  {
    hide Strip;
    if a == [] {
      assert a + b == b;
    } else {
      CleanAppend(a[1..], b);
      assert (a + b)[0] == a[0] && (a + b)[1..] == a[1..] + b;
      Sequences.Associates(if Strip(a[0]) == "" then [] else [Strip(a[0])], CleanSegments(a[1..]), CleanSegments(b));
    }
  }

  /** Blanks around the whole category belong to its first and last segment and are trimmed there. */
  lemma {:induction false} LeftBlanksIgnored(s: string)
    ensures CleanSegments(SplitOn(LStrip(s))) == CleanSegments(SplitOn(s))
  {
    hide Strip, SplitOn;
    if s != "" && IsSpace(s[0]) {
      LeftBlanksIgnored(s[1..]);
      SplitCons(s[1..], s[0]);
      assert s == [s[0]] + s[1..];
      var parts := SplitOn(s[1..]);
      StripIgnoresFirst(parts[0], s[0]);
      assert CleanSegments([[s[0]] + parts[0]] + parts[1..]) == CleanSegments([parts[0]] + parts[1..]);
      assert parts == [parts[0]] + parts[1..];
    }
  }

  lemma {:induction false} RightBlanksIgnored(s: string)
    ensures CleanSegments(SplitOn(RStrip(s))) == CleanSegments(SplitOn(s))
  {
    hide Strip, SplitOn;
    if s != "" && IsSpace(s[|s| - 1]) {
      var front, c := s[..|s| - 1], s[|s| - 1];
      RightBlanksIgnored(front);
      SplitSnoc(front, c);
      assert s == front + [c];
      var parts, n := SplitOn(front), |SplitOn(front)| - 1;
      StripIgnoresLast(parts[n], c);
      CleanAppend(parts[..n], [parts[n] + [c]]);
      CleanAppend(parts[..n], [parts[n]]);
      assert parts == parts[..n] + [parts[n]];
      assert CleanSegments([parts[n] + [c]]) == CleanSegments([parts[n]]);
    }
  }

  lemma SplitCategoryCleans(value: string)
    ensures SplitCategory(value) == CleanSegments(SplitOn(value))
  {
    LeftBlanksIgnored(value);
    RightBlanksIgnored(LStrip(value));
    var s := Strip(value);
    SplitIsFlat(s);
    var parts := CleanSegments(SplitOn(s));
    CleanIsCanonical(SplitOn(s));
    if parts != [] {
      JoinCanonical(parts);
      SplitUndoesJoin(parts);
    }
  }

  /** The segments of a category are those of its parts: splitting at a separator loses and invents none. */
  lemma SegmentsAddUp(a: string, b: string)
    ensures SplitCategory(a + [SEPARATOR] + b) == SplitCategory(a) + SplitCategory(b)
  {
    SplitCategoryCleans(a + [SEPARATOR] + b);
    SplitCategoryCleans(a);
    SplitCategoryCleans(b);
    SplitAppend(a, b);
    CleanAppend(SplitOn(a), SplitOn(b));
  }

  /** A category without separator has its trimmed text as only segment, or none if it is blank. */
  lemma OneSegment(part: string)
    requires SEPARATOR !in part
    ensures SplitCategory(part) == if Blank(part) then [] else [Strip(part)]
  {
    SplitCategoryCleans(part);
    SplitFlat(part);
    assert [part][1..] == [];
    BlankStripsAway(part);
  }

  /** `startswith(parent + "/")` is the proper-prefix test on segments. */
  lemma SubcategoryIsProperPrefix(child: string, parent: string)
    ensures IsSubcategoryOf(child, parent) <==>
            SplitCategory(parent) != [] && SplitCategory(parent) < SplitCategory(child)
  {
    var c, p := SplitCategory(child), SplitCategory(parent);
    SplitCategoryCanonical(child);
    SplitCategoryCanonical(parent);
    var cs, ps := NormalizeCategory(child), NormalizeCategory(parent);
    if IsSubcategoryOf(child, parent) {
      var tail := cs[|ps| + 1..];
      assert cs == ps + [SEPARATOR] + tail;
      SplitAppend(ps, tail);
    }
    if p != [] && p < c {
      assert c == p + c[|p|..];
      JoinAppend(p, c[|p|..]);
    }
  }

  /** The parents of a category are its proper ancestors, outermost first, and nothing else. */
  lemma ParentsAreProperAncestors(value: string)
    ensures |CategoryParents(value)| == if SplitCategory(value) == [] then 0 else |SplitCategory(value)| - 1
    ensures forall i :: 0 <= i < |CategoryParents(value)| ==>
                          SplitCategory(CategoryParents(value)[i]) == SplitCategory(value)[..i + 1]
    ensures forall x :: x in CategoryParents(value) <==> Normal(x) && IsSubcategoryOf(value, x)
  {
    hide SplitCategory, IsSubcategoryOf, Join, NormalizeCategory, Stripped;
    var parts := SplitCategory(value);
    var parents := CategoryParents(value);
    SplitCategoryCanonical(value);
    forall i | 0 <= i < |parents|
      ensures SplitCategory(parents[i]) == parts[..i + 1] && Normal(parents[i])
    {
      CanonicalSlice(parts, 0, i + 1);
      CanonicalRoundTrip(parts[..i + 1]);
    }
    forall x
      ensures x in parents <==> Normal(x) && IsSubcategoryOf(value, x)
    {
      SubcategoryIsProperPrefix(value, x);
      if Normal(x) && IsSubcategoryOf(value, x) {
        SplitCategoryCanonical(x);
        var k := |SplitCategory(x)|;
        assert parts[..k] == SplitCategory(x);
        assert parents[k - 1] == Join(parts[..k]) == x;
      }
    }
  }

  lemma {:induction false} SeparatorsAppend(a: string, b: string)
    ensures Separators(a + b) == Separators(a) + Separators(b)
  {
    if a == "" {
      assert a + b == b;
    } else {
      SeparatorsAppend(a[1..], b);
      assert (a + b)[1..] == a[1..] + b;
    }
  }

  lemma {:induction false} FlatHasNoSeparators(s: string)
    requires Flat(s)
    ensures Separators(s) == 0
  {
    if s != "" {
      FlatHasNoSeparators(s[1..]);
    }
  }

  lemma {:induction false} DepthOfJoin(parts: seq<string>)
    requires parts != [] && forall p <- parts :: Flat(p)
    ensures Depth(Join(parts)) == |parts|
  {
    FlatHasNoSeparators(parts[0]);
    if |parts| > 1 {
      DepthOfJoin(parts[1..]);
      SeparatorsAppend(parts[0] + [SEPARATOR], Join(parts[1..]));
      SeparatorsAppend(parts[0], [SEPARATOR]);
    }
  }

  /** Counting separators counts segments. */
  lemma DepthCountsSegments(norm: string)
    requires Normal(norm) && norm != ""
    ensures Depth(norm) == |SplitCategory(norm)|
  {
    SplitCategoryCanonical(norm);
    DepthOfJoin(SplitCategory(norm));
  }

  // ------------------------------------------------------------ longest prefix

  /** The non-empty normal forms of a configured list. */
  function NormalNames(configured: seq<string>): set<string> {
    set raw | raw in configured && NormalizeCategory(raw) != "" :: NormalizeCategory(raw)
  }

  /**
   Reference meaning of prefix matching: walk from the category towards the root
   and stop at the first name that is configured.
   */
  function NearestConfigured(parts: seq<string>, names: set<string>): Option<string> {
    if parts == [] then None
    else if Join(parts) in names then Some(Join(parts))
    else NearestConfigured(parts[..|parts| - 1], names)
  }

  /** What `matches_configured` promises, stated on the set of configured names. */
  function ConfiguredOwner(category: string, names: set<string>, prefix: bool): Option<string> {
    var target := NormalizeCategory(category);
    if prefix then NearestConfigured(SplitCategory(category), names)
    else if target != "" && target in names then Some(target)
    else None
  }

  predicate AncestorOrSelf(category: string, name: string) {
    (NormalizeCategory(category) == name && name != "") || IsSubcategoryOf(category, name)
  }

  lemma AncestorOrSelfIsPrefix(category: string, name: string)
    requires Normal(name)
    ensures AncestorOrSelf(category, name) <==>
            SplitCategory(name) != [] && SplitCategory(name) <= SplitCategory(category)
  {
    SubcategoryIsProperPrefix(category, name);
    SameSegmentsSameCategory(category, name);
    SplitCategoryCanonical(category);
    SplitCategoryCanonical(name);
  }

  lemma {:induction false} NearestIsDeepest(parts: seq<string>, names: set<string>)
    requires Canonical(parts) && forall n <- names :: Normal(n)
    ensures NearestConfigured(parts, names).None? ==>
              forall n <- names :: !(SplitCategory(n) != [] && SplitCategory(n) <= parts)
    ensures NearestConfigured(parts, names).Some? ==>
              var w := NearestConfigured(parts, names).value;
              w in names && SplitCategory(w) != [] && SplitCategory(w) <= parts &&
              forall n <- names :: SplitCategory(n) <= parts && n != w ==> |SplitCategory(n)| < |SplitCategory(w)|
  {
    if parts != [] {
      CanonicalRoundTrip(parts);
      var init := parts[..|parts| - 1];
      CanonicalSlice(parts, 0, |parts| - 1);
      forall n | n in names && SplitCategory(n) <= parts
        ensures n == Join(parts) || SplitCategory(n) <= init
      {
        SplitCategoryCanonical(n);
        if |SplitCategory(n)| == |parts| {
          assert SplitCategory(n) == parts;
        }
      }
      if Join(parts) !in names {
        NearestIsDeepest(init, names);
      }
    }
  }

  /**
   Prefix matching returns the exact name when it is configured, otherwise the
   unique deepest configured ancestor, and nothing only if there is none.
   */
  lemma OwnerIsUniqueDeepest(category: string, names: set<string>)
    requires forall n <- names :: Normal(n)
    ensures var owner := ConfiguredOwner(category, names, true);
            (owner == None <==> forall n <- names :: !AncestorOrSelf(category, n)) &&
            (owner.Some? ==> (owner.value in names && AncestorOrSelf(category, owner.value) &&
                              forall n <- names :: AncestorOrSelf(category, n) && n != owner.value ==>
                                                     Depth(n) < Depth(owner.value))) &&
            (NormalizeCategory(category) in names && NormalizeCategory(category) != "" ==>
              owner == Some(NormalizeCategory(category)))
  {
    var parts := SplitCategory(category);
    SplitCategoryCanonical(category);
    NearestIsDeepest(parts, names);
    forall n | n in names
      ensures AncestorOrSelf(category, n) <==> SplitCategory(n) != [] && SplitCategory(n) <= parts
      ensures n != "" ==> Depth(n) == |SplitCategory(n)|
    {
      AncestorOrSelfIsPrefix(category, n);
      if n != "" { DepthCountsSegments(n); }
    }
  }

  /** Without prefix matching the owner is the configured name with the very segments of the category. */
  lemma ExactOwner(category: string, names: set<string>, name: string)
    requires forall n <- names :: Normal(n)
    ensures ConfiguredOwner(category, names, false) == Some(name) <==>
            name in names && SplitCategory(name) != [] && SplitCategory(name) == SplitCategory(category)
  {
    SplitCategoryCanonical(category);
    SplitCategoryCanonical(name);
    NormalizeIdempotent(category);
    if name in names {
      SameSegmentsSameCategory(name, category);
    }
  }

  /** A name that no configured ancestor-or-self beats in depth is the owner. */
  lemma DeepestIsOwner(category: string, names: set<string>, w: string)
    requires forall n <- names :: Normal(n)
    requires w in names && AncestorOrSelf(category, w)
    requires forall n <- names :: AncestorOrSelf(category, n) ==> Depth(n) <= Depth(w)
    ensures ConfiguredOwner(category, names, true) == Some(w)
  {
    OwnerIsUniqueDeepest(category, names);
  }

  lemma NormalNamesAreNormal(configured: seq<string>)
    ensures forall n <- NormalNames(configured) :: Normal(n) && n != ""
  {
    forall n | n in NormalNames(configured)
      ensures Normal(n) && n != ""
    {
      var raw :| raw in configured && NormalizeCategory(raw) == n;
      NormalizeIdempotent(raw);
    }
  }

  lemma NormalNamesStep(configured: seq<string>, k: nat)
    requires k < |configured|
    ensures var n := NormalizeCategory(configured[k]);
            NormalNames(configured[..k + 1]) == NormalNames(configured[..k]) + if n == "" then {} else {n}
  {
    assert configured[..k + 1] == configured[..k] + [configured[k]];
  }

  method CollectNames(configured: seq<string>, distinct: bool) returns (items: seq<string>)
    ensures forall n :: n in items <==> n in NormalNames(configured)
    ensures distinct ==> forall i, j :: 0 <= i < j < |items| ==> items[i] != items[j]
  {
    items := [];
    for k := 0 to |configured|
      invariant forall n :: n in items <==> n in NormalNames(configured[..k])
      invariant distinct ==> forall i, j :: 0 <= i < j < |items| ==> items[i] != items[j]
    {
      var n := NormalizeCategory(configured[k]);
      NormalNamesStep(configured, k);
      if n != "" && !(distinct && n in items) {
        items := items + [n];
      }
    }
    assert configured[..|configured|] == configured;
  }

  /** The running maximum over the first `k` names. */
  ghost predicate BestSoFar(target: string, seen: seq<string>, best: Option<(nat, string)>) {
    match best
    case None => forall i :: 0 <= i < |seen| ==> !IsSubcategoryOf(target, seen[i])
    case Some((depth, name)) =>
      name in seen && IsSubcategoryOf(target, name) && depth == Depth(name) &&
      forall i :: 0 <= i < |seen| && IsSubcategoryOf(target, seen[i]) ==> Depth(seen[i]) <= depth
  }

  lemma BestStep(target: string, seen: seq<string>, name: string, best: Option<(nat, string)>)
    requires BestSoFar(target, seen, best)
    ensures BestSoFar(target, seen + [name],
                      if IsSubcategoryOf(target, name) && (best.None? || Depth(name) > best.value.0)
                      then Some((Depth(name), name)) else best)
  {
    hide IsSubcategoryOf, Depth;
    assert name in seen + [name] && forall n <- seen :: n in seen + [name];
  }

  method LongestPrefix(target: string, normalised: seq<string>) returns (best: Option<(nat, string)>)
    ensures BestSoFar(target, normalised, best)
  {
    hide IsSubcategoryOf, Depth;
    best := None;
    for k := 0 to |normalised|
      invariant BestSoFar(target, normalised[..k], best)
    {
      var norm := normalised[k];
      assert normalised[..k + 1] == normalised[..k] + [norm];
      BestStep(target, normalised[..k], norm, best);
      if IsSubcategoryOf(target, norm) {
        var depth := Depth(norm);
        if best.None? || depth > best.value.0 {
          best := Some((depth, norm));
        }
      }
    }
    assert normalised[..|normalised|] == normalised;
  }

  lemma BestIsOwner(category: string, configured: seq<string>, normalised: seq<string>, best: Option<(nat, string)>)
    requires forall n :: n in normalised <==> n in NormalNames(configured)
    requires NormalizeCategory(category) !in normalised
    requires BestSoFar(NormalizeCategory(category), normalised, best)
    ensures ConfiguredOwner(category, NormalNames(configured), true) == if best.None? then None else Some(best.value.1)
  {
    var names := NormalNames(configured);
    NormalNamesAreNormal(configured);
    OwnerIsUniqueDeepest(category, names);
    NormalizeIdempotent(category);
    forall n | n in names
      ensures AncestorOrSelf(category, n) <==> IsSubcategoryOf(NormalizeCategory(category), n)
    {
    }
    if best.Some? {
      forall n | n in names && AncestorOrSelf(category, n)
        ensures Depth(n) <= Depth(best.value.1)
      {
        var i :| 0 <= i < |normalised| && normalised[i] == n;
      }
      DeepestIsOwner(category, names, best.value.1);
    }
  }

  /**
   `matches_configured`: the loops compute the reference owner, so the order
   (and repetition) of the configured names cannot matter.
   */
  method MatchesConfigured(category: string, configured: seq<string>, prefix: bool)
    returns (owner: Option<string>)
    ensures owner == ConfiguredOwner(category, NormalNames(configured), prefix)
  {
    var target := NormalizeCategory(category);
    SplitCategoryCanonical(category);
    if target == "" {
      return None;
    }
    var normalised := CollectNames(configured, false);
    for k := 0 to |normalised|
      invariant target !in normalised[..k]
    {
      if normalised[k] == target {
        NormalNamesAreNormal(configured);
        OwnerIsUniqueDeepest(category, NormalNames(configured));
        return Some(target);
      }
    }
    if !prefix {
      return None;
    }
    var best := LongestPrefix(target, normalised);
    BestIsOwner(category, configured, normalised, best);
    owner := if best.None? then None else Some(best.value.1);
  }

  // ------------------------------------------------------------------ overlaps

  predicate Overlap(names: seq<string>, pair: (string, string)) {
    pair.0 in names && pair.1 in names && IsSubcategoryOf(pair.1, pair.0)
  }

  method ChildrenOf(parent: string, items: seq<string>) returns (out: seq<(string, string)>)
    requires forall i, j :: 0 <= i < j < |items| ==> items[i] != items[j]
    ensures forall pair :: pair in out <==> pair.0 == parent && pair.1 in items && IsSubcategoryOf(pair.1, parent)
    ensures forall i, j :: 0 <= i < j < |out| ==> out[i] != out[j]
  {
    out := [];
    for j := 0 to |items|
      invariant forall pair :: pair in out <==>
                  pair.0 == parent && pair.1 in items[..j] && IsSubcategoryOf(pair.1, parent)
      invariant forall x, y :: 0 <= x < y < |out| ==> out[x] != out[y]
    {
      var child := items[j];
      assert items[..j + 1] == items[..j] + [child];
      assert child !in items[..j];
      if parent != child {
        if IsSubcategoryOf(child, parent) {
          out := out + [(parent, child)];
        }
      }
    }
    assert items[..|items|] == items;
  }

  /**
   `find_overlap_conflicts`: exactly the ancestor/descendant pairs among the
   configured names, each once.
   */
  method FindOverlapConflicts(configured: seq<string>) returns (out: seq<(string, string)>)
    ensures forall p, c :: (p, c) in out <==>
                             p in NormalNames(configured) && c in NormalNames(configured) && IsSubcategoryOf(c, p)
    ensures forall i, j :: 0 <= i < j < |out| ==> out[i] != out[j]
  {
    var items := CollectNames(configured, true);
    out := [];
    for i := 0 to |items|
      invariant forall pair :: pair in out <==> pair.0 in items[..i] && Overlap(items, pair)
      invariant forall x, y :: 0 <= x < y < |out| ==> out[x] != out[y]
    {
      assert items[..i + 1] == items[..i] + [items[i]];
      assert items[i] !in items[..i];
      var pairs := ChildrenOf(items[i], items);
      out := out + pairs;
    }
    assert items[..|items|] == items;
  }

  /** No overlap pair is reported exactly when no category can have two configured owners. */
  lemma NoOverlapIffUniqueOwner(names: set<string>)
    requires forall n <- names :: Normal(n) && n != ""
    ensures (forall p, c :: p in names && c in names ==> !IsSubcategoryOf(c, p)) <==>
            (forall category, a, b ::
               a in names && b in names && AncestorOrSelf(category, a) && AncestorOrSelf(category, b) ==> a == b)
  {
    if forall p, c :: p in names && c in names ==> !IsSubcategoryOf(c, p) {
      forall category, a, b |
        a in names && b in names && AncestorOrSelf(category, a) && AncestorOrSelf(category, b)
        ensures a == b
      {
        AncestorOrSelfIsPrefix(category, a);
        AncestorOrSelfIsPrefix(category, b);
        SubcategoryIsProperPrefix(a, b);
        SubcategoryIsProperPrefix(b, a);
        SameSegmentsSameCategory(a, b);
      }
    } else {
      var p, c :| p in names && c in names && IsSubcategoryOf(c, p);
      assert AncestorOrSelf(c, c) && AncestorOrSelf(c, p);
    }
  }
}
