/**
 Sorting a remote torrent queue by repeated "move this one to the top" calls
 (`ArrBase._sort_torrents_by_tracker_priority`).

 The client keeps two queues.  The only operation is to promote one torrent to
 the head of its queue, any call may fail to take effect, and the job is
 skipped when the order already matches.
 */
module QueueSort {
  import opened Wrappers
  import opened Sequences
  import opened StableSort

  const DEFAULT_PRIORITY := -100
  const IGNORED_TAG := "qBitrr-ignored"

  /** The position the client reports for a torrent in no queue, and for all of them while queuing is off. */
  const UNQUEUED := -1

  /** What the sort reads of a torrent apart from its queue position. */
  datatype Info = Info(hash: string, name: string, addedOn: int, seeding: bool, owner: Option<string>, tags: string)

  datatype Torrent = Torrent(info: Info, position: int)

  // ------------------------------------------------------------ the sort keys

  /** Lexicographic order by code point. */
  predicate LexLe(a: string, b: string) {
    a == "" || (b != "" && (a[0] < b[0] || (a[0] == b[0] && LexLe(a[1..], b[1..]))))
  }

  lemma {:induction false} LexTotal(a: string, b: string)
    ensures LexLe(a, b) || LexLe(b, a)
    ensures LexLe(a, b) && LexLe(b, a) ==> a == b
  {
    if a != "" && b != "" {
      LexTotal(a[1..], b[1..]);
      if a[0] == b[0] {
        assert a == [a[0]] + a[1..] && b == [b[0]] + b[1..];
      }
    }
  }

  lemma {:induction false} LexTransitive(a: string, b: string, c: string)
    requires LexLe(a, b) && LexLe(b, c)
    ensures LexLe(a, c)
  {
    if a != "" && a[0] == b[0] == c[0] {
      LexTransitive(a[1..], b[1..], c[1..]);
    }
  }

  /** At `k`, the first difference, `a` has ended or has the smaller code point. */
  ghost predicate SmallerAt(a: string, b: string, k: nat) {
    k < |b| && k <= |a| && a[..k] == b[..k] && (k == |a| || a[k] < b[k])
  }

  ghost predicate FirstByCodePoint(a: string, b: string) {
    a == b || exists k: nat :: SmallerAt(a, b, k)
  }

  lemma {:induction false} FirstDifference(a: string, b: string) returns (k: nat)
    requires LexLe(a, b) && a != b
    ensures SmallerAt(a, b, k)
  {
    if a == "" || a[0] < b[0] {
      k := 0;
    } else {
      assert a == [a[0]] + a[1..] && b == [b[0]] + b[1..];
      k := FirstDifference(a[1..], b[1..]);
      assert a[..k + 1] == [a[0]] + a[1..][..k] && b[..k + 1] == [b[0]] + b[1..][..k];
      k := k + 1;
    }
  }

  lemma {:induction false} SmallerIsFirst(a: string, b: string, k: nat)
    requires SmallerAt(a, b, k)
    ensures LexLe(a, b)
  {
    if k > 0 {
      assert a[..k][0] == b[..k][0];
      assert a[1..][..k - 1] == a[..k][1..] && b[1..][..k - 1] == b[..k][1..];
      SmallerIsFirst(a[1..], b[1..], k - 1);
    }
  }

  lemma LexLeMeans(a: string, b: string)
    ensures LexLe(a, b) <==> FirstByCodePoint(a, b)
  {
    LexTotal(a, b);
    if a != b && LexLe(a, b) {
      var k := FirstDifference(a, b);
    }
    if k: nat :| SmallerAt(a, b, k) {
      SmallerIsFirst(a, b, k);
    }
  }

  function PriorityOf(priorities: map<string, int>, hash: string): int {
    if hash in priorities then priorities[hash] else DEFAULT_PRIORITY
  }

  /** The key `(-priority, -added_on, name, hash)`. */
  predicate KeyLe(priorities: map<string, int>, a: Info, b: Info) {
    var pa, pb := PriorityOf(priorities, a.hash), PriorityOf(priorities, b.hash);
    pa > pb ||
    (pa == pb && (a.addedOn > b.addedOn ||
                  (a.addedOn == b.addedOn && NameHashLe(a, b))))
  }

  predicate NameHashLe(a: Info, b: Info) {
    if a.name != b.name then LexLe(a.name, b.name) else LexLe(a.hash, b.hash)
  }

  function ByKey(priorities: map<string, int>): (Info, Info) -> bool {
    (a: Info, b: Info) => KeyLe(priorities, a, b)
  }

  function TorrentsByKey(priorities: map<string, int>): (Torrent, Torrent) -> bool {
    (a: Torrent, b: Torrent) => KeyLe(priorities, a.info, b.info)
  }

  /** The key `(not position > 0, position)`. */
  predicate PositionLe(a: Torrent, b: Torrent) {
    if (a.position > 0) != (b.position > 0) then a.position > 0 else a.position <= b.position
  }

  lemma KeyIsTotal(priorities: map<string, int>)
    ensures TotalPreorder(ByKey(priorities))
    ensures forall a, b :: KeyLe(priorities, a, b) && KeyLe(priorities, b, a) ==> a.hash == b.hash
  {
    forall a: Info, b: Info
      ensures KeyLe(priorities, a, b) || KeyLe(priorities, b, a)
      ensures KeyLe(priorities, a, b) && KeyLe(priorities, b, a) ==> a.hash == b.hash
    {
      LexTotal(a.name, b.name);
      LexTotal(a.hash, b.hash);
    }
    forall a: Info, b: Info, c: Info | KeyLe(priorities, a, b) && KeyLe(priorities, b, c)
      ensures KeyLe(priorities, a, c)
    {
      KeyTransitive(priorities, a, b, c);
    }
  }

  lemma KeyTransitive(priorities: map<string, int>, a: Info, b: Info, c: Info)
    requires KeyLe(priorities, a, b) && KeyLe(priorities, b, c)
    ensures KeyLe(priorities, a, c)
  {
    if NameHashLe(a, b) && NameHashLe(b, c) {
      LexTotal(a.name, b.name);
      LexTotal(b.name, c.name);
      if LexLe(a.name, b.name) && LexLe(b.name, c.name) {
        LexTransitive(a.name, b.name, c.name);
      }
      if LexLe(a.hash, b.hash) && LexLe(b.hash, c.hash) {
        LexTransitive(a.hash, b.hash, c.hash);
      }
    }
  }

  // -------------------------------------------------------- orders of a listing

  function Infos(ts: seq<Torrent>): seq<Info> {
    if ts == [] then [] else [ts[0].info] + Infos(ts[1..])
  }

  function Hashes(infos: seq<Info>): seq<string> {
    if infos == [] then [] else [infos[0].hash] + Hashes(infos[1..])
  }

  function InQueue(seeding: bool): Info -> bool {
    (i: Info) => i.seeding == seeding
  }

  /** `desired_*_order`: the sorted monitored torrents of one queue. */
  function DesiredOrder(infos: seq<Info>, priorities: map<string, int>, seeding: bool): seq<string> {
    Hashes(Filter(InQueue(seeding), SortBy(ByKey(priorities), infos)))
  }

  /** `current_*_order`: the monitored torrents of one queue by reported position. */
  function CurrentOrder(ts: seq<Torrent>, seeding: bool): seq<string> {
    Hashes(Filter(InQueue(seeding), Infos(SortBy(PositionLe, ts))))
  }

  ghost predicate UniqueHashes(infos: seq<Info>) {
    forall i, j :: 0 <= i < j < |infos| ==> infos[i].hash != infos[j].hash
  }

  lemma {:induction false} InfosLength(ts: seq<Torrent>)
    ensures |Infos(ts)| == |ts| && forall i :: 0 <= i < |ts| ==> Infos(ts)[i] == ts[i].info
  {
    if ts != [] {
      InfosLength(ts[1..]);
    }
  }

  lemma {:induction false} HashesLength(infos: seq<Info>)
    ensures |Hashes(infos)| == |infos| && forall i :: 0 <= i < |infos| ==> Hashes(infos)[i] == infos[i].hash
  {
    if infos != [] {
      HashesLength(infos[1..]);
    }
  }

  lemma {:induction false} InsertInfos(priorities: map<string, int>, t: Torrent, ts: seq<Torrent>)
    ensures Infos(Insert(TorrentsByKey(priorities), t, ts)) == Insert(ByKey(priorities), t.info, Infos(ts))
  {
    if ts != [] {
      InsertInfos(priorities, t, ts[1..]);
      assert Infos(ts)[1..] == Infos(ts[1..]);
      assert Infos([t] + ts) == [t.info] + Infos(ts);
    }
  }

  /** Sorting torrents by key is sorting their position-free parts. */
  lemma {:induction false} SortInfos(priorities: map<string, int>, ts: seq<Torrent>)
    ensures Infos(SortBy(TorrentsByKey(priorities), ts)) == SortBy(ByKey(priorities), Infos(ts))
  {
    if ts != [] {
      SortInfos(priorities, ts[1..]);
      InsertInfos(priorities, ts[0], SortBy(TorrentsByKey(priorities), ts[1..]));
      assert Infos(ts)[1..] == Infos(ts[1..]);
    }
  }

  /** The desired order does not depend on the order of the listing, since the key ends in the hash. */
  lemma DesiredOrderIgnoresListing(a: seq<Info>, b: seq<Info>, priorities: map<string, int>, seeding: bool)
    requires multiset(a) == multiset(b) && UniqueHashes(a)
    ensures DesiredOrder(a, priorities, seeding) == DesiredOrder(b, priorities, seeding)
  {
    var le := ByKey(priorities);
    KeyIsTotal(priorities);
    SortPermutes(le, a);
    SortPermutes(le, b);
    SortSorts(le, a);
    SortSorts(le, b);
    SortedIsUnique(le, SortBy(le, a), SortBy(le, b));
  }

  /** The desired order lists exactly the monitored torrents of the queue, without repetition. */
  lemma DesiredOrderShape(infos: seq<Info>, priorities: map<string, int>, seeding: bool)
    requires UniqueHashes(infos)
    ensures var d := DesiredOrder(infos, priorities, seeding);
            Distinct(d) && forall h :: h in d <==> exists i <- infos :: i.hash == h && i.seeding == seeding
  {
    var sorted := SortBy(ByKey(priorities), infos);
    SortPermutes(ByKey(priorities), infos);
    PermutedUniqueHashes(infos, sorted);
    FilteredHashes(sorted, seeding);
  }

  lemma PermutedUniqueHashes(a: seq<Info>, b: seq<Info>)
    requires multiset(a) == multiset(b) && UniqueHashes(a)
    ensures UniqueHashes(b)
  {
    SameElements(a, b);
    UniqueHashesMultiset(a);
    forall i, j | 0 <= i < j < |b|
      ensures b[i].hash != b[j].hash
    {
      assert b[i] in a && b[j] in a;
      if b[i] == b[j] {
        TwiceInMultiset(b, i, j);
      }
    }
  }

  lemma UniqueHashesMultiset(a: seq<Info>)
    requires UniqueHashes(a)
    ensures forall x :: multiset(a)[x] <= 1
  {
    forall x
      ensures multiset(a)[x] <= 1
    {
      CountInDistinct(a, x);
    }
  }

  lemma TwiceInMultiset<T>(b: seq<T>, i: nat, j: nat)
    requires i < j < |b| && b[i] == b[j]
    ensures multiset(b)[b[i]] >= 2
  {
    assert b == b[..i] + [b[i]] + b[i + 1..j] + [b[j]] + b[j + 1..];
  }

  lemma {:induction false} FilteredHashes(infos: seq<Info>, seeding: bool)
    requires UniqueHashes(infos)
    ensures var d := Hashes(Filter(InQueue(seeding), infos));
            Distinct(d) && forall h :: h in d <==> exists i <- infos :: i.hash == h && i.seeding == seeding
  {
    hide Filter, Hashes;
    var kept := Filter(InQueue(seeding), infos);
    FilterMembers(InQueue(seeding), infos);
    HashesLength(kept);
    FilterUniqueHashes(infos, seeding);
    var d := Hashes(kept);
    forall h
      ensures h in d <==> exists i <- infos :: i.hash == h && i.seeding == seeding
    {
      if h in d {
        var k :| 0 <= k < |d| && d[k] == h;
        assert kept[k] in kept;
      }
      if exists i <- infos :: i.hash == h && i.seeding == seeding {
        var i :| i in infos && i.hash == h && i.seeding == seeding;
        assert InQueue(seeding)(i);
        assert i in kept;
      }
    }
  }

  lemma {:induction false} FilterUniqueHashes(infos: seq<Info>, seeding: bool)
    requires UniqueHashes(infos)
    ensures UniqueHashes(Filter(InQueue(seeding), infos))
  {
    if infos != [] {
      FilterUniqueHashes(infos[1..], seeding);
      FilterMembers(InQueue(seeding), infos[1..]);
      forall i | i in Filter(InQueue(seeding), infos[1..])
        ensures i.hash != infos[0].hash
      {
        assert i in infos[1..];
      }
    }
  }

  // -------------------------------------------------------- what the order means

  /** A higher priority comes first, then the later addition, then name and hash by code point. */
  ghost predicate MayPrecede(priorities: map<string, int>, x: Info, y: Info) {
    var px := if x.hash in priorities then priorities[x.hash] else -100;
    var py := if y.hash in priorities then priorities[y.hash] else -100;
    px >= py && (px == py ==> x.addedOn >= y.addedOn) &&
    (px == py && x.addedOn == y.addedOn ==> FirstByCodePoint(x.name, y.name)) &&
    (px == py && x.addedOn == y.addedOn && x.name == y.name ==> FirstByCodePoint(x.hash, y.hash))
  }

  lemma KeyMeans(priorities: map<string, int>, x: Info, y: Info)
    ensures KeyLe(priorities, x, y) <==> MayPrecede(priorities, x, y)
  {
    hide FirstByCodePoint, LexLe;
    LexLeMeans(x.name, y.name);
    LexLeMeans(y.name, x.name);
    LexLeMeans(x.hash, y.hash);
    LexTotal(x.name, y.name);
  }

  /** A torrent that stands before another in the desired order of a queue is entitled to. */
  lemma DesiredOrderRanks(infos: seq<Info>, priorities: map<string, int>, seeding: bool, x: Info, y: Info, i: nat,
                          j: nat)
    requires UniqueHashes(infos) && x in infos && y in infos
    requires i < j < |DesiredOrder(infos, priorities, seeding)|
    requires DesiredOrder(infos, priorities, seeding)[i] == x.hash
    requires DesiredOrder(infos, priorities, seeding)[j] == y.hash
    ensures MayPrecede(priorities, x, y)
  {
    hide Filter, SortBy, KeyLe, MayPrecede;
    var le := ByKey(priorities);
    var sorted := SortBy(le, infos);
    var mine := Filter(InQueue(seeding), sorted);
    KeyIsTotal(priorities);
    SortSorts(le, infos);
    SortPermutes(le, infos);
    FilterSorted(le, InQueue(seeding), sorted);
    FilterMembers(InQueue(seeding), sorted);
    HashesLength(mine);
    assert mine[i] in infos && mine[j] in infos;
    assert mine[i] == x && mine[j] == y;
    assert le(x, y);
    KeyMeans(priorities, x, y);
  }

  /** No torrent of the listing stands before one that it may not precede. */
  ghost predicate Ranked(queue: seq<string>, infos: seq<Info>, priorities: map<string, int>) {
    forall x, y :: x in infos && y in infos && StandsBefore(queue, x.hash, y.hash) ==> MayPrecede(priorities, x, y)
  }

  ghost predicate StandsBefore(queue: seq<string>, a: string, b: string) {
    exists i, j :: 0 <= i < j < |queue| && queue[i] == a && queue[j] == b
  }

  lemma StandsBeforeStep(queue: seq<string>, a: string, b: string)
    requires queue != []
    ensures StandsBefore(queue, a, b) <==> (queue[0] == a && b in queue[1..]) || StandsBefore(queue[1..], a, b)
  {
    var rest := queue[1..];
    if i, j :| 0 <= i < j < |queue| && queue[i] == a && queue[j] == b {
      assert rest[j - 1] == b && (i > 0 ==> rest[i - 1] == a);
    }
    if queue[0] == a && b in rest {
      var j :| 0 <= j < |rest| && rest[j] == b;
      assert queue[j + 1] == b;
    }
    if i, j :| 0 <= i < j < |rest| && rest[i] == a && rest[j] == b {
      assert queue[i + 1] == a && queue[j + 1] == b;
    }
  }

  /** Filtering keeps the order of what passes. */
  lemma {:induction false} FilterKeepsPlaces(p: string -> bool, queue: seq<string>, a: string, b: string)
    requires p(a) && p(b)
    ensures StandsBefore(queue, a, b) <==> StandsBefore(Filter(p, queue), a, b)
  {
    hide StandsBefore, Filter;
    if queue == [] {
      FilterAll(p, queue);
    } else {
      FilterKeepsPlaces(p, queue[1..], a, b);
      FilterStep(p, queue);
      FilterMembers(p, queue[1..]);
      StandsBeforeStep(queue, a, b);
      if p(queue[0]) {
        StandsBeforeStep(Filter(p, queue), a, b);
      }
    }
  }

  /** A queue in desired relative order is ranked. */
  lemma SettledRanks(queue: seq<string>, infos: seq<Info>, priorities: map<string, int>, seeding: bool)
    requires UniqueHashes(infos) && forall i <- infos :: i.hash in queue ==> i.seeding == seeding
    requires Settled(queue, DesiredOrder(infos, priorities, seeding))
    ensures Ranked(queue, infos, priorities)
  {
    hide Filter, DesiredOrder, MayPrecede;
    var desired := DesiredOrder(infos, priorities, seeding);
    DesiredOrderShape(infos, priorities, seeding);
    forall x, y | x in infos && y in infos && StandsBefore(queue, x.hash, y.hash)
      ensures MayPrecede(priorities, x, y)
    {
      FilterKeepsPlaces(Inside(desired), queue, x.hash, y.hash);
      FilterKeepsPlaces(Inside(queue), desired, x.hash, y.hash);
      var i, j :| 0 <= i < j < |desired| && desired[i] == x.hash && desired[j] == y.hash;
      DesiredOrderRanks(infos, priorities, seeding, x, y, i, j);
    }
  }

  // ------------------------------------------------------------- move to front

  function MoveToTop(queue: seq<string>, hash: string): seq<string> {
    if hash in queue then [hash] + Filter((h: string) => h != hash, queue) else queue
  }

  function Moved(desired: seq<string>, effective: set<string>): string -> bool {
    (h: string) => h in desired && h in effective
  }

  function NotMoved(desired: seq<string>, effective: set<string>): string -> bool {
    (h: string) => !(h in desired && h in effective)
  }

  /**
   What the promotions leave: the torrents whose call took effect, in desired
   order, then every other torrent in its old relative order.
   */
  function Promoted(queue: seq<string>, desired: seq<string>, effective: set<string>): seq<string> {
    Filter(Moved(desired, effective), desired) + Filter(NotMoved(desired, effective), queue)
  }

  lemma {:induction false} PromotedNothing(queue: seq<string>, effective: set<string>)
    ensures Promoted(queue, [], effective) == queue
  {
    FilterAll(NotMoved([], effective), queue);
  }

  /** A call for a torrent that sits in no queue has no effect. */
  function Queued(queue: seq<string>, effective: set<string>): set<string> {
    set h | h in effective && h in queue
  }

  lemma PromotedRestHolds(queue: seq<string>, h: string, rest: seq<string>, effective: set<string>)
    requires h !in rest && h in queue
    ensures h !in Filter(Moved(rest, effective), rest) && h in Filter(NotMoved(rest, effective), queue)
  {
    FilterMembers(Moved(rest, effective), rest);
    FilterMembers(NotMoved(rest, effective), queue);
    assert NotMoved(rest, effective)(h);
  }

  lemma PromoteEffective(queue: seq<string>, h: string, rest: seq<string>, effective: set<string>)
    requires h !in rest && h in queue && h in effective
    ensures MoveToTop(Promoted(queue, rest, effective), h) ==
            [h] + (Filter(Moved(rest, effective), rest) + Filter(NotMoved([h] + rest, effective), queue))
  {
    var front := Filter(Moved(rest, effective), rest);
    var back := Filter(NotMoved(rest, effective), queue);
    var others := (x: string) => x != h;
    PromotedRestHolds(queue, h, rest, effective);
    FilterAll(others, front);
    FilterTwice(others, NotMoved(rest, effective), NotMoved([h] + rest, effective), queue);
    FilterAppend(others, front, back);
  }

  /** Promoting the next higher torrent extends the promoted prefix. */
  lemma PromoteNext(queue: seq<string>, desired: seq<string>, effective: set<string>)
    requires desired != [] && Distinct(desired) && (desired[0] in effective ==> desired[0] in queue)
    ensures Promoted(queue, desired, effective) ==
            if desired[0] in effective then MoveToTop(Promoted(queue, desired[1..], effective), desired[0])
            else Promoted(queue, desired[1..], effective)
  {
    hide Filter, MoveToTop;
    var h, rest := desired[0], desired[1..];
    assert desired == [h] + rest;
    assert h !in rest;
    FilterStep(Moved(desired, effective), desired);
    FilterSame(Moved(desired, effective), Moved(rest, effective), rest);
    if h in effective {
      PromoteEffective(queue, h, rest, effective);
      Associates([h], Filter(Moved(rest, effective), rest), Filter(NotMoved(desired, effective), queue));
    } else {
      FilterSame(NotMoved(desired, effective), NotMoved(rest, effective), queue);
    }
  }

  function Inside(queue: seq<string>): string -> bool {
    (h: string) => h in queue
  }

  function Outside(queue: seq<string>): string -> bool {
    (h: string) => h !in queue
  }

  /** With no failure the queued monitored torrents lead, in desired order, and the rest keep their order. */
  lemma AllMovedLead(queue: seq<string>, desired: seq<string>, effective: set<string>)
    requires forall h <- desired :: h in effective <==> h in queue
    ensures Promoted(queue, desired, effective) == Filter(Inside(queue), desired) + Filter(Outside(desired), queue)
    ensures (forall h <- desired :: h in queue) ==> desired <= Promoted(queue, desired, effective)
  {
    FilterSame(Moved(desired, effective), Inside(queue), desired);
    FilterSame(NotMoved(desired, effective), Outside(desired), queue);
    if forall h <- desired :: h in queue {
      FilterAll(Inside(queue), desired);
    }
  }

  /** A queue is settled when its monitored torrents are in desired relative order. */
  predicate Settled(queue: seq<string>, desired: seq<string>) {
    Filter(Inside(desired), queue) == Filter(Inside(queue), desired)
  }

  lemma AllMovedSettles(queue: seq<string>, desired: seq<string>, effective: set<string>)
    requires forall h <- desired :: h in effective <==> h in queue
    ensures Settled(Promoted(queue, desired, effective), desired)
  {
    hide Filter, Promoted;
    var front, tail := Filter(Inside(queue), desired), Filter(Outside(desired), queue);
    AllMovedLead(queue, desired, effective);
    FilterMembers(Inside(queue), desired);
    FilterMembers(Outside(desired), queue);
    FilterAll(Inside(desired), front);
    FilterNone(Inside(desired), tail);
    FilterAppend(Inside(desired), front, tail);
    FilterSame(Inside(front + tail), Inside(queue), desired);
  }

  lemma PromotedKeepsMembers(queue: seq<string>, desired: seq<string>, effective: set<string>)
    requires Distinct(queue) && Distinct(desired) && forall h <- desired :: h in effective ==> h in queue
    ensures var p := Promoted(queue, desired, effective);
            Distinct(p) && multiset(p) == multiset(queue)
  {
    var front := Filter(Moved(desired, effective), desired);
    var back := Filter(NotMoved(desired, effective), queue);
    FilterMembers(Moved(desired, effective), desired);
    FilterMembers(NotMoved(desired, effective), queue);
    FilterDistinct(Moved(desired, effective), desired);
    FilterDistinct(NotMoved(desired, effective), queue);
    forall x, y | x in front && y in back
      ensures x != y
    {
      assert Moved(desired, effective)(x) && NotMoved(desired, effective)(y);
    }
    DistinctAppend(front, back);
    forall h
      ensures h in front + back <==> h in queue
    {
      if h in queue {
        assert Moved(desired, effective)(h) || NotMoved(desired, effective)(h);
      }
    }
    DistinctSameSet(front + back, queue);
  }

  // ------------------------------------------------------------------ the client

  class Client {
    var downloading: seq<string>
    var seeding: seq<string>

    ghost predicate Valid()
      reads this
    {
      Distinct(downloading) && Distinct(seeding) && forall h <- downloading :: h !in seeding
    }

    constructor (downloading: seq<string>, seeding: seq<string>)
      ensures this.downloading == downloading && this.seeding == seeding
    {
      this.downloading := downloading;
      this.seeding := seeding;
    }

    function Queue(isSeeding: bool): seq<string>
      reads this
    {
      if isSeeding then seeding else downloading
    }

    /** `torrents_top_priority`; `takesEffect` is the client's choice, reported or not. */
    method TopPriority(hash: string, takesEffect: bool)
      requires Valid()
      modifies this
      ensures Valid()
      ensures downloading == if takesEffect then MoveToTop(old(downloading), hash) else old(downloading)
      ensures seeding == if takesEffect then MoveToTop(old(seeding), hash) else old(seeding)
    {
      if takesEffect {
        MoveToTopMembers(downloading, hash);
        MoveToTopMembers(seeding, hash);
        downloading := MoveToTop(downloading, hash);
        seeding := MoveToTop(seeding, hash);
      }
    }

    /** Whether a listing describes this client: no torrent sits in the queue that its state excludes. */
    ghost predicate Describes(infos: seq<Info>)
      reads this
    {
      UniqueHashes(infos) && forall i <- infos :: i.hash !in Queue(!i.seeding)
    }
  }

  lemma MoveToTopMembers(queue: seq<string>, hash: string)
    requires Distinct(queue)
    ensures Distinct(MoveToTop(queue, hash))
    ensures forall h :: h in MoveToTop(queue, hash) <==> h in queue
    ensures hash !in queue ==> MoveToTop(queue, hash) == queue
  {
    FilterMembers((h: string) => h != hash, queue);
    FilterDistinct((h: string) => h != hash, queue);
  }

  lemma PromotedMembers(queue: seq<string>, desired: seq<string>, effective: set<string>)
    requires Distinct(queue) && Distinct(desired)
    ensures forall h :: h in Promoted(queue, desired, Queued(queue, effective)) <==> h in queue
  {
    hide Promoted;
    PromotedKeepsMembers(queue, desired, Queued(queue, effective));
    SameElements(Promoted(queue, desired, Queued(queue, effective)), queue);
  }

  /** The promotions of one queue, lowest first. */
  method PromoteQueue(client: Client, desired: seq<string>, isSeeding: bool, effective: set<string>)
    returns (calls: seq<string>)
    requires client.Valid() && Distinct(desired) && forall h <- desired :: h !in client.Queue(!isSeeding)
    modifies client
    ensures client.Valid()
    ensures var queue := old(client.Queue(isSeeding));
            client.Queue(isSeeding) == Promoted(queue, desired, Queued(queue, effective)) &&
            forall h :: h in client.Queue(isSeeding) <==> h in queue
    ensures client.Queue(!isSeeding) == old(client.Queue(!isSeeding))
    ensures IsReverse(calls, desired)
  {
    hide Promoted, Filter, MoveToTop;
    calls := [];
    ghost var before := client.Queue(isSeeding);
    ghost var moving := Queued(before, effective);
    PromotedNothing(before, moving);
    assert desired[|desired|..] == [];
    var k := |desired|;
    while k > 0
      invariant 0 <= k <= |desired|
      invariant client.Valid()
      invariant client.Queue(isSeeding) == Promoted(before, desired[k..], moving)
      invariant client.Queue(!isSeeding) == old(client.Queue(!isSeeding))
      invariant |calls| == |desired| - k && forall i :: 0 <= i < |calls| ==> calls[i] == desired[|desired| - 1 - i]
    {
      k := k - 1;
      assert desired[k..][1..] == desired[k + 1..];
      PromoteNext(before, desired[k..], moving);
      PromotedMembers(before, desired[k + 1..], effective);
      MoveToTopMembers(client.Queue(isSeeding), desired[k]);
      MoveToTopMembers(client.Queue(!isSeeding), desired[k]);
      assert desired[k] in desired;
      client.TopPriority(desired[k], desired[k] in effective);
      calls := calls + [desired[k]];
    }
    assert desired[0..] == desired;
    PromotedMembers(before, desired, effective);
  }

  /** The client lists a torrent's tags as one string, so the test for a tag is a substring test. */
  predicate Mentions(tags: string, tag: string) {
    exists i :: 0 <= i <= |tags| && tag <= tags[i..]
  }

  predicate Monitored(categories: set<string>, t: Torrent) {
    categories == {} || (t.info.owner.Some? && t.info.owner.value in categories && !Mentions(t.info.tags, IGNORED_TAG))
  }

  function MonitoredOf(categories: set<string>, listing: seq<Torrent>): seq<Torrent> {
    Filter((t: Torrent) => Monitored(categories, t), listing)
  }

  /** The monitored torrents: owned by a monitored category and not labelled as ignored. */
  lemma MonitoredMeans(categories: set<string>, listing: seq<Torrent>, t: Torrent)
    ensures t in MonitoredOf(categories, listing) <==>
            t in listing &&
            (categories == {} ||
             ((exists owner <- categories :: t.info.owner == Some(owner)) &&
              !exists i: nat :: OccursAt("qBitrr-ignored", t.info.tags, i)))
  {
    FilterMembers((t: Torrent) => Monitored(categories, t), listing);
    var tags := t.info.tags;
    if i :| 0 <= i <= |tags| && IGNORED_TAG <= tags[i..] {
      assert tags[i..i + |IGNORED_TAG|] == tags[i..][..|IGNORED_TAG|];
      assert OccursAt(IGNORED_TAG, tags, i);
    }
    if i: nat :| OccursAt(IGNORED_TAG, tags, i) {
      assert tags[i..][..|IGNORED_TAG|] == tags[i..i + |IGNORED_TAG|];
      assert Mentions(tags, IGNORED_TAG);
    }
  }

  predicate OccursAt(part: string, s: string, i: nat) {
    i + |part| <= |s| && s[i..i + |part|] == part
  }

  predicate IsReverse(a: seq<string>, b: seq<string>) {
    |a| == |b| && forall i :: 0 <= i < |a| ==> a[i] == b[|b| - 1 - i]
  }

  /** The skip test: both queues already show the desired order. */
  predicate InOrder(ts: seq<Torrent>, priorities: map<string, int>) {
    CurrentOrder(ts, false) == DesiredOrder(Infos(ts), priorities, false) &&
    CurrentOrder(ts, true) == DesiredOrder(Infos(ts), priorities, true)
  }

  /** The queue after one sort of the instance. */
  ghost function SortedQueue(queue: seq<string>, ts: seq<Torrent>, priorities: map<string, int>, seeding: bool,
                             effective: set<string>): seq<string> {
    if |ts| <= 1 || InOrder(ts, priorities) then queue
    else Promoted(queue, DesiredOrder(Infos(ts), priorities, seeding), Queued(queue, effective))
  }

  /**
   One instance of `_sort_torrents_by_tracker_priority`; `listing` is `None`
   when both listing requests fail.  `effective` holds the torrents whose call
   takes effect: any set, so any subset of the calls may fail.
   */
  method SortInstance(client: Client, listing: Option<seq<Torrent>>, categories: set<string>,
                      priorities: map<string, int>, effective: set<string>)
    returns (calls: seq<string>)
    requires client.Valid()
    requires listing.Some? ==> client.Describes(Infos(MonitoredOf(categories, listing.value)))
    modifies client
    ensures client.Valid()
    ensures listing.None? ==> calls == [] && unchanged(client)
    ensures listing.Some? ==>
              var ts := MonitoredOf(categories, listing.value);
              (forall s :: client.Queue(s) == SortedQueue(old(client.Queue(s)), ts, priorities, s, effective)) &&
              (calls == [] <==> |ts| <= 1 || InOrder(ts, priorities))
    ensures listing.Some? && calls != [] ==>
              var infos := Infos(MonitoredOf(categories, listing.value));
              var u, d := DesiredOrder(infos, priorities, true), DesiredOrder(infos, priorities, false);
              |calls| == |u| + |d| && IsReverse(calls[..|u|], u) && IsReverse(calls[|u|..], d)
    ensures listing.Some? && (forall h <- calls :: h in effective) ==>
              var ts := MonitoredOf(categories, listing.value);
              (forall s :: ReportsPositions(old(client.Queue(s)), ts, s)) ==>
                forall s :: Ranked(client.Queue(s), Infos(ts), priorities)
  {
    hide Filter, SortBy, KeyLe, PositionLe, Promoted, Hashes, Infos, Ranked, ReportsPositions;
    calls := [];
    if listing.None? {
      return;
    }
    var ts := MonitoredOf(categories, listing.value);
    var sorted := SortBy(TorrentsByKey(priorities), ts);
    SortInfos(priorities, ts);
    SortPermutes(TorrentsByKey(priorities), ts);
    forall s | ReportsPositions(client.Queue(s), ts, s) &&
               (|ts| <= 1 || InOrder(ts, priorities) || forall i <- Infos(ts) :: i.hash in effective)
      ensures Ranked(SortedQueue(client.Queue(s), ts, priorities, s, effective), Infos(ts), priorities)
    {
      RunRanks(client.Queue(s), ts, priorities, s, effective);
    }
    if |sorted| > 1 {
      var desiredDownloading := Hashes(Filter(InQueue(false), Infos(sorted)));
      var desiredSeeding := Hashes(Filter(InQueue(true), Infos(sorted)));
      if CurrentOrder(ts, false) == desiredDownloading && CurrentOrder(ts, true) == desiredSeeding {
        return;
      }
      DesiredOrderShape(Infos(ts), priorities, true);
      DesiredOrderShape(Infos(ts), priorities, false);
      var seedingCalls := PromoteQueue(client, desiredSeeding, true, effective);
      var downloadCalls := PromoteQueue(client, desiredDownloading, false, effective);
      calls := seedingCalls + downloadCalls;
      SomethingDesired(ts, priorities);
      AllCalled(Infos(ts), priorities, seedingCalls, downloadCalls);
    }
  }

  lemma AllCalled(infos: seq<Info>, priorities: map<string, int>, seedingCalls: seq<string>, downloadCalls: seq<string>)
    requires UniqueHashes(infos)
    requires IsReverse(seedingCalls, DesiredOrder(infos, priorities, true))
    requires IsReverse(downloadCalls, DesiredOrder(infos, priorities, false))
    ensures forall i <- infos :: i.hash in seedingCalls + downloadCalls
  {
    hide DesiredOrder;
    forall i | i in infos
      ensures i.hash in seedingCalls + downloadCalls
    {
      var d := DesiredOrder(infos, priorities, i.seeding);
      DesiredOrderShape(infos, priorities, i.seeding);
      assert i.hash in d;
      var k :| 0 <= k < |d| && d[k] == i.hash;
      assert (if i.seeding then seedingCalls else downloadCalls)[|d| - 1 - k] == i.hash;
    }
  }

  /** What a failure-free run makes of a queue whose torrents the listing describes. */
  lemma RunRanks(queue: seq<string>, ts: seq<Torrent>, priorities: map<string, int>, seeding: bool,
                 effective: set<string>)
    requires Distinct(queue) && UniqueHashes(Infos(ts)) && ReportsPositions(queue, ts, seeding)
    requires forall i <- Infos(ts) :: i.hash in queue ==> i.seeding == seeding
    requires |ts| <= 1 || InOrder(ts, priorities) || forall i <- Infos(ts) :: i.hash in effective
    ensures Ranked(SortedQueue(queue, ts, priorities, seeding, effective), Infos(ts), priorities)
  {
    hide Settled, Promoted, DesiredOrder, CurrentOrder, InOrder, Ranked, ReportsPositions;
    var all := if |ts| <= 1 || InOrder(ts, priorities) then set i | i in Infos(ts) :: i.hash else effective;
    assert SortedQueue(queue, ts, priorities, seeding, all) == SortedQueue(queue, ts, priorities, seeding, effective);
    RunSettles(queue, ts, priorities, seeding, all);
    SortedQueueMembers(queue, ts, priorities, seeding, all);
    SettledRanks(SortedQueue(queue, ts, priorities, seeding, all), Infos(ts), priorities, seeding);
  }

  lemma SomethingDesired(ts: seq<Torrent>, priorities: map<string, int>)
    requires ts != [] && UniqueHashes(Infos(ts))
    ensures DesiredOrder(Infos(ts), priorities, true) != [] || DesiredOrder(Infos(ts), priorities, false) != []
  {
    InfosLength(ts);
    var i := Infos(ts)[0];
    DesiredOrderShape(Infos(ts), priorities, i.seeding);
    assert i.hash in DesiredOrder(Infos(ts), priorities, i.seeding);
  }

  // ---------------------------------------------------------------- convergence

  function IndexOf(queue: seq<string>, hash: string): (k: nat)
    requires hash in queue
    ensures k < |queue| && queue[k] == hash
  {
    if queue[0] == hash then 0
    else
      assert queue == [queue[0]] + queue[1..];
      1 + IndexOf(queue[1..], hash)
  }

  /** The client reports one-based queue positions, and the same for every torrent in no queue. */
  ghost predicate ReportsPositions(queue: seq<string>, ts: seq<Torrent>, seeding: bool) {
    forall t <- ts :: t.info.seeding == seeding ==>
                        t.position == if t.info.hash in queue then IndexOf(queue, t.info.hash) + 1 else UNQUEUED
  }

  /** All of them in the queue. */
  ghost predicate ReportsQueued(queue: seq<string>, ts: seq<Torrent>, seeding: bool) {
    ReportsPositions(queue, ts, seeding) && forall t <- ts :: t.info.seeding == seeding ==> t.info.hash in queue
  }

  predicate BeforeIn(queue: seq<string>, a: string, b: string) {
    a in queue && b in queue && IndexOf(queue, a) <= IndexOf(queue, b)
  }

  lemma PositionIsTotal()
    ensures TotalPreorder(PositionLe)
  {
  }

  lemma {:induction false} IndexOfAt(queue: seq<string>, k: nat)
    requires Distinct(queue) && k < |queue|
    ensures IndexOf(queue, queue[k]) == k
  {
    if k > 0 {
      IndexOfAt(queue[1..], k - 1);
    }
  }

  ghost function Before(queue: seq<string>): (string, string) -> bool {
    (a: string, b: string) => BeforeIn(queue, a, b)
  }

  /** Filtering a queue keeps its order. */
  lemma FilterInQueueOrder(queue: seq<string>, p: string -> bool)
    requires Distinct(queue)
    ensures Sorted(Before(queue), Filter(p, queue))
  {
    forall i, j | 0 <= i < j < |queue|
      ensures BeforeIn(queue, queue[i], queue[j])
    {
      IndexOfAt(queue, i);
      IndexOfAt(queue, j);
    }
    FilterSorted(Before(queue), p, queue);
  }

  /** If all are queued, the current order is the queue restricted to the monitored torrents. */
  lemma QueuedInQueueOrder(queue: seq<string>, ts: seq<Torrent>, priorities: map<string, int>, seeding: bool)
    requires Distinct(queue) && UniqueHashes(Infos(ts)) && ReportsQueued(queue, ts, seeding)
    ensures var desired := DesiredOrder(Infos(ts), priorities, seeding);
            CurrentOrder(ts, seeding) == Filter(Inside(desired), queue)
  {
    var desired := DesiredOrder(Infos(ts), priorities, seeding);
    var inDesired := Inside(desired);
    DesiredOrderShape(Infos(ts), priorities, seeding);
    var filtered := Filter(inDesired, queue);
    FilterInQueueOrder(queue, inDesired);
    FilterMembers(inDesired, queue);
    FilterDistinct(inDesired, queue);
    CurrentOrderShape(queue, ts, seeding);
    var current := CurrentOrder(ts, seeding);
    InfosLength(ts);
    forall h
      ensures h in current <==> h in filtered
    {
      if h in desired {
        var i :| i in Infos(ts) && i.hash == h && i.seeding == seeding;
        var k :| 0 <= k < |Infos(ts)| && Infos(ts)[k] == i;
        assert ts[k] in ts;
        assert h in queue;
      }
    }
    DistinctSameSet(current, filtered);
    forall x, y | x in current && y in current && BeforeIn(queue, x, y) && BeforeIn(queue, y, x)
      ensures x == y
    {
      assert queue[IndexOf(queue, x)] == x && queue[IndexOf(queue, y)] == y;
    }
    SortedIsUnique(Before(queue), current, filtered);
  }

  lemma CurrentOrderShape(queue: seq<string>, ts: seq<Torrent>, seeding: bool)
    requires Distinct(queue) && UniqueHashes(Infos(ts)) && ReportsQueued(queue, ts, seeding)
    ensures var current := CurrentOrder(ts, seeding);
            Distinct(current) &&
            (forall h :: h in current <==> exists i <- Infos(ts) :: i.hash == h && i.seeding == seeding) &&
            Sorted(Before(queue), current)
  {
    var sorted := SortBy(PositionLe, ts);
    PositionIsTotal();
    SortPermutes(PositionLe, ts);
    SortSorts(PositionLe, ts);
    SortPermutesInfos(PositionLe, ts);
    SameElements(Infos(ts), Infos(sorted));
    PermutedUniqueHashes(Infos(ts), Infos(sorted));
    FilteredHashes(Infos(sorted), seeding);
    SortedByPosition(queue, sorted, seeding);
  }

  lemma {:induction false} InsertPermutesInfos(le: (Torrent, Torrent) -> bool, t: Torrent, ts: seq<Torrent>)
    ensures multiset(Infos(Insert(le, t, ts))) == multiset(Infos(ts)) + multiset{t.info}
  {
    if ts != [] && !le(t, ts[0]) {
      InsertPermutesInfos(le, t, ts[1..]);
      var r := Insert(le, t, ts[1..]);
      assert Infos([ts[0]] + r) == [ts[0].info] + Infos(r);
    } else {
      assert Infos([t] + ts) == [t.info] + Infos(ts);
    }
  }

  lemma {:induction false} SortPermutesInfos(le: (Torrent, Torrent) -> bool, ts: seq<Torrent>)
    ensures multiset(Infos(SortBy(le, ts))) == multiset(Infos(ts))
  {
    if ts != [] {
      SortPermutesInfos(le, ts[1..]);
      InsertPermutesInfos(le, ts[0], SortBy(le, ts[1..]));
      assert Infos(ts) == [ts[0].info] + Infos(ts[1..]);
    }
  }

  lemma HeadComesFirst(queue: seq<string>, ts: seq<Torrent>, seeding: bool, h: string)
    requires ts != [] && Sorted(PositionLe, ts) && ReportsQueued(queue, ts, seeding)
    requires ts[0].info.seeding == seeding && h in Hashes(Filter(InQueue(seeding), Infos(ts[1..])))
    ensures BeforeIn(queue, ts[0].info.hash, h)
  {
    var infos := Infos(ts[1..]);
    var rest := Filter(InQueue(seeding), infos);
    FilterMembers(InQueue(seeding), infos);
    InfosLength(ts[1..]);
    HashesLength(rest);
    var k :| 0 <= k < |Hashes(rest)| && Hashes(rest)[k] == h;
    assert rest[k] in infos;
    var j :| 0 <= j < |infos| && infos[j] == rest[k];
    assert ts[0] in ts && ts[j + 1] in ts && PositionLe(ts[0], ts[j + 1]);
  }

  lemma {:induction false} SortedByPosition(queue: seq<string>, ts: seq<Torrent>, seeding: bool)
    requires Sorted(PositionLe, ts) && ReportsQueued(queue, ts, seeding)
    ensures Sorted(Before(queue), Hashes(Filter(InQueue(seeding), Infos(ts))))
  {
    if ts != [] {
      SortedByPosition(queue, ts[1..], seeding);
      var rest := Filter(InQueue(seeding), Infos(ts[1..]));
      assert Infos(ts)[1..] == Infos(ts[1..]);
      if ts[0].info.seeding == seeding {
        forall h | h in Hashes(rest)
          ensures BeforeIn(queue, ts[0].info.hash, h)
        {
          HeadComesFirst(queue, ts, seeding, h);
        }
        assert Hashes([ts[0].info] + rest) == [ts[0].info.hash] + Hashes(rest);
      } else {
        assert Filter(InQueue(seeding), Infos(ts)) == rest;
      }
    }
  }

  function TorrentsIn(seeding: bool): Torrent -> bool {
    (t: Torrent) => t.info.seeding == seeding
  }

  function HasPosition(queued: bool): Torrent -> bool {
    (t: Torrent) => (t.position > 0) == queued
  }

  lemma {:induction false} FilterInfos(ts: seq<Torrent>, seeding: bool)
    ensures Filter(InQueue(seeding), Infos(ts)) == Infos(Filter(TorrentsIn(seeding), ts))
  {
    if ts != [] {
      FilterInfos(ts[1..], seeding);
      FilterStep(InQueue(seeding), Infos(ts));
      FilterStep(TorrentsIn(seeding), ts);
      var kept := Filter(TorrentsIn(seeding), ts[1..]);
      assert Infos(ts)[1..] == Infos(ts[1..]);
      assert Infos([ts[0]] + kept) == [ts[0].info] + Infos(kept);
    }
  }

  lemma {:induction false} InfosAppend(a: seq<Torrent>, b: seq<Torrent>)
    ensures Infos(a + b) == Infos(a) + Infos(b)
  {
    if a == [] {
      assert a + b == b;
    } else {
      InfosAppend(a[1..], b);
      assert (a + b)[0] == a[0] && (a + b)[1..] == a[1..] + b;
      Associates([a[0].info], Infos(a[1..]), Infos(b));
    }
  }

  lemma {:induction false} HashesAppend(a: seq<Info>, b: seq<Info>)
    ensures Hashes(a + b) == Hashes(a) + Hashes(b)
  {
    if a == [] {
      assert a + b == b;
    } else {
      HashesAppend(a[1..], b);
      assert (a + b)[0] == a[0] && (a + b)[1..] == a[1..] + b;
      Associates([a[0].hash], Hashes(a[1..]), Hashes(b));
    }
  }

  /** In position order the queued torrents come first. */
  lemma {:induction false} QueuedComeFirst(ts: seq<Torrent>)
    requires Sorted(PositionLe, ts)
    ensures ts == Filter(HasPosition(true), ts) + Filter(HasPosition(false), ts)
  {
    if ts != [] {
      QueuedComeFirst(ts[1..]);
      if ts[0].position <= 0 {
        forall t | t in ts[1..]
          ensures !HasPosition(true)(t)
        {
          var k :| 0 <= k < |ts[1..]| && ts[1..][k] == t;
          assert PositionLe(ts[0], ts[k + 1]);
        }
        FilterNone(HasPosition(true), ts[1..]);
      }
    }
  }

  /** The monitored torrents of one queue that sit in no queue, in listing order. */
  function Unqueued(queue: seq<string>, ts: seq<Torrent>, seeding: bool): seq<string> {
    Hashes(Infos(Filter((t: Torrent) => t.info.seeding == seeding && t.info.hash !in queue, ts)))
  }

  /** What the sort by position makes of one queue's torrents: the queued ones sorted, then the others as listed. */
  lemma SortSplits(queue: seq<string>, ts: seq<Torrent>, seeding: bool)
    requires ReportsPositions(queue, ts, seeding)
    ensures var mine := Filter(TorrentsIn(seeding), ts);
            var queued, others := Filter(HasPosition(true), mine), Filter(HasPosition(false), mine);
            Filter(TorrentsIn(seeding), SortBy(PositionLe, ts)) == SortBy(PositionLe, queued) + others &&
            (forall t :: t in queued <==> t in ts && t.info.seeding == seeding && t.info.hash in queue) &&
            Hashes(Infos(others)) == Unqueued(queue, ts, seeding)
  {
    hide Filter, SortBy;
    var mine := Filter(TorrentsIn(seeding), ts);
    var queued, others := Filter(HasPosition(true), mine), Filter(HasPosition(false), mine);
    PositionIsTotal();
    FilterMembers(TorrentsIn(seeding), ts);
    FilterMembers(HasPosition(true), mine);
    FilterMembers(HasPosition(false), mine);
    SortCommutes(PositionLe, TorrentsIn(seeding), ts);
    SortSorts(PositionLe, mine);
    QueuedComeFirst(SortBy(PositionLe, mine));
    SortCommutes(PositionLe, HasPosition(true), mine);
    SortCommutes(PositionLe, HasPosition(false), mine);
    forall i | 0 <= i < |others|
      ensures others[i].position == UNQUEUED
    {
      assert others[i] in others;
    }
    SortedStays(PositionLe, others);
    FilterTwice(HasPosition(false), TorrentsIn(seeding),
                (t: Torrent) => t.info.seeding == seeding && t.info.hash !in queue, ts);
  }

  lemma QueuedPart(queue: seq<string>, ts: seq<Torrent>, priorities: map<string, int>, seeding: bool,
                   queued: seq<Torrent>)
    requires Distinct(queue) && UniqueHashes(Infos(ts)) && ReportsPositions(queue, ts, seeding)
    requires queued == Filter(HasPosition(true), Filter(TorrentsIn(seeding), ts))
    requires forall t :: t in queued <==> t in ts && t.info.seeding == seeding && t.info.hash in queue
    ensures Hashes(Infos(SortBy(PositionLe, queued))) ==
              Filter(Inside(DesiredOrder(Infos(ts), priorities, seeding)), queue)
  {
    hide Filter, SortBy, DesiredOrder;
    var some, all := DesiredOrder(Infos(queued), priorities, seeding), DesiredOrder(Infos(ts), priorities, seeding);
    FilterKeepsUnique(TorrentsIn(seeding), ts);
    FilterKeepsUnique(HasPosition(true), Filter(TorrentsIn(seeding), ts));
    QueuedInQueueOrder(queue, queued, priorities, seeding);
    SortPermutes(PositionLe, queued);
    FilterInfos(SortBy(PositionLe, queued), seeding);
    FilterAll(TorrentsIn(seeding), SortBy(PositionLe, queued));
    DesiredOrderShape(Infos(queued), priorities, seeding);
    DesiredOrderShape(Infos(ts), priorities, seeding);
    forall h | h in queue
      ensures h in some <==> h in all
    {
      InfosMembers(queued);
      InfosMembers(ts);
    }
    FilterSame(Inside(some), Inside(all), queue);
  }

  lemma InfosMembers(ts: seq<Torrent>)
    ensures forall i :: i in Infos(ts) <==> exists t <- ts :: t.info == i
  {
    InfosLength(ts);
  }

  lemma {:induction false} FilterKeepsUnique(p: Torrent -> bool, ts: seq<Torrent>)
    requires UniqueHashes(Infos(ts))
    ensures UniqueHashes(Infos(Filter(p, ts)))
  {
    if ts != [] {
      assert Infos(ts)[1..] == Infos(ts[1..]);
      FilterKeepsUnique(p, ts[1..]);
      FilterStep(p, ts);
      FilterMembers(p, ts[1..]);
      InfosMembers(ts[1..]);
      InfosMembers(Filter(p, ts[1..]));
      forall i | i in Infos(Filter(p, ts[1..]))
        ensures i.hash != ts[0].info.hash
      {
        assert i in Infos(ts[1..]);
        var k :| 0 <= k < |Infos(ts[1..])| && Infos(ts[1..])[k] == i;
        assert Infos(ts)[k + 1] == i && Infos(ts)[0] == ts[0].info;
      }
      assert Infos([ts[0]] + Filter(p, ts[1..])) == [ts[0].info] + Infos(Filter(p, ts[1..]));
    }
  }

  /**
   With faithful positions, the current order is the queue restricted to the
   monitored torrents, then those that sit in no queue, as listed.
   */
  lemma CurrentOrderIsQueueOrder(queue: seq<string>, ts: seq<Torrent>, priorities: map<string, int>, seeding: bool)
    requires Distinct(queue) && UniqueHashes(Infos(ts)) && ReportsPositions(queue, ts, seeding)
    ensures CurrentOrder(ts, seeding) ==
            Filter(Inside(DesiredOrder(Infos(ts), priorities, seeding)), queue) + Unqueued(queue, ts, seeding)
  {
    hide Filter, SortBy, DesiredOrder, Unqueued;
    var mine := Filter(TorrentsIn(seeding), ts);
    var queued, others := Filter(HasPosition(true), mine), Filter(HasPosition(false), mine);
    SortSplits(queue, ts, seeding);
    QueuedPart(queue, ts, priorities, seeding, queued);
    FilterInfos(SortBy(PositionLe, ts), seeding);
    InfosAppend(SortBy(PositionLe, queued), others);
    HashesAppend(Infos(SortBy(PositionLe, queued)), Infos(others));
  }

  /** The torrents that sit in no queue are wanted last, in the order in which they are listed. */
  predicate UnqueuedLast(queue: seq<string>, ts: seq<Torrent>, desired: seq<string>, seeding: bool) {
    desired == Filter(Inside(queue), desired) + Unqueued(queue, ts, seeding)
  }

  lemma UnqueuedMembers(queue: seq<string>, ts: seq<Torrent>, seeding: bool)
    ensures forall h <- Unqueued(queue, ts, seeding) :: h !in queue
  {
    var others := Filter((t: Torrent) => t.info.seeding == seeding && t.info.hash !in queue, ts);
    FilterMembers((t: Torrent) => t.info.seeding == seeding && t.info.hash !in queue, ts);
    InfosLength(others);
    HashesLength(Infos(others));
    forall h | h in Unqueued(queue, ts, seeding)
      ensures h !in queue
    {
      var k :| 0 <= k < |others| && Hashes(Infos(others))[k] == h;
      assert others[k] in others;
    }
  }

  /**
   One queue shows its desired order exactly when it is settled and the
   unqueued torrents are wanted last, as listed.
   */
  lemma ShowsIff(queue: seq<string>, ts: seq<Torrent>, priorities: map<string, int>, seeding: bool)
    requires Distinct(queue) && UniqueHashes(Infos(ts)) && ReportsPositions(queue, ts, seeding)
    ensures var desired := DesiredOrder(Infos(ts), priorities, seeding);
            CurrentOrder(ts, seeding) == desired <==>
              Settled(queue, desired) && UnqueuedLast(queue, ts, desired, seeding)
  {
    hide Filter, CurrentOrder, DesiredOrder, Unqueued;
    var desired := DesiredOrder(Infos(ts), priorities, seeding);
    CurrentOrderIsQueueOrder(queue, ts, priorities, seeding);
    var front, others := Filter(Inside(desired), queue), Unqueued(queue, ts, seeding);
    UnqueuedMembers(queue, ts, seeding);
    FilterMembers(Inside(desired), queue);
    FilterAppend(Inside(queue), front, others);
    FilterAll(Inside(queue), front);
    FilterNone(Inside(queue), others);
    assert front + [] == front;
  }

  /**
   When the job is skipped: both queues are settled, and the monitored torrents
   in no queue are wanted last, in the order in which the client lists them.
   */
  lemma SkipIffSettled(downloading: seq<string>, seeding: seq<string>, ts: seq<Torrent>, priorities: map<string, int>)
    requires Distinct(downloading) && Distinct(seeding) && UniqueHashes(Infos(ts))
    requires ReportsPositions(downloading, ts, false) && ReportsPositions(seeding, ts, true)
    ensures var d, u := DesiredOrder(Infos(ts), priorities, false), DesiredOrder(Infos(ts), priorities, true);
            InOrder(ts, priorities) <==>
            Settled(downloading, d) && UnqueuedLast(downloading, ts, d, false) &&
            Settled(seeding, u) && UnqueuedLast(seeding, ts, u, true)
  {
    hide CurrentOrder, DesiredOrder, Settled, UnqueuedLast;
    ShowsIff(downloading, ts, priorities, false);
    ShowsIff(seeding, ts, priorities, true);
  }

  lemma {:induction false} ShortListSettles(ts: seq<Torrent>, queue: seq<string>, priorities: map<string, int>,
                                            seeding: bool)
    requires |ts| <= 1 && Distinct(queue) && UniqueHashes(Infos(ts)) && ReportsPositions(queue, ts, seeding)
    ensures Settled(queue, DesiredOrder(Infos(ts), priorities, seeding))
  {
    hide Settled, UnqueuedLast;
    ShowsIff(queue, ts, priorities, seeding);
    if ts != [] {
      assert ts == [ts[0]];
      assert SortBy(PositionLe, ts) == ts;
      assert Infos(ts) == [ts[0].info];
      assert SortBy(ByKey(priorities), Infos(ts)) == Infos(ts);
    }
  }

  /** Skipped or not, a failure-free run leaves each queue settled. */
  lemma RunSettles(queue: seq<string>, ts: seq<Torrent>, priorities: map<string, int>, seeding: bool,
                   effective: set<string>)
    requires Distinct(queue) && UniqueHashes(Infos(ts)) && ReportsPositions(queue, ts, seeding)
    requires forall i <- Infos(ts) :: i.hash in effective
    ensures Settled(SortedQueue(queue, ts, priorities, seeding, effective),
                    DesiredOrder(Infos(ts), priorities, seeding))
  {
    hide Settled, Promoted, DesiredOrder, CurrentOrder, UnqueuedLast;
    DesiredOrderShape(Infos(ts), priorities, seeding);
    if |ts| <= 1 {
      ShortListSettles(ts, queue, priorities, seeding);
    } else if InOrder(ts, priorities) {
      ShowsIff(queue, ts, priorities, seeding);
    } else {
      AllMovedSettles(queue, DesiredOrder(Infos(ts), priorities, seeding), Queued(queue, effective));
    }
  }

  lemma SortedQueueMembers(queue: seq<string>, ts: seq<Torrent>, priorities: map<string, int>, seeding: bool,
                           effective: set<string>)
    requires Distinct(queue) && UniqueHashes(Infos(ts))
    ensures var q := SortedQueue(queue, ts, priorities, seeding, effective);
            Distinct(q) && forall h :: h in q <==> h in queue
  {
    hide Promoted, DesiredOrder, CurrentOrder;
    var desired := DesiredOrder(Infos(ts), priorities, seeding);
    DesiredOrderShape(Infos(ts), priorities, seeding);
    PromotedKeepsMembers(queue, desired, Queued(queue, effective));
    PromotedMembers(queue, desired, effective);
  }

  lemma UnqueuedLastSame(a: seq<string>, b: seq<string>, ts: seq<Torrent>, desired: seq<string>, seeding: bool)
    requires forall h :: h in a <==> h in b
    ensures UnqueuedLast(a, ts, desired, seeding) <==> UnqueuedLast(b, ts, desired, seeding)
  {
    FilterSame(Inside(a), Inside(b), desired);
    FilterSame((t: Torrent) => t.info.seeding == seeding && t.info.hash !in a,
               (t: Torrent) => t.info.seeding == seeding && t.info.hash !in b, ts);
  }

  /**
   Convergence: after a failure-free run, a rerun over the same torrents with
   the same priorities, listed in whatever order, is skipped exactly when the
   torrents in no queue are wanted last, as listed now.
   */
  lemma RerunSkippedIff(downloading: seq<string>, seeding: seq<string>, first: seq<Torrent>, again: seq<Torrent>,
                        priorities: map<string, int>, effective: set<string>)
    requires Distinct(downloading) && Distinct(seeding) && UniqueHashes(Infos(first))
    requires ReportsPositions(downloading, first, false) && ReportsPositions(seeding, first, true)
    requires forall i <- Infos(first) :: i.hash in effective
    requires multiset(Infos(again)) == multiset(Infos(first))
    requires ReportsPositions(SortedQueue(downloading, first, priorities, false, effective), again, false)
    requires ReportsPositions(SortedQueue(seeding, first, priorities, true, effective), again, true)
    ensures InOrder(again, priorities) <==>
            UnqueuedLast(downloading, again, DesiredOrder(Infos(first), priorities, false), false) &&
            UnqueuedLast(seeding, again, DesiredOrder(Infos(first), priorities, true), true)
  {
    hide Settled, Promoted, DesiredOrder, CurrentOrder, UnqueuedLast, InOrder, SortedQueue, ReportsPositions;
    var d, u := DesiredOrder(Infos(first), priorities, false), DesiredOrder(Infos(first), priorities, true);
    var d' := SortedQueue(downloading, first, priorities, false, effective);
    var u' := SortedQueue(seeding, first, priorities, true, effective);
    RunSettles(downloading, first, priorities, false, effective);
    RunSettles(seeding, first, priorities, true, effective);
    PermutedUniqueHashes(Infos(first), Infos(again));
    DesiredOrderIgnoresListing(Infos(first), Infos(again), priorities, false);
    DesiredOrderIgnoresListing(Infos(first), Infos(again), priorities, true);
    SortedQueueMembers(downloading, first, priorities, false, effective);
    SortedQueueMembers(seeding, first, priorities, true, effective);
    SkipIffSettled(d', u', again, priorities);
    UnqueuedLastSame(downloading, d', again, d, false);
    UnqueuedLastSame(seeding, u', again, u, true);
  }

  /**
   With queuing off, two torrents listed against the desired order are never
   found in order, so every pass makes its calls.
   */
  lemma UnqueuedNeverSkipped(a: Torrent, b: Torrent, priorities: map<string, int>)
    requires a.position == b.position == UNQUEUED && a.info.seeding == b.info.seeding && a.info.hash != b.info.hash
    requires KeyLe(priorities, a.info, b.info)
    ensures !InOrder([b, a], priorities)
  {
    hide KeyLe;
    KeyIsTotal(priorities);
    var infos := [b.info, a.info];
    assert infos[1..] == [a.info] && [b, a][1..] == [a];
    InfosLength([b, a]);
    assert Infos([b, a]) == infos;
    assert SortBy(ByKey(priorities), infos) == [a.info, b.info] by {
      assert SortBy(ByKey(priorities), [a.info]) == [a.info];
      assert !ByKey(priorities)(b.info, a.info);
      assert Insert(ByKey(priorities), b.info, [a.info]) == [a.info] + Insert(ByKey(priorities), b.info, []);
    }
    assert SortBy(PositionLe, [b, a]) == [b, a] by {
      assert SortBy(PositionLe, [a]) == [a];
    }
    var queue := a.info.seeding;
    FilterAll(InQueue(queue), infos);
    FilterAll(InQueue(queue), [a.info, b.info]);
    assert CurrentOrder([b, a], queue)[0] != DesiredOrder(infos, priorities, queue)[0];
    assert queue || !queue;
  }

  /** If every monitored torrent is queued, the rerun is always skipped. */
  lemma RerunIsSkipped(downloading: seq<string>, seeding: seq<string>, first: seq<Torrent>, again: seq<Torrent>,
                       priorities: map<string, int>, effective: set<string>)
    requires Distinct(downloading) && Distinct(seeding) && UniqueHashes(Infos(first))
    requires ReportsPositions(downloading, first, false) && ReportsPositions(seeding, first, true)
    requires forall i <- Infos(first) :: i.hash in effective && i.hash in if i.seeding then seeding else downloading
    requires multiset(Infos(again)) == multiset(Infos(first))
    requires ReportsPositions(SortedQueue(downloading, first, priorities, false, effective), again, false)
    requires ReportsPositions(SortedQueue(seeding, first, priorities, true, effective), again, true)
    ensures InOrder(again, priorities)
  {
    hide Settled, Promoted, DesiredOrder, CurrentOrder, UnqueuedLast, InOrder, SortedQueue, ReportsPositions;
    SameElements(Infos(first), Infos(again));
    InfosMembers(again);
    RerunSkippedIff(downloading, seeding, first, again, priorities, effective);
    AllQueued(downloading, Infos(first), again, priorities, false);
    AllQueued(seeding, Infos(first), again, priorities, true);
  }

  lemma AllQueued(queue: seq<string>, infos: seq<Info>, ts: seq<Torrent>, priorities: map<string, int>, seeding: bool)
    requires UniqueHashes(infos) && forall i <- infos :: i.seeding == seeding ==> i.hash in queue
    requires forall t <- ts :: t.info in infos
    ensures UnqueuedLast(queue, ts, DesiredOrder(infos, priorities, seeding), seeding)
  {
    hide Filter, DesiredOrder;
    var desired := DesiredOrder(infos, priorities, seeding);
    DesiredOrderShape(infos, priorities, seeding);
    FilterAll(Inside(queue), desired);
    FilterNone((t: Torrent) => t.info.seeding == seeding && t.info.hash !in queue, ts);
    assert desired + [] == desired;
  }
}
