/**
 Switching movies between their main and their temporary quality profile
 (`plan_temp_profile_switch`, `update_radarr_entry`, the timeout check and the
 forced reset).
 */
module TempProfiles {
  import opened Wrappers

  /** `temp_quality_profile_ids` in insertion order: main profile, temporary profile. */
  type Mapping = seq<(int, int)>

  function TempOf(pairs: Mapping): map<int, int> {
    if |pairs| == 0 then map[]
    else TempOf(pairs[..|pairs| - 1])[pairs[|pairs| - 1].0 := pairs[|pairs| - 1].1]
  }

  /** `main_quality_profile_ids`: a later entry with the same temporary profile wins. */
  function MainOf(pairs: Mapping): map<int, int> {
    if |pairs| == 0 then map[]
    else MainOf(pairs[..|pairs| - 1])[pairs[|pairs| - 1].1 := pairs[|pairs| - 1].0]
  }

  /** A Python dict lists each main profile once. */
  ghost predicate IsDict(pairs: Mapping) {
    forall i, j :: 0 <= i < j < |pairs| ==> pairs[i].0 != pairs[j].0
  }

  ghost predicate OneToOne(pairs: Mapping) {
    forall i, j :: 0 <= i < j < |pairs| ==> pairs[i].1 != pairs[j].1
  }

  ghost predicate TempsAreNotMains(pairs: Mapping) {
    forall i, j :: 0 <= i < |pairs| && 0 <= j < |pairs| ==> pairs[i].1 != pairs[j].0
  }

  lemma {:induction false} TempOfEntries(pairs: Mapping)
    requires IsDict(pairs)
    ensures forall i :: 0 <= i < |pairs| ==> pairs[i].0 in TempOf(pairs) && TempOf(pairs)[pairs[i].0] == pairs[i].1
    ensures forall m <- TempOf(pairs) :: (m, TempOf(pairs)[m]) in pairs
  {
    if |pairs| > 0 {
      var n := |pairs| - 1;
      TempOfEntries(pairs[..n]);
      assert pairs == pairs[..n] + [pairs[n]];
      assert forall i :: 0 <= i < n ==> pairs[..n][i] == pairs[i];
    }
  }

  lemma {:induction false} MainOfEntries(pairs: Mapping)
    ensures forall i :: 0 <= i < |pairs| ==> pairs[i].1 in MainOf(pairs)
    ensures forall t <- MainOf(pairs) :: (MainOf(pairs)[t], t) in pairs
  {
    if |pairs| > 0 {
      var n := |pairs| - 1;
      MainOfEntries(pairs[..n]);
      assert pairs == pairs[..n] + [pairs[n]];
      assert forall i :: 0 <= i < n ==> pairs[..n][i] == pairs[i];
    }
  }

  /** Going to the temporary profile and back is the identity on every main profile iff no two share one. */
  lemma RoundTripIffOneToOne(pairs: Mapping)
    requires IsDict(pairs)
    ensures (forall i :: 0 <= i < |pairs| ==>
               pairs[i].1 in MainOf(pairs) && MainOf(pairs)[pairs[i].1] == pairs[i].0) <==>
            OneToOne(pairs)
  {
    MainOfEntries(pairs);
    if OneToOne(pairs) {
      forall i | 0 <= i < |pairs|
        ensures pairs[i].1 in MainOf(pairs) && MainOf(pairs)[pairs[i].1] == pairs[i].0
      {
        assert pairs[i].1 in MainOf(pairs);
        var m := MainOf(pairs)[pairs[i].1];
        assert (m, pairs[i].1) in pairs;
        var j :| 0 <= j < |pairs| && pairs[j] == (m, pairs[i].1);
      }
    }
  }

  lemma TempsAndMainsDisjoint(pairs: Mapping)
    requires IsDict(pairs) && TempsAreNotMains(pairs)
    ensures TempOf(pairs).Keys !! MainOf(pairs).Keys
  {
    TempOfEntries(pairs);
    MainOfEntries(pairs);
    forall m, t | m in TempOf(pairs) && t in MainOf(pairs)
      ensures m != t
    {
      assert (m, TempOf(pairs)[m]) in pairs && (MainOf(pairs)[t], t) in pairs;
      var i :| 0 <= i < |pairs| && pairs[i] == (m, TempOf(pairs)[m]);
      var j :| 0 <= j < |pairs| && pairs[j] == (MainOf(pairs)[t], t);
      assert pairs[j].1 != pairs[i].0;
    }
  }

  // ------------------------------------------------------------------- planning

  datatype Plan = Keep | Switch(profile: int, original: Option<int>, current: Option<int>)

  /** `plan_temp_profile_switch` */
  function PlanSwitch(searched: bool, hasFile: bool, profile: int, pairs: Mapping, keepTemp: bool): Plan {
    if searched && profile in MainOf(pairs) && !keepTemp then
      Switch(MainOf(pairs)[profile], None, None)
    else if !searched && !hasFile && profile in TempOf(pairs) then
      Switch(TempOf(pairs)[profile], Some(profile), Some(TempOf(pairs)[profile]))
    else Keep
  }

  // ------------------------------------------------------------ one movie's life

  /**
   A PUT to Radarr.  One that keeps failing is reported as such, any other
   error is raised; either way the change may have been applied.
   */
  datatype Put = PutOk | PutFailed(applied: bool) | PutRaises(applied: bool)

  /** The tracking columns of a movie row. */
  datatype Row = Row(switchedAt: Option<int>, original: Option<int>, current: Option<int>)

  const UNTRACKED := Row(None, None, None)

  datatype Movie = Movie(profile: int, row: Option<Row>)

  datatype Event =
    | Update(eligible: bool, searched: bool, hasFile: bool, put: Put, now: int)
    | TimeoutCheck(put: Put, clears: bool, now: int) // `clears`: the row's tracking columns can be cleared
    | ForceReset(put: Put)

  datatype Config = Config(pairs: Mapping, useTemp: bool, keepTemp: bool, timeout: int)
  {
    ghost predicate Valid() {
      IsDict(pairs) && OneToOne(pairs) && TempsAreNotMains(pairs)
    }
  }

  function AfterPut(before: int, wanted: int, put: Put): int {
    if put.PutOk? || put.applied then wanted else before
  }

  /**
   `update_radarr_entry`: the insert of a new row carries no tracking columns;
   a raised error comes before the row is written.
   */
  function UpdateMovie(c: Config, m: Movie, e: Event): Movie
    requires e.Update?
  {
    if !e.eligible then m.(row := None)
    else
      var plan := if c.useTemp then PlanSwitch(e.searched, e.hasFile, m.profile, c.pairs, c.keepTemp) else Keep;
      if plan.Keep? then m.(row := Some(if m.row.Some? then m.row.value else UNTRACKED))
      else if e.put.PutRaises? then m.(profile := AfterPut(m.profile, plan.profile, e.put))
      else
        var tracking := if e.put.PutOk? then Row(Some(e.now), plan.original, plan.current)
                        else if m.row.Some? then m.row.value else UNTRACKED;
        Movie(AfterPut(m.profile, plan.profile, e.put), Some(if m.row.Some? then tracking else UNTRACKED))
  }

  predicate IsExpired(c: Config, r: Row, now: int) {
    r.switchedAt.Some? && r.switchedAt.value < now - c.timeout && r.current.Some? && r.original.Some?
  }

  /** One row of `_check_temp_profile_timeouts`; an error from Radarr is caught and leaves the row tracked. */
  function TimeoutMovie(c: Config, m: Movie, e: Event): Movie
    requires e.TimeoutCheck?
  {
    if c.timeout == 0 || m.row.None? || !IsExpired(c, m.row.value, e.now) then m
    else if m.row.value.current.value !in MainOf(c.pairs) then if e.clears then m.(row := Some(UNTRACKED)) else m
    else Movie(AfterPut(m.profile, m.row.value.original.value, e.put),
               Some(if e.put.PutOk? && e.clears then UNTRACKED else m.row.value))
  }

  /** One item of `_reset_all_temp_profiles`; the tracking columns stay as they are. */
  function ResetMovie(c: Config, m: Movie, e: Event): Movie
    requires e.ForceReset?
  {
    if m.profile in MainOf(c.pairs) then m.(profile := AfterPut(m.profile, MainOf(c.pairs)[m.profile], e.put)) else m
  }

  function Step(c: Config, m: Movie, e: Event): Movie {
    match e
    case Update(_, _, _, _, _) => UpdateMovie(c, m, e)
    case TimeoutCheck(_, _, _) => TimeoutMovie(c, m, e)
    case ForceReset(_) => ResetMovie(c, m, e)
  }

  function Run(c: Config, m: Movie, events: seq<Event>): Movie {
    if |events| == 0 then m else Step(c, Run(c, m, events[..|events| - 1]), events[|events| - 1])
  }

  // ------------------------------------------------------------------ invariants

  /** The movie is on its main profile or on that profile's temporary one. */
  predicate OnPair(c: Config, home: int, profile: int) {
    profile == home || (home in TempOf(c.pairs) && profile == TempOf(c.pairs)[home])
  }

  /** A tracked row names the main profile as original and its temporary one as current. */
  predicate TracksPair(c: Config, home: int, row: Row) {
    (row.current.Some? <==> row.original.Some?) &&
    (row.current.Some? ==>
       home in TempOf(c.pairs) && row.original == Some(home) && row.current == Some(TempOf(c.pairs)[home]))
  }

  predicate Consistent(c: Config, home: int, m: Movie) {
    OnPair(c, home, m.profile) && (m.row.Some? ==> TracksPair(c, home, m.row.value))
  }

  /** With a valid mapping and a home that is no temporary profile, both maps move within the pair. */
  lemma PairIsClosed(c: Config, home: int, profile: int)
    requires c.Valid() && home !in MainOf(c.pairs) && OnPair(c, home, profile)
    ensures profile in TempOf(c.pairs) ==> profile == home
    ensures profile in MainOf(c.pairs) ==>
              home in TempOf(c.pairs) && profile == TempOf(c.pairs)[home] && MainOf(c.pairs)[profile] == home
    ensures profile != home ==> profile in MainOf(c.pairs)
  {
    TempOfEntries(c.pairs);
    MainOfEntries(c.pairs);
    RoundTripIffOneToOne(c.pairs);
    TempsAndMainsDisjoint(c.pairs);
    if profile != home {
      assert (home, profile) in c.pairs;
      var i :| 0 <= i < |c.pairs| && c.pairs[i] == (home, profile);
    }
  }

  lemma StepKeepsPair(c: Config, home: int, m: Movie, e: Event)
    requires c.Valid() && home !in MainOf(c.pairs) && Consistent(c, home, m)
    ensures Consistent(c, home, Step(c, m, e))
  {
    PairIsClosed(c, home, m.profile);
  }

  /**
   A movie that starts on a main profile is, after any sequence of updates,
   timeouts and forced resets, on that profile or its temporary one, and its
   tracking columns name exactly these two.
   */
  lemma {:induction false} RunKeepsPair(c: Config, m: Movie, events: seq<Event>)
    requires c.Valid() && m.profile !in MainOf(c.pairs) && (m.row.Some? ==> m.row.value == UNTRACKED)
    ensures Consistent(c, m.profile, Run(c, m, events))
  {
    if |events| > 0 {
      RunKeepsPair(c, m, events[..|events| - 1]);
      StepKeepsPair(c, m.profile, Run(c, m, events[..|events| - 1]), events[|events| - 1]);
    }
  }

  /** The maps at a pair of the mapping, and at a profile that is in none. */
  lemma MapsAt(pairs: Mapping, i: nat)
    requires IsDict(pairs) && OneToOne(pairs) && TempsAreNotMains(pairs) && i < |pairs|
    ensures pairs[i].0 in TempOf(pairs) && TempOf(pairs)[pairs[i].0] == pairs[i].1 && pairs[i].0 !in MainOf(pairs)
    ensures pairs[i].1 in MainOf(pairs) && MainOf(pairs)[pairs[i].1] == pairs[i].0 && pairs[i].1 !in TempOf(pairs)
  {
    TempOfEntries(pairs);
    MainOfEntries(pairs);
    RoundTripIffOneToOne(pairs);
    TempsAndMainsDisjoint(pairs);
  }

  lemma MapsElsewhere(pairs: Mapping, profile: int)
    requires IsDict(pairs) && forall i :: 0 <= i < |pairs| ==> pairs[i].0 != profile && pairs[i].1 != profile
    ensures profile !in TempOf(pairs) && profile !in MainOf(pairs)
  {
    TempOfEntries(pairs);
    MainOfEntries(pairs);
  }

  /**
   One update of a listed movie on its main profile: it moves to the paired
   temporary profile exactly if it is missing and not searched for and the PUT
   is applied; the switch is recorded if the PUT succeeds and a row exists.
   */
  lemma UpdateOnMain(c: Config, i: nat, row: Option<Row>, searched: bool, hasFile: bool, put: Put, now: int)
    requires c.Valid() && i < |c.pairs|
    ensures var (main, temp) := c.pairs[i];
            var m := Step(c, Movie(main, row), Update(true, searched, hasFile, put, now));
            var wanted := c.useTemp && !searched && !hasFile;
            m.profile == (if wanted && (put.PutOk? || put.applied) then temp else main) &&
            m.row == if wanted && put.PutRaises? then row
                     else if row.None? then Some(Row(None, None, None))
                     else if wanted && put.PutOk? then Some(Row(Some(now), Some(main), Some(temp))) else row
  {
    MapsAt(c.pairs, i);
  }

  /**
   On its temporary profile: it moves back exactly if it has been searched for,
   temporary profiles are not kept and the PUT is applied; a recorded switch is
   forgotten if the PUT succeeds, which stamps the row with the time.
   */
  lemma UpdateOnTemp(c: Config, i: nat, row: Option<Row>, searched: bool, hasFile: bool, put: Put, now: int)
    requires c.Valid() && i < |c.pairs|
    ensures var (main, temp) := c.pairs[i];
            var m := Step(c, Movie(temp, row), Update(true, searched, hasFile, put, now));
            var wanted := c.useTemp && searched && !c.keepTemp;
            m.profile == (if wanted && (put.PutOk? || put.applied) then main else temp) &&
            m.row == if wanted && put.PutRaises? then row
                     else if row.None? then Some(Row(None, None, None))
                     else if wanted && put.PutOk? then Some(Row(Some(now), None, None)) else row
  {
    MapsAt(c.pairs, i);
  }

  /** Outside the mapping nothing is switched, and a movie no longer wanted loses its row, not its profile. */
  lemma UpdateElsewhere(c: Config, m: Movie, e: Event)
    requires IsDict(c.pairs) && e.Update?
    ensures e.eligible &&
            (forall i :: 0 <= i < |c.pairs| ==> c.pairs[i].0 != m.profile && c.pairs[i].1 != m.profile) ==>
              Step(c, m, e) == Movie(m.profile, if m.row.Some? then m.row else Some(Row(None, None, None)))
    ensures !e.eligible ==> Step(c, m, e) == Movie(m.profile, None)
  {
    if forall i :: 0 <= i < |c.pairs| ==> c.pairs[i].0 != m.profile && c.pairs[i].1 != m.profile {
      MapsElsewhere(c.pairs, m.profile);
    }
  }

  /**
   A timeout check of a movie recorded as switched: past its time the movie is
   put back if the PUT is applied, and no longer recorded if that succeeds.
   */
  lemma TimeoutOfSwitch(c: Config, i: nat, profile: int, since: int, put: Put, clears: bool, now: int)
    requires c.Valid() && i < |c.pairs|
    ensures var (main, temp) := c.pairs[i];
            var row := Row(Some(since), Some(main), Some(temp));
            var due := c.timeout != 0 && since < now - c.timeout;
            Step(c, Movie(profile, Some(row)), TimeoutCheck(put, clears, now)) ==
              Movie(if due && (put.PutOk? || put.applied) then main else profile,
                    Some(if due && put.PutOk? && clears then Row(None, None, None) else row))
  {
    MapsAt(c.pairs, i);
  }

  /** A forced reset puts a movie on a temporary profile back if the PUT is applied, and leaves all others. */
  lemma ResetOfMovie(c: Config, i: nat, row: Option<Row>, put: Put)
    requires c.Valid() && i < |c.pairs|
    ensures var (main, temp) := c.pairs[i];
            Step(c, Movie(temp, row), ForceReset(put)) ==
              Movie(if put.PutOk? || put.applied then main else temp, row) &&
            Step(c, Movie(main, row), ForceReset(put)) == Movie(main, row)
  {
    MapsAt(c.pairs, i);
  }

  /** A successful timeout of a tracked movie restores the profile it started on. */
  lemma TimeoutRestoresHome(c: Config, home: int, m: Movie, now: int)
    requires c.Valid() && home !in MainOf(c.pairs) && Consistent(c, home, m)
    requires c.timeout != 0 && m.row.Some? && IsExpired(c, m.row.value, now)
    ensures Step(c, m, TimeoutCheck(PutOk, true, now)) == Movie(home, Some(UNTRACKED))
  {
    TempOfEntries(c.pairs);
    MainOfEntries(c.pairs);
    var t := TempOf(c.pairs)[home];
    assert (home, t) in c.pairs;
    var i :| 0 <= i < |c.pairs| && c.pairs[i] == (home, t);
  }

  /** Disjointness is needed: with a chained mapping, two updates leave the pair. */
  lemma ChainLeavesPair(c: Config, home: int, now: int)
    requires c.useTemp && home in TempOf(c.pairs) && TempOf(c.pairs)[home] in TempOf(c.pairs)
    requires !OnPair(c, home, TempOf(c.pairs)[TempOf(c.pairs)[home]])
    ensures var missing := Update(true, false, false, PutOk, now);
            !OnPair(c, home, Run(c, Movie(home, None), [missing, missing]).profile)
  {
    var missing := Update(true, false, false, PutOk, now);
    assert [missing, missing][..1] == [missing];
    assert [missing][..0] == [];
    assert Run(c, Movie(home, None), []) == Movie(home, None);
    assert Run(c, Movie(home, None), [missing]).profile == TempOf(c.pairs)[home];
  }

  /** A movie that Radarr lists and that has not been searched for yet gets its temporary profile. */
  function SwitchAt(now: int): Event {
    Update(true, false, false, PutOk, now)
  }

  /** Events that take a movie off its temporary profile, or forget its row. */
  predicate Releases(c: Config, e: Event) {
    match e
    case Update(eligible, searched, _, put, _) =>
      !eligible || (c.useTemp && searched && !c.keepTemp && (put.PutOk? || put.applied))
    case TimeoutCheck(_, _, _) => false
    case ForceReset(put) => put.PutOk? || put.applied
  }

  lemma TempFacts(c: Config, home: int)
    requires c.Valid() && home in TempOf(c.pairs)
    ensures var t := TempOf(c.pairs)[home];
            home !in MainOf(c.pairs) && t !in TempOf(c.pairs) && t in MainOf(c.pairs) && MainOf(c.pairs)[t] == home &&
            t != home
  {
    TempsAndMainsDisjoint(c.pairs);
    TempOfEntries(c.pairs);
    assert (home, TempOf(c.pairs)[home]) in c.pairs;
    var i :| 0 <= i < |c.pairs| && c.pairs[i] == (home, TempOf(c.pairs)[home]);
    MainOfEntries(c.pairs);
    RoundTripIffOneToOne(c.pairs);
  }

  /** An untracked movie on its temporary profile is changed by exactly these events, and by no timeout. */
  lemma UntrackedChangesIff(c: Config, home: int, e: Event)
    requires c.Valid() && home in TempOf(c.pairs)
    ensures var stuck := Movie(TempOf(c.pairs)[home], Some(UNTRACKED));
            Step(c, stuck, e) != stuck <==> Releases(c, e)
  {
    TempFacts(c, home);
  }

  /**
   A switch made together with the insert of the movie's row never times out:
   whatever happens, the movie stays on its temporary profile until one of the
   releasing events.
   */
  lemma {:induction false} InsertedSwitchNeverTimesOut(c: Config, home: int, now: int, events: seq<Event>)
    requires c.Valid() && c.useTemp && home in TempOf(c.pairs) && forall e <- events :: !Releases(c, e)
    ensures Run(c, Movie(home, None), [SwitchAt(now)] + events) == Movie(TempOf(c.pairs)[home], Some(UNTRACKED))
  {
    var run, n := [SwitchAt(now)] + events, |events|;
    TempFacts(c, home);
    if n == 0 {
      assert run == [SwitchAt(now)] && run[..0] == [];
      assert Run(c, Movie(home, None), []) == Movie(home, None);
    } else {
      assert run[..n] == [SwitchAt(now)] + events[..n - 1] && run[n] == events[n - 1];
      InsertedSwitchNeverTimesOut(c, home, now, events[..n - 1]);
      UntrackedChangesIff(c, home, events[n - 1]);
    }
  }

  /** Updates of a movie that is still wanted and not searched for, and timeout checks up to this time. */
  predicate IsIdle(c: Config, e: Event, until: int) {
    match e
    case Update(eligible, searched, _, _, _) => eligible && !searched
    case TimeoutCheck(_, _, now) => now - c.timeout <= until
    case ForceReset(_) => false
  }

  /** With a row to begin with, the same switch is tracked and stays so until its time is up. */
  lemma {:induction false} UpdatedSwitchIsTracked(c: Config, home: int, now: int, events: seq<Event>)
    requires c.Valid() && c.useTemp && home in TempOf(c.pairs) && forall e <- events :: IsIdle(c, e, now)
    ensures var t := TempOf(c.pairs)[home];
            Run(c, Movie(home, Some(UNTRACKED)), [SwitchAt(now)] + events) ==
              Movie(t, Some(Row(Some(now), Some(home), Some(t))))
  {
    var run, n := [SwitchAt(now)] + events, |events|;
    TempFacts(c, home);
    if n == 0 {
      assert run == [SwitchAt(now)] && run[..0] == [];
      assert Run(c, Movie(home, Some(UNTRACKED)), []) == Movie(home, Some(UNTRACKED));
    } else {
      assert run[..n] == [SwitchAt(now)] + events[..n - 1] && run[n] == events[n - 1];
      UpdatedSwitchIsTracked(c, home, now, events[..n - 1]);
      assert IsIdle(c, events[n - 1], now);
    }
  }

  /**
   So the first timeout check after the time is up puts the movie back exactly
   if it had a row when it was switched.
   */
  lemma SwitchTimesOutIffRowExists(c: Config, home: int, row: Option<Row>, now: int, events: seq<Event>, later: int)
    requires c.Valid() && c.useTemp && home in TempOf(c.pairs) && (row.Some? ==> row.value == UNTRACKED)
    requires (forall e <- events :: IsIdle(c, e, now)) && c.timeout != 0 && now < later - c.timeout
    ensures var after := Run(c, Movie(home, row), [SwitchAt(now)] + events + [TimeoutCheck(PutOk, true, later)]);
            after.profile == home <==> row.Some?
  {
    var run, check := [SwitchAt(now)] + events, TimeoutCheck(PutOk, true, later);
    assert (run + [check])[..|run|] == run && (run + [check])[|run|] == check;
    TempFacts(c, home);
    if row.Some? {
      UpdatedSwitchIsTracked(c, home, now, events);
      TimeoutRestoresHome(c, home, Run(c, Movie(home, row), run), later);
    } else {
      InsertedSwitchNeverTimesOut(c, home, now, events);
      UntrackedChangesIff(c, home, check);
    }
  }

  // ------------------------------------------------------------------ the worker

  class Worker {
    const config: Config
    var remote: map<int, int>
    var rows: map<int, Row>

    constructor (config: Config, remote: map<int, int>)
      ensures this.config == config && this.remote == remote && rows == map[]
    {
      this.config := config;
      this.remote := remote;
      rows := map[];
    }

    function MovieOf(id: int): Movie
      requires id in remote
      reads this
    {
      Movie(remote[id], if id in rows then Some(rows[id]) else None)
    }

    /** Rows exist only for movies Radarr lists. */
    predicate Valid()
      reads this
    {
      rows.Keys <= remote.Keys
    }

    method StoreRow(id: int, row: Option<Row>)
      modifies `rows
      ensures rows == if row.Some? then old(rows)[id := row.value] else old(rows) - {id}
    {
      if row.Some? {
        rows := rows[id := row.value];
      } else {
        rows := rows - {id};
      }
    }

    /** `update_radarr_entry` */
    method UpdateEntry(id: int, e: Event)
      requires Valid() && id in remote && e.Update?
      modifies this
      ensures Valid() && remote.Keys == old(remote).Keys
      ensures MovieOf(id) == Step(config, old(MovieOf(id)), e)
      ensures forall other <- remote :: other != id ==> MovieOf(other) == old(MovieOf(other))
    {
      if !e.eligible {
        StoreRow(id, None);
        return;
      }
      var stamped: Option<Row> := None;
      if config.useTemp {
        var plan := PlanSwitch(e.searched, e.hasFile, remote[id], config.pairs, config.keepTemp);
        if plan.Switch? {
          remote := remote[id := AfterPut(remote[id], plan.profile, e.put)];
          if e.put.PutRaises? {
            return;
          }
          if e.put.PutOk? {
            stamped := Some(Row(Some(e.now), plan.original, plan.current));
          }
        }
      }
      if id in rows {
        StoreRow(id, if stamped.Some? then stamped else Some(rows[id]));
      } else {
        StoreRow(id, Some(UNTRACKED));
      }
    }

    /** One expired row: stop tracking it, or put the movie back and then stop tracking it. */
    method TimeoutRow(id: int, put: Put, clears: bool, ghost now: int) returns (raised: bool)
      requires Valid() && id in rows && config.timeout != 0 && IsExpired(config, rows[id], now)
      modifies this
      ensures Valid() && remote.Keys == old(remote).Keys && rows.Keys == old(rows).Keys
      ensures MovieOf(id) == Step(config, old(MovieOf(id)), TimeoutCheck(put, clears, now))
      ensures forall other <- remote :: other != id ==> MovieOf(other) == old(MovieOf(other))
      ensures raised <==> old(rows)[id].current.value !in MainOf(config.pairs) && !clears
    {
      if rows[id].current.value !in MainOf(config.pairs) {
        if clears {
          rows := rows[id := UNTRACKED];
        }
        return !clears;
      }
      remote := remote[id := AfterPut(remote[id], rows[id].original.value, put)];
      if put.PutOk? && clears {
        rows := rows[id := UNTRACKED];
      }
      raised := false;
    }

    /** Rows whose clearing, when it fails, ends the sweep. */
    predicate EndsSweep(id: int, clears: bool, now: int)
      reads this
    {
      id in rows && IsExpired(config, rows[id], now) && rows[id].current.value !in MainOf(config.pairs) && !clears
    }

    /**
     `_check_temp_profile_timeouts`; `order` is the order in which the query
     lists the rows.  Errors while putting a movie back are caught row by row,
     an error while clearing a row that is out of the mapping ends the sweep.
     */
    method CheckTimeouts(order: seq<int>, puts: int -> Put, clears: int -> bool, now: int) returns (done: nat)
      requires Valid() && forall id :: id in order <==> id in rows
      requires forall i, j :: 0 <= i < j < |order| ==> order[i] != order[j]
      modifies this
      ensures Valid() && remote.Keys == old(remote).Keys && done <= |order|
      ensures done < |order| ==> config.timeout != 0 && old(EndsSweep(order[done], clears(order[done]), now))
      ensures config.timeout != 0 ==> forall i :: 0 <= i < done ==> !old(EndsSweep(order[i], clears(order[i]), now))
      ensures forall id <- remote :: MovieOf(id) == if id in order[..done]
                then Step(config, old(MovieOf(id)), TimeoutCheck(puts(id), clears(id), now)) else old(MovieOf(id))
    {
      hide MainOf, UpdateMovie, AfterPut;
      if config.timeout == 0 {
        return |order|;
      }
      for k := 0 to |order|
        invariant Valid() && remote.Keys == old(remote).Keys
        invariant forall i :: 0 <= i < k ==> !old(EndsSweep(order[i], clears(order[i]), now))
        invariant forall id <- remote :: id !in order[..k] ==> MovieOf(id) == old(MovieOf(id))
        invariant forall id <- remote :: id in order[..k] ==>
                                           MovieOf(id) ==
                                             Step(config, old(MovieOf(id)), TimeoutCheck(puts(id), clears(id), now))
      {
        var id := order[k];
        assert order[..k + 1] == order[..k] + [id];
        assert id !in order[..k] && id in old(rows) && MovieOf(id) == old(MovieOf(id));
        if IsExpired(config, rows[id], now) {
          var raised := TimeoutRow(id, puts(id), clears(id), now);
          if raised {
            return k;
          }
        }
      }
      return |order|;
    }

    /**
     `_reset_all_temp_profiles` over the listed items; an error other than the
     retried ones ends the sweep.  With every call successful, no listed item is
     left on a temporary profile.
     */
    method ResetAll(items: seq<int>, puts: int -> Put) returns (done: nat)
      requires Valid() && (forall i :: 0 <= i < |items| ==> items[i] in remote)
      requires forall i, j :: 0 <= i < j < |items| ==> items[i] != items[j]
      modifies `remote
      ensures Valid() && remote.Keys == old(remote).Keys && done <= |items|
      ensures forall i :: 0 <= i < |items| && i <= done ==>
                            MovieOf(items[i]) == Step(config, old(MovieOf(items[i])), ForceReset(puts(items[i])))
      ensures done < |items| ==> puts(items[done]).PutRaises? && old(remote)[items[done]] in MainOf(config.pairs)
      ensures forall i :: 0 <= i < done && puts(items[i]).PutRaises? ==> old(remote)[items[i]] !in MainOf(config.pairs)
      ensures forall id <- remote :: id !in items[..if done < |items| then done + 1 else done] ==>
                remote[id] == old(remote)[id]
      ensures config.Valid() && (forall id <- items :: puts(id).PutOk?) ==>
                forall id <- items :: remote[id] !in MainOf(config.pairs)
    {
      hide MainOf, UpdateMovie, TimeoutMovie, AfterPut, Config.Valid;
      for k := 0 to |items|
        invariant remote.Keys == old(remote).Keys
        invariant forall i :: 0 <= i < k ==>
                    MovieOf(items[i]) == Step(config, old(MovieOf(items[i])), ForceReset(puts(items[i])))
        invariant forall id <- remote :: id !in items[..k] ==> remote[id] == old(remote)[id]
        invariant forall i :: 0 <= i < k && puts(items[i]).PutRaises? ==> old(remote)[items[i]] !in MainOf(config.pairs)
      {
        var id := items[k];
        assert items[..k + 1] == items[..k] + [id];
        assert id !in items[..k];
        if remote[id] in MainOf(config.pairs) {
          remote := remote[id := AfterPut(remote[id], MainOf(config.pairs)[remote[id]], puts(id))];
          if puts(id).PutRaises? {
            return k;
          }
        }
      }
      if config.Valid() {
        forall id | id in items && puts(id).PutOk?
          ensures remote[id] !in MainOf(config.pairs)
        {
          ResetLeavesNoTemp(config, old(MovieOf(id)));
        }
      }
      return |items|;
    }
  }

  /** A forced reset whose call succeeds leaves the item on no temporary profile. */
  lemma ResetLeavesNoTemp(c: Config, m: Movie)
    requires c.Valid()
    ensures Step(c, m, ForceReset(PutOk)).profile !in MainOf(c.pairs)
  {
    MainOfEntries(c.pairs);
    TempOfEntries(c.pairs);
    TempsAndMainsDisjoint(c.pairs);
    if m.profile in MainOf(c.pairs) {
      var home := MainOf(c.pairs)[m.profile];
      assert (home, m.profile) in c.pairs;
      var i :| 0 <= i < |c.pairs| && c.pairs[i] == (home, m.profile);
    }
  }
}
