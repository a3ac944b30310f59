/**
 The priority a torrent is sorted by: a blend of the best configured tag on the
 torrent and the best tracker it announces to
 (`merge_global_tracker_tag_to_priority_max`, `_get_torrent_queue_sort_priority`).
 */
module QueuePriority {
  import opened Wrappers
  import opened CategoryPaths
  import opened PythonStrings
  import opened QueueSort

  /** A merged tracker row; `None` stands for a missing or non-integer priority. */
  datatype TrackerRow = TrackerRow(priority: Option<int>, addTags: seq<string>)
  {
    function Priority(): int {
      if priority.Some? then priority.value else DEFAULT_PRIORITY
    }

    /** The row labels torrents with this (trimmed) tag. */
    predicate Adds(tag: string) {
      tag != "" && exists i :: 0 <= i < |addTags| && Strip(addTags[i]) == tag
    }
  }

  function Max(a: int, b: int): int {
    if a >= b then a else b
  }

  /** One row's trimmed tags with the row's priority, blank tags included. */
  function Labels(row: TrackerRow): seq<(string, int)> {
    seq(|row.addTags|, i requires 0 <= i < |row.addTags| => (Strip(row.addTags[i]), row.Priority()))
  }

  function AllLabels(rows: seq<TrackerRow>): seq<(string, int)> {
    if |rows| == 0 then [] else AllLabels(rows[..|rows| - 1]) + Labels(rows[|rows| - 1])
  }

  /** `best` holds, per non-blank tag, the highest of its priorities, but at least the default. */
  ghost predicate IsTagTable(labels: seq<(string, int)>, best: map<string, int>) {
    (forall l <- labels :: l.0 != "" ==> l.0 in best && l.1 <= best[l.0]) &&
    (forall tag <- best :: tag != "" && best[tag] >= DEFAULT_PRIORITY && exists p :: (tag, p) in labels) &&
    (forall tag <- best :: best[tag] == DEFAULT_PRIORITY || (tag, best[tag]) in labels)
  }

  lemma TableStep(labels: seq<(string, int)>, l: (string, int), best: map<string, int>)
    requires IsTagTable(labels, best)
    ensures IsTagTable(labels + [l], if l.0 == "" then best else best[l.0 := Max(PriorityOf(best, l.0), l.1)])
  {
    var all := labels + [l];
    forall tag, p | (tag, p) in labels
      ensures (tag, p) in all
    {
    }
    assert (l.0, l.1) in all;
    if l.0 == "" {
      assert forall tag <- best :: exists p :: (tag, p) in all;
    } else {
      var best' := best[l.0 := Max(PriorityOf(best, l.0), l.1)];
      forall tag | tag in best'
        ensures exists p :: (tag, p) in all
      {
        if tag != l.0 {
          var p :| (tag, p) in labels;
          assert (tag, p) in all;
        }
      }
    }
  }

  lemma EmptyTable(rows: seq<TrackerRow>)
    ensures IsTagTable(AllLabels(rows[..0]), map[])
  {
  }

  lemma AllLabelsStep(rows: seq<TrackerRow>, r: nat)
    requires r < |rows|
    ensures AllLabels(rows[..r + 1]) == AllLabels(rows[..r]) + Labels(rows[r])
  {
    assert rows[..r + 1][..r] == rows[..r];
  }

  method MergeTagToPriorityMax(rows: seq<TrackerRow>) returns (best: map<string, int>)
    ensures IsTagTable(AllLabels(rows), best)
  {
    hide IsTagTable, Strip, AllLabels;
    best := map[];
    EmptyTable(rows);
    for r := 0 to |rows|
      invariant IsTagTable(AllLabels(rows[..r]), best)
    {
      var row := rows[r];
      ghost var labels := AllLabels(rows[..r]);
      assert labels + Labels(row)[..0] == labels;
      for k := 0 to |row.addTags|
        invariant IsTagTable(labels + Labels(row)[..k], best)
      {
        var t := Strip(row.addTags[k]);
        TableStep(labels + Labels(row)[..k], Labels(row)[k], best);
        assert labels + Labels(row)[..k] + [Labels(row)[k]] == labels + Labels(row)[..k + 1];
        if t != "" {
          best := best[t := Max(PriorityOf(best, t), row.Priority())];
        }
      }
      assert Labels(row)[..|row.addTags|] == Labels(row);
      AllLabelsStep(rows, r);
    }
    assert rows[..|rows|] == rows;
  }

  /** A label belongs to some row that adds the tag, with that row's priority. */
  lemma {:induction false} LabelsComeFromRows(rows: seq<TrackerRow>, tag: string, p: int)
    requires tag != ""
    ensures (tag, p) in AllLabels(rows) <==> exists i :: 0 <= i < |rows| && rows[i].Adds(tag) && rows[i].Priority() == p
  {
    if |rows| > 0 {
      var n := |rows| - 1;
      LabelsComeFromRows(rows[..n], tag, p);
      if (tag, p) in Labels(rows[n]) {
        var j :| 0 <= j < |Labels(rows[n])| && Labels(rows[n])[j] == (tag, p);
        assert rows[n].Adds(tag);
      }
      if rows[n].Adds(tag) && rows[n].Priority() == p {
        var j :| 0 <= j < |rows[n].addTags| && Strip(rows[n].addTags[j]) == tag;
        assert Labels(rows[n])[j] == (tag, p);
      }
      if (tag, p) in AllLabels(rows[..n]) {
        var i :| 0 <= i < n && rows[..n][i].Adds(tag) && rows[..n][i].Priority() == p;
        assert rows[i].Adds(tag);
      }
      if i :| 0 <= i < |rows| && rows[i].Adds(tag) && rows[i].Priority() == p {
        assert i == n || rows[..n][i].Adds(tag);
      }
    }
  }

  /** The blend: the announce priority or a better-than-default matching tag, whichever is higher. */
  ghost predicate IsQueuePriority(announce: int, present: set<string>, best: map<string, int>, p: int) {
    p >= announce &&
    (forall t <- present :: t in best && best[t] > DEFAULT_PRIORITY ==> p >= best[t]) &&
    (p == announce || exists t :: t in present && t in best && best[t] == p && p > DEFAULT_PRIORITY)
  }

  method QueueSortPriority(announce: int, present: set<string>, best: map<string, int>) returns (p: int)
    ensures IsQueuePriority(announce, present, best, p)
  {
    if best == map[] {
      return announce;
    }
    var top: Option<int> := None;
    var todo := present;
    while todo != {}
      invariant todo <= present
      invariant top.None? ==> forall t <- present - todo :: t !in best
      invariant top.Some? ==> (forall t <- present - todo :: t in best ==> best[t] <= top.value) &&
                              exists t :: t in present && t in best && best[t] == top.value
      decreases todo
    {
      var t :| t in todo;
      if t in best && (top.None? || best[t] > top.value) {
        top := Some(best[t]);
      }
      todo := todo - {t};
    }
    if top.None? {
      return announce;
    }
    if top.value <= DEFAULT_PRIORITY {
      return announce;
    }
    p := Max(top.value, announce);
  }

  /** The row has this priority and labels torrents with this tag, once trimmed. */
  predicate Grants(row: TrackerRow, tag: string, p: int) {
    row.priority == Some(p) && exists j :: 0 <= j < |row.addTags| && Strip(row.addTags[j]) == tag
  }

  /** In terms of the tracker rows: the highest of the announce tier and every matching row above -100. */
  lemma QueuePriorityIsBestRow(rows: seq<TrackerRow>, best: map<string, int>, announce: int, present: set<string>,
                               p: int)
    requires IsTagTable(AllLabels(rows), best) && IsQueuePriority(announce, present, best, p) && "" !in present
    ensures p >= announce
    ensures forall row <- rows, t <- present, q :: Grants(row, t, q) && q > -100 ==> p >= q
    ensures p == announce || (p > -100 && exists row <- rows, t <- present :: Grants(row, t, p))
  {
    forall row, t, q | row in rows && t in present && Grants(row, t, q) && q > -100
      ensures p >= q
    {
      var i :| 0 <= i < |rows| && rows[i] == row;
      assert rows[i].Adds(t) && rows[i].Priority() == q;
      LabelsComeFromRows(rows, t, q);
    }
    if p != announce {
      var t :| t in present && t in best && best[t] == p && p > DEFAULT_PRIORITY;
      LabelsComeFromRows(rows, t, p);
      var i :| 0 <= i < |rows| && rows[i].Adds(t) && rows[i].Priority() == p;
      assert rows[i] in rows && Grants(rows[i], t, p);
    }
  }
}
