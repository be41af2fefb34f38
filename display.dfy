/** What the board derives from the task list for display: the per-column buckets
    and the order in which a card lists its subtasks. */
module Display {
  import opened BoardTypes
  import opened SeqUtils

  function InColumnTest(c: ColumnId): Task -> bool {
    (t: Task) => t.columnId == c
  }

  /** The tasks of column `c`, in board order. */
  function InColumn(ts: seq<Task>, c: ColumnId): seq<Task> {
    Filter(ts, InColumnTest(c))
  }

  /** `tasksByColumn[c] || []`: a column with no entry shows no tasks. */
  function Bucket(buckets: map<ColumnId, seq<Task>>, c: ColumnId): seq<Task> {
    if c in buckets then buckets[c] else []
  }

  /** The `reduce` that pushes each task onto the array of its own column, creating the
      array on first use. Each bucket is exactly the column's tasks in board order, and
      a column has an entry only when it has a task. */
  method TasksByColumn(ts: seq<Task>) returns (buckets: map<ColumnId, seq<Task>>)
    ensures forall c :: Bucket(buckets, c) == InColumn(ts, c)
    ensures forall c :: c in buckets <==> InColumn(ts, c) != []
    ensures forall i :: 0 <= i < |ts| ==> ts[i] in Bucket(buckets, ts[i].columnId)
  {
    buckets := map[];
    var i := 0;
    while i < |ts|
      invariant 0 <= i <= |ts|
      invariant forall c :: Bucket(buckets, c) == InColumn(ts[..i], c)
      invariant forall c :: c in buckets <==> InColumn(ts[..i], c) != []
    {
      var t := ts[i];
      ghost var before := buckets;
      if t.columnId !in buckets {
        buckets := buckets[t.columnId := []];
      }
      buckets := buckets[t.columnId := buckets[t.columnId] + [t]];
      PushKeepsGrouped(before, buckets, ts[..i], t);
      assert ts[..i + 1] == ts[..i] + [t];
      i := i + 1;
    }
    assert ts[..i] == ts;
    forall k | 0 <= k < |ts| ensures ts[k] in Bucket(buckets, ts[k].columnId) {
      FilterMembers(ts, InColumnTest(ts[k].columnId));
    }
  }

  /** Pushing a task onto its own column's bucket keeps every bucket equal to its
      column's tasks, now including that task. */
  lemma PushKeepsGrouped(buckets: map<ColumnId, seq<Task>>, pushed: map<ColumnId, seq<Task>>, s: seq<Task>, t: Task)
    requires forall c :: Bucket(buckets, c) == InColumn(s, c)
    requires forall c :: c in buckets <==> InColumn(s, c) != []
    requires t.columnId in pushed && pushed[t.columnId] == Bucket(buckets, t.columnId) + [t]
    requires forall c :: c != t.columnId ==> (c in pushed <==> c in buckets) && Bucket(pushed, c) == Bucket(buckets, c)
    ensures forall c :: Bucket(pushed, c) == InColumn(s + [t], c)
    ensures forall c :: c in pushed <==> InColumn(s + [t], c) != []
  {
    forall c ensures InColumn(s + [t], c) == InColumn(s, c) + (if t.columnId == c then [t] else []) {
      InColumnSnoc(s, t, c);
    }
  }

  lemma InColumnSnoc(s: seq<Task>, t: Task, c: ColumnId)
    ensures InColumn(s + [t], c) == InColumn(s, c) + (if t.columnId == c then [t] else [])
  {
    assert (s + [t])[..|s + [t]| - 1] == s;
  }

  /** The three buckets together hold every task exactly once. */
  lemma {:induction false} BucketSizesSum(ts: seq<Task>)
    ensures |InColumn(ts, Todo)| + |InColumn(ts, InProgress)| + |InColumn(ts, Done)| == |ts|
    ensures multiset(InColumn(ts, Todo)) + multiset(InColumn(ts, InProgress)) + multiset(InColumn(ts, Done))
            == multiset(ts)
  {
    if ts != [] {
      var init, last := ts[..|ts| - 1], ts[|ts| - 1];
      BucketSizesSum(init);
      BucketsSnoc(init, last);
      assert ts == init + [last];
    }
  }

  /** Adding one task to the board adds it to exactly one bucket. */
  lemma BucketsSnoc(s: seq<Task>, t: Task)
    requires |InColumn(s, Todo)| + |InColumn(s, InProgress)| + |InColumn(s, Done)| == |s|
    requires multiset(InColumn(s, Todo)) + multiset(InColumn(s, InProgress)) + multiset(InColumn(s, Done))
             == multiset(s)
    ensures |InColumn(s + [t], Todo)| + |InColumn(s + [t], InProgress)| + |InColumn(s + [t], Done)| == |s + [t]|
    ensures multiset(InColumn(s + [t], Todo)) + multiset(InColumn(s + [t], InProgress)) + multiset(InColumn(s + [t], Done))
            == multiset(s + [t])
  {
    InColumnSnoc(s, t, Todo);
    InColumnSnoc(s, t, InProgress);
    InColumnSnoc(s, t, Done);
    assert multiset(s + [t]) == multiset(s) + multiset{t};
  }

  predicate Pending(s: Subtask) {
    !s.completed
  }

  predicate Completed(s: Subtask) {
    s.completed
  }

  /** `sortedSubtasks`: a copy sorted with a comparator that puts incomplete before
      complete and calls equal flags equal; the sort is stable, so this is the
      incomplete subtasks in list order followed by the complete ones in list order. */
  function DisplayOrder(subs: seq<Subtask>): seq<Subtask> {
    Filter(subs, Pending) + Filter(subs, Completed)
  }

  /** No complete subtask is listed before an incomplete one. */
  ghost predicate PendingFirst(r: seq<Subtask>) {
    forall i, j :: 0 <= i < j < |r| && r[i].completed ==> r[j].completed
  }

  /** The display order is a sort: a permutation of the list with every incomplete
      subtask first, and stable: within each group the list order is kept. */
  lemma DisplayOrderIsStableSort(subs: seq<Subtask>)
    ensures multiset(DisplayOrder(subs)) == multiset(subs)
    ensures PendingFirst(DisplayOrder(subs))
    ensures Filter(DisplayOrder(subs), Pending) == Filter(subs, Pending)
    ensures Filter(DisplayOrder(subs), Completed) == Filter(subs, Completed)
  {
    var p, c := Filter(subs, Pending), Filter(subs, Completed);
    FilterSplits(subs, Pending, Completed);
    FilterConcat(p, c, Pending);
    FilterConcat(p, c, Completed);
    FilterKeepsAll(p, Pending);
    FilterKeepsAll(c, Completed);
    FilterDropsAll(c, Pending);
    FilterDropsAll(p, Completed);
  }

  /** A list with incomplete subtasks first is its incomplete part followed by its
      complete part. */
  lemma {:induction false} PendingFirstSplits(r: seq<Subtask>)
    requires PendingFirst(r)
    ensures r == Filter(r, Pending) + Filter(r, Completed)
  {
    if r != [] {
      var init, last := r[..|r| - 1], r[|r| - 1];
      assert r == init + [last];
      PendingFirstSplits(init);
      if !last.completed {
        assert forall i :: 0 <= i < |init| ==> !init[i].completed;
        FilterDropsAll(init, Completed);
        FilterKeepsAll(init, Pending);
      }
    }
  }

  /** The display order is the only stable incomplete-first order: any list that puts
      incomplete subtasks first and keeps the order within each group is it. */
  lemma DisplayOrderIsUnique(subs: seq<Subtask>, r: seq<Subtask>)
    requires PendingFirst(r)
    requires Filter(r, Pending) == Filter(subs, Pending)
    requires Filter(r, Completed) == Filter(subs, Completed)
    ensures r == DisplayOrder(subs)
  {
    PendingFirstSplits(r);
  }
}
