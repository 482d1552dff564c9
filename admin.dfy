/** The admin's bulk actions on imports and its per-source figures
    (cmsplugin_rss_import/admin.py). */
module Admin {
  import opened Wrappers
  import opened Imports
  import Sources
  import JobStores

  /** One bulk `queryset.update(enabled=...)` over the selected ids: the
      show action sets `enabled` to whether the import is complete, the
      hide action clears it. */
  function Updated(rows: seq<RSSImport>, selected: set<nat>, show: bool): (r: seq<RSSImport>)
    ensures |r| == |rows|
    ensures forall i :: 0 <= i < |r| ==>
      (r[i].id == rows[i].id && r[i].source == rows[i].source && r[i].content == rows[i].content && r[i].status == rows[i].status)
    ensures forall i :: 0 <= i < |r| && rows[i].id !in selected ==> r[i] == rows[i]
    ensures forall i :: 0 <= i < |r| && rows[i].id in selected ==> (r[i].enabled <==> show && rows[i].status == Complete)
    ensures forall i :: 0 <= i < |r| && rows[i].id in selected ==> ShownOnlyComplete(r[i])
  {
    if rows == [] then []
    else
      var head := if rows[0].id in selected then rows[0].(enabled := show && rows[0].status == Complete) else rows[0];
      [head] + Updated(rows[1..], selected, show)
  }

  /** `show_in_plugin_action`: the selected imports are shown when they
      are complete and hidden otherwise. */
  method ShowInPlugin(t: ImportTable, selected: set<nat>)
    requires t.Valid()
    modifies t
    ensures t.rows == Updated(old(t.rows), selected, true) && t.nextId == old(t.nextId)
    ensures t.Valid()
    ensures old(t.ShownAreComplete()) ==> t.ShownAreComplete()
  {
    t.rows := Updated(t.rows, selected, true);
  }

  /** `hide_in_plugin_action`: the selected imports are hidden. */
  method HideInPlugin(t: ImportTable, selected: set<nat>)
    requires t.Valid()
    modifies t
    ensures t.rows == Updated(old(t.rows), selected, false) && t.nextId == old(t.nextId)
    ensures t.Valid()
    ensures old(t.ShownAreComplete()) ==> t.ShownAreComplete()
  {
    t.rows := Updated(t.rows, selected, false);
  }

  /** `RSSImport.objects.filter(source=obj[, status=...]).count()`: the
      imports of a source, or those of it in one status. */
  function Count(rows: seq<RSSImport>, source: nat, status: Option<Status>): (n: nat)
    ensures n <= |rows|
  {
    if rows == [] then 0
    else
      var here := rows[0].source == source && (status.None? || rows[0].status == status.value);
      (if here then 1 else 0) + Count(rows[1..], source, status)
  }

  /** The complete, scheduled and processing counts add up to
      `total_items`, since these are the only statuses. */
  lemma {:induction false} CountsAddUp(rows: seq<RSSImport>, source: nat)
    ensures Count(rows, source, Some(Complete)) + Count(rows, source, Some(Scheduled))
      + Count(rows, source, Some(Processing)) == Count(rows, source, None)
  {
    if rows != [] {
      CountsAddUp(rows[1..], source);
    }
  }

  /** Neither action changes any count, as they touch only `enabled`. */
  lemma {:induction false} ActionsKeepCounts(rows: seq<RSSImport>, selected: set<nat>, show: bool,
                                             source: nat, status: Option<Status>)
    ensures Count(Updated(rows, selected, show), source, status) == Count(rows, source, status)
  {
    if rows != [] {
      ActionsKeepCounts(rows[1..], selected, show, source, status);
      var r := Updated(rows, selected, show);
      assert r[1..] == Updated(rows[1..], selected, show);
    }
  }

  /** Hiding twice is hiding once, and so is showing twice. */
  lemma {:induction false} ActionsIdempotent(rows: seq<RSSImport>, selected: set<nat>, show: bool)
    ensures Updated(Updated(rows, selected, show), selected, show) == Updated(rows, selected, show)
  {
    if rows != [] {
      ActionsIdempotent(rows[1..], selected, show);
      var r := Updated(rows, selected, show);
      assert r[1..] == Updated(rows[1..], selected, show);
    }
  }

  /** `next_process_scheduled`: the next run time of the job with id
      `url + ':' + task`, or None when the lookup raises because there is
      no such job. */
  function NextProcessScheduled(jobs: map<string, JobStores.Row>, s: Sources.RSSSource): Option<int> {
    var id := Sources.JobId(s.url, s.task);
    if id in jobs then jobs[id].nextRunTime else None
  }

  /** After the source's job is written with run time `t`, the admin shows
      `t`; writing the job of another source leaves what it shows, when
      task names hold no colon. */
  lemma NextProcessScheduledAfterWrite(jobs: map<string, JobStores.Row>, s: Sources.RSSSource, other: Sources.RSSSource,
                                       row: JobStores.Row)
    requires ':' !in s.task && ':' !in other.task
    ensures NextProcessScheduled(jobs[Sources.JobId(s.url, s.task) := row], s) == row.nextRunTime
    ensures (other.url, other.task) != (s.url, s.task) ==>
      NextProcessScheduled(jobs[Sources.JobId(s.url, s.task) := row], other) == NextProcessScheduled(jobs, other)
  {
    if (other.url, other.task) != (s.url, s.task) && Sources.JobId(s.url, s.task) == Sources.JobId(other.url, other.task) {
      Sources.JobIdInjective(s.url, s.task, other.url, other.task);
    }
  }

  /** Removing the source's job empties the column. */
  lemma NextProcessScheduledAfterRemove(jobs: map<string, JobStores.Row>, s: Sources.RSSSource)
    ensures NextProcessScheduled(jobs - {Sources.JobId(s.url, s.task)}, s) == None
  {
  }
}
