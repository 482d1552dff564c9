/** The select widget for task names (cmsplugin_rss_import/widgets.py). */
module Widgets {
  import opened Wrappers
  import Text
  import Decorators

  /** The registered names offered as tasks: those not starting with `_`. */
  function PublicNames(names: set<string>): set<string> {
    set n | n in names && !Text.StartsWith(n, "_")
  }

  /** `(name, name)` for each name. */
  function Pairs(tasks: seq<string>): (p: seq<(string, string)>)
    ensures |p| == |tasks|
    ensures forall k :: 0 <= k < |p| ==> p[k] == (tasks[k], tasks[k])
  {
    if tasks == [] then [] else [(tasks[0], tasks[0])] + Pairs(tasks[1..])
  }

  /** `tasks_as_choices`: an empty choice, then `(name, name)` for each
      public name in ascending order. */
  function TasksAsChoices(names: set<string>): (r: seq<(string, string)>)
    ensures |r| == 1 + |PublicNames(names)|
    ensures r[0] == ("", "")
  {
    [("", "")] + Pairs(Text.Sorted(PublicNames(names)))
  }

  /** The choices after the first are exactly the public names, each
      paired with itself. */
  lemma ChoicesAreTasks(names: set<string>)
    ensures var r := TasksAsChoices(names);
      forall i :: 1 <= i < |r| ==> r[i].0 == r[i].1 && r[i].0 in names && !Text.StartsWith(r[i].0, "_")
    ensures var r := TasksAsChoices(names);
      forall n :: n in names && !Text.StartsWith(n, "_") ==> exists i :: 1 <= i < |r| && r[i] == (n, n)
  {
    var r := TasksAsChoices(names);
    var tasks := Text.Sorted(PublicNames(names));
    forall i | 1 <= i < |r| ensures r[i].0 == r[i].1 && r[i].0 in names && !Text.StartsWith(r[i].0, "_") {
      assert r[i] == (tasks[i - 1], tasks[i - 1]);
      assert tasks[i - 1] in PublicNames(names);
    }
    forall n | n in names && !Text.StartsWith(n, "_") ensures exists i :: 1 <= i < |r| && r[i] == (n, n) {
      assert n in PublicNames(names);
      var k :| 0 <= k < |tasks| && tasks[k] == n;
      assert r[k + 1] == (n, n);
    }
  }

  /** The choices after the first come in ascending order, with no name twice. */
  lemma ChoicesSorted(names: set<string>)
    ensures var r := TasksAsChoices(names);
      forall i, j :: 1 <= i < j < |r| ==> Text.LessEq(r[i].0, r[j].0) && r[i].0 != r[j].0
  {
    var r := TasksAsChoices(names);
    var tasks := Text.Sorted(PublicNames(names));
    assert forall i :: 1 <= i < |r| ==> r[i].0 == tasks[i - 1];
  }

  class TaskSelectWidget {
    /** `_choices`: None until the choices are first read. */
    var cached: Option<seq<(string, string)>>

    constructor ()
      ensures cached == None
    {
      cached := None;
    }

    /** The `choices` property: worked out from the registry on the first
        read, then the same value on every later read. */
    method Choices(registry: Decorators.Registry) returns (c: seq<(string, string)>)
      modifies this
      ensures old(cached).Some? ==> c == old(cached).value && cached == old(cached)
      ensures old(cached).None? ==> c == TasksAsChoices(registry.all.Keys) && cached == Some(c)
    {
      if cached.None? {
        cached := Some(TasksAsChoices(registry.all.Keys));
      }
      return cached.value;
    }

    /** The `choices` setter: assigning has no effect. */
    method SetChoices(value: seq<(string, string)>)
      ensures cached == old(cached)
    {
    }
  }
}
