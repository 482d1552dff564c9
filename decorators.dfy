/** The task registry (cmsplugin_rss_import/decorators.py): `register_task()`
    makes a fresh dict of tasks and a `register` decorator that files a
    function under its name and hands it back; `register.all` is that dict. */
module Decorators {
  /** A function as the registry sees it: its `__name__` and an
      identity for its code. */
  datatype TaskFunction = TaskFunction(name: string, code: nat)

  class Registry {
    /** `register.all`, the closed-over `tasks` dict. */
    var all: map<string, TaskFunction>

    /** `register_task()`: a registry of its own, empty. */
    constructor ()
      ensures all == map[]
      ensures fresh(this)
    {
      all := map[];
    }

    /** `register(function)`: the function goes under its name, replacing
        any function of that name; it is returned unchanged. */
    method Register(f: TaskFunction) returns (g: TaskFunction)
      modifies this
      ensures g == f
      ensures f.name in all && all[f.name] == f
      ensures all.Keys == old(all).Keys + {f.name}
      ensures forall n :: n in old(all) && n != f.name ==> all[n] == old(all)[n]
    {
      all := all[f.name := f];
      return f;
    }
  }

  /** What a run of registrations leaves: the last function of each name. */
  function Registered(fs: seq<TaskFunction>): (m: map<string, TaskFunction>)
    ensures m.Keys == set k | 0 <= k < |fs| :: fs[k].name
  {
    if fs == [] then map[]
    else
      var before := Registered(fs[..|fs| - 1]);
      assert forall k :: 0 <= k < |fs| - 1 ==> fs[..|fs| - 1][k] == fs[k];
      before[fs[|fs| - 1].name := fs[|fs| - 1]]
  }

  /** The registry holds, under each name, the last function registered
      with it. */
  lemma {:induction false} RegisteredLastWins(fs: seq<TaskFunction>, k: nat)
    requires k < |fs|
    requires forall j :: k < j < |fs| ==> fs[j].name != fs[k].name
    ensures Registered(fs)[fs[k].name] == fs[k]
  {
    var n := |fs| - 1;
    if k < n {
      RegisteredLastWins(fs[..n], k);
    }
  }

  /** Registering the functions one after the other leaves `Registered`. */
  method RegisterAll(r: Registry, fs: seq<TaskFunction>)
    requires r.all == map[]
    modifies r
    ensures r.all == Registered(fs)
  {
    var i := 0;
    while i < |fs|
      invariant 0 <= i <= |fs|
      invariant r.all == Registered(fs[..i])
    {
      var g := r.Register(fs[i]);
      assert fs[..i + 1][..i] == fs[..i];
      i := i + 1;
    }
    assert fs[..i] == fs;
  }
}
