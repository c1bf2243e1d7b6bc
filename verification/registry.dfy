/** The module registry (`sys.modules`) and its reset after a failed attempt (`reset_sys_modules`). */
module Registry {

  type ModuleName = string

  /** The identity of a module object, as Python's `is` compares it. */
  type ObjectId = nat

  type Modules = map<ModuleName, ObjectId>

  /** The registry after a reset, and the names whose module object was replaced since the
      snapshot. A non-empty `altered` means the reset raised NotImplementedError, after the
      freshly loaded modules had already been removed. */
  datatype Reset = Reset(modules: Modules, altered: set<ModuleName>)

  /** `a` is `b` with some entries left out and none changed. */
  ghost predicate IsSubMap(a: Modules, b: Modules)
  {
    a.Keys <= b.Keys && forall m :: m in a ==> a[m] == b[m]
  }

  /** Reset of `current` to `snapshot`: drop every module loaded since the snapshot and flag
      every module whose object identity changed. */
  function ResetModules(current: Modules, snapshot: Modules): (r: Reset)
    ensures r.modules.Keys == current.Keys * snapshot.Keys
    ensures IsSubMap(r.modules, current)
    ensures forall m :: m in r.altered <==> m in current && m in snapshot && current[m] != snapshot[m]
    ensures r.altered == {} ==> IsSubMap(r.modules, snapshot)
  {
    var added := current.Keys - snapshot.Keys;
    Reset(current - added, set m | m in current && m in snapshot && current[m] != snapshot[m])
  }

  /** `reset_sys_modules` step by step: one pass over the registry sorting names into added and
      altered, then one deletion per added name. */
  method ResetSysModules(current: Modules, snapshot: Modules) returns (modules: Modules, altered: set<ModuleName>)
    ensures Reset(modules, altered) == ResetModules(current, snapshot)
  {
    var added: set<ModuleName> := {};
    altered := {};
    var pending := current.Keys;
    while pending != {}
      invariant pending <= current.Keys
      invariant forall m :: m in added <==> m in current && m !in pending && m !in snapshot
      invariant forall m :: m in altered <==>
        m in current && m !in pending && m in snapshot && current[m] != snapshot[m]
      decreases pending
    {
      var m :| m in pending;
      if m !in snapshot {
        added := added + {m};
      } else if current[m] != snapshot[m] {
        altered := altered + {m};
      }
      pending := pending - {m};
    }
    modules := current;
    var doomed := added;
    while doomed != {}
      invariant doomed <= added
      invariant modules == current - (added - doomed)
      decreases doomed
    {
      var m :| m in doomed;
      modules := modules - {m};
      doomed := doomed - {m};
    }
    assert added == current.Keys - snapshot.Keys;
  }

  /** Loading new modules and resetting gives back exactly the snapshot. */
  lemma ResetUndoesLoads(snapshot: Modules, loaded: Modules)
    requires snapshot.Keys !! loaded.Keys
    ensures ResetModules(snapshot + loaded, snapshot) == Reset(snapshot, {})
  {
  }

  /** When no module object was replaced, the reset succeeds with the snapshot minus the modules
      the attempt unloaded: modules that disappeared are not brought back. */
  lemma ResetWithoutReplacement(current: Modules, snapshot: Modules)
    requires forall m :: m in current && m in snapshot ==> current[m] == snapshot[m]
    ensures ResetModules(current, snapshot).altered == {}
    ensures ResetModules(current, snapshot).modules
         == map m | m in snapshot && m in current :: snapshot[m]
  {
  }

  /** Resetting a reset registry against the same snapshot changes nothing and reports the same
      altered names. */
  lemma ResetIdempotent(current: Modules, snapshot: Modules)
    ensures var r := ResetModules(current, snapshot);
      ResetModules(r.modules, snapshot) == r
  {
  }
}
