/**
  One cache entry with a version fence, between a database that commits new versions and readers that
  fill the entry with what they read some time ago.
 */
module CacheModel {
  import opened Results

  /** Values are compared, nothing else: an integer stands for a string. */
  type Name = int

  datatype Versioned = Versioned(value: Name, version: int)

  datatype Entry = Entry(value: Option<Name>, version: Option<int>, fence: int)

  function Max(a: int, b: int): int { if a > b then a else b }

  function Invalidated(e: Entry, version: int): Entry {
    Entry(None, None, Max(e.fence, version))
  }

  /** Below the fence. */
  predicate BelowFence(e: Entry, item: Versioned) {
    item.version < e.fence
  }

  /** Below what is cached. */
  predicate BelowCached(e: Entry, item: Versioned) {
    e.version.Some? && item.version < e.version.value
  }

  function Filled(e: Entry, item: Versioned): Entry {
    if BelowFence(e, item) || BelowCached(e, item) then e
    else Entry(Some(item.value), Some(item.version), Max(e.fence, item.version))
  }

  /** CacheState, with its two safe operations. */
  class CacheState {
    var value: Option<Name>
    var valueVersion: Option<int>
    var versionFence: int

    ghost function State(): Entry
      reads this
    {
      Entry(value, valueVersion, versionFence)
    }

    constructor ()
      ensures State() == Entry(None, None, 0)
    {
      value, valueVersion, versionFence := None, None, 0;
    }

    method SafeInvalidate(newVersion: int)
      modifies this
      ensures State() == Invalidated(old(State()), newVersion)
    {
      value := None;
      valueVersion := None;
      versionFence := Max(versionFence, newVersion);
    }

    method SafeFill(item: Versioned) returns (accepted: bool)
      modifies this
      ensures accepted == !(BelowFence(old(State()), item) || BelowCached(old(State()), item))
      ensures State() == Filled(old(State()), item)
    {
      if item.version < versionFence {
        return false;
      }
      if valueVersion.Some? && item.version < valueVersion.value {
        return false;
      }
      value := Some(item.value);
      valueVersion := Some(item.version);
      versionFence := Max(versionFence, item.version);
      return true;
    }
  }
}
