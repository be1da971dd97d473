/**
 * A key-value store on flash, as far as its users rely on it: writes reach the flash in
 * order, a commit makes everything before it durable, any write may be reported as failed
 * whether or not it took effect, and power can be lost between any two of them.
 */
module Flash {
  import opened Bytes

  /** The contents of the store after power was lost are one of its images since the last commit. */
  class Store<K(==), V(==)> {
    var view: map<K, V>

    /** Every image that the flash has had, and how many of them a crash can no longer bring back. */
    var history: seq<map<K, V>>
    var floor: nat

    /** A write or a commit has been reported as failed. */
    ghost var failed: bool

    ghost predicate Valid()
      reads this
    {
      floor < |history| && history[|history| - 1] == view
    }

    constructor (contents: map<K, V>)
      ensures Valid() && view == contents && history == [contents] && floor == 0 && !failed
    {
      view, history, floor, failed := contents, [contents], 0, false;
    }

    method Get(key: K) returns (value: Option<V>)
      ensures value == if key in view then Some(view[key]) else None
    {
      if key in view { return Some(view[key]); }
      return None;
    }

    method Set(key: K, value: V) returns (ok: bool)
      requires Valid()
      modifies this
      ensures Valid() && floor == old(floor)
      ensures var next := old(view)[key := value];
              || (view == next && history == old(history) + [next])
              || (!ok && view == old(view) && history == old(history))
      ensures failed == (old(failed) || !ok)
    {
      var effect;
      ok, effect := *, *;
      if ok || effect {
        view := view[key := value];
        history := history + [view];
      }
      if !ok { failed := true; }
    }

    /** Removing a key that is not there is not a failure. */
    method Erase(key: K) returns (ok: bool)
      requires Valid()
      modifies this
      ensures Valid() && floor == old(floor)
      ensures var next := old(view) - {key};
              || (view == next && history == old(history) + [next])
              || (!ok && view == old(view) && history == old(history))
      ensures failed == (old(failed) || !ok)
    {
      var effect;
      ok, effect := *, *;
      if ok || effect {
        view := view - {key};
        history := history + [view];
      }
      if !ok { failed := true; }
    }

    method Commit() returns (ok: bool)
      requires Valid()
      modifies this`floor, this`failed
      ensures Valid() && history == old(history) && old(floor) <= floor
      ensures ok ==> floor == |history| - 1
      ensures failed == (old(failed) || !ok)
    {
      var effect;
      ok, effect := *, *;
      if ok || effect { floor := |history| - 1; }
      if !ok { failed := true; }
    }

    /** Power is lost: one of the images that are still possible is what is left. */
    method Crash(since: nat)
      requires Valid() && since <= floor
      modifies this
      ensures Valid() && view in old(history[since..]) && history == [view] && floor == 0 && !failed
    {
      var n :| since <= n < |history|;
      view := history[n];
      assert history[since..][n - since] == view;
      history, floor, failed := [view], 0, false;
    }
  }
}
