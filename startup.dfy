/**
  Start-up of the simulation (the `__main__` block of das1.py): the list of
  chargers, with ids taken from `range(n)`.  The prompt that reads `n` and the
  threads started afterwards are not modelled.
 */
module Startup {
  import opened Wrappers
  import opened Charger
  import opened ChargerGui

  /** The ids `range(n)` yields: 0, 1, ..., n - 1, and none at all when n <= 0. */
  function Range(n: int): (ids: seq<int>)
    ensures |ids| == if n < 0 then 0 else n
    ensures forall i :: 0 <= i < |ids| ==> ids[i] == i
  {
    seq(if n < 0 then 0 else n, i => i)
  }

  /**
    With the ids of `range(n)` the first match for `id` is the charger at
    position `id`, and there is one exactly when 0 <= id < n.
   */
  lemma FirstIndexOfRange(n: int, id: int)
    ensures FirstIndex(Range(n), id) == if 0 <= id < n then Some(id) else None
  {
    var ids := Range(n);
    if 0 <= id < n {
      assert ids[id] == id;
    }
  }

  /**
    Builds one fresh, idle charger per id of `range(n)`; a count of zero or
    less gives an empty list.
   */
  method CreateChargers(n: int) returns (chargers: seq<EVCharger>)
    ensures Ids(chargers) == Range(n)
    ensures forall c :: c in chargers ==> fresh(c)
    ensures forall c :: c in chargers ==>
      c.current == 0 && c.setpointCurrent == DefaultSetpoint && c.status == Available
    ensures forall i, j :: 0 <= i < j < |chargers| ==> chargers[i] != chargers[j]
  {
    chargers := [];
    var i := 0;
    while i < n
      invariant 0 <= i && (n < 0 ==> i == 0) && (0 <= n ==> i <= n)
      invariant |chargers| == i
      invariant forall k :: 0 <= k < i ==> chargers[k].id == k
      invariant forall c :: c in chargers ==> fresh(c)
      invariant forall c :: c in chargers ==>
        c.current == 0 && c.setpointCurrent == DefaultSetpoint && c.status == Available
      invariant forall k, l :: 0 <= k < l < i ==> chargers[k] != chargers[l]
    {
      var charger := new EVCharger(i);
      chargers := chargers + [charger];
      i := i + 1;
    }
  }
}
