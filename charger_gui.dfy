/**
  The operator's manual update of a charger (ChargerGUI.manual_update_charger
  in das1.py).  Only the search and the field updates are modelled; the
  widgets, the parsing of the entry fields and the table refresh are not.
 */
module ChargerGui {
  import opened Wrappers
  import opened Charger

  /** The ids of the chargers, in list order. */
  function Ids(chargers: seq<EVCharger>): (ids: seq<int>)
    reads chargers
    ensures |ids| == |chargers|
    ensures forall i :: 0 <= i < |chargers| ==> ids[i] == chargers[i].id
  {
    if chargers == [] then [] else [chargers[0].id] + Ids(chargers[1..])
  }

  /**
    Position of the first occurrence of `id` in `ids`, or None when `id`
    does not occur: the reference meaning of a first-match search.
   */
  function FirstIndex(ids: seq<int>, id: int): (r: Option<nat>)
    ensures r.None? <==> id !in ids
    ensures r.Some? ==> r.value < |ids| && ids[r.value] == id && id !in ids[..r.value]
  {
    if ids == [] then None
    else if ids[0] == id then Some(0)
    else match FirstIndex(ids[1..], id)
      case None => None
      case Some(k) => assert ids[1..][..k] == ids[1..k + 1]; Some(k + 1)
  }

  /**
    The first charger with the given id, or null when no charger has it
    (Python's `next(..., None)` over the list).
   */
  method FindCharger(chargers: seq<EVCharger>, chargerId: int) returns (charger: EVCharger?)
    ensures charger == null <==> FirstIndex(Ids(chargers), chargerId).None?
    ensures charger != null ==> charger == chargers[FirstIndex(Ids(chargers), chargerId).value]
  {
    ghost var ids := Ids(chargers);
    var i := 0;
    while i < |chargers|
      invariant 0 <= i <= |chargers|
      invariant chargerId !in ids[..i]
    {
      if chargers[i].id == chargerId {
        assert chargerId in ids[..i + 1];
        return chargers[i];
      }
      assert ids[..i + 1] == ids[..i] + [ids[i]];
      i := i + 1;
    }
    assert ids[..i] == ids;
    return null;
  }

  /**
    The operator sets the setpoint and the current of the first charger with
    the given id and recomputes its status.  Neither value is checked: a
    current above the setpoint, or a negative one, is stored as given.  Every
    other charger is left as it was, and with no matching id nothing changes.
   */
  method ManualUpdateCharger(chargers: seq<EVCharger>, chargerId: int, setpointCurrent: int, current: int)
    modifies chargers
    ensures Ids(chargers) == old(Ids(chargers))
    ensures FirstIndex(old(Ids(chargers)), chargerId).None? ==>
      forall c :: c in chargers ==> unchanged(c)
    ensures FirstIndex(old(Ids(chargers)), chargerId).Some? ==>
      var target := chargers[FirstIndex(old(Ids(chargers)), chargerId).value];
      && target.id == chargerId
      && target.setpointCurrent == setpointCurrent
      && target.current == current
      && target.Consistent()
      && forall c :: c in chargers && c != target ==> unchanged(c)
    ensures forall c :: c in chargers && old(c.Consistent()) ==> c.Consistent()
  {
    var charger := FindCharger(chargers, chargerId);
    if charger != null {
      charger.setpointCurrent := setpointCurrent;
      charger.current := current;
      charger.UpdateStatus();
    }
  }
}
