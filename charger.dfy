/**
  One simulated EV charger (class EVCharger of das1.py): its identity, the
  current it delivers, the operator's setpoint and the status derived from
  the current.  Python integers are unbounded, as Dafny's `int` is.
 */
module Charger {

  /** Nominal supply voltage, in volts. */
  const Voltage: int := 230

  /** Setpoint current a charger starts with. */
  const DefaultSetpoint: int := 8

  /** Current a simulated charger switches to when it finds itself idle. */
  const SimulatedCurrent: int := 8

  /** Status codes shown for a charger. */
  const ChargingCode: int := 3
  const AvailableCode: int := 4

  /** The two status strings the charger ever takes: "Available" and "Charging". */
  datatype Status = Available | Charging

  class EVCharger {
    var id: int
    var current: int
    var setpointCurrent: int
    var status: Status

    /** The status rule: a charger is Charging exactly when it delivers a positive current. */
    predicate Consistent()
      reads this
    {
      status == Charging <==> current > 0
    }

    /** A new charger is idle, Available, with the default setpoint. */
    constructor (id: int)
      ensures this.id == id
      ensures current == 0 && setpointCurrent == DefaultSetpoint && status == Available
      ensures Consistent()
    {
      this.id := id;
      current := 0;
      status := Available;
      setpointCurrent := DefaultSetpoint;
    }

    /**
      Recomputes the status from the sign of the current.  Only the status
      may change, and on a charger that already follows the rule nothing
      changes, so a second call has no further effect.
     */
    method UpdateStatus()
      modifies this
      ensures Consistent()
      ensures id == old(id) && current == old(current) && setpointCurrent == old(setpointCurrent)
      ensures old(Consistent()) ==> status == old(status)
    {
      if current > 0 {
        status := Charging;
      } else {
        status := Available;
      }
    }

    /**
      One pass of the simulation loop, without its delays: an idle charger
      starts delivering the simulated current, then the status is refreshed.
     */
    method SimulateStep()
      modifies this
      ensures current == (if old(current) == 0 then SimulatedCurrent else old(current))
      ensures current != 0 && Consistent()
      ensures id == old(id) && setpointCurrent == old(setpointCurrent)
    {
      if current == 0 {
        current := SimulatedCurrent;
      }
      UpdateStatus();
    }

    /**
      Active power in watts.  It is a whole multiple of the voltage from
      which the current is recovered exactly, it has the sign of the current,
      and on a consistent charger it is positive exactly when charging.
     */
    function ActivePower(): (power: int)
      reads this
      ensures power % Voltage == 0 && power / Voltage == current
      ensures power == 0 <==> current == 0
      ensures power > 0 <==> current > 0
      ensures Consistent() ==> (power > 0 <==> status == Charging)
    {
      current * Voltage
    }

    /**
      Status code for display: 3 for a charging charger, 4 for any other;
      on a consistent charger, 3 exactly when the current is positive.
     */
    function StatusCode(): (code: int)
      reads this
      ensures code == ChargingCode || code == AvailableCode
      ensures code == ChargingCode <==> status.Charging?
      ensures code == AvailableCode <==> status.Available?
      ensures Consistent() ==> (code == ChargingCode <==> current > 0)
    {
      if status.Charging? then ChargingCode else AvailableCode
    }
  }
}
