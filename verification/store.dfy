/** A read from the robot's key-value telemetry store (NetworkTables). An
    entry that was never written reads as the caller's default, so a lookup
    is either a stored value or missing. */
module Store {

  datatype Entry<+T> = Missing | Present(value: T) {

    /** The value read back, with `default` standing in for a missing entry */
    function GetOr(default: T): T
    {
      match this
      case Present(v) => v
      case Missing => default
    }
  }
}
