/** The actuator: the two command fields of the racecar driver object. Writing
    a field is what sends the command to the hardware. */
module Racecar {

  class Car {
    var steering: real
    var throttle: real

    /** The driver's initial command is not visible to this model, so it is a
        parameter. */
    constructor (steering: real, throttle: real)
      ensures this.steering == steering && this.throttle == throttle
    {
      this.steering := steering;
      this.throttle := throttle;
    }
  }
}
