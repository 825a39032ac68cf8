/** The three-zone controller: each zone probability is thresholded into a
    boolean, and an ordered decision chain maps the three booleans to a
    steering/throttle command that is written to the car. */
module ZoneController {
  import opened Wire
  import opened Racecar

  const THRESHOLD_TARGET: real := 0.60
  /** Declared by the controller but used by no decision. */
  const THRESHOLD_LOST: real := 0.30

  const SPEED_FORWARD: real := 0.14
  const SPEED_TURN: real := 0.14

  const STEER_STRAIGHT: real := 0.0
  const STEER_SOFT: real := 0.3
  const STEER_HARD: real := 0.6

  /** The three probabilities read from a message's "probs" object. */
  datatype ZoneProbs = ZoneProbs(left: real, center: real, right: real)

  /** Whether the target is seen in each zone. */
  datatype ZoneState = ZoneState(left: bool, center: bool, right: bool)

  datatype Command = Command(steering: real, throttle: real)

  const STOP := Command(STEER_STRAIGHT, 0.0)

  predicate IsActive(p: real) {
    p > THRESHOLD_TARGET
  }

  function ZonesOf(p: ZoneProbs): ZoneState {
    ZoneState(IsActive(p.left), IsActive(p.center), IsActive(p.right))
  }

  /** The probabilities of a message, or None when `data['probs']['left']`,
      `['center']` or `['right']` would raise (a missing key or a value that
      is not an object). */
  function ReadZones(m: Message): (r: Option<ZoneProbs>)
    ensures r.Some? <==> PROBS in m && m[PROBS].Dict?
                         && LEFT in m[PROBS].entries && CENTER in m[PROBS].entries
                         && RIGHT in m[PROBS].entries
    ensures r.Some? ==> r.value.left == m[PROBS].entries[LEFT]
                        && r.value.center == m[PROBS].entries[CENTER]
                        && r.value.right == m[PROBS].entries[RIGHT]
  {
    if PROBS in m then
      match m[PROBS]
      case Dict(e) =>
        if LEFT in e && CENTER in e && RIGHT in e
        then Some(ZoneProbs(e[LEFT], e[CENTER], e[RIGHT]))
        else None
      case _ => None
    else None
  }

  /** The decision chain; the first rule that matches wins. */
  function Decide(z: ZoneState): (c: Command)
    // the car moves exactly when the target is seen in some zone, and it
    // goes straight on only at the forward speed
    ensures c.throttle == 0.0 <==> !(z.left || z.center || z.right)
    ensures c.throttle != 0.0 && c.steering == STEER_STRAIGHT ==> c.throttle == SPEED_FORWARD
    // it turns left exactly when the left zone is active, unless center and right are too
    ensures c.steering < 0.0 <==> z.left && !(z.center && z.right)
    // it turns right exactly when the right zone is active and the left one is not
    ensures c.steering > 0.0 <==> z.right && !z.left
    // a hard turn exactly when the center is lost but a side still sees the target
    ensures (c.steering == STEER_HARD || c.steering == -STEER_HARD) <==> !z.center && (z.left || z.right)
    ensures c.steering in {-STEER_HARD, -STEER_SOFT, STEER_STRAIGHT, STEER_SOFT, STEER_HARD}
    ensures c.throttle in {0.0, SPEED_FORWARD, SPEED_TURN}
  {
    if (z.left && z.center && z.right) || (z.center && !z.left && !z.right) then
      Command(STEER_STRAIGHT, SPEED_FORWARD)
    else if z.center && z.left then
      Command(-STEER_SOFT, SPEED_TURN)
    else if z.center && z.right then
      Command(STEER_SOFT, SPEED_TURN)
    else if z.left then
      Command(-STEER_HARD, SPEED_TURN)
    else if z.right then
      Command(STEER_HARD, SPEED_TURN)
    else
      STOP
  }

  /** The decision table written out row by row, one entry per combination
      of (left, center, right). */
  function Table(left: bool, center: bool, right: bool): Command {
    match (left, center, right)
    case (false, false, false) => Command(0.0, 0.0)
    case (false, true,  false) => Command(0.0, 0.14)
    case (true,  true,  true)  => Command(0.0, 0.14)
    case (true,  true,  false) => Command(-0.3, 0.14)
    case (false, true,  true)  => Command(0.3, 0.14)
    case (true,  false, false) => Command(-0.6, 0.14)
    case (true,  false, true)  => Command(-0.6, 0.14)
    case (false, false, true)  => Command(0.6, 0.14)
  }

  /** The decision chain agrees with the table on all eight zone states; in
      particular left and right without center is a hard left. */
  lemma DecideFollowsTable(z: ZoneState)
    ensures Decide(z) == Table(z.left, z.center, z.right)
    ensures z == ZoneState(true, false, true) ==> Decide(z) == Command(-STEER_HARD, SPEED_TURN)
  {
  }

  /** A probability exactly at the threshold does not activate its zone, so
      three probabilities of exactly 0.60 stop the car. */
  lemma ThresholdIsStrict(p: ZoneProbs)
    requires p.left <= THRESHOLD_TARGET && p.center <= THRESHOLD_TARGET && p.right <= THRESHOLD_TARGET
    ensures ZonesOf(p) == ZoneState(false, false, false)
    ensures Decide(ZonesOf(p)) == STOP
  {
  }

  /** One iteration of the control loop: read the three probabilities, decide,
      and write both fields of the car. A malformed message raises before any
      field is written. */
  method Step(car: Car, m: Message) returns (ok: bool)
    modifies car
    ensures ok <==> ReadZones(m).Some?
    ensures ok ==> car.steering == Decide(ZonesOf(ReadZones(m).value)).steering
                   && car.throttle == Decide(ZonesOf(ReadZones(m).value)).throttle
    ensures !ok ==> car.steering == old(car.steering) && car.throttle == old(car.throttle)
  {
    var probs := ReadZones(m);
    if probs.None? {
      return false;
    }
    var z := ZonesOf(probs.value);
    var c := Decide(z);
    car.steering := c.steering;
    car.throttle := c.throttle;
    return true;
  }

  /** The number of leading messages of `inbox` the loop can handle before one
      of them raises. */
  function Handled(inbox: seq<Message>): (n: nat)
    ensures n <= |inbox|
    ensures forall i :: 0 <= i < n ==> ReadZones(inbox[i]).Some?
    ensures n < |inbox| ==> ReadZones(inbox[n]).None?
  {
    if inbox == [] || ReadZones(inbox[0]).None? then 0 else 1 + Handled(inbox[1..])
  }

  /** The control loop over the messages received before it is interrupted.
      It stops at the first malformed message, whose exception ends the
      program with the car still holding the last command. */
  method Run(car: Car, inbox: seq<Message>) returns (handled: nat)
    modifies car
    ensures handled == Handled(inbox)
    ensures handled == 0 ==> car.steering == old(car.steering) && car.throttle == old(car.throttle)
    ensures handled > 0 ==> Command(car.steering, car.throttle) == Decide(ZonesOf(ReadZones(inbox[handled - 1]).value))
  {
    handled := 0;
    while handled < |inbox|
      invariant handled <= Handled(inbox)
      invariant forall i :: 0 <= i < handled ==> ReadZones(inbox[i]).Some?
      invariant handled == 0 ==> car.steering == old(car.steering) && car.throttle == old(car.throttle)
      invariant handled > 0 ==> Command(car.steering, car.throttle) == Decide(ZonesOf(ReadZones(inbox[handled - 1]).value))
    {
      var ok := Step(car, inbox[handled]);
      if !ok {
        break;
      }
      handled := handled + 1;
    }
  }

  /** The SIGINT handler: the car is stopped, whatever it was doing. */
  method SignalHandler(car: Car)
    modifies car
    ensures Command(car.steering, car.throttle) == STOP
  {
    car.throttle := 0.0;
    car.steering := STEER_STRAIGHT;
  }
}
