/** The single-zone controller: the target probability of each message
    drives the throttle through two thresholds with a dead band between
    them, where the throttle keeps the value the previous message left. */
module ThrottleController {
  import opened Wire
  import opened Racecar

  /** Declared by the controller; the decision below uses the literal 0.7. */
  const THRESHOLD: real := 0.70
  const SPEED_NORMAL: real := 0.13

  /** The stop threshold (exclusive) and the cruise threshold (exclusive). */
  const STOP_ABOVE: real := 0.7
  const CRUISE_BELOW: real := 0.4

  /** A probability the loop reacts to; the others lie in the dead band
      [0.4, 0.7], both ends included. */
  predicate Decisive(prob: real) {
    prob > STOP_ABOVE || prob < CRUISE_BELOW
  }

  /** The throttle after one sample, given the throttle before it. */
  function NextThrottle(prev: real, prob: real): (t: real)
    ensures Decisive(prob) ==> t in {0.0, SPEED_NORMAL}
    ensures !Decisive(prob) ==> t == prev
    ensures Decisive(prob) ==> (t == 0.0 <==> prob > STOP_ABOVE)
  {
    if prob > 0.7 then 0.0
    else if prob < 0.4 then SPEED_NORMAL
    else prev
  }

  /** The throttle after a run of samples, starting from `init`. */
  function ThrottleAfter(init: real, probs: seq<real>): real {
    if probs == [] then init
    else NextThrottle(ThrottleAfter(init, probs[..|probs| - 1]), probs[|probs| - 1])
  }

  /** Samples in the dead band never move the throttle. */
  lemma {:induction false} DeadBandHolds(init: real, probs: seq<real>)
    requires forall i :: 0 <= i < |probs| ==> !Decisive(probs[i])
    ensures ThrottleAfter(init, probs) == init
  {
    if probs != [] {
      DeadBandHolds(init, probs[..|probs| - 1]);
    }
  }

  /** The throttle is set by the last decisive sample: 0.0 when it was above
      0.7, SPEED_NORMAL when it was below 0.4; everything after it is held. */
  lemma {:induction false} LastDecisiveSampleWins(init: real, probs: seq<real>, k: nat)
    requires k < |probs| && Decisive(probs[k])
    requires forall i :: k < i < |probs| ==> !Decisive(probs[i])
    ensures ThrottleAfter(init, probs) == (if probs[k] > STOP_ABOVE then 0.0 else SPEED_NORMAL)
  {
    if k < |probs| - 1 {
      LastDecisiveSampleWins(init, probs[..|probs| - 1], k);
    }
  }

  /** Once any decisive sample has been seen, the throttle is one of the two
      commanded values for good. */
  lemma {:induction false} SettlesAfterDecisiveSample(init: real, probs: seq<real>, j: nat)
    requires j < |probs| && Decisive(probs[j])
    ensures ThrottleAfter(init, probs) in {0.0, SPEED_NORMAL}
  {
    var last := |probs| - 1;
    if !Decisive(probs[last]) {
      SettlesAfterDecisiveSample(init, probs[..last], j);
    }
  }

  /** The target probability of a message, or None when `data['prob_target']`
      is missing or not a number (the comparison would raise). */
  function ReadTarget(m: Message): (r: Option<real>)
    ensures r.Some? <==> PROB_TARGET in m && m[PROB_TARGET].Num?
    ensures r.Some? ==> r.value == m[PROB_TARGET].x
  {
    if PROB_TARGET in m && m[PROB_TARGET].Num? then Some(m[PROB_TARGET].x) else None
  }

  /** The number of leading messages of `inbox` the loop can handle before one
      of them raises. */
  function Handled(inbox: seq<Message>): (n: nat)
    ensures n <= |inbox|
    ensures forall i :: 0 <= i < n ==> ReadTarget(inbox[i]).Some?
    ensures n < |inbox| ==> ReadTarget(inbox[n]).None?
  {
    if inbox == [] || ReadTarget(inbox[0]).None? then 0 else 1 + Handled(inbox[1..])
  }

  /** The target probabilities of the first `n` messages. */
  function Targets(inbox: seq<Message>, n: nat): (probs: seq<real>)
    requires n <= |inbox|
    requires forall i :: 0 <= i < n ==> ReadTarget(inbox[i]).Some?
    ensures |probs| == n
    ensures forall i :: 0 <= i < n ==> probs[i] == ReadTarget(inbox[i]).value
  {
    seq(n, i requires 0 <= i < n => ReadTarget(inbox[i]).value)
  }

  /** One iteration of the control loop. Only the throttle is ever written. */
  method Step(car: Car, m: Message) returns (ok: bool)
    modifies car
    ensures ok <==> ReadTarget(m).Some?
    ensures ok ==> car.throttle == NextThrottle(old(car.throttle), ReadTarget(m).value)
    ensures !ok ==> car.throttle == old(car.throttle)
    ensures car.steering == old(car.steering)
  {
    var prob := ReadTarget(m);
    if prob.None? {
      return false;
    }
    if prob.value > 0.7 {
      car.throttle := 0.0;
    } else if prob.value < 0.4 {
      car.throttle := SPEED_NORMAL;
    }
    return true;
  }

  /** The control loop over the messages received before it is interrupted;
      it stops at the first malformed message. */
  method Run(car: Car, inbox: seq<Message>) returns (handled: nat)
    modifies car
    ensures handled == Handled(inbox)
    ensures car.throttle == ThrottleAfter(old(car.throttle), Targets(inbox, handled))
    ensures car.steering == old(car.steering)
  {
    handled := 0;
    while handled < |inbox|
      invariant handled <= Handled(inbox)
      invariant car.throttle == ThrottleAfter(old(car.throttle), Targets(inbox, handled))
      invariant car.steering == old(car.steering)
    {
      var ok := Step(car, inbox[handled]);
      if !ok {
        break;
      }
      assert Targets(inbox, handled + 1)[..handled] == Targets(inbox, handled);
      handled := handled + 1;
    }
  }

  /** The SIGINT handler: the throttle is cut; the steering is left as it was. */
  method SignalHandler(car: Car)
    modifies car
    ensures car.throttle == 0.0
    ensures car.steering == old(car.steering)
  {
    car.throttle := 0.0;
  }
}
