/** The Air3D relative dynamics of two planes flying at the same forward speed
    (dynamics/Air3D.py). The relative state is (x, y, theta): the position of
    one plane in the frame of the other and the relative heading. The control
    is the turn rate of the first plane, the disturbance the turn rate of the
    second. The object is built once and never changed, so it is a value here;
    its three operations are conditional expressions over their inputs. */
module Dynamics {

  /** The role of a player: "min" or "max". */
  datatype Mode = Min | Max {
    /** The other role. */
    function Opposite(): (m: Mode)
      ensures m != this
    {
      if this == Min then Max else Min
    }
  }

  /** Which assertion of the constructor fails. */
  datatype ConfigError =
    | UModeNotMinOrMax   // uMode is neither "min" nor "max"
    | DModeNotOpposite   // dMode is not the opposite of uMode

  datatype Result<T> = Ok(value: T) | Err(error: ConfigError)

  /** The fields the constructor stores. The bounds are the lists the caller
      passed; only their first element is ever read. */
  datatype Air3D = Air3D(
    planeSpeeds: real,
    uMin: seq<real>, uMax: seq<real>,
    dMin: seq<real>, dMax: seq<real>,
    uMode: Mode, dMode: Mode)

  /** The invariant the constructor establishes: one player minimises, the
      other maximises. */
  predicate RolesOpposite(c: Air3D) {
    c.dMode == c.uMode.Opposite()
  }

  function ModeOf(s: string): Mode {
    if s == "min" then Min else Max
  }

  /** Air3D(plane_speeds, x, uMin, uMax, dMin, dMax, uMode, dMode): stores the
      speed and bounds, then asserts that uMode is "min" or "max" and that
      dMode is the other one. A failed assertion is an error result. */
  function NewAir3D(planeSpeeds: real, uMin: seq<real>, uMax: seq<real>,
                    dMin: seq<real>, dMax: seq<real>,
                    uMode: string, dMode: string): (r: Result<Air3D>)
    ensures r.Ok? <==> (uMode == "min" && dMode == "max") || (uMode == "max" && dMode == "min")
    ensures r.Err? ==> (r.error == UModeNotMinOrMax <==> uMode != "min" && uMode != "max")
    ensures r.Ok? ==> RolesOpposite(r.value)
    ensures r.Ok? ==> r.value.uMode == ModeOf(uMode) && r.value.dMode == ModeOf(dMode)
    ensures r.Ok? ==> r.value.planeSpeeds == planeSpeeds
                      && r.value.uMin == uMin && r.value.uMax == uMax
                      && r.value.dMin == dMin && r.value.dMax == dMax
  {
    if uMode != "min" && uMode != "max" then Err(UModeNotMinOrMax)
    else if uMode == "min" && dMode != "max" then Err(DModeNotOpposite)
    else if uMode == "max" && dMode != "min" then Err(DModeNotOpposite)
    else
      var u := ModeOf(uMode);
      Ok(Air3D(planeSpeeds, uMin, uMax, dMin, dMax, u, u.Opposite()))
  }

  /** Air3D(plane_speeds=v) with every other argument left at its default. */
  function NewAir3DWithDefaults(planeSpeeds: real): (r: Result<Air3D>)
    ensures r.Ok?
    ensures r.value.uMode == Min && r.value.dMode == Max
    ensures r.value.planeSpeeds == planeSpeeds
    ensures r.value.uMin == [-1.0] && r.value.uMax == [1.0]
    ensures r.value.dMin == [-1.0] && r.value.dMax == [1.0]
  {
    NewAir3D(planeSpeeds, [-1.0], [1.0], [-1.0], [1.0], "min", "max")
  }

  /** The relative state (x, y, theta). */
  datatype State = State(x: real, y: real, theta: real)

  /** The spatial derivative of the value function at a state. */
  datatype Costate = Costate(px: real, py: real, ptheta: real)

  /** What opt_ctrl and optDstb return: the chosen input and two unused slots. */
  datatype Inputs = Inputs(opt: real, in3: real, in4: real)

  /** The time derivative (x_dot, y_dot, theta_dot) of the relative state. */
  datatype Deriv = Deriv(xDot: real, yDot: real, thetaDot: real)

  predicate HasControlBounds(c: Air3D) {
    |c.uMin| > 0 && |c.uMax| > 0
  }

  predicate HasDstbBounds(c: Air3D) {
    |c.dMin| > 0 && |c.dMax| > 0
  }

  /** The coefficient of the control in p . f(x, u, d). */
  function Det(s: State, p: Costate): real {
    p.px * s.y - p.py * s.x - p.ptheta
  }

  /** opt_ctrl: picks a control bound from the sign of Det and from uMode. */
  function OptCtrl(c: Air3D, s: State, p: Costate): (r: Inputs)
    requires HasControlBounds(c)
    ensures r.opt == c.uMin[0] || r.opt == c.uMax[0]
    ensures r.in3 == 0.0 && r.in4 == 0.0
  {
    var det := Det(s, p);
    var u :=
      if c.uMode == Min then
        (if det >= 0.0 then c.uMin[0] else c.uMax[0])
      else
        (if det >= 0.0 then c.uMax[0] else c.uMin[0]);
    Inputs(u, 0.0, 0.0)
  }

  /** optDstb as written: picks a disturbance bound from the sign of the
      heading component of the costate, keyed on uMode (not on dMode). */
  function OptDstb(c: Air3D, p: Costate): (r: Inputs)
    requires HasDstbBounds(c)
    ensures r.opt == c.dMin[0] || r.opt == c.dMax[0]
    ensures r.in3 == 0.0 && r.in4 == 0.0
  {
    var d :=
      if c.uMode == Min then
        (if p.ptheta >= 0.0 then c.dMin[0] else c.dMax[0])
      else
        (if p.ptheta >= 0.0 then c.dMax[0] else c.dMin[0]);
    Inputs(d, 0.0, 0.0)
  }

  /** optDstb as its documentation intends: the disturbance plays dMode, so it
      extremises in the direction opposite to the control. */
  function OptDstbByRole(c: Air3D, p: Costate): (r: Inputs)
    requires HasDstbBounds(c)
    ensures r.opt == c.dMin[0] || r.opt == c.dMax[0]
    ensures r.in3 == 0.0 && r.in4 == 0.0
  {
    var d :=
      if c.dMode == Max then
        (if p.ptheta >= 0.0 then c.dMax[0] else c.dMin[0])
      else
        (if p.ptheta >= 0.0 then c.dMin[0] else c.dMax[0]);
    Inputs(d, 0.0, 0.0)
  }

  /** dynamics: the derivative of the relative state under turn rates uOpt and
      dOpt. The trigonometric functions are parameters of the model. */
  function StateDynamics(c: Air3D, s: State, uOpt: real, dOpt: real,
                         cos: real -> real, sin: real -> real): (r: Deriv)
    ensures r.thetaDot == 0.0 <==> uOpt == dOpt
    ensures cos(s.theta) == 1.0 ==> r.xDot == uOpt * s.y
    ensures sin(s.theta) == 0.0 ==> r.yDot == -uOpt * s.x
  {
    Deriv(-c.planeSpeeds + c.planeSpeeds * cos(s.theta) + uOpt * s.y,
          c.planeSpeeds * sin(s.theta) - uOpt * s.x,
          dOpt - uOpt)
  }
}
