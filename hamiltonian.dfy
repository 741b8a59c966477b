/** What the choices of dynamics/Air3D.py mean for the Hamiltonian
    p . f(x, u, d) that the reachability solver extremises at every grid point:
    the tie-break at zero, the mirror between the two modes, extremality over
    the bound interval, optimality and its uniqueness, and the saddle point. */
module Hamiltonian {
  import opened Dynamics

  /** p . f(x, u, d): the rate of change of the value function along the dynamics. */
  function Ham(c: Air3D, s: State, p: Costate, u: real, d: real,
               cos: real -> real, sin: real -> real): real
  {
    var f := StateDynamics(c, s, u, d, cos, sin);
    p.px * f.xDot + p.py * f.yDot + p.ptheta * f.thetaDot
  }

  /** The part of p . f that no input changes. */
  function Drift(c: Air3D, s: State, p: Costate, cos: real -> real, sin: real -> real): real {
    p.px * (c.planeSpeeds * cos(s.theta) - c.planeSpeeds) + p.py * c.planeSpeeds * sin(s.theta)
  }

  /** The same configuration with the two roles exchanged. */
  function Swapped(c: Air3D): (r: Air3D)
    ensures r.uMode != c.uMode && r.dMode != c.dMode
    ensures RolesOpposite(c) ==> RolesOpposite(r)
  {
    c.(uMode := c.uMode.Opposite(), dMode := c.dMode.Opposite())
  }

  function Negated(p: Costate): (r: Costate)
    ensures r.ptheta == -p.ptheta
  {
    Costate(-p.px, -p.py, -p.ptheta)
  }

  /** The control enters p . f only through u * Det and the disturbance only
      through d * p_theta, which is why each can be chosen from one sign. */
  lemma HamiltonianSeparates(c: Air3D, s: State, p: Costate, u: real, d: real,
                             cos: real -> real, sin: real -> real)
    ensures Ham(c, s, p, u, d, cos, sin) == Drift(c, s, p, cos, sin) + u * Det(s, p) + d * p.ptheta
  {
  }

  lemma CancelFactor(a: real, b: real, k: real)
    requires k != 0.0 && a * k == b * k
    ensures a == b
  {
    assert (a - b) * k == 0.0;
  }

  lemma CompareSums(k: real, x: real, y: real, hx: real, hy: real)
    requires hx == k + x && hy == k + y
    ensures hx <= hy <==> x <= y
    ensures hx == hy <==> x == y
  {
  }

  /** For a fixed disturbance, p . f orders two controls as u * Det does. */
  lemma HamOrdersControls(c: Air3D, s: State, p: Costate, u1: real, u2: real, d: real,
                          cos: real -> real, sin: real -> real)
    ensures Ham(c, s, p, u1, d, cos, sin) <= Ham(c, s, p, u2, d, cos, sin) <==> u1 * Det(s, p) <= u2 * Det(s, p)
    ensures Ham(c, s, p, u1, d, cos, sin) == Ham(c, s, p, u2, d, cos, sin) <==> u1 * Det(s, p) == u2 * Det(s, p)
  {
    HamiltonianSeparates(c, s, p, u1, d, cos, sin);
    HamiltonianSeparates(c, s, p, u2, d, cos, sin);
    CompareSums(Drift(c, s, p, cos, sin) + d * p.ptheta, u1 * Det(s, p), u2 * Det(s, p),
                Ham(c, s, p, u1, d, cos, sin), Ham(c, s, p, u2, d, cos, sin));
  }

  /** For a fixed control, p . f orders two disturbances as d * p_theta does. */
  lemma HamOrdersDstbs(c: Air3D, s: State, p: Costate, u: real, d1: real, d2: real,
                       cos: real -> real, sin: real -> real)
    ensures Ham(c, s, p, u, d1, cos, sin) <= Ham(c, s, p, u, d2, cos, sin) <==> d1 * p.ptheta <= d2 * p.ptheta
    ensures Ham(c, s, p, u, d1, cos, sin) == Ham(c, s, p, u, d2, cos, sin) <==> d1 * p.ptheta == d2 * p.ptheta
  {
    HamiltonianSeparates(c, s, p, u, d1, cos, sin);
    HamiltonianSeparates(c, s, p, u, d2, cos, sin);
    CompareSums(Drift(c, s, p, cos, sin) + u * Det(s, p), d1 * p.ptheta, d2 * p.ptheta,
                Ham(c, s, p, u, d1, cos, sin), Ham(c, s, p, u, d2, cos, sin));
  }

  // ----- opt_ctrl -----

  /** At Det == 0 the control is the one of the ">= 0" branch. */
  lemma OptCtrlTieBreak(c: Air3D, s: State, p: Costate)
    requires HasControlBounds(c) && Det(s, p) == 0.0
    ensures OptCtrl(c, s, p).opt == (if c.uMode == Min then c.uMin[0] else c.uMax[0])
  {
  }

  /** Switching the mode, for the same state and costate, picks the other bound. */
  lemma OptCtrlModeMirror(c: Air3D, s: State, p: Costate)
    requires HasControlBounds(c)
    ensures OptCtrl(Swapped(c), s, p).opt == c.uMin[0] + c.uMax[0] - OptCtrl(c, s, p).opt
  {
  }

  /** Switching the mode and negating the costate gives back the same control,
      except exactly on the tie Det == 0, where both modes take the ">= 0" branch. */
  lemma OptCtrlRoleSymmetry(c: Air3D, s: State, p: Costate)
    requires HasControlBounds(c)
    ensures Det(s, Negated(p)) == -Det(s, p)
    ensures Det(s, p) != 0.0 ==> OptCtrl(Swapped(c), s, Negated(p)).opt == OptCtrl(c, s, p).opt
    ensures Det(s, p) == 0.0 ==> OptCtrl(Swapped(c), s, Negated(p)).opt == c.uMin[0] + c.uMax[0] - OptCtrl(c, s, p).opt
  {
  }

  /** On a well-ordered interval, the control extremises u * Det: it minimises
      in "min" mode and maximises in "max" mode. */
  lemma OptCtrlExtremal(c: Air3D, s: State, p: Costate, u: real)
    requires HasControlBounds(c) && c.uMin[0] <= u <= c.uMax[0]
    ensures c.uMode == Min ==> OptCtrl(c, s, p).opt * Det(s, p) <= u * Det(s, p)
    ensures c.uMode == Max ==> OptCtrl(c, s, p).opt * Det(s, p) >= u * Det(s, p)
  {
  }

  /** u is an optimal control against d: it lies in the control interval and
      no control there gives p . f a smaller value ("min") or a larger one ("max"). */
  ghost predicate OptimalControl(c: Air3D, s: State, p: Costate, u: real, d: real,
                                 cos: real -> real, sin: real -> real)
    requires HasControlBounds(c)
  {
    && c.uMin[0] <= u <= c.uMax[0]
    && forall v :: c.uMin[0] <= v <= c.uMax[0] ==>
         if c.uMode == Min then Ham(c, s, p, u, d, cos, sin) <= Ham(c, s, p, v, d, cos, sin)
         else Ham(c, s, p, u, d, cos, sin) >= Ham(c, s, p, v, d, cos, sin)
  }

  /** On a well-ordered interval the chosen control is optimal against every disturbance. */
  lemma OptCtrlOptimal(c: Air3D, s: State, p: Costate, d: real, cos: real -> real, sin: real -> real)
    requires HasControlBounds(c) && c.uMin[0] <= c.uMax[0]
    ensures OptimalControl(c, s, p, OptCtrl(c, s, p).opt, d, cos, sin)
  {
    var uOpt := OptCtrl(c, s, p).opt;
    forall v | c.uMin[0] <= v <= c.uMax[0]
      ensures c.uMode == Min ==> Ham(c, s, p, uOpt, d, cos, sin) <= Ham(c, s, p, v, d, cos, sin)
      ensures c.uMode == Max ==> Ham(c, s, p, uOpt, d, cos, sin) >= Ham(c, s, p, v, d, cos, sin)
    {
      HamOrdersControls(c, s, p, uOpt, v, d, cos, sin);
      HamOrdersControls(c, s, p, v, uOpt, d, cos, sin);
      OptCtrlExtremal(c, s, p, v);
    }
  }

  /** An optimal control does at least as well as the chosen one on u * Det. */
  lemma OptimalControlPayoff(c: Air3D, s: State, p: Costate, u: real, d: real,
                             cos: real -> real, sin: real -> real)
    requires HasControlBounds(c) && OptimalControl(c, s, p, u, d, cos, sin)
    ensures c.uMode == Min ==> u * Det(s, p) <= OptCtrl(c, s, p).opt * Det(s, p)
    ensures c.uMode == Max ==> u * Det(s, p) >= OptCtrl(c, s, p).opt * Det(s, p)
  {
    var uOpt := OptCtrl(c, s, p).opt;
    assert c.uMin[0] <= uOpt <= c.uMax[0];
    HamOrdersControls(c, s, p, u, uOpt, d, cos, sin);
    HamOrdersControls(c, s, p, uOpt, u, d, cos, sin);
  }

  /** Off the tie Det == 0 the optimal control is unique: it is the chosen one. */
  lemma OptimalControlUnique(c: Air3D, s: State, p: Costate, u: real, d: real,
                             cos: real -> real, sin: real -> real)
    requires HasControlBounds(c) && Det(s, p) != 0.0
    requires OptimalControl(c, s, p, u, d, cos, sin)
    ensures u == OptCtrl(c, s, p).opt
  {
    OptimalControlPayoff(c, s, p, u, d, cos, sin);
    OptCtrlExtremal(c, s, p, u);
    CancelFactor(u, OptCtrl(c, s, p).opt, Det(s, p));
  }

  /** On the tie Det == 0 every admissible control is optimal, so the choice
      there is a convention, not a consequence of optimality. */
  lemma TieEveryControlOptimal(c: Air3D, s: State, p: Costate, u: real, d: real,
                               cos: real -> real, sin: real -> real)
    requires HasControlBounds(c) && Det(s, p) == 0.0 && c.uMin[0] <= u <= c.uMax[0]
    ensures OptimalControl(c, s, p, u, d, cos, sin)
  {
    forall v | c.uMin[0] <= v <= c.uMax[0]
      ensures Ham(c, s, p, u, d, cos, sin) == Ham(c, s, p, v, d, cos, sin)
    {
      HamOrdersControls(c, s, p, u, v, d, cos, sin);
    }
  }

  // ----- optDstb as written -----

  /** optDstb depends on nothing but p_theta, uMode and the disturbance bounds. */
  lemma OptDstbDependsOnlyOnPTheta(c1: Air3D, c2: Air3D, p1: Costate, p2: Costate)
    requires HasDstbBounds(c1) && HasDstbBounds(c2)
    requires c1.uMode == c2.uMode && c1.dMin[0] == c2.dMin[0] && c1.dMax[0] == c2.dMax[0]
    requires p1.ptheta == p2.ptheta
    ensures OptDstb(c1, p1) == OptDstb(c2, p2)
  {
  }

  /** At p_theta == 0 the disturbance is the one of the ">= 0" branch. */
  lemma OptDstbTieBreak(c: Air3D, p: Costate)
    requires HasDstbBounds(c) && p.ptheta == 0.0
    ensures OptDstb(c, p).opt == (if c.uMode == Min then c.dMin[0] else c.dMax[0])
  {
  }

  /** Switching the mode picks the other disturbance bound. */
  lemma OptDstbModeMirror(c: Air3D, p: Costate)
    requires HasDstbBounds(c)
    ensures OptDstb(Swapped(c), p).opt == c.dMin[0] + c.dMax[0] - OptDstb(c, p).opt
  {
  }

  /** As written, the disturbance extremises d * p_theta in the direction of
      uMode, the same direction as the control. */
  lemma OptDstbFollowsControlMode(c: Air3D, p: Costate, d: real)
    requires HasDstbBounds(c) && c.dMin[0] <= d <= c.dMax[0]
    ensures c.uMode == Min ==> OptDstb(c, p).opt * p.ptheta <= d * p.ptheta
    ensures c.uMode == Max ==> OptDstb(c, p).opt * p.ptheta >= d * p.ptheta
  {
  }

  /** With the default configuration (dMode "max") and p_theta = 1, optDstb
      picks dMin = -1, although dMax = 1 gives the Hamiltonian a larger value:
      the disturbance as written does not maximise. */
  lemma OptDstbNotMaximiserExample(cos: real -> real, sin: real -> real)
    ensures NewAir3DWithDefaults(5.0).value.dMode == Max
    ensures var c := NewAir3DWithDefaults(5.0).value;
            var s := State(0.0, 0.0, 0.0);
            var p := Costate(0.0, 0.0, 1.0);
            var u := OptCtrl(c, s, p).opt;
            OptDstb(c, p).opt == -1.0
            && Ham(c, s, p, u, OptDstb(c, p).opt, cos, sin) < Ham(c, s, p, u, c.dMax[0], cos, sin)
  {
    var c := NewAir3DWithDefaults(5.0).value;
    var s := State(0.0, 0.0, 0.0);
    var p := Costate(0.0, 0.0, 1.0);
    var u := OptCtrl(c, s, p).opt;
    HamiltonianSeparates(c, s, p, u, -1.0, cos, sin);
    HamiltonianSeparates(c, s, p, u, 1.0, cos, sin);
  }

  // ----- optDstb keyed on dMode -----

  /** The corrected disturbance is the as-written one mirrored whenever the
      disturbance plays the role opposite to the control. */
  lemma OptDstbByRoleMirrorsOptDstb(c: Air3D, p: Costate)
    requires HasDstbBounds(c) && RolesOpposite(c)
    ensures OptDstbByRole(c, p).opt == c.dMin[0] + c.dMax[0] - OptDstb(c, p).opt
  {
  }

  /** The corrected disturbance extremises d * p_theta in the direction of dMode. */
  lemma OptDstbByRoleExtremal(c: Air3D, p: Costate, d: real)
    requires HasDstbBounds(c) && c.dMin[0] <= d <= c.dMax[0]
    ensures c.dMode == Min ==> OptDstbByRole(c, p).opt * p.ptheta <= d * p.ptheta
    ensures c.dMode == Max ==> OptDstbByRole(c, p).opt * p.ptheta >= d * p.ptheta
  {
  }

  /** d is an optimal disturbance against u: it lies in the disturbance
      interval and is best for the role dMode. */
  ghost predicate OptimalDstb(c: Air3D, s: State, p: Costate, u: real, d: real,
                              cos: real -> real, sin: real -> real)
    requires HasDstbBounds(c)
  {
    && c.dMin[0] <= d <= c.dMax[0]
    && forall e :: c.dMin[0] <= e <= c.dMax[0] ==>
         if c.dMode == Min then Ham(c, s, p, u, d, cos, sin) <= Ham(c, s, p, u, e, cos, sin)
         else Ham(c, s, p, u, d, cos, sin) >= Ham(c, s, p, u, e, cos, sin)
  }

  /** On a well-ordered interval the corrected disturbance is optimal against every control. */
  lemma OptDstbByRoleOptimal(c: Air3D, s: State, p: Costate, u: real, cos: real -> real, sin: real -> real)
    requires HasDstbBounds(c) && c.dMin[0] <= c.dMax[0]
    ensures OptimalDstb(c, s, p, u, OptDstbByRole(c, p).opt, cos, sin)
  {
    var dOpt := OptDstbByRole(c, p).opt;
    forall e | c.dMin[0] <= e <= c.dMax[0]
      ensures c.dMode == Min ==> Ham(c, s, p, u, dOpt, cos, sin) <= Ham(c, s, p, u, e, cos, sin)
      ensures c.dMode == Max ==> Ham(c, s, p, u, dOpt, cos, sin) >= Ham(c, s, p, u, e, cos, sin)
    {
      HamOrdersDstbs(c, s, p, u, dOpt, e, cos, sin);
      HamOrdersDstbs(c, s, p, u, e, dOpt, cos, sin);
      OptDstbByRoleExtremal(c, p, e);
    }
  }

  /** An optimal disturbance does at least as well as the corrected one on d * p_theta. */
  lemma OptimalDstbPayoff(c: Air3D, s: State, p: Costate, u: real, d: real,
                          cos: real -> real, sin: real -> real)
    requires HasDstbBounds(c) && OptimalDstb(c, s, p, u, d, cos, sin)
    ensures c.dMode == Min ==> d * p.ptheta <= OptDstbByRole(c, p).opt * p.ptheta
    ensures c.dMode == Max ==> d * p.ptheta >= OptDstbByRole(c, p).opt * p.ptheta
  {
    var dOpt := OptDstbByRole(c, p).opt;
    assert c.dMin[0] <= dOpt <= c.dMax[0];
    HamOrdersDstbs(c, s, p, u, d, dOpt, cos, sin);
    HamOrdersDstbs(c, s, p, u, dOpt, d, cos, sin);
  }

  /** For p_theta != 0 the optimal disturbance is unique: it is the corrected one. */
  lemma OptimalDstbUnique(c: Air3D, s: State, p: Costate, u: real, d: real,
                          cos: real -> real, sin: real -> real)
    requires HasDstbBounds(c) && p.ptheta != 0.0
    requires OptimalDstb(c, s, p, u, d, cos, sin)
    ensures d == OptDstbByRole(c, p).opt
  {
    OptimalDstbPayoff(c, s, p, u, d, cos, sin);
    OptDstbByRoleExtremal(c, p, d);
    CancelFactor(d, OptDstbByRole(c, p).opt, p.ptheta);
  }

  /** As written, the disturbance is never optimal for dMode off the tie
      p_theta == 0 when the disturbance interval has two distinct ends. */
  lemma OptDstbNeverOptimalOffTie(c: Air3D, s: State, p: Costate, u: real,
                                  cos: real -> real, sin: real -> real)
    requires HasDstbBounds(c) && RolesOpposite(c)
    requires c.dMin[0] < c.dMax[0] && p.ptheta != 0.0
    ensures !OptimalDstb(c, s, p, u, OptDstb(c, p).opt, cos, sin)
  {
    OptDstbByRoleMirrorsOptDstb(c, p);
    if OptimalDstb(c, s, p, u, OptDstb(c, p).opt, cos, sin) {
      OptimalDstbUnique(c, s, p, u, OptDstb(c, p).opt, cos, sin);
      assert false;
    }
  }

  /** With opposite roles and well-ordered intervals, the pair of choices is a
      saddle point of p . f: each is optimal against the other. Off the ties it
      is the only one. */
  lemma SaddlePoint(c: Air3D, s: State, p: Costate, cos: real -> real, sin: real -> real)
    requires HasControlBounds(c) && HasDstbBounds(c) && RolesOpposite(c)
    requires c.uMin[0] <= c.uMax[0] && c.dMin[0] <= c.dMax[0]
    ensures OptimalControl(c, s, p, OptCtrl(c, s, p).opt, OptDstbByRole(c, p).opt, cos, sin)
    ensures OptimalDstb(c, s, p, OptCtrl(c, s, p).opt, OptDstbByRole(c, p).opt, cos, sin)
  {
    OptCtrlOptimal(c, s, p, OptDstbByRole(c, p).opt, cos, sin);
    OptDstbByRoleOptimal(c, s, p, OptCtrl(c, s, p).opt, cos, sin);
  }

  /** Off the ties, a saddle point is the pair (OptCtrl, OptDstbByRole). */
  lemma SaddlePointUnique(c: Air3D, s: State, p: Costate, u: real, d: real,
                          cos: real -> real, sin: real -> real)
    requires HasControlBounds(c) && HasDstbBounds(c)
    requires Det(s, p) != 0.0 && p.ptheta != 0.0
    requires OptimalControl(c, s, p, u, d, cos, sin) && OptimalDstb(c, s, p, u, d, cos, sin)
    ensures u == OptCtrl(c, s, p).opt && d == OptDstbByRole(c, p).opt
  {
    OptimalControlUnique(c, s, p, u, d, cos, sin);
    OptimalDstbUnique(c, s, p, u, d, cos, sin);
  }

  // ----- dynamics -----

  /** At the state (0, 0, 0) the planes' relative position does not change,
      for every speed and every control. */
  lemma DynamicsAtOrigin(c: Air3D, uOpt: real, dOpt: real, cos: real -> real, sin: real -> real)
    requires cos(0.0) == 1.0 && sin(0.0) == 0.0
    ensures StateDynamics(c, State(0.0, 0.0, 0.0), uOpt, dOpt, cos, sin)
            == Deriv(0.0, 0.0, dOpt - uOpt)
  {
  }

  /** Speed 5 at (0, 0, 0) with uOpt = 1 and dOpt = -1 gives (0, 0, -2). */
  lemma DynamicsExample(cos: real -> real, sin: real -> real)
    requires cos(0.0) == 1.0 && sin(0.0) == 0.0
    ensures StateDynamics(NewAir3DWithDefaults(5.0).value, State(0.0, 0.0, 0.0), 1.0, -1.0, cos, sin)
            == Deriv(0.0, 0.0, -2.0)
  {
  }

  /** A configuration that gives both players the same role is rejected. */
  lemma SameRolesRejected(mode: string, v: real, uMin: seq<real>, uMax: seq<real>,
                          dMin: seq<real>, dMax: seq<real>)
    ensures NewAir3D(v, uMin, uMax, dMin, dMax, mode, mode).Err?
  {
  }
}
