# Air3D relative dynamics

A Dafny model of the Air3D object of `dynamics/Air3D.py`. Air3D describes two planes that fly at the same forward speed. Its relative state is `(x, y, theta)`: the position of one plane in the frame of the other, and the relative heading. The control `u` is the turn rate of the first plane. The disturbance `d` is the turn rate of the second.

A Hamilton-Jacobi reachability solver calls the object at every grid point. It passes the state and the costate `p`, which is the spatial derivative of the value function. The object answers three questions:

- `opt_ctrl`: which control bound extremises the Hamiltonian `p . f(x, u, d)`;
- `optDstb`: which disturbance bound does;
- `dynamics`: what the derivative `f` of the state is under those inputs.

The constructor stores the speed and the bounds. It accepts `uMode` only when it is `"min"` or `"max"`, and only when `dMode` is the other one. Nothing is changed after construction. So the object is a datatype value (`Dynamics.Air3D`), and the three operations are functions of it.

Layout:

- `air3d.dfy`, module `Dynamics`: the configuration, its construction, `OptCtrl`, `OptDstb` (as written), `OptDstbByRole` (keyed on `dMode`, see Findings) and `StateDynamics`.
- `hamiltonian.dfy`, module `Hamiltonian`: the Hamiltonian `p . f` and the properties of the choices. These are the tie-breaks at zero, the mirror between the modes, extremality over the bound interval, optimality for the Hamiltonian and its uniqueness off the ties, and the saddle point.

`cos` and `sin` are parameters of type `real -> real`. Lemmas that need `cos 0 = 1` and `sin 0 = 0` take these facts as preconditions. All arithmetic is over `real`.

The docstring of the constructor says that `dMode` "should be opposite of uMode" (dynamics/Air3D.py:26), so the disturbance is meant to play the other role. Yet `optDstb` branches on `uMode`, and the stored `dMode` (line 41) is never read. The model follows the code (`OptDstb`), and Findings records the difference. The code never checks `min <= max` for the bound lists (dynamics/Air3D.py:29-41). The model accepts such intervals, and only the extremality and optimality lemmas assume `min <= max`.

## Model

| member | source | states |
|---|---|---|
| `Dynamics.Mode.Opposite` | dynamics/Air3D.py:37-40 | the opposite role differs from the given one; with two roles this determines it |
| `Dynamics.NewAir3D` | dynamics/Air3D.py:10-41 | construction succeeds exactly for ("min","max") and ("max","min"); an unknown uMode fails the first assertion, and any other dMode fails the second; on success the speed and the four bound lists are stored unchanged and the roles are opposite |
| `Dynamics.NewAir3DWithDefaults` | dynamics/Air3D.py:10-11 | with the default arguments, construction succeeds with uMode "min", dMode "max" and bounds [-1] and [1] |
| `Dynamics.OptCtrl` | dynamics/Air3D.py:43-72 | the control is one of uMin[0], uMax[0]; the two extra slots are 0 |
| `Dynamics.OptDstb` | dynamics/Air3D.py:74-96 | the disturbance is one of dMin[0], dMax[0]; the two extra slots are 0 |
| `Dynamics.OptDstbByRole` | dynamics/Air3D.py:85-94 | corrected disturbance: one of dMin[0], dMax[0], with zero extra slots |
| `Dynamics.StateDynamics` | dynamics/Air3D.py:98-110 | the heading is stationary exactly when both turn rates are equal; at cos(theta) = 1 the forward terms cancel in x_dot; at sin(theta) = 0 y_dot is -u*x |
| `Hamiltonian.HamiltonianSeparates` | dynamics/Air3D.py:106-108 | p . f equals a drift term plus u * Det plus d * p_theta, so each input enters through one sign only |
| `Hamiltonian.HamOrdersControls` | dynamics/Air3D.py:59-70 | for a fixed disturbance, p . f ranks two controls exactly as u * Det does, both for order and for equality |
| `Hamiltonian.HamOrdersDstbs` | dynamics/Air3D.py:85-94 | for a fixed control, p . f ranks two disturbances exactly as d * p_theta does |
| `Hamiltonian.OptCtrlTieBreak` | dynamics/Air3D.py:61-70 | at Det = 0 the control is the one of the ">= 0" branch |
| `Hamiltonian.OptCtrlModeMirror` | dynamics/Air3D.py:61-70 | for the same state and costate, swapping the roles picks the other bound (uMin[0] + uMax[0] minus the first choice) |
| `Hamiltonian.OptCtrlRoleSymmetry` | dynamics/Air3D.py:59-70 | swapping the roles and negating the costate gives the same control exactly off the tie Det = 0, and the other bound on it |
| `Hamiltonian.OptCtrlExtremal` | dynamics/Air3D.py:59-70 | for uMin[0] <= u <= uMax[0], uOpt*Det <= u*Det in "min" mode and >= in "max" mode |
| `Hamiltonian.OptCtrlOptimal` | dynamics/Air3D.py:59-70 | on an ordered interval the chosen control is optimal for p . f (minimal in "min" mode, maximal in "max" mode) against every disturbance |
| `Hamiltonian.OptimalControlPayoff` | dynamics/Air3D.py:59-70 | an optimal control does at least as well on u * Det as the chosen one |
| `Hamiltonian.OptimalControlUnique` | dynamics/Air3D.py:59-70 | off the tie Det = 0, any control that is optimal for p . f is the one opt_ctrl picks |
| `Hamiltonian.TieEveryControlOptimal` | dynamics/Air3D.py:61-70 | at Det = 0 every admissible control is optimal, so the ">= 0" choice is a convention |
| `Hamiltonian.OptDstbDependsOnlyOnPTheta` | dynamics/Air3D.py:74-96 | the disturbance depends on nothing but p_theta, uMode and the disturbance bounds |
| `Hamiltonian.OptDstbTieBreak` | dynamics/Air3D.py:85-94 | at p_theta = 0 the disturbance is the one of the ">= 0" branch |
| `Hamiltonian.OptDstbModeMirror` | dynamics/Air3D.py:85-94 | swapping the roles picks the other disturbance bound |
| `Hamiltonian.OptDstbFollowsControlMode` | dynamics/Air3D.py:85-94 | as written, the disturbance extremises d*p_theta in the direction of uMode, which is the control's direction |
| `Hamiltonian.OptDstbNotMaximiserExample` | dynamics/Air3D.py:85-94 | with the default configuration (dMode "max") and p = (0, 0, 1), the disturbance is -1 although d = 1 gives p . f a larger value |
| `Hamiltonian.OptDstbNeverOptimalOffTie` | dynamics/Air3D.py:85-94 | with opposite roles, a disturbance interval with distinct ends and p_theta != 0, the as-written disturbance is never optimal for dMode |
| `Hamiltonian.OptDstbByRoleMirrorsOptDstb` | dynamics/Air3D.py:85-94 | with opposite roles, the corrected disturbance is the other bound from the as-written one |
| `Hamiltonian.OptDstbByRoleExtremal` | dynamics/Air3D.py:85-94 | the corrected disturbance extremises d*p_theta over the interval in the direction of dMode |
| `Hamiltonian.OptDstbByRoleOptimal` | dynamics/Air3D.py:85-94 | on an ordered interval the corrected disturbance is optimal for p . f in the direction of dMode, against every control |
| `Hamiltonian.OptimalDstbPayoff` | dynamics/Air3D.py:85-94 | an optimal disturbance does at least as well on d * p_theta as the corrected one |
| `Hamiltonian.OptimalDstbUnique` | dynamics/Air3D.py:85-94 | for p_theta != 0, any disturbance that is optimal for dMode is the corrected one |
| `Hamiltonian.SaddlePoint` | dynamics/Air3D.py:43-96 | with opposite roles and ordered intervals, the chosen control and the corrected disturbance are each optimal against the other: a saddle point of p . f |
| `Hamiltonian.SaddlePointUnique` | dynamics/Air3D.py:43-96 | off both ties (Det != 0, p_theta != 0), every saddle point is that pair |
| `Hamiltonian.DynamicsAtOrigin` | dynamics/Air3D.py:106-108 | at state (0, 0, 0), x_dot = y_dot = 0 for every speed and control, and theta_dot = dOpt - uOpt |
| `Hamiltonian.DynamicsExample` | dynamics/Air3D.py:106-108 | speed 5, state (0, 0, 0), uOpt = 1, dOpt = -1 give (0, 0, -2) |
| `Hamiltonian.SameRolesRejected` | dynamics/Air3D.py:35-41 | construction with both roles "min", or both "max", fails |

## Left out

- The time argument `t` and the stored initial state `x`: the code never reads them.
- Floating point. The model is over `real`. With a NaN `det` or `p_theta`, neither branch fires and the code keeps its initial `uMax`/`dMax` value; the model does not capture this.
- The HeteroCL staging (`hcl.scalar`, `hcl.if_`/`hcl.elif_`): each cell gets one value through an exhaustive if/elif, so it is modelled as a conditional expression.
- `cos` and `sin`: modelled as parameters. Only `cos 0 = 1` and `sin 0 = 0` are assumed, and only where a lemma needs them.
- Bound lists: only element 0 affects a result off the NaN path (the whole `uMax`/`dMax` list is the initial value of the result cell, lines 52 and 80). `OptCtrl` and `OptDstb` require non-empty lists, since indexing an empty list raises an error in the code.
- Python's `assert` is skipped under `python -O`. The model always performs the constructor's checks.
- `Air3D_experiment.py`: grid set-up, initial value function, solver call and plotting are external library calls. Its use of `Air3D(plane_speeds=5)` is covered by `NewAir3DWithDefaults`.
- Per-grid-cell parallel evaluation by the solver: the functions are pure, so there is nothing to model.

## Findings

| source | as written | input that shows it | evidently intended | confidence | as-written member | corrected member |
|---|---|---|---|---|---|---|
| dynamics/Air3D.py:85-94 | `optDstb` branches on `uMode`, so the disturbance extremises in the same direction as the control. With uMode "min" (dMode "max") it minimises `d * p_theta`. | default configuration, p = (0, 0, 1): returns dMin = -1, while dMax = 1 gives a larger Hamiltonian (`Hamiltonian.OptDstbNotMaximiserExample`); in general, with dMin[0] < dMax[0] and p_theta != 0 it is never optimal for dMode | branch on `dMode`: dMax when p_theta >= 0 under dMode "max", which makes the pair a saddle point | medium; not executed | `Hamiltonian.OptDstbNeverOptimalOffTie` | `Hamiltonian.SaddlePoint` |
