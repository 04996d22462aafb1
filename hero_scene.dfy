/**
 * The hero section's 3D background: an orb with a wireframe shell, a ring of
 * particles, a torus-knot "flow", two point lights, and a glowing marker that
 * follows the mouse across a plane in front of the orb, joined to the orb by
 * a faint link line.
 *
 * Only the scene's own state is modelled: the module-level `pointerActive`,
 * `lastTime` and pending frame, and the numbers `animate` and `start` write
 * into the library's objects (positions, rotations, opacities, visibility).
 * The rendering library is opaque: a render is counted, the camera ray's hit
 * on the pointer plane arrives as an optional point, and the pointer's
 * angular offset (a multiple of pi) arrives already computed.
 */
module HeroScene {
  import opened Optional
  import opened Lag

  datatype Vec2 = Vec2(x: real, y: real)
  datatype Vec3 = Vec3(x: real, y: real, z: real)

  /** Where the marker rests while no pointer is over the hero section. */
  const RestPoint: Vec3 := Vec3(0.0, 0.8, 2.2)

  /** The marker's box on the pointer plane: x in [-4.5, 4.5], y in [-2.8, 3.6]. */
  predicate InBox(p: Vec3) {
    -4.5 <= p.x <= 4.5 && -2.8 <= p.y <= 3.6
  }

  /** Clamps a hit point's x and y into the marker's box; its depth is kept. */
  function ClampToBox(p: Vec3): (r: Vec3)
    ensures InBox(r) && r.z == p.z
    ensures InBox(p) ==> r == p
    ensures p.x < -4.5 ==> r.x == -4.5
    ensures p.x > 4.5 ==> r.x == 4.5
    ensures p.y < -2.8 ==> r.y == -2.8
    ensures p.y > 3.6 ==> r.y == 3.6
  {
    ClampRange(p.x, -4.5, 4.5);
    ClampRange(p.y, -2.8, 3.6);
    Vec3(Clamp(p.x, -4.5, 4.5), Clamp(p.y, -2.8, 3.6), p.z)
  }

  /** The marker target after a pointer move: the clamped hit, or unchanged when the ray misses the plane. */
  function RetargetCursor(target: Vec3, hit: Option<Vec3>): (r: Vec3)
    ensures hit.None? ==> r == target
    ensures hit.Some? ==> InBox(r) && r.z == hit.value.z
    ensures InBox(target) ==> InBox(r)
  {
    match hit
    case None => target
    case Some(p) => ClampToBox(p)
  }

  /** The opacity a marker material eases toward: its active value while the pointer is live, else 0. */
  function Fade(active: bool, peak: real): real {
    if active then peak else 0.0
  }

  /** The flow opacity eases toward 0.24 while the pointer is live and back to 0.18 otherwise. */
  function FlowTarget(active: bool): real {
    if active then 0.24 else 0.18
  }

  /**
   * One frame of a marker opacity stays within [0, peak]; while the pointer
   * is live it never decreases, and otherwise it never increases.
   */
  lemma FadeStaysWithin(o: real, active: bool, peak: real, gain: real)
    requires IsGain(gain) && 0.0 <= o <= peak
    ensures 0.0 <= Lerp(o, Fade(active, peak), gain) <= peak
    ensures active ==> Lerp(o, Fade(active, peak), gain) >= o
    ensures !active ==> Lerp(o, Fade(active, peak), gain) <= o
  {
    LerpIsFollow(o, Fade(active, peak), gain);
    FollowBetween(o, Fade(active, peak), gain);
  }

  /** One frame of the flow opacity stays within [0.18, 0.24]. */
  lemma FlowStaysWithin(o: real, active: bool)
    requires 0.18 <= o <= 0.24
    ensures 0.18 <= Lerp(o, FlowTarget(active), 0.06) <= 0.24
  {
    LerpIsFollow(o, FlowTarget(active), 0.06);
    FollowStaysWithin(0.18, 0.24, o, FlowTarget(active), 0.06);
  }

  /** `Vector.lerp`, one axis at a time. */
  function Follow2(v: Vec2, target: Vec2, gain: real): Vec2 {
    Vec2(Follow(v.x, target.x, gain), Follow(v.y, target.y, gain))
  }

  function Follow3(v: Vec3, target: Vec3, gain: real): Vec3 {
    Vec3(Follow(v.x, target.x, gain), Follow(v.y, target.y, gain), Follow(v.z, target.z, gain))
  }

  /** A vector follower gets no farther from its target on any axis, and stays in a box its target is in. */
  lemma Follow3Approaches(v: Vec3, target: Vec3, gain: real)
    requires IsGain(gain)
    ensures var r := Follow3(v, target, gain);
      && Abs(target.x - r.x) <= Abs(target.x - v.x)
      && Abs(target.y - r.y) <= Abs(target.y - v.y)
      && Abs(target.z - r.z) <= Abs(target.z - v.z)
      && (InBox(v) && InBox(target) ==> InBox(r))
  {
    FollowBetween(v.x, target.x, gain);
    FollowBetween(v.y, target.y, gain);
    FollowBetween(v.z, target.z, gain);
  }

  lemma Follow2Approaches(v: Vec2, target: Vec2, gain: real)
    requires IsGain(gain)
    ensures var r := Follow2(v, target, gain);
      && Abs(target.x - r.x) <= Abs(target.x - v.x)
      && Abs(target.y - r.y) <= Abs(target.y - v.y)
  {
    FollowBetween(v.x, target.x, gain);
    FollowBetween(v.y, target.y, gain);
  }

  /** Seconds between two frame timestamps given in milliseconds. */
  function Delta(last: real, time: real): real {
    (time - last) / 1000.0
  }

  /** An angle integrated over frames at the given timestamps, `angle += delta * rate` each frame. */
  function Spin(angle: real, last: real, times: seq<real>, rate: real): real
    decreases |times|
  {
    if times == [] then angle else Spin(angle + Delta(last, times[0]) * rate, times[0], times[1..], rate)
  }

  /**
   * The integrators telescope: however the frames fall, the angle grows by
   * the rate times the seconds between the starting timestamp and the last
   * frame.
   */
  lemma {:induction false} SpinTelescopes(angle: real, last: real, times: seq<real>, rate: real)
    requires |times| > 0
    ensures Spin(angle, last, times, rate) == angle + Delta(last, times[|times| - 1]) * rate
    decreases |times|
  {
    var a := angle + Delta(last, times[0]) * rate;
    if |times| > 1 {
      SpinTelescopes(a, times[0], times[1..], rate);
      assert times[1..][|times[1..]| - 1] == times[|times| - 1];
      var t := times[|times| - 1];
      assert Delta(last, times[0]) + Delta(times[0], t) == Delta(last, t);
      assert Delta(last, times[0]) * rate + Delta(times[0], t) * rate == (Delta(last, times[0]) + Delta(times[0], t)) * rate;
    }
  }

  /** The opacities of the marker's glow, halo and link, and of the flow knot. */
  datatype Fades = Fades(glow: real, halo: real, link: real, flow: real)

  /** Each marker opacity within [0, its active value]; the flow within [0.18, 0.24]. */
  predicate FadesBounded(f: Fades) {
    && 0.0 <= f.glow <= 0.85 && 0.0 <= f.halo <= 0.44 && 0.0 <= f.link <= 0.36
    && 0.18 <= f.flow <= 0.24
  }

  /** One frame of the opacities, toward their active values while the pointer is live. */
  function Faded(f: Fades, active: bool): Fades {
    Fades(
      Lerp(f.glow, Fade(active, 0.85), 0.12),
      Lerp(f.halo, Fade(active, 0.44), 0.1),
      Lerp(f.link, Fade(active, 0.36), 0.12),
      Lerp(f.flow, FlowTarget(active), 0.06))
  }

  /**
   * Frames keep every opacity within its range; while the pointer is live the
   * marker's opacities only grow, otherwise they only shrink.
   */
  lemma FadedBounded(f: Fades, active: bool)
    requires FadesBounded(f)
    ensures FadesBounded(Faded(f, active))
    ensures active ==> Faded(f, active).glow >= f.glow && Faded(f, active).halo >= f.halo && Faded(f, active).link >= f.link
    ensures !active ==> Faded(f, active).glow <= f.glow && Faded(f, active).halo <= f.halo && Faded(f, active).link <= f.link
  {
    FadeStaysWithin(f.glow, active, 0.85, 0.12);
    FadeStaysWithin(f.halo, active, 0.44, 0.1);
    FadeStaysWithin(f.link, active, 0.36, 0.12);
    FlowStaysWithin(f.flow, active);
  }

  /** `n` frames of the opacities with the pointer state fixed. */
  function FadedN(f: Fades, active: bool, n: nat): Fades
    decreases n
  {
    if n == 0 then f else FadedN(Faded(f, active), active, n - 1)
  }

  /** Once the pointer has left, the glow fades out geometrically: 12% of what is left goes each frame. */
  lemma {:induction false} GlowFadesOut(f: Fades, n: nat)
    ensures FadedN(f, false, n).glow == FollowN(f.glow, 0.0, 0.12, n)
    decreases n
  {
    if n > 0 {
      GlowFadesOut(Faded(f, false), n - 1);
      LerpIsFollow(f.glow, 0.0, 0.12);
    }
  }

  /** The rotations that accumulate: orb and shell, glow, halo, particles, flow knot. */
  datatype Spins = Spins(orb: Vec3, wire: Vec3, glow: real, halo: real, particles: real, flowYaw: real, flowRoll: real)

  /** One frame of `delta` seconds of the rotation integrators; the shell copies the orb. */
  function Turned(s: Spins, delta: real): (r: Spins)
    ensures r.wire == r.orb && r.orb.z == s.orb.z
  {
    var orb := s.orb.(x := s.orb.x + delta * 0.12, y := s.orb.y + delta * 0.2);
    Spins(orb, orb, s.glow + delta * 0.6, s.halo + delta * 0.45, s.particles + delta * 0.08,
          s.flowYaw - delta * 0.06, s.flowRoll + delta * 0.04)
  }

  /** The integrators over frames at the given timestamps, starting from `last`. */
  function TurnedOver(s: Spins, last: real, times: seq<real>): Spins
    decreases |times|
  {
    if times == [] then s else TurnedOver(Turned(s, Delta(last, times[0])), times[0], times[1..])
  }

  /** Each of the orb's accumulated angles is the integral `Spin` of its own rate. */
  lemma {:induction false} TurnedOverOrb(s: Spins, last: real, times: seq<real>)
    ensures TurnedOver(s, last, times).orb.y == Spin(s.orb.y, last, times, 0.2)
    ensures TurnedOver(s, last, times).orb.x == Spin(s.orb.x, last, times, 0.12)
    ensures TurnedOver(s, last, times).orb.z == s.orb.z
    decreases |times|
  {
    if times != [] {
      TurnedOverOrb(Turned(s, Delta(last, times[0])), times[0], times[1..]);
    }
  }

  /**
   * However the frames fall, the orb has turned by exactly 0.2 rad/s about y
   * and 0.12 rad/s about x over the seconds from `last` to the last frame,
   * and the shell is turned with it.
   */
  lemma OrbClosedForm(s: Spins, last: real, times: seq<real>)
    requires |times| > 0
    ensures var r := TurnedOver(s, last, times);
      && r.orb == Vec3(s.orb.x + Delta(last, times[|times| - 1]) * 0.12, s.orb.y + Delta(last, times[|times| - 1]) * 0.2, s.orb.z)
      && r.wire == r.orb
  {
    TurnedOverOrb(s, last, times);
    SpinTelescopes(s.orb.y, last, times, 0.2);
    SpinTelescopes(s.orb.x, last, times, 0.12);
    TurnedOverShell(s, last, times);
  }

  lemma {:induction false} TurnedOverShell(s: Spins, last: real, times: seq<real>)
    requires |times| > 0
    ensures TurnedOver(s, last, times).wire == TurnedOver(s, last, times).orb
    decreases |times|
  {
    if |times| > 1 {
      TurnedOverShell(Turned(s, Delta(last, times[0])), times[0], times[1..]);
    }
  }

  /** The particle tilt, the two lights' x and y, and the camera's x and y. */
  datatype Lights = Lights(particleTilt: real, key: Vec2, fill: Vec2, camera: Vec2)

  /** Where the lights and the camera head: offsets from the marker and from the smoothed pointer. */
  function LightTargets(marker: Vec3, mouse: Vec2): Lights {
    Lights(mouse.y,
      Vec2(6.0 + marker.x * 0.35, 6.0 + marker.y * 0.25),
      Vec2(-6.0 + marker.x * 0.3, -4.0 + marker.y * 0.2),
      Vec2(mouse.x * 12.0, 1.2 + mouse.y * 6.0))
  }

  /** One frame of the lights and the camera toward their targets. */
  function Relit(l: Lights, marker: Vec3, mouse: Vec2): Lights {
    var t := LightTargets(marker, mouse);
    Lights(Lerp(l.particleTilt, t.particleTilt, 0.02),
      Vec2(Lerp(l.key.x, t.key.x, 0.08), Lerp(l.key.y, t.key.y, 0.08)),
      Vec2(Lerp(l.fill.x, t.fill.x, 0.08), Lerp(l.fill.y, t.fill.y, 0.08)),
      Vec2(Lerp(l.camera.x, t.camera.x, 0.04), Lerp(l.camera.y, t.camera.y, 0.04)))
  }

  /** The lights and the camera never overshoot their targets: each coordinate moves toward its own. */
  lemma RelitBetween(l: Lights, marker: Vec3, mouse: Vec2)
    ensures var r, t := Relit(l, marker, mouse), LightTargets(marker, mouse);
      && Between(l.particleTilt, r.particleTilt, t.particleTilt)
      && Between(l.key.x, r.key.x, t.key.x) && Between(l.key.y, r.key.y, t.key.y)
      && Between(l.fill.x, r.fill.x, t.fill.x) && Between(l.fill.y, r.fill.y, t.fill.y)
      && Between(l.camera.x, r.camera.x, t.camera.x) && Between(l.camera.y, r.camera.y, t.camera.y)
  {
    var t := LightTargets(marker, mouse);
    LerpIsFollow(l.particleTilt, t.particleTilt, 0.02);
    FollowBetween(l.particleTilt, t.particleTilt, 0.02);
    LerpIsFollow(l.key.x, t.key.x, 0.08);
    FollowBetween(l.key.x, t.key.x, 0.08);
    LerpIsFollow(l.key.y, t.key.y, 0.08);
    FollowBetween(l.key.y, t.key.y, 0.08);
    LerpIsFollow(l.fill.x, t.fill.x, 0.08);
    FollowBetween(l.fill.x, t.fill.x, 0.08);
    LerpIsFollow(l.fill.y, t.fill.y, 0.08);
    FollowBetween(l.fill.y, t.fill.y, 0.08);
    LerpIsFollow(l.camera.x, t.camera.x, 0.04);
    FollowBetween(l.camera.x, t.camera.x, 0.04);
    LerpIsFollow(l.camera.y, t.camera.y, 0.04);
    FollowBetween(l.camera.y, t.camera.y, 0.04);
  }

  /** The scene state that belongs to this module, and what it writes into the library's objects. */
  class Scene {
    var pointerActive: bool
    /** The pointer's angular offset and its smoothed copy. */
    var mouseTarget: Vec2
    var smoothMouse: Vec2
    /** Where the marker is heading on the pointer plane, and where it is. */
    var cursorTarget: Vec3
    var cursorPosition: Vec3

    var fades: Fades
    var glowVisible: bool
    var linkVisible: bool
    var spins: Spins
    var lights: Lights

    var lastTime: real
    var framePending: bool
    var renders: nat

    /**
     * The marker's target and position stay in the box, its three opacities
     * within [0, their active value], the flow opacity within [0.18, 0.24],
     * and the wireframe shell turned exactly as the orb.
     */
    predicate Valid()
      reads this
    {
      FadesBounded(fades) && InBox(cursorTarget) && InBox(cursorPosition) && spins.wire == spins.orb
    }

    /** The scene as built, before `start` has run. */
    constructor()
      ensures Valid() && !pointerActive && !framePending && renders == 0
      ensures cursorTarget == RestPoint && cursorPosition == RestPoint
      ensures fades == Fades(0.0, 0.0, 0.0, 0.18)
      ensures spins.orb == Vec3(0.0, 0.0, 0.0) && lastTime == 0.0
      ensures lights == Lights(0.0, Vec2(6.0, 6.0), Vec2(-6.0, -4.0), Vec2(0.0, 1.2))
    {
      pointerActive := false;
      mouseTarget := Vec2(0.0, 0.0);
      smoothMouse := Vec2(0.0, 0.0);
      cursorTarget := RestPoint;
      cursorPosition := RestPoint;
      fades := Fades(0.0, 0.0, 0.0, 0.18);
      glowVisible := true;
      linkVisible := true;
      spins := Spins(Vec3(0.0, 0.0, 0.0), Vec3(0.0, 0.0, 0.0), 0.0, 0.0, 0.0, 0.0, 0.0);
      lights := Lights(0.0, Vec2(6.0, 6.0), Vec2(-6.0, -4.0), Vec2(0.0, 1.2));
      lastTime := 0.0;
      framePending := false;
      renders := 0;
    }

    /**
     * `updateMouse`: the pointer's angular offset becomes the mouse target,
     * a hit on the pointer plane retargets the marker (clamped to the box), a
     * miss leaves the marker's target alone, and the pointer is live either way.
     */
    method PointerMove(mouse: Vec2, hit: Option<Vec3>)
      requires Valid()
      modifies this`mouseTarget, this`cursorTarget, this`pointerActive
      ensures Valid() && pointerActive && mouseTarget == mouse
      ensures cursorTarget == RetargetCursor(old(cursorTarget), hit)
    {
      mouseTarget := mouse;
      if hit.Some? {
        var p := hit.value;
        cursorTarget := Vec3(Clamp(p.x, -4.5, 4.5), Clamp(p.y, -2.8, 3.6), p.z);
      }
      pointerActive := true;
    }

    /** `pointerleave`: the pointer is gone, so everything heads back to rest. */
    method PointerLeave()
      requires Valid()
      modifies this`mouseTarget, this`cursorTarget, this`pointerActive
      ensures Valid() && !pointerActive
      ensures mouseTarget == Vec2(0.0, 0.0) && cursorTarget == RestPoint
    {
      mouseTarget := Vec2(0.0, 0.0);
      pointerActive := false;
      cursorTarget := RestPoint;
    }

    /** The browser runs the pending animation frame, if there is one, at timestamp `time`. */
    method Frame(time: real)
      requires Valid()
      modifies this
      ensures Valid()
      ensures !old(framePending) ==> unchanged(this)
      ensures old(framePending) ==> framePending && lastTime == time && renders == old(renders) + 1
      ensures old(framePending) ==> spins == TurnedOver(old(spins), old(lastTime), [time])
      ensures old(framePending) ==> cursorPosition == Follow3(old(cursorPosition), cursorTarget, 0.12)
      ensures old(framePending) ==> fades == Faded(old(fades), pointerActive)
      ensures old(framePending) ==>
        && pointerActive == old(pointerActive) && mouseTarget == old(mouseTarget) && cursorTarget == old(cursorTarget)
        && smoothMouse == Follow2(old(smoothMouse), mouseTarget, 0.08)
        && lights == Relit(old(lights), cursorPosition, smoothMouse)
        && glowVisible == old(glowVisible) && linkVisible == old(linkVisible)
    {
      if framePending {
        Animate(time);
      }
    }

    /**
     * `animate`: one frame. The marker eases 12% of the way to its target and
     * the smoothed pointer 8%, so neither gets farther from its target; the
     * opacities fade toward their active values or toward 0; the rotations
     * integrate the elapsed seconds; the lights and the camera follow the new
     * marker position and smoothed pointer; one render; the next frame
     * requested.
     */
    method Animate(time: real)
      requires Valid()
      modifies this
      ensures Valid()
      ensures lastTime == time && framePending && renders == old(renders) + 1
      ensures pointerActive == old(pointerActive) && mouseTarget == old(mouseTarget) && cursorTarget == old(cursorTarget)
      ensures smoothMouse == Follow2(old(smoothMouse), mouseTarget, 0.08)
      ensures cursorPosition == Follow3(old(cursorPosition), cursorTarget, 0.12)
      ensures Abs(cursorTarget.x - cursorPosition.x) <= Abs(cursorTarget.x - old(cursorPosition.x))
      ensures Abs(cursorTarget.y - cursorPosition.y) <= Abs(cursorTarget.y - old(cursorPosition.y))
      ensures Abs(cursorTarget.z - cursorPosition.z) <= Abs(cursorTarget.z - old(cursorPosition.z))
      ensures Abs(mouseTarget.x - smoothMouse.x) <= Abs(mouseTarget.x - old(smoothMouse.x))
      ensures Abs(mouseTarget.y - smoothMouse.y) <= Abs(mouseTarget.y - old(smoothMouse.y))
      ensures fades == Faded(old(fades), pointerActive)
      ensures spins == Turned(old(spins), Delta(old(lastTime), time))
      ensures spins == TurnedOver(old(spins), old(lastTime), [time])
      ensures lights == Relit(old(lights), cursorPosition, smoothMouse)
      ensures glowVisible == old(glowVisible) && linkVisible == old(linkVisible)
    {
      var delta := Delta(lastTime, time);
      lastTime := time;

      Follow2Approaches(smoothMouse, mouseTarget, 0.08);
      smoothMouse := Follow2(smoothMouse, mouseTarget, 0.08);
      Follow3Approaches(cursorPosition, cursorTarget, 0.12);
      cursorPosition := Follow3(cursorPosition, cursorTarget, 0.12);

      FadedBounded(fades, pointerActive);
      fades := Faded(fades, pointerActive);
      spins := Turned(spins, delta);
      lights := Relit(lights, cursorPosition, smoothMouse);

      renders := renders + 1;
      framePending := true;
    }

    /**
     * `start`: any pending frame is cancelled first. With reduced motion the
     * marker is hidden and faded out, the orb set to a fixed pose, one frame
     * rendered and no loop scheduled; otherwise the clock restarts at 0 and
     * exactly one frame is requested.
     */
    method Start(reduced: bool)
      requires Valid()
      modifies this
      ensures Valid()
      ensures glowVisible == !reduced && linkVisible == !reduced
      ensures reduced ==> && !framePending && !pointerActive && renders == old(renders) + 1
                          && fades == old(fades).(glow := 0.0, halo := 0.0, link := 0.0)
                          && spins == old(spins).(orb := Vec3(0.3, 0.6, 0.0), wire := Vec3(0.3, 0.6, 0.0))
                          && lastTime == old(lastTime)
      ensures !reduced ==> && framePending && lastTime == 0.0 && renders == old(renders)
                           && pointerActive == old(pointerActive) && fades == old(fades) && spins == old(spins)
      ensures cursorTarget == old(cursorTarget) && cursorPosition == old(cursorPosition) && lights == old(lights)
      ensures mouseTarget == old(mouseTarget) && smoothMouse == old(smoothMouse)
    {
      framePending := false;
      glowVisible := !reduced;
      linkVisible := !reduced;

      if reduced {
        pointerActive := false;
        fades := fades.(glow := 0.0, halo := 0.0, link := 0.0);
        var orb := Vec3(0.3, 0.6, 0.0);
        spins := spins.(orb := orb, wire := orb);
        renders := renders + 1;
        return;
      }

      lastTime := 0.0;
      framePending := true;
    }
  }

  /**
   * The module's top level: without both the canvas and the hero container it
   * only warns and builds nothing; otherwise it builds the scene and starts it.
   */
  method Setup(canvasPresent: bool, containerPresent: bool, reduced: bool) returns (scene: Option<Scene>, warned: bool)
    ensures warned <==> !(canvasPresent && containerPresent)
    ensures scene.None? <==> warned
    ensures scene.Some? ==> && fresh(scene.value) && scene.value.Valid()
                            && scene.value.framePending == !reduced
                            && scene.value.renders == (if reduced then 1 else 0)
  {
    if !canvasPresent || !containerPresent {
      return None, true;
    }
    var s := new Scene();
    s.Start(reduced);
    return Some(s), false;
  }
}
