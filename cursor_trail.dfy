/**
 * The custom cursor overlay: a cartoon face that eases toward the mouse
 * pointer, tilts and bounces with its velocity, grows over interactive
 * elements, shrinks while pressed and giggles on entering an interactive
 * element or on a plain click. It exists only while the environment allows
 * it (no reduced-motion preference, a fine pointer that can hover).
 *
 * The closure state of one enabled overlay is the class `CursorOverlay`;
 * the element's class list is the set `marks`; the seven registrations
 * (pointermove, pointerdown, pointerup, pointercancel and pointerout on the
 * document, visibilitychange on the document, blur on the window) are the
 * flag `listening`; the pending animation frame and the pending giggle timer
 * are explicit fields. The browser delivering an event, a frame or a timer is
 * a method call; pointerup and pointercancel share `PointerUp`.
 */
module CursorTrail {
  import opened Optional
  import opened Lag

  /** What the three media queries report. */
  datatype Capabilities = Capabilities(reducedMotion: bool, pointerFine: bool, hoverCapable: bool)

  predicate CanEnable(c: Capabilities) {
    !c.reducedMotion && c.pointerFine && c.hoverCapable
  }

  /**
   * A pointer event as the handlers see it. `pointerType` is "" when the
   * event carries none; `interactive` is the tag name of the closest ancestor
   * of the target that matches the interactive selector, if there is one;
   * `hasRelatedTarget` says whether the pointer moved to another element.
   */
  datatype PointerEvent = PointerEvent(
    pointerType: string,
    clientX: real,
    clientY: real,
    interactive: Option<string>,
    hasRelatedTarget: bool)

  /** The classes the handlers put on the overlay element. */
  datatype Mark = Visible | Giggling | Interactive | Reading | Pressed | Moving

  const FormControlTags: set<string> := {"INPUT", "TEXTAREA", "SELECT"}

  /** Giggle lengths in milliseconds: on entering an interactive element, and on a plain press. */
  const HoverGiggle: nat := 420
  const PressGiggle: nat := 360

  /** The overlay counts as moving when its per-frame speed exceeds this many pixels. */
  const MovingSpeed: real := 0.45

  /** The interactive ancestor is a form control, where the face "reads". */
  predicate IsReading(interactive: Option<string>) {
    interactive.Some? && interactive.value in FormControlTags
  }

  /** The scale the overlay eases toward, by whether it is over something interactive and pressed. */
  function ScaleFor(interactive: bool, pressed: bool): real {
    if interactive && pressed then 1.05
    else if interactive then 1.2
    else if pressed then 0.88
    else 1.0
  }

  /**
   * The overlay grows exactly over interactive elements, shrinks below normal
   * exactly when pressed elsewhere, and pressing always makes it smaller than
   * not pressing.
   */
  lemma ScaleTable(interactive: bool, pressed: bool)
    ensures 0.88 <= ScaleFor(interactive, pressed) <= 1.2
    ensures ScaleFor(interactive, pressed) > 1.0 <==> interactive
    ensures ScaleFor(interactive, pressed) < 1.0 <==> pressed && !interactive
    ensures ScaleFor(interactive, pressed) == 1.0 <==> !interactive && !pressed
    ensures ScaleFor(interactive, true) < ScaleFor(interactive, false)
  {
  }

  /** `Math.hypot(vx, vy) > 0.45`, compared on squares. */
  predicate IsMoving(vx: real, vy: real) {
    vx * vx + vy * vy > MovingSpeed * MovingSpeed
  }

  /** The squared comparison agrees with comparing the speed itself. */
  lemma MovingIffFast(vx: real, vy: real, speed: real)
    requires speed >= 0.0 && speed * speed == vx * vx + vy * vy
    ensures IsMoving(vx, vy) <==> speed > MovingSpeed
  {
    HypotAbove(speed, MovingSpeed);
  }

  /** A class list without any of the six classes is empty. */
  lemma NoMarkLeft(s: set<Mark>)
    requires Visible !in s && Giggling !in s && Interactive !in s
    requires Reading !in s && Pressed !in s && Moving !in s
    ensures s == {}
  {
    forall k: Mark | k in s
      ensures false
    {
      match k
      case Visible =>
      case Giggling =>
      case Interactive =>
      case Reading =>
      case Pressed =>
      case Moving =>
    }
  }

  /** Every easing variable of the overlay, as one value. */
  datatype Motion = Motion(
    targetX: real, targetY: real,
    currentX: real, currentY: real,
    lastX: real, lastY: real,
    targetScale: real, currentScale: real,
    targetTilt: real, currentTilt: real,
    targetBounce: real, currentBounce: real,
    targetLookX: real, targetLookY: real,
    currentLookX: real, currentLookY: real)

  /**
   * What holds between frames: the last position is the current one, and the
   * scale, tilt, bounce and look stay within the ranges their clamps and the
   * scale table allow.
   */
  predicate Bounded(m: Motion) {
    && m.lastX == m.currentX && m.lastY == m.currentY
    && 0.88 <= m.targetScale <= 1.2 && 0.88 <= m.currentScale <= 1.2
    && -18.0 <= m.targetTilt <= 18.0 && -18.0 <= m.currentTilt <= 18.0
    && -16.0 <= m.targetBounce <= 16.0 && -16.0 <= m.currentBounce <= 16.0
    && -12.0 <= m.targetLookX <= 12.0 && -12.0 <= m.currentLookX <= 12.0
    && -10.0 <= m.targetLookY <= 10.0 && -10.0 <= m.currentLookY <= 10.0
  }

  /** The overlay at rest at `(x, y)`: nothing moving, normal scale. */
  function AtRest(x: real, y: real): (r: Motion)
    ensures Bounded(r)
  {
    Motion(x, y, x, y, x, y, 1.0, 1.0, 0.0, 0.0, 0.0, 0.0, 0.0, 0.0, 0.0, 0.0)
  }

  /** The per-frame velocity: how far the position moves in the frame after `m`. */
  function VelocityX(m: Motion): real {
    Follow(m.currentX, m.targetX, 0.2) - m.lastX
  }

  function VelocityY(m: Motion): real {
    Follow(m.currentY, m.targetY, 0.2) - m.lastY
  }

  /**
   * One animation frame. The position eases toward the pointer without
   * overshooting; the tilt, bounce and look targets follow the velocity,
   * clamped; the pointer target and target scale are left alone.
   */
  function NextMotion(m: Motion): Motion {
    var cx := Follow(m.currentX, m.targetX, 0.2);
    var cy := Follow(m.currentY, m.targetY, 0.2);
    var vx := VelocityX(m);
    var vy := VelocityY(m);
    var tilt := Clamp(vx * 14.0, -18.0, 18.0);
    var bounce := Clamp(vy * -18.0, -16.0, 16.0);
    var lookX := Clamp(vx * 16.0, -12.0, 12.0);
    var lookY := Clamp(vy * -14.0, -10.0, 10.0);
    Motion(
      m.targetX, m.targetY, cx, cy, cx, cy,
      m.targetScale, Follow(m.currentScale, m.targetScale, 0.2),
      tilt, Follow(m.currentTilt, tilt, 0.18),
      bounce, Follow(m.currentBounce, bounce, 0.22),
      lookX, lookY, Follow(m.currentLookX, lookX, 0.22), Follow(m.currentLookY, lookY, 0.22))
  }

  /**
   * A frame eases the position and the scale toward their targets without
   * overshooting, leaves the targets alone, remembers the new position as the
   * last one, and clamps the tilt, bounce and look targets.
   */
  lemma NextMotionEases(m: Motion)
    ensures var r := NextMotion(m);
      && Between(m.currentX, r.currentX, m.targetX) && Between(m.currentY, r.currentY, m.targetY)
      && Between(m.currentScale, r.currentScale, m.targetScale)
      && r.targetX == m.targetX && r.targetY == m.targetY && r.targetScale == m.targetScale
      && r.lastX == r.currentX && r.lastY == r.currentY
      && -18.0 <= r.targetTilt <= 18.0 && -16.0 <= r.targetBounce <= 16.0
      && -12.0 <= r.targetLookX <= 12.0 && -10.0 <= r.targetLookY <= 10.0
  {
    FollowBetween(m.currentX, m.targetX, 0.2);
    FollowBetween(m.currentY, m.targetY, 0.2);
    FollowBetween(m.currentScale, m.targetScale, 0.2);
    ClampRange(VelocityX(m) * 14.0, -18.0, 18.0);
    ClampRange(VelocityY(m) * -18.0, -16.0, 16.0);
    ClampRange(VelocityX(m) * 16.0, -12.0, 12.0);
    ClampRange(VelocityY(m) * -14.0, -10.0, 10.0);
  }

  /** Frames keep every eased quantity within its range. */
  lemma NextMotionBounded(m: Motion)
    requires Bounded(m)
    ensures Bounded(NextMotion(m))
  {
    var r := NextMotion(m);
    NextMotionEases(m);
    FollowStaysWithin(0.88, 1.2, m.currentScale, m.targetScale, 0.2);
    FollowStaysWithin(-18.0, 18.0, m.currentTilt, r.targetTilt, 0.18);
    FollowStaysWithin(-16.0, 16.0, m.currentBounce, r.targetBounce, 0.22);
    FollowStaysWithin(-12.0, 12.0, m.currentLookX, r.targetLookX, 0.22);
    FollowStaysWithin(-10.0, 10.0, m.currentLookY, r.targetLookY, 0.22);
  }

  /** The frame after `m` moves the overlay fast enough to mark it as moving. */
  predicate MovesFast(m: Motion) {
    IsMoving(VelocityX(m), VelocityY(m))
  }

  /** With the pointer reached and the last position current, a frame has no velocity. */
  lemma StillVelocity(m: Motion)
    requires m.currentX == m.targetX == m.lastX && m.currentY == m.targetY == m.lastY
    ensures VelocityX(m) == 0.0 && VelocityY(m) == 0.0
  {
    FollowAtTarget(m.currentX, 0.2);
    FollowAtTarget(m.currentY, 0.2);
  }

  /** A face at rest stays at rest: no velocity, no tilt, nothing changes. */
  lemma RestIsFixed(x: real, y: real)
    ensures NextMotion(AtRest(x, y)) == AtRest(x, y)
  {
    SettledIsFixed(AtRest(x, y));
  }

  /**
   * Once the position has reached the pointer, the scale its target and the
   * tilt, bounce and look have died down, further frames change nothing.
   */
  lemma SettledIsFixed(m: Motion)
    requires m.currentX == m.targetX == m.lastX && m.currentY == m.targetY == m.lastY
    requires m.currentScale == m.targetScale
    requires m.targetTilt == m.currentTilt == 0.0 && m.targetBounce == m.currentBounce == 0.0
    requires m.targetLookX == m.currentLookX == 0.0 && m.targetLookY == m.currentLookY == 0.0
    ensures NextMotion(m) == m
  {
    var r := NextMotion(m);
    StillVelocity(m);
    assert r.currentX == m.currentX && r.currentY == m.currentY by {
      FollowAtTarget(m.currentX, 0.2);
      FollowAtTarget(m.currentY, 0.2);
    }
    assert r.currentScale == m.currentScale by {
      FollowAtTarget(m.currentScale, 0.2);
    }
    assert r.targetTilt == 0.0 && r.targetBounce == 0.0 && r.targetLookX == 0.0 && r.targetLookY == 0.0;
    assert r.currentTilt == 0.0 by {
      FollowAtTarget(m.currentTilt, 0.18);
    }
    assert r.currentBounce == 0.0 && r.currentLookX == 0.0 && r.currentLookY == 0.0 by {
      FollowAtTarget(m.currentBounce, 0.22);
      FollowAtTarget(m.currentLookX, 0.22);
      FollowAtTarget(m.currentLookY, 0.22);
    }
  }

  /** A face at rest does not count as moving. */
  lemma RestIsStill(x: real, y: real)
    ensures !MovesFast(AtRest(x, y))
  {
    var m := AtRest(x, y);
    StillVelocity(m);
    StillIsNotMoving(VelocityX(m), VelocityY(m));
  }

  lemma StillIsNotMoving(vx: real, vy: real)
    requires vx == 0.0 && vy == 0.0
    ensures !IsMoving(vx, vy)
  {
  }

  /** `n` frames with no pointer input in between. */
  function Frames(m: Motion, n: nat): Motion
    decreases n
  {
    if n == 0 then m else Frames(NextMotion(m), n - 1)
  }

  /** Without new input the position follows the geometric easing curve of gain 0.2. */
  lemma {:induction false} FramesPosition(m: Motion, n: nat)
    ensures Frames(m, n).currentX == FollowN(m.currentX, m.targetX, 0.2, n)
    ensures Frames(m, n).currentY == FollowN(m.currentY, m.targetY, 0.2, n)
    ensures Frames(m, n).targetX == m.targetX && Frames(m, n).targetY == m.targetY
    decreases n
  {
    if n > 0 {
      FramesPosition(NextMotion(m), n - 1);
      NextMotionEases(m);
    }
  }

  /**
   * The overlay catches up with a pointer that stops: after enough frames it
   * is within any distance of it on both axes.
   */
  lemma CatchesUp(m: Motion, eps: real) returns (n: nat)
    requires eps > 0.0
    ensures Abs(m.targetX - Frames(m, n).currentX) < eps
    ensures Abs(m.targetY - Frames(m, n).currentY) < eps
  {
    var dx := Abs(m.targetX - m.currentX);
    var dy := Abs(m.targetY - m.currentY);
    var d := if dx < dy then dy else dx;
    MulPos(0.2, eps);
    DivNonNeg(d, 0.2 * eps);
    n := (d / (0.2 * eps)).Floor as nat + 1;
    EnoughFrames(d, 0.2, eps, n);
    ConvergesAfter(m.currentX, m.targetX, 0.2, eps, n);
    ConvergesAfter(m.currentY, m.targetY, 0.2, eps, n);
    FramesPosition(m, n);
  }

  /** The state of one overlay, and whether one is enabled at all. */
  class CursorOverlay {
    /** An overlay is enabled (the dispose function is set). */
    var active: bool
    /** The overlay element is attached to the body. */
    var mounted: bool
    /** The root element carries the class that hides the system cursor. */
    var rootMarked: bool
    /** Every handler is registered with the document or the window. */
    var listening: bool
    var frameRequested: bool
    /** The duration of the pending giggle timer, if one is pending. */
    var pendingGiggle: Option<nat>
    var marks: set<Mark>

    var isVisible: bool
    var isPressed: bool
    var isInteractive: bool
    var isReading: bool

    /** The easing variables of the enabled overlay. */
    var motion: Motion

    /**
     * The flags and the element's classes agree, the target scale matches the
     * flags, an enabled overlay is attached with all its listeners and always
     * has a frame pending and a giggle timer exactly while it giggles, and a
     * disabled one has left nothing behind.
     */
    predicate Valid()
      reads this
    {
      Consistent() && (active ==> frameRequested)
    }

    /** `Valid` apart from the pending frame, which `animate` is about to request. */
    predicate Consistent()
      reads this
    {
      && (Visible in marks <==> isVisible)
      && (Interactive in marks <==> isInteractive)
      && (Reading in marks <==> isReading)
      && (Pressed in marks <==> isPressed)
      && (isReading ==> isInteractive)
      && motion.targetScale == ScaleFor(isInteractive, isPressed)
      && Bounded(motion)
      && (active ==> mounted && rootMarked && listening)
      && (active ==> (Giggling in marks <==> pendingGiggle.Some?))
      && (!active ==> !mounted && !rootMarked && !listening && !frameRequested && pendingGiggle.None?)
    }

    /** Before any evaluation no overlay exists. */
    constructor()
      ensures Valid() && !active && marks == {}
    {
      active := false;
      mounted := false;
      rootMarked := false;
      listening := false;
      frameRequested := false;
      pendingGiggle := None;
      marks := {};
      isVisible := false;
      isPressed := false;
      isInteractive := false;
      isReading := false;
      motion := AtRest(0.0, 0.0);
    }

    /** The body of `animate`: one frame of easing, the moving class, and the next frame requested. */
    method Tick()
      requires Consistent() && active
      modifies this
      ensures Valid() && active
      ensures motion == NextMotion(old(motion))
      ensures marks == if MovesFast(old(motion)) then old(marks) + {Moving} else old(marks) - {Moving}
      ensures frameRequested
      ensures pendingGiggle == old(pendingGiggle) && listening == old(listening)
      ensures isVisible == old(isVisible) && isPressed == old(isPressed)
      ensures isInteractive == old(isInteractive) && isReading == old(isReading)
    {
      var m := motion;
      NextMotionBounded(m);
      Commit(NextMotion(m), MovesFast(m));
    }

    /** The end of `animate`: the new easing state, the moving class, the next frame requested. */
    method Commit(next: Motion, moving: bool)
      requires Consistent() && active
      requires Bounded(next) && next.targetScale == motion.targetScale
      modifies this
      ensures Valid() && active
      ensures motion == next
      ensures marks == if moving then old(marks) + {Moving} else old(marks) - {Moving}
      ensures frameRequested
      ensures pendingGiggle == old(pendingGiggle) && listening == old(listening)
      ensures isVisible == old(isVisible) && isPressed == old(isPressed)
      ensures isInteractive == old(isInteractive) && isReading == old(isReading)
    {
      motion := next;
      if moving {
        marks := marks + {Moving};
      } else {
        marks := marks - {Moving};
      }
      frameRequested := true;
    }

    /** The browser runs the pending animation frame, if there is one. */
    method Frame()
      requires Valid()
      modifies this
      ensures Valid() && active == old(active)
      ensures !old(frameRequested) ==> unchanged(this)
      ensures pendingGiggle == old(pendingGiggle)
      ensures old(frameRequested) ==> motion == NextMotion(old(motion))
      ensures old(frameRequested) ==>
        marks == if MovesFast(old(motion)) then old(marks) + {Moving} else old(marks) - {Moving}
    {
      if frameRequested {
        frameRequested := false;
        Tick();
      }
    }

    /** Sets the target scale from the flags, as the scale table says. */
    method UpdateScaleForState()
      modifies this
      ensures motion.targetScale == ScaleFor(isInteractive, isPressed)
      ensures isInteractive && isPressed ==> motion.targetScale == 1.05
      ensures isInteractive && !isPressed ==> motion.targetScale == 1.2
      ensures !isInteractive && isPressed ==> motion.targetScale == 0.88
      ensures !isInteractive && !isPressed ==> motion.targetScale == 1.0
      ensures motion == old(motion).(targetScale := motion.targetScale)
      ensures active == old(active) && mounted == old(mounted) && rootMarked == old(rootMarked)
      ensures listening == old(listening) && frameRequested == old(frameRequested)
      ensures pendingGiggle == old(pendingGiggle) && marks == old(marks)
      ensures isVisible == old(isVisible) && isPressed == old(isPressed)
      ensures isInteractive == old(isInteractive) && isReading == old(isReading)
    {
      if isInteractive && isPressed {
        motion := motion.(targetScale := 1.05);
      } else if isInteractive {
        motion := motion.(targetScale := 1.2);
      } else if isPressed {
        motion := motion.(targetScale := 0.88);
      } else {
        motion := motion.(targetScale := 1.0);
      }
    }

    method Show()
      requires Visible in marks <==> isVisible
      modifies this
      ensures isVisible && marks == old(marks) + {Visible}
      ensures motion == old(motion)
      ensures active == old(active) && mounted == old(mounted) && rootMarked == old(rootMarked)
      ensures listening == old(listening) && frameRequested == old(frameRequested)
      ensures pendingGiggle == old(pendingGiggle)
      ensures isPressed == old(isPressed) && isInteractive == old(isInteractive) && isReading == old(isReading)
    {
      if !isVisible {
        marks := marks + {Visible};
        isVisible := true;
      }
    }

    method Hide()
      requires Visible in marks <==> isVisible
      modifies this
      ensures !isVisible && marks == old(marks) - {Visible}
      ensures motion == old(motion)
      ensures active == old(active) && mounted == old(mounted) && rootMarked == old(rootMarked)
      ensures listening == old(listening) && frameRequested == old(frameRequested)
      ensures pendingGiggle == old(pendingGiggle)
      ensures isPressed == old(isPressed) && isInteractive == old(isInteractive) && isReading == old(isReading)
    {
      if isVisible {
        marks := marks - {Visible};
        isVisible := false;
      }
    }

    /** Starts giggling, replacing any pending giggle timer with one of `duration` milliseconds. */
    method TriggerGiggle(duration: nat)
      modifies this
      ensures marks == old(marks) + {Giggling} && pendingGiggle == Some(duration)
      ensures motion == old(motion)
      ensures active == old(active) && mounted == old(mounted) && rootMarked == old(rootMarked)
      ensures listening == old(listening) && frameRequested == old(frameRequested)
      ensures isVisible == old(isVisible) && isPressed == old(isPressed)
      ensures isInteractive == old(isInteractive) && isReading == old(isReading)
    {
      marks := marks + {Giggling};
      pendingGiggle := Some(duration);
    }

    /** The browser runs the pending giggle timer, if there is one: the giggle ends. */
    method GiggleExpires()
      requires Valid()
      modifies this
      ensures Valid() && active == old(active)
      ensures pendingGiggle.None?
      ensures old(pendingGiggle).Some? ==> marks == old(marks) - {Giggling}
      ensures old(pendingGiggle).None? ==> unchanged(this)
      ensures motion == old(motion)
    {
      if pendingGiggle.Some? {
        marks := marks - {Giggling};
        pendingGiggle := None;
      }
    }

    /**
     * A mouse moving over the page: the overlay retargets to the pointer, shows
     * itself, giggles on entering an interactive element, and reads over a
     * form control. Other pointer types, and any event while no overlay is
     * enabled, change nothing.
     */
    method PointerMove(e: PointerEvent)
      requires Valid()
      modifies this
      ensures Valid() && active == old(active)
      ensures !old(active) || e.pointerType != "mouse" ==> unchanged(this)
      ensures old(active) && e.pointerType == "mouse" ==>
        && motion == old(motion).(targetX := e.clientX, targetY := e.clientY, targetScale := motion.targetScale)
        && isVisible
        && isInteractive == e.interactive.Some?
        && isReading == IsReading(e.interactive)
        && isPressed == old(isPressed)
        && (Moving in marks <==> Moving in old(marks))
        && frameRequested
      ensures old(active) && e.pointerType == "mouse" && !old(isInteractive) && e.interactive.Some? ==>
        Giggling in marks && pendingGiggle == Some(HoverGiggle)
      ensures old(active) && e.pointerType == "mouse" && !(!old(isInteractive) && e.interactive.Some?) ==>
        (Giggling in marks <==> Giggling in old(marks)) && pendingGiggle == old(pendingGiggle)
    {
      if !active || e.pointerType != "mouse" {
        return;
      }
      motion := motion.(targetX := e.clientX, targetY := e.clientY);

      var nextIsInteractive := e.interactive.Some?;
      var nextIsReading := IsReading(e.interactive);
      SetInteractive(nextIsInteractive);
      SetReading(nextIsReading);

      UpdateScaleForState();
      Show();
    }

    /** The interactive flag and class follow `next`; a false-to-true change starts the hover giggle. */
    method SetInteractive(next: bool)
      requires Interactive in marks <==> isInteractive
      modifies this
      ensures isInteractive == next && (Interactive in marks <==> next)
      ensures marks - {Interactive, Giggling} == old(marks) - {Interactive, Giggling}
      ensures (Visible in marks <==> Visible in old(marks)) && (Reading in marks <==> Reading in old(marks))
      ensures (Pressed in marks <==> Pressed in old(marks)) && (Moving in marks <==> Moving in old(marks))
      ensures !old(isInteractive) && next ==> Giggling in marks && pendingGiggle == Some(HoverGiggle)
      ensures !(!old(isInteractive) && next) ==>
        (Giggling in marks <==> Giggling in old(marks)) && pendingGiggle == old(pendingGiggle)
      ensures motion == old(motion)
      ensures active == old(active) && mounted == old(mounted) && rootMarked == old(rootMarked)
      ensures listening == old(listening) && frameRequested == old(frameRequested)
      ensures isVisible == old(isVisible) && isPressed == old(isPressed) && isReading == old(isReading)
    {
      if next != isInteractive {
        isInteractive := next;
        if isInteractive {
          marks := marks + {Interactive};
          TriggerGiggle(HoverGiggle);
        } else {
          marks := marks - {Interactive};
        }
      }
    }

    /** The reading flag and class follow `next`. */
    method SetReading(next: bool)
      requires Reading in marks <==> isReading
      modifies this
      ensures isReading == next && (Reading in marks <==> next)
      ensures marks - {Reading} == old(marks) - {Reading}
      ensures (Visible in marks <==> Visible in old(marks)) && (Interactive in marks <==> Interactive in old(marks))
      ensures (Pressed in marks <==> Pressed in old(marks)) && (Moving in marks <==> Moving in old(marks))
      ensures Giggling in marks <==> Giggling in old(marks)
      ensures motion == old(motion) && pendingGiggle == old(pendingGiggle)
      ensures active == old(active) && mounted == old(mounted) && rootMarked == old(rootMarked)
      ensures listening == old(listening) && frameRequested == old(frameRequested)
      ensures isVisible == old(isVisible) && isPressed == old(isPressed) && isInteractive == old(isInteractive)
    {
      if next != isReading {
        isReading := next;
        if isReading {
          marks := marks + {Reading};
        } else {
          marks := marks - {Reading};
        }
      }
    }

    /**
     * A mouse button goes down: the overlay is pressed, and giggles unless it
     * is over an interactive element.
     */
    method PointerDown(e: PointerEvent)
      requires Valid()
      modifies this
      ensures Valid() && active == old(active)
      ensures !old(active) || e.pointerType != "mouse" ==> unchanged(this)
      ensures old(active) && e.pointerType == "mouse" ==>
        && isPressed
        && isInteractive == old(isInteractive) && isReading == old(isReading) && isVisible == old(isVisible)
        && motion == old(motion).(targetScale := motion.targetScale)
        && (Moving in marks <==> Moving in old(marks))
        && (old(isInteractive) ==> (Giggling in marks <==> Giggling in old(marks)) && pendingGiggle == old(pendingGiggle))
        && (!old(isInteractive) ==> Giggling in marks && pendingGiggle == Some(PressGiggle))
    {
      if !active || e.pointerType != "mouse" {
        return;
      }
      isPressed := true;
      marks := marks + {Pressed};
      if !isInteractive {
        TriggerGiggle(PressGiggle);
      }
      UpdateScaleForState();
    }

    /** A mouse button goes up, or the pointer is cancelled: the overlay is no longer pressed. */
    method PointerUp(e: PointerEvent)
      requires Valid()
      modifies this
      ensures Valid() && active == old(active)
      ensures !old(active) || e.pointerType != "mouse" ==> unchanged(this)
      ensures old(active) && e.pointerType == "mouse" ==>
        && !isPressed
        && isInteractive == old(isInteractive) && isReading == old(isReading) && isVisible == old(isVisible)
        && motion == old(motion).(targetScale := motion.targetScale)
        && marks - {Pressed} == old(marks) - {Pressed}
        && pendingGiggle == old(pendingGiggle)
    {
      if !active || e.pointerType != "mouse" {
        return;
      }
      isPressed := false;
      marks := marks - {Pressed};
      UpdateScaleForState();
    }

    /**
     * The pointer leaves the document (no related target): the overlay stops
     * giggling, forgets the interactive element and hides. A press in progress
     * is kept. An event with a non-mouse pointer type, or one moving to another
     * element, changes nothing; an event without a pointer type counts as a mouse.
     */
    method PointerOut(e: PointerEvent)
      requires Valid()
      modifies this
      ensures Valid() && active == old(active)
      ensures !old(active) || (e.pointerType != "" && e.pointerType != "mouse") || e.hasRelatedTarget ==>
        unchanged(this)
      ensures old(active) && (e.pointerType == "" || e.pointerType == "mouse") && !e.hasRelatedTarget ==>
        && !isVisible && !isInteractive && !isReading && isPressed == old(isPressed)
        && pendingGiggle.None?
        && marks == old(marks) - {Visible, Interactive, Reading, Giggling, Moving}
        && motion == old(motion).(targetScale := motion.targetScale)
    {
      if !active || (e.pointerType != "" && e.pointerType != "mouse") {
        return;
      }
      if e.hasRelatedTarget {
        return;
      }
      pendingGiggle := None;
      isInteractive := false;
      isReading := false;
      marks := marks - {Interactive, Reading, Giggling, Moving};
      UpdateScaleForState();
      Hide();
    }

    /** Drops every transient state: not pressed, not interactive, not giggling, hidden. */
    method ResetStates()
      requires Valid() && active
      modifies this
      ensures Valid() && active
      ensures !isVisible && !isPressed && !isInteractive && !isReading && pendingGiggle.None?
      ensures marks == {}
      ensures motion.targetScale == 1.0
      ensures motion == old(motion).(targetScale := 1.0)
    {
      pendingGiggle := None;
      isPressed := false;
      isInteractive := false;
      isReading := false;
      marks := marks - {Pressed, Interactive, Reading, Giggling, Moving};
      UpdateScaleForState();
      Hide();
      NoMarkLeft(marks);
    }

    /** The document's visibility changes; becoming hidden resets the transient state. */
    method VisibilityChange(hidden: bool)
      requires Valid()
      modifies this
      ensures Valid() && active == old(active)
      ensures !old(active) || !hidden ==> unchanged(this)
      ensures old(active) && hidden ==> marks == {} && !isPressed && !isInteractive && pendingGiggle.None?
      ensures motion == old(motion).(targetScale := motion.targetScale)
    {
      if active && hidden {
        ResetStates();
      }
    }

    /** The window loses focus: the transient state is reset. */
    method WindowBlur()
      requires Valid()
      modifies this
      ensures Valid() && active == old(active)
      ensures !old(active) ==> unchanged(this)
      ensures old(active) ==> marks == {} && !isPressed && !isInteractive && pendingGiggle.None?
      ensures motion == old(motion).(targetScale := motion.targetScale)
    {
      if active {
        ResetStates();
      }
    }

    /**
     * Creates the overlay when none exists and the body is there: centred in
     * the viewport, at rest, hidden, with every listener registered and the
     * first frame already run.
     */
    method Enable(bodyPresent: bool, width: real, height: real)
      requires Valid()
      modifies this
      ensures Valid()
      ensures old(active) || !bodyPresent ==> unchanged(this)
      ensures !old(active) && bodyPresent ==>
        && active && mounted && rootMarked && listening && frameRequested
        && motion == NextMotion(AtRest(width / 2.0, height / 2.0))
        && marks == {} && pendingGiggle.None?
        && !isVisible && !isPressed && !isInteractive && !isReading
    {
      if active || !bodyPresent {
        return;
      }
      mounted := true;
      rootMarked := true;
      marks := {};

      motion := AtRest(width / 2.0, height / 2.0);

      isVisible, isPressed, isInteractive, isReading := false, false, false, false;
      pendingGiggle := None;

      listening := true;
      active := true;

      UpdateScaleForState();
      FirstFrame(width / 2.0, height / 2.0);
    }

    /**
     * The frame `enableCursor` runs itself. The overlay is at rest, so it does
     * not count as moving; `RestIsFixed` shows the frame leaves it at rest.
     */
    method FirstFrame(x: real, y: real)
      requires Consistent() && active && motion == AtRest(x, y)
      modifies this
      ensures Valid() && active && motion == NextMotion(AtRest(x, y)) && marks == old(marks) - {Moving}
      ensures pendingGiggle == old(pendingGiggle) && listening == old(listening)
      ensures isVisible == old(isVisible) && isPressed == old(isPressed)
      ensures isInteractive == old(isInteractive) && isReading == old(isReading)
    {
      RestIsStill(x, y);
      Tick();
    }

    /** Removes an enabled overlay: frame and timer cancelled, listeners removed, element detached. */
    method Dispose()
      requires Valid() && active
      modifies this
      ensures Valid() && !active
      ensures !mounted && !rootMarked && !listening && !frameRequested && pendingGiggle.None?
      ensures motion == old(motion) && marks == old(marks)
      ensures isVisible == old(isVisible) && isPressed == old(isPressed)
      ensures isInteractive == old(isInteractive) && isReading == old(isReading)
    {
      frameRequested := false;
      pendingGiggle := None;
      listening := false;
      rootMarked := false;
      mounted := false;
      active := false;
    }

    method Disable()
      requires Valid()
      modifies this
      ensures Valid() && !active
      ensures !old(active) ==> unchanged(this)
      ensures !listening && !frameRequested && pendingGiggle.None? && !mounted && !rootMarked
    {
      if active {
        Dispose();
      }
    }

    /**
     * Re-examines the media queries: with a body present, an overlay exists
     * afterwards exactly when the capabilities allow one, and an existing
     * overlay is kept as it is; without a body nothing happens.
     */
    method Evaluate(bodyPresent: bool, caps: Capabilities, width: real, height: real)
      requires Valid()
      modifies this
      ensures Valid()
      ensures !bodyPresent ==> unchanged(this)
      ensures bodyPresent ==> (active <==> CanEnable(caps))
      ensures bodyPresent && old(active) && CanEnable(caps) ==> unchanged(this)
      ensures bodyPresent && !old(active) && CanEnable(caps) ==> motion == NextMotion(AtRest(width / 2.0, height / 2.0))
    {
      if !bodyPresent {
        return;
      }
      if CanEnable(caps) {
        Enable(true, width, height);
      } else {
        Disable();
      }
    }
  }
}
