# Retro home page interactions, modelled in Dafny

This project models the three scripts that drive the interactive parts of a personal home page:

- **The custom cursor overlay** (`cursor-trail.js`, module `CursorTrail`). A cartoon face follows the mouse pointer with first-order lag. It tilts, bounces and looks in the direction it moves. It grows over interactive elements, shrinks while pressed and giggles for a moment on entering an interactive element or on a plain press. It exists only when the media queries allow it, and disabling it removes every listener, timer and frame it set up. The closure state is the class `CursorTrail.CursorOverlay`. Its class list is a set of `Mark`s. The browser delivering an event, a frame or a timer is a method call.
- **The hero section's 3D background** (`three-background.js`, module `HeroScene`). A glowing marker follows the pointer across a plane in front of an orb. Three opacities fade in while the pointer is over the section and out when it leaves. The orb's rotation integrates the elapsed seconds times a fixed rate each frame, and the lights and the camera follow by linear interpolation. `start` honours the reduced-motion preference. The scene's own state is the class `HeroScene.Scene`.
- **The visit counter, clap button and guestbook** (`retro-interactions.js`, modules `Decimal`, `Sanitize`, `Guestbook` and `RetroSite`). The pure helpers are functions:
  - `formatCount`;
  - `sanitize` and `sanitizeMessage`;
  - `normalizeMessages`;
  - the `localLoadMessages` pipeline.

  Local storage is a `map` from keys to stored values, held in the class `RetroSite.Site` together with the counters, the shown guestbook and the `remote` flag. The handlers are methods on that class: page load, visit, clap and submit.

The easing arithmetic all three animations share is in module `Lag`, over the reals:
- `x += (t - x) * g`, which is `Follow`;
- `MathUtils.lerp`, which is `Lerp`;
- `Math.max(Math.min(v, hi), lo)` and `MathUtils.clamp`, which are `Clamp`.

`Lag` proves that a follower never overshoots, that it stays in any interval holding its value and its target, and that it converges geometrically. `Optional` holds the `Option` type.

Each remote request is replaced by the reply it would produce, with `None` standing for any failure. `Date.now()` is a parameter `now`. The media queries, the presence of DOM elements and the camera ray's hit on the pointer plane are parameters too.

## Model

| member | source | states |
|---|---|---|
| Lag.StepBetween | cursor-trail.js:125-126 | one frame covers part of the remaining distance, in its direction, and never more than all of it |
| Lag.FollowBetween | cursor-trail.js:125-143 | every eased quantity lands between its old value and its target: no overshoot |
| Lag.LerpIsFollow | three-background.js:219-223 | `MathUtils.lerp(x, y, t)` is the same update as `x += (y - x) * t` |
| Lag.FollowAtTarget | cursor-trail.js:125-143 | a quantity already at its target stays there |
| Lag.FollowRemaining | cursor-trail.js:122-126 | one frame leaves exactly `1 - gain` of the signed distance to the target |
| Lag.OneFrameDistance | cursor-trail.js:122-126 | one frame multiplies the distance to the target by `1 - gain` |
| Lag.FollowApproaches | cursor-trail.js:122-126 | with a gain below 1, a value away from its target gets strictly closer |
| Lag.ClampRange | cursor-trail.js:134-141 | the min/max clamp lies in `[lo, hi]`, keeps values inside and saturates at the nearer bound |
| Lag.FollowStaysWithin | cursor-trail.js:132-143 | a follower whose value and target lie in an interval stays in it |
| Lag.FollowNDistance | cursor-trail.js:122-126 | after `n` frames toward a fixed target, the remaining distance is `(1 - gain)^n` times the first |
| Lag.FollowNMonotone | cursor-trail.js:122-126 | the distance to a fixed target never grows from frame to frame |
| Lag.Converges | cursor-trail.js:121-153 | for every tolerance there is a frame count after which the follower is within it of its target |
| Lag.ConvergesAfter | cursor-trail.js:121-153 | `n` frames suffice once `n * gain * eps` exceeds the initial distance |
| Lag.HypotAbove | cursor-trail.js:130-145 | `Math.hypot(vx, vy) > 0.45` can be decided on squares |
| CursorTrail.ScaleTable | cursor-trail.js:87-97 | the scale target lies in `[0.88, 1.2]`; it is above 1 exactly over interactive elements and below 1 exactly when pressed elsewhere; pressing always lowers it |
| CursorTrail.MovingIffFast | cursor-trail.js:128-145 | the `is-moving` test on squared velocities agrees with `speed > 0.45` |
| CursorTrail.AtRest | cursor-trail.js:49-68 | the overlay's starting state: centred, scale 1, no tilt, bounce or look, and within every range |
| CursorTrail.NextMotionEases | cursor-trail.js:121-150 | one frame eases the position and the scale toward their targets without overshoot, leaves the targets alone, records the new position as the last one and clamps the tilt, bounce and look targets |
| CursorTrail.NextMotionBounded | cursor-trail.js:121-150 | frames keep the scale in `[0.88, 1.2]`, the tilt in `[-18, 18]`, the bounce in `[-16, 16]` and the look in `[-12, 12]` by `[-10, 10]` |
| CursorTrail.StillVelocity | cursor-trail.js:128-129 | a face that has reached the pointer has no velocity |
| CursorTrail.RestIsFixed | cursor-trail.js:248-250 | the first frame of a face at rest leaves it at rest |
| CursorTrail.SettledIsFixed | cursor-trail.js:121-150 | once the face has reached the pointer and its scale target, and the tilt, bounce and look have died down, a frame changes nothing |
| CursorTrail.RestIsStill | cursor-trail.js:145 | a face at rest is not marked as moving |
| CursorTrail.FramesPosition | cursor-trail.js:122-126 | without new input, the position after `n` frames is the geometric easing curve of gain 0.2 |
| CursorTrail.CatchesUp | cursor-trail.js:121-153 | once the pointer stops, the face gets within any distance of it on both axes after enough frames |
| CursorTrail.CursorOverlay.constructor | cursor-trail.js:2 | before evaluation no overlay exists and nothing is registered |
| CursorTrail.CursorOverlay.Tick | cursor-trail.js:121-153 | `animate`: the easing state advances one frame, `is-moving` follows the speed, the next frame is requested, the flags are kept and the invariant is restored |
| CursorTrail.CursorOverlay.Commit | cursor-trail.js:145-152 | the end of `animate`: the new easing state, the `is-moving` toggle and the next frame request; nothing else changes |
| CursorTrail.CursorOverlay.Frame | cursor-trail.js:152 | a pending frame runs `animate` and leaves the pending giggle timer as it was; with none pending nothing changes |
| CursorTrail.CursorOverlay.UpdateScaleForState | cursor-trail.js:87-97 | the scale target is 1.05, 1.2, 0.88 or 1 according to interactive and pressed; nothing else changes |
| CursorTrail.CursorOverlay.Show | cursor-trail.js:99-104 | the overlay becomes visible with its class added; nothing else changes |
| CursorTrail.CursorOverlay.Hide | cursor-trail.js:106-111 | the overlay becomes hidden with its class removed; nothing else changes |
| CursorTrail.CursorOverlay.TriggerGiggle | cursor-trail.js:113-119 | `is-giggling` is added and any pending giggle timer is replaced by one of the given duration |
| CursorTrail.CursorOverlay.GiggleExpires | cursor-trail.js:116-118 | the giggle timer firing removes `is-giggling` |
| CursorTrail.CursorOverlay.PointerMove | cursor-trail.js:155-182 | only mouse events act; the target becomes the pointer; interactive and reading follow the element under the pointer; entering an interactive element starts a 420 ms giggle; the overlay shows |
| CursorTrail.CursorOverlay.SetInteractive | cursor-trail.js:167-173 | the interactive flag and class follow the new value; only a false-to-true change triggers the giggle |
| CursorTrail.CursorOverlay.SetReading | cursor-trail.js:175-178 | the reading flag and class follow the new value; nothing else changes |
| CursorTrail.CursorOverlay.PointerDown | cursor-trail.js:199-209 | only mouse events act; the overlay is pressed; away from interactive elements it starts a 360 ms giggle |
| CursorTrail.CursorOverlay.PointerUp | cursor-trail.js:211-218 | only mouse events act; the overlay is no longer pressed; the classes other than `is-pressed` are kept |
| CursorTrail.CursorOverlay.PointerOut | cursor-trail.js:184-197 | non-mouse pointer types and moves to another element are ignored, and a missing type counts as a mouse; otherwise the giggle is cancelled and the interactive, reading, giggling and moving state is dropped, the overlay hides, and a press in progress is kept |
| CursorTrail.CursorOverlay.ResetStates | cursor-trail.js:220-228 | every transient state is dropped, the class list is empty and the scale target is back to 1 |
| CursorTrail.CursorOverlay.VisibilityChange | cursor-trail.js:230-234 | the document becoming hidden resets the transient state; becoming visible changes nothing |
| CursorTrail.CursorOverlay.WindowBlur | cursor-trail.js:236-238 | losing focus resets the transient state |
| CursorTrail.CursorOverlay.Enable | cursor-trail.js:13-75 | with no overlay and a body, a hidden overlay at rest in the viewport's centre is attached, listening, with its first frame run; otherwise nothing changes |
| CursorTrail.CursorOverlay.FirstFrame | cursor-trail.js:248-250 | the frame `enableCursor` runs itself leaves the overlay at rest and not moving |
| CursorTrail.CursorOverlay.Dispose | cursor-trail.js:252-265 | the frame and timer are cancelled, the listeners removed, the root class and the element removed |
| CursorTrail.CursorOverlay.Disable | cursor-trail.js:268-272 | afterwards no overlay exists; with none enabled nothing changes |
| CursorTrail.CursorOverlay.Evaluate | cursor-trail.js:274-284 | with a body, an overlay exists exactly when the capabilities allow it and an existing one is kept unchanged; without a body nothing happens |
| HeroScene.ClampToBox | three-background.js:171-175 | the hit point is clamped into `[-4.5, 4.5]` by `[-2.8, 3.6]`; points inside and the depth are kept, and points outside saturate |
| HeroScene.RetargetCursor | three-background.js:171-175 | a ray hit retargets the marker into the box; a miss leaves the target alone |
| HeroScene.FadeStaysWithin | three-background.js:219-244 | a marker opacity stays within `[0, peak]`; it never decreases while the pointer is live and never increases otherwise |
| HeroScene.FlowStaysWithin | three-background.js:255-259 | the flow opacity stays within `[0.18, 0.24]` |
| HeroScene.Follow3Approaches | three-background.js:216 | the marker gets no farther from its target on any axis, and stays in the box |
| HeroScene.Follow2Approaches | three-background.js:214 | the smoothed pointer gets no farther from the pointer on either axis |
| HeroScene.SpinTelescopes | three-background.js:190-191 | however the frames fall, a rotation grows by its rate times the seconds from the first timestamp to the last |
| HeroScene.FadedBounded | three-background.js:219-259 | frames keep all four opacities in range; while the pointer is live the marker's opacities only grow, otherwise they only shrink |
| HeroScene.GlowFadesOut | three-background.js:219-223 | after the pointer leaves, the glow decays geometrically, losing 12% of what is left each frame |
| HeroScene.Turned | three-background.js:246-248 | the wireframe shell always copies the orb's rotation |
| HeroScene.TurnedOverOrb | three-background.js:246-247 | each of the orb's angles integrates its own rate over the frames |
| HeroScene.OrbClosedForm | three-background.js:246-248 | over any frames, the orb turns exactly 0.12 rad/s about x and 0.2 rad/s about y, and the shell with it |
| HeroScene.TurnedOverShell | three-background.js:248 | after any frames the shell's rotation equals the orb's |
| HeroScene.RelitBetween | three-background.js:251-267 | the particle tilt, the lights and the camera each move toward their targets without overshoot |
| HeroScene.Scene.constructor | three-background.js:113-159 | the marker starts at rest at `(0, 0.8, 2.2)`, with its opacities 0, the flow at 0.18 and the lights at their initial positions |
| HeroScene.Scene.PointerMove | three-background.js:163-177 | the pointer's offset becomes the mouse target; a hit retargets the marker into the box; the pointer is live |
| HeroScene.Scene.PointerLeave | three-background.js:180-184 | the mouse target goes to 0, the marker target back to its rest point, and the pointer is no longer live |
| HeroScene.Scene.Frame | three-background.js:189-272 | a pending frame runs `animate`: the marker and smoothed pointer ease, the opacities fade, the rotations integrate, the lights follow, and the pointer state, targets and visibility are kept; with none pending nothing changes |
| HeroScene.Scene.Animate | three-background.js:189-272 | one frame: the marker and the smoothed pointer move toward their targets, the opacities fade, the rotations integrate the elapsed seconds, the lights and the camera follow, one render happens and the next frame is requested |
| HeroScene.Scene.Start | three-background.js:285-306 | a pending frame is cancelled; with reduced motion the marker is hidden and faded, the orb posed, one render done and no loop started; otherwise the clock restarts and one frame is requested; the pointer targets, the marker and the lights are untouched |
| HeroScene.Setup | three-background.js:3-8 | without the canvas and the container the script only warns; otherwise it builds and starts one scene |
| Decimal.ShowNumber | retro-interactions.js:137-139 | a counter written with `String(n)` reads back with `Number` as `n` |
| Decimal.PadStart | retro-interactions.js:24 | `padStart` pads in front to the width and keeps the text as its suffix |
| Decimal.FormatCount | retro-interactions.js:22-25 | the display is the count's decimal text padded with zeros to six characters; a missing count counts as 0 |
| Decimal.FormatCountReads | retro-interactions.js:22-25 | a non-negative count reads back from its display as itself; a missing count shows as `000000` |
| Sanitize.Without | retro-interactions.js:123 | removing a class of characters leaves none of them, keeps every other character that occurs, and never lengthens the text |
| Sanitize.Collapsed | retro-interactions.js:124 | collapsing keeps the non-whitespace characters in order; afterwards the only whitespace is single plain spaces, and no controls are introduced |
| Sanitize.CollapseRun | retro-interactions.js:124 | each maximal whitespace run between two pieces of text becomes exactly one space, and the pieces collapse on their own |
| Sanitize.TrimStart | retro-interactions.js:125 | trimming the start removes only whitespace and leaves a suffix that does not start with whitespace |
| Sanitize.TrimEnd | retro-interactions.js:125 | trimming the end removes only whitespace and leaves a prefix that does not end with whitespace |
| Sanitize.Trim | retro-interactions.js:125 | `trim()` removes only whitespace, from the two ends, and leaves a slice with no whitespace at either end |
| Sanitize.Take | retro-interactions.js:126 | `slice(0, n)` keeps the first `min(n, length)` elements |
| Sanitize.TrimTo | retro-interactions.js:125-126 | trimming and then slicing gives at most `n` characters, with no leading whitespace, and keeps any absence of controls and any space collapsing |
| Sanitize.SanitizeName | retro-interactions.js:121-127 | a cleaned name has at most 24 characters, no controls, only single plain spaces and no leading whitespace |
| Sanitize.SanitizeMessage | retro-interactions.js:129-134 | a cleaned message has at most 160 characters, none of the removed controls and no leading whitespace |
| Sanitize.WithoutNothing | retro-interactions.js:123 | removing characters that do not occur changes nothing |
| Sanitize.WithoutBlank | retro-interactions.js:131-132 | the text left after removal is blank exactly when every character was removed or was whitespace |
| Sanitize.TrimStartBlank | retro-interactions.js:125 | trimming the start leaves nothing exactly when the text is blank |
| Sanitize.TrimBlank | retro-interactions.js:125 | `trim()` leaves nothing exactly when the text is blank |
| Sanitize.MessageEmpty | retro-interactions.js:129-134 | a message cleans to nothing exactly when it holds only whitespace and controls other than TAB, LF and CR |
| Sanitize.TrimNothing | retro-interactions.js:125 | trimming text without whitespace at its ends changes nothing |
| Sanitize.CollapseNothing | retro-interactions.js:124 | collapsing text that only has single plain spaces changes nothing |
| Sanitize.NameFixed | retro-interactions.js:121-127 | a short, clean, trimmed name cleans to itself |
| Sanitize.MessageFixed | retro-interactions.js:129-134 | a short, clean, trimmed message cleans to itself |
| Guestbook.Anonymous | retro-interactions.js:173 | the stand-in name is never empty |
| Guestbook.DisplayName | retro-interactions.js:173 | the shown name is the cleaned name, or the anonymous name when that is empty, and never empty |
| Guestbook.NormalizeEntry | retro-interactions.js:188-198 | a remote entry gives an entry exactly when its message does not clean to nothing; that entry is well formed and holds the displayed name (the anonymous name when the cleaned name is empty), the cleaned message and the normalised time |
| Guestbook.NormalizeItem | retro-interactions.js:188-200 | each element gives at most one well-formed entry, and exactly one when it has a message |
| Guestbook.NormalizeAll | retro-interactions.js:187-200 | the map and filter give at most one well-formed entry per element |
| Guestbook.NormalizeMessages | retro-interactions.js:185-202 | no array gives `[]`; a `null` element throws; otherwise the first 20 normalised entries in input order, all well formed |
| Guestbook.NormalizeEach | retro-interactions.js:185-202 | up to 20 remote entries, none `null` and each with a message, give one entry each, in order, with the displayed name, cleaned message and normalised time |
| Guestbook.NormalizeAllAppend | retro-interactions.js:187-200 | normalising keeps the input's order: it distributes over concatenation |
| Guestbook.LoadItem | retro-interactions.js:171-177 | each stored element gives at most one well-formed entry, and none when it belongs to another language |
| Guestbook.LoadAll | retro-interactions.js:170-177 | the filters and map give at most one well-formed entry per element |
| Guestbook.LoadMessages | retro-interactions.js:164-183 | the loaded guestbook has at most 20 well-formed entries; nothing stored, or text that is not an array, gives `[]` |
| Guestbook.LoadAllAppend | retro-interactions.js:170-178 | loading keeps the stored order: it distributes over concatenation |
| Guestbook.ForeignIgnored | retro-interactions.js:171 | entries of another language contribute nothing |
| Guestbook.Records | retro-interactions.js:152-157 | one record per entry, none of them `null` |
| Guestbook.Payload | retro-interactions.js:150-158 | the save writes the first 20 entries, one record each, none `null` |
| Guestbook.LoadShown | retro-interactions.js:171-176 | an entry of the page's language with a message loads with its cleaned name, cleaned message and time |
| Guestbook.LoadRecord | retro-interactions.js:152-177 | a record of an entry that cleans to itself and has a non-zero time loads back as that entry |
| Guestbook.SettledFixed | retro-interactions.js:121-134 | a settled entry's name and message clean to themselves |
| Guestbook.LoadRecords | retro-interactions.js:152-177 | records of settled entries load back as those entries, in order |
| Guestbook.LoadAfterSave | retro-interactions.js:150-183 | saving settled entries and loading them back gives the first 20 of them |
| RetroSite.KeysDistinct | retro-interactions.js:3-8 | the visit, clap and guestbook keys never collide, and a per-language key names one language |
| RetroSite.ReadCount | retro-interactions.js:137 | a missing key, or a value that is not a number, reads as 0; stored numeric text reads as its number |
| RetroSite.Written | retro-interactions.js:139 | `setItem` adds exactly its key |
| RetroSite.WrittenReads | retro-interactions.js:139 | a written counter reads back as itself, and every other key is untouched |
| RetroSite.BumpedReads | retro-interactions.js:136-148 | an increment raises its own counter by exactly one and leaves every other key alone |
| RetroSite.SyncedBook | retro-interactions.js:204-208 | the guestbook a sync writes loads back as its first 20 entries when they are settled |
| RetroSite.SyncedReads | retro-interactions.js:204-208 | after a sync both counters read back as the page's own, and every other key is untouched |
| RetroSite.Remote | retro-interactions.js:10-13 | the endpoint is used only when one is configured |
| RetroSite.RemoteIff | retro-interactions.js:10-13 | the endpoint is used exactly when one is configured and it is not blank |
| RetroSite.Prepended | retro-interactions.js:304 | a local submit puts the new entry first and keeps at most 20 |
| RetroSite.PrependedKeeps | retro-interactions.js:304 | the older entries follow the new one in order, up to 19 of them |
| RetroSite.Site.constructor | retro-interactions.js:12-20 | the counters are read from storage, the guestbook starts empty, and `remote` is whether an endpoint is configured |
| RetroSite.Site.LocalIncrementVisit | retro-interactions.js:136-141 | returns the stored visit count plus one and stores it |
| RetroSite.Site.LocalIncrementClap | retro-interactions.js:143-148 | returns the stored clap count plus one and stores it |
| RetroSite.Site.LocalSaveMessages | retro-interactions.js:150-162 | the guestbook key holds the payload of the entries; nothing else changes |
| RetroSite.Site.SyncLocalState | retro-interactions.js:204-208 | both counters and the guestbook are written |
| RetroSite.Site.TakeMessages | retro-interactions.js:220-223 | a reply's guestbook is normalised, shown and synced; a throw leaves the shown guestbook and storage as they were |
| RetroSite.Site.LocalSubmit | retro-interactions.js:299-306 | the new entry goes in front of the stored guestbook, capped at 20, and is shown and saved |
| RetroSite.Site.Loaded | retro-interactions.js:320-323 | on page load the stored guestbook is shown |
| RetroSite.Site.HandleVisit | retro-interactions.js:210-235 | with a reply: the numeric counters and the normalised guestbook are taken and storage is synced. Without one: the endpoint is turned off, the visit is counted locally, and the stored clap count and guestbook are shown |
| RetroSite.Site.Clap | retro-interactions.js:241-269 | with a reply: its clap count is taken, or one is added when it is not a number, and its visit count is taken when it is a number. Without one: the clap is counted locally. Storage is synced either way and the guestbook is kept |
| RetroSite.Site.Post | retro-interactions.js:288-307 | with a reply: its normalised guestbook is shown and synced. Without one: the endpoint is turned off and the new entry is prepended locally and saved |
| RetroSite.Site.Submit | retro-interactions.js:276-308 | a message that cleans to nothing changes nothing; otherwise the entry with its cleaned or anonymous name is posted |

## Left out

- The DOM: element creation, inline style properties (`applyTransform`), the rendering of counters and messages (`updateCounterDisplay`, `updateClapDisplay`, `renderMessages`, `formatDate`, `createTextOutput`) and `form.reset()`. These are output only, so the model keeps the values they would show.
- The rendering library: geometry, materials, fog, the renderer, `handleResize`, the camera ray and `lookAt`. The ray's hit on the pointer plane is the parameter `hit`.
- The pointer's angular offset `(x - 0.5) * Math.PI * 0.1` is taken as already computed, because π is not a Dafny real.
- The particles' trigonometric orbit and the halo's sine-based pulsing scale are left out, because Dafny reals have no sine or cosine.
- HeroScene.Scene.Animate: the fallback `|| 0` for a `NaN` frame interval is not modelled, because real timestamps never give `NaN`.
- Subscribing to media-query changes (`subscribe`, `DOMContentLoaded`, `prefersReducedMotion`'s `change` event) is left out. A change is a call to `Evaluate` or `Start`.
- The clap button's `disabled` flag and its 260 ms `clap-button--active` class are left out, because they only affect presentation.
- The request itself (`fetch`, JSON encoding of the body, HTTP status) is left out. A handler is given the reply, or `None` for any failure.
- Decimal.ShowNumber: `Number` is modelled only on optional-minus-and-digits text, which is all the page writes. Whitespace, exponents and fractions read as not a number, and counters are integers.
- Guestbook.NormalizedTime: a truthy timestamp that is not a number (a date string, say) is taken to be an invalid date, because date parsing is not modelled.
- Guestbook.StoredTime: a stored timestamp that is not a number reads as `Date.now()`, because string-to-number conversion of stored fields is not modelled.
- Text fields are a string or absent. A stored name or message that is a number or an object is not modelled, because `String()` of such values is not modelled.
- Sanitize.Take, Sanitize.TrimTo, Sanitize.SanitizeName, Sanitize.SanitizeMessage: characters are Unicode scalar values, while JavaScript's `slice` counts UTF-16 code units. For text outside the Basic Multilingual Plane (emoji, say) the 24- and 160-character limits therefore keep more characters than the page does, and never split a surrogate pair. Within that plane the two counts agree.
- The page language is a parameter. `document.documentElement.lang` and `toLowerCase()` are not modelled.
- `localStorage` quota and access errors are left out: every `setItem` is taken to succeed. Only `localSaveMessages` catches such an error. The unguarded writes in `localIncrementVisit`, `localIncrementClap` and `syncLocalState` would throw and stop the visit, clap or submit handler partway through, and the model does not capture that.
- RetroSite.BumpedReads, RetroSite.Site.LocalIncrementVisit, RetroSite.Site.LocalIncrementClap, Decimal.ShowNumber, Decimal.FormatCountReads: counters are unbounded integers. JavaScript counters are doubles: from 2^53 on, `current + 1` no longer changes the count, and from 1e21 on `String(n)` writes an exponent. These contracts are exact only below those sizes.
- Each handler runs as one atomic step. In the page, the remote handlers yield at `await sendRequest`, so a second submit or clap can run while the first is pending. That interleaving is not modelled.
- The remote server's behaviour is not part of this model.
- RetroSite.Site.HandleVisit, RetroSite.Site.Post: an exception thrown by `normalizeMessages` (a `null` in the reply's guestbook) rejects the handler's promise. The model stops the handler at that point, keeping the counters already taken.
- `sanitize` is not idempotent. Slicing after trimming can leave a trailing space, as in a 23-letter word followed by " b". So the load-after-save round trip (Guestbook.LoadAfterSave) is stated for settled entries only, those that already clean to themselves.
- `HeroScene.Scene.PointerMove` takes every pointer type: unlike the cursor overlay, `three-background.js` does not filter on `pointerType`.
