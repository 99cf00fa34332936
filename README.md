# Particle field background and page toggles, modelled in Dafny

The site's hero section has an animated canvas background. Eighty particles
drift across the surface and bounce off its edges. Every pair closer than
150 pixels is joined by a faint line, and the line fades out with distance.
The engine exists in two copies that differ only in their constants and
in the element that gives the surface its size:

- `static/js/script.js` sizes the surface from the canvas's parent and uses speed 0.8;
- the older `script.js` sizes it from the `.hero` section and uses speed 0.3.

This project models that engine once and instantiates it with each copy's
constants. Alongside it sit the decision rules of the page's light/dark theme
toggle and its Portuguese/English language toggle.

Modules:

- `Particles` (`particles.dfy`) contains:
  - the configuration record;
  - a particle's value;
  - its creation from six random draws (`Spawn`);
  - one frame of motion with per-axis reflection (`Advance`);
  - the `Particle` class, which holds the same state in mutable fields.
- `Links` (`links.dfy`) contains:
  - the connection rule: strictly below the threshold, with opacity `(1 - d/cd) * 0.2`;
  - the specification of the lines one frame records (`FrameLinks`);
  - the lemmas that characterise those lines.
- `ParticleField` (`field.dfy`) contains:
  - the `Field` class: surface size and particle collection, with `Resize`, `Init`, `OnResize` and `Frame`;
  - the start-up of each copy.
- `Toggles` (`toggles.dfy`) models the theme and language decisions. They are pure functions over a key-value store modelled as a map.

The two copies share one model. The rows below cite `static/js/script.js`. The same members model the older copy's lines:

- `Field.Resize` models script.js:15-21, with the `.hero` section as the container;
- `Particle.constructor` and `Particle.Update` model script.js:24-40;
- `Field.Init` models script.js:50-56;
- `Field.Frame`, `Field.Step` and `Field.ScanRow` model script.js:58-83;
- `Field.OnResize` models script.js:88-91.

Three details of the code are easy to misread, and the model follows the code in each:

- **Which positions a frame compares.** A frame moves particle `i` and then compares it with every later particle `j`. Those later particles have not moved yet in this frame. So pair `(i, j)` is compared with `i` after its move and `j` before its move. `FrameLinks` states exactly this.
- **Open upper bounds.** `Math.random()` lies in [0, 1). So spawn positions, velocities, sizes and alphas lie in half-open intervals, e.g. size in [1.5, 3.5) and vx in [-0.4, 0.4).
- **Stored values.** A stored theme or language counts only when the key is present and its value is a non-empty string. This matches JavaScript truthiness.

## Model

| member | source | states |
|---|---|---|
| `Particles.SpawnRanges` | static/js/script.js:23-30 | from draws in [0,1): x in [0,w) (0 when w is 0), y likewise, vx and vy in [-speed/2, speed/2), size in [sizeMin, sizeMin+spread), alpha in [alphaMin, alphaMin+spread) |
| `Particles.SpawnPlaceWithin` | static/js/script.js:24-25 | a spawned position lies in [0, width) × [0, height), or on 0 for an empty extent |
| `Particles.SpawnLookWithin` | static/js/script.js:28-29 | a spawned size and alpha lie in their configured half-open ranges |
| `Particles.SpawnSpeedWithin` | static/js/script.js:26-27 | each spawned velocity component lies in [-moveSpeed/2, moveSpeed/2) |
| `Particles.ScaleWithin` | static/js/script.js:24 | a draw in [0,1) times an extent e ≥ 0 lies in [0, e], and strictly below e when e > 0 |
| `Particles.CenteredWithin` | static/js/script.js:26 | `(r - 0.5) * s` lies in [-s/2, s/2) for r in [0,1) |
| `Particles.AdvanceLaw` | static/js/script.js:32-38 | one frame adds exactly vx to x and vy to y, keeps \|vx\| and \|vy\|, never changes size or alpha, and negates a non-zero velocity component exactly when the moved coordinate is outside [0, limit] |
| `Particles.AxisStepKeepsNear` | static/js/script.js:33-37 | per axis: a coordinate at most one step outside [0, limit], moving back in when outside, stays so after a move and reflection |
| `Particles.AdvanceKeepsNearBox` | static/js/script.js:32-38 | the overshoot invariant holds on both axes after every frame, for any non-negative surface size |
| `Particles.RunStaysNearBox` | static/js/script.js:32-38 | after any number of frames in an unchanged box the overshoot invariant still holds, and speed magnitudes, size and alpha are unchanged |
| `Particles.SpawnedStaysInBand` | static/js/script.js:23-38 | a spawned particle stays within half the move speed of the box in every later frame, and keeps its size and alpha |
| `Particles.ReflectionLaw` | static/js/script.js:33-36 | a particle 0.1 left of the right edge moving at 0.5 overshoots the edge and flips its velocity, then moves back inside without flipping again (the position is never clamped) |
| `Particles.Particle.constructor` | static/js/script.js:23-30 | a new particle object holds exactly the state `Spawn` computes from its six draws |
| `Particles.Particle.Update` | static/js/script.js:32-38 | updating in place turns the particle's state into `Advance` of its old state |
| `Links.Dist2NonNegative` | static/js/script.js:65-67 | the squared distance `dx*dx + dy*dy` is non-negative |
| `Links.RootBelowIffSquareBelow` | static/js/script.js:67-69 | for d ≥ 0 and positive cd: d < cd exactly when d² < cd² |
| `Links.CloseIffSquared` | static/js/script.js:67-69 | with a true square root, a pair is connected exactly when its squared distance is strictly below the threshold squared |
| `Links.RatioBelowOne` | static/js/script.js:71 | for 0 ≤ d < cd the ratio d/cd lies in [0,1) and is 0 only for d = 0 |
| `Links.OpacityRange` | static/js/script.js:71-72 | a drawn line's opacity lies in (0, 0.2] and equals 0.2 exactly at distance 0 |
| `Links.OpacityDecreasing` | static/js/script.js:71-72 | opacity strictly decreases as the distance grows |
| `Links.DistanceMatrix` | static/js/script.js:59-67 | a frame's distance table is square, with one row per particle |
| `Links.RowLinksSound` | static/js/script.js:63-72 | every link of row i joins i to a later column below the bound whose distance is under the threshold, with that distance's opacity |
| `Links.RowLinksIndices` | static/js/script.js:63 | every link of row i starts at i and ends at a column strictly between i and the bound |
| `Links.RowLinksOrdered` | static/js/script.js:63 | a row lists its links by increasing column |
| `Links.RowLinkRecorded` | static/js/script.js:63-72 | every close later column of row i has its link in the row |
| `Links.RowLinksAgree` | static/js/script.js:63-67 | a row depends only on the distances of the columns after its own index |
| `Links.AppendOrdered` | static/js/script.js:59-63 | two ordered link lists, each link of the first preceding each link of the second, concatenate to an ordered list |
| `Links.MatrixLinksSound` | static/js/script.js:59-79 | every link of the first n rows starts in one of them and is a valid line of its row |
| `Links.MatrixLinksRows` | static/js/script.js:59-63 | every link of the first n rows starts in one of those rows |
| `Links.MatrixLinksOrdered` | static/js/script.js:59-79 | the links of the first n rows come in strictly increasing (i, j) order |
| `Links.MatrixLinkRecorded` | static/js/script.js:59-79 | every valid line of one of the first n rows is among their links |
| `Links.FrameLinksStep` | static/js/script.js:59-63 | one more row of the forEach appends exactly that row's links |
| `Links.FrameLinksExact` | static/js/script.js:59-79 | a frame records pair (i, j), i < j, exactly when moved particle i is strictly closer than the threshold to unmoved particle j, with the opacity of that distance; every link has i < j; links are in increasing (i, j) order; no unordered pair appears twice |
| `ParticleField.ResizeIdempotent` | static/js/script.js:14-20 | sizing against a container takes its size, a missing container leaves the size as it was, and sizing twice is sizing once (so the handler's double call at lines 84-87 is harmless) |
| `ParticleField.InitialStates` | static/js/script.js:48-54 | reinitialisation creates exactly particleCount particles |
| `ParticleField.AdvanceAll` | static/js/script.js:59-60 | a frame moves every particle, keeping the count |
| `ParticleField.AdvanceKeepsSettled` | static/js/script.js:32-38 | a settled particle (near the box, speed at most half the move speed, size and alpha in range) stays settled after a frame |
| `ParticleField.AdvanceAllKeepsSettled` | static/js/script.js:59-60 | a frame keeps every particle of a field settled |
| `ParticleField.InitialStatesSettled` | static/js/script.js:48-54 | every particle a reinitialisation creates is settled |
| `ParticleField.StaticSpawnRanges` | static/js/script.js:10-12 | with this copy's constants: vx, vy in [-0.4, 0.4), size in [1.5, 3.5), alpha in [0.4, 0.9), position in the surface |
| `ParticleField.HeroSpawnRanges` | script.js:25-30 | with the older copy's constants: vx, vy in [-0.15, 0.15), size in [1, 3), alpha in [0.2, 0.7), position in the surface |
| `ParticleField.StaticStaysInBand` | static/js/script.js:12-38 | with this copy's speed 0.8, a particle stays within 0.4 of the surface on both axes in every later frame |
| `ParticleField.HeroStaysInBand` | script.js:12-40 | with the older copy's speed 0.3, a particle stays within 0.15 of the surface on both axes in every later frame |
| `ParticleField.DistinctApart` | static/js/script.js:50-53 | particle objects at two different positions of the collection are different objects |
| `ParticleField.DistinctAppend` | static/js/script.js:52 | pushing an object not yet in the collection keeps every object distinct |
| `ParticleField.Field.constructor` | static/js/script.js:6-7 | before the first sizing the surface is 0 by 0 and the collection is empty |
| `ParticleField.Field.Resize` | static/js/script.js:14-20 | the surface takes the container's size when there is one and keeps its old size otherwise |
| `ParticleField.Field.Init` | static/js/script.js:48-54 | after sizing, the collection holds exactly particleCount newly created objects (none of the old ones) whose states are the initial states of the draws, all settled |
| `ParticleField.Field.AllSpawned` | static/js/script.js:51-53 | once every particle is created, the field's states are the spawned states |
| `ParticleField.Field.OnResize` | static/js/script.js:84-87 | the resize handler leaves the same field as a single reinitialisation |
| `ParticleField.Field.ScanRow` | static/js/script.js:63-78 | the inner loop returns the links of row i computed from the current positions |
| `ParticleField.Field.Step` | static/js/script.js:59-79 | one forEach iteration moves particle i in place, leaves every other particle unchanged, and returns row i of the frame specification |
| `ParticleField.Field.AllMoved` | static/js/script.js:59-60 | once every particle has moved, the field holds the old states advanced by one frame |
| `ParticleField.Field.SettledAfterFrame` | static/js/script.js:59-60 | a field settled before a frame is settled after it |
| `ParticleField.Field.Frame` | static/js/script.js:59-79 | one frame advances every particle exactly once, returns exactly the links `FrameLinks` specifies for the states before the frame, and keeps a settled field settled |
| `ParticleField.Start` | static/js/script.js:3-90 | without a canvas nothing happens; otherwise a field is sized, initialised and animated once, its particles settled, and the first frame's links are those of the spawned states |
| `ParticleField.StartStatic` | static/js/script.js:3-90 | the engine with this copy's constants, sized by the canvas's parent |
| `ParticleField.StartHero` | script.js:2-94 | the older copy with its constants, sized by the `.hero` section; it returns early when the canvas is missing |
| `Toggles.SavedAfterWrite` | static/js/script.js:98-117 | a stored value is read back as written when it is non-empty and as nothing saved when empty (JavaScript truthiness of `getItem`); writing one key leaves the others as they read |
| `Toggles.ThemeOnLoad` | static/js/script.js:97-109 | on load a saved theme is used; otherwise dark when the system prefers it; otherwise the page is left unchanged; when a theme was applied, the button (if any) shows the moon exactly for dark |
| `Toggles.SavedThemeWins` | static/js/script.js:103-109 | with a theme saved, the system preference has no effect |
| `Toggles.ToggleInvolution` | static/js/script.js:113-114 | `Toggled` always gives dark or light, and two toggles give back dark or light; from any other state they land on light |
| `Toggles.ClickedThemeRestored` | static/js/script.js:97-119 | the theme a click (`ThemeClick`) shows and stores is the one a reload shows, whatever the system prefers |
| `Toggles.ThemeClickTwice` | static/js/script.js:112-119 | two clicks from dark or light restore the page's theme and leave it stored |
| `Toggles.IconAgreesAlways` | static/js/script.js:103-126 | loading keeps the button icon in agreement with the theme, and a click (`ThemeClick`) always leaves the page on dark or light with the moon shown exactly for dark |
| `Toggles.LanguageInvolution` | static/js/script.js:273-274 | `NextLanguage` gives back "pt" or "en" after two clicks; from any other language two clicks land on "en" |
| `Toggles.TranslateOnlyKnownKeys` | static/js/script.js:252-256 | `Translate` replaces an element's content by the translation exactly when the language has a non-empty text for its key, and leaves it exactly as it was otherwise |
| `Toggles.TranslateIdempotent` | static/js/script.js:250-257 | translating twice into the same language is translating once |
| `Toggles.LanguageOnLoad` | static/js/script.js:250-269 | on load the language in force (the saved one, else "pt") is applied: elements translated into it, document language "pt-BR" and button "PT" exactly for Portuguese, and it is stored |
| `Toggles.LanguageClick` | static/js/script.js:250-276 | a click, which exists only with the button, stores the next language of the one in force, translates the elements into it, and sets document language "pt-BR" and button "PT" exactly when that next language is Portuguese |
| `Toggles.LanguageClickTwice` | static/js/script.js:267-276 | after load, two clicks restore the language in force and the document language, for Portuguese and English |
| `Toggles.SetLanguageStored` | static/js/script.js:250-265 | `SetLanguage` with a non-empty language stores it so that the next load or click reads it back, and leaves the document language and the button text agreeing with it |
| `Toggles.LanguageStaysInSync` | static/js/script.js:267-276 | after load and after every click, the document language is "pt-BR" and the button reads "PT" exactly when the stored language in force is Portuguese |

## Left out

- Canvas drawing is not modelled: `clearRect`, `arc`, `fill`, `stroke` and the colour strings. A frame returns the lines it would stroke as `Link(i, j, opacity)` values instead.
- `requestAnimationFrame` scheduling is not modelled, nor are the `DOMContentLoaded` and `resize` listeners. One frame is `Field.Frame`. The resize handler is `Field.OnResize`, called by whoever models the event.
- `Math.random` and `Math.sqrt` are not modelled as functions:
  - the random numbers are a `draws` argument of six reals per particle, in the order x, y, vx, vy, size, alpha;
  - the square root is a `sqrt` argument;
  - lemmas that need its meaning require `IsSqrt(sqrt)`.
- IEEE-754 rounding is not modelled: coordinates are exact reals.
- A surface that was never sized has `undefined` width and height in the source. Spawning against it gives NaN positions. The model uses 0 by 0 for that state.
- The canvas rendering context is not modelled. `getContext` returning null is not modelled either.
- The email form submission at static/js/script.js:279-313 is not modelled. It is a third-party network call.
- The translation strings at static/js/script.js:131-248 are not modelled. `Translations` is an argument, and only the lookup rule is modelled.
- `localStorage`, `matchMedia` and writes to `innerHTML`/`textContent`/`lang` are not modelled. The store is a `map<string, string>`, the system preference is a `bool`, and the page parts are values that each decision returns.
