# Pixel animation engine, modelled in Dafny

This project models the deterministic core of the 64x64 LED-matrix pixel-art
animation system in `public/animations.js`. It covers five parts:

- **Engine.** `PixelAnimationEngine` is a class whose methods update the active
  animation reference, the frame counter, the animation name, the last frame
  time and the hue shift in place:
  - `startAnimation` selects a variant by name;
  - `setHueShift` sets the shift and passes it on;
  - `gameLoop` is the frame-gated playback step;
  - `getAnimationMatrix` is the save/run/restore sampler;
  - `setMatrixUpdateCallback` registers the observer.
- **Ten animation variants.** The engine's `switch` recognises ten names. Each
  variant is a class with its own fields. For Pac-Man, Space Invaders, the
  Mario fireball, the neon grid and the synth car, `update()` is a method
  proved against a pure step function over a value snapshot of those fields.
  The step functions carry the invariants and the closed forms. The Pac-Man
  dots and the invader grid are arrays that `update()` changes in place. For
  the Zelda heart, the sunset, the mountains, the cityscape and the digital
  rain only the frame counter is modelled. Their `update()` promises only
  that the counter rises by one.
- **Dispatch.** The `Animations` module holds the closed set of names and a
  `Variant` datatype that holds a reference to one live instance. It also
  holds a `Snapshot` value that `Advance`/`AdvanceN` step through `update()`.
- **Raster extraction.** `getPixelMatrix` turns the 16384-byte RGBA buffer of
  the canvas into a 64x64 row-major matrix of `{r, g, b}`.
- **Colour.** The model covers:
  - `rgbToHex`;
  - the `parseInt(…, 16)` hex parse at the top of `shiftHue`;
  - the `hueShift === 0` identity path of `shiftHue`;
  - the `getColor` indirection that every variant draws through.

Quantities that move in half-pixel steps are kept in half-pixel integers.
These are Pac-Man's and the fireball's `x` (1.5 pixels per update), the
fireball's vertical `bounceHeight` (1.5) and the grid's `gridOffset` (0.5).
Every step is then an exact integer step.

A frame is due when `timestamp - lastFrameTime >= 1000 / 15`. The model states this as `15 * (timestamp - lastFrameTime) >= 1000`.

The model follows the code in these places:

- **Unrecognised name.** `startAnimation` with a name no case matches does not
  make the engine idle. It keeps the previously active instance, still
  overwrites `currentAnimationType`, and still resets `animationFrame` to 0.
  So `getAnimationMatrix` with an unrecognised name advances the live
  instance itself `frameNumber` times. Only the reference, the frame counter
  and the name are restored, not the instance's fields.
  `PixelAnimationEngine.GetAnimationMatrix` states both cases.
- **Return value.** The engine's `getAnimationMatrix` always returns a matrix.
  Only the global wrapper returns `null`, and only when no engine exists.
- **Identity colour path.** `shiftHue` takes its identity path only for a
  shift that is exactly `0`. A shift of 360 goes through the HSL conversion.

## Model

| member | source | states |
|---|---|---|
| `Color.RgbToHexFormat` | public/animations.js:1101-1104 | for r, g, b in 0..255, `rgbToHex` gives 7 characters: `#` and six upper-case hex digits |
| `Color.RgbToHex` | public/animations.js:1101-1104 | for any non-negative channels the result starts with `#`, has at least 7 characters, and every other character is an upper-case hex digit |
| `Color.Base16` | public/animations.js:1102 | `toString(16).toUpperCase()` gives at least one character, all upper-case hex digits |
| `Color.Base16Value` | public/animations.js:1102 | read back in radix 16, the digits `toString(16)` writes denote n |
| `Color.PadStart2` | public/animations.js:1102 | `padStart(2, "0")` fills shorter strings with leading `0`s up to length 2, the original as suffix, and leaves strings of length 2 or more unchanged |
| `Color.ToHex` | public/animations.js:1102 | `toHex(n)` is at least two upper-case hex digits |
| `Color.ParseToHex` | public/animations.js:100-102 | `parseInt(toHex(n), 16)` gives n back for every non-negative integer, the padding zero included |
| `Color.ToHexByte` | public/animations.js:1102 | `toHex(n)` of a byte is exactly two upper-case digits: the high nibble, then the low nibble (`padStart` supplies the leading `0`) |
| `Color.ParseTwoDigits` | public/animations.js:100-102 | `parseInt` in base 16 of a two-digit group gives back 16·hi + lo |
| `Color.ParseInt16` | public/animations.js:100-102 | on a non-empty string of upper-case hex digits, `parseInt(s, 16)` is the value those digits denote |
| `Color.Substr` | public/animations.js:100-102 | `substr(start, length)` keeps `length` characters, fewer at the end of s and none past it, and character i is character start + i of s |
| `Color.HexChannels` | public/animations.js:99-102 | for a 7-character string starting with `#`, the three channels are `parseInt` of characters 1-2, 3-4 and 5-6 |
| `Color.FormatThenParse` | public/animations.js:99-102 | the hex parse of `shiftHue` applied to `rgbToHex(r, g, b)` gives r, g and b back, before the division by 255 |
| `Color.GroupsOfFormatted` | public/animations.js:99-102 | after the `#` is removed, the three channels `shiftHue` parses are the three two-character groups in order |
| `Color.HexColorIsFormatted` | public/animations.js:1101-1104 | every `#RRGGBB` string with upper-case digits is what `rgbToHex` writes for the three bytes its digit pairs denote |
| `Color.PairIsFormatted` | public/animations.js:1102 | each upper-case digit pair of a hex colour is `toHex` of the byte it denotes |
| `Color.ParseThenFormat` | public/animations.js:99-102 | converse: every `#RRGGBB` string with upper-case digits parses to three bytes that `rgbToHex` writes back as the same string |
| `Color.ShiftHue` | public/animations.js:95-102 | `shiftHue(c, h)` takes the identity path exactly when h is 0; otherwise it takes the HSL branch from the parsed channels |
| `Color.GetColor` | public/animations.js:223-227 | `getColor` takes the identity path exactly when no engine is attached or the shift is 0; otherwise it takes the HSL branch of `shiftHue` |
| `Color.ShiftHexColor` | public/animations.js:95-102 | for an upper-case `#RRGGBB` colour, as every call site passes, a nonzero shift starts the HSL branch from the three bytes the digit pairs denote |
| `Color.GetColorIdentity` | public/animations.js:223-227 | with a zero shift or no engine, `getColor` is the identity |
| `Color.FirstHash` | public/animations.js:99 | the position `replace` matches: no `#` before it, and a `#` at it unless the string has none |
| `Color.RemoveFirstHash` | public/animations.js:99 | `replace("#", "")` deletes exactly the first `#`, keeping everything before and after it; a string without `#` is unchanged |
| `Color.TrimStart` | public/animations.js:100-102 | `parseInt` skips leading white space: the dropped prefix is all white space and the rest is a suffix that does not start with white space |
| `Color.DigitRun` | public/animations.js:100-102 | `parseInt` reads the longest run of hex digits, stopping at the first character that is not one |
| `Raster.GetPixelMatrix` | public/animations.js:35-53 | exactly 64 rows of 64 entries; entry [y][x] takes bytes (y·64+x)·4, +1 and +2 as r, g, b; the loops build `MatrixOf(data)` |
| `Raster.MatrixOf` | public/animations.js:35-53 | exactly 64 rows of 64 entries; entry [y][x] is the bytes at (y·64+x)·4, +1 and +2 |
| `Raster.ByteIndexInBounds` | public/animations.js:43-47 | every byte read, up to the blue byte of pixel (63, 63), is below 64·64·4, at a multiple of 4 plus 0, 1 or 2 |
| `Raster.ChannelsAreBytes` | public/animations.js:44-48 | on a buffer of bytes every channel of every entry is in 0..255 |
| `Raster.AlphaIgnored` | public/animations.js:44-48 | the alpha byte is dropped: buffers that differ only in alpha give the same matrix |
| `Raster.ByteIndexInjective` | public/animations.js:43 | the offset of the red byte determines (x, y), so distinct entries read distinct bytes |
| `Pacman.PacmanAnimation.constructor` | public/animations.js:207-221 | x = -16, y = 28, mouth open, count 0, and the loop pushes 7 uneaten dots at x = 8, 16, …, 56 and y = 32 |
| `Pacman.Initial` | public/animations.js:207-221 | the constructor's state keeps the reachable-state invariant, has count 0 and no dot eaten |
| `Pacman.PacmanAnimation.Update` | public/animations.js:229-250 | the fields and the dots array, changed in place, become `Step` of their old values; `hueShift` and the engine link stay |
| `Pacman.Step` | public/animations.js:229-250 | the count rises by exactly 1; the mouth flips exactly when the new count is a multiple of 5; x moves 1.5 or wraps to -16 |
| `Pacman.StepDot` | public/animations.js:239-249 | after an update a dot is eaten exactly when there is no wrap and it was eaten already or the new x is within reach (`abs(x + 8 - dot.x) < 6`); its position stays |
| `Pacman.EatenStaysEatenUntilWrap` | public/animations.js:239-249 | an eaten dot stays eaten until the wrap, and the wrap makes every dot uneaten again |
| `Pacman.StepInv` | public/animations.js:229-250 | the dot layout and -16 ≤ x ≤ 80 are preserved by every update |
| `Pacman.ReachableX` | public/animations.js:229-250 | after n updates x = -16 + 1.5·(n mod 65) |
| `SpaceInvaders.SpaceInvadersAnimation.constructor` | public/animations.js:303-323 | the nested loops push a 3x5 grid in row order: x = col·12+4, y = row·10+8, alive, type = row; the player is at (28, 54) |
| `SpaceInvaders.Initial` | public/animations.js:303-323 | the constructor's state keeps the grid and player invariant and has count 0 |
| `SpaceInvaders.SpaceInvadersAnimation.Update` | public/animations.js:331-351 | the count, the player and the invaders array, changed in place, become `Step` of their old values |
| `SpaceInvaders.Step` | public/animations.js:331-351 | the count rises by exactly 1; the number of invaders and the player's y stay |
| `SpaceInvaders.JsRem` | public/animations.js:349 | JavaScript `%` truncates toward zero: r = a - n·q with q = trunc(a/n), r has the sign of the dividend (or is 0) and -n < r < n; on non-negative operands it is the mathematical remainder |
| `SpaceInvaders.JsQuot` | public/animations.js:349 | the truncated quotient has the sign of the dividend, or is 0 |
| `SpaceInvaders.StepMovesOnSchedule` | public/animations.js:335-350 | invaders change only on frames divisible by 30, and dead ones never move; invader x, `alive` and `type` never change; the player changes only on frames divisible by 45, and only in x |
| `SpaceInvaders.StepInv` | public/animations.js:335-350 | invader y stays in [8, 50] and player x in [8, 55] |
| `ZeldaHeart.ZeldaHeartAnimation.constructor` | public/animations.js:402-409 | frame count 0, shift 0, no engine |
| `ZeldaHeart.ZeldaHeartAnimation.Update` | public/animations.js:417-418 | the frame count rises by exactly 1 |
| `MarioFireball.MarioFireballAnimation.constructor` | public/animations.js:471-480 | x = -12, y = 44, bounce height 0, direction -1, count 0 |
| `MarioFireball.Initial` | public/animations.js:471-480 | the constructor's state keeps the invariant, has count 0, bounce height 0 and direction -1 |
| `MarioFireball.MarioFireballAnimation.Update` | public/animations.js:488-506 | the fields become `Step` of their old values |
| `MarioFireball.Step` | public/animations.js:488-506 | `bounceHeight` is never positive after an update, whatever the state before; the count rises by 1 |
| `MarioFireball.StepInv` | public/animations.js:488-506 | -12 ≤ x ≤ 76, direction ±1, bounce height in [-17.5, 0], and at least -16 while descending, are preserved |
| `MarioFireball.ReachableX` | public/animations.js:488-506 | after n updates x = -12 + 1.5·(n mod 59) |
| `Retrowave.NeonGridAnimation.constructor` | public/animations.js:553-559 | count 0, `gridOffset` 0 |
| `Retrowave.GridInitial` | public/animations.js:553-559 | the constructor's state has `gridOffset` in [0, 8) and count 0 |
| `Retrowave.NeonGridAnimation.Update` | public/animations.js:567-571 | the fields become `GridStep` of their old values |
| `Retrowave.GridStep` | public/animations.js:567-571 | the count rises by 1; from a state in range the offset advances by half a pixel modulo 8 |
| `Retrowave.GridStepInv` | public/animations.js:567-571 | `gridOffset` stays in [0, 8) |
| `Retrowave.GridReachable` | public/animations.js:553-571 | after n updates `gridOffset` = (n mod 16)/2: it moves in steps of 0.5 within [0, 8) |
| `Retrowave.RetroSunsetAnimation.constructor` | public/animations.js:602-609 | frame count 0, shift 0, no engine |
| `Retrowave.RetroSunsetAnimation.Update` | public/animations.js:617-618 | the frame count rises by exactly 1 |
| `Retrowave.SynthCarAnimation.constructor` | public/animations.js:668-675 | count 0, `carX` -20, `roadOffset` 0 |
| `Retrowave.CarInitial` | public/animations.js:668-675 | the constructor's state keeps the car invariant and has count 0 |
| `Retrowave.SynthCarAnimation.Update` | public/animations.js:683-690 | the fields become `CarStep` of their old values |
| `Retrowave.CarStep` | public/animations.js:683-690 | the count rises by 1; from a state in range `carX` advances by 1 around the 101 positions from -20 to 80, and `roadOffset` by 2 modulo 8 |
| `Retrowave.CarStepInv` | public/animations.js:683-690 | `carX` stays in [-20, 80] and `roadOffset` in {0, 2, 4, 6} |
| `Retrowave.CarReachable` | public/animations.js:668-690 | after n updates `carX` = -20 + (n mod 101) and `roadOffset` = 2·(n mod 4) |
| `Retrowave.GeometricMountainsAnimation.constructor` | public/animations.js:748-753 | frame count 0, shift 0, no engine |
| `Retrowave.GeometricMountainsAnimation.Update` | public/animations.js:761-763 | the frame count rises by exactly 1, and nothing else changes |
| `Retrowave.NeonCityscapeAnimation.constructor` | public/animations.js:825-829 | frame count 0, shift 0, no engine |
| `Retrowave.NeonCityscapeAnimation.Update` | public/animations.js:848-850 | the frame count rises by exactly 1, and nothing else changes |
| `Retrowave.DigitalRainAnimation.constructor` | public/animations.js:892-896 | frame count 0, shift 0, no engine |
| `Retrowave.DigitalRainAnimation.Update` | public/animations.js:916-917 | the frame count rises by exactly 1 |
| `Animations.KindOf` | public/animations.js:139-170 | a recognised name selects the variant whose name it is |
| `Animations.KindOfName` | public/animations.js:139-170 | each of the ten variants is selected by its own name |
| `Animations.Initial` | public/animations.js:139-170 | a freshly constructed instance of the chosen variant has frame count 0 |
| `Animations.Advance` | public/animations.js:180-181 | `update()` keeps the variant and raises its frame count by exactly 1 |
| `Animations.AdvanceNCounts` | public/animations.js:65-69 | n updates keep the variant and add n to its frame count |
| `Animations.AdvanceInv` | public/animations.js:229-850 | every variant's `update()` preserves that variant's invariant |
| `Animations.ReachableInv` | public/animations.js:56-85 | the state sampled for any recognised name after any number of updates keeps its variant's invariant |
| `Animations.AdvanceNFromInitial` | public/animations.js:62-69 | n dispatched updates of a fresh instance equal n updates of that variant's own step function |
| `Animations.SampledPositions` | public/animations.js:62-69 | in the state sampled after n updates, Pac-Man's x = -16 + 1.5·(n mod 65), the fireball's x = -12 + 1.5·(n mod 59), `gridOffset` = (n mod 16)/2, `carX` = -20 + (n mod 101) and `roadOffset` = 2·(n mod 4) |
| `Animations.Variant.Snapshot` | public/animations.js:15-204 | the value view of an instance belongs to that instance's variant |
| `Animations.NewVariant` | public/animations.js:139-170 | constructs a fresh instance of the selected class, in its constructor's state, with shift 0 and no engine |
| `Animations.Update` | public/animations.js:65-69 | the dispatched `update()` advances the instance's snapshot by one step and keeps its shift and engine link |
| `Animations.SetHueShift` | public/animations.js:87-92 | writing an instance's `hueShift` sets it and changes nothing else |
| `Animations.Attach` | public/animations.js:173 | setting the `engine` link changes nothing else |
| `Engine.FrameDue` | public/animations.js:178-179 | on whole milliseconds a frame is due exactly when at least 67 ms have passed since the last one |
| `Engine.Iterations` | public/animations.js:65 | the loop runs max(frameNumber, 0) times: at least frameNumber, and either 0 or frameNumber |
| `Engine.PixelAnimationEngine.constructor` | public/animations.js:16-32 | no animation, frame 0, last time 0, shift 0, empty name, no callback |
| `Engine.PixelAnimationEngine.StartAnimation` | public/animations.js:137-176 | a recognised name installs a fresh instance in its initial state, with the engine's shift copied in and the engine link set, and leaves the old instance untouched; an unrecognised name keeps the same reference with its state unchanged; either way the name is recorded and the frame counter reset to 0 |
| `Engine.PixelAnimationEngine.GetAnimationMatrix` | public/animations.js:56-85 | the sampled instance is in the state reached by max(n, 0) updates from the instance `startAnimation` left active; on return the reference, the frame counter and the name equal their entry values; shift, last time and callback are never touched; for a recognised name the previously active instance is unchanged |
| `Engine.PixelAnimationEngine.SampleFrames` | public/animations.js:62-69 | starting the named animation and running the loop leaves active the instance that is sampled: for a recognised name a fresh instance max(n, 0) updates past its initial state, with the previous instance unchanged; otherwise the previous instance, max(n, 0) updates further on; shift, last time and callback are untouched |
| `Engine.PixelAnimationEngine.RunFrames` | public/animations.js:65-69 | the sampling loop applies max(frameNumber, 0) updates to the active instance |
| `Engine.PixelAnimationEngine.SetHueShift` | public/animations.js:87-92 | sets the engine's shift, and the active animation's if there is one; nothing else changes |
| `Engine.PixelAnimationEngine.GameLoop` | public/animations.js:178-196 | when a frame is due it updates the active animation, records the time and counts the frame even with no active animation; the callback receives the matrix, the name and the frame number before the increment; otherwise nothing changes |
| `Engine.PixelAnimationEngine.SetMatrixUpdateCallback` | public/animations.js:201-203 | the value passed is stored as given: a callback turns the frame callback on, `null` or `undefined` turns it off; nothing else changes |
| `Engine.GetAnimationMatrix` | public/animations.js:1123-1127 | `null` exactly when no engine exists, otherwise the engine's matrix |

## Left out

- `draw()` and every `drawX()` body. They are canvas calls: `fillRect`, `save`/`translate`/`scale`, and alpha through `hsla` string edits. Here `draw()` changes no field. What `getImageData` returns after it is an input buffer, so no pixel value is tied to a variant's state.
- The HSL branch of `shiftHue`, lines 104-134. It is floating-point arithmetic and number-to-string formatting. A shifted colour is represented as the parsed channels and the shift it starts from.
- The scale of `ZeldaHeartAnimation` and the sun of `RetroSunsetAnimation`. They move in steps of 0.03 and 0.3, which binary floating point does not represent exactly. Only their frame counters are modelled.
- The drops of `DigitalRainAnimation`. They are created and moved with unseeded `Math.random`. Only its frame counter is modelled.
- The `buildings` table of `NeonCityscapeAnimation`. Only `draw()` reads it.
- The `Math.sin`/`Math.cos` effects, which are computed in `draw()`.
- The `requestAnimationFrame` rescheduling at the end of `gameLoop`.
- The callback function itself. The model records whether one is set and returns the arguments a frame hands it.
- The DOM and UI code: `createMatrixGrid`, `renderMatrix`, `exportMatrix`, `initAnimations` with its listeners, and the module-level auto-initialisation.
- `server.js`: static file serving and JSON routes.
- The canvas handle, `imageSmoothingEnabled` and the `FPS`/`FRAME_DURATION` fields. They are constants here.
- Engine.PixelAnimationEngine.GameLoop: timestamps are whole milliseconds. The browser's fractional timestamps are not modelled.
- Engine.PixelAnimationEngine.SetHueShift: the shift is an integer, as the hue slider's `parseInt` delivers it. Fractional shifts are not modelled.
- Engine.PixelAnimationEngine.GetAnimationMatrix: `frameNumber` is an integer. A fractional count, which the loop rounds up, is not modelled.
- Color.RgbToHexFormat: channels are non-negative integers. `toString(16)` of negative or fractional numbers is not modelled.
- Color.ParseTwoDigits: `parseInt` of `"-0"` gives negative zero in JavaScript and plain 0 here.
- Color.ShiftHue: a shifted colour is an `Hsl` value, never equal to the `Css` input, so "identity exactly when the shift is 0" is a statement about the path taken. For input that is not `#RRGGBB` the source's HSL branch can rebuild the input string itself: `shiftHue("hsl(NaN, NaN%, NaN%)", 5)` returns its input. Every call site passes an upper-case `#RRGGBB` literal, where the HSL branch returns an `hsl(...)` string (`ShiftHexColor`).
- Color.ParseInt16: strings are sequences of Unicode scalar values, while `substr` and `parseInt` count UTF-16 code units. The two agree on the ASCII colour literals the source passes.
- Engine.PixelAnimationEngine.SetMatrixUpdateCallback: the stored value is represented by its truthiness, the test `gameLoop` applies. A truthy value that is not a function, which would throw when called, is not modelled.
