# binary-bounce in Dafny

A model of the simulation core of binary-bounce, a console particle toy. A
world space of `rows × cols` cells holds particle systems. Each system owns a
vector of particles. Every tick the particles integrate one step against the
walls of the world, bouncing with a damping of 0.85. Each bounce off the
floor (the y upper bound) pushes the low bit of `value - 1` into a side
channel. Every seven bits, most significant first, become one character of a
128-byte message. The particles are then rasterised onto the grid, and each
cell value is drawn as a glyph.

The model has four modules:

- `SideChannel` (side_channel.dfy) states the decoder as a pure state
  machine: `Decoder(buffer, counter, message)`, with `AddBit`
  (addToBuffer), `Process` (processBuffer) and `Clear` (clearBuffer). The
  invariant `Inv` says the counter is in `[0, 7)`, the buffer is below
  `2^counter`, the message holds at most 127 characters, and every character
  is in 32..127. The lemmas prove the round trip: seven bits fed MSB-first
  append one character. They also prove that the message grows by one
  character per seven bits until it is full.
- `Kinematics` (kinematics.dfy) holds one axis of an integration step: the
  three-way reflection branch (`Bounce`) and the clamp after it (`Clamp`).
- `Raster` (raster.dfy) holds the cast `(int)` as truncation toward zero, the
  cell a position maps to (`CellOf`), and getCharacter (`Glyph`).
- `World` (world.dfy) holds the rest:
  - `Particle` is a datatype, because a system keeps its particles by copy.
    `Update` is the pure integration step. It returns the new particle and
    the input it passes to addToBuffer, if any.
  - `WorldSpace` is a class. Its fields are the source's own: a const
    `array2<int>` grid, a const `array<char>` of 128 bytes, and the buffer,
    counter and cursor. Its ghost `View()` reads the side-channel fields as a
    `Decoder`. Its methods are proved to follow the `SideChannel` functions.
  - `ParticleSystem` is a class. Its `particles: seq<Particle>` is
    reassigned by the loops of applyForce, updateParticles and addParticles.

Modelling choices:

- `double` is modelled as exact `real`.
- `int` is unbounded.
- `input & 0x01` is modelled as `input % 2`. Dafny's Euclidean `%` gives the
  two's-complement low bit, also for negative `value - 1`.
- The line `y += vy` after the y branch (app.cpp:256) is modelled as
  written. On the free path, y therefore advances by twice the velocity
  (`VerticalStep`).
- Cells are clamped from above only (app.cpp:152-153); there is no lower
  clamp.
- The `(int)` cast truncates toward zero, so a particle with `-1 < x < 0`
  lands in column 0.
- Between calls the accumulator is below `2^counter`, so getBuffer returns
  at most 63.

## Model

| member | source | states |
|---|---|---|
| SideChannel.Initial | app.cpp:121-126 | the constructor's side channel: buffer 0, counter 0, empty message, invariant holds |
| SideChannel.Printed | app.cpp:195-196 | the stored character is always in 32..127; it equals the code when the code is at least 32, and is a space otherwise |
| SideChannel.Append | app.cpp:197-204 | a character is appended only while the cursor is below 127; otherwise the message is unchanged |
| SideChannel.Process | app.cpp:194-205 | processBuffer keeps buffer and counter; the old message is a prefix of the new one; it grows by exactly one character iff it held fewer than 127; that character is Printed(buffer), so printable |
| SideChannel.Clear | app.cpp:189-192 | clearBuffer zeroes buffer and counter and keeps the message |
| SideChannel.AddBit | app.cpp:169-187 | addToBuffer keeps the invariant (counter in [0,7), buffer < 2^counter, message ≤ 127 printable characters); the counter advances mod 7; the message changes only when the counter wraps, and only by extension |
| SideChannel.Feed | app.cpp:169-187 | any run of addToBuffer calls keeps the invariant and only extends the message |
| SideChannel.Pack | app.cpp:171-174 | n bits packed MSB-first are below 2^n |
| SideChannel.BitsOf | app.cpp:171-174 | the n bits of a code, MSB-first, each 0 or 1 |
| SideChannel.PackBitsOf | app.cpp:171-174 | packing the bits of a code gives back the code |
| SideChannel.FeedShifts | app.cpp:169-187 | fewer than seven further bits only shift into the accumulator (buffer · 2^k + packed bits, counter + k) and decode nothing |
| SideChannel.SevenBitsOneChar | app.cpp:169-205 | seven bits fed to a cleared accumulator append exactly the printed packed code (if not full) and leave buffer and counter at 0 |
| SideChannel.RoundTrip | app.cpp:169-205 | feeding the 7 bits of code c from a cleared state appends c when c ≥ 32, a space when c < 32, and nothing when the message is full |
| SideChannel.FeedMessageLength | app.cpp:183-204 | after k bits the counter is (counter + k) mod 7 and the message length is min(127, old length + (counter + k) div 7) |
| Kinematics.Bounce | app.cpp:227-237 | the upper branch is taken iff pos + vel > bound, the lower iff not and pos + vel < 0; a reflection mirrors the overshoot about the wall and turns the velocity into -0.85 times itself (reversed, magnitude scaled by 0.85); the free branch moves by vel once |
| Kinematics.Clamp | app.cpp:238-239 | the result is in [0, bound], equals the input when it is already in range, and is the nearer wall otherwise |
| Raster.Trunc | app.cpp:149-150 | the cast truncates toward zero: for v ≥ 0, n ≤ v < n + 1; for v < 0, n − 1 < v ≤ n |
| Raster.CellOf | app.cpp:149-153 | the cell never exceeds (rows−1, cols−1); for non-negative positions below the last column (row band) the column holds x (the row band holds y), and at or beyond it the cell is clamped to cols−1 (rows−1); with x > −1, y > −2.222 and a non-empty grid the cell lies inside the grid |
| Raster.CellOfExample | app.cpp:149-153 | (5.0, 11.11) in a 15 × 33 grid maps to row 5, column 5 |
| Raster.Glyph | app.cpp:447-452 | 2 is drawn as '1', 1 as '0', every other value as a space, in both directions |
| Raster.GlyphShowsEmittedBit | app.cpp:447-452 | a particle tagged 1 or 2 is drawn as the bit its floor bounces emit |
| World.NewParticle | app.cpp:209-217 | a new particle sits at (x, y) with its tag, zero velocity and zero acceleration, bound to the given world space |
| World.Particle.ApplyForce | app.cpp:262-265 | the force is added to the pending acceleration; nothing else changes |
| World.ForcesAccumulate | app.cpp:262-265 | two forces applied before an update sum linearly |
| World.Update | app.cpp:219-260 | afterwards ax = ay = 0, 0 ≤ x ≤ width and 0 ≤ y ≤ height whatever the prior state; it emits value − 1 exactly when y + (vy + ay) > height and never otherwise; tag and world space unchanged |
| World.HorizontalStep | app.cpp:224-239 | on an x reflection vx becomes −0.85 × (vx + ax); otherwise vx = vx + ax and x advances by it exactly once |
| World.VerticalStep | app.cpp:241-258 | on a y reflection vy becomes −0.85 × (vy + ay); on the free path y advances by twice the new velocity before the clamp |
| World.Emissions | app.cpp:289-293 | a pass of updates sends at most one input per particle to addToBuffer |
| World.FloorBounces | app.cpp:244-248 | at most one floor bounce per particle per pass |
| World.OneBitPerFloorBounce | app.cpp:244-248 | a pass emits exactly one bit per floor bounce and none for ceiling or x bounces |
| World.Paint | app.cpp:148-155 | a painted cell holds either its previous value or the tag of some particle |
| World.PaintAppend | app.cpp:142-159 | painting one run of particles and then another leaves every cell as painting their concatenation does |
| World.PaintUntouched | app.cpp:142-159 | a cell no particle maps to keeps its previous contents |
| World.PaintLastWriter | app.cpp:142-159 | a cell holds the tag of the last particle, in system then vector order, mapped to it |
| World.WorldSpace.constructor | app.cpp:105-127 | width = cols, height = rows × 2.222, grid all zero, side channel empty and valid, no systems |
| World.WorldSpace.GetBuffer | app.cpp:48 | the accumulator is below 2^counter, and is 0 right after a character |
| World.WorldSpace.GetCharBuffer | app.cpp:49 | a 128-byte buffer whose bytes before the cursor are the decoded message |
| World.WorldSpace.AddParticleSystem | app.cpp:137-140 | the system is bound to this world and appended to the registered systems |
| World.WorldSpace.NonNegativeIsRasterisable | app.cpp:149-154 | with non-negative positions and a non-empty grid every write of getRenderData lands inside the grid |
| World.WorldSpace.GetRenderData | app.cpp:142-159 | returns the grid itself; every cell ends as the last-writer-wins painting of all particles, in system then vector order, over its previous contents |
| World.WorldSpace.PaintSystem | app.cpp:148-156 | the inner loop over one system's particles leaves every cell as the last-writer-wins painting of that system's particles over its previous contents |
| World.WorldSpace.ResetRenderData | app.cpp:161-167 | every cell becomes 0 |
| World.WorldSpace.AddToBuffer | app.cpp:169-187 | keeps the side-channel invariant and moves the state exactly as AddBit; with the cursor at 127 the byte array is unchanged |
| World.WorldSpace.ClearBuffer | app.cpp:189-192 | moves the state exactly as Clear |
| World.WorldSpace.ProcessBuffer | app.cpp:194-205 | moves the state exactly as Process; writes only the byte at the old cursor, so earlier characters are never overwritten; with the cursor at 127 the byte array is unchanged |
| World.ParticleSystem.constructor | app.cpp:269-271 | an empty system bound to no world |
| World.ParticleSystem.SetWorldSpace | app.cpp:273-275 | the system's world becomes the given one |
| World.ParticleSystem.GetParticleAt | app.cpp:281-287 | nothing exactly when pos < 0 or pos ≥ size; otherwise the particle at pos |
| World.ParticleSystem.UpdateParticles | app.cpp:289-293 | every particle becomes its Update, in place and in order; the world's side channel becomes Feed of the old one with the pass's emissions, and stays valid |
| World.ParticleSystem.ApplyForce | app.cpp:295-299 | every particle, and only its pending acceleration, receives the same force |
| World.ParticleSystem.ApplyRandomForce | app.cpp:301-317 | particle k receives the drawn value on both axes |
| World.ParticleSystem.AddParticle | app.cpp:319-323 | appends one particle at rest bound to the system's current world |
| World.ParticleSystem.AddParticles | app.cpp:325-329 | appends max(count, 0) identical particles at rest and leaves the existing ones unchanged |

## Left out

- World.ParticleSystem.UpdateParticles: it requires every particle to be bound to the system's own world space, which must not be NULL. The source only needs each particle's own pointer to be non-NULL. A system whose particles were bound to a different world before a later setWorldSpace is not modelled.
- World.ParticleSystem.ApplyRandomForce: the random draws are a parameter. The reseeding from the clock, `rand()`, the uniform angle and magnitude, and `cos` are not modelled. What is kept is that each particle gets one draw and that the same value goes to both axes (cos is used for both).
- World.WorldSpace.constructor: the dimensions are `nat`. In C++ a negative size makes `new[]` throw.
- World.WorldSpace.GetRenderData: it requires every particle to truncate into the grid. The source writes out of bounds, which is undefined behaviour, when a position is −1 or less (−2.222 or less for y) or the grid is empty. The overflow of the `(int)` cast for huge positions is not modelled.
- World.WorldSpace.PaintSystem: it requires the same in-grid condition for the particles of the one system it paints, for the same reason.
- World.Update: `double` rounding is not modelled, including the rounding of `y / 2.222` near the last row. The arithmetic is exact. So is `rows * 2.222`, which makes the world's height exact.
- World.ForcesAccumulate: this holds for exact reals. IEEE-754 addition is not associative.
- `value - 1` uses unbounded integers. The overflow at the smallest `int` is not modelled.
- The getters getWidth, getHeight, getRows, getCols and Particle's getX, getY and getValue are read as const fields or datatype fields. ParticleSystem::getParticles is read as the `particles` field.
- Particle::setWorldSpace happens only inside addParticle. There it is folded into `NewParticle`.
- getParticleAt returns a copy of the particle, not a pointer into the vector. Writing through that pointer, and the pointer going stale when the vector grows, are not modelled.
- main's frame loop, with its clock and usleep pacing and its hard-coded scenario, is driver code.
- renderWorldSpace, resetRender and clearRender do printf and ANSI-escape console output. This includes printing the unterminated message buffer with `%s`.
- The destructor's `delete[]` of the grid, and the leaked message buffer, are memory management.
- The `FAKE_MODE` branch of processBuffer is dead code behind a constant `false`.
