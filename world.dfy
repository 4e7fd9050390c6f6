/**
 * The simulated world: particles, the systems that own them, and the world
 * space that owns the render grid and the collision side channel.
 *
 * A particle is a value (a system keeps its particles in a vector, by copy);
 * a system and a world space are objects whose fields are updated in place.
 */
module World {
  import opened SideChannel
  import opened Kinematics
  import opened Raster

  datatype Option<T> = None | Some(value: T)

  /**
   * One point mass: position, velocity, pending acceleration, its tag, and
   * the world space it was bound to when it was added (possibly none).
   */
  datatype Particle = Particle(ws: WorldSpace?, x: real, y: real, vx: real, vy: real,
                               ax: real, ay: real, value: int)
  {
    /** applyForce: a force is added to the pending acceleration; nothing else changes. */
    function ApplyForce(fx: real, fy: real): (q: Particle)
      ensures q.ax == ax + fx && q.ay == ay + fy
      ensures q.(ax := ax, ay := ay) == this
    {
      this.(ax := ax + fx, ay := ay + fy)
    }

    /** The y test of the integration step that takes the floor branch. */
    predicate HitsFloor()
      requires ws != null
    {
      y + (vy + ay) > ws.height
    }
  }

  /** A fresh particle at rest, bound to the world space `ws`. */
  function NewParticle(ws: WorldSpace?, x: real, y: real, value: int): (p: Particle)
    ensures p.ws == ws && p.x == x && p.y == y && p.value == value
    ensures p.vx == 0.0 && p.vy == 0.0 && p.ax == 0.0 && p.ay == 0.0
  {
    Particle(ws, x, y, 0.0, 0.0, 0.0, 0.0, value)
  }

  /** Forces applied one after the other add up. */
  lemma ForcesAccumulate(p: Particle, fx1: real, fy1: real, fx2: real, fy2: real)
    ensures p.ApplyForce(fx1, fy1).ApplyForce(fx2, fy2) == p.ApplyForce(fx1 + fx2, fy1 + fy2)
  {
  }

  /** A particle after one step, and the input it passed to addToBuffer, if any. */
  datatype Stepped = Stepped(particle: Particle, emitted: Option<int>)

  /**
   * update: one integration step against the walls of the particle's world
   * space. Each axis consumes its acceleration, takes the reflection branch
   * and is clamped; the y axis adds its velocity a second time after the
   * branch, and only its floor branch emits `value - 1`.
   */
  function Update(p: Particle): (r: Stepped)
    requires p.ws != null
    ensures r.particle.ws == p.ws && r.particle.value == p.value
    ensures r.particle.ax == 0.0 && r.particle.ay == 0.0
    ensures 0.0 <= r.particle.x <= p.ws.width && 0.0 <= r.particle.y <= p.ws.height
    ensures r.emitted.Some? <==> p.HitsFloor()
    ensures r.emitted.Some? ==> r.emitted.value == p.value - 1
  {
    var width, height := p.ws.width, p.ws.height;
    var vx := p.vx + p.ax;
    var mx := Bounce(p.x, vx, width);
    var vy := p.vy + p.ay;
    var my := Bounce(p.y, vy, height);
    var next := p.(x := Clamp(mx.pos, width), y := Clamp(my.pos + my.vel, height),
                   vx := mx.vel, vy := my.vel, ax := 0.0, ay := 0.0);
    Stepped(next, if my.side == Upper then Some(p.value - 1) else None)
  }

  /**
   * The x axis of a step: a reflection at either wall damps and reverses the
   * velocity; otherwise the position advances by the new velocity exactly once.
   */
  lemma HorizontalStep(p: Particle)
    requires p.ws != null
    ensures var vx, q := p.vx + p.ax, Update(p).particle;
      && (p.x + vx > p.ws.width || p.x + vx < 0.0 ==> q.vx == -Damping * vx)
      && (0.0 <= p.x + vx <= p.ws.width ==> q.vx == vx && q.x == p.x + vx)
  {
  }

  /**
   * The y axis of a step: a reflection at either wall damps and reverses the
   * velocity; on the free path the position advances by the velocity twice
   * before the clamp.
   */
  lemma VerticalStep(p: Particle)
    requires p.ws != null
    ensures var vy, q := p.vy + p.ay, Update(p).particle;
      && (p.y + vy > p.ws.height || p.y + vy < 0.0 ==> q.vy == -Damping * vy)
      && (0.0 <= p.y + vy <= p.ws.height ==> q.vy == vy && q.y == Clamp(p.y + 2.0 * vy, p.ws.height))
  {
  }

  predicate Bound(ps: seq<Particle>) {
    forall k | 0 <= k < |ps| :: ps[k].ws != null
  }

  /** The inputs a pass of updates over `ps`, in order, sends to addToBuffer. */
  function Emissions(ps: seq<Particle>): (e: seq<int>)
    requires Bound(ps)
    ensures |e| <= |ps|
    decreases |ps|
  {
    if ps == [] then []
    else
      var last := Update(ps[|ps| - 1]);
      Emissions(ps[..|ps| - 1]) + if last.emitted.Some? then [last.emitted.value] else []
  }

  lemma EmissionsStep(ps: seq<Particle>, i: int)
    requires Bound(ps) && 0 <= i < |ps|
    ensures Emissions(ps[..i + 1]) ==
      Emissions(ps[..i]) + if Update(ps[i]).emitted.Some? then [Update(ps[i]).emitted.value] else []
  {
    assert ps[..i + 1][..i] == ps[..i];
  }

  /** Stepping one more particle feeds its emission, if any, to the side channel. */
  lemma FeedEmissionsStep(d: Decoder, ps: seq<Particle>, i: int)
    requires Inv(d) && Bound(ps) && 0 <= i < |ps|
    ensures var s := Update(ps[i]);
      Feed(d, Emissions(ps[..i + 1])) ==
        if s.emitted.Some? then AddBit(Feed(d, Emissions(ps[..i])), s.emitted.value)
        else Feed(d, Emissions(ps[..i]))
  {
    EmissionsStep(ps, i);
    var sent, s := Emissions(ps[..i]), Update(ps[i]);
    if s.emitted.Some? {
      FeedStep(d, sent, s.emitted.value);
    } else {
      assert Emissions(ps[..i + 1]) == sent;
    }
  }

  /** How many particles of `ps` take the floor branch. */
  function FloorBounces(ps: seq<Particle>): (n: nat)
    requires Bound(ps)
    ensures n <= |ps|
    decreases |ps|
  {
    if ps == [] then 0
    else FloorBounces(ps[..|ps| - 1]) + if ps[|ps| - 1].HitsFloor() then 1 else 0
  }

  /** A pass of updates emits exactly one bit per floor bounce and none otherwise. */
  lemma {:induction false} OneBitPerFloorBounce(ps: seq<Particle>)
    requires Bound(ps)
    ensures |Emissions(ps)| == FloorBounces(ps)
    decreases |ps|
  {
    if ps != [] {
      OneBitPerFloorBounce(ps[..|ps| - 1]);
    }
  }

  /** The particles of the systems, system by system, each in vector order. */
  ghost function Flatten(systems: seq<ParticleSystem>): seq<Particle>
    reads systems
    decreases |systems|
  {
    if systems == [] then []
    else Flatten(systems[..|systems| - 1]) + systems[|systems| - 1].particles
  }

  /**
   * The value getRenderData leaves in `cell` after painting `ps` in order over
   * a cell that held `before`: the tag of the last particle mapped to it.
   */
  function Paint(ps: seq<Particle>, rows: int, cols: int, cell: Cell, before: int): (v: int)
    ensures v == before || exists k | 0 <= k < |ps| :: v == ps[k].value
    decreases |ps|
  {
    if ps == [] then before
    else
      var last := ps[|ps| - 1];
      if CellOf(last.x, last.y, rows, cols) == cell then last.value
      else Paint(ps[..|ps| - 1], rows, cols, cell, before)
  }

  lemma PaintStep(ps: seq<Particle>, p: Particle, rows: int, cols: int, cell: Cell, before: int)
    ensures Paint(ps + [p], rows, cols, cell, before) ==
      if CellOf(p.x, p.y, rows, cols) == cell then p.value else Paint(ps, rows, cols, cell, before)
  {
    assert (ps + [p])[..|ps|] == ps;
  }

  /** Painting two runs one after the other is painting their concatenation. */
  lemma {:induction false} PaintAppend(ps: seq<Particle>, qs: seq<Particle>, rows: int, cols: int, cell: Cell, before: int)
    ensures Paint(ps + qs, rows, cols, cell, before) == Paint(qs, rows, cols, cell, Paint(ps, rows, cols, cell, before))
    decreases |qs|
  {
    if qs == [] {
      assert ps + qs == ps;
    } else {
      var init := qs[..|qs| - 1];
      assert (ps + qs)[..|ps + qs| - 1] == ps + init;
      PaintAppend(ps, init, rows, cols, cell, before);
    }
  }

  /** A cell no particle maps to keeps its contents. */
  lemma {:induction false} PaintUntouched(ps: seq<Particle>, rows: int, cols: int, cell: Cell, before: int)
    requires forall k | 0 <= k < |ps| :: CellOf(ps[k].x, ps[k].y, rows, cols) != cell
    ensures Paint(ps, rows, cols, cell, before) == before
    decreases |ps|
  {
    if ps != [] {
      PaintUntouched(ps[..|ps| - 1], rows, cols, cell, before);
    }
  }

  /** The last particle mapped to a cell wins it. */
  lemma {:induction false} PaintLastWriter(ps: seq<Particle>, rows: int, cols: int, cell: Cell, before: int, k: int)
    requires 0 <= k < |ps| && CellOf(ps[k].x, ps[k].y, rows, cols) == cell
    requires forall j | k < j < |ps| :: CellOf(ps[j].x, ps[j].y, rows, cols) != cell
    ensures Paint(ps, rows, cols, cell, before) == ps[k].value
    decreases |ps|
  {
    if k < |ps| - 1 {
      PaintLastWriter(ps[..|ps| - 1], rows, cols, cell, before, k);
    }
  }

  class WorldSpace {
    const rows: nat
    const cols: nat
    const width: Extent
    const height: Extent

    /** The rows by cols grid of tags; 0 is an empty cell. */
    const renderData: array2<int>

    var particleSystems: seq<ParticleSystem>

    /** The side channel: packed bits, their count, the message bytes and the write cursor. */
    var buffer: int
    var bufferCounter: int
    const charBuffer: array<char>
    var charBufferIndex: int

    ghost predicate Wellformed()
      reads this
    {
      && renderData.Length0 == rows && renderData.Length1 == cols
      && charBuffer.Length == 128
      && 0 <= charBufferIndex <= Capacity
    }

    /** The side channel as a decoder state: the message is the bytes before the cursor. */
    ghost function View(): Decoder
      reads this, charBuffer
      requires Wellformed()
    {
      Decoder(buffer, bufferCounter, charBuffer[..charBufferIndex])
    }

    ghost predicate Valid()
      reads this, charBuffer
    {
      Wellformed() && Inv(View())
    }

    constructor(numRows: nat, numCols: nat)
      ensures Valid()
      ensures rows == numRows && cols == numCols
      ensures width == numCols as real && height == numRows as real * RowHeight
      ensures View() == Initial() && particleSystems == []
      ensures fresh(renderData) && fresh(charBuffer)
      ensures forall r, c | 0 <= r < rows && 0 <= c < cols :: renderData[r, c] == 0
    {
      cols := numCols;
      width := numCols as real;
      rows := numRows;
      height := numRows as real * RowHeight;
      renderData := new int[numRows, numCols];
      particleSystems := [];
      buffer, bufferCounter := 0, 0;
      charBuffer := new char[128];
      charBufferIndex := 0;
      new;
      ResetRenderData();
    }

    /** getBuffer: the bits accumulated since the last decoded character. */
    function GetBuffer(): (b: int)
      reads this, charBuffer
      requires Valid()
      ensures 0 <= b < Pow2(bufferCounter)
      ensures bufferCounter == 0 ==> b == 0
    {
      buffer
    }

    /** getCharBuffer: the message buffer, whose bytes before the cursor are the decoded message. */
    function GetCharBuffer(): (a: array<char>)
      reads this, charBuffer
      requires Valid()
      ensures a.Length == 128
      ensures a[..charBufferIndex] == View().message
    {
      charBuffer
    }

    /** addParticleSystem: binds the system to this world and registers it for rendering. */
    method AddParticleSystem(ps: ParticleSystem)
      modifies this`particleSystems, ps`ws
      ensures ps.ws == this
      ensures particleSystems == old(particleSystems) + [ps]
    {
      ps.SetWorldSpace(this);
      particleSystems := particleSystems + [ps];
    }

    /** The particles of the registered systems, in the order getRenderData visits them. */
    ghost function AllParticles(): seq<Particle>
      reads this, particleSystems
    {
      Flatten(particleSystems)
    }

    /** Every particle of every registered system truncates into the grid. */
    ghost predicate Rasterisable()
      reads this, particleSystems
    {
      forall i, k | 0 <= i < |particleSystems| && 0 <= k < |particleSystems[i].particles| ::
        InGrid(CellOf(particleSystems[i].particles[k].x, particleSystems[i].particles[k].y, rows, cols), rows, cols)
    }

    /** Particles at non-negative positions always truncate into a non-empty grid. */
    lemma NonNegativeIsRasterisable()
      requires 1 <= rows && 1 <= cols
      requires forall i, k | 0 <= i < |particleSystems| && 0 <= k < |particleSystems[i].particles| ::
        0.0 <= particleSystems[i].particles[k].x && 0.0 <= particleSystems[i].particles[k].y
      ensures Rasterisable()
    {
    }

    /**
     * getRenderData: writes the tag of every particle of every registered
     * system into its cell, in order, and hands out the grid.
     */
    method GetRenderData() returns (grid: array2<int>)
      requires Wellformed() && Rasterisable()
      modifies renderData
      ensures grid == renderData
      ensures forall r, c | 0 <= r < rows && 0 <= c < cols ::
        renderData[r, c] == Paint(AllParticles(), rows, cols, Cell(r, c), old(renderData[r, c]))
    {
      var i := 0;
      while i < |particleSystems|
        invariant 0 <= i <= |particleSystems|
        invariant forall r, c | 0 <= r < rows && 0 <= c < cols ::
          renderData[r, c] == Paint(Flatten(particleSystems[..i]), rows, cols, Cell(r, c), old(renderData[r, c]))
      {
        var pv := particleSystems[i].particles;
        ghost var done := Flatten(particleSystems[..i]);
        PaintSystem(pv);
        forall r, c | 0 <= r < rows && 0 <= c < cols
          ensures renderData[r, c] == Paint(done + pv, rows, cols, Cell(r, c), old(renderData[r, c]))
        {
          PaintAppend(done, pv, rows, cols, Cell(r, c), old(renderData[r, c]));
        }
        assert particleSystems[..i + 1][..i] == particleSystems[..i];
        i := i + 1;
      }
      assert particleSystems[..i] == particleSystems;
      grid := renderData;
    }

    /** The inner loop of getRenderData: paints one system's particles in vector order. */
    method PaintSystem(pv: seq<Particle>)
      requires Wellformed()
      requires forall k | 0 <= k < |pv| :: InGrid(CellOf(pv[k].x, pv[k].y, rows, cols), rows, cols)
      modifies renderData
      ensures forall r, c | 0 <= r < rows && 0 <= c < cols ::
        renderData[r, c] == Paint(pv, rows, cols, Cell(r, c), old(renderData[r, c]))
    {
      var j := 0;
      while j < |pv|
        invariant 0 <= j <= |pv|
        invariant forall r, c | 0 <= r < rows && 0 <= c < cols ::
          renderData[r, c] == Paint(pv[..j], rows, cols, Cell(r, c), old(renderData[r, c]))
      {
        var cell := CellOf(pv[j].x, pv[j].y, rows, cols);
        renderData[cell.row, cell.col] := pv[j].value;
        assert pv[..j + 1] == pv[..j] + [pv[j]];
        forall r, c | 0 <= r < rows && 0 <= c < cols
          ensures renderData[r, c] == Paint(pv[..j + 1], rows, cols, Cell(r, c), old(renderData[r, c]))
        {
          PaintStep(pv[..j], pv[j], rows, cols, Cell(r, c), old(renderData[r, c]));
        }
        j := j + 1;
      }
      assert pv[..j] == pv;
    }

    /** resetRenderData: every cell becomes 0. */
    method ResetRenderData()
      requires Wellformed()
      modifies renderData
      ensures forall r, c | 0 <= r < rows && 0 <= c < cols :: renderData[r, c] == 0
    {
      var i := 0;
      while i < rows
        invariant 0 <= i <= rows
        invariant forall r, c | 0 <= r < i && 0 <= c < cols :: renderData[r, c] == 0
      {
        var j := 0;
        while j < cols
          invariant 0 <= j <= cols
          invariant forall r, c | 0 <= r < i && 0 <= c < cols :: renderData[r, c] == 0
          invariant forall c | 0 <= c < j :: renderData[i, c] == 0
        {
          renderData[i, j] := 0;
          j := j + 1;
        }
        i := i + 1;
      }
    }

    /**
     * addToBuffer: shifts the low bit of `input` into the accumulator and, on
     * the seventh bit, decodes one character and clears the accumulator.
     */
    method AddToBuffer(input: int)
      requires Valid()
      modifies this`buffer, this`bufferCounter, this`charBufferIndex, charBuffer
      ensures Valid()
      ensures View() == AddBit(old(View()), input)
      ensures old(charBufferIndex) == Capacity ==> charBuffer[..] == old(charBuffer[..])
    {
      Pow2Seven();
      buffer := buffer * 2;
      // the shifted accumulator is even, so OR-ing in one bit adds it
      buffer := buffer + input % 2;
      bufferCounter := bufferCounter + 1;
      if bufferCounter >= CodeBits {
        ProcessBuffer();
        ClearBuffer();
      }
    }

    /** clearBuffer: the accumulator and its count go back to 0. */
    method ClearBuffer()
      requires Wellformed()
      modifies this`buffer, this`bufferCounter
      ensures Wellformed()
      ensures View() == Clear(old(View()))
    {
      buffer := 0;
      bufferCounter := 0;
    }

    /**
     * processBuffer: stores the accumulator as a character, raised to a space
     * below 32, at the cursor, and advances the cursor, while it is below 127.
     */
    method ProcessBuffer()
      requires Wellformed() && 0 <= buffer < 128
      modifies this`charBufferIndex, charBuffer
      ensures Wellformed()
      ensures View() == Process(old(View()))
      ensures forall k | 0 <= k < 128 && k != old(charBufferIndex) :: charBuffer[k] == old(charBuffer[k])
      ensures old(charBufferIndex) == Capacity ==> charBuffer[..] == old(charBuffer[..])
    {
      var out := buffer;
      if out < 32 {
        out := 32;
      }
      if charBufferIndex < Capacity {
        charBuffer[charBufferIndex] := out as char;
        charBufferIndex := charBufferIndex + 1;
      }
    }
  }

  class ParticleSystem {
    var particles: seq<Particle>
    var ws: WorldSpace?

    constructor()
      ensures particles == [] && ws == null
    {
      particles := [];
      ws := null;
    }

    /** setWorldSpace: particles added from now on are bound to `worldSpace`. */
    method SetWorldSpace(worldSpace: WorldSpace?)
      modifies this`ws
      ensures ws == worldSpace
    {
      ws := worldSpace;
    }

    /** getParticleAt: the particle at `pos`, or nothing when `pos` is out of range. */
    method GetParticleAt(pos: int) returns (r: Option<Particle>)
      ensures r.None? <==> pos < 0 || pos >= |particles|
      ensures r.Some? ==> 0 <= pos < |particles| && r.value == particles[pos]
    {
      if pos >= |particles| || pos < 0 {
        r := None;
      } else {
        r := Some(particles[pos]);
      }
    }

    /**
     * updateParticles: steps every particle in order; each floor bounce feeds
     * its bit to the world space's side channel as it happens.
     */
    method UpdateParticles()
      requires ws != null && ws.Valid()
      requires forall k | 0 <= k < |particles| :: particles[k].ws == ws
      modifies this`particles, ws`buffer, ws`bufferCounter, ws`charBufferIndex, ws.charBuffer
      ensures ws.Valid()
      ensures |particles| == |old(particles)|
      ensures forall k | 0 <= k < |particles| :: particles[k] == Update(old(particles)[k]).particle
      ensures forall k | 0 <= k < |particles| :: particles[k].ws == ws
      ensures ws.View() == Feed(old(ws.View()), Emissions(old(particles)))
    {
      ghost var start := particles;
      ghost var d0 := ws.View();
      var i := 0;
      while i < |particles|
        invariant 0 <= i <= |particles| == |start|
        invariant forall k | 0 <= k < |start| :: start[k].ws == ws
        invariant forall k | 0 <= k < i :: particles[k] == Update(start[k]).particle
        invariant forall k | i <= k < |particles| :: particles[k] == start[k]
        invariant ws.Valid()
        invariant ws.View() == Feed(d0, Emissions(start[..i]))
      {
        var step := Update(particles[i]);
        particles := particles[i := step.particle];
        FeedEmissionsStep(d0, start, i);
        if step.emitted.Some? {
          ws.AddToBuffer(step.emitted.value);
        }
        i := i + 1;
      }
      assert start[..i] == start;
    }

    /** applyForce: every particle receives the same force. */
    method ApplyForce(fx: real, fy: real)
      modifies this`particles
      ensures |particles| == |old(particles)|
      ensures forall k | 0 <= k < |particles| :: particles[k] == old(particles)[k].ApplyForce(fx, fy)
    {
      var i := 0;
      while i < |particles|
        invariant 0 <= i <= |particles| == |old(particles)|
        invariant forall k | 0 <= k < i :: particles[k] == old(particles)[k].ApplyForce(fx, fy)
        invariant forall k | i <= k < |particles| :: particles[k] == old(particles)[k]
      {
        particles := particles[i := particles[i].ApplyForce(fx, fy)];
        i := i + 1;
      }
    }

    /**
     * applyRandomForce, with the random draws as a parameter: `draws[k]` is
     * the cos(theta) * magnitude drawn for particle k, and it is applied to
     * both axes.
     */
    method ApplyRandomForce(draws: seq<real>)
      requires |draws| == |particles|
      modifies this`particles
      ensures |particles| == |old(particles)|
      ensures forall k | 0 <= k < |particles| :: particles[k] == old(particles)[k].ApplyForce(draws[k], draws[k])
    {
      var i := 0;
      while i < |particles|
        invariant 0 <= i <= |particles| == |old(particles)|
        invariant forall k | 0 <= k < i :: particles[k] == old(particles)[k].ApplyForce(draws[k], draws[k])
        invariant forall k | i <= k < |particles| :: particles[k] == old(particles)[k]
      {
        particles := particles[i := particles[i].ApplyForce(draws[i], draws[i])];
        i := i + 1;
      }
    }

    /** addParticle: appends a particle at rest, bound to the system's current world space. */
    method AddParticle(x: real, y: real, value: int)
      modifies this`particles
      ensures particles == old(particles) + [NewParticle(ws, x, y, value)]
    {
      particles := particles + [NewParticle(ws, x, y, value)];
    }

    /** addParticles: appends `count` identical particles at rest; a non-positive count adds none. */
    method AddParticles(count: int, x: real, y: real, value: int)
      modifies this`particles
      ensures |particles| == |old(particles)| + (if count > 0 then count else 0)
      ensures particles[..|old(particles)|] == old(particles)
      ensures forall k | |old(particles)| <= k < |particles| :: particles[k] == NewParticle(ws, x, y, value)
    {
      var i := 0;
      while i < count
        invariant 0 <= i <= (if count > 0 then count else 0)
        invariant |particles| == |old(particles)| + i
        invariant particles[..|old(particles)|] == old(particles)
        invariant forall k | |old(particles)| <= k < |particles| :: particles[k] == NewParticle(ws, x, y, value)
      {
        AddParticle(x, y, value);
        i := i + 1;
      }
    }
  }
}
