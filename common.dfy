/** Types shared by the client-side predictor and the server-side input handler:
    the 16-bit tick counter, the two per-tick records, the 1024-slot cache index,
    the physics step and the divergence test. */
module Common {

  /** Width of the C# `ushort` tick counters: they wrap at 2^16. */
  const TickModulus: int := 65536

  /** A C# `ushort`. */
  type Tick = t: int | 0 <= t < 65536

  /** A C# `byte`. */
  type Byte = b: int | 0 <= b < 256

  /** Number of slots in each circular cache (`StateCacheSize`). */
  const StateCacheSize: int := 1024

  /** A cache slot: C# `null` becomes `None`. */
  datatype Option<T> = None | Some(value: T)

  /** A position on a fixed-point grid where one unit is 0.001 distance units. */
  datatype Vec3 = Vec3(x: int, y: int, z: int)

  /** `ClientInputState`: one polled input, stamped with the tick it was taken at.
      The axis values are the raw axis readings (-1, 0 or 1 from the keyboard),
      kept as integers. */
  datatype ClientInputState = ClientInputState(horizontal: int, vertical: int, jump: bool, currentTick: Tick)

  /** `SimulationState`: the position of the player at a tick. */
  datatype SimulationState = SimulationState(position: Vec3, currentTick: Tick)

  /** The physics step run by `SetInput`, taking its arguments in `SetInput`'s
      order: position, vertical, horizontal, jump. Being a Dafny function it is
      deterministic and depends only on the position and the input; the
      velocity the source carries between calls is not modelled. */
  type Simulator = (Vec3, int, int, bool) -> Vec3

  /** One `SetInput` call for a recorded input. */
  function Apply(simulate: Simulator, position: Vec3, input: ClientInputState): Vec3
  {
    simulate(position, input.vertical, input.horizontal, input.jump)
  }

  /** `tick + 1` on a `ushort`. */
  function NextTick(t: Tick): (r: Tick)
    ensures r == t + 1 || (t == TickModulus - 1 && r == 0)
  {
    (t + 1) % TickModulus
  }

  /** The cache slot of a tick, `tick % StateCacheSize` on a non-negative tick. */
  function CacheIndex(tick: nat): (k: nat)
    ensures k < StateCacheSize
    ensures (tick - k) % StateCacheSize == 0
    ensures tick < StateCacheSize ==> k == tick
  {
    tick % StateCacheSize
  }

  /** Because 1024 divides 65536, the slot of the next 16-bit tick is the next
      slot, also across the wrap from 65535 to 0. */
  lemma CacheIndexOfNextTick(t: Tick)
    ensures CacheIndex(NextTick(t)) == (CacheIndex(t) + 1) % StateCacheSize
  {
    if t == TickModulus - 1 {
      assert CacheIndex(t) == StateCacheSize - 1;
    } else {
      assert NextTick(t) == t + 1;
    }
  }

  /** Adding whole turns of the 16-bit counter changes neither the 16-bit
      value nor the cache slot. */
  lemma WholeTurns(a: int, c: int)
    ensures (a + TickModulus * c) % TickModulus == a % TickModulus
    ensures (a + TickModulus * c) % StateCacheSize == a % StateCacheSize
  {
    var q, r := a / TickModulus, a % TickModulus;
    assert (q + c) * TickModulus == q * TickModulus + TickModulus * c;
    DivisionUnique(a + TickModulus * c, TickModulus, q + c, r);
    var q1, r1 := a / StateCacheSize, a % StateCacheSize;
    assert (q1 + 64 * c) * StateCacheSize == q1 * StateCacheSize + TickModulus * c;
    DivisionUnique(a + TickModulus * c, StateCacheSize, q1 + 64 * c, r1);
  }

  lemma MulAtLeast(m: int, d: nat)
    requires m >= 1
    ensures m * d >= d
  {
    assert m * d == (m - 1) * d + d;
  }

  /** A quotient and remainder that satisfy the division equation are the
      quotient and remainder. */
  lemma DivisionUnique(n: int, d: int, q: int, r: int)
    requires d > 0 && 0 <= r < d && n == q * d + r
    ensures q == n / d && r == n % d
  {
    var q0, r0 := n / d, n % d;
    assert n == q0 * d + r0;
    assert (q - q0) * d == q * d - q0 * d;
    if q > q0 {
      MulAtLeast(q - q0, d);
    } else if q < q0 {
      MulAtLeast(q0 - q, d);
    }
  }

  /** Two different ticks less than 1024 apart never share a slot, so the
      caches hold the last 1024 ticks without collision. */
  lemma CacheIndexInjectiveOnWindow(t1: nat, t2: nat)
    requires t1 < t2 < t1 + StateCacheSize
    ensures CacheIndex(t1) != CacheIndex(t2)
  {
    var q1, q2 := t1 / StateCacheSize, t2 / StateCacheSize;
    assert t1 == q1 * StateCacheSize + CacheIndex(t1);
    assert t2 == q2 * StateCacheSize + CacheIndex(t2);
  }

  /** The highest tick below `hi` that uses slot `k`; it may be negative,
      meaning no non-negative tick below `hi` uses slot `k`. */
  function LastTickAt(k: nat, hi: int): int
  {
    hi - 1 - (hi - 1 - k) % StateCacheSize
  }

  /** `LastTickAt(k, hi)` uses slot `k`, lies in the 1024 ticks below `hi`, and
      every tick below `hi` that uses slot `k` is at most it. */
  lemma LastTickAtFacts(k: nat, hi: int, t: int)
    requires k < StateCacheSize
    ensures hi - StateCacheSize <= LastTickAt(k, hi) < hi
    ensures LastTickAt(k, hi) >= 0 ==> CacheIndex(LastTickAt(k, hi)) == k
    ensures 0 <= t < hi && CacheIndex(t) == k ==> t <= LastTickAt(k, hi)
  {
    var d := (hi - 1 - k) % StateCacheSize;
    var q := (hi - 1 - k) / StateCacheSize;
    assert hi - 1 - k == q * StateCacheSize + d;
    if LastTickAt(k, hi) >= 0 {
      assert LastTickAt(k, hi) == q * StateCacheSize + k;
      assert LastTickAt(k, hi) % StateCacheSize == k;
    }
    if 0 <= t < hi && CacheIndex(t) == k {
      var qt := t / StateCacheSize;
      assert t == qt * StateCacheSize + k;
    }
  }

  /** Divergence threshold: 0.001 distance units, one grid unit. */
  const Epsilon: int := 1

  function Square(n: int): (s: int)
    ensures s >= 0
  {
    if n < 0 then (-n) * (-n) else n * n
  }

  function SquaredDistance(a: Vec3, b: Vec3): int
  {
    Square(a.x - b.x) + Square(a.y - b.y) + Square(a.z - b.z)
  }

  /** `Vector3.Distance(a, b) > 0.001f`, compared on squared distances. */
  function Diverges(a: Vec3, b: Vec3): (r: bool)
    ensures r ==> a != b
  {
    SquaredDistance(a, b) > Epsilon * Epsilon
  }

  /** A position never diverges from itself, and divergence is symmetric. */
  lemma DivergesProperties(a: Vec3, b: Vec3)
    ensures !Diverges(a, a)
    ensures Diverges(a, b) == Diverges(b, a)
    ensures Diverges(a, b) ==> a != b
  {
    assert Square(a.x - b.x) == Square(b.x - a.x);
    assert Square(a.y - b.y) == Square(b.y - a.y);
    assert Square(a.z - b.z) == Square(b.z - a.z);
  }
}
