/** Machine integers of the firmware, the wrapping millisecond clock, and stamped samples. */
module Bytes {

  type byte = x: int | 0 <= x < 0x100
  type u16 = x: int | 0 <= x < 0x1_0000
  type u32 = x: int | 0 <= x < TWO32

  const TWO32: int := 0x1_0000_0000

  datatype Option<+T> = None | Some(value: T)

  /** `++counter` on a std::uint32_t. */
  function Inc32(x: u32): u32 {
    if x == TWO32 - 1 then 0 else x + 1
  }

  /** `counter += n` on a std::uint32_t. */
  function Add32(x: u32, n: nat): u32 {
    (x + n) % TWO32
  }

  /** A wrapping counter counts modulo 2^32. */
  lemma Inc32Counts(n: int)
    ensures Inc32(n % TWO32) == (n + 1) % TWO32
  {
    var q, r := n / TWO32, n % TWO32;
    assert n == q * TWO32 + r;
    if r == TWO32 - 1 {
      assert n + 1 == (q + 1) * TWO32;
    } else {
      assert n + 1 == q * TWO32 + (r + 1);
    }
  }

  // ---- tables ----------------------------------------------------------------

  /** The first index from `i` on whose entry fits; past the end if none does. */
  function FirstFrom<T>(table: seq<T>, fits: T -> bool, i: nat): (k: nat)
    requires i <= |table|
    ensures i <= k <= |table|
    ensures k < |table| ==> fits(table[k])
    ensures forall j :: i <= j < k ==> !fits(table[j])
    decreases |table| - i
  {
    if i == |table| || fits(table[i]) then i else FirstFrom(table, fits, i + 1)
  }

  // ---- the millisecond clock -------------------------------------------------

  /** What millis() shows when `t` milliseconds of real time have passed. */
  function Clock(t: nat): u32 {
    t % TWO32
  }

  /** `static_cast<std::uint32_t>(now - since)`: elapsed time modulo 2^32. */
  function Elapsed(now: u32, since: u32): u32 {
    (now - since) % TWO32
  }

  /** Modular elapsed time never exceeds real elapsed time, and equals it for less than one wrap. */
  lemma ElapsedIsModular(t: nat, since: nat)
    requires since <= t
    ensures Elapsed(Clock(t), Clock(since)) == (t - since) % TWO32 <= t - since
    ensures t - since < TWO32 ==> Elapsed(Clock(t), Clock(since)) == t - since
  {
    var a, b := t / TWO32, since / TWO32;
    var d := (t - since) / TWO32;
    assert t == a * TWO32 + Clock(t) && since == b * TWO32 + Clock(since);
    assert t - since == d * TWO32 + (t - since) % TWO32;
    assert Clock(t) - Clock(since) == (d - a + b) * TWO32 + (t - since) % TWO32;
  }

  // ---- sampled inputs ---------------------------------------------------------

  /** One reading of a digital input, stamped with real time. */
  datatype Sample = Sample(t: nat, level: bool)

  /** Sample times never go back. */
  ghost predicate Ordered(h: seq<Sample>) {
    forall i, j :: 0 <= i <= j < |h| ==> h[i].t <= h[j].t
  }

  /** All samples from index `i` on read `level`. */
  ghost predicate SteadyFrom(h: seq<Sample>, i: nat, level: bool) {
    i < |h| && forall j :: i <= j < |h| ==> h[j].level == level
  }

  /** The newest samples all read `level`, over at least `span` of real time. */
  ghost predicate SteadyFor(h: seq<Sample>, level: bool, span: nat) {
    exists i: nat :: SteadyFrom(h, i, level) && h[|h| - 1].t - h[i].t >= span
  }

  /** One more sample of the same level keeps a steady window; it never gets shorter. */
  lemma SteadyGrows(h: seq<Sample>, s: Sample, level: bool, span: nat)
    requires SteadyFor(h, level, span) && s.level == level
    requires Ordered(h + [s])
    ensures SteadyFor(h + [s], level, span)
  {
    var i: nat :| SteadyFrom(h, i, level) && h[|h| - 1].t - h[i].t >= span;
    var h' := h + [s];
    assert h'[|h| - 1].t <= h'[|h|].t;
    assert SteadyFrom(h', i, level);
  }

  /** Where the newest run of equal samples begins. */
  function RunStart(h: seq<Sample>): (i: nat)
    requires h != []
    ensures i < |h|
  {
    var n := |h| - 1;
    if n > 0 && h[n - 1].level == h[n].level then RunStart(h[..n]) else n
  }

  // ---- big-endian integers ----------------------------------------------------

  function Bit(b: bool): byte {
    if b then 1 else 0
  }

  function U16Bytes(v: u16): (b: seq<byte>)
    ensures |b| == 2
  {
    [v / 0x100, v % 0x100]
  }

  function U16At(b: seq<byte>, at: nat): u16
    requires at + 2 <= |b|
  {
    var hi, lo: int := b[at], b[at + 1];
    hi * 0x100 + lo
  }

  function U32Bytes(v: u32): (s: seq<byte>)
    ensures |s| == 4
  {
    var a := v / 0x100;
    var b := a / 0x100;
    [b / 0x100, b % 0x100, a % 0x100, v % 0x100]
  }

  function U32At(b: seq<byte>, at: nat): u32
    requires at + 4 <= |b|
  {
    var b0: int, b1: int, b2: int, b3: int := b[at], b[at + 1], b[at + 2], b[at + 3];
    b0 * 0x100_0000 + b1 * 0x1_0000 + b2 * 0x100 + b3
  }

  /** A 32-bit counter written big-endian anywhere in a payload reads back unchanged. */
  lemma U32RoundTrip(v: u32, pre: seq<byte>, post: seq<byte>)
    ensures U32At(pre + U32Bytes(v) + post, |pre|) == v
  {
    var b := pre + U32Bytes(v) + post;
    assert b[|pre|] == U32Bytes(v)[0] && b[|pre| + 1] == U32Bytes(v)[1];
    assert b[|pre| + 2] == U32Bytes(v)[2] && b[|pre| + 3] == U32Bytes(v)[3];
  }

  /** Integers travel most significant byte first. */
  lemma BigEndian(v: u16, w: u32)
    ensures U16Bytes(v) == [v / 0x100, v % 0x100]
    ensures U32Bytes(w) == [w / 0x100_0000, w / 0x1_0000 % 0x100, w / 0x100 % 0x100, w % 0x100]
  {
    var a := w / 0x100;
    var b := a / 0x100;
    assert w == a * 0x100 + w % 0x100 && a == b * 0x100 + a % 0x100 && b == b / 0x100 * 0x100 + b % 0x100;
    assert w / 0x1_0000 == b && w / 0x100_0000 == b / 0x100;
  }
}
