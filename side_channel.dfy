/**
 * The collision side channel of the world: every floor bounce pushes the low
 * bit of a particle tag into an accumulator, most significant bit first; every
 * seven bits the accumulated code becomes one printable character that is
 * appended to a bounded message.
 *
 * This module states the decoder as a pure state machine. `World.WorldSpace`
 * keeps the same state in its fields and its methods are proved to follow
 * `AddBit`, `Process` and `Clear`.
 */
module SideChannel {

  /** Bits per decoded character. */
  const CodeBits: nat := 7

  /** The message buffer holds 128 bytes, but the write cursor stops at 127. */
  const Capacity: nat := 127

  /** The decoder's state: the packed bits so far, how many there are, and the decoded message. */
  datatype Decoder = Decoder(buffer: int, counter: int, message: seq<char>)

  function Pow2(n: nat): (r: nat)
    ensures r >= 1
  {
    if n == 0 then 1 else 2 * Pow2(n - 1)
  }

  predicate Printable(ch: char) {
    32 <= ch as int < 128
  }

  /** What holds between two calls of addToBuffer. */
  predicate Inv(d: Decoder) {
    && 0 <= d.counter < CodeBits
    && 0 <= d.buffer < Pow2(d.counter)
    && |d.message| <= Capacity
    && forall i | 0 <= i < |d.message| :: Printable(d.message[i])
  }

  /** The decoder right after construction. */
  function Initial(): (d: Decoder)
    ensures Inv(d)
    ensures d.buffer == 0 && d.counter == 0 && d.message == []
  {
    Decoder(0, 0, [])
  }

  /** The 7-bit code as a stored character: control codes are raised to a space. */
  function Printed(code: int): (ch: char)
    requires 0 <= code < 128
    ensures Printable(ch)
    ensures code >= 32 ==> ch as int == code
    ensures code < 32 ==> ch == ' '
  {
    if code < 32 then ' ' else code as char
  }

  /** Appends `ch` while the write cursor is below capacity; later characters are dropped. */
  function Append(message: seq<char>, ch: char): (r: seq<char>)
    ensures |message| < Capacity ==> r == message + [ch]
    ensures |message| >= Capacity ==> r == message
  {
    if |message| < Capacity then message + [ch] else message
  }

  /** processBuffer: decodes the accumulator into one character of the message. */
  function Process(d: Decoder): (r: Decoder)
    requires 0 <= d.buffer < 128
    ensures r.buffer == d.buffer && r.counter == d.counter
    ensures d.message <= r.message
    ensures |d.message| <= Capacity ==> |r.message| <= Capacity
    ensures |r.message| == |d.message| + 1 <==> |d.message| < Capacity
    ensures |d.message| < Capacity ==> Printable(r.message[|d.message|])
    ensures |d.message| < Capacity ==> r.message[|d.message|] == Printed(d.buffer)
  {
    d.(message := Append(d.message, Printed(d.buffer)))
  }

  /** clearBuffer: forgets the accumulated bits, keeps the message. */
  function Clear(d: Decoder): (r: Decoder)
    ensures r.buffer == 0 && r.counter == 0 && r.message == d.message
  {
    d.(buffer := 0, counter := 0)
  }

  /**
   * addToBuffer: shift the accumulator left and put the low bit of `input`
   * into its lowest bit; on the seventh bit, decode and clear.
   * `input % 2` is the two's-complement low bit `input & 1`, also for
   * negative inputs, because Dafny's `%` is Euclidean.
   */
  function AddBit(d: Decoder, input: int): (r: Decoder)
    requires Inv(d)
    ensures Inv(r)
    ensures r.counter == (d.counter + 1) % CodeBits
    ensures d.message <= r.message
    ensures r.counter != 0 ==> r.message == d.message
    ensures r.counter == 0 ==> r.buffer == 0
  {
    Pow2Seven();
    var shifted := d.(buffer := 2 * d.buffer + input % 2, counter := d.counter + 1);
    if shifted.counter >= CodeBits then Clear(Process(shifted)) else shifted
  }

  /** The decoder after a run of addToBuffer calls, in order. */
  function Feed(d: Decoder, inputs: seq<int>): (r: Decoder)
    requires Inv(d)
    ensures Inv(r)
    ensures d.message <= r.message
    decreases |inputs|
  {
    if inputs == [] then d
    else AddBit(Feed(d, inputs[..|inputs| - 1]), inputs[|inputs| - 1])
  }

  lemma FeedStep(d: Decoder, inputs: seq<int>, input: int)
    requires Inv(d)
    ensures Feed(d, inputs + [input]) == AddBit(Feed(d, inputs), input)
  {
    assert (inputs + [input])[..|inputs|] == inputs;
  }

  /** The value of a run of bits read most significant first (low bit of each input). */
  function Pack(bits: seq<int>): (r: nat)
    ensures r < Pow2(|bits|)
    decreases |bits|
  {
    if bits == [] then 0
    else 2 * Pack(bits[..|bits| - 1]) + bits[|bits| - 1] % 2
  }

  /** The `n` low bits of `c`, most significant first. */
  function BitsOf(c: int, n: nat): (r: seq<int>)
    ensures |r| == n
    ensures forall i | 0 <= i < n :: 0 <= r[i] < 2
    decreases n
  {
    if n == 0 then [] else BitsOf(c / 2, n - 1) + [c % 2]
  }

  lemma Pow2Seven()
    ensures Pow2(6) == 64 && Pow2(7) == 128
  {
  }

  /** Packing the bits of a code gives back the code. */
  lemma {:induction false} PackBitsOf(c: int, n: nat)
    requires 0 <= c < Pow2(n)
    ensures Pack(BitsOf(c, n)) == c
  {
    if n > 0 {
      var bits := BitsOf(c, n);
      assert bits[..n - 1] == BitsOf(c / 2, n - 1);
      PackBitsOf(c / 2, n - 1);
    }
  }

  /** Fewer than seven more bits only shift the accumulator; nothing is decoded. */
  lemma {:induction false} FeedShifts(d: Decoder, inputs: seq<int>)
    requires Inv(d) && d.counter + |inputs| < CodeBits
    ensures Feed(d, inputs) == d.(buffer := d.buffer * Pow2(|inputs|) + Pack(inputs),
                                  counter := d.counter + |inputs|)
    decreases |inputs|
  {
    if inputs != [] {
      var k := |inputs| - 1;
      var init, last := inputs[..k], inputs[k];
      assert inputs[..|inputs| - 1] == init;
      FeedShifts(d, init);
      var mid := Feed(d, init);
      assert Feed(d, inputs) == AddBit(mid, last);
      ShiftedValue(d.buffer, k, init, last);
    }
  }

  lemma ShiftedValue(b: int, k: nat, init: seq<int>, last: int)
    requires |init| == k
    ensures 2 * (b * Pow2(k) + Pack(init)) + last % 2 == b * Pow2(k + 1) + Pack(init + [last])
  {
    assert (init + [last])[..k] == init;
    var p := Pow2(k);
    assert 2 * (b * p) == b * (2 * p);
  }

  /** Seven bits fed to a cleared accumulator append exactly one character and clear it again. */
  lemma SevenBitsOneChar(d: Decoder, inputs: seq<int>)
    requires Inv(d) && d.counter == 0 && |inputs| == CodeBits
    ensures Pack(inputs) < 128
    ensures Feed(d, inputs) == Decoder(0, 0, Append(d.message, Printed(Pack(inputs))))
  {
    Pow2Seven();
    var init := inputs[..6];
    FeedShifts(d, init);
    assert inputs[..|inputs| - 1] == init;
  }

  /**
   * The round trip: the seven bits of a code, fed most significant first to a
   * cleared accumulator, append that code, raised to a space when it is a
   * control code, unless the message is full.
   */
  lemma RoundTrip(d: Decoder, c: int)
    requires Inv(d) && d.counter == 0 && 0 <= c < 128
    ensures Feed(d, BitsOf(c, CodeBits)).buffer == 0
    ensures Feed(d, BitsOf(c, CodeBits)).counter == 0
    ensures |d.message| < Capacity && c >= 32 ==> Feed(d, BitsOf(c, CodeBits)).message == d.message + [c as char]
    ensures |d.message| < Capacity && c < 32 ==> Feed(d, BitsOf(c, CodeBits)).message == d.message + [' ']
    ensures |d.message| == Capacity ==> Feed(d, BitsOf(c, CodeBits)).message == d.message
  {
    Pow2Seven();
    PackBitsOf(c, CodeBits);
    SevenBitsOneChar(d, BitsOf(c, CodeBits));
  }

  /** One character is decoded per seven bits, until the message is full. */
  lemma {:induction false} FeedMessageLength(d: Decoder, inputs: seq<int>)
    requires Inv(d)
    ensures Feed(d, inputs).counter == (d.counter + |inputs|) % CodeBits
    ensures |Feed(d, inputs).message| == Min(Capacity, |d.message| + (d.counter + |inputs|) / CodeBits)
    decreases |inputs|
  {
    if inputs != [] {
      var k := |inputs| - 1;
      FeedMessageLength(d, inputs[..k]);
      var before := Feed(d, inputs[..k]);
      var n := d.counter + k;
      assert n % CodeBits + 1 < CodeBits ==> (n + 1) / CodeBits == n / CodeBits;
      assert n % CodeBits + 1 == CodeBits ==> (n + 1) / CodeBits == n / CodeBits + 1;
    }
  }

  function Min(a: int, b: int): int {
    if a <= b then a else b
  }
}
