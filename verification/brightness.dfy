/**
 * The brightness store: the global `brightness` scalar with its saturating
 * +30/-30 adjustment, the per-room table `roomBrightness`, the write
 * `setRoomBrightness`, and the channel clamping of `setRGBColor`.
 *
 * Arduino's `int` is 16 bits wide; the model computes with unbounded
 * integers and proves that every value reachable here fits in 16 bits,
 * so no wrap-around can occur.
 */
module Brightness {

  /** Initial value of the global `brightness`. */
  const DefaultBrightness: int := 90
  /** Upper saturation bound of `brightness`. */
  const MaxBrightness: int := 180
  /** Amount one button press adds or removes. */
  const BrightnessStep: int := 30
  /** Factor between `brightness` and the value stored in the table. */
  const Scale: int := 180
  /** Number of PWM channels per room: room `r` drives channel `r * 3`. */
  const ChannelsPerRoom: int := 3

  const Int16Min: int := -32768
  const Int16Max: int := 32767

  predicate FitsInt16(x: int) {
    Int16Min <= x <= Int16Max
  }

  /** A value the global brightness can take: a multiple of the step within [0, 180]. */
  predicate IsLevel(b: int) {
    0 <= b <= MaxBrightness && b % BrightnessStep == 0
  }

  /** A value the table can hold: a level times the scale, i.e. one of 0, 5400, ..., 32400. */
  predicate IsStoredLevel(v: int) {
    0 <= v <= MaxBrightness * Scale && v % (BrightnessStep * Scale) == 0
  }

  /** `min(brightness + 30, 180)`. */
  function Increase(b: int): (r: int)
    ensures r <= MaxBrightness
    ensures b + BrightnessStep <= MaxBrightness ==> r == b + BrightnessStep
    ensures b + BrightnessStep > MaxBrightness ==> r == MaxBrightness
  {
    if b + BrightnessStep < MaxBrightness then b + BrightnessStep else MaxBrightness
  }

  /** `max(brightness - 30, 0)`. */
  function Decrease(b: int): (r: int)
    ensures r >= 0
    ensures b - BrightnessStep >= 0 ==> r == b - BrightnessStep
    ensures b - BrightnessStep < 0 ==> r == 0
  {
    if b - BrightnessStep > 0 then b - BrightnessStep else 0
  }

  /** Both adjustments keep the brightness a level, and never leave [0, 180]. */
  lemma AdjustPreservesLevel(b: int)
    requires IsLevel(b)
    ensures IsLevel(Increase(b)) && Increase(b) >= b
    ensures IsLevel(Decrease(b)) && Decrease(b) <= b
  {
  }

  /** Away from the bounds, a decrease undoes an increase and an increase undoes a decrease. */
  lemma AdjustInverse(b: int)
    requires 0 <= b <= MaxBrightness
    ensures b + BrightnessStep <= MaxBrightness ==> Decrease(Increase(b)) == b
    ensures b - BrightnessStep >= 0 ==> Increase(Decrease(b)) == b
  {
  }

  /** At the bounds the adjustments saturate: the value stays put instead of wrapping. */
  lemma AdjustSaturates()
    ensures Increase(MaxBrightness) == MaxBrightness
    ensures Decrease(0) == 0
  {
  }

  /** `b` after `n` increases. */
  function IncreaseTimes(b: int, n: nat): int
    decreases n
  {
    if n == 0 then b else IncreaseTimes(Increase(b), n - 1)
  }

  /** `b` after `n` decreases. */
  function DecreaseTimes(b: int, n: nat): int
    decreases n
  {
    if n == 0 then b else DecreaseTimes(Decrease(b), n - 1)
  }

  /** `n` increases from at most 180 climb in steps of 30 and then stay at 180. */
  lemma {:induction false} IncreaseTimesSaturates(b: int, n: nat)
    requires b <= MaxBrightness
    ensures IncreaseTimes(b, n) == if b + BrightnessStep * n < MaxBrightness then b + BrightnessStep * n else MaxBrightness
    decreases n
  {
    if n > 0 {
      IncreaseTimesSaturates(Increase(b), n - 1);
    }
  }

  /** `n` decreases from at least 0 fall in steps of 30 and then stay at 0. */
  lemma {:induction false} DecreaseTimesSaturates(b: int, n: nat)
    requires b >= 0
    ensures DecreaseTimes(b, n) == if b - BrightnessStep * n > 0 then b - BrightnessStep * n else 0
    decreases n
  {
    if n > 0 {
      DecreaseTimesSaturates(Decrease(b), n - 1);
    }
  }

  /** From the default 90, increases give 120, 150, 180, 180, ... and decreases give 60, 30, 0, 0, .... */
  lemma DefaultAdjustments(n: nat)
    ensures n >= 3 ==> IncreaseTimes(DefaultBrightness, n) == MaxBrightness
    ensures n >= 3 ==> DecreaseTimes(DefaultBrightness, n) == 0
    ensures n < 3 ==> IncreaseTimes(DefaultBrightness, n) == DefaultBrightness + BrightnessStep * n
    ensures n < 3 ==> DecreaseTimes(DefaultBrightness, n) == DefaultBrightness - BrightnessStep * n
  {
    IncreaseTimesSaturates(DefaultBrightness, n);
    DecreaseTimesSaturates(DefaultBrightness, n);
  }

  /** Scaling a level gives a storable value; both it and every intermediate of the handlers fit in 16 bits. */
  lemma ScaledLevelIsStored(b: int)
    requires IsLevel(b)
    ensures IsStoredLevel(b * Scale)
    ensures FitsInt16(b * Scale) && FitsInt16(b + BrightnessStep) && FitsInt16(b - BrightnessStep)
  {
    var k := b / BrightnessStep;
    assert b == BrightnessStep * k;
    assert b * Scale == (BrightnessStep * Scale) * k;
  }

  /** Every storable value is a level times the scale, and fits in 16 bits. */
  lemma StoredLevelIsScaledLevel(v: int)
    requires IsStoredLevel(v)
    ensures IsLevel(v / Scale) && v == (v / Scale) * Scale
    ensures FitsInt16(v)
  {
    var k := v / (BrightnessStep * Scale);
    assert v == (BrightnessStep * Scale) * k;
    assert v / Scale == BrightnessStep * k;
  }

  /** `setRoomBrightness`'s write to the table: entry `room` becomes `level`, the rest stay. */
  function SetRoomBrightness(table: seq<int>, room: int, level: int): (t: seq<int>)
    requires 0 <= room < |table|
    ensures |t| == |table|
    ensures t[room] == level
    ensures forall i :: 0 <= i < |t| && i != room ==> t[i] == table[i]
  {
    table[room := level]
  }

  /** Writing a room twice keeps only the second write; writing back the stored value changes nothing. */
  lemma SetRoomBrightnessOverwrites(table: seq<int>, room: int, a: int, b: int)
    requires 0 <= room < |table|
    ensures SetRoomBrightness(SetRoomBrightness(table, room, a), room, b) == SetRoomBrightness(table, room, b)
    ensures SetRoomBrightness(table, room, table[room]) == table
  {
  }

  /**
   * The PWM channel `setRoomBrightness` writes for a room: the first of the
   * room's three channels, so every room starts a block of its own.
   */
  function PwmChannel(room: int): (c: int)
    ensures c % 3 == 0
    ensures 0 <= room ==> room <= c && c / 3 == room
  {
    room * ChannelsPerRoom
  }

  /** Distinct rooms drive distinct channels, and the channels of the seven rooms lie in [0, 18]. */
  lemma PwmChannelInjective(a: int, b: int)
    requires 0 <= a < 7 && 0 <= b < 7
    ensures PwmChannel(a) == PwmChannel(b) <==> a == b
    ensures 0 <= PwmChannel(a) <= 18
  {
    if PwmChannel(a) == PwmChannel(b) {
      assert a == PwmChannel(a) / 3;
    }
  }

  /** Arduino's `constrain(amt, low, high)`. */
  function Constrain(amt: int, low: int, high: int): (r: int)
    ensures low <= high ==> low <= r <= high
    ensures low <= amt <= high ==> r == amt
    ensures amt < low ==> r == low
    ensures low <= high && amt > high ==> r == high
  {
    if amt < low then low else if amt > high then high else amt
  }

  /** The colour written to the panel LED's three pins. */
  datatype Rgb = Rgb(red: int, green: int, blue: int)

  /** `setRGBColor`: each channel is clamped into [0, 255] before it is written. */
  function SetRGBColor(red: int, green: int, blue: int): (c: Rgb)
    ensures 0 <= c.red <= 255 && 0 <= c.green <= 255 && 0 <= c.blue <= 255
    ensures 0 <= red <= 255 ==> c.red == red
    ensures 0 <= green <= 255 ==> c.green == green
    ensures 0 <= blue <= 255 ==> c.blue == blue
    ensures red < 0 ==> c.red == 0
    ensures green < 0 ==> c.green == 0
    ensures blue < 0 ==> c.blue == 0
    ensures red > 255 ==> c.red == 255
    ensures green > 255 ==> c.green == 255
    ensures blue > 255 ==> c.blue == 255
  {
    Rgb(Constrain(red, 0, 255), Constrain(green, 0, 255), Constrain(blue, 0, 255))
  }

  /** Clamping is idempotent: an already written colour is written again unchanged. */
  lemma SetRGBColorIdempotent(red: int, green: int, blue: int)
    ensures var c := SetRGBColor(red, green, blue); SetRGBColor(c.red, c.green, c.blue) == c
  {
  }

  /** The panel LED for a brightness level is pure blue at exactly that level. */
  lemma IndicatorShowsLevel(b: int)
    requires IsLevel(b)
    ensures SetRGBColor(0, 0, b) == Rgb(0, 0, b)
  {
  }

  /**
   * `setup()`'s loop over `i != LastROOM`: every entry of the table gets
   * `brightness * 180`. The table starts zeroed, as a global array does.
   */
  method InitRoomBrightness(size: nat, brightness: int) returns (table: seq<int>)
    ensures |table| == size
    ensures forall i :: 0 <= i < size ==> table[i] == brightness * Scale
  {
    table := seq(size, _ => 0);
    var i := 0;
    while i != size
      invariant 0 <= i <= size
      invariant |table| == size
      invariant forall j :: 0 <= j < i ==> table[j] == brightness * Scale
    {
      table := table[i := brightness * Scale];
      i := i + 1;
    }
  }
}
