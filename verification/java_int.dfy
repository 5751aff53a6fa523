/** Battery identification evaluated in Java's 32-bit `int` arithmetic, as
    the source writes it: `value - target` wraps around and `Math.abs` of
    the most negative `int` is that same negative number. On every reading
    the duty-cycle scaling can produce (0..255) this agrees with the
    mathematical `Identification.IdentifyBattery`, which the rest of the
    model uses. */
module JavaInt {
  import opened Identification

  const MinInt: int := -0x8000_0000
  const MaxInt: int := 0x7fff_ffff
  const Modulus: int := 0x1_0000_0000

  predicate InRange(x: int)
  {
    MinInt <= x <= MaxInt
  }

  /** Two's-complement wrap-around of an exact result into the `int` range */
  function Wrap(x: int): (r: int)
    ensures InRange(r)
    ensures (r - x) % Modulus == 0
    ensures InRange(x) ==> r == x
  {
    (x - MinInt) % Modulus + MinInt
  }

  /** Java's `a - b` on `int` operands */
  function Sub(a: int, b: int): (r: int)
    requires InRange(a) && InRange(b)
    ensures InRange(r)
    ensures (r - (a - b)) % Modulus == 0
    ensures InRange(a - b) ==> r == a - b
    ensures a - b < MinInt ==> r == a - b + Modulus
    ensures a - b > MaxInt ==> r == a - b - Modulus
  {
    Wrap(a - b)
  }

  /** Java's `Math.abs(int)`: exact, except that the most negative value is
      its own absolute value. */
  function MathAbs(x: int): (r: int)
    requires InRange(x)
    ensures InRange(r)
    ensures x != MinInt ==> r == Abs(x)
    ensures x == MinInt ==> r == MinInt
  {
    if x == MinInt then MinInt else if x < 0 then -x else x
  }

  /** `isWithinTolerance(value, target)` in `int` arithmetic */
  function IsWithinToleranceInt(value: int, target: int): (r: bool)
    requires InRange(value) && InRange(target)
    ensures 0 <= target <= 255 && value != MinInt + target ==> (r <==> IsWithinTolerance(value, target))
    ensures 0 <= target <= 255 && value == MinInt + target ==> r
  {
    MathAbs(Sub(value, target)) <= Tolerance
  }

  /** `identifyBattery(pwm)` in `int` arithmetic */
  function IdentifyBatteryInt(pwm: int): (r: int)
    requires InRange(pwm)
    ensures 0 <= r <= MaxBatteries
  {
    if IsWithinToleranceInt(pwm, Battery1) then 1
    else if IsWithinToleranceInt(pwm, Battery2) then 2
    else if IsWithinToleranceInt(pwm, Battery3) then 3
    else if IsWithinToleranceInt(pwm, Battery4) then 4
    else if IsWithinToleranceInt(pwm, Battery5) then 5
    else if IsWithinToleranceInt(pwm, Battery6) then 6
    else NoBattery
  }

  /** For a target on the 0..255 scale the `int` comparison agrees with the exact
      one on every `int` reading except `MinInt + target`, whose difference
      is the most negative `int`. */
  lemma IsWithinToleranceIntAgrees(value: int, target: int)
    requires InRange(value) && 0 <= target <= 255
    ensures value != MinInt + target ==>
      (IsWithinToleranceInt(value, target) <==> IsWithinTolerance(value, target))
    ensures value == MinInt + target ==>
      IsWithinToleranceInt(value, target) && !IsWithinTolerance(value, target)
  {
    var d := value - target;
    if d < MinInt {
      assert Sub(value, target) == d + Modulus >= MaxInt - 254;
    }
  }

  /** On the readings the duty-cycle scaling produces the `int` and the exact
      classifications are the same battery. */
  lemma IdentifyBatteryIntAgrees(pwm: int)
    requires 0 <= pwm <= 255
    ensures IdentifyBatteryInt(pwm) == IdentifyBattery(pwm)
  {
    IsWithinToleranceIntAgrees(pwm, Battery1);
    IsWithinToleranceIntAgrees(pwm, Battery2);
    IsWithinToleranceIntAgrees(pwm, Battery3);
    IsWithinToleranceIntAgrees(pwm, Battery4);
    IsWithinToleranceIntAgrees(pwm, Battery5);
    IsWithinToleranceIntAgrees(pwm, Battery6);
  }

  /** Far outside that range the `int` arithmetic names a battery that the
      reading is nowhere near: `MinInt` plus battery `k`'s expected value is
      read as battery `k` (e.g. `MinInt + 21` as battery 1). */
  lemma IdentifyBatteryIntAtMinInt(k: int)
    requires 1 <= k <= MaxBatteries
    ensures IdentifyBatteryInt(MinInt + BatteryPWM(k)) == k
    ensures IdentifyBattery(MinInt + BatteryPWM(k)) == NoBattery
  {
    var v := MinInt + BatteryPWM(k);
    IsWithinToleranceIntAgrees(v, Battery1);
    IsWithinToleranceIntAgrees(v, Battery2);
    IsWithinToleranceIntAgrees(v, Battery3);
    IsWithinToleranceIntAgrees(v, Battery4);
    IsWithinToleranceIntAgrees(v, Battery5);
    IsWithinToleranceIntAgrees(v, Battery6);
  }
}
