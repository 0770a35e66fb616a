/** The visual styles a Maha-Parva's mandala can take, cycled by Maha-Parva number. */
module MandalaStyles {
  import opened Kotlin

  datatype MandalaStyle = CircularPetal | Septagon | LotusFlower | StarMandala | ConcentricRings

  /** `values()`, in declaration order. */
  const Values: seq<MandalaStyle> := [CircularPetal, Septagon, LotusFlower, StarMandala, ConcentricRings]

  /**
   * `forMahaParva`: the style at `(n - 1) % 5` with Kotlin's wrapping `-`
   * and truncating `%`; a negative index makes `values()[index]` throw.
   */
  function ForMahaParva(mahaParvaNumber: Int32): (r: Result<MandalaStyle>)
    ensures r.Ok? <==> mahaParvaNumber >= 1 || mahaParvaNumber == IntMin || (mahaParvaNumber - 1) % 5 == 0
    ensures r.Err? ==> r.error == IndexOutOfBounds
    ensures mahaParvaNumber >= 1 ==> r == Ok(Values[(mahaParvaNumber - 1) % 5])
    ensures mahaParvaNumber == IntMin ==> r == Ok(Values[IntMax % 5])
  {
    var index := Rem(Dec(mahaParvaNumber), |Values|);
    if 0 <= index < |Values| then Ok(Values[index]) else Err(IndexOutOfBounds)
  }

  /** Maha-Parvas 1 to 5 get the five styles in order. */
  lemma ForMahaParvaInOrder(n: int)
    requires 1 <= n <= 5
    ensures ForMahaParva(n) == Ok(Values[n - 1])
  {
  }

  /** From 1 on the styles repeat with period 5, as long as `n + 5` is an `Int`. */
  lemma ForMahaParvaPeriodic(n: Int32)
    requires 1 <= n <= IntMax - 5
    ensures ForMahaParva(n + 5) == ForMahaParva(n)
  {
  }

  /** Number 0 gives index -1 under the truncating `%`, which is out of bounds. */
  lemma ForMahaParvaZero()
    ensures Rem(-1, 5) == -1
    ensures ForMahaParva(0) == Err(IndexOutOfBounds)
  {
  }

  /** `Int.MIN_VALUE - 1` wraps to `Int.MAX_VALUE`, whose remainder 2 picks the lotus. */
  lemma ForMahaParvaMinValue()
    ensures ForMahaParva(IntMin) == Ok(LotusFlower)
  {
  }
}
