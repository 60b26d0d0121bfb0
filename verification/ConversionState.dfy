/** The state that a codec keeps between two calls, and what a call reports. */
module ConversionState {

  datatype CodecResult = Ok | Partial | Error | NoConv

  /** A counter and sixteen cells, which every codec uses in its own way. */
  class MBState<T(!new)> {
    var n: nat
    var mbytes: seq<T>

    constructor (zero: T)
      ensures n == 0 && mbytes == seq(16, _ => zero)
    {
      n := 0;
      mbytes := seq(16, _ => zero);
    }
  }
}
