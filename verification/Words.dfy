/** The widths of the signals on the board. */
module Words {
  type Bit = x: int | 0 <= x < 2
  type Octal = x: int | 0 <= x < 8
  type Nibble = x: int | 0 <= x < 16
  type Byte = x: int | 0 <= x < 256

  /** The sixteen cells of the memory. */
  type Memory = m: seq<Byte> | |m| == 16 witness seq(16, _ => 0)
}
