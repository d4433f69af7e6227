/**
 * Vocabulary shared by every component of the Pixi model: the widths of the
 * C++ integer types the program relies on, and the ways a run can end other
 * than by producing a value.
 */
module Types {

  /** `uint8_t`. */
  type byte = bv8

  /** `size_t` on the 64-bit targets Pixi is built for. */
  type SizeT = bv64

  /** `std::numeric_limits<size_t>::max()`: the address translators' "no mapping" answer. */
  const SIZE_MAX: SizeT := 0xFFFF_FFFF_FFFF_FFFF

  /** Width of `int`: values stored in an `int` wrap modulo 2^32 (two's complement). */
  const INT_MIN: int := -0x8000_0000
  const INT_MAX: int := 0x7FFF_FFFF

  /** How a run ends when it does not reach the next statement. */
  datatype Fault =
    | Fatal(message: string)  // pixi_error: message on stderr, then exit(1)
    | OutOfRange              // ByteArray::at / ByteArrayView::at past size(): exit(-1)
    | Uncaught(what: string)  // a C++ exception nobody catches: std::terminate
    | Help                    // print_help: usage on stdout, then exit(0)

  /** The process exit status a fault produces; abnormal termination has none. */
  datatype ExitStatus = Status(code: int) | Abnormal

  function ExitOf(f: Fault): (e: ExitStatus)
    ensures f.Fatal? <==> e == Status(1)
    ensures f.Uncaught? <==> e == Abnormal
  {
    match f
    case Fatal(_) => Status(1)
    case OutOfRange => Status(255)   // exit(-1): the low 8 bits are kept
    case Uncaught(_) => Abnormal
    case Help => Status(0)
  }

  /** `pixi_error(format, ...)`: the message is printed and the process always exits with status 1. */
  function PixiError(message: string): (f: Fault)
    ensures ExitOf(f) == Status(1)
    ensures f.message == message
  {
    Fatal(message)
  }

  datatype Result<T> = Ok(value: T) | Err(fault: Fault)
  {
    predicate IsFailure() { Err? }
    function PropagateFailure<U>(): Result<U> requires Err? { Err(fault) }
    function Extract(): T requires Ok? { value }
  }

  datatype Option<T> = None | Some(value: T)

  /** `n` zero bytes: what `memset(..., 0, n)` and a value-initialised buffer hold. */
  function Zeros(n: nat): (z: seq<byte>)
    ensures |z| == n && forall i :: 0 <= i < n ==> z[i] == 0
  {
    seq(n, _ => 0)
  }

  /** `n` copies of the byte `b`. */
  function Repeat(b: byte, n: nat): (z: seq<byte>)
    ensures |z| == n && forall i :: 0 <= i < n ==> z[i] == b
  {
    seq(n, _ => b)
  }

  /**
   * Truncation of a mathematical integer to `uint8_t`: the remainder modulo
   * 256, assembled from its two hexadecimal digits.
   */
  function ToU8(x: int): (b: byte)
    ensures b as int == x % 256
  {
    var y := x % 256;
    var hi, lo := Nibble(y / 16), Nibble(y % 16);
    NibblesCombine(hi, lo);
    (hi << 4) | lo
  }

  /** A value that already fits a byte survives the truncation. */
  lemma ToU8Small(x: int)
    requires 0 <= x < 256
    ensures ToU8(x) as int == x
  {
    assert x % 256 == x;
  }

  /** The byte holding the digit `d`. */
  function Nibble(d: int): (b: byte)
    requires 0 <= d < 16
    ensures b as int == d && b < 16
  {
    if d < 8 then
      if d < 4 then (if d < 2 then (if d == 0 then 0x0 else 0x1) else (if d == 2 then 0x2 else 0x3))
      else (if d < 6 then (if d == 4 then 0x4 else 0x5) else (if d == 6 then 0x6 else 0x7))
    else
      if d < 12 then (if d < 10 then (if d == 8 then 0x8 else 0x9) else (if d == 10 then 0xA else 0xB))
      else (if d < 14 then (if d == 12 then 0xC else 0xD) else (if d == 14 then 0xE else 0xF))
  }

  /** Two digits side by side make the byte `16 * hi + lo`. */
  lemma NibblesCombine(hi: byte, lo: byte)
    requires hi < 16 && lo < 16
    ensures ((hi << 4) | lo) as int == hi as int * 16 + lo as int
  {
  }

  /** Conversion of an integer to `size_t` (wrap-around modulo 2^64). */
  function ToSizeT(x: int): (r: SizeT)
    ensures 0 <= x < 0x1_0000_0000_0000_0000 ==> r == x as SizeT
  {
    (x % 0x1_0000_0000_0000_0000) as SizeT
  }

  /** Conversion of an integer to `int` (two's complement wrap-around). */
  function ToInt32(x: int): (r: int)
    ensures INT_MIN <= r <= INT_MAX
    ensures (r - x) % 0x1_0000_0000 == 0
  {
    var m := x % 0x1_0000_0000;
    if m > INT_MAX then m - 0x1_0000_0000 else m
  }

  /** `std::clamp(v, lo, hi)`. */
  function Clamp(v: int, lo: int, hi: int): (r: int)
    requires lo <= hi
    ensures lo <= r <= hi
    ensures lo <= v <= hi ==> r == v
    ensures v < lo ==> r == lo
    ensures v > hi ==> r == hi
  {
    if v < lo then lo else if v > hi then hi else v
  }
}
