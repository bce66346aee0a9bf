/** Small value types shared by the modules of the krpc model. */
module Basics {

  /** An optional value. */
  datatype Option<+T> = None | Some(value: T)

  /** One octet on the wire, as the bytes of a `std::string` buffer. */
  type byte = x: int | 0 <= x < 256

  /** C++ `uint16_t`, the type of a TCP port. */
  type uint16 = x: int | 0 <= x < 0x1_0000

  /** 2^32, the modulus of a conversion to C++ `uint32_t`. */
  const TwoTo32: nat := 0x1_0000_0000

  /** True when every character of `s` is the blank `' '`. */
  predicate AllBlanks(s: string)
  {
    forall i :: 0 <= i < |s| ==> s[i] == ' '
  }
}
