/** The device identity that begin() derives from its arguments: the short
    bus uid and the bounded name strings. */
module Identity {
  import opened CanTypes

  /** The C cast `(uint16_t)x`: keep the low 16 bits. */
  function Low16(x: nat): uint16 {
    (x % 0x1_0000) as uint16
  }

  /** deviceUid16 is the low 16 bits of deviceUid64: the uid is its short
      uid plus a multiple of 2^16, uids that differ only above bit 15 get
      the same short uid, and a uid below 2^16 is its own short uid. */
  lemma Low16IsLowBits(x: nat, k: nat)
    ensures x == (x / 0x1_0000) * 0x1_0000 + Low16(x) as nat
    ensures Low16(x + k * 0x1_0000) == Low16(x)
    ensures x < 0x1_0000 ==> Low16(x) as nat == x
  {
  }

  /** strlcpy(dst, src, size) as begin() uses it: the characters of the C
      string `src` (up to its terminating NUL) are copied, at most size - 1
      of them, and dst is terminated. The result is dst without its NUL. */
  function Strlcpy(src: seq<char>, size: nat): (dst: seq<char>)
    requires size > 0
    ensures |dst| < size
    ensures dst <= src
    ensures '\0' !in dst
    ensures |dst| < size - 1 ==> |dst| == |src| || src[|dst|] == '\0'
    decreases size
  {
    if size == 1 || src == [] || src[0] == '\0' then []
    else [src[0]] + Strlcpy(src[1..], size - 1)
  }
}
