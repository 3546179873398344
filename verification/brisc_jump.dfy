/**
 * The instruction `program_brisc_startup_addr` writes to address 0 of a
 * Tensix core so that BRISC, which starts executing at 0, jumps to its
 * firmware: a RISC-V `jal x0, MEM_BRISC_FIRMWARE_BASE`.
 */
module BriscJump {

  const JAL_OPCODE: bv32 := 0x6f
  const JAL_MAX_OFFSET: bv32 := 0x0007_ffff

  /** Bits 6..0: the major opcode. */
  function Opcode(w: bv32): bv32 {
    w & 0x7f
  }

  /** Bits 11..7: the destination register. */
  function Rd(w: bv32): bv32 {
    (w >> 7) & 0x1f
  }

  /**
   * The J-type immediate (section 2.5 of the RISC-V unprivileged ISA):
   * imm[20|10:1|11|19:12] in bits 31..12, sign-extended from bit 20.
   */
  function JalImmediate(w: bv32): int {
    var imm := (((w >> 31) & 1) << 20)
             | (((w >> 12) & 0xff) << 12)
             | (((w >> 20) & 1) << 11)
             | (((w >> 21) & 0x3ff) << 1);
    if imm & 0x10_0000 != 0 then imm as int - 0x20_0000 else imm as int
  }

  /**
   * The jump word for a firmware base below `jal_max_offset`: a `jal` that
   * links nothing and whose target, from address 0, is the base rounded
   * down to an even address.
   */
  function JumpToFirmware(base: bv32): (w: bv32)
    requires base < JAL_MAX_OFFSET
    ensures Opcode(w) == JAL_OPCODE
    ensures Rd(w) == 0
    ensures JalImmediate(w) == (base & 0x7_fffe) as int
  {
    var bit20: bv32 := 0;
    var bits10to1 := (base & 0x7fe) << 20;
    var bit11 := (base & 0x800) << 9;
    var bits19to12 := (base & 0xf_f000) << 0;
    var offset := bit20 | bits10to1 | bit11 | bits19to12;
    offset | JAL_OPCODE
  }

  /** An even firmware base is reached exactly. */
  lemma JumpReachesEvenBase(base: bv32)
    requires base < JAL_MAX_OFFSET && base & 1 == 0
    ensures JalImmediate(JumpToFirmware(base)) == base as int
  {
    assert base & 0x7_fffe == base;
  }

  /** Distinct even bases give distinct jump words. */
  lemma JumpWordsDistinct(b1: bv32, b2: bv32)
    requires b1 < JAL_MAX_OFFSET && b1 & 1 == 0
    requires b2 < JAL_MAX_OFFSET && b2 & 1 == 0
    requires b1 != b2
    ensures JumpToFirmware(b1) != JumpToFirmware(b2)
  {
    JumpReachesEvenBase(b1);
    JumpReachesEvenBase(b2);
  }
}
