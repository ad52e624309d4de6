/** The keyed round of the dongle as the script has it, on numbers: shifts are quotients, masks are remainders,
    and exclusive or of single bits is a sum modulo two. */
module HaspScript {
  import opened Words
  import opened Numbers

  datatype Regs = Regs(cur: nat, data: nat, index: nat)

  /** Bit p of n. */
  function BitOf(n: nat, p: nat): (b: nat)
    ensures b < 2
  {
    n / Pow2(p) % 2
  }

  /** The table bit for the five-bit index i, in the four layouts of the table. */
  function TableBitOf(i: nat, t: seq<nat>, idx: int): (b: nat)
    requires i < 32 && |t| >= 8
    ensures b < 2
  {
    if idx == 0 then BitOf(t[i / 4 - i / 4 % 2], 7 - i % 8)
    else if idx == 1 then BitOf(t[i / 4], 7 - i % 8)
    else if idx == 2 then BitOf(t[i / 8], 7 - i % 8)
    else BitOf(t[i / 8], i % 8)
  }

  /** The bit that comes into the register, a sum modulo two. */
  function Feedback(cur: nat, i: nat, st: nat): (b: nat)
    requires st < 2
    ensures b < 2
  {
    (i + (1 - st) * (i / 8) + i / 16 + cur / 1024 + cur / 128 + i / 2 % 2 * (cur / 32) + i / 4 % 2 * (cur / 256)) % 2
  }

  function Toggled(cur: nat, i: nat): nat {
    if i % 2 == 0 then cur else if cur / 4 % 2 == 0 then cur + 4 else cur - 4
  }

  function ScriptStep(r: Regs, t: seq<nat>, idx: int): Regs
    requires |t| >= 8
  {
    var i := r.data / Pow2(8 * r.index) % 32;
    var st := TableBitOf(i, t, idx);
    var cur := (2 * Toggled(r.cur, i) + Feedback(r.cur, i, st)) % 0x1_0000_0000;
    var bit := (cur / 2048 + st) % 2;
    Regs(cur, if r.data % 2 == bit then r.data / 2 else BitXor(r.data / 2, 0x80500062), 2 * (r.data % 2) + bit)
  }

  function ScriptSteps(r: Regs, t: seq<nat>, idx: int, n: nat): Regs
    requires |t| >= 8
  {
    if n == 0 then r else ScriptStep(ScriptSteps(r, t, idx, n - 1), t, idx)
  }

  /** 1 exactly if nibble j above bit 12 of the password is neither zero nor eleven or more. */
  function Flag(pw: nat, j: nat): nat {
    if 0 < pw / Pow2(12 + 4 * j) % 16 < 11 then 1 else 0
  }

  function ScriptStart(data: nat, password: nat): Regs {
    var pw := BitXor(password, 0x01081989);
    Regs(31 + 1024 * Flag(pw, 0) + 512 * Flag(pw, 1) + 256 * Flag(pw, 2) + 128 * Flag(pw, 3) + 64 * Flag(pw, 4), data, 0)
  }

  /** The whole round: thirty-nine steps. */
  function ScriptTransform(data: nat, t: seq<nat>, password: nat, idx: int): nat
    requires |t| >= 8
  {
    ScriptSteps(ScriptStart(data, password), t, idx, 39).data
  }
}
