/** The two reorderings of the legacy signal chain: `fine_pfb_reorder`
    (src/convert/mod.rs) and `get_vcs_order` (src/rfinput/mod.rs).  The program writes
    them with masks and shifts; both permute the four base-4 digits of an 8-bit index,
    and that is how the model states them. */
module RfInput {

  datatype Pol = X | Y

  /** The columns of a metafits tile row that decide ordering. */
  datatype Rfinput = Rfinput(input: nat, ant: nat, tileId: nat, pol: Pol, vcsOrder: nat, subfileOrder: nat)

  function MwaxOrder(antenna: nat, pol: Pol): nat {
    antenna * 2 + if pol == Y then 1 else 0
  }

  function FromRow(input: nat, antenna: nat, tileId: nat, pol: Pol): Rfinput {
    Rfinput(input, antenna, tileId, pol, VcsOrder(input), MwaxOrder(antenna, pol))
  }

  /** The two computed columns are what the table's own columns make them. */
  predicate IsRow(r: Rfinput) {
    r == FromRow(r.input, r.ant, r.tileId, r.pol)
  }

  /** Inputs of a legacy observation: 128 tiles, two polarisations. */
  const INPUTS: nat := 256
  const TILES: nat := 128

  function Digit(x: nat, weight: nat): nat
    requires weight > 0
  {
    x / weight % 4
  }

  function FinePfbReorder(input: nat): (r: nat)
    ensures r < INPUTS
  {
    64 * Digit(input, 64) + 16 * Digit(input, 1) + 4 * Digit(input, 16) + Digit(input, 4)
  }

  function VcsOrder(input: nat): (r: nat)
    ensures r < INPUTS
  {
    64 * Digit(input, 64) + 16 * Digit(input, 4) + 4 * Digit(input, 1) + Digit(input, 16)
  }

  lemma DigitsOf(x: nat, d3: nat, d2: nat, d1: nat, d0: nat)
    requires d3 < 4 && d2 < 4 && d1 < 4 && d0 < 4
    requires x == 64 * d3 + 16 * d2 + 4 * d1 + d0
    ensures Digit(x, 64) == d3 && Digit(x, 16) == d2 && Digit(x, 4) == d1 && Digit(x, 1) == d0
  {
    assert x / 4 == 16 * d3 + 4 * d2 + d1;
    assert x / 16 == 4 * d3 + d2;
    assert x / 64 == d3;
  }

  lemma DigitSum(x: nat)
    requires x < INPUTS
    ensures x == 64 * Digit(x, 64) + 16 * Digit(x, 16) + 4 * Digit(x, 4) + Digit(x, 1)
  {
    assert x / 16 == 4 * (x / 64) + x / 16 % 4;
    assert x / 4 == 4 * (x / 16) + x / 4 % 4;
  }

  lemma PfbAndVcsAreInverse(input: nat)
    requires input < INPUTS
    ensures VcsOrder(FinePfbReorder(input)) == input
    ensures FinePfbReorder(VcsOrder(input)) == input
  {
    var d3, d2, d1, d0 := Digit(input, 64), Digit(input, 16), Digit(input, 4), Digit(input, 1);
    DigitSum(input);
    DigitsOf(FinePfbReorder(input), d3, d0, d2, d1);
    DigitsOf(VcsOrder(input), d3, d1, d0, d2);
  }

  lemma BitPairsAreDigits(b: bv8)
    ensures b as nat == 64 * ((b >> 6) as nat) + 16 * (((b >> 4) & 3) as nat) + 4 * (((b >> 2) & 3) as nat) + ((b & 3) as nat)
  {
  }

  lemma ByteDigits(b: bv8)
    ensures Digit(b as nat, 64) == (b >> 6) as nat && Digit(b as nat, 16) == ((b >> 4) & 3) as nat
    ensures Digit(b as nat, 4) == ((b >> 2) & 3) as nat && Digit(b as nat, 1) == (b & 3) as nat
  {
    BitPairsAreDigits(b);
    DigitsOf(b as nat, (b >> 6) as nat, ((b >> 4) & 3) as nat, ((b >> 2) & 3) as nat, (b & 3) as nat);
  }

  /** The mask-and-shift text of `fine_pfb_reorder` is the digit permutation, for every byte. */
  lemma FinePfbReorderBits(b: bv8)
    ensures ((b & 0xc0) | ((b & 0x03) << 4) | ((b & 0x3c) >> 2)) as nat == FinePfbReorder(b as nat)
  {
    var r := (b & 0xc0) | ((b & 0x03) << 4) | ((b & 0x3c) >> 2);
    ByteDigits(b);
    BitPairsAreDigits(r);
    assert r >> 6 == b >> 6 && (r >> 4) & 3 == b & 3 && (r >> 2) & 3 == (b >> 4) & 3 && r & 3 == (b >> 2) & 3;
  }

  /** The mask-and-shift text of `get_vcs_order` is the digit permutation, for every byte. */
  lemma VcsOrderBits(b: bv8)
    ensures ((b & 0xc0) | ((b & 0x30) >> 4) | ((b & 0x0f) << 2)) as nat == VcsOrder(b as nat)
  {
    var r := (b & 0xc0) | ((b & 0x30) >> 4) | ((b & 0x0f) << 2);
    ByteDigits(b);
    BitPairsAreDigits(r);
    assert r >> 6 == b >> 6 && (r >> 4) & 3 == (b >> 2) & 3 && (r >> 2) & 3 == b & 3 && r & 3 == (b >> 4) & 3;
  }
}
