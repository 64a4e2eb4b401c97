/** The word functions of SHA-256 bit by bit: which bits of the argument every bit of the result is made of. */
module WordBits {
  import opened Fips180

  /** The 32 places of a word, the lowest first; sums of places are taken modulo 32. */
  type Position = bv5

  predicate Bit(x: Word, j: Position) { (x >> j) & 1 == 1 }

  // ----- one operation

  function And(x: Word, y: Word): Word { x & y }

  function Not(x: Word): Word { !x }

  lemma AndBit(x: Word, y: Word, j: Position)
    ensures Bit(And(x, y), j) <==> Bit(x, j) && Bit(y, j)
  {}

  lemma XorBit(x: Word, y: Word, j: Position)
    ensures Bit(x ^ y, j) <==> Bit(x, j) != Bit(y, j)
  {}

  lemma Xor3Bit(x: Word, y: Word, z: Word, j: Position)
    ensures Bit(Xor3(x, y, z), j) <==> (Bit(x, j) != (Bit(y, j) != Bit(z, j)))
  {
    hide Bit;
    XorBit(x, y, j);
    XorBit(x ^ y, z, j);
  }

  lemma NotBit(x: Word, j: Position)
    ensures Bit(Not(x), j) <==> !Bit(x, j)
  {}

  lemma Rotr2(x: Word, j: Position)
    ensures Bit(Rotr(x, 2), j) <==> Bit(x, j + 2)
  {}

  lemma Rotr6(x: Word, j: Position)
    ensures Bit(Rotr(x, 6), j) <==> Bit(x, j + 6)
  {}

  lemma Rotr7(x: Word, j: Position)
    ensures Bit(Rotr(x, 7), j) <==> Bit(x, j + 7)
  {}

  lemma Rotr11(x: Word, j: Position)
    ensures Bit(Rotr(x, 11), j) <==> Bit(x, j + 11)
  {}

  lemma Rotr13(x: Word, j: Position)
    ensures Bit(Rotr(x, 13), j) <==> Bit(x, j + 13)
  {}

  lemma Rotr17(x: Word, j: Position)
    ensures Bit(Rotr(x, 17), j) <==> Bit(x, j + 17)
  {}

  lemma Rotr18(x: Word, j: Position)
    ensures Bit(Rotr(x, 18), j) <==> Bit(x, j + 18)
  {}

  lemma Rotr19(x: Word, j: Position)
    ensures Bit(Rotr(x, 19), j) <==> Bit(x, j + 19)
  {}

  lemma Rotr22(x: Word, j: Position)
    ensures Bit(Rotr(x, 22), j) <==> Bit(x, j + 22)
  {}

  lemma Rotr25(x: Word, j: Position)
    ensures Bit(Rotr(x, 25), j) <==> Bit(x, j + 25)
  {}

  lemma Shr3(x: Word, j: Position)
    ensures Bit(x >> 3, j) <==> j < 29 && Bit(x, j + 3)
  {}

  lemma Shr10(x: Word, j: Position)
    ensures Bit(x >> 10, j) <==> j < 22 && Bit(x, j + 10)
  {}

  // ----- the six functions

  lemma ChParts(x: Word, y: Word, z: Word)
    ensures Ch(x, y, z) == And(x, y) ^ And(Not(x), z)
  {}

  lemma ChOf(x: Word, y: Word, z: Word, j: Position)
    ensures Bit(Ch(x, y, z), j) <==> Bit(And(x, y), j) != Bit(And(Not(x), z), j)
  {
    hide Ch, And, Not, Bit;
    ChParts(x, y, z);
    XorBit(And(x, y), And(Not(x), z), j);
  }

  /** Where x has a one Ch takes the bit of y, elsewhere that of z. */
  lemma ChBits(x: Word, y: Word, z: Word, j: Position)
    ensures Bit(Ch(x, y, z), j) <==> if Bit(x, j) then Bit(y, j) else Bit(z, j)
  {
    hide Ch, And, Not, Bit;
    ChOf(x, y, z, j);
    NotBit(x, j);
    AndBit(x, y, j);
    AndBit(Not(x), z, j);
  }

  lemma MajParts(x: Word, y: Word, z: Word)
    ensures Maj(x, y, z) == And(x, y) ^ And(x, z) ^ And(y, z)
  {}

  lemma MajOf(x: Word, y: Word, z: Word)
    ensures Maj(x, y, z) == Xor3(And(x, y), And(x, z), And(y, z))
  {
    hide Maj, And;
    MajParts(x, y, z);
  }

  /** Maj takes the bit that at least two of the three words have. */
  lemma MajBits(x: Word, y: Word, z: Word, j: Position)
    ensures Bit(Maj(x, y, z), j) <==> (Bit(x, j) && Bit(y, j)) || (Bit(x, j) && Bit(z, j)) || (Bit(y, j) && Bit(z, j))
  {
    hide Maj, And, Xor3, Bit;
    MajOf(x, y, z);
    AndBit(x, y, j);
    AndBit(x, z, j);
    AndBit(y, z, j);
    Xor3Bit(And(x, y), And(x, z), And(y, z), j);
  }

  /** Bit j of the large sigmas is the sum modulo 2 of three bits of x at the distances of section 4.1.2,
      counted around the word. */
  lemma BigSigmaBits(x: Word, j: Position)
    ensures Bit(BigSigma0(x), j) <==> (Bit(x, j + 2) != (Bit(x, j + 13) != Bit(x, j + 22)))
    ensures Bit(BigSigma1(x), j) <==> (Bit(x, j + 6) != (Bit(x, j + 11) != Bit(x, j + 25)))
  {
    hide Rotr, Xor3, Bit;
    Rotr2(x, j);
    Rotr13(x, j);
    Rotr22(x, j);
    Xor3Bit(Rotr(x, 2), Rotr(x, 13), Rotr(x, 22), j);
    Rotr6(x, j);
    Rotr11(x, j);
    Rotr25(x, j);
    Xor3Bit(Rotr(x, 6), Rotr(x, 11), Rotr(x, 25), j);
  }

  /** So is bit j of the small sigmas, but their third distance is a shift: nothing comes from past the top. */
  lemma SmallSigmaBits(x: Word, j: Position)
    ensures Bit(SmallSigma0(x), j) <==> (Bit(x, j + 7) != (Bit(x, j + 18) != (j < 29 && Bit(x, j + 3))))
    ensures Bit(SmallSigma1(x), j) <==> (Bit(x, j + 17) != (Bit(x, j + 19) != (j < 22 && Bit(x, j + 10))))
  {
    hide Rotr, Xor3, Bit;
    Rotr7(x, j);
    Rotr18(x, j);
    Shr3(x, j);
    Xor3Bit(Rotr(x, 7), Rotr(x, 18), x >> 3, j);
    Rotr17(x, j);
    Rotr19(x, j);
    Shr10(x, j);
    Xor3Bit(Rotr(x, 17), Rotr(x, 19), x >> 10, j);
  }
}
