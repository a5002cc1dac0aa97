/** The item names that the compilers' tables use are good item names. */
module Vocabulary {
  import opened Syntax

  predicate IsNameChar(c: char) {
    'A' <= c <= 'Z' || 'a' <= c <= 'z' || c == ' ' || c == '\''
  }

  /** Letters, inner spaces and apostrophes. */
  predicate PlainName(n: string) {
    n != "" && (forall c :: c in n ==> IsNameChar(c)) && n[0] != ' ' && n[|n| - 1] != ' '
  }

  lemma PlainIsGood(n: string)
    requires PlainName(n)
    ensures GoodName(n)
  {
    assert !IsNameChar('|') && !IsNameChar(':') && !IsNameChar('{') && !IsNameChar('}');
    assert n[0] in n && n[|n| - 1] in n;
  }

  /** JUMP_FRAG without counts. */
  lemma JumpNames()
    ensures GoodName("Cap Bounce") && GoodName("Backflip") && GoodName("Side Flip") && GoodName("Spin")
  {
    hide GoodName;
    PlainIsGood("Cap Bounce");
    PlainIsGood("Backflip");
    PlainIsGood("Side Flip");
    PlainIsGood("Spin");
  }

  lemma LongNames()
    ensures GoodName("Ground Pound Jump") && GoodName("Long Jump")
  {
    hide GoodName;
    PlainIsGood("Ground Pound Jump");
    PlainIsGood("Long Jump");
  }

  lemma ProgressiveNames()
    ensures GoodName("Progressive Jump") && GoodName("Progressive Crouch") && GoodName("Progressive Ground Pound")
  {
    hide GoodName;
    PlainIsGood("Progressive Jump");
    PlainIsGood("Progressive Crouch");
    PlainIsGood("Progressive Ground Pound");
  }

  lemma WallNames()
    ensures GoodName("Wall Slide") && GoodName("Climb")
  {
    hide GoodName;
    PlainIsGood("Wall Slide");
    PlainIsGood("Climb");
  }

  lemma ThrowNames()
    ensures GoodName("Up Throw") && GoodName("Down Throw") && GoodName("Spin Throw")
  {
    hide GoodName;
    PlainIsGood("Up Throw");
    PlainIsGood("Down Throw");
    PlainIsGood("Spin Throw");
  }

  /** Captures of the kingdom and rock gates. */
  lemma GateNames()
    ensures GoodName("Zipper") && GoodName("Spark pylon") && GoodName("Paragoomba") && GoodName("Lava Bubble")
  {
    hide GoodName;
    PlainIsGood("Zipper");
    PlainIsGood("Spark pylon");
    PlainIsGood("Paragoomba");
    PlainIsGood("Lava Bubble");
  }

  lemma CaveNames()
    ensures GoodName("Parabones") && GoodName("Banzai Bill") && GoodName("Bullet Bill")
  {
    hide GoodName;
    PlainIsGood("Parabones");
    PlainIsGood("Banzai Bill");
    PlainIsGood("Bullet Bill");
  }

  lemma BossNames()
    ensures GoodName("Knucklotec's Fist") && GoodName("Broode's Chain Chomp")
  {
    hide GoodName;
    PlainIsGood("Knucklotec's Fist");
    PlainIsGood("Broode's Chain Chomp");
  }
}
