/** The `42` decoding fixture of `day21/src/c2d.rs`, replayed piece by piece:
    each piece of presses is run on its pad, its keys decoded, and the pieces
    joined with `RunAppend` and the decoding append lemmas. */
module C2dFixture {
  import opened Wrappers
  import opened Direction
  import opened Point
  import opened Commands
  import opened C2d

  /** The presses of the `42` fixture, in pieces of 4. */
  const Presses := "<v<A" + (">>^A" + ("A<vA" + ("<A>>" + ("^AAv" + ("AA<^" + ("A>A<" + ("v<A>" + ("A>^A" + ("vA^A" + "<A>A")))))))))

  const Level1Part0: seq<Command> := [Move(Left), Move(Down), Move(Left), Activate]
  const Keys1Part0: seq<Point> := [Point(0, 1)]

  lemma RunLevel1Part0()
    ensures Run(Level1Part0, Point(2, 0), DIRECTIONAL_BOUNDS, DIRECTIONAL_F) == Ok((Point(0, 1), Keys1Part0))
  {
    var none: seq<Point> := [];
    assert Level1Part0[4..] == [];
    assert Level1Part0[3..][0] == Activate && Level1Part0[3..][1..] == Level1Part0[4..];
    assert [Point(0, 1)] + [] == [Point(0, 1)];
    assert Run(Level1Part0[3..], Point(0, 1), DIRECTIONAL_BOUNDS, DIRECTIONAL_F) == Ok((Point(0, 1), [Point(0, 1)]));
    assert Level1Part0[2..][0] == Move(Left) && Level1Part0[2..][1..] == Level1Part0[3..];
    assert none + [Point(0, 1)] == [Point(0, 1)];
    assert Run(Level1Part0[2..], Point(1, 1), DIRECTIONAL_BOUNDS, DIRECTIONAL_F) == Ok((Point(0, 1), [Point(0, 1)]));
    assert Level1Part0[1..][0] == Move(Down) && Level1Part0[1..][1..] == Level1Part0[2..];
    assert none + [Point(0, 1)] == [Point(0, 1)];
    assert Run(Level1Part0[1..], Point(1, 0), DIRECTIONAL_BOUNDS, DIRECTIONAL_F) == Ok((Point(0, 1), [Point(0, 1)]));
    assert Level1Part0[0..][0] == Move(Left) && Level1Part0[0..][1..] == Level1Part0[1..];
    assert none + [Point(0, 1)] == [Point(0, 1)];
    assert Level1Part0[0..] == Level1Part0;
  }

  lemma DecodeKeys1Part0()
    ensures DirectionalKeysToCommands(Keys1Part0) == Ok(Level2Part0)
  {
    assert Keys1Part0[1..] == [];
    assert Keys1Part0[0..][0] == Point(0, 1) && Keys1Part0[0..][1..] == Keys1Part0[1..];
    assert [Move(Left)] + [] == [Move(Left)];
    assert Keys1Part0[0..] == Keys1Part0;
  }

  const Level1Part1: seq<Command> := [Move(Right), Move(Right), Move(Up), Activate]
  const Keys1Part1: seq<Point> := [Point(2, 0)]

  lemma RunLevel1Part1()
    ensures Run(Level1Part1, Point(0, 1), DIRECTIONAL_BOUNDS, DIRECTIONAL_F) == Ok((Point(2, 0), Keys1Part1))
  {
    var none: seq<Point> := [];
    assert Level1Part1[4..] == [];
    assert Level1Part1[3..][0] == Activate && Level1Part1[3..][1..] == Level1Part1[4..];
    assert [Point(2, 0)] + [] == [Point(2, 0)];
    assert Run(Level1Part1[3..], Point(2, 0), DIRECTIONAL_BOUNDS, DIRECTIONAL_F) == Ok((Point(2, 0), [Point(2, 0)]));
    assert Level1Part1[2..][0] == Move(Up) && Level1Part1[2..][1..] == Level1Part1[3..];
    assert none + [Point(2, 0)] == [Point(2, 0)];
    assert Run(Level1Part1[2..], Point(2, 1), DIRECTIONAL_BOUNDS, DIRECTIONAL_F) == Ok((Point(2, 0), [Point(2, 0)]));
    assert Level1Part1[1..][0] == Move(Right) && Level1Part1[1..][1..] == Level1Part1[2..];
    assert none + [Point(2, 0)] == [Point(2, 0)];
    assert Run(Level1Part1[1..], Point(1, 1), DIRECTIONAL_BOUNDS, DIRECTIONAL_F) == Ok((Point(2, 0), [Point(2, 0)]));
    assert Level1Part1[0..][0] == Move(Right) && Level1Part1[0..][1..] == Level1Part1[1..];
    assert none + [Point(2, 0)] == [Point(2, 0)];
    assert Level1Part1[0..] == Level1Part1;
  }

  lemma DecodeKeys1Part1()
    ensures DirectionalKeysToCommands(Keys1Part1) == Ok(Level2Part1)
  {
    assert Keys1Part1[1..] == [];
    assert Keys1Part1[0..][0] == Point(2, 0) && Keys1Part1[0..][1..] == Keys1Part1[1..];
    assert [Activate] + [] == [Activate];
    assert Keys1Part1[0..] == Keys1Part1;
  }

  const Level1Part2: seq<Command> := [Activate, Move(Left), Move(Down), Activate]
  const Keys1Part2: seq<Point> := [Point(2, 0), Point(1, 1)]

  lemma RunLevel1Part2()
    ensures Run(Level1Part2, Point(2, 0), DIRECTIONAL_BOUNDS, DIRECTIONAL_F) == Ok((Point(1, 1), Keys1Part2))
  {
    var none: seq<Point> := [];
    assert Level1Part2[4..] == [];
    assert Level1Part2[3..][0] == Activate && Level1Part2[3..][1..] == Level1Part2[4..];
    assert [Point(1, 1)] + [] == [Point(1, 1)];
    assert Run(Level1Part2[3..], Point(1, 1), DIRECTIONAL_BOUNDS, DIRECTIONAL_F) == Ok((Point(1, 1), [Point(1, 1)]));
    assert Level1Part2[2..][0] == Move(Down) && Level1Part2[2..][1..] == Level1Part2[3..];
    assert none + [Point(1, 1)] == [Point(1, 1)];
    assert Run(Level1Part2[2..], Point(1, 0), DIRECTIONAL_BOUNDS, DIRECTIONAL_F) == Ok((Point(1, 1), [Point(1, 1)]));
    assert Level1Part2[1..][0] == Move(Left) && Level1Part2[1..][1..] == Level1Part2[2..];
    assert none + [Point(1, 1)] == [Point(1, 1)];
    assert Run(Level1Part2[1..], Point(2, 0), DIRECTIONAL_BOUNDS, DIRECTIONAL_F) == Ok((Point(1, 1), [Point(1, 1)]));
    assert Level1Part2[0..][0] == Activate && Level1Part2[0..][1..] == Level1Part2[1..];
    assert [Point(2, 0)] + [Point(1, 1)] == [Point(2, 0), Point(1, 1)];
    assert Level1Part2[0..] == Level1Part2;
  }

  lemma DecodeKeys1Part2()
    ensures DirectionalKeysToCommands(Keys1Part2) == Ok(Level2Part2)
  {
    assert Keys1Part2[2..] == [];
    assert Keys1Part2[1..][0] == Point(1, 1) && Keys1Part2[1..][1..] == Keys1Part2[2..];
    assert [Move(Down)] + [] == [Move(Down)];
    assert DirectionalKeysToCommands(Keys1Part2[1..]) == Ok([Move(Down)]);
    assert Keys1Part2[0..][0] == Point(2, 0) && Keys1Part2[0..][1..] == Keys1Part2[1..];
    assert [Activate] + [Move(Down)] == [Activate, Move(Down)];
    assert Keys1Part2[0..] == Keys1Part2;
  }

  const Level1Part3: seq<Command> := [Move(Left), Activate, Move(Right), Move(Right)]
  const Keys1Part3: seq<Point> := [Point(0, 1)]

  lemma RunLevel1Part3()
    ensures Run(Level1Part3, Point(1, 1), DIRECTIONAL_BOUNDS, DIRECTIONAL_F) == Ok((Point(2, 1), Keys1Part3))
  {
    var none: seq<Point> := [];
    assert Level1Part3[4..] == [];
    assert Level1Part3[3..][0] == Move(Right) && Level1Part3[3..][1..] == Level1Part3[4..];
    assert none + [] == [];
    assert Run(Level1Part3[3..], Point(1, 1), DIRECTIONAL_BOUNDS, DIRECTIONAL_F) == Ok((Point(2, 1), []));
    assert Level1Part3[2..][0] == Move(Right) && Level1Part3[2..][1..] == Level1Part3[3..];
    assert none + [] == [];
    assert Run(Level1Part3[2..], Point(0, 1), DIRECTIONAL_BOUNDS, DIRECTIONAL_F) == Ok((Point(2, 1), []));
    assert Level1Part3[1..][0] == Activate && Level1Part3[1..][1..] == Level1Part3[2..];
    assert [Point(0, 1)] + [] == [Point(0, 1)];
    assert Run(Level1Part3[1..], Point(0, 1), DIRECTIONAL_BOUNDS, DIRECTIONAL_F) == Ok((Point(2, 1), [Point(0, 1)]));
    assert Level1Part3[0..][0] == Move(Left) && Level1Part3[0..][1..] == Level1Part3[1..];
    assert none + [Point(0, 1)] == [Point(0, 1)];
    assert Level1Part3[0..] == Level1Part3;
  }

  lemma DecodeKeys1Part3()
    ensures DirectionalKeysToCommands(Keys1Part3) == Ok(Level2Part3)
  {
    assert Keys1Part3[1..] == [];
    assert Keys1Part3[0..][0] == Point(0, 1) && Keys1Part3[0..][1..] == Keys1Part3[1..];
    assert [Move(Left)] + [] == [Move(Left)];
    assert Keys1Part3[0..] == Keys1Part3;
  }

  const Level1Part4: seq<Command> := [Move(Up), Activate, Activate, Move(Down)]
  const Keys1Part4: seq<Point> := [Point(2, 0), Point(2, 0)]

  lemma RunLevel1Part4()
    ensures Run(Level1Part4, Point(2, 1), DIRECTIONAL_BOUNDS, DIRECTIONAL_F) == Ok((Point(2, 1), Keys1Part4))
  {
    var none: seq<Point> := [];
    assert Level1Part4[4..] == [];
    assert Level1Part4[3..][0] == Move(Down) && Level1Part4[3..][1..] == Level1Part4[4..];
    assert none + [] == [];
    assert Run(Level1Part4[3..], Point(2, 0), DIRECTIONAL_BOUNDS, DIRECTIONAL_F) == Ok((Point(2, 1), []));
    assert Level1Part4[2..][0] == Activate && Level1Part4[2..][1..] == Level1Part4[3..];
    assert [Point(2, 0)] + [] == [Point(2, 0)];
    assert Run(Level1Part4[2..], Point(2, 0), DIRECTIONAL_BOUNDS, DIRECTIONAL_F) == Ok((Point(2, 1), [Point(2, 0)]));
    assert Level1Part4[1..][0] == Activate && Level1Part4[1..][1..] == Level1Part4[2..];
    assert [Point(2, 0)] + [Point(2, 0)] == [Point(2, 0), Point(2, 0)];
    assert Run(Level1Part4[1..], Point(2, 0), DIRECTIONAL_BOUNDS, DIRECTIONAL_F) == Ok((Point(2, 1), [Point(2, 0), Point(2, 0)]));
    assert Level1Part4[0..][0] == Move(Up) && Level1Part4[0..][1..] == Level1Part4[1..];
    assert none + [Point(2, 0), Point(2, 0)] == [Point(2, 0), Point(2, 0)];
    assert Level1Part4[0..] == Level1Part4;
  }

  lemma DecodeKeys1Part4()
    ensures DirectionalKeysToCommands(Keys1Part4) == Ok(Level2Part4)
  {
    assert Keys1Part4[2..] == [];
    assert Keys1Part4[1..][0] == Point(2, 0) && Keys1Part4[1..][1..] == Keys1Part4[2..];
    assert [Activate] + [] == [Activate];
    assert DirectionalKeysToCommands(Keys1Part4[1..]) == Ok([Activate]);
    assert Keys1Part4[0..][0] == Point(2, 0) && Keys1Part4[0..][1..] == Keys1Part4[1..];
    assert [Activate] + [Activate] == [Activate, Activate];
    assert Keys1Part4[0..] == Keys1Part4;
  }

  const Level1Part5: seq<Command> := [Activate, Activate, Move(Left), Move(Up)]
  const Keys1Part5: seq<Point> := [Point(2, 1), Point(2, 1)]

  lemma RunLevel1Part5()
    ensures Run(Level1Part5, Point(2, 1), DIRECTIONAL_BOUNDS, DIRECTIONAL_F) == Ok((Point(1, 0), Keys1Part5))
  {
    var none: seq<Point> := [];
    assert Level1Part5[4..] == [];
    assert Level1Part5[3..][0] == Move(Up) && Level1Part5[3..][1..] == Level1Part5[4..];
    assert none + [] == [];
    assert Run(Level1Part5[3..], Point(1, 1), DIRECTIONAL_BOUNDS, DIRECTIONAL_F) == Ok((Point(1, 0), []));
    assert Level1Part5[2..][0] == Move(Left) && Level1Part5[2..][1..] == Level1Part5[3..];
    assert none + [] == [];
    assert Run(Level1Part5[2..], Point(2, 1), DIRECTIONAL_BOUNDS, DIRECTIONAL_F) == Ok((Point(1, 0), []));
    assert Level1Part5[1..][0] == Activate && Level1Part5[1..][1..] == Level1Part5[2..];
    assert [Point(2, 1)] + [] == [Point(2, 1)];
    assert Run(Level1Part5[1..], Point(2, 1), DIRECTIONAL_BOUNDS, DIRECTIONAL_F) == Ok((Point(1, 0), [Point(2, 1)]));
    assert Level1Part5[0..][0] == Activate && Level1Part5[0..][1..] == Level1Part5[1..];
    assert [Point(2, 1)] + [Point(2, 1)] == [Point(2, 1), Point(2, 1)];
    assert Level1Part5[0..] == Level1Part5;
  }

  lemma DecodeKeys1Part5()
    ensures DirectionalKeysToCommands(Keys1Part5) == Ok(Level2Part5)
  {
    assert Keys1Part5[2..] == [];
    assert Keys1Part5[1..][0] == Point(2, 1) && Keys1Part5[1..][1..] == Keys1Part5[2..];
    assert [Move(Right)] + [] == [Move(Right)];
    assert DirectionalKeysToCommands(Keys1Part5[1..]) == Ok([Move(Right)]);
    assert Keys1Part5[0..][0] == Point(2, 1) && Keys1Part5[0..][1..] == Keys1Part5[1..];
    assert [Move(Right)] + [Move(Right)] == [Move(Right), Move(Right)];
    assert Keys1Part5[0..] == Keys1Part5;
  }

  const Level1Part6: seq<Command> := [Activate, Move(Right), Activate, Move(Left)]
  const Keys1Part6: seq<Point> := [Point(1, 0), Point(2, 0)]

  lemma RunLevel1Part6()
    ensures Run(Level1Part6, Point(1, 0), DIRECTIONAL_BOUNDS, DIRECTIONAL_F) == Ok((Point(1, 0), Keys1Part6))
  {
    var none: seq<Point> := [];
    assert Level1Part6[4..] == [];
    assert Level1Part6[3..][0] == Move(Left) && Level1Part6[3..][1..] == Level1Part6[4..];
    assert none + [] == [];
    assert Run(Level1Part6[3..], Point(2, 0), DIRECTIONAL_BOUNDS, DIRECTIONAL_F) == Ok((Point(1, 0), []));
    assert Level1Part6[2..][0] == Activate && Level1Part6[2..][1..] == Level1Part6[3..];
    assert [Point(2, 0)] + [] == [Point(2, 0)];
    assert Run(Level1Part6[2..], Point(2, 0), DIRECTIONAL_BOUNDS, DIRECTIONAL_F) == Ok((Point(1, 0), [Point(2, 0)]));
    assert Level1Part6[1..][0] == Move(Right) && Level1Part6[1..][1..] == Level1Part6[2..];
    assert none + [Point(2, 0)] == [Point(2, 0)];
    assert Run(Level1Part6[1..], Point(1, 0), DIRECTIONAL_BOUNDS, DIRECTIONAL_F) == Ok((Point(1, 0), [Point(2, 0)]));
    assert Level1Part6[0..][0] == Activate && Level1Part6[0..][1..] == Level1Part6[1..];
    assert [Point(1, 0)] + [Point(2, 0)] == [Point(1, 0), Point(2, 0)];
    assert Level1Part6[0..] == Level1Part6;
  }

  lemma DecodeKeys1Part6()
    ensures DirectionalKeysToCommands(Keys1Part6) == Ok(Level2Part6)
  {
    assert Keys1Part6[2..] == [];
    assert Keys1Part6[1..][0] == Point(2, 0) && Keys1Part6[1..][1..] == Keys1Part6[2..];
    assert [Activate] + [] == [Activate];
    assert DirectionalKeysToCommands(Keys1Part6[1..]) == Ok([Activate]);
    assert Keys1Part6[0..][0] == Point(1, 0) && Keys1Part6[0..][1..] == Keys1Part6[1..];
    assert [Move(Up)] + [Activate] == [Move(Up), Activate];
    assert Keys1Part6[0..] == Keys1Part6;
  }

  const Level1Part7: seq<Command> := [Move(Down), Move(Left), Activate, Move(Right)]
  const Keys1Part7: seq<Point> := [Point(0, 1)]

  lemma RunLevel1Part7()
    ensures Run(Level1Part7, Point(1, 0), DIRECTIONAL_BOUNDS, DIRECTIONAL_F) == Ok((Point(1, 1), Keys1Part7))
  {
    var none: seq<Point> := [];
    assert Level1Part7[4..] == [];
    assert Level1Part7[3..][0] == Move(Right) && Level1Part7[3..][1..] == Level1Part7[4..];
    assert none + [] == [];
    assert Run(Level1Part7[3..], Point(0, 1), DIRECTIONAL_BOUNDS, DIRECTIONAL_F) == Ok((Point(1, 1), []));
    assert Level1Part7[2..][0] == Activate && Level1Part7[2..][1..] == Level1Part7[3..];
    assert [Point(0, 1)] + [] == [Point(0, 1)];
    assert Run(Level1Part7[2..], Point(0, 1), DIRECTIONAL_BOUNDS, DIRECTIONAL_F) == Ok((Point(1, 1), [Point(0, 1)]));
    assert Level1Part7[1..][0] == Move(Left) && Level1Part7[1..][1..] == Level1Part7[2..];
    assert none + [Point(0, 1)] == [Point(0, 1)];
    assert Run(Level1Part7[1..], Point(1, 1), DIRECTIONAL_BOUNDS, DIRECTIONAL_F) == Ok((Point(1, 1), [Point(0, 1)]));
    assert Level1Part7[0..][0] == Move(Down) && Level1Part7[0..][1..] == Level1Part7[1..];
    assert none + [Point(0, 1)] == [Point(0, 1)];
    assert Level1Part7[0..] == Level1Part7;
  }

  lemma DecodeKeys1Part7()
    ensures DirectionalKeysToCommands(Keys1Part7) == Ok(Level2Part7)
  {
    assert Keys1Part7[1..] == [];
    assert Keys1Part7[0..][0] == Point(0, 1) && Keys1Part7[0..][1..] == Keys1Part7[1..];
    assert [Move(Left)] + [] == [Move(Left)];
    assert Keys1Part7[0..] == Keys1Part7;
  }

  const Level1Part8: seq<Command> := [Activate, Move(Right), Move(Up), Activate]
  const Keys1Part8: seq<Point> := [Point(1, 1), Point(2, 0)]

  lemma RunLevel1Part8()
    ensures Run(Level1Part8, Point(1, 1), DIRECTIONAL_BOUNDS, DIRECTIONAL_F) == Ok((Point(2, 0), Keys1Part8))
  {
    var none: seq<Point> := [];
    assert Level1Part8[4..] == [];
    assert Level1Part8[3..][0] == Activate && Level1Part8[3..][1..] == Level1Part8[4..];
    assert [Point(2, 0)] + [] == [Point(2, 0)];
    assert Run(Level1Part8[3..], Point(2, 0), DIRECTIONAL_BOUNDS, DIRECTIONAL_F) == Ok((Point(2, 0), [Point(2, 0)]));
    assert Level1Part8[2..][0] == Move(Up) && Level1Part8[2..][1..] == Level1Part8[3..];
    assert none + [Point(2, 0)] == [Point(2, 0)];
    assert Run(Level1Part8[2..], Point(2, 1), DIRECTIONAL_BOUNDS, DIRECTIONAL_F) == Ok((Point(2, 0), [Point(2, 0)]));
    assert Level1Part8[1..][0] == Move(Right) && Level1Part8[1..][1..] == Level1Part8[2..];
    assert none + [Point(2, 0)] == [Point(2, 0)];
    assert Run(Level1Part8[1..], Point(1, 1), DIRECTIONAL_BOUNDS, DIRECTIONAL_F) == Ok((Point(2, 0), [Point(2, 0)]));
    assert Level1Part8[0..][0] == Activate && Level1Part8[0..][1..] == Level1Part8[1..];
    assert [Point(1, 1)] + [Point(2, 0)] == [Point(1, 1), Point(2, 0)];
    assert Level1Part8[0..] == Level1Part8;
  }

  lemma DecodeKeys1Part8()
    ensures DirectionalKeysToCommands(Keys1Part8) == Ok(Level2Part8)
  {
    assert Keys1Part8[2..] == [];
    assert Keys1Part8[1..][0] == Point(2, 0) && Keys1Part8[1..][1..] == Keys1Part8[2..];
    assert [Activate] + [] == [Activate];
    assert DirectionalKeysToCommands(Keys1Part8[1..]) == Ok([Activate]);
    assert Keys1Part8[0..][0] == Point(1, 1) && Keys1Part8[0..][1..] == Keys1Part8[1..];
    assert [Move(Down)] + [Activate] == [Move(Down), Activate];
    assert Keys1Part8[0..] == Keys1Part8;
  }

  const Level1Part9: seq<Command> := [Move(Down), Activate, Move(Up), Activate]
  const Keys1Part9: seq<Point> := [Point(2, 1), Point(2, 0)]

  lemma RunLevel1Part9()
    ensures Run(Level1Part9, Point(2, 0), DIRECTIONAL_BOUNDS, DIRECTIONAL_F) == Ok((Point(2, 0), Keys1Part9))
  {
    var none: seq<Point> := [];
    assert Level1Part9[4..] == [];
    assert Level1Part9[3..][0] == Activate && Level1Part9[3..][1..] == Level1Part9[4..];
    assert [Point(2, 0)] + [] == [Point(2, 0)];
    assert Run(Level1Part9[3..], Point(2, 0), DIRECTIONAL_BOUNDS, DIRECTIONAL_F) == Ok((Point(2, 0), [Point(2, 0)]));
    assert Level1Part9[2..][0] == Move(Up) && Level1Part9[2..][1..] == Level1Part9[3..];
    assert none + [Point(2, 0)] == [Point(2, 0)];
    assert Run(Level1Part9[2..], Point(2, 1), DIRECTIONAL_BOUNDS, DIRECTIONAL_F) == Ok((Point(2, 0), [Point(2, 0)]));
    assert Level1Part9[1..][0] == Activate && Level1Part9[1..][1..] == Level1Part9[2..];
    assert [Point(2, 1)] + [Point(2, 0)] == [Point(2, 1), Point(2, 0)];
    assert Run(Level1Part9[1..], Point(2, 1), DIRECTIONAL_BOUNDS, DIRECTIONAL_F) == Ok((Point(2, 0), [Point(2, 1), Point(2, 0)]));
    assert Level1Part9[0..][0] == Move(Down) && Level1Part9[0..][1..] == Level1Part9[1..];
    assert none + [Point(2, 1), Point(2, 0)] == [Point(2, 1), Point(2, 0)];
    assert Level1Part9[0..] == Level1Part9;
  }

  lemma DecodeKeys1Part9()
    ensures DirectionalKeysToCommands(Keys1Part9) == Ok(Level2Part9)
  {
    assert Keys1Part9[2..] == [];
    assert Keys1Part9[1..][0] == Point(2, 0) && Keys1Part9[1..][1..] == Keys1Part9[2..];
    assert [Activate] + [] == [Activate];
    assert DirectionalKeysToCommands(Keys1Part9[1..]) == Ok([Activate]);
    assert Keys1Part9[0..][0] == Point(2, 1) && Keys1Part9[0..][1..] == Keys1Part9[1..];
    assert [Move(Right)] + [Activate] == [Move(Right), Activate];
    assert Keys1Part9[0..] == Keys1Part9;
  }

  const Level1Part10: seq<Command> := [Move(Left), Activate, Move(Right), Activate]
  const Keys1Part10: seq<Point> := [Point(1, 0), Point(2, 0)]

  lemma RunLevel1Part10()
    ensures Run(Level1Part10, Point(2, 0), DIRECTIONAL_BOUNDS, DIRECTIONAL_F) == Ok((Point(2, 0), Keys1Part10))
  {
    var none: seq<Point> := [];
    assert Level1Part10[4..] == [];
    assert Level1Part10[3..][0] == Activate && Level1Part10[3..][1..] == Level1Part10[4..];
    assert [Point(2, 0)] + [] == [Point(2, 0)];
    assert Run(Level1Part10[3..], Point(2, 0), DIRECTIONAL_BOUNDS, DIRECTIONAL_F) == Ok((Point(2, 0), [Point(2, 0)]));
    assert Level1Part10[2..][0] == Move(Right) && Level1Part10[2..][1..] == Level1Part10[3..];
    assert none + [Point(2, 0)] == [Point(2, 0)];
    assert Run(Level1Part10[2..], Point(1, 0), DIRECTIONAL_BOUNDS, DIRECTIONAL_F) == Ok((Point(2, 0), [Point(2, 0)]));
    assert Level1Part10[1..][0] == Activate && Level1Part10[1..][1..] == Level1Part10[2..];
    assert [Point(1, 0)] + [Point(2, 0)] == [Point(1, 0), Point(2, 0)];
    assert Run(Level1Part10[1..], Point(1, 0), DIRECTIONAL_BOUNDS, DIRECTIONAL_F) == Ok((Point(2, 0), [Point(1, 0), Point(2, 0)]));
    assert Level1Part10[0..][0] == Move(Left) && Level1Part10[0..][1..] == Level1Part10[1..];
    assert none + [Point(1, 0), Point(2, 0)] == [Point(1, 0), Point(2, 0)];
    assert Level1Part10[0..] == Level1Part10;
  }

  lemma DecodeKeys1Part10()
    ensures DirectionalKeysToCommands(Keys1Part10) == Ok(Level2Part10)
  {
    assert Keys1Part10[2..] == [];
    assert Keys1Part10[1..][0] == Point(2, 0) && Keys1Part10[1..][1..] == Keys1Part10[2..];
    assert [Activate] + [] == [Activate];
    assert DirectionalKeysToCommands(Keys1Part10[1..]) == Ok([Activate]);
    assert Keys1Part10[0..][0] == Point(1, 0) && Keys1Part10[0..][1..] == Keys1Part10[1..];
    assert [Move(Up)] + [Activate] == [Move(Up), Activate];
    assert Keys1Part10[0..] == Keys1Part10;
  }

  const Level1: seq<Command> := Level1Part0 + (Level1Part1 + (Level1Part2 + (Level1Part3 + (Level1Part4 + (Level1Part5 + (Level1Part6 + (Level1Part7 + (Level1Part8 + (Level1Part9 + Level1Part10)))))))))
  const Keys1: seq<Point> := Keys1Part0 + (Keys1Part1 + (Keys1Part2 + (Keys1Part3 + (Keys1Part4 + (Keys1Part5 + (Keys1Part6 + (Keys1Part7 + (Keys1Part8 + (Keys1Part9 + Keys1Part10)))))))))

  lemma PrintLevel1Part0()
    ensures CommandsToString(Level1Part0) == "<v<A"
  {
  }

  lemma PrintLevel1Part1()
    ensures CommandsToString(Level1Part1) == ">>^A"
  {
  }

  lemma PrintLevel1Part2()
    ensures CommandsToString(Level1Part2) == "A<vA"
  {
  }

  lemma PrintLevel1Part3()
    ensures CommandsToString(Level1Part3) == "<A>>"
  {
  }

  lemma PrintLevel1Part4()
    ensures CommandsToString(Level1Part4) == "^AAv"
  {
  }

  lemma PrintLevel1Part5()
    ensures CommandsToString(Level1Part5) == "AA<^"
  {
  }

  lemma PrintLevel1Part6()
    ensures CommandsToString(Level1Part6) == "A>A<"
  {
  }

  lemma PrintLevel1Part7()
    ensures CommandsToString(Level1Part7) == "v<A>"
  {
  }

  lemma PrintLevel1Part8()
    ensures CommandsToString(Level1Part8) == "A>^A"
  {
  }

  lemma PrintLevel1Part9()
    ensures CommandsToString(Level1Part9) == "vA^A"
  {
  }

  lemma PrintLevel1Part10()
    ensures CommandsToString(Level1Part10) == "<A>A"
  {
  }

  lemma PrintLevel1()
    ensures CommandsToString(Level1) == Presses
  {
    PrintLevel1Part10();
    PrintLevel1Part9();
    CommandsToStringAppend(Level1Part9, Level1Part10);
    PrintLevel1Part8();
    CommandsToStringAppend(Level1Part8, Level1Part9 + Level1Part10);
    PrintLevel1Part7();
    CommandsToStringAppend(Level1Part7, Level1Part8 + (Level1Part9 + Level1Part10));
    PrintLevel1Part6();
    CommandsToStringAppend(Level1Part6, Level1Part7 + (Level1Part8 + (Level1Part9 + Level1Part10)));
    PrintLevel1Part5();
    CommandsToStringAppend(Level1Part5, Level1Part6 + (Level1Part7 + (Level1Part8 + (Level1Part9 + Level1Part10))));
    PrintLevel1Part4();
    CommandsToStringAppend(Level1Part4, Level1Part5 + (Level1Part6 + (Level1Part7 + (Level1Part8 + (Level1Part9 + Level1Part10)))));
    PrintLevel1Part3();
    CommandsToStringAppend(Level1Part3, Level1Part4 + (Level1Part5 + (Level1Part6 + (Level1Part7 + (Level1Part8 + (Level1Part9 + Level1Part10))))));
    PrintLevel1Part2();
    CommandsToStringAppend(Level1Part2, Level1Part3 + (Level1Part4 + (Level1Part5 + (Level1Part6 + (Level1Part7 + (Level1Part8 + (Level1Part9 + Level1Part10)))))));
    PrintLevel1Part1();
    CommandsToStringAppend(Level1Part1, Level1Part2 + (Level1Part3 + (Level1Part4 + (Level1Part5 + (Level1Part6 + (Level1Part7 + (Level1Part8 + (Level1Part9 + Level1Part10))))))));
    PrintLevel1Part0();
    CommandsToStringAppend(Level1Part0, Level1Part1 + (Level1Part2 + (Level1Part3 + (Level1Part4 + (Level1Part5 + (Level1Part6 + (Level1Part7 + (Level1Part8 + (Level1Part9 + Level1Part10)))))))));
  }

  /** Replaying the level-1 presses on the first directional pad. */
  lemma RunLevel1()
    ensures CommandsOnDirectionalPad(Level1, Point(2, 0)) == Ok(Keys1)
  {
    RunLevel1Part10();
    RunLevel1Part9();
    RunAppend(Level1Part9, Level1Part10, Point(2, 0), DIRECTIONAL_BOUNDS, DIRECTIONAL_F);
    RunLevel1Part8();
    RunAppend(Level1Part8, Level1Part9 + Level1Part10, Point(1, 1), DIRECTIONAL_BOUNDS, DIRECTIONAL_F);
    RunLevel1Part7();
    RunAppend(Level1Part7, Level1Part8 + (Level1Part9 + Level1Part10), Point(1, 0), DIRECTIONAL_BOUNDS, DIRECTIONAL_F);
    RunLevel1Part6();
    RunAppend(Level1Part6, Level1Part7 + (Level1Part8 + (Level1Part9 + Level1Part10)), Point(1, 0), DIRECTIONAL_BOUNDS, DIRECTIONAL_F);
    RunLevel1Part5();
    RunAppend(Level1Part5, Level1Part6 + (Level1Part7 + (Level1Part8 + (Level1Part9 + Level1Part10))), Point(2, 1), DIRECTIONAL_BOUNDS, DIRECTIONAL_F);
    RunLevel1Part4();
    RunAppend(Level1Part4, Level1Part5 + (Level1Part6 + (Level1Part7 + (Level1Part8 + (Level1Part9 + Level1Part10)))), Point(2, 1), DIRECTIONAL_BOUNDS, DIRECTIONAL_F);
    RunLevel1Part3();
    RunAppend(Level1Part3, Level1Part4 + (Level1Part5 + (Level1Part6 + (Level1Part7 + (Level1Part8 + (Level1Part9 + Level1Part10))))), Point(1, 1), DIRECTIONAL_BOUNDS, DIRECTIONAL_F);
    RunLevel1Part2();
    RunAppend(Level1Part2, Level1Part3 + (Level1Part4 + (Level1Part5 + (Level1Part6 + (Level1Part7 + (Level1Part8 + (Level1Part9 + Level1Part10)))))), Point(2, 0), DIRECTIONAL_BOUNDS, DIRECTIONAL_F);
    RunLevel1Part1();
    RunAppend(Level1Part1, Level1Part2 + (Level1Part3 + (Level1Part4 + (Level1Part5 + (Level1Part6 + (Level1Part7 + (Level1Part8 + (Level1Part9 + Level1Part10))))))), Point(0, 1), DIRECTIONAL_BOUNDS, DIRECTIONAL_F);
    RunLevel1Part0();
    RunAppend(Level1Part0, Level1Part1 + (Level1Part2 + (Level1Part3 + (Level1Part4 + (Level1Part5 + (Level1Part6 + (Level1Part7 + (Level1Part8 + (Level1Part9 + Level1Part10)))))))), Point(2, 0), DIRECTIONAL_BOUNDS, DIRECTIONAL_F);
  }

  lemma DecodeKeys1()
    ensures DirectionalKeysToCommands(Keys1) == Ok(Level2)
  {
    DecodeKeys1Part10();
    DecodeKeys1Part9();
    DirectionalKeysAppend(Keys1Part9, Keys1Part10);
    DecodeKeys1Part8();
    DirectionalKeysAppend(Keys1Part8, Keys1Part9 + Keys1Part10);
    DecodeKeys1Part7();
    DirectionalKeysAppend(Keys1Part7, Keys1Part8 + (Keys1Part9 + Keys1Part10));
    DecodeKeys1Part6();
    DirectionalKeysAppend(Keys1Part6, Keys1Part7 + (Keys1Part8 + (Keys1Part9 + Keys1Part10)));
    DecodeKeys1Part5();
    DirectionalKeysAppend(Keys1Part5, Keys1Part6 + (Keys1Part7 + (Keys1Part8 + (Keys1Part9 + Keys1Part10))));
    DecodeKeys1Part4();
    DirectionalKeysAppend(Keys1Part4, Keys1Part5 + (Keys1Part6 + (Keys1Part7 + (Keys1Part8 + (Keys1Part9 + Keys1Part10)))));
    DecodeKeys1Part3();
    DirectionalKeysAppend(Keys1Part3, Keys1Part4 + (Keys1Part5 + (Keys1Part6 + (Keys1Part7 + (Keys1Part8 + (Keys1Part9 + Keys1Part10))))));
    DecodeKeys1Part2();
    DirectionalKeysAppend(Keys1Part2, Keys1Part3 + (Keys1Part4 + (Keys1Part5 + (Keys1Part6 + (Keys1Part7 + (Keys1Part8 + (Keys1Part9 + Keys1Part10)))))));
    DecodeKeys1Part1();
    DirectionalKeysAppend(Keys1Part1, Keys1Part2 + (Keys1Part3 + (Keys1Part4 + (Keys1Part5 + (Keys1Part6 + (Keys1Part7 + (Keys1Part8 + (Keys1Part9 + Keys1Part10))))))));
    DecodeKeys1Part0();
    DirectionalKeysAppend(Keys1Part0, Keys1Part1 + (Keys1Part2 + (Keys1Part3 + (Keys1Part4 + (Keys1Part5 + (Keys1Part6 + (Keys1Part7 + (Keys1Part8 + (Keys1Part9 + Keys1Part10)))))))));
  }

  const Level2Part0: seq<Command> := [Move(Left)]
  const Keys2Part0: seq<Point> := []

  lemma RunLevel2Part0()
    ensures Run(Level2Part0, Point(2, 0), DIRECTIONAL_BOUNDS, DIRECTIONAL_F) == Ok((Point(1, 0), Keys2Part0))
  {
    var none: seq<Point> := [];
    assert Level2Part0[1..] == [];
    assert Level2Part0[0..][0] == Move(Left) && Level2Part0[0..][1..] == Level2Part0[1..];
    assert none + [] == [];
    assert Level2Part0[0..] == Level2Part0;
  }

  const Level2Part1: seq<Command> := [Activate]
  const Keys2Part1: seq<Point> := [Point(1, 0)]

  lemma RunLevel2Part1()
    ensures Run(Level2Part1, Point(1, 0), DIRECTIONAL_BOUNDS, DIRECTIONAL_F) == Ok((Point(1, 0), Keys2Part1))
  {
    var none: seq<Point> := [];
    assert Level2Part1[1..] == [];
    assert Level2Part1[0..][0] == Activate && Level2Part1[0..][1..] == Level2Part1[1..];
    assert [Point(1, 0)] + [] == [Point(1, 0)];
    assert Level2Part1[0..] == Level2Part1;
  }

  lemma DecodeKeys2Part1()
    ensures DirectionalKeysToCommands(Keys2Part1) == Ok(Level3Part1)
  {
    assert Keys2Part1[1..] == [];
    assert Keys2Part1[0..][0] == Point(1, 0) && Keys2Part1[0..][1..] == Keys2Part1[1..];
    assert [Move(Up)] + [] == [Move(Up)];
    assert Keys2Part1[0..] == Keys2Part1;
  }

  const Level2Part2: seq<Command> := [Activate, Move(Down)]
  const Keys2Part2: seq<Point> := [Point(1, 0)]

  lemma RunLevel2Part2()
    ensures Run(Level2Part2, Point(1, 0), DIRECTIONAL_BOUNDS, DIRECTIONAL_F) == Ok((Point(1, 1), Keys2Part2))
  {
    var none: seq<Point> := [];
    assert Level2Part2[2..] == [];
    assert Level2Part2[1..][0] == Move(Down) && Level2Part2[1..][1..] == Level2Part2[2..];
    assert none + [] == [];
    assert Run(Level2Part2[1..], Point(1, 0), DIRECTIONAL_BOUNDS, DIRECTIONAL_F) == Ok((Point(1, 1), []));
    assert Level2Part2[0..][0] == Activate && Level2Part2[0..][1..] == Level2Part2[1..];
    assert [Point(1, 0)] + [] == [Point(1, 0)];
    assert Level2Part2[0..] == Level2Part2;
  }

  lemma DecodeKeys2Part2()
    ensures DirectionalKeysToCommands(Keys2Part2) == Ok(Level3Part2)
  {
    assert Keys2Part2[1..] == [];
    assert Keys2Part2[0..][0] == Point(1, 0) && Keys2Part2[0..][1..] == Keys2Part2[1..];
    assert [Move(Up)] + [] == [Move(Up)];
    assert Keys2Part2[0..] == Keys2Part2;
  }

  const Level2Part3: seq<Command> := [Move(Left)]
  const Keys2Part3: seq<Point> := []

  lemma RunLevel2Part3()
    ensures Run(Level2Part3, Point(1, 1), DIRECTIONAL_BOUNDS, DIRECTIONAL_F) == Ok((Point(0, 1), Keys2Part3))
  {
    var none: seq<Point> := [];
    assert Level2Part3[1..] == [];
    assert Level2Part3[0..][0] == Move(Left) && Level2Part3[0..][1..] == Level2Part3[1..];
    assert none + [] == [];
    assert Level2Part3[0..] == Level2Part3;
  }

  const Level2Part4: seq<Command> := [Activate, Activate]
  const Keys2Part4: seq<Point> := [Point(0, 1), Point(0, 1)]

  lemma RunLevel2Part4()
    ensures Run(Level2Part4, Point(0, 1), DIRECTIONAL_BOUNDS, DIRECTIONAL_F) == Ok((Point(0, 1), Keys2Part4))
  {
    var none: seq<Point> := [];
    assert Level2Part4[2..] == [];
    assert Level2Part4[1..][0] == Activate && Level2Part4[1..][1..] == Level2Part4[2..];
    assert [Point(0, 1)] + [] == [Point(0, 1)];
    assert Run(Level2Part4[1..], Point(0, 1), DIRECTIONAL_BOUNDS, DIRECTIONAL_F) == Ok((Point(0, 1), [Point(0, 1)]));
    assert Level2Part4[0..][0] == Activate && Level2Part4[0..][1..] == Level2Part4[1..];
    assert [Point(0, 1)] + [Point(0, 1)] == [Point(0, 1), Point(0, 1)];
    assert Level2Part4[0..] == Level2Part4;
  }

  lemma DecodeKeys2Part4()
    ensures DirectionalKeysToCommands(Keys2Part4) == Ok(Level3Part4)
  {
    assert Keys2Part4[2..] == [];
    assert Keys2Part4[1..][0] == Point(0, 1) && Keys2Part4[1..][1..] == Keys2Part4[2..];
    assert [Move(Left)] + [] == [Move(Left)];
    assert DirectionalKeysToCommands(Keys2Part4[1..]) == Ok([Move(Left)]);
    assert Keys2Part4[0..][0] == Point(0, 1) && Keys2Part4[0..][1..] == Keys2Part4[1..];
    assert [Move(Left)] + [Move(Left)] == [Move(Left), Move(Left)];
    assert Keys2Part4[0..] == Keys2Part4;
  }

  const Level2Part5: seq<Command> := [Move(Right), Move(Right)]
  const Keys2Part5: seq<Point> := []

  lemma RunLevel2Part5()
    ensures Run(Level2Part5, Point(0, 1), DIRECTIONAL_BOUNDS, DIRECTIONAL_F) == Ok((Point(2, 1), Keys2Part5))
  {
    var none: seq<Point> := [];
    assert Level2Part5[2..] == [];
    assert Level2Part5[1..][0] == Move(Right) && Level2Part5[1..][1..] == Level2Part5[2..];
    assert none + [] == [];
    assert Run(Level2Part5[1..], Point(1, 1), DIRECTIONAL_BOUNDS, DIRECTIONAL_F) == Ok((Point(2, 1), []));
    assert Level2Part5[0..][0] == Move(Right) && Level2Part5[0..][1..] == Level2Part5[1..];
    assert none + [] == [];
    assert Level2Part5[0..] == Level2Part5;
  }

  const Level2Part6: seq<Command> := [Move(Up), Activate]
  const Keys2Part6: seq<Point> := [Point(2, 0)]

  lemma RunLevel2Part6()
    ensures Run(Level2Part6, Point(2, 1), DIRECTIONAL_BOUNDS, DIRECTIONAL_F) == Ok((Point(2, 0), Keys2Part6))
  {
    var none: seq<Point> := [];
    assert Level2Part6[2..] == [];
    assert Level2Part6[1..][0] == Activate && Level2Part6[1..][1..] == Level2Part6[2..];
    assert [Point(2, 0)] + [] == [Point(2, 0)];
    assert Run(Level2Part6[1..], Point(2, 0), DIRECTIONAL_BOUNDS, DIRECTIONAL_F) == Ok((Point(2, 0), [Point(2, 0)]));
    assert Level2Part6[0..][0] == Move(Up) && Level2Part6[0..][1..] == Level2Part6[1..];
    assert none + [Point(2, 0)] == [Point(2, 0)];
    assert Level2Part6[0..] == Level2Part6;
  }

  lemma DecodeKeys2Part6()
    ensures DirectionalKeysToCommands(Keys2Part6) == Ok(Level3Part6)
  {
    assert Keys2Part6[1..] == [];
    assert Keys2Part6[0..][0] == Point(2, 0) && Keys2Part6[0..][1..] == Keys2Part6[1..];
    assert [Activate] + [] == [Activate];
    assert Keys2Part6[0..] == Keys2Part6;
  }

  const Level2Part7: seq<Command> := [Move(Left)]
  const Keys2Part7: seq<Point> := []

  lemma RunLevel2Part7()
    ensures Run(Level2Part7, Point(2, 0), DIRECTIONAL_BOUNDS, DIRECTIONAL_F) == Ok((Point(1, 0), Keys2Part7))
  {
    var none: seq<Point> := [];
    assert Level2Part7[1..] == [];
    assert Level2Part7[0..][0] == Move(Left) && Level2Part7[0..][1..] == Level2Part7[1..];
    assert none + [] == [];
    assert Level2Part7[0..] == Level2Part7;
  }

  const Level2Part8: seq<Command> := [Move(Down), Activate]
  const Keys2Part8: seq<Point> := [Point(1, 1)]

  lemma RunLevel2Part8()
    ensures Run(Level2Part8, Point(1, 0), DIRECTIONAL_BOUNDS, DIRECTIONAL_F) == Ok((Point(1, 1), Keys2Part8))
  {
    var none: seq<Point> := [];
    assert Level2Part8[2..] == [];
    assert Level2Part8[1..][0] == Activate && Level2Part8[1..][1..] == Level2Part8[2..];
    assert [Point(1, 1)] + [] == [Point(1, 1)];
    assert Run(Level2Part8[1..], Point(1, 1), DIRECTIONAL_BOUNDS, DIRECTIONAL_F) == Ok((Point(1, 1), [Point(1, 1)]));
    assert Level2Part8[0..][0] == Move(Down) && Level2Part8[0..][1..] == Level2Part8[1..];
    assert none + [Point(1, 1)] == [Point(1, 1)];
    assert Level2Part8[0..] == Level2Part8;
  }

  lemma DecodeKeys2Part8()
    ensures DirectionalKeysToCommands(Keys2Part8) == Ok(Level3Part8)
  {
    assert Keys2Part8[1..] == [];
    assert Keys2Part8[0..][0] == Point(1, 1) && Keys2Part8[0..][1..] == Keys2Part8[1..];
    assert [Move(Down)] + [] == [Move(Down)];
    assert Keys2Part8[0..] == Keys2Part8;
  }

  const Level2Part9: seq<Command> := [Move(Right), Activate]
  const Keys2Part9: seq<Point> := [Point(2, 1)]

  lemma RunLevel2Part9()
    ensures Run(Level2Part9, Point(1, 1), DIRECTIONAL_BOUNDS, DIRECTIONAL_F) == Ok((Point(2, 1), Keys2Part9))
  {
    var none: seq<Point> := [];
    assert Level2Part9[2..] == [];
    assert Level2Part9[1..][0] == Activate && Level2Part9[1..][1..] == Level2Part9[2..];
    assert [Point(2, 1)] + [] == [Point(2, 1)];
    assert Run(Level2Part9[1..], Point(2, 1), DIRECTIONAL_BOUNDS, DIRECTIONAL_F) == Ok((Point(2, 1), [Point(2, 1)]));
    assert Level2Part9[0..][0] == Move(Right) && Level2Part9[0..][1..] == Level2Part9[1..];
    assert none + [Point(2, 1)] == [Point(2, 1)];
    assert Level2Part9[0..] == Level2Part9;
  }

  lemma DecodeKeys2Part9()
    ensures DirectionalKeysToCommands(Keys2Part9) == Ok(Level3Part9)
  {
    assert Keys2Part9[1..] == [];
    assert Keys2Part9[0..][0] == Point(2, 1) && Keys2Part9[0..][1..] == Keys2Part9[1..];
    assert [Move(Right)] + [] == [Move(Right)];
    assert Keys2Part9[0..] == Keys2Part9;
  }

  const Level2Part10: seq<Command> := [Move(Up), Activate]
  const Keys2Part10: seq<Point> := [Point(2, 0)]

  lemma RunLevel2Part10()
    ensures Run(Level2Part10, Point(2, 1), DIRECTIONAL_BOUNDS, DIRECTIONAL_F) == Ok((Point(2, 0), Keys2Part10))
  {
    var none: seq<Point> := [];
    assert Level2Part10[2..] == [];
    assert Level2Part10[1..][0] == Activate && Level2Part10[1..][1..] == Level2Part10[2..];
    assert [Point(2, 0)] + [] == [Point(2, 0)];
    assert Run(Level2Part10[1..], Point(2, 0), DIRECTIONAL_BOUNDS, DIRECTIONAL_F) == Ok((Point(2, 0), [Point(2, 0)]));
    assert Level2Part10[0..][0] == Move(Up) && Level2Part10[0..][1..] == Level2Part10[1..];
    assert none + [Point(2, 0)] == [Point(2, 0)];
    assert Level2Part10[0..] == Level2Part10;
  }

  lemma DecodeKeys2Part10()
    ensures DirectionalKeysToCommands(Keys2Part10) == Ok(Level3Part10)
  {
    assert Keys2Part10[1..] == [];
    assert Keys2Part10[0..][0] == Point(2, 0) && Keys2Part10[0..][1..] == Keys2Part10[1..];
    assert [Activate] + [] == [Activate];
    assert Keys2Part10[0..] == Keys2Part10;
  }

  const Level2: seq<Command> := Level2Part0 + (Level2Part1 + (Level2Part2 + (Level2Part3 + (Level2Part4 + (Level2Part5 + (Level2Part6 + (Level2Part7 + (Level2Part8 + (Level2Part9 + Level2Part10)))))))))
  const Keys2: seq<Point> := Keys2Part0 + (Keys2Part1 + (Keys2Part2 + (Keys2Part3 + (Keys2Part4 + (Keys2Part5 + (Keys2Part6 + (Keys2Part7 + (Keys2Part8 + (Keys2Part9 + Keys2Part10)))))))))

  /** Replaying the level-2 presses on the second directional pad. */
  lemma RunLevel2()
    ensures CommandsOnDirectionalPad(Level2, Point(2, 0)) == Ok(Keys2)
  {
    RunLevel2Part10();
    RunLevel2Part9();
    RunAppend(Level2Part9, Level2Part10, Point(1, 1), DIRECTIONAL_BOUNDS, DIRECTIONAL_F);
    RunLevel2Part8();
    RunAppend(Level2Part8, Level2Part9 + Level2Part10, Point(1, 0), DIRECTIONAL_BOUNDS, DIRECTIONAL_F);
    RunLevel2Part7();
    RunAppend(Level2Part7, Level2Part8 + (Level2Part9 + Level2Part10), Point(2, 0), DIRECTIONAL_BOUNDS, DIRECTIONAL_F);
    RunLevel2Part6();
    RunAppend(Level2Part6, Level2Part7 + (Level2Part8 + (Level2Part9 + Level2Part10)), Point(2, 1), DIRECTIONAL_BOUNDS, DIRECTIONAL_F);
    RunLevel2Part5();
    RunAppend(Level2Part5, Level2Part6 + (Level2Part7 + (Level2Part8 + (Level2Part9 + Level2Part10))), Point(0, 1), DIRECTIONAL_BOUNDS, DIRECTIONAL_F);
    RunLevel2Part4();
    RunAppend(Level2Part4, Level2Part5 + (Level2Part6 + (Level2Part7 + (Level2Part8 + (Level2Part9 + Level2Part10)))), Point(0, 1), DIRECTIONAL_BOUNDS, DIRECTIONAL_F);
    RunLevel2Part3();
    RunAppend(Level2Part3, Level2Part4 + (Level2Part5 + (Level2Part6 + (Level2Part7 + (Level2Part8 + (Level2Part9 + Level2Part10))))), Point(1, 1), DIRECTIONAL_BOUNDS, DIRECTIONAL_F);
    RunLevel2Part2();
    RunAppend(Level2Part2, Level2Part3 + (Level2Part4 + (Level2Part5 + (Level2Part6 + (Level2Part7 + (Level2Part8 + (Level2Part9 + Level2Part10)))))), Point(1, 0), DIRECTIONAL_BOUNDS, DIRECTIONAL_F);
    RunLevel2Part1();
    RunAppend(Level2Part1, Level2Part2 + (Level2Part3 + (Level2Part4 + (Level2Part5 + (Level2Part6 + (Level2Part7 + (Level2Part8 + (Level2Part9 + Level2Part10))))))), Point(1, 0), DIRECTIONAL_BOUNDS, DIRECTIONAL_F);
    RunLevel2Part0();
    RunAppend(Level2Part0, Level2Part1 + (Level2Part2 + (Level2Part3 + (Level2Part4 + (Level2Part5 + (Level2Part6 + (Level2Part7 + (Level2Part8 + (Level2Part9 + Level2Part10)))))))), Point(2, 0), DIRECTIONAL_BOUNDS, DIRECTIONAL_F);
  }

  lemma DecodeKeys2()
    ensures DirectionalKeysToCommands(Keys2) == Ok(Level3)
  {
    DecodeKeys2Part10();
    DecodeKeys2Part9();
    DirectionalKeysAppend(Keys2Part9, Keys2Part10);
    DecodeKeys2Part8();
    DirectionalKeysAppend(Keys2Part8, Keys2Part9 + Keys2Part10);
    DirectionalKeysAppend(Keys2Part7, Keys2Part8 + (Keys2Part9 + Keys2Part10));
    DecodeKeys2Part6();
    DirectionalKeysAppend(Keys2Part6, Keys2Part7 + (Keys2Part8 + (Keys2Part9 + Keys2Part10)));
    DirectionalKeysAppend(Keys2Part5, Keys2Part6 + (Keys2Part7 + (Keys2Part8 + (Keys2Part9 + Keys2Part10))));
    DecodeKeys2Part4();
    DirectionalKeysAppend(Keys2Part4, Keys2Part5 + (Keys2Part6 + (Keys2Part7 + (Keys2Part8 + (Keys2Part9 + Keys2Part10)))));
    DirectionalKeysAppend(Keys2Part3, Keys2Part4 + (Keys2Part5 + (Keys2Part6 + (Keys2Part7 + (Keys2Part8 + (Keys2Part9 + Keys2Part10))))));
    DecodeKeys2Part2();
    DirectionalKeysAppend(Keys2Part2, Keys2Part3 + (Keys2Part4 + (Keys2Part5 + (Keys2Part6 + (Keys2Part7 + (Keys2Part8 + (Keys2Part9 + Keys2Part10)))))));
    DecodeKeys2Part1();
    DirectionalKeysAppend(Keys2Part1, Keys2Part2 + (Keys2Part3 + (Keys2Part4 + (Keys2Part5 + (Keys2Part6 + (Keys2Part7 + (Keys2Part8 + (Keys2Part9 + Keys2Part10))))))));
    DirectionalKeysAppend(Keys2Part0, Keys2Part1 + (Keys2Part2 + (Keys2Part3 + (Keys2Part4 + (Keys2Part5 + (Keys2Part6 + (Keys2Part7 + (Keys2Part8 + (Keys2Part9 + Keys2Part10)))))))));
  }

  const Level3Part0: seq<Command> := []
  const Keys3Part0: seq<Point> := []

  const Level3Part1: seq<Command> := [Move(Up)]
  const Keys3Part1: seq<Point> := []

  lemma RunLevel3Part1()
    ensures Run(Level3Part1, Point(2, 3), NUMERIC_BOUNDS, NUMERIC_F) == Ok((Point(2, 2), Keys3Part1))
  {
    var none: seq<Point> := [];
    assert Level3Part1[1..] == [];
    assert Level3Part1[0..][0] == Move(Up) && Level3Part1[0..][1..] == Level3Part1[1..];
    assert none + [] == [];
    assert Level3Part1[0..] == Level3Part1;
  }

  const Level3Part2: seq<Command> := [Move(Up)]
  const Keys3Part2: seq<Point> := []

  lemma RunLevel3Part2()
    ensures Run(Level3Part2, Point(2, 2), NUMERIC_BOUNDS, NUMERIC_F) == Ok((Point(2, 1), Keys3Part2))
  {
    var none: seq<Point> := [];
    assert Level3Part2[1..] == [];
    assert Level3Part2[0..][0] == Move(Up) && Level3Part2[0..][1..] == Level3Part2[1..];
    assert none + [] == [];
    assert Level3Part2[0..] == Level3Part2;
  }

  const Level3Part3: seq<Command> := []
  const Keys3Part3: seq<Point> := []

  const Level3Part4: seq<Command> := [Move(Left), Move(Left)]
  const Keys3Part4: seq<Point> := []

  lemma RunLevel3Part4()
    ensures Run(Level3Part4, Point(2, 1), NUMERIC_BOUNDS, NUMERIC_F) == Ok((Point(0, 1), Keys3Part4))
  {
    var none: seq<Point> := [];
    assert Level3Part4[2..] == [];
    assert Level3Part4[1..][0] == Move(Left) && Level3Part4[1..][1..] == Level3Part4[2..];
    assert none + [] == [];
    assert Run(Level3Part4[1..], Point(1, 1), NUMERIC_BOUNDS, NUMERIC_F) == Ok((Point(0, 1), []));
    assert Level3Part4[0..][0] == Move(Left) && Level3Part4[0..][1..] == Level3Part4[1..];
    assert none + [] == [];
    assert Level3Part4[0..] == Level3Part4;
  }

  const Level3Part5: seq<Command> := []
  const Keys3Part5: seq<Point> := []

  const Level3Part6: seq<Command> := [Activate]
  const Keys3Part6: seq<Point> := [Point(0, 1)]

  lemma RunLevel3Part6()
    ensures Run(Level3Part6, Point(0, 1), NUMERIC_BOUNDS, NUMERIC_F) == Ok((Point(0, 1), Keys3Part6))
  {
    var none: seq<Point> := [];
    assert Level3Part6[1..] == [];
    assert Level3Part6[0..][0] == Activate && Level3Part6[0..][1..] == Level3Part6[1..];
    assert [Point(0, 1)] + [] == [Point(0, 1)];
    assert Level3Part6[0..] == Level3Part6;
  }

  lemma DecodeKeys3Part6()
    ensures NumericKeysToDigits(Keys3Part6) == Ok("4")
  {
    assert Keys3Part6[1..] == [];
    assert Keys3Part6[0..][0] == Point(0, 1) && Keys3Part6[0..][1..] == Keys3Part6[1..];
    assert ['4'] + [] == ['4'];
    assert Keys3Part6[0..] == Keys3Part6;
  }

  const Level3Part7: seq<Command> := []
  const Keys3Part7: seq<Point> := []

  const Level3Part8: seq<Command> := [Move(Down)]
  const Keys3Part8: seq<Point> := []

  lemma RunLevel3Part8()
    ensures Run(Level3Part8, Point(0, 1), NUMERIC_BOUNDS, NUMERIC_F) == Ok((Point(0, 2), Keys3Part8))
  {
    var none: seq<Point> := [];
    assert Level3Part8[1..] == [];
    assert Level3Part8[0..][0] == Move(Down) && Level3Part8[0..][1..] == Level3Part8[1..];
    assert none + [] == [];
    assert Level3Part8[0..] == Level3Part8;
  }

  const Level3Part9: seq<Command> := [Move(Right)]
  const Keys3Part9: seq<Point> := []

  lemma RunLevel3Part9()
    ensures Run(Level3Part9, Point(0, 2), NUMERIC_BOUNDS, NUMERIC_F) == Ok((Point(1, 2), Keys3Part9))
  {
    var none: seq<Point> := [];
    assert Level3Part9[1..] == [];
    assert Level3Part9[0..][0] == Move(Right) && Level3Part9[0..][1..] == Level3Part9[1..];
    assert none + [] == [];
    assert Level3Part9[0..] == Level3Part9;
  }

  const Level3Part10: seq<Command> := [Activate]
  const Keys3Part10: seq<Point> := [Point(1, 2)]

  lemma RunLevel3Part10()
    ensures Run(Level3Part10, Point(1, 2), NUMERIC_BOUNDS, NUMERIC_F) == Ok((Point(1, 2), Keys3Part10))
  {
    var none: seq<Point> := [];
    assert Level3Part10[1..] == [];
    assert Level3Part10[0..][0] == Activate && Level3Part10[0..][1..] == Level3Part10[1..];
    assert [Point(1, 2)] + [] == [Point(1, 2)];
    assert Level3Part10[0..] == Level3Part10;
  }

  lemma DecodeKeys3Part10()
    ensures NumericKeysToDigits(Keys3Part10) == Ok("2")
  {
    assert Keys3Part10[1..] == [];
    assert Keys3Part10[0..][0] == Point(1, 2) && Keys3Part10[0..][1..] == Keys3Part10[1..];
    assert ['2'] + [] == ['2'];
    assert Keys3Part10[0..] == Keys3Part10;
  }

  const Level3: seq<Command> := Level3Part0 + (Level3Part1 + (Level3Part2 + (Level3Part3 + (Level3Part4 + (Level3Part5 + (Level3Part6 + (Level3Part7 + (Level3Part8 + (Level3Part9 + Level3Part10)))))))))
  const Keys3: seq<Point> := Keys3Part0 + (Keys3Part1 + (Keys3Part2 + (Keys3Part3 + (Keys3Part4 + (Keys3Part5 + (Keys3Part6 + (Keys3Part7 + (Keys3Part8 + (Keys3Part9 + Keys3Part10)))))))))

  /** Replaying the level-3 presses on the numeric pad. */
  lemma RunLevel3()
    ensures CommandsOnNumericPad(Level3, Point(2, 3)) == Ok(Keys3)
  {
    RunLevel3Part10();
    RunLevel3Part9();
    RunAppend(Level3Part9, Level3Part10, Point(0, 2), NUMERIC_BOUNDS, NUMERIC_F);
    RunLevel3Part8();
    RunAppend(Level3Part8, Level3Part9 + Level3Part10, Point(0, 1), NUMERIC_BOUNDS, NUMERIC_F);
    RunAppend(Level3Part7, Level3Part8 + (Level3Part9 + Level3Part10), Point(0, 1), NUMERIC_BOUNDS, NUMERIC_F);
    RunLevel3Part6();
    RunAppend(Level3Part6, Level3Part7 + (Level3Part8 + (Level3Part9 + Level3Part10)), Point(0, 1), NUMERIC_BOUNDS, NUMERIC_F);
    RunAppend(Level3Part5, Level3Part6 + (Level3Part7 + (Level3Part8 + (Level3Part9 + Level3Part10))), Point(0, 1), NUMERIC_BOUNDS, NUMERIC_F);
    RunLevel3Part4();
    RunAppend(Level3Part4, Level3Part5 + (Level3Part6 + (Level3Part7 + (Level3Part8 + (Level3Part9 + Level3Part10)))), Point(2, 1), NUMERIC_BOUNDS, NUMERIC_F);
    RunAppend(Level3Part3, Level3Part4 + (Level3Part5 + (Level3Part6 + (Level3Part7 + (Level3Part8 + (Level3Part9 + Level3Part10))))), Point(2, 1), NUMERIC_BOUNDS, NUMERIC_F);
    RunLevel3Part2();
    RunAppend(Level3Part2, Level3Part3 + (Level3Part4 + (Level3Part5 + (Level3Part6 + (Level3Part7 + (Level3Part8 + (Level3Part9 + Level3Part10)))))), Point(2, 2), NUMERIC_BOUNDS, NUMERIC_F);
    RunLevel3Part1();
    RunAppend(Level3Part1, Level3Part2 + (Level3Part3 + (Level3Part4 + (Level3Part5 + (Level3Part6 + (Level3Part7 + (Level3Part8 + (Level3Part9 + Level3Part10))))))), Point(2, 3), NUMERIC_BOUNDS, NUMERIC_F);
    RunAppend(Level3Part0, Level3Part1 + (Level3Part2 + (Level3Part3 + (Level3Part4 + (Level3Part5 + (Level3Part6 + (Level3Part7 + (Level3Part8 + (Level3Part9 + Level3Part10)))))))), Point(2, 3), NUMERIC_BOUNDS, NUMERIC_F);
  }

  lemma DecodeKeys3()
    ensures NumericKeysToDigits(Keys3) == Ok("42")
  {
    DecodeKeys3Part10();
    NumericKeysAppend(Keys3Part9, Keys3Part10);
    assert "" + "2" == "2";
    assert NumericKeysToDigits(Keys3Part9 + Keys3Part10) == Ok("2");
    NumericKeysAppend(Keys3Part8, Keys3Part9 + Keys3Part10);
    assert "" + "2" == "2";
    assert NumericKeysToDigits(Keys3Part8 + (Keys3Part9 + Keys3Part10)) == Ok("2");
    NumericKeysAppend(Keys3Part7, Keys3Part8 + (Keys3Part9 + Keys3Part10));
    assert "" + "2" == "2";
    assert NumericKeysToDigits(Keys3Part7 + (Keys3Part8 + (Keys3Part9 + Keys3Part10))) == Ok("2");
    DecodeKeys3Part6();
    NumericKeysAppend(Keys3Part6, Keys3Part7 + (Keys3Part8 + (Keys3Part9 + Keys3Part10)));
    assert "4" + "2" == "42";
    assert NumericKeysToDigits(Keys3Part6 + (Keys3Part7 + (Keys3Part8 + (Keys3Part9 + Keys3Part10)))) == Ok("42");
    NumericKeysAppend(Keys3Part5, Keys3Part6 + (Keys3Part7 + (Keys3Part8 + (Keys3Part9 + Keys3Part10))));
    assert "" + "42" == "42";
    assert NumericKeysToDigits(Keys3Part5 + (Keys3Part6 + (Keys3Part7 + (Keys3Part8 + (Keys3Part9 + Keys3Part10))))) == Ok("42");
    NumericKeysAppend(Keys3Part4, Keys3Part5 + (Keys3Part6 + (Keys3Part7 + (Keys3Part8 + (Keys3Part9 + Keys3Part10)))));
    assert "" + "42" == "42";
    assert NumericKeysToDigits(Keys3Part4 + (Keys3Part5 + (Keys3Part6 + (Keys3Part7 + (Keys3Part8 + (Keys3Part9 + Keys3Part10)))))) == Ok("42");
    NumericKeysAppend(Keys3Part3, Keys3Part4 + (Keys3Part5 + (Keys3Part6 + (Keys3Part7 + (Keys3Part8 + (Keys3Part9 + Keys3Part10))))));
    assert "" + "42" == "42";
    assert NumericKeysToDigits(Keys3Part3 + (Keys3Part4 + (Keys3Part5 + (Keys3Part6 + (Keys3Part7 + (Keys3Part8 + (Keys3Part9 + Keys3Part10))))))) == Ok("42");
    NumericKeysAppend(Keys3Part2, Keys3Part3 + (Keys3Part4 + (Keys3Part5 + (Keys3Part6 + (Keys3Part7 + (Keys3Part8 + (Keys3Part9 + Keys3Part10)))))));
    assert "" + "42" == "42";
    assert NumericKeysToDigits(Keys3Part2 + (Keys3Part3 + (Keys3Part4 + (Keys3Part5 + (Keys3Part6 + (Keys3Part7 + (Keys3Part8 + (Keys3Part9 + Keys3Part10)))))))) == Ok("42");
    NumericKeysAppend(Keys3Part1, Keys3Part2 + (Keys3Part3 + (Keys3Part4 + (Keys3Part5 + (Keys3Part6 + (Keys3Part7 + (Keys3Part8 + (Keys3Part9 + Keys3Part10))))))));
    assert "" + "42" == "42";
    assert NumericKeysToDigits(Keys3Part1 + (Keys3Part2 + (Keys3Part3 + (Keys3Part4 + (Keys3Part5 + (Keys3Part6 + (Keys3Part7 + (Keys3Part8 + (Keys3Part9 + Keys3Part10))))))))) == Ok("42");
    NumericKeysAppend(Keys3Part0, Keys3Part1 + (Keys3Part2 + (Keys3Part3 + (Keys3Part4 + (Keys3Part5 + (Keys3Part6 + (Keys3Part7 + (Keys3Part8 + (Keys3Part9 + Keys3Part10)))))))));
    assert "" + "42" == "42";
    assert NumericKeysToDigits(Keys3Part0 + (Keys3Part1 + (Keys3Part2 + (Keys3Part3 + (Keys3Part4 + (Keys3Part5 + (Keys3Part6 + (Keys3Part7 + (Keys3Part8 + (Keys3Part9 + Keys3Part10)))))))))) == Ok("42");
  }

  /** `test_commands_to_digits`: the presses `<v<A>>^AA<vA<A>>^AAvAA<^A>A<v<A>A>^AvA^A<A>A` type `42`. */
  lemma DecodesToCode42()
    ensures CommandsToDigits(Presses) == Ok("42")
  {
    PrintLevel1();
    StringRoundTrip(Level1);
    RunLevel1();
    DecodeKeys1();
    RunLevel2();
    DecodeKeys2();
    RunLevel3();
    DecodeKeys3();
  }
}
