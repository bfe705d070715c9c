/** The generator fixtures of day21/src/main.rs, unfolded list by list. */
module KeypadFixtures {
  import opened Direction
  import opened Commands
  import opened Keypad

  lemma PathsOf01()
    ensures Paths((0, 1)) == [[Move(Down), Activate]]
  {
    assert After((0, 1), Down) == (0, 0);
    assert [Move(Down)] + [Activate] == [Move(Down), Activate];
    assert PrependAll([Move(Down)], [[Activate]]) == [[Move(Down), Activate]];
    assert Branch((0, 1), Right) == [] && Branch((0, 1), Left) == [] && Branch((0, 1), Up) == [];
  }

  lemma PathsOf10()
    ensures Paths((1, 0)) == [[Move(Right), Activate]]
  {
    assert After((1, 0), Right) == (0, 0);
    assert [Move(Right)] + [Activate] == [Move(Right), Activate];
    assert PrependAll([Move(Right)], [[Activate]]) == [[Move(Right), Activate]];
    assert Branch((1, 0), Left) == [] && Branch((1, 0), Down) == [] && Branch((1, 0), Up) == [];
  }

  /** `test_all_commands_from_distance_1_1`: right-first, then down-first. */
  lemma PathsOf11()
    ensures Paths((1, 1)) == [[Move(Right), Move(Down), Activate], [Move(Down), Move(Right), Activate]]
  {
    PathsOf01();
    PathsOf10();
    assert After((1, 1), Right) == (0, 1);
    assert [Move(Right)] + [Move(Down), Activate] == [Move(Right), Move(Down), Activate];
    assert PrependAll([Move(Right)], [[Move(Down), Activate]]) == [[Move(Right), Move(Down), Activate]];
    assert After((1, 1), Down) == (1, 0);
    assert [Move(Down)] + [Move(Right), Activate] == [Move(Down), Move(Right), Activate];
    assert PrependAll([Move(Down)], [[Move(Right), Activate]]) == [[Move(Down), Move(Right), Activate]];
    assert Branch((1, 1), Left) == [] && Branch((1, 1), Up) == [];
  }

  /** `test_all_commands_from_distance_0_2`: a straight line has one list. */
  lemma PathsOf02()
    ensures Paths((0, 2)) == [[Move(Down), Move(Down), Activate]]
  {
    PathsOf01();
    assert After((0, 2), Down) == (0, 1);
    assert [Move(Down)] + [Move(Down), Activate] == [Move(Down), Move(Down), Activate];
    assert PrependAll([Move(Down)], [[Move(Down), Activate]]) == [[Move(Down), Move(Down), Activate]];
    assert Branch((0, 2), Right) == [] && Branch((0, 2), Left) == [] && Branch((0, 2), Up) == [];
  }

  lemma PathsOf12()
    ensures Paths((1, 2)) == [[Move(Right), Move(Down), Move(Down), Activate], [Move(Down), Move(Right), Move(Down), Activate], [Move(Down), Move(Down), Move(Right), Activate]]
  {
    PathsOf02();
    PathsOf11();
    assert After((1, 2), Right) == (0, 2);
    assert [Move(Right)] + [Move(Down), Move(Down), Activate] == [Move(Right), Move(Down), Move(Down), Activate];
    assert PrependAll([Move(Right)], [[Move(Down), Move(Down), Activate]]) == [[Move(Right), Move(Down), Move(Down), Activate]];
    assert After((1, 2), Down) == (1, 1);
    assert [Move(Down)] + [Move(Right), Move(Down), Activate] == [Move(Down), Move(Right), Move(Down), Activate];
    assert [Move(Down)] + [Move(Down), Move(Right), Activate] == [Move(Down), Move(Down), Move(Right), Activate];
    assert PrependAll([Move(Down)], [[Move(Right), Move(Down), Activate], [Move(Down), Move(Right), Activate]]) == [[Move(Down), Move(Right), Move(Down), Activate], [Move(Down), Move(Down), Move(Right), Activate]];
    assert Branch((1, 2), Left) == [] && Branch((1, 2), Up) == [];
  }

  lemma PathsOf20()
    ensures Paths((2, 0)) == [[Move(Right), Move(Right), Activate]]
  {
    PathsOf10();
    assert After((2, 0), Right) == (1, 0);
    assert [Move(Right)] + [Move(Right), Activate] == [Move(Right), Move(Right), Activate];
    assert PrependAll([Move(Right)], [[Move(Right), Activate]]) == [[Move(Right), Move(Right), Activate]];
    assert Branch((2, 0), Left) == [] && Branch((2, 0), Down) == [] && Branch((2, 0), Up) == [];
  }

  lemma PathsOf21()
    ensures Paths((2, 1)) == [[Move(Right), Move(Right), Move(Down), Activate], [Move(Right), Move(Down), Move(Right), Activate], [Move(Down), Move(Right), Move(Right), Activate]]
  {
    PathsOf11();
    PathsOf20();
    assert After((2, 1), Right) == (1, 1);
    assert [Move(Right)] + [Move(Right), Move(Down), Activate] == [Move(Right), Move(Right), Move(Down), Activate];
    assert [Move(Right)] + [Move(Down), Move(Right), Activate] == [Move(Right), Move(Down), Move(Right), Activate];
    assert PrependAll([Move(Right)], [[Move(Right), Move(Down), Activate], [Move(Down), Move(Right), Activate]]) == [[Move(Right), Move(Right), Move(Down), Activate], [Move(Right), Move(Down), Move(Right), Activate]];
    assert After((2, 1), Down) == (2, 0);
    assert [Move(Down)] + [Move(Right), Move(Right), Activate] == [Move(Down), Move(Right), Move(Right), Activate];
    assert PrependAll([Move(Down)], [[Move(Right), Move(Right), Activate]]) == [[Move(Down), Move(Right), Move(Right), Activate]];
    assert Branch((2, 1), Left) == [] && Branch((2, 1), Up) == [];
  }

  /** `test_all_commands_from_distance_2_2`: the six interleavings in emission order. */
  lemma PathsOf22()
    ensures Paths((2, 2)) == [[Move(Right), Move(Right), Move(Down), Move(Down), Activate], [Move(Right), Move(Down), Move(Right), Move(Down), Activate], [Move(Right), Move(Down), Move(Down), Move(Right), Activate], [Move(Down), Move(Right), Move(Right), Move(Down), Activate], [Move(Down), Move(Right), Move(Down), Move(Right), Activate], [Move(Down), Move(Down), Move(Right), Move(Right), Activate]]
  {
    PathsOf12();
    PathsOf21();
    assert After((2, 2), Right) == (1, 2);
    assert [Move(Right)] + [Move(Right), Move(Down), Move(Down), Activate] == [Move(Right), Move(Right), Move(Down), Move(Down), Activate];
    assert [Move(Right)] + [Move(Down), Move(Right), Move(Down), Activate] == [Move(Right), Move(Down), Move(Right), Move(Down), Activate];
    assert [Move(Right)] + [Move(Down), Move(Down), Move(Right), Activate] == [Move(Right), Move(Down), Move(Down), Move(Right), Activate];
    assert PrependAll([Move(Right)], [[Move(Right), Move(Down), Move(Down), Activate], [Move(Down), Move(Right), Move(Down), Activate], [Move(Down), Move(Down), Move(Right), Activate]]) == [[Move(Right), Move(Right), Move(Down), Move(Down), Activate], [Move(Right), Move(Down), Move(Right), Move(Down), Activate], [Move(Right), Move(Down), Move(Down), Move(Right), Activate]];
    assert After((2, 2), Down) == (2, 1);
    assert [Move(Down)] + [Move(Right), Move(Right), Move(Down), Activate] == [Move(Down), Move(Right), Move(Right), Move(Down), Activate];
    assert [Move(Down)] + [Move(Right), Move(Down), Move(Right), Activate] == [Move(Down), Move(Right), Move(Down), Move(Right), Activate];
    assert [Move(Down)] + [Move(Down), Move(Right), Move(Right), Activate] == [Move(Down), Move(Down), Move(Right), Move(Right), Activate];
    assert PrependAll([Move(Down)], [[Move(Right), Move(Right), Move(Down), Activate], [Move(Right), Move(Down), Move(Right), Activate], [Move(Down), Move(Right), Move(Right), Activate]]) == [[Move(Down), Move(Right), Move(Right), Move(Down), Activate], [Move(Down), Move(Right), Move(Down), Move(Right), Activate], [Move(Down), Move(Down), Move(Right), Move(Right), Activate]];
    assert Branch((2, 2), Left) == [] && Branch((2, 2), Up) == [];
  }


  lemma CombosOf01()
    ensures Combos([(0, 1)]) == [[Move(Down), Activate]]
  {
    PathsOf01();
    assert [(0, 1)][1..] == [];
    var empty: seq<Command> := [];
    assert [Move(Down), Activate] + empty == [Move(Down), Activate];
    assert PrependAll([Move(Down), Activate], [empty]) == [[Move(Down), Activate]];
    assert Extend([[Move(Down), Activate]], []) == [[Move(Down), Activate]] + Extend([], []);
  }

  lemma CombosOf11Then01()
    ensures Combos([(1, 1), (0, 1)]) ==
      [[Move(Right), Move(Down), Activate, Move(Down), Activate],
       [Move(Down), Move(Right), Activate, Move(Down), Activate]]
  {
    PathsOf11();
    CombosOf01();
    var ds := [(1, 1), (0, 1)];
    assert ds[1..] == [(0, 1)];
    var rd, dr := [Move(Right), Move(Down), Activate], [Move(Down), Move(Right), Activate];
    var tail := [Move(Down), Activate];
    assert rd + tail == [Move(Right), Move(Down), Activate, Move(Down), Activate];
    assert dr + tail == [Move(Down), Move(Right), Activate, Move(Down), Activate];
    assert PrependAll(rd, [tail]) == [rd + tail];
    assert PrependAll(dr, [tail]) == [dr + tail];
    var opts := [rd, dr];
    assert opts[1..] == [dr] && opts[1..][1..] == [];
    assert Extend([dr], [(0, 1)]) == [dr + tail] + Extend([], [(0, 1)]);
  }

  /** `test_all_commands_from_distances_1_1`: the only choice is in the
      middle displacement, so two combinations, right-first before down-first. */
  lemma CombosOf10Then11Then01()
    ensures Combos([(1, 0), (1, 1), (0, 1)]) ==
      [[Move(Right), Activate, Move(Right), Move(Down), Activate, Move(Down), Activate],
       [Move(Right), Activate, Move(Down), Move(Right), Activate, Move(Down), Activate]]
  {
    PathsOf10();
    CombosOf11Then01();
    var ds := [(1, 0), (1, 1), (0, 1)];
    assert ds[1..] == [(1, 1), (0, 1)];
    var head := [Move(Right), Activate];
    var a, b := [Move(Right), Move(Down), Activate, Move(Down), Activate], [Move(Down), Move(Right), Activate, Move(Down), Activate];
    assert head + a == [Move(Right), Activate, Move(Right), Move(Down), Activate, Move(Down), Activate];
    assert head + b == [Move(Right), Activate, Move(Down), Move(Right), Activate, Move(Down), Activate];
    assert PrependAll(head, [a, b]) == [head + a, head + b];
    var opts := [head];
    assert opts[1..] == [];
  }
}
