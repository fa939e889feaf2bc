/** The table that maps simulator part names to category-D codes. */
module VehicleParts {
  import opened Common
  import ReportD

  /** `VEHICLE_PARTS_DICT`, written as consecutive blocks of the source table
      so that facts about the entries can be checked block by block.
      "Glass" has no position yet and is deliberately absent. */
  const PartsDict: map<string, string> := Front + Tail

  /** The blocks before the one holding "Rear Seats", merged in order. */
  const Front: map<string, string> := UnionUpTo(20)

  /** Block i of the table, for 1 <= i <= 20. */
  function Block(i: nat): map<string, string>
  {
    match i
    case 1 => Block1 case 2 => Block2 case 3 => Block3 case 4 => Block4 case 5 => Block5
    case 6 => Block6 case 7 => Block7 case 8 => Block8 case 9 => Block9 case 10 => Block10
    case 11 => Block11 case 12 => Block12 case 13 => Block13 case 14 => Block14 case 15 => Block15
    case 16 => Block16 case 17 => Block17 case 18 => Block18 case 19 => Block19 case 20 => Block20
    case _ => map[]
  }

  /** Blocks 1 to n merged in order; a later key wins, as in a dict display. */
  function UnionUpTo(n: nat): map<string, string>
  {
    if n == 0 then map[] else UnionUpTo(n - 1) + Block(n)
  }

  /** The last two blocks. */
  const Tail: map<string, string> := Block21 + Block22

  const Block1: map<string, string> := map[
    "Tailgate" := "B",
    "Wagon Unibody" := "M",
    "Rear Bumper" := "B"
  ]

  const Block2: map<string, string> := map[
    "Front Bumper Support" := "F",
    "Front Bumper" := "F"
  ]

  const Block3: map<string, string> := map[
    "Hood" := "F",
    "Right Headlight" := "FR"
  ]

  const Block4: map<string, string> := map[
    "Left Headlight" := "FL",
    "Front Right Fender" := "FR"
  ]

  const Block5: map<string, string> := map[
    "Front Left Fender" := "FL",
    "Single Exhaust" := "B"
  ]

  const Block6: map<string, string> := map[
    "Front Right Door" := "MR",
    "Front Left Door" := "ML"
  ]

  const Block7: map<string, string> := map[
    "Rear Right Door" := "MR",
    "Rear Left Door" := "ML"
  ]

  const Block8: map<string, string> := map[
    "Wagon Right Taillight" := "MR"
  ]

  const Block9: map<string, string> := map[
    "Right Mirror" := "FR",
    "Left Mirror" := "FL"
  ]

  const Block10: map<string, string> := map[
    "Dual Outlet Exhaust" := "B"
  ]

  const Block11: map<string, string> := map[
    "Wagon Left Taillight" := "ML",
    "Radiator" := "F"
  ]

  const Block12: map<string, string> := map[
    "Independent Front Suspension" := "F"
  ]

  const Block13: map<string, string> := map[
    "Independent Rear Suspension" := "B"
  ]

  const Block14: map<string, string> := map[
    "Steering" := "FL",
    "Tailgate Glass" := "B"
  ]

  const Block15: map<string, string> := map[
    "Front Strut Brace" := "F"
  ]

  const Block16: map<string, string> := map[
    "Front Left Door Glass" := "FL"
  ]

  const Block17: map<string, string> := map[
    "Front Right Door Glass" := "FR"
  ]

  const Block18: map<string, string> := map[
    "Passenger Seat" := "FR",
    "Driver Seat" := "FL"
  ]

  const Block19: map<string, string> := map[
    "Front Spindles" := "F",
    "Rear Spindles" := "B"
  ]

  const Block20: map<string, string> := map[
    "Rear Right Door Glass" := "BR"
  ]

  const Block21: map<string, string> := map[
    "Rear Left Door Glass" := "BL",
    "Rear Seats" := "R"
  ]

  const Block22: map<string, string> := map[
    "Front Sway Bar" := "F",
    "Stock Intake" := "F"
  ]

  /** The codes the table may produce. */
  predicate IsCode(v: string)
  {
    v in {"F", "M", "B", "FL", "FR", "ML", "MR", "BL", "BR", "R"}
  }

  /** `word` occurs in `s` at some position (Python's `word in s`). */
  predicate Contains(s: string, word: string)
    decreases |s|
  {
    |word| <= |s| && (s[..|word|] == word || Contains(s[1..], word))
  }

  /** A word occurring in a string brings all its letters with it. */
  lemma {:induction false} ContainsLetters(s: string, word: string)
    requires Contains(s, word)
    ensures forall c :: c in word ==> c in s
    decreases |s|
  {
    if s[..|word|] == word {
      forall c | c in word
        ensures c in s
      {
        var j :| 0 <= j < |word| && word[j] == c;
        assert s[j] == c;
      }
    } else {
      ContainsLetters(s[1..], word);
    }
  }

  /** What holds of every entry: its value is a code that `decode_part`
      accepts; a name with a capital L is coded on the left, one with both
      R and h on the right; only "Rear Seats" is coded by a bare side; and
      no entry is named "Glass". */
  predicate EntryOk(k: string, v: string)
  {
    && k != "Glass"
    && IsCode(v)
    && ReportD.DecodePart(v).Some?
    && ('L' in k ==> v in {"FL", "ML", "BL"})
    && ('R' in k && 'h' in k ==> v in {"FR", "MR", "BR", "R"})
    && (ReportD.IsSide(v) <==> k == "Rear Seats")
  }

  predicate BlockOk(b: map<string, string>)
  {
    forall k :: k in b ==> EntryOk(k, b[k])
  }

  lemma UnionOk(a: map<string, string>, b: map<string, string>)
    requires BlockOk(a) && BlockOk(b)
    ensures BlockOk(a + b)
  {
  }

  lemma Block1Ok()
    ensures BlockOk(Block1)
  {
  }

  lemma Block2Ok()
    ensures BlockOk(Block2)
  {
  }

  lemma Block3Ok()
    ensures BlockOk(Block3)
  {
  }

  lemma Block4Ok()
    ensures BlockOk(Block4)
  {
  }

  lemma Block5Ok()
    ensures BlockOk(Block5)
  {
  }

  lemma Block6Ok()
    ensures BlockOk(Block6)
  {
  }

  lemma Block7Ok()
    ensures BlockOk(Block7)
  {
  }

  lemma Block8Ok()
    ensures BlockOk(Block8)
  {
  }

  lemma Block9Ok()
    ensures BlockOk(Block9)
  {
  }

  lemma Block10Ok()
    ensures BlockOk(Block10)
  {
  }

  lemma Block11Ok()
    ensures BlockOk(Block11)
  {
  }

  lemma Block12Ok()
    ensures BlockOk(Block12)
  {
  }

  lemma Block13Ok()
    ensures BlockOk(Block13)
  {
  }

  lemma Block14Ok()
    ensures BlockOk(Block14)
  {
  }

  lemma Block15Ok()
    ensures BlockOk(Block15)
  {
  }

  lemma Block16Ok()
    ensures BlockOk(Block16)
  {
  }

  lemma Block17Ok()
    ensures BlockOk(Block17)
  {
  }

  lemma Block18Ok()
    ensures BlockOk(Block18)
  {
  }

  lemma Block19Ok()
    ensures BlockOk(Block19)
  {
  }

  lemma Block20Ok()
    ensures BlockOk(Block20)
  {
  }

  lemma Block21Ok()
    ensures BlockOk(Block21)
  {
  }

  lemma Block22Ok()
    ensures BlockOk(Block22)
  {
  }

  lemma BlockAtOk(i: nat)
    ensures BlockOk(Block(i))
  {
    match i
    case 1 => Block1Ok(); case 2 => Block2Ok(); case 3 => Block3Ok(); case 4 => Block4Ok(); case 5 => Block5Ok();
    case 6 => Block6Ok(); case 7 => Block7Ok(); case 8 => Block8Ok(); case 9 => Block9Ok(); case 10 => Block10Ok();
    case 11 => Block11Ok(); case 12 => Block12Ok(); case 13 => Block13Ok(); case 14 => Block14Ok(); case 15 => Block15Ok();
    case 16 => Block16Ok(); case 17 => Block17Ok(); case 18 => Block18Ok(); case 19 => Block19Ok(); case 20 => Block20Ok();
    case _ =>
  }

  lemma {:induction false} FrontOk(n: nat)
    ensures BlockOk(UnionUpTo(n))
  {
    if n > 0 {
      FrontOk(n - 1);
      BlockAtOk(n);
      UnionOk(UnionUpTo(n - 1), Block(n));
    }
  }

  lemma TableOk()
    ensures BlockOk(PartsDict)
  {
    FrontOk(20);
    Block21Ok();
    Block22Ok();
    UnionOk(Block21, Block22);
    UnionOk(Front, Tail);
  }

  /** Looking a simulator part name up in the table. */
  function PartCode(name: string): (r: Option<string>)
    ensures r.Some? <==> name in PartsDict
    ensures r.Some? ==> IsCode(r.value) && ReportD.DecodePart(r.value).Some?
  {
    TableOk();
    if name in PartsDict then Some(PartsDict[name]) else None
  }

  /** In a table of well-formed entries, names mentioning "Left" are
      coded on the left side and names mentioning "Right" on the right. */
  lemma {:induction false} SidesFollowNames(m: map<string, string>)
    requires BlockOk(m)
    ensures forall k :: k in m && Contains(k, "Left") ==> m[k] in {"FL", "ML", "BL"}
    ensures forall k :: k in m && Contains(k, "Right") ==> m[k] in {"FR", "MR", "BR", "R"}
  {
    forall k | k in m && Contains(k, "Left")
      ensures 'L' in k
    {
      ContainsLetters(k, "Left");
      assert "Left"[0] == 'L';
    }
    forall k | k in m && Contains(k, "Right")
      ensures 'R' in k && 'h' in k
    {
      ContainsLetters(k, "Right");
      assert "Right"[0] == 'R' && "Right"[3] == 'h';
    }
  }

  /** Names mentioning "Left" are coded on the left side. */
  lemma LeftNamesAreLeftCodes()
    ensures forall k :: k in PartsDict && Contains(k, "Left") ==> PartsDict[k] in {"FL", "ML", "BL"}
  {
    TableOk();
    SidesFollowNames(PartsDict);
  }

  /** Names mentioning "Right" are coded on the right side. */
  lemma RightNamesAreRightCodes()
    ensures forall k :: k in PartsDict && Contains(k, "Right") ==> PartsDict[k] in {"FR", "MR", "BR", "R"}
  {
    TableOk();
    SidesFollowNames(PartsDict);
  }

  /** "Rear Seats" is the only entry coded by a bare side. */
  lemma RearSeatsIsTheOnlyBareSide()
    ensures forall k :: k in PartsDict ==> (ReportD.IsSide(PartsDict[k]) <==> k == "Rear Seats")
  {
    TableOk();
  }

  /** "Rear Seats" is coded by the right side, which decodes to the whole
      right flank. */
  lemma RearSeatsIsRightFlank()
    ensures "Rear Seats" in PartsDict && PartsDict["Rear Seats"] == "R"
    ensures ReportD.DecodePart(PartsDict["Rear Seats"]) == Some(["FR", "MR", "BR"])
  {
    TailHasRearSeats();
    LookupRight(Front, Tail, "Rear Seats");
    RightFlank();
  }

  lemma TailHasRearSeats()
    ensures "Rear Seats" in Tail && Tail["Rear Seats"] == "R"
  {
    assert "Rear Seats" in Block21 && Block21["Rear Seats"] == "R";
    assert "Rear Seats" !in Block22;
  }

  /** In a merged dict, a key of the right operand takes the right's value. */
  lemma LookupRight(a: map<string, string>, b: map<string, string>, k: string)
    requires k in b
    ensures k in a + b && (a + b)[k] == b[k]
  {
  }

  lemma RightFlank()
    ensures ReportD.DecodePart("R") == Some(["FR", "MR", "BR"])
  {
    assert "F" + "R" == "FR" && "M" + "R" == "MR" && "B" + "R" == "BR";
  }

  /** "Glass" is not in the table. */
  lemma GlassIsMissing()
    ensures PartCode("Glass") == None
  {
    TableOk();
  }
}
