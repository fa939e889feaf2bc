/** The street-list rules of the crash-report analyser: which junction a
    paragraph mentions, how streets are created for it, how a cardinal
    direction is given to a street, how streets are created from road-type
    words, and how a lane count is read from the dependency list.  A
    street is a property map in which a missing property reads as "". */
module RoadAnalyzer {
  import opened Common

  type Street = map<string, string>

  /** `getStreetPropertyValue`: a property never set reads as "". */
  function Prop(s: Street, key: string): string
  {
    if key in s then s[key] else ""
  }

  /** `createNewStreet`: a street with no property set. */
  const NewStreet: Street := map[]

  const Navigation: string := "road_navigation"
  const RoadType: string := "road_type"
  const SinglePiece: string := "is_single_road_piece"

  // ---------------------------------------------------------------------
  // findIntersectionExistence
  // ---------------------------------------------------------------------

  const TIntersectionNames: seq<string> := ["t-intersection", "t-junction", "three-legged", "merge"]
  const IntersectionNames: seq<string> := ["intersection", "four-legged", "intersect"]

  /** Some keyword of the list is found in the paragraph by `search`, the
      word search of the utility class, outside this model. */
  predicate Mentions(names: seq<string>, paragraph: string, search: (string, string) -> bool)
  {
    exists i :: 0 <= i < |names| && search(names[i], paragraph)
  }

  /** Whether some keyword of the list is found, trying them in order. */
  function AnyMentioned(names: seq<string>, paragraph: string, search: (string, string) -> bool): (r: bool)
    ensures r <==> Mentions(names, paragraph, search)
  {
    if |names| == 0 then false
    else
      var rest := AnyMentioned(names[1..], paragraph, search);
      assert forall i :: 1 <= i < |names| ==> names[i] == names[1..][i - 1];
      search(names[0], paragraph) || rest
  }

  /** `findIntersectionExistence`: a T-junction keyword wins over a plain
      intersection keyword; without either the answer is "none". */
  function FindIntersectionExistence(paragraph: string, search: (string, string) -> bool): (r: string)
    ensures r == "t-intersection" <==> Mentions(TIntersectionNames, paragraph, search)
    ensures r == "intersection" <==>
      !Mentions(TIntersectionNames, paragraph, search) && Mentions(IntersectionNames, paragraph, search)
    ensures r == "none" <==>
      !Mentions(TIntersectionNames, paragraph, search) && !Mentions(IntersectionNames, paragraph, search)
  {
    if AnyMentioned(TIntersectionNames, paragraph, search) then "t-intersection"
    else if AnyMentioned(IntersectionNames, paragraph, search) then "intersection"
    else "none"
  }

  /** "merge" alone is enough for a T-intersection, whatever else the
      paragraph says. */
  lemma MergeMeansTIntersection(paragraph: string, search: (string, string) -> bool)
    requires search("merge", paragraph)
    ensures FindIntersectionExistence(paragraph, search) == "t-intersection"
  {
    assert TIntersectionNames[3] == "merge";
  }

  // ---------------------------------------------------------------------
  // createEmptyRoads
  // ---------------------------------------------------------------------

  /** `createEmptyRoads`: two new streets; the second, the crossing street,
      ends at the junction exactly when the junction is a T-intersection. */
  function CreateEmptyRoads(streets: seq<Street>, intersectionType: string): (r: seq<Street>)
    ensures |r| == |streets| + 2 && r[..|streets|] == streets
    ensures r[|streets|].Keys == {}
    ensures Prop(r[|streets| + 1], SinglePiece) == "T" <==> intersectionType == "t-intersection"
    ensures r[|streets| + 1].Keys <= {SinglePiece}
  {
    var second := if intersectionType == "t-intersection" then NewStreet[SinglePiece := "T"] else NewStreet;
    streets + [NewStreet, second]
  }

  // ---------------------------------------------------------------------
  // checkAllRoadHaveCardinalDirection
  // ---------------------------------------------------------------------

  predicate HasDirection(s: Street)
  {
    Prop(s, Navigation) != ""
  }

  /** `checkAllRoadHaveCardinalDirection`: false without streets, otherwise
      whether every street has a direction. */
  method CheckAllRoadHaveCardinalDirection(streets: seq<Street>) returns (r: bool)
    ensures r <==> |streets| > 0 && forall i :: 0 <= i < |streets| ==> HasDirection(streets[i])
  {
    if |streets| == 0 {
      return false;
    }
    var i := 0;
    while i < |streets|
      invariant 0 <= i <= |streets|
      invariant forall j :: 0 <= j < i ==> HasDirection(streets[j])
    {
      if Prop(streets[i], Navigation) == "" {
        return false;
      }
      i := i + 1;
    }
    return true;
  }

  /** The number of streets still without a direction. */
  function Undirected(streets: seq<Street>): (n: nat)
    ensures n <= |streets|
  {
    if |streets| == 0 then 0
    else Undirected(streets[..|streets| - 1]) + (if HasDirection(streets[|streets| - 1]) then 0 else 1)
  }

  /** No street is left without a direction exactly when every street has one. */
  lemma {:induction false} UndirectedZero(streets: seq<Street>)
    ensures Undirected(streets) == 0 <==> forall i :: 0 <= i < |streets| ==> HasDirection(streets[i])
  {
    if |streets| > 0 {
      var rest := streets[..|streets| - 1];
      UndirectedZero(rest);
      assert forall i :: 0 <= i < |rest| ==> rest[i] == streets[i];
    }
  }

  // ---------------------------------------------------------------------
  // assignDirectionToRoad
  // ---------------------------------------------------------------------

  /** The street list after an assignment, and the street that received it. */
  datatype Assigned = Assigned(streets: seq<Street>, index: nat)

  /** `assignDirectionToRoad(direction)`; `toLetter` is
      `convertDirectionWordToDirectionLetter`, outside this model.  The
      first street without a direction gets the code; if every street has
      one, a new street carrying the code is appended.  A street is always
      returned. */
  method AssignDirectionToRoad(streets: seq<Street>, direction: string, toLetter: string -> string)
    returns (r: Assigned)
    ensures r.index < |r.streets| && Prop(r.streets[r.index], Navigation) == toLetter(direction)
    ensures r.index < |streets| ==>
      && !HasDirection(streets[r.index])
      && (forall j :: 0 <= j < r.index ==> HasDirection(streets[j]))
      && r.streets == streets[r.index := streets[r.index][Navigation := toLetter(direction)]]
    ensures r.index == |streets| ==>
      && (forall j :: 0 <= j < |streets| ==> HasDirection(streets[j]))
      && r.streets == streets + [NewStreet[Navigation := toLetter(direction)]]
  {
    var code := toLetter(direction);
    var i := 0;
    while i < |streets|
      invariant 0 <= i <= |streets|
      invariant forall j :: 0 <= j < i ==> HasDirection(streets[j])
    {
      if Prop(streets[i], Navigation) == "" {
        return Assigned(streets[i := streets[i][Navigation := code]], i);
      }
      i := i + 1;
    }
    r := Assigned(streets + [NewStreet[Navigation := code]], |streets|);
  }

  /** Only the chosen street changes, and only in its direction. */
  lemma AssignTouchesOneProperty(streets: seq<Street>, code: string, r: Assigned, key: string)
    requires r.index < |streets| && r.streets == streets[r.index := streets[r.index][Navigation := code]]
    requires key != Navigation
    ensures |r.streets| == |streets|
    ensures forall j :: 0 <= j < |streets| && j != r.index ==> r.streets[j] == streets[j]
    ensures Prop(r.streets[r.index], key) == Prop(streets[r.index], key)
  {
  }

  /** An assignment of a real direction fills exactly one empty slot when
      there is one, and otherwise leaves every street directed. */
  lemma {:induction false} AssignFillsOneSlot(streets: seq<Street>, code: string, r: Assigned)
    requires code != ""
    requires r.index < |r.streets| && Prop(r.streets[r.index], Navigation) == code
    requires r.index < |streets| ==>
      && !HasDirection(streets[r.index])
      && r.streets == streets[r.index := streets[r.index][Navigation := code]]
    requires r.index == |streets| ==>
      && (forall j :: 0 <= j < |streets| ==> HasDirection(streets[j]))
      && r.streets == streets + [NewStreet[Navigation := code]]
    requires r.index <= |streets|
    ensures Undirected(streets) > 0 ==> Undirected(r.streets) == Undirected(streets) - 1
    ensures Undirected(streets) == 0 ==> Undirected(r.streets) == 0
  {
    if r.index < |streets| {
      UndirectedUpdate(streets, r.index, streets[r.index][Navigation := code]);
    } else {
      UndirectedZero(streets);
      UndirectedZero(r.streets);
      assert forall j :: 0 <= j < |r.streets| ==> HasDirection(r.streets[j]) by {
        forall j | 0 <= j < |r.streets|
          ensures HasDirection(r.streets[j])
        {
          if j < |streets| {
            assert r.streets[j] == streets[j];
          }
        }
      }
    }
  }

  /** Giving a direction to an undirected street lowers the count by one. */
  lemma {:induction false} UndirectedUpdate(streets: seq<Street>, i: nat, s: Street)
    requires i < |streets| && !HasDirection(streets[i]) && HasDirection(s)
    ensures Undirected(streets[i := s]) == Undirected(streets) - 1
  {
    var n := |streets| - 1;
    var u := streets[i := s];
    if i < n {
      assert u[..n] == streets[..n][i := s];
      UndirectedUpdate(streets[..n], i, s);
      assert Undirected(u) == Undirected(u[..n]) + (if HasDirection(streets[n]) then 0 else 1);
    } else {
      assert u[..n] == streets[..n];
      assert Undirected(u) == Undirected(streets[..n]);
    }
  }

  // ---------------------------------------------------------------------
  // findRoadWithExistingDirection
  // ---------------------------------------------------------------------

  /** A street whose direction is the code or lies on the same axis as it;
      `sameAxis` is `isDirectionsInSameAxis`, outside this model. */
  predicate DirectionMatches(s: Street, code: string, sameAxis: (string, string) -> bool)
  {
    Prop(s, Navigation) == code || sameAxis(Prop(s, Navigation), code)
  }

  /** `findRoadWithExistingDirection`: the position of the first matching
      street, or none. */
  function FindRoadWithExistingDirection(streets: seq<Street>, direction: string, toLetter: string -> string,
                                         sameAxis: (string, string) -> bool): (r: Option<nat>)
    ensures r.Some? ==> r.value < |streets| && DirectionMatches(streets[r.value], toLetter(direction), sameAxis)
    ensures r.Some? ==> forall j :: 0 <= j < r.value ==> !DirectionMatches(streets[j], toLetter(direction), sameAxis)
    ensures r.None? <==> forall j :: 0 <= j < |streets| ==> !DirectionMatches(streets[j], toLetter(direction), sameAxis)
  {
    FirstMatch(streets, toLetter(direction), sameAxis, 0)
  }

  function FirstMatch(streets: seq<Street>, code: string, sameAxis: (string, string) -> bool, from: nat): (r: Option<nat>)
    requires from <= |streets|
    ensures r.Some? ==> from <= r.value < |streets| && DirectionMatches(streets[r.value], code, sameAxis)
    ensures r.Some? ==> forall j :: from <= j < r.value ==> !DirectionMatches(streets[j], code, sameAxis)
    ensures r.None? <==> forall j :: from <= j < |streets| ==> !DirectionMatches(streets[j], code, sameAxis)
    decreases |streets| - from
  {
    if from == |streets| then None
    else if DirectionMatches(streets[from], code, sameAxis) then Some(from)
    else FirstMatch(streets, code, sameAxis, from + 1)
  }

  /** After a direction is assigned, looking it up finds a street, at the
      assigned one or before it. */
  lemma AssignThenFind(streets: seq<Street>, direction: string, toLetter: string -> string,
                       sameAxis: (string, string) -> bool, r: Assigned)
    requires r.index < |r.streets| && Prop(r.streets[r.index], Navigation) == toLetter(direction)
    ensures FindRoadWithExistingDirection(r.streets, direction, toLetter, sameAxis).Some?
    ensures FindRoadWithExistingDirection(r.streets, direction, toLetter, sameAxis).value <= r.index
  {
    assert DirectionMatches(r.streets[r.index], toLetter(direction), sameAxis);
  }

  // ---------------------------------------------------------------------
  // Java's String.split on a literal separator
  // ---------------------------------------------------------------------

  /** Every piece between occurrences of `sep`, scanning left to right, with
      empty pieces kept. */
  function SplitAll(s: string, sep: string): (r: seq<string>)
    requires |sep| > 0
    ensures |r| > 0
    decreases |s|
  {
    if |s| < |sep| then [s]
    else if s[..|sep|] == sep then [""] + SplitAll(s[|sep|..], sep)
    else
      var rest := SplitAll(s[1..], sep);
      [[s[0]] + rest[0]] + rest[1..]
  }

  /** The pieces glued back with the separator between them. */
  function Join(parts: seq<string>, sep: string): string
    requires |parts| > 0
  {
    if |parts| == 1 then parts[0] else parts[0] + sep + Join(parts[1..], sep)
  }

  /** Splitting loses nothing: the pieces join back to the text. */
  lemma {:induction false} JoinSplit(s: string, sep: string)
    requires |sep| > 0
    ensures Join(SplitAll(s, sep), sep) == s
    decreases |s|
  {
    if |s| < |sep| {
    } else if s[..|sep|] == sep {
      JoinSplit(s[|sep|..], sep);
      JoinEmptyHead(SplitAll(s[|sep|..], sep), sep);
      assert s == sep + s[|sep|..];
    } else {
      JoinSplit(s[1..], sep);
      JoinExtendHead(s[0], SplitAll(s[1..], sep), sep);
      assert s == [s[0]] + s[1..];
    }
  }

  /** An empty first piece contributes only its separator. */
  lemma JoinEmptyHead(rest: seq<string>, sep: string)
    requires |rest| > 0
    ensures Join([""] + rest, sep) == sep + Join(rest, sep)
  {
    assert ([""] + rest)[1..] == rest;
  }

  /** A character in front of the first piece comes out in front of the join. */
  lemma JoinExtendHead(c: char, rest: seq<string>, sep: string)
    requires |rest| > 0
    ensures Join([[c] + rest[0]] + rest[1..], sep) == [c] + Join(rest, sep)
  {
    var parts := [[c] + rest[0]] + rest[1..];
    if |rest| > 1 {
      assert parts[1..] == rest[1..];
      assert Join(rest, sep) == rest[0] + sep + Join(rest[1..], sep);
    }
  }

  /** Trailing empty pieces removed. */
  function DropTrailingEmpty(parts: seq<string>): (r: seq<string>)
    ensures |r| <= |parts| && r == parts[..|r|]
    ensures |r| > 0 ==> r[|r| - 1] != ""
    ensures forall i :: |r| <= i < |parts| ==> parts[i] == ""
  {
    if |parts| == 0 then []
    else if parts[|parts| - 1] == "" then DropTrailingEmpty(parts[..|parts| - 1])
    else parts
  }

  /** `s.split(sep)` with a literal separator: a text without the separator
      is returned whole, even when empty; otherwise trailing empty pieces
      are dropped. */
  function JavaSplit(s: string, sep: string): (r: seq<string>)
    requires |sep| > 0
    ensures |SplitAll(s, sep)| == 1 ==> r == [s]
    ensures |SplitAll(s, sep)| > 1 ==> r == DropTrailingEmpty(SplitAll(s, sep))
  {
    var parts := SplitAll(s, sep);
    if |parts| == 1 then [s] else DropTrailingEmpty(parts)
  }

  /** A lone separator splits into nothing at all. */
  lemma LoneSpaceSplitsToNothing()
    ensures JavaSplit(" ", " ") == []
  {
    assert " "[..1] == " ";
    assert SplitAll(" "[1..], " ") == [""];
    assert SplitAll(" ", " ") == ["", ""];
  }

  // ---------------------------------------------------------------------
  // constructRoadByRoadType
  // ---------------------------------------------------------------------

  /** The words of a paragraph in reading order: sentences split on ". ",
      each split on single spaces. */
  function Words(paragraph: string): seq<string>
  {
    Flatten(seq(|JavaSplit(paragraph, ". ")|, i requires 0 <= i < |JavaSplit(paragraph, ". ")| =>
      JavaSplit(JavaSplit(paragraph, ". ")[i], " ")))
  }

  function Flatten(xss: seq<seq<string>>): seq<string>
  {
    if |xss| == 0 then [] else Flatten(xss[..|xss| - 1]) + xss[|xss| - 1]
  }

  /** The road-type words, in order; `isRoadType` is the ontology lookup,
      outside this model. */
  function RoadTypeWords(words: seq<string>, isRoadType: string -> bool): (r: seq<string>)
    ensures |r| <= |words|
    ensures forall w :: w in r <==> w in words && isRoadType(w)
  {
    if |words| == 0 then []
    else
      var rest := RoadTypeWords(words[..|words| - 1], isRoadType);
      var w := words[|words| - 1];
      assert words == words[..|words| - 1] + [w];
      if isRoadType(w) then rest + [w] else rest
  }

  /** The road-type words of a text are those of its first part followed by
      those of the rest: reading order is kept.  With RoadTypeWordsSingle
      this determines the filter completely. */
  lemma {:induction false} RoadTypeWordsConcat(a: seq<string>, b: seq<string>, isRoadType: string -> bool)
    ensures RoadTypeWords(a + b, isRoadType) == RoadTypeWords(a, isRoadType) + RoadTypeWords(b, isRoadType)
  {
    if |b| > 0 {
      var n := |b| - 1;
      assert (a + b)[..|a + b| - 1] == a + b[..n];
      RoadTypeWordsConcat(a, b[..n], isRoadType);
    } else {
      assert a + b == a;
    }
  }

  /** A single word is kept exactly when it is a road type. */
  lemma RoadTypeWordsSingle(w: string, isRoadType: string -> bool)
    ensures RoadTypeWords([w], isRoadType) == (if isRoadType(w) then [w] else [])
  {
  }

  /** The loop over the words: every road-type word adds a street with that
      road type while fewer than two streets exist.  The scan for a street
      of the same type ends without effect, so repeated types are not
      skipped. */
  function AddRoadTypes(streets: seq<Street>, words: seq<string>, isRoadType: string -> bool): (r: seq<Street>)
    ensures var found := RoadTypeWords(words, isRoadType);
      && |r| == (if |streets| >= 2 then |streets| else Min(2, |streets| + |found|))
      && r[..|streets|] == streets
      && forall j :: |streets| <= j < |r| ==> r[j] == NewStreet[RoadType := found[j - |streets|]]
  {
    if |words| == 0 then streets
    else
      var n := |words| - 1;
      var prev := AddRoadTypes(streets, words[..n], isRoadType);
      var w := words[n];
      if isRoadType(w) && |prev| < 2 then prev + [NewStreet[RoadType := w]] else prev
  }

  function Min(a: nat, b: nat): nat
  {
    if a < b then a else b
  }

  /** `constructRoadByRoadType(paragraph)`: the existing streets are kept,
      and the road-type words of the paragraph, in reading order, each give
      a new street while fewer than two exist. */
  function ConstructRoadByRoadType(streets: seq<Street>, paragraph: string, isRoadType: string -> bool): (r: seq<Street>)
    ensures var found := RoadTypeWords(Words(paragraph), isRoadType);
      && |r| == (if |streets| >= 2 then |streets| else Min(2, |streets| + |found|))
      && r[..|streets|] == streets
      && forall j :: |streets| <= j < |r| ==> r[j] == NewStreet[RoadType := found[j - |streets|]]
  {
    AddRoadTypes(streets, Words(paragraph), isRoadType)
  }

  /** From two streets up the paragraph changes nothing. */
  lemma TwoStreetsAreFinal(streets: seq<Street>, paragraph: string, isRoadType: string -> bool)
    requires |streets| >= 2
    ensures ConstructRoadByRoadType(streets, paragraph, isRoadType) == streets
  {
  }

  /** A road type already recorded is recorded again on a new street. */
  lemma RepeatedRoadTypeAdded(w: string, isRoadType: string -> bool)
    requires isRoadType(w)
    ensures AddRoadTypes([NewStreet[RoadType := w]], [w], isRoadType)
      == [NewStreet[RoadType := w], NewStreet[RoadType := w]]
  {
    assert [w][..0] == [];
  }

  // ---------------------------------------------------------------------
  // analyzeNumberOfLane
  // ---------------------------------------------------------------------

  /** The calls into the dependency utilities, outside this model:
      - `pairOf(dep)`: `getWordPairFromDependency`;
      - `wordOf(token)`: `getWordFromToken`;
      - `related(word)`: the comma-separated pieces of
        `findAllConnectedWordsTopDown(dependencies, word, "", 0, 1)`;
      - `numeric(token)`: `(int) Double.parseDouble(token)` for a token
        `isNumeric` accepts, none otherwise. */
  datatype LaneOracles = LaneOracles(
    pairOf: string -> seq<string>,
    wordOf: string -> string,
    related: string -> seq<string>,
    numeric: string -> Option<int>)

  /** The regular expression `\d-lane`, matched against the whole word. */
  predicate IsDigitLane(w: string)
  {
    |w| == 6 && '0' <= w[0] <= '9' && w[1..] == "-lane"
  }

  predicate StartsWithLane(w: string)
  {
    |w| >= 4 && w[..4] == "lane"
  }

  /** The lane counts one word sets, in order: its digit for "d-lane",
      the numeric related words for a word starting with "lane", nothing
      otherwise. */
  function WordValues(w: string, o: LaneOracles): seq<int>
  {
    if IsDigitLane(w) then [w[0] as int - '0' as int]
    else if StartsWithLane(w) then NumericValues(o.related(w), o)
    else []
  }

  function NumericValues(tokens: seq<string>, o: LaneOracles): seq<int>
  {
    if |tokens| == 0 then []
    else
      var n := |tokens| - 1;
      var v := o.numeric(o.wordOf(tokens[n]));
      NumericValues(tokens[..n], o) + (if v.Some? then [v.value] else [])
  }

  function PairValues(pair: seq<string>, o: LaneOracles): seq<int>
  {
    if |pair| == 0 then []
    else PairValues(pair[..|pair| - 1], o) + WordValues(o.wordOf(pair[|pair| - 1]), o)
  }

  /** Every lane count the dependency list sets, in the order it sets them. */
  function LaneValues(deps: seq<string>, o: LaneOracles): seq<int>
  {
    if |deps| == 0 then []
    else LaneValues(deps[..|deps| - 1], o) + PairValues(o.pairOf(deps[|deps| - 1]), o)
  }

  /** The last value set, or `start` if none is. */
  function LastOr(start: int, vals: seq<int>): int
  {
    if |vals| == 0 then start else vals[|vals| - 1]
  }

  /** Setting the values of `a` and then those of `b` ends where setting
      those of `a + b` does. */
  lemma LastOrConcat(start: int, a: seq<int>, b: seq<int>)
    ensures LastOr(LastOr(start, a), b) == LastOr(start, a + b)
  {
  }

  /** `analyzeNumberOfLane(dependencyList)`: the last lane count set while
      reading the dependencies, 0 if none is. */
  method AnalyzeNumberOfLane(deps: seq<string>, o: LaneOracles) returns (lanes: int)
    ensures lanes == LastOr(0, LaneValues(deps, o))
  {
    lanes := 0;
    var i := 0;
    while i < |deps|
      invariant 0 <= i <= |deps|
      invariant lanes == LastOr(0, LaneValues(deps[..i], o))
    {
      assert deps[..i + 1][..i] == deps[..i];
      LastOrConcat(0, LaneValues(deps[..i], o), PairValues(o.pairOf(deps[i]), o));
      lanes := ScanPair(o.pairOf(deps[i]), o, lanes);
      i := i + 1;
    }
    assert deps[..i] == deps;
  }

  /** The loop over the two words of one dependency. */
  method ScanPair(pair: seq<string>, o: LaneOracles, start: int) returns (lanes: int)
    ensures lanes == LastOr(start, PairValues(pair, o))
  {
    lanes := start;
    var j := 0;
    while j < |pair|
      invariant 0 <= j <= |pair|
      invariant lanes == LastOr(start, PairValues(pair[..j], o))
    {
      var w := o.wordOf(pair[j]);
      assert pair[..j + 1][..j] == pair[..j];
      LastOrConcat(start, PairValues(pair[..j], o), WordValues(w, o));
      if IsDigitLane(w) {
        lanes := w[0] as int - '0' as int;
      } else if StartsWithLane(w) {
        lanes := ScanNumeric(o.related(w), o, lanes);
      }
      j := j + 1;
    }
    assert pair[..j] == pair;
  }

  /** The loop over the words related to a "lane..." word: every numeric
      one sets the count. */
  method ScanNumeric(tokens: seq<string>, o: LaneOracles, start: int) returns (lanes: int)
    ensures lanes == LastOr(start, NumericValues(tokens, o))
  {
    lanes := start;
    var k := 0;
    while k < |tokens|
      invariant 0 <= k <= |tokens|
      invariant lanes == LastOr(start, NumericValues(tokens[..k], o))
    {
      var v := o.numeric(o.wordOf(tokens[k]));
      assert tokens[..k + 1][..k] == tokens[..k];
      if v.Some? {
        lanes := v.value;
      }
      k := k + 1;
    }
    assert tokens[..k] == tokens;
  }

  /** Without a word matching "d-lane" or starting with "lane", the lane
      count stays 0. */
  lemma {:induction false} NoLaneWordMeansZero(deps: seq<string>, o: LaneOracles)
    requires forall i, j :: 0 <= i < |deps| && 0 <= j < |o.pairOf(deps[i])| ==>
      !IsDigitLane(o.wordOf(o.pairOf(deps[i])[j])) && !StartsWithLane(o.wordOf(o.pairOf(deps[i])[j]))
    ensures LaneValues(deps, o) == []
    ensures LastOr(0, LaneValues(deps, o)) == 0
  {
    if |deps| > 0 {
      var n := |deps| - 1;
      NoLaneWordMeansZero(deps[..n], o);
      NoLaneWordInPair(o.pairOf(deps[n]), o);
    }
  }

  lemma {:induction false} NoLaneWordInPair(pair: seq<string>, o: LaneOracles)
    requires forall j :: 0 <= j < |pair| ==> !IsDigitLane(o.wordOf(pair[j])) && !StartsWithLane(o.wordOf(pair[j]))
    ensures PairValues(pair, o) == []
  {
    if |pair| > 0 {
      NoLaneWordInPair(pair[..|pair| - 1], o);
    }
  }

  /** A "d-lane" word read last decides the count, which is then a single
      digit, whatever came before. */
  lemma LastDigitLaneWins(deps: seq<string>, o: LaneOracles)
    requires |deps| > 0
    requires var pair := o.pairOf(deps[|deps| - 1]);
      |pair| > 0 && IsDigitLane(o.wordOf(pair[|pair| - 1]))
    ensures var w := o.wordOf(o.pairOf(deps[|deps| - 1])[|o.pairOf(deps[|deps| - 1])| - 1]);
      LastOr(0, LaneValues(deps, o)) == w[0] as int - '0' as int
    ensures 0 <= LastOr(0, LaneValues(deps, o)) <= 9
  {
  }
}
