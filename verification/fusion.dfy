/** Data fusion of the road descriptions extracted from the sketch image and
    from the report text: every image road is paired with the text road
    that agrees with it best. */
module Fusion {
  import opened Common

  type Point = (real, real)

  /** A road read from the image: its lane markings, centre line and left edge. */
  datatype ImageRoad = ImageRoad(marks: seq<seq<Point>>, center: seq<Point>, left: seq<Point>)

  /** A road read from the text, with its fields as written there: the
      navigation letters (e.g. "NS"), the direction ("2-way") and the lane
      count. */
  datatype TextRoad = TextRoad(id: string, navigation: string, direction: string, laneNum: string)

  /** A fused road: the geometry of the image road and the properties of the
      text road. */
  datatype Road = Road(img: ImageRoad, txt: TextRoad)

  // ---------------------------------------------------------------------
  // Python's int() on a decimal literal
  // ---------------------------------------------------------------------

  predicate IsDigits(s: string)
  {
    |s| > 0 && forall i :: 0 <= i < |s| ==> '0' <= s[i] <= '9'
  }

  function DigitsValue(s: string): nat
    requires forall i :: 0 <= i < |s| ==> '0' <= s[i] <= '9'
  {
    if |s| == 0 then 0 else DigitsValue(s[..|s| - 1]) * 10 + (s[|s| - 1] as int - '0' as int)
  }

  predicate Signed(s: string)
  {
    |s| > 1 && (s[0] == '-' || s[0] == '+') && IsDigits(s[1..])
  }

  /** `int(s)`: an optional sign and decimal digits; anything else raises
      ValueError, modelled as no value. */
  function ParseInt(s: string): (r: Option<int>)
    ensures r.Some? <==> IsDigits(s) || Signed(s)
  {
    if IsDigits(s) then Some(DigitsValue(s))
    else if Signed(s) then Some(if s[0] == '-' then -(DigitsValue(s[1..]) as int) else DigitsValue(s[1..]))
    else None
  }

  /** The decimal text of a natural number. */
  function ShowNat(n: nat): (s: string)
    ensures IsDigits(s)
  {
    if n < 10 then [('0' as int + n) as char] else ShowNat(n / 10) + [('0' as int + n % 10) as char]
  }

  function Show(n: int): string
  {
    if n < 0 then "-" + ShowNat(-n) else ShowNat(n)
  }

  lemma {:induction false} ShowNatValue(n: nat)
    ensures DigitsValue(ShowNat(n)) == n
  {
    if n >= 10 {
      ShowNatValue(n / 10);
      var s := ShowNat(n);
      assert s[..|s| - 1] == ShowNat(n / 10);
    }
  }

  /** Reading back the decimal text of an integer gives the integer. */
  lemma ParseShow(n: int)
    ensures ParseInt(Show(n)) == Some(n)
  {
    if n < 0 {
      ShowNatValue(-n);
      var s := Show(n);
      assert s[0] == '-' && s[1..] == ShowNat(-n);
      assert !IsDigits(s) && Signed(s);
    } else {
      ShowNatValue(n);
      assert IsDigits(Show(n));
    }
  }

  /** `s.split('-')[0]`: everything before the first dash. */
  function BeforeDash(s: string): (r: string)
    ensures |r| <= |s| && r == s[..|r|]
    ensures '-' !in r
    ensures |r| < |s| ==> s[|r|] == '-'
  {
    if |s| == 0 then ""
    else if s[0] == '-' then ""
    else [s[0]] + BeforeDash(s[1..])
  }

  /** "2-way" is read as 2. */
  lemma TwoWayIsTwo()
    ensures ParseInt(BeforeDash("2-way")) == Some(2)
  {
    assert BeforeDash("2-way") == "2";
    assert DigitsValue("2") == 2 by {
      assert "2"[..0] == "";
    }
  }

  // ---------------------------------------------------------------------
  // Scoring a pair
  // ---------------------------------------------------------------------

  /** The lane count read from the image: one more than the markings. */
  function ImageLanes(img: ImageRoad): nat
  {
    |img.marks| + 1
  }

  /** Every navigation letter of the text road is among the directions of
      the image road. */
  predicate NavigationFits(txt: TextRoad, directions: string)
  {
    forall c :: c in txt.navigation ==> c in directions
  }

  /** The agreement of an image road and a text road: one point each for
      the navigation letters, the leading number of the direction and the
      lane count.  `directionOf` is `get_direction_of` for the image's
      rotation, computed outside this model.  A direction or lane count
      that is not an integer raises ValueError. */
  function Score(img: ImageRoad, txt: TextRoad, directionOf: seq<Point> -> string): (r: Result<nat>)
    ensures r.Err? <==> ParseInt(BeforeDash(txt.direction)).None? || ParseInt(txt.laneNum).None?
    ensures r.Ok? ==> r.value <= 3
    ensures r.Ok? ==> (r.value == 3 <==>
      && NavigationFits(txt, directionOf(img.center))
      && ParseInt(BeforeDash(txt.direction)).value == ImageLanes(img)
      && ParseInt(txt.laneNum).value == ImageLanes(img))
    ensures r.Ok? ==> (r.value == 0 <==>
      && !NavigationFits(txt, directionOf(img.center))
      && ParseInt(BeforeDash(txt.direction)).value != ImageLanes(img)
      && ParseInt(txt.laneNum).value != ImageLanes(img))
  {
    var a1 := directionOf(img.center);
    var b1 := ImageLanes(img);
    match (ParseInt(BeforeDash(txt.direction)), ParseInt(txt.laneNum))
    case (Some(b21), Some(b22)) =>
      var points := (if NavigationFits(txt, a1) then 1 else 0)
        + (if b21 == b1 then 1 else 0)
        + (if b22 == b1 then 1 else 0);
      Ok(points)
    case _ => Err("ValueError: invalid literal for int() with base 10")
  }

  /** The first position of a greatest score: what a stable sort by score,
      descending, puts first. */
  function FirstBest(scores: seq<nat>): (l: nat)
    requires |scores| > 0
    ensures l < |scores|
    ensures forall j :: 0 <= j < |scores| ==> scores[j] <= scores[l]
    ensures forall j :: 0 <= j < l ==> scores[j] < scores[l]
  {
    if |scores| == 1 then 0
    else
      var k := FirstBest(scores[..|scores| - 1]);
      if scores[|scores| - 1] > scores[k] then |scores| - 1 else k
  }

  // ---------------------------------------------------------------------
  // create_roads
  // ---------------------------------------------------------------------

  /** Every text road has integer direction and lane fields. */
  predicate AllParse(txts: seq<TextRoad>)
  {
    forall l :: 0 <= l < |txts| ==> ParseInt(BeforeDash(txts[l].direction)).Some? && ParseInt(txts[l].laneNum).Some?
  }

  /** The scores of one image road against every text road. */
  function Scores(img: ImageRoad, txts: seq<TextRoad>, directionOf: seq<Point> -> string): (r: seq<nat>)
    requires AllParse(txts)
    ensures |r| == |txts|
    ensures forall l :: 0 <= l < |txts| ==> Score(img, txts[l], directionOf) == Ok(r[l])
  {
    seq(|txts|, l requires 0 <= l < |txts| => Score(img, txts[l], directionOf).value)
  }

  /** The text road an image road is fused with: the first of the best. */
  function BestText(img: ImageRoad, txts: seq<TextRoad>, directionOf: seq<Point> -> string): (l: nat)
    requires |txts| > 0 && AllParse(txts)
    ensures l < |txts|
  {
    FirstBest(Scores(img, txts, directionOf))
  }

  /** Text road l scores highest against the image road, and every text road
      before it scores strictly less. */
  predicate FirstBestAt(img: ImageRoad, txts: seq<TextRoad>, directionOf: seq<Point> -> string, l: nat)
  {
    && l < |txts|
    && Score(img, txts[l], directionOf).Ok?
    && (forall j :: 0 <= j < |txts| ==>
          Score(img, txts[j], directionOf).Ok? && Score(img, txts[j], directionOf).value <= Score(img, txts[l], directionOf).value)
    && (forall j :: 0 <= j < l ==> Score(img, txts[j], directionOf).value < Score(img, txts[l], directionOf).value)
  }

  /** The chosen text road is the earliest of those scoring highest, and no
      other position has that property. */
  lemma BestTextIsFirstBest(img: ImageRoad, txts: seq<TextRoad>, directionOf: seq<Point> -> string, l: nat)
    requires |txts| > 0 && AllParse(txts)
    ensures FirstBestAt(img, txts, directionOf, BestText(img, txts, directionOf))
    ensures FirstBestAt(img, txts, directionOf, l) <==> l == BestText(img, txts, directionOf)
  {
  }

  predicate SingleRoad(imgs: seq<ImageRoad>, txts: seq<TextRoad>)
  {
    |imgs| == 1 && |txts| == 1
  }

  /** `create_roads`: with exactly one road on each side the two are fused
      directly; otherwise each image road, in order, is fused with its
      best-scoring text road.  With image roads but no text road, taking the
      best of nothing raises IndexError. */
  function CreateRoads(imgs: seq<ImageRoad>, txts: seq<TextRoad>, directionOf: seq<Point> -> string)
    : (r: Result<seq<Road>>)
    ensures SingleRoad(imgs, txts) ==> r == Ok([Road(imgs[0], txts[0])])
    ensures r.Err? <==> !SingleRoad(imgs, txts) && |imgs| > 0 && (|txts| == 0 || !AllParse(txts))
    ensures r.Ok? ==> |r.value| == |imgs|
    ensures r.Ok? && !SingleRoad(imgs, txts) && |imgs| > 0 ==> forall i :: 0 <= i < |imgs| ==>
      r.value[i] == Road(imgs[i], txts[BestText(imgs[i], txts, directionOf)])
  {
    if SingleRoad(imgs, txts) then Ok([Road(imgs[0], txts[0])])
    else if |imgs| == 0 then Ok([])
    else if |txts| == 0 then Err("IndexError: list index out of range")
    else if !AllParse(txts) then Err("ValueError: invalid literal for int() with base 10")
    else Ok(seq(|imgs|, i requires 0 <= i < |imgs| => Road(imgs[i], txts[BestText(imgs[i], txts, directionOf)])))
  }

  /** Whenever some text road agrees with an image road on everything, the
      image road is fused with such a road. */
  lemma PerfectMatchChosen(imgs: seq<ImageRoad>, txts: seq<TextRoad>, directionOf: seq<Point> -> string, i: nat, l: nat)
    requires !SingleRoad(imgs, txts) && i < |imgs| && l < |txts| && AllParse(txts)
    requires Score(imgs[i], txts[l], directionOf) == Ok(3)
    ensures CreateRoads(imgs, txts, directionOf).Ok?
    ensures Score(imgs[i], CreateRoads(imgs, txts, directionOf).value[i].txt, directionOf) == Ok(3)
  {
    BestTextIsFirstBest(imgs[i], txts, directionOf, l);
  }

  /** Two image roads may be paired with the same text road. */
  lemma SharedTextRoad(img: ImageRoad, txt: TextRoad, directionOf: seq<Point> -> string)
    requires ParseInt(BeforeDash(txt.direction)).Some? && ParseInt(txt.laneNum).Some?
    ensures CreateRoads([img, img], [txt], directionOf) == Ok([Road(img, txt), Road(img, txt)])
  {
    assert AllParse([txt]);
    assert BestText(img, [txt], directionOf) == 0;
    var res := CreateRoads([img, img], [txt], directionOf);
    assert res.Ok?;
    var r := res.value;
    assert |r| == 2;
    assert r[0] == Road([img, img][0], [txt][BestText([img, img][0], [txt], directionOf)]);
    assert r[1] == Road([img, img][1], [txt][BestText([img, img][1], [txt], directionOf)]);
    assert r == [Road(img, txt), Road(img, txt)];
  }
}
