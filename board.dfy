/** The board (`generateBoardPaths` in js/game.js): one path per lane, each a
    row of BOARD_SIZE spaces of which a few of spaces 2..8 are coloured, and
    the neutralising of Versatrix's yellow spaces. */
module Board {
  import opened Types

  /** The ids of the spaces that may be coloured: spaces 1 and 9 never are. */
  const COLORABLE: seq<nat> := [2, 3, 4, 5, 6, 7, 8]

  /** The spaces of a fresh path: ids 1..BOARD_SIZE, white, no effect, unused. */
  function Blank(): (s: seq<Space>)
    ensures |s| == BOARD_SIZE
    ensures forall j :: 0 <= j < |s| ==> s[j] == Space(j + 1, White, None, false)
  {
    seq(BOARD_SIZE, j requires 0 <= j => Space(j + 1, White, None, false))
  }

  /** What is written on one coloured space: a colour alone (black, yellow), or
      a colour with the field effect it triggers (blue, red). */
  datatype Paint = Colour(color: Color) | Effect(color: Color, name: FieldName)

  /** The random draws of one path: the shuffled colourable ids, whether two
      black holes are drawn, whether the k-th blue/red space is blue, and the
      index drawn from the effect list for the k-th blue/red space. */
  datatype PathDraw = PathDraw(order: seq<nat>, twoHoles: bool, blue: nat -> bool, pick: nat -> nat)

  /** The paints a path receives, in the order they are laid on the shuffled
      ids: black holes (final battle), then blue/red spaces, then one yellow
      space (Versatrix battle or final battle). */
  function Plan(finalBoss: bool, battle: Option<Battle>, d: PathDraw, positives: seq<FieldName>,
                negatives: seq<FieldName>): (r: seq<Paint>)
    requires |positives| > 0 && |negatives| > 0
    ensures |r| <= 5
  {
    Holes(finalBoss, d) + BlueRed(finalBoss, battle, d, positives, negatives) + Yellows(finalBoss, battle)
  }

  function Holes(finalBoss: bool, d: PathDraw): (r: seq<Paint>)
    ensures |r| == if !finalBoss then 0 else if d.twoHoles then 2 else 1
    ensures forall k :: 0 <= k < |r| ==> r[k] == Colour(Black)
  {
    if !finalBoss then [] else if d.twoHoles then [Colour(Black), Colour(Black)] else [Colour(Black)]
  }

  /** The k-th blue or red paint: never blue in the Reversum battle. */
  function BlueOrRed(battle: Option<Battle>, d: PathDraw, positives: seq<FieldName>, negatives: seq<FieldName>,
                     k: nat): (p: Paint)
    requires |positives| > 0 && |negatives| > 0
    ensures p.Effect?
    ensures p.color == Blue ==> p.name in positives && battle != Some(ReversumBattle)
    ensures p.color != Blue ==> p.color == Red && p.name in negatives
  {
    var isPositive := if battle == Some(ReversumBattle) then false else d.blue(k);
    if isPositive then Effect(Blue, positives[d.pick(k) % |positives|])
    else Effect(Red, negatives[d.pick(k) % |negatives|])
  }

  function BlueRed(finalBoss: bool, battle: Option<Battle>, d: PathDraw, positives: seq<FieldName>,
                   negatives: seq<FieldName>): (r: seq<Paint>)
    requires |positives| > 0 && |negatives| > 0
    ensures |r| == if finalBoss then 1 else COLORED_SPACES_PER_PATH
  {
    BlueRedRun(battle, d, positives, negatives, if finalBoss then 1 else COLORED_SPACES_PER_PATH)
  }

  /** The first n blue or red paints. */
  function BlueRedRun(battle: Option<Battle>, d: PathDraw, positives: seq<FieldName>,
                      negatives: seq<FieldName>, n: nat): (r: seq<Paint>)
    requires |positives| > 0 && |negatives| > 0
    ensures |r| == n
    ensures forall k :: 0 <= k < n ==> r[k] == BlueOrRed(battle, d, positives, negatives, k)
  {
    if n == 0 then [] else BlueRedRun(battle, d, positives, negatives, n - 1) + [BlueOrRed(battle, d, positives, negatives, n - 1)]
  }

  function Yellows(finalBoss: bool, battle: Option<Battle>): (r: seq<Paint>)
    ensures r == if battle == Some(VersatrixBattle) || finalBoss then [Colour(Yellow)] else []
  {
    if battle == Some(VersatrixBattle) || finalBoss then [Colour(Yellow)] else []
  }

  /** The player a path starts out belonging to: the i-th master id, if any. */
  function OwnerOf(i: nat): (r: Option<PlayerId>)
    ensures r.Some? <==> i < |MASTER_PLAYER_IDS|
    ensures r.Some? ==> r.value == MASTER_PLAYER_IDS[i]
  {
    if i < |MASTER_PLAYER_IDS| then Some(MASTER_PLAYER_IDS[i]) else None
  }

  /** Every order entry names a space of the row. */
  predicate InRow(order: seq<nat>, size: nat)
  {
    forall k :: 0 <= k < |order| ==> 1 <= order[k] <= size
  }

  function PaintSpace(s: Space, p: Paint): Space
  {
    match p
    case Colour(c) => s.(color := c)
    case Effect(c, n) => s.(color := c, effectName := Some(n))
  }

  /** The row after the paints are laid, the k-th on the space whose id is
      `order[from + k]`. */
  function Painted(s: seq<Space>, order: seq<nat>, from: nat, plan: seq<Paint>): (r: seq<Space>)
    requires from + |plan| <= |order| && InRow(order, |s|)
    ensures |r| == |s|
    decreases |plan|
  {
    if plan == [] then s
    else
      var r := Painted(s, order, from, plan[..|plan| - 1]);
      var j := order[from + |plan| - 1] - 1;
      r[j := PaintSpace(r[j], plan[|plan| - 1])]
  }

  /** `order` is a shuffle of COLORABLE: its seven ids, each once. */
  predicate IsShuffle(order: seq<nat>)
  {
    && |order| == |COLORABLE| && Distinct(order)
    && forall k :: 0 <= k < |order| ==> order[k] in COLORABLE
  }

  /** A shuffled id names one of spaces 2..8 of the row. */
  lemma ShuffledInRow(order: seq<nat>)
    requires IsShuffle(order)
    ensures InRow(order, BOARD_SIZE)
    ensures forall k :: 0 <= k < |order| ==> 2 <= order[k] <= 8
  {
  }

  /** Laying one more paint changes only the space it names. */
  lemma PaintedNext(s: seq<Space>, order: seq<nat>, from: nat, plan: seq<Paint>, n: nat)
    requires from + |plan| <= |order| && InRow(order, |s|) && n < |plan|
    ensures var r := Painted(s, order, from, plan[..n]);
      Painted(s, order, from, plan[..n + 1]) == r[order[from + n] - 1 := PaintSpace(r[order[from + n] - 1], plan[n])]
  {
    assert plan[..n + 1][..n] == plan[..n];
  }

  /** Laying two runs of paints one after the other is laying their
      concatenation. */
  lemma {:induction false} PaintedAppend(s: seq<Space>, order: seq<nat>, from: nat, a: seq<Paint>, b: seq<Paint>)
    requires from + |a| + |b| <= |order| && InRow(order, |s|)
    ensures Painted(s, order, from, a + b) == Painted(Painted(s, order, from, a), order, from + |a|, b)
    decreases |b|
  {
    if b == [] {
      assert a + b == a;
    } else {
      assert (a + b)[..|a + b| - 1] == a + b[..|b| - 1];
      PaintedAppend(s, order, from, a, b[..|b| - 1]);
    }
  }

  /** The n-th paint of a path's plan. */
  lemma PlanAt(finalBoss: bool, battle: Option<Battle>, d: PathDraw, positives: seq<FieldName>,
               negatives: seq<FieldName>, n: nat)
    requires |positives| > 0 && |negatives| > 0
    requires n < |Plan(finalBoss, battle, d, positives, negatives)|
    ensures var h := |Holes(finalBoss, d)|;
      var b := |BlueRed(finalBoss, battle, d, positives, negatives)|;
      Plan(finalBoss, battle, d, positives, negatives)[n]
        == if n < h then Colour(Black)
           else if n < h + b then BlueOrRed(battle, d, positives, negatives, n - h)
           else Colour(Yellow)
  {
  }

  /** A paint carries a field effect exactly when it is blue or red. */
  lemma PaintKind(finalBoss: bool, battle: Option<Battle>, d: PathDraw, positives: seq<FieldName>,
                  negatives: seq<FieldName>, n: nat)
    requires |positives| > 0 && |negatives| > 0
    requires n < |Plan(finalBoss, battle, d, positives, negatives)|
    ensures var p := Plan(finalBoss, battle, d, positives, negatives)[n]; p.color.Tinted() <==> p.Effect?
  {
    PlanAt(finalBoss, battle, d, positives, negatives, n);
  }

  /** The path `generateBoardPaths` builds as its i-th. */
  function PathOf(i: nat, finalBoss: bool, battle: Option<Battle>, d: PathDraw, positives: seq<FieldName>,
                  negatives: seq<FieldName>): (p: BoardPath)
    requires |positives| > 0 && |negatives| > 0
    requires IsShuffle(d.order)
    ensures p.id == i && p.playerId == OwnerOf(i) && |p.spaces| == BOARD_SIZE
  {
    ShuffledInRow(d.order);
    BoardPath(i, OwnerOf(i), Painted(Blank(), d.order, 0, Plan(finalBoss, battle, d, positives, negatives)))
  }

  /** The black holes of the final battle, laid on the first shuffled ids. */
  method LayHoles(finalBoss: bool, d: PathDraw, spaces0: seq<Space>) returns (spaces: seq<Space>, idx: nat)
    requires InRow(d.order, |spaces0|) && |d.order| == |COLORABLE|
    ensures idx == |Holes(finalBoss, d)|
    ensures spaces == Painted(spaces0, d.order, 0, Holes(finalBoss, d))
  {
    ghost var holes := Holes(finalBoss, d);
    spaces := spaces0;
    idx := 0;
    if finalBoss {
      var numBlackHoles := if d.twoHoles then 2 else 1;
      var k := 0;
      while k < numBlackHoles && idx < |d.order|
        invariant idx == k <= numBlackHoles == |holes|
        invariant spaces == Painted(spaces0, d.order, 0, holes[..idx])
      {
        PaintedNext(spaces0, d.order, 0, holes, idx);
        var j := d.order[idx] - 1;
        spaces := spaces[j := spaces[j].(color := Black)];
        idx := idx + 1;
        k := k + 1;
      }
    }
    assert holes[..idx] == holes;
  }

  /** The blue and red spaces, laid on the next shuffled ids. */
  method LayBlueRed(finalBoss: bool, battle: Option<Battle>, d: PathDraw, positives: seq<FieldName>,
                    negatives: seq<FieldName>, spaces0: seq<Space>, idx0: nat) returns (spaces: seq<Space>, idx: nat)
    requires |positives| > 0 && |negatives| > 0
    requires InRow(d.order, |spaces0|) && |d.order| == |COLORABLE| && idx0 <= 2
    ensures idx == idx0 + |BlueRed(finalBoss, battle, d, positives, negatives)|
    ensures spaces == Painted(spaces0, d.order, idx0, BlueRed(finalBoss, battle, d, positives, negatives))
  {
    ghost var blueRed := BlueRed(finalBoss, battle, d, positives, negatives);
    spaces := spaces0;
    idx := idx0;
    var numBlueRed := if finalBoss then 1 else COLORED_SPACES_PER_PATH;
    var k := 0;
    while k < numBlueRed && idx < |d.order|
      invariant idx == idx0 + k && k <= numBlueRed
      invariant spaces == Painted(spaces0, d.order, idx0, blueRed[..k])
    {
      PaintedNext(spaces0, d.order, idx0, blueRed, k);
      ghost var paint := BlueOrRed(battle, d, positives, negatives, k);
      assert blueRed[k] == paint;
      var isPositive := if battle == Some(ReversumBattle) then false else d.blue(k);
      var j := d.order[idx] - 1;
      if isPositive {
        var name := positives[d.pick(k) % |positives|];
        assert paint == Effect(Blue, name);
        spaces := spaces[j := spaces[j].(color := Blue, effectName := Some(name))];
      } else {
        var name := negatives[d.pick(k) % |negatives|];
        assert paint == Effect(Red, name);
        spaces := spaces[j := spaces[j].(color := Red, effectName := Some(name))];
      }
      idx := idx + 1;
      k := k + 1;
    }
    assert blueRed[..k] == blueRed;
  }

  /** Generates one path: black holes, then blue/red spaces, then the yellow
      space, each on the next id of the shuffled order. */
  method GeneratePath(i: nat, finalBoss: bool, battle: Option<Battle>, d: PathDraw, positives: seq<FieldName>,
                      negatives: seq<FieldName>) returns (path: BoardPath)
    requires |positives| > 0 && |negatives| > 0
    requires IsShuffle(d.order)
    ensures path == PathOf(i, finalBoss, battle, d, positives, negatives)
  {
    ShuffledInRow(d.order);
    ghost var holes := Holes(finalBoss, d);
    ghost var blueRed := BlueRed(finalBoss, battle, d, positives, negatives);
    ghost var yellows := Yellows(finalBoss, battle);
    var spaces := Blank();
    var idx;
    spaces, idx := LayHoles(finalBoss, d, spaces);
    spaces, idx := LayBlueRed(finalBoss, battle, d, positives, negatives, spaces, idx);
    ghost var laid := spaces;
    // the yellow space of Versatrix
    var isVersatrixBattle := battle == Some(VersatrixBattle) || finalBoss;
    if isVersatrixBattle && idx < |d.order| {
      PaintedNext(laid, d.order, idx, yellows, 0);
      var j := d.order[idx] - 1;
      spaces := spaces[j := spaces[j].(color := Yellow)];
      idx := idx + 1;
      assert yellows[..1] == yellows;
    }
    assert spaces == Painted(laid, d.order, |holes| + |blueRed|, yellows);
    PaintedAppend(Blank(), d.order, 0, holes, blueRed);
    PaintedAppend(Blank(), d.order, 0, holes + blueRed, yellows);
    path := BoardPath(i, OwnerOf(i), spaces);
  }

  /** The draws of a board are usable: each path's order is a shuffle of COLORABLE. */
  predicate Shuffled(draws: seq<PathDraw>)
  {
    forall i :: 0 <= i < |draws| ==> IsShuffle(draws[i].order)
  }

  /** `generateBoardPaths`: NUM_PATHS paths, path i drawn with `draws[i]`. */
  method GenerateBoardPaths(finalBoss: bool, battle: Option<Battle>, draws: seq<PathDraw>,
                            positives: seq<FieldName>, negatives: seq<FieldName>) returns (paths: seq<BoardPath>)
    requires |positives| > 0 && |negatives| > 0
    requires |draws| == NUM_PATHS && Shuffled(draws)
    ensures |paths| == NUM_PATHS
    ensures forall i :: 0 <= i < NUM_PATHS ==> paths[i] == PathOf(i, finalBoss, battle, draws[i], positives, negatives)
  {
    paths := [];
    var i := 0;
    while i < NUM_PATHS
      invariant i <= NUM_PATHS && |paths| == i
      invariant forall n :: 0 <= n < i ==> paths[n] == PathOf(n, finalBoss, battle, draws[n], positives, negatives)
    {
      var path := GeneratePath(i, finalBoss, battle, draws[i], positives, negatives);
      paths := paths + [path];
      i := i + 1;
    }
  }

  // ----- what a generated path looks like -----

  /** The board-wide rule on coloured spaces: blue and red spaces carry a field
      effect, the other colours none. */
  predicate WellColored(paths: seq<BoardPath>)
  {
    forall i, j :: 0 <= i < |paths| && 0 <= j < |paths[i].spaces| ==>
      (paths[i].spaces[j].color.Tinted() <==> paths[i].spaces[j].effectName.Some?)
  }

  /** The space painted k-th shows the k-th paint; since the shuffled ids do
      not repeat, later paints never cover it. */
  lemma {:induction false} PaintedAt(s: seq<Space>, order: seq<nat>, plan: seq<Paint>, k: nat)
    requires |plan| <= |order| && InRow(order, |s|) && Distinct(order)
    requires k < |plan|
    ensures Painted(s, order, 0, plan)[order[k] - 1] == PaintSpace(Painted(s, order, 0, plan[..k])[order[k] - 1], plan[k])
    decreases |plan|
  {
    if k < |plan| - 1 {
      assert plan[..|plan| - 1][..k] == plan[..k];
      PaintedAt(s, order, plan[..|plan| - 1], k);
    } else {
      assert plan[..|plan| - 1] == plan[..k];
    }
  }

  /** A space whose id is not among the first |plan| shuffled ids keeps its
      blank state. */
  lemma {:induction false} Unpainted(s: seq<Space>, order: seq<nat>, plan: seq<Paint>, j: nat)
    requires |plan| <= |order| && InRow(order, |s|)
    requires j < |s| && forall k :: 0 <= k < |plan| ==> order[k] != j + 1
    ensures Painted(s, order, 0, plan)[j] == s[j]
    decreases |plan|
  {
    if plan != [] {
      Unpainted(s, order, plan[..|plan| - 1], j);
    }
  }

  /** Golden rule: spaces 1 and 9 of a generated path are never coloured. */
  lemma GoldenRule(i: nat, finalBoss: bool, battle: Option<Battle>, d: PathDraw, positives: seq<FieldName>,
                   negatives: seq<FieldName>)
    requires |positives| > 0 && |negatives| > 0
    requires IsShuffle(d.order)
    ensures var s := PathOf(i, finalBoss, battle, d, positives, negatives).spaces;
      s[0] == Space(1, White, None, false) && s[BOARD_SIZE - 1] == Space(BOARD_SIZE, White, None, false)
  {
    ShuffledInRow(d.order);
    var plan := Plan(finalBoss, battle, d, positives, negatives);
    Unpainted(Blank(), d.order, plan, 0);
    Unpainted(Blank(), d.order, plan, BOARD_SIZE - 1);
  }

  /** The k-th paint of a generated path lands on the space with id
      `order[k]`, and no later paint covers it. */
  lemma PaintLands(i: nat, finalBoss: bool, battle: Option<Battle>, d: PathDraw, positives: seq<FieldName>,
                   negatives: seq<FieldName>, k: nat)
    requires |positives| > 0 && |negatives| > 0
    requires IsShuffle(d.order)
    requires k < |Plan(finalBoss, battle, d, positives, negatives)|
    ensures 2 <= d.order[k] <= 8
    ensures PathOf(i, finalBoss, battle, d, positives, negatives).spaces[d.order[k] - 1]
         == PaintSpace(Space(d.order[k], White, None, false), Plan(finalBoss, battle, d, positives, negatives)[k])
  {
    ShuffledInRow(d.order);
    var plan := Plan(finalBoss, battle, d, positives, negatives);
    PaintedAt(Blank(), d.order, plan, k);
    Unpainted(Blank(), d.order, plan[..k], d.order[k] - 1);
  }

  /** A space of a generated path that no paint was assigned to stays blank. */
  lemma OthersBlank(i: nat, finalBoss: bool, battle: Option<Battle>, d: PathDraw, positives: seq<FieldName>,
                    negatives: seq<FieldName>, j: nat)
    requires |positives| > 0 && |negatives| > 0
    requires IsShuffle(d.order)
    requires j < BOARD_SIZE
    requires forall k :: 0 <= k < |Plan(finalBoss, battle, d, positives, negatives)| ==> d.order[k] != j + 1
    ensures PathOf(i, finalBoss, battle, d, positives, negatives).spaces[j] == Space(j + 1, White, None, false)
  {
    ShuffledInRow(d.order);
    Unpainted(Blank(), d.order, Plan(finalBoss, battle, d, positives, negatives), j);
  }

  /** In a generated path, exactly the blue and red spaces carry a field
      effect. */
  lemma PathWellColored(i: nat, finalBoss: bool, battle: Option<Battle>, d: PathDraw, positives: seq<FieldName>,
                        negatives: seq<FieldName>, j: nat)
    requires |positives| > 0 && |negatives| > 0
    requires IsShuffle(d.order)
    requires j < BOARD_SIZE
    ensures var sp := PathOf(i, finalBoss, battle, d, positives, negatives).spaces[j];
      sp.color.Tinted() <==> sp.effectName.Some?
  {
    var plan := Plan(finalBoss, battle, d, positives, negatives);
    if k :| 0 <= k < |plan| && d.order[k] == j + 1 {
      PaintLands(i, finalBoss, battle, d, positives, negatives, k);
      PaintKind(finalBoss, battle, d, positives, negatives, k);
    } else {
      OthersBlank(i, finalBoss, battle, d, positives, negatives, j);
    }
  }

  /** The board `generateBoardPaths` returns obeys the board-wide colour rule. */
  lemma BoardWellColored(finalBoss: bool, battle: Option<Battle>, draws: seq<PathDraw>,
                         positives: seq<FieldName>, negatives: seq<FieldName>, paths: seq<BoardPath>)
    requires |positives| > 0 && |negatives| > 0
    requires |draws| == |paths| && Shuffled(draws)
    requires forall i :: 0 <= i < |paths| ==> paths[i] == PathOf(i, finalBoss, battle, draws[i], positives, negatives)
    ensures WellColored(paths)
  {
    forall i, j | 0 <= i < |paths| && 0 <= j < |paths[i].spaces|
      ensures paths[i].spaces[j].color.Tinted() <==> paths[i].spaces[j].effectName.Some?
    {
      PathWellColored(i, finalBoss, battle, draws[i], positives, negatives, j);
    }
  }

  /** The composition of a path's paints: the black holes only in the final
      battle, one blue/red space there and COLORED_SPACES_PER_PATH elsewhere,
      no blue space in the Reversum battle, and one yellow space in the
      Versatrix and final battles only. */
  lemma PlanShape(finalBoss: bool, battle: Option<Battle>, d: PathDraw, positives: seq<FieldName>,
                  negatives: seq<FieldName>)
    requires |positives| > 0 && |negatives| > 0
    ensures var plan := Plan(finalBoss, battle, d, positives, negatives);
      var h := if !finalBoss then 0 else if d.twoHoles then 2 else 1;
      var n := if finalBoss then 1 else COLORED_SPACES_PER_PATH;
      && |plan| == h + n + (if battle == Some(VersatrixBattle) || finalBoss then 1 else 0)
      && (forall k :: 0 <= k < h ==> plan[k] == Colour(Black))
      && (forall k :: h <= k < h + n ==> plan[k].Effect? && plan[k].color.Tinted())
      && (forall k :: h <= k < h + n && plan[k].color == Blue ==> plan[k].name in positives)
      && (forall k :: h <= k < h + n && plan[k].color == Red ==> plan[k].name in negatives)
      && (battle == Some(ReversumBattle) ==> forall k :: 0 <= k < |plan| ==> plan[k].color != Blue)
      && (forall k :: h + n <= k < |plan| ==> plan[k] == Colour(Yellow))
  {
  }

  // ----- neutralising the yellow spaces -----

  /** A yellow space turns white and loses its effect; other spaces stay. */
  function Bleach(sp: Space): Space
  {
    if sp.color == Yellow then sp.(color := White, effectName := None) else sp
  }

  /** The spaces of one path with every yellow space bleached. */
  function WhitenSpaces(spaces: seq<Space>): seq<Space>
  {
    seq(|spaces|, j requires 0 <= j < |spaces| => Bleach(spaces[j]))
  }

  /** The board after the Versatrix's yellow spaces are neutralised. */
  function Whiten(paths: seq<BoardPath>): seq<BoardPath>
  {
    seq(|paths|, i requires 0 <= i < |paths| => paths[i].(spaces := WhitenSpaces(paths[i].spaces)))
  }

  /** The inner `forEach` over one path's spaces. */
  method NeutralizePath(path: BoardPath) returns (r: BoardPath)
    ensures r == path.(spaces := WhitenSpaces(path.spaces))
  {
    var spaces := path.spaces;
    var j := 0;
    while j < |spaces|
      invariant j <= |spaces| == |path.spaces|
      invariant forall m :: 0 <= m < j ==> spaces[m] == Bleach(path.spaces[m])
      invariant spaces[j..] == path.spaces[j..]
    {
      if spaces[j].color == Yellow {
        spaces := spaces[j := spaces[j].(color := White, effectName := None)];
      }
      j := j + 1;
    }
    r := path.(spaces := spaces);
  }

  /** Turns every yellow space of the board white, dropping its effect, as
      the Versatrix's defeat does (js/game.js:1320-1327,
      js/story-abilities.js:239-244). */
  method NeutralizeYellow(paths: seq<BoardPath>) returns (r: seq<BoardPath>)
    ensures r == Whiten(paths)
  {
    r := paths;
    var i := 0;
    while i < |r|
      invariant i <= |r| == |paths|
      invariant forall n :: 0 <= n < i ==> r[n] == Whiten(paths)[n]
      invariant r[i..] == paths[i..]
    {
      var path := NeutralizePath(r[i]);
      r := r[i := path];
      i := i + 1;
    }
  }

  /** After the neutralisation no yellow space is left, every other space and
      every path's id and owner are as before, and the colour rule still holds. */
  lemma WhitenedBoard(paths: seq<BoardPath>)
    ensures var r := Whiten(paths);
      && |r| == |paths|
      && (forall i :: 0 <= i < |r| ==>
            r[i].id == paths[i].id && r[i].playerId == paths[i].playerId && |r[i].spaces| == |paths[i].spaces|)
      && (forall i, j :: 0 <= i < |r| && 0 <= j < |r[i].spaces| ==> r[i].spaces[j].color != Yellow)
      && (forall i, j :: 0 <= i < |r| && 0 <= j < |r[i].spaces| && paths[i].spaces[j].color != Yellow ==>
            r[i].spaces[j] == paths[i].spaces[j])
      && (forall i, j :: 0 <= i < |r| && 0 <= j < |r[i].spaces| && paths[i].spaces[j].color == Yellow ==>
            r[i].spaces[j].color == White && r[i].spaces[j].effectName.None?)
      && (WellColored(paths) ==> WellColored(r))
  {
  }

  /** Neutralising twice is the same as once. */
  lemma WhitenIdempotent(paths: seq<BoardPath>)
    ensures Whiten(Whiten(paths)) == Whiten(paths)
  {
    WhitenedBoard(paths);
    var r := Whiten(paths);
    forall i | 0 <= i < |r|
      ensures WhitenSpaces(r[i].spaces) == r[i].spaces
    {
    }
  }
}
