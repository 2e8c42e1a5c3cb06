/**
 * The photosynthesis concept builder (src/app/concept-builder/components/concept-builder-client.tsx).
 *
 * Five tiles start in the "available" list and are dragged into one of two
 * zones, reactants (`input`) or products (`output`). A drop lands only in the
 * zone of the tile's own type. "Check My Work" compares the sorted ids of each
 * zone with the sorted expected ids. The component's state becomes a class
 * with one method per handler; the sorted-id comparison is a pure function.
 */
module ConceptBuilder {
  import opened Wrappers

  /** A tile's type, which is also the name of the zone that accepts it. */
  datatype Zone = InputZone | OutputZone

  datatype Tile = Tile(id: string, text: string, kind: Zone)

  datatype CheckResult = Correct | Incorrect

  const ConceptTiles: seq<Tile> := [
    Tile("sunlight", "Sunlight", InputZone),
    Tile("co2", "Carbon Dioxide", InputZone),
    Tile("glucose", "Glucose", OutputZone),
    Tile("water", "Water", InputZone),
    Tile("oxygen", "Oxygen", OutputZone)
  ]

  const CorrectInputs: seq<string> := ["sunlight", "co2", "water"]
  const CorrectOutputs: seq<string> := ["glucose", "oxygen"]

  // ---------------------------------------------------------------------------
  // Sorting ids: the default order of JavaScript's `sort`, character by character.
  // ---------------------------------------------------------------------------

  /** `a` sorts no later than `b`: a prefix comes first, otherwise the first differing character decides. */
  predicate LexLe(a: string, b: string)
    decreases |a|
  {
    |a| == 0 || (|b| > 0 && (a[0] < b[0] || (a[0] == b[0] && LexLe(a[1..], b[1..]))))
  }

  lemma {:induction false} LexLeTotal(a: string, b: string)
    ensures LexLe(a, b) || LexLe(b, a)
    decreases |a|
  {
    if |a| > 0 && |b| > 0 && a[0] == b[0] {
      LexLeTotal(a[1..], b[1..]);
    }
  }

  lemma {:induction false} LexLeAntisymmetric(a: string, b: string)
    requires LexLe(a, b) && LexLe(b, a)
    ensures a == b
    decreases |a|
  {
    if |a| > 0 {
      LexLeAntisymmetric(a[1..], b[1..]);
      assert a == [a[0]] + a[1..];
      assert b == [b[0]] + b[1..];
    }
  }

  lemma {:induction false} LexLeTransitive(a: string, b: string, c: string)
    requires LexLe(a, b) && LexLe(b, c)
    ensures LexLe(a, c)
    decreases |a|
  {
    if |a| > 0 && a[0] == b[0] && b[0] == c[0] {
      LexLeTransitive(a[1..], b[1..], c[1..]);
    }
  }

  predicate Sorted(s: seq<string>) {
    forall i, j :: 0 <= i < j < |s| ==> LexLe(s[i], s[j])
  }

  /** Inserts `x` before the first element it does not follow. */
  function Insert(x: string, s: seq<string>): seq<string> {
    if s == [] then [x]
    else if LexLe(x, s[0]) then [x] + s
    else [s[0]] + Insert(x, s[1..])
  }

  /** Insertion sort of a list of ids. */
  function SortIds(s: seq<string>): seq<string> {
    if s == [] then [] else Insert(s[0], SortIds(s[1..]))
  }

  /** The tail of a sorted list is sorted. */
  lemma SortedTail(s: seq<string>)
    requires Sorted(s) && s != []
    ensures Sorted(s[1..])
  {
    forall i, j | 0 <= i < j < |s| - 1 ensures LexLe(s[1..][i], s[1..][j]) {
      assert s[1..][i] == s[i + 1] && s[1..][j] == s[j + 1];
    }
  }

  /** Inserting adds exactly the one element. */
  lemma {:induction false} InsertCount(x: string, s: seq<string>)
    ensures multiset(Insert(x, s)) == multiset(s) + multiset{x}
  {
    if s != [] && !LexLe(x, s[0]) {
      InsertCount(x, s[1..]);
      assert s == [s[0]] + s[1..];
    }
  }

  /** A sorted list with an element in front that precedes all of it is sorted. */
  lemma SortedCons(h: string, t: seq<string>)
    requires Sorted(t)
    requires forall y :: y in t ==> LexLe(h, y)
    ensures Sorted([h] + t)
  {
    var s := [h] + t;
    forall i, j | 0 <= i < j < |s| ensures LexLe(s[i], s[j]) {
      assert s[j] == t[j - 1];
      if i > 0 {
        assert s[i] == t[i - 1];
      }
    }
  }

  /** Inserting into a sorted list keeps it sorted. */
  lemma {:induction false} InsertSorted(x: string, s: seq<string>)
    requires Sorted(s)
    ensures Sorted(Insert(x, s))
  {
    if s == [] {
    } else if LexLe(x, s[0]) {
      forall y | y in s ensures LexLe(x, y) {
        var j :| 0 <= j < |s| && s[j] == y;
        if j > 0 { LexLeTransitive(x, s[0], s[j]); }
      }
      SortedCons(x, s);
    } else {
      SortedTail(s);
      InsertSorted(x, s[1..]);
      InsertCount(x, s[1..]);
      var rest := Insert(x, s[1..]);
      LexLeTotal(x, s[0]);
      forall y | y in rest ensures LexLe(s[0], y) {
        assert y in multiset(rest);
        if y != x {
          assert y in multiset(s[1..]);
          var j :| 0 <= j < |s[1..]| && s[1..][j] == y;
          assert s[j + 1] == y;
        }
      }
      SortedCons(s[0], rest);
    }
  }

  /** The sorted ids are a sorted permutation of the ids. */
  lemma {:induction false} SortIdsSorted(s: seq<string>)
    ensures Sorted(SortIds(s))
    ensures multiset(SortIds(s)) == multiset(s)
  {
    if s != [] {
      assert s == [s[0]] + s[1..];
      SortIdsSorted(s[1..]);
      InsertSorted(s[0], SortIds(s[1..]));
      InsertCount(s[0], SortIds(s[1..]));
    }
  }

  /** Taking the element at `k` out of a list takes one copy of it out of the list's multiset. */
  lemma RemoveAt<T>(b: seq<T>, k: nat)
    requires k < |b|
    ensures multiset(b[..k] + b[k + 1..]) == multiset(b) - multiset{b[k]}
  {
    assert b == b[..k] + [b[k]] + b[k + 1..];
  }

  /** The tail of a list holds all its elements but one copy of the first. */
  lemma MultisetTail<T>(s: seq<T>)
    requires s != []
    ensures multiset(s[1..]) == multiset(s) - multiset{s[0]}
  {
    assert s == [s[0]] + s[1..];
  }

  /** The first element of a sorted list is no later than any element of it. */
  lemma SortedFirst(s: seq<string>, x: string)
    requires Sorted(s) && x in multiset(s)
    ensures s != [] && LexLe(s[0], x)
  {
    var k :| 0 <= k < |s| && s[k] == x;
    if k == 0 { LexLeTotal(s[0], x); }
  }

  /** Two sorted lists with the same elements are the same list. */
  lemma {:induction false} SortedUnique(a: seq<string>, b: seq<string>)
    requires Sorted(a) && Sorted(b)
    requires multiset(a) == multiset(b)
    ensures a == b
    decreases |a|
  {
    if a == [] {
      assert |b| == |multiset(b)| == |multiset(a)| == 0;
    } else {
      SortedFirst(b, a[0]);
      SortedFirst(a, b[0]);
      LexLeAntisymmetric(a[0], b[0]);
      MultisetTail(a);
      MultisetTail(b);
      SortedTail(a);
      SortedTail(b);
      SortedUnique(a[1..], b[1..]);
      assert a == [a[0]] + a[1..] && b == [b[0]] + b[1..];
    }
  }

  /** Sorting ids makes two lists equal exactly when they hold the same ids, in any order. */
  lemma SortIdsEqualIff(a: seq<string>, b: seq<string>)
    ensures SortIds(a) == SortIds(b) <==> multiset(a) == multiset(b)
  {
    SortIdsSorted(a);
    SortIdsSorted(b);
    if multiset(a) == multiset(b) {
      SortedUnique(SortIds(a), SortIds(b));
    }
  }

  // ---------------------------------------------------------------------------
  // The answer check.
  // ---------------------------------------------------------------------------

  /** The ids of a list of tiles, in order. */
  function Ids(tiles: seq<Tile>): seq<string> {
    if tiles == [] then [] else [tiles[0].id] + Ids(tiles[1..])
  }

  /** Listing ids distributes over concatenation. */
  lemma {:induction false} IdsAppend(x: seq<Tile>, y: seq<Tile>)
    ensures Ids(x + y) == Ids(x) + Ids(y)
  {
    if x == [] {
      assert x + y == y;
    } else {
      assert (x + y)[1..] == x[1..] + y;
      IdsAppend(x[1..], y);
    }
  }

  /** The ids of a list: the id at `k` and those of the list without position `k`. */
  lemma IdsRemoveAt(b: seq<Tile>, k: nat)
    requires k < |b|
    ensures multiset(Ids(b)) == multiset{b[k].id} + multiset(Ids(b[..k] + b[k + 1..]))
  {
    assert b == b[..k] + ([b[k]] + b[k + 1..]);
    IdsAppend(b[..k], [b[k]] + b[k + 1..]);
    IdsAppend([b[k]], b[k + 1..]);
    IdsAppend(b[..k], b[k + 1..]);
  }

  /** Listing the same tiles in another order lists the same ids in another order. */
  lemma {:induction false} IdsPermutation(a: seq<Tile>, b: seq<Tile>)
    requires multiset(a) == multiset(b)
    ensures multiset(Ids(a)) == multiset(Ids(b))
    decreases |a|
  {
    if a == [] {
      assert |b| == |multiset(b)| == |multiset(a)| == 0;
    } else {
      assert a[0] in multiset(b);
      var k :| 0 <= k < |b| && b[k] == a[0];
      var rest := b[..k] + b[k + 1..];
      assert multiset(a[1..]) == multiset(rest) by {
        MultisetTail(a);
        RemoveAt(b, k);
      }
      IdsPermutation(a[1..], rest);
      assert multiset(Ids(a)) == multiset{a[0].id} + multiset(Ids(a[1..])) by {
        assert Ids(a) == [a[0].id] + Ids(a[1..]);
      }
      IdsRemoveAt(b, k);
    }
  }

  /** "Check My Work": each zone's sorted ids against the sorted expected ids. */
  function CheckAnswer(inputTiles: seq<Tile>, outputTiles: seq<Tile>): CheckResult {
    if SortIds(Ids(inputTiles)) == SortIds(CorrectInputs) && SortIds(Ids(outputTiles)) == SortIds(CorrectOutputs)
    then Correct
    else Incorrect
  }

  /** The check succeeds exactly when each zone holds the expected ids, in whatever order. */
  lemma CheckAnswerMeaning(inputTiles: seq<Tile>, outputTiles: seq<Tile>)
    ensures CheckAnswer(inputTiles, outputTiles) == Correct <==>
      multiset(Ids(inputTiles)) == multiset(CorrectInputs) && multiset(Ids(outputTiles)) == multiset(CorrectOutputs)
  {
    SortIdsEqualIff(Ids(inputTiles), CorrectInputs);
    SortIdsEqualIff(Ids(outputTiles), CorrectOutputs);
  }

  /** The check does not depend on the order in which tiles were dropped. */
  lemma CheckIgnoresOrder(inputTiles: seq<Tile>, inputTiles': seq<Tile>, outputTiles: seq<Tile>, outputTiles': seq<Tile>)
    requires multiset(inputTiles) == multiset(inputTiles')
    requires multiset(outputTiles) == multiset(outputTiles')
    ensures CheckAnswer(inputTiles, outputTiles) == CheckAnswer(inputTiles', outputTiles')
  {
    IdsPermutation(inputTiles, inputTiles');
    IdsPermutation(outputTiles, outputTiles');
    CheckAnswerMeaning(inputTiles, outputTiles);
    CheckAnswerMeaning(inputTiles', outputTiles');
  }

  // ---------------------------------------------------------------------------
  // The partition of the tiles among the three lists.
  // ---------------------------------------------------------------------------

  /** Every tile of `universe` is in exactly one of the three lists, once, and nothing else is. */
  ghost predicate Partitioned(available: seq<Tile>, inputTiles: seq<Tile>, outputTiles: seq<Tile>, universe: seq<Tile>) {
    multiset(available) + multiset(inputTiles) + multiset(outputTiles) == multiset(universe)
  }

  /** Each zone holds only tiles of its own type. */
  predicate ZonesTyped(inputTiles: seq<Tile>, outputTiles: seq<Tile>) {
    && (forall k :: 0 <= k < |inputTiles| ==> inputTiles[k].kind == InputZone)
    && (forall k :: 0 <= k < |outputTiles| ==> outputTiles[k].kind == OutputZone)
  }

  /** No tile occurs twice in `universe` and no two of its tiles share an id. */
  predicate UniqueTiles(universe: seq<Tile>) {
    forall i, j :: 0 <= i < j < |universe| ==> universe[i].id != universe[j].id
  }

  lemma ConceptTilesUnique()
    ensures UniqueTiles(ConceptTiles)
  {
  }

  /** In a list of unique tiles, a tile occurs at most once and an id names at most one tile. */
  lemma {:induction false} UniqueTilesCount(universe: seq<Tile>, t: Tile, u: Tile)
    requires UniqueTiles(universe)
    ensures multiset(universe)[t] <= 1
    ensures t in universe && u in universe && t.id == u.id ==> t == u
    decreases |universe|
  {
    if universe != [] {
      var tail := universe[1..];
      assert universe == [universe[0]] + tail;
      assert multiset(universe) == multiset{universe[0]} + multiset(tail);
      assert UniqueTiles(tail) by {
        forall i, j | 0 <= i < j < |tail| ensures tail[i].id != tail[j].id {
          assert tail[i] == universe[i + 1] && tail[j] == universe[j + 1];
        }
      }
      UniqueTilesCount(tail, t, u);
      if t == universe[0] {
        assert t !in tail by {
          forall j | 0 <= j < |tail| ensures tail[j] != t { assert tail[j] == universe[j + 1]; }
        }
      }
      forall x | x in tail ensures x.id != universe[0].id {
        var j :| 0 <= j < |tail| && tail[j] == x;
        assert x == universe[j + 1];
      }
    }
  }

  /** The available tiles without the one whose id is `id`. */
  function RemoveTile(tiles: seq<Tile>, id: string): seq<Tile> {
    if tiles == [] then []
    else if tiles[0].id == id then RemoveTile(tiles[1..], id)
    else [tiles[0]] + RemoveTile(tiles[1..], id)
  }

  /** Removing by id drops every tile with that id and keeps every other tile as often as before. */
  lemma {:induction false} RemoveTileCount(tiles: seq<Tile>, id: string, t: Tile)
    ensures multiset(RemoveTile(tiles, id))[t] == if t.id == id then 0 else multiset(tiles)[t]
  {
    if tiles != [] {
      assert tiles == [tiles[0]] + tiles[1..];
      RemoveTileCount(tiles[1..], id, t);
    }
  }

  /** Within a partition of unique tiles, removing an available tile's id removes exactly that tile. */
  lemma RemoveUniqueTile(available: seq<Tile>, rest: multiset<Tile>, universe: seq<Tile>, d: Tile)
    requires multiset(available) + rest == multiset(universe)
    requires UniqueTiles(universe)
    requires d in available
    ensures multiset(RemoveTile(available, d.id)) == multiset(available) - multiset{d}
  {
    var removed := RemoveTile(available, d.id);
    forall t ensures multiset(removed)[t] == (multiset(available) - multiset{d})[t] {
      RemoveTileCount(available, d.id, t);
      UniqueTilesCount(universe, t, d);
      assert multiset(available)[t] <= multiset(universe)[t];
      assert multiset(available)[d] <= multiset(universe)[d];
      UniqueTilesCount(universe, d, d);
      if t.id == d.id && t != d {
        assert t !in universe;
      }
    }
    assert multiset(removed) == multiset(available) - multiset{d};
  }

  /** Moving an available tile into either zone keeps the partition. */
  lemma MoveKeepsPartition(available: seq<Tile>, inputTiles: seq<Tile>, outputTiles: seq<Tile>, universe: seq<Tile>, d: Tile)
    requires Partitioned(available, inputTiles, outputTiles, universe)
    requires UniqueTiles(universe)
    requires d in available
    ensures multiset(RemoveTile(available, d.id)) == multiset(available) - multiset{d}
    ensures Partitioned(RemoveTile(available, d.id), inputTiles + [d], outputTiles, universe)
    ensures Partitioned(RemoveTile(available, d.id), inputTiles, outputTiles + [d], universe)
  {
    RemoveUniqueTile(available, multiset(inputTiles) + multiset(outputTiles), universe, d);
  }

  /** Adding a tile to the zone of its own type keeps the zones typed. */
  lemma AddKeepsTyped(inputTiles: seq<Tile>, outputTiles: seq<Tile>, d: Tile)
    requires ZonesTyped(inputTiles, outputTiles)
    ensures d.kind == InputZone ==> ZonesTyped(inputTiles + [d], outputTiles)
    ensures d.kind == OutputZone ==> ZonesTyped(inputTiles, outputTiles + [d])
  {
  }

  /** Splits a permutation of typed tiles by type. */
  lemma SplitByKind(inputTiles: seq<Tile>, outputTiles: seq<Tile>, ins: seq<Tile>, outs: seq<Tile>)
    requires multiset(inputTiles) + multiset(outputTiles) == multiset(ins) + multiset(outs)
    requires ZonesTyped(inputTiles, outputTiles) && ZonesTyped(ins, outs)
    ensures multiset(inputTiles) == multiset(ins) && multiset(outputTiles) == multiset(outs)
  {
    forall t ensures multiset(inputTiles)[t] == multiset(ins)[t] && multiset(outputTiles)[t] == multiset(outs)[t] {
      assert (multiset(inputTiles) + multiset(outputTiles))[t] == (multiset(ins) + multiset(outs))[t];
      if t.kind == InputZone {
        assert t !in outputTiles && t !in outs;
        assert multiset(outputTiles)[t] == 0 && multiset(outs)[t] == 0;
      } else {
        assert t !in inputTiles && t !in ins;
        assert multiset(inputTiles)[t] == 0 && multiset(ins)[t] == 0;
      }
    }
    assert multiset(inputTiles) == multiset(ins);
    assert multiset(outputTiles) == multiset(outs);
  }

  /** Five items in any order hold the same items as the first, second and fourth followed by the other two. */
  lemma RegroupFive<T>(x0: T, x1: T, x2: T, x3: T, x4: T)
    ensures multiset([x0, x1, x2, x3, x4]) == multiset([x0, x1, x3]) + multiset([x2, x4])
  {
  }

  /** The reactants of photosynthesis among the concept tiles. */
  function ReactantTiles(): (r: seq<Tile>)
    ensures forall k :: 0 <= k < |r| ==> r[k].kind == InputZone
  {
    [ConceptTiles[0], ConceptTiles[1], ConceptTiles[3]]
  }

  /** The products of photosynthesis among the concept tiles. */
  function ProductTiles(): (r: seq<Tile>)
    ensures forall k :: 0 <= k < |r| ==> r[k].kind == OutputZone
  {
    [ConceptTiles[2], ConceptTiles[4]]
  }

  /** The concept tiles are exactly the reactants and the products. */
  lemma ConceptTilesByKind()
    ensures multiset(ConceptTiles) == multiset(ReactantTiles()) + multiset(ProductTiles())
    ensures Ids(ReactantTiles()) == CorrectInputs && Ids(ProductTiles()) == CorrectOutputs
  {
    var R, P := ReactantTiles(), ProductTiles();
    assert Ids(R[2..]) == ["water"];
    assert Ids(R[1..]) == ["co2"] + Ids(R[2..]);
    assert Ids(P[1..]) == ["oxygen"];
    var T := ConceptTiles;
    assert T == [T[0], T[1], T[2], T[3], T[4]];
    RegroupFive(T[0], T[1], T[2], T[3], T[4]);
  }

  /** With nothing left to place, the tiles can only be where they belong: the check succeeds. */
  lemma CompleteIsCorrect(inputTiles: seq<Tile>, outputTiles: seq<Tile>)
    requires Partitioned([], inputTiles, outputTiles, ConceptTiles)
    requires ZonesTyped(inputTiles, outputTiles)
    ensures CheckAnswer(inputTiles, outputTiles) == Correct
  {
    ConceptTilesByKind();
    assert multiset(inputTiles) + multiset(outputTiles) == multiset(ReactantTiles()) + multiset(ProductTiles());
    SplitByKind(inputTiles, outputTiles, ReactantTiles(), ProductTiles());
    IdsPermutation(inputTiles, ReactantTiles());
    IdsPermutation(outputTiles, ProductTiles());
    CheckAnswerMeaning(inputTiles, outputTiles);
  }

  // ---------------------------------------------------------------------------
  // The component.
  // ---------------------------------------------------------------------------

  class Builder {
    /** The tiles the component was created with; its lists only ever hold these. */
    const tiles: seq<Tile>
    var available: seq<Tile>
    var inputTiles: seq<Tile>
    var outputTiles: seq<Tile>
    var dragged: Option<Tile>
    var result: Option<CheckResult>
    var glow: bool

    /** The three lists partition the tiles, zones are typed, and a dragged tile is an available one. */
    ghost predicate Valid()
      reads this`available, this`inputTiles, this`outputTiles, this`dragged
    {
      && UniqueTiles(tiles)
      && Partitioned(available, inputTiles, outputTiles, tiles)
      && ZonesTyped(inputTiles, outputTiles)
      && (dragged.Some? ==> dragged.value in available)
    }

    constructor ()
      ensures Valid()
      ensures tiles == ConceptTiles
      ensures available == tiles && inputTiles == [] && outputTiles == []
      ensures dragged == None && result == None && !glow
    {
      ConceptTilesUnique();
      tiles := ConceptTiles;
      available := ConceptTiles;
      inputTiles := [];
      outputTiles := [];
      dragged := None;
      result := None;
      glow := false;
    }

    /** Only the tiles in the available list are rendered as draggable. */
    method DragStart(t: Tile)
      requires Valid()
      requires t in available
      modifies this`dragged
      ensures Valid()
      ensures dragged == Some(t)
    {
      dragged := Some(t);
    }

    /** A drop on `zone`: accepted when the dragged tile's type is that zone, refused otherwise. */
    method Drop(zone: Zone)
      requires Valid()
      modifies this`available, this`inputTiles, this`outputTiles, this`dragged
      ensures Valid()
      ensures dragged == None
      ensures old(dragged).None? || old(dragged).value.kind != zone ==>
        available == old(available) && inputTiles == old(inputTiles) && outputTiles == old(outputTiles)
      ensures old(dragged).Some? && old(dragged).value.kind == zone ==>
        && available == RemoveTile(old(available), old(dragged).value.id)
        && multiset(available) == multiset(old(available)) - multiset{old(dragged).value}
        && inputTiles == (if zone == InputZone then old(inputTiles) + [old(dragged).value] else old(inputTiles))
        && outputTiles == (if zone == OutputZone then old(outputTiles) + [old(dragged).value] else old(outputTiles))
    {
      if dragged.Some? {
        var d := dragged.value;
        if d.kind == zone {
          MoveKeepsPartition(available, inputTiles, outputTiles, tiles, d);
          AddKeepsTyped(inputTiles, outputTiles, d);
          if zone == InputZone {
            inputTiles := inputTiles + [d];
          } else {
            outputTiles := outputTiles + [d];
          }
          available := RemoveTile(available, d.id);
        }
      }
      dragged := None;
    }
    /** The "Check My Work" button is enabled once every tile is placed and until the answer is correct. */
    predicate CheckEnabled()
      reads this
    {
      |available| == 0 && result != Some(Correct)
    }

    /** Whenever the button is enabled, pressing it finds the answer correct. */
    lemma EnabledCheckIsCorrect()
      requires Valid() && CheckEnabled()
      requires tiles == ConceptTiles
      ensures CheckAnswer(inputTiles, outputTiles) == Correct
    {
      assert available == [];
      CompleteIsCorrect(inputTiles, outputTiles);
    }

    method Check()
      requires Valid()
      modifies this`result, this`glow
      ensures Valid()
      ensures result == Some(CheckAnswer(inputTiles, outputTiles))
      ensures result == Some(Correct) ==> glow
      ensures result == Some(Incorrect) ==> glow == old(glow)
    {
      var r := CheckAnswer(inputTiles, outputTiles);
      result := Some(r);
      if r == Correct {
        glow := true;
      }
    }

    /** The two-second timer that ends the glow after a correct answer. */
    method EndGlow()
      modifies this`glow
      ensures !glow
    {
      glow := false;
    }

    /** "Start Over": the tiles go back; a tile being dragged stays the dragged tile. */
    method Reset()
      requires Valid()
      modifies this`available, this`inputTiles, this`outputTiles, this`result, this`glow
      ensures Valid()
      ensures available == tiles && inputTiles == [] && outputTiles == []
      ensures result == None && !glow
    {
      if dragged.Some? {
        assert multiset(available)[dragged.value] <= multiset(tiles)[dragged.value];
      }
      available := tiles;
      inputTiles := [];
      outputTiles := [];
      result := None;
      glow := false;
    }
  }
}
