/**
 * The alchemy sandbox (src/app/sandbox-experiment/components/experiment-client-page.tsx).
 *
 * Elements are dropped into a beaker that keeps at most one element per id,
 * in the order they arrived. "Mix Elements" needs at least two of them; it
 * describes the beaker's contents in one sentence and asks for an
 * explanation, which is an opaque success-or-failure input here. "Reset
 * Beaker" empties everything.
 */
module SandboxExperiment {
  import opened Wrappers

  datatype Element = Element(id: string, name: string, description: string)

  const AvailableElements: seq<Element> := [
    Element("hcl", "HCl", "Hydrochloric Acid"),
    Element("naoh", "NaOH", "Sodium Hydroxide"),
    Element("battery", "Battery", "Power Source"),
    Element("wire", "Wire", "Conductor"),
    Element("bulb", "Bulb", "Light Source"),
    Element("plant", "Plant", "A green sprout"),
    Element("sunlight", "Sunlight", "Rays of light"),
    Element("water", "Water", "H₂O")
  ]

  const MinMixElements := 2
  const DescriptionPrefix := "A student mixed the following items: "
  const NameSeparator := ", "

  // ---------------------------------------------------------------------------
  // The beaker as a list with one element per id.
  // ---------------------------------------------------------------------------

  predicate HasId(beaker: seq<Element>, id: string) {
    exists k :: 0 <= k < |beaker| && beaker[k].id == id
  }

  /** No two elements of the beaker share an id. */
  predicate UniqueIds(beaker: seq<Element>) {
    forall i, j :: 0 <= i < j < |beaker| ==> beaker[i].id != beaker[j].id
  }

  /** The beaker after `item` is dropped: appended when its id is new, unchanged otherwise. */
  function WithItem(beaker: seq<Element>, item: Element): (r: seq<Element>)
    ensures UniqueIds(beaker) ==> UniqueIds(r)
    ensures HasId(r, item.id)
    ensures forall id :: HasId(r, id) <==> HasId(beaker, id) || id == item.id
    ensures |beaker| <= |r| <= |beaker| + 1 && r[..|beaker|] == beaker
  {
    if HasId(beaker, item.id) then beaker
    else
      var r := beaker + [item];
      assert r[|beaker|].id == item.id;
      assert forall id :: HasId(beaker, id) ==> HasId(r, id) by {
        forall id | HasId(beaker, id) ensures HasId(r, id) {
          var k :| 0 <= k < |beaker| && beaker[k].id == id;
          assert r[k].id == id;
        }
      }
      r
  }

  /** Dropping the same element twice is the same as dropping it once. */
  lemma WithItemIdempotent(beaker: seq<Element>, item: Element)
    ensures WithItem(WithItem(beaker, item), item) == WithItem(beaker, item)
  {
  }

  // ---------------------------------------------------------------------------
  // The description sent for an explanation, and reading it back.
  // ---------------------------------------------------------------------------

  function Names(beaker: seq<Element>): (r: seq<string>)
    ensures |r| == |beaker|
    ensures forall k :: 0 <= k < |beaker| ==> r[k] == beaker[k].name
  {
    seq(|beaker|, k requires 0 <= k < |beaker| => beaker[k].name)
  }

  /** JavaScript's `join`: the items with `sep` between neighbours. */
  function Join(items: seq<string>, sep: string): string {
    if |items| == 0 then ""
    else if |items| == 1 then items[0]
    else items[0] + sep + Join(items[1..], sep)
  }

  function Describe(beaker: seq<Element>): string {
    DescriptionPrefix + Join(Names(beaker), NameSeparator) + "."
  }

  predicate CommaFree(s: string) {
    forall k :: 0 <= k < |s| ==> s[k] != ','
  }

  /** The position of the first comma of `s`, or `|s|` when there is none. */
  function FirstComma(s: string): (k: nat)
    ensures k <= |s|
    ensures forall i :: 0 <= i < k ==> s[i] != ','
    ensures k < |s| ==> s[k] == ','
  {
    if s == [] || s[0] == ',' then 0 else 1 + FirstComma(s[1..])
  }

  /** Splits at every comma and drops the one character after each comma. */
  function SplitNames(s: string): seq<string>
    decreases |s|
  {
    var k := FirstComma(s);
    if k == |s| then [s]
    else if k + 2 <= |s| then [s[..k]] + SplitNames(s[k + 2..])
    else [s[..k], ""]
  }

  /** Splitting a list of comma-free names joined by ", " gives back the names. */
  lemma {:induction false} SplitJoin(names: seq<string>)
    requires |names| >= 1
    requires forall k :: 0 <= k < |names| ==> CommaFree(names[k])
    ensures SplitNames(Join(names, NameSeparator)) == names
    decreases |names|
  {
    if |names| == 1 {
      var s := names[0];
      assert CommaFree(s);
    } else {
      var head, rest := names[0], Join(names[1..], NameSeparator);
      var s := head + NameSeparator + rest;
      assert FirstComma(s) == |head| by {
        assert s[|head|] == ',';
        assert CommaFree(head);
        forall i | 0 <= i < |head| ensures s[i] != ',' { assert s[i] == head[i]; }
      }
      assert s[..|head|] == head;
      assert s[|head| + 2..] == rest;
      SplitJoin(names[1..]);
      assert names == [head] + names[1..];
    }
  }

  /** Recovers the names from a description: the fixed prefix, the names, and a closing period. */
  function ParseDescription(d: string): Option<seq<string>> {
    if |d| >= |DescriptionPrefix| + 1 && d[..|DescriptionPrefix|] == DescriptionPrefix && d[|d| - 1] == '.'
    then Some(SplitNames(d[|DescriptionPrefix|..|d| - 1]))
    else None
  }

  /** A described beaker of elements with comma-free names can be read back from its description. */
  lemma DescriptionRoundTrip(beaker: seq<Element>)
    requires |beaker| >= 1
    requires forall k :: 0 <= k < |beaker| ==> CommaFree(beaker[k].name)
    ensures ParseDescription(Describe(beaker)) == Some(Names(beaker))
  {
    var joined := Join(Names(beaker), NameSeparator);
    var d := Describe(beaker);
    assert d[..|DescriptionPrefix|] == DescriptionPrefix;
    assert d[|DescriptionPrefix|..|d| - 1] == joined;
    SplitJoin(Names(beaker));
  }

  /** No element on offer has a comma in its name, so every description of them reads back. */
  lemma AvailableNamesCommaFree()
    ensures forall k :: 0 <= k < |AvailableElements| ==> CommaFree(AvailableElements[k].name)
  {
  }

  /** The elements on offer have distinct ids. */
  lemma AvailableIdsUnique()
    ensures UniqueIds(AvailableElements)
  {
  }

  // ---------------------------------------------------------------------------
  // The page.
  // ---------------------------------------------------------------------------

  /** How the request for an explanation settled. */
  datatype MixResult = Explained(explanation: string) | Failed(error: string)

  class Bench {
    var beaker: seq<Element>
    var explanation: string
    var isLoading: bool

    ghost predicate Valid()
      reads this`beaker
    {
      UniqueIds(beaker)
    }

    constructor ()
      ensures Valid()
      ensures beaker == [] && explanation == "" && !isLoading
    {
      beaker := [];
      explanation := "";
      isLoading := false;
    }

    /** An element dropped on the beaker joins it unless an element with its id is already there. */
    method Drop(item: Element)
      requires Valid()
      modifies this`beaker
      ensures Valid()
      ensures beaker == WithItem(old(beaker), item)
      ensures HasId(old(beaker), item.id) ==> beaker == old(beaker)
      ensures !HasId(old(beaker), item.id) ==> beaker == old(beaker) + [item]
    {
      if !HasId(beaker, item.id) {
        beaker := beaker + [item];
      }
    }

    /** The mix button is enabled while no request is in flight and the beaker holds at least two elements. */
    predicate MixEnabled()
      reads this`beaker, this`isLoading
    {
      !isLoading && |beaker| >= MinMixElements
    }

    /**
     * The first half of a mix: refused with fewer than two elements;
     * otherwise loading starts, the explanation is cleared and the
     * description of the beaker is returned for the request.
     */
    method StartMix() returns (description: Option<string>)
      requires Valid()
      modifies this`explanation, this`isLoading
      ensures Valid()
      ensures description.Some? <==> |beaker| >= MinMixElements
      ensures description.None? ==> explanation == old(explanation) && isLoading == old(isLoading)
      ensures description.Some? ==> description.value == Describe(beaker) && isLoading && explanation == ""
    {
      if |beaker| < MinMixElements {
        return None;
      }
      isLoading := true;
      explanation := "";
      description := Some(Describe(beaker));
    }

    /** The second half of a mix: an explanation replaces the text, a failure leaves it; loading ends either way. */
    method FinishMix(result: MixResult)
      modifies this`explanation, this`isLoading
      ensures result.Explained? ==> explanation == result.explanation
      ensures result.Failed? ==> explanation == old(explanation)
      ensures !isLoading
    {
      if result.Explained? {
        explanation := result.explanation;
      }
      isLoading := false;
    }

    /** A whole mix with nothing in between. */
    method Mix(result: MixResult) returns (description: Option<string>)
      requires Valid()
      modifies this`explanation, this`isLoading
      ensures Valid()
      ensures description.Some? <==> |beaker| >= MinMixElements
      ensures description.None? ==> explanation == old(explanation) && isLoading == old(isLoading)
      ensures description.Some? ==> description.value == Describe(beaker) && !isLoading
      ensures description.Some? ==> explanation == if result.Explained? then result.explanation else ""
    {
      description := StartMix();
      if description.Some? {
        FinishMix(result);
      }
    }

    /**
     * A press of the mix button, which is disabled unless `MixEnabled`: a
     * disabled press does nothing, an enabled one runs a whole mix. So a
     * press is never refused by the handler's own guard, and no second
     * request starts while one is in flight.
     */
    method PressMix(result: MixResult) returns (description: Option<string>)
      requires Valid()
      modifies this`explanation, this`isLoading
      ensures Valid()
      ensures description.Some? <==> old(MixEnabled())
      ensures description.None? ==> explanation == old(explanation) && isLoading == old(isLoading)
      ensures description.Some? ==> description.value == Describe(beaker) && !isLoading
      ensures description.Some? ==> explanation == if result.Explained? then result.explanation else ""
    {
      if !MixEnabled() {
        return None;
      }
      description := Mix(result);
    }

    /** "Reset Beaker". */
    method Reset()
      modifies this`beaker, this`explanation, this`isLoading
      ensures Valid()
      ensures beaker == [] && explanation == "" && !isLoading
    {
      beaker := [];
      explanation := "";
      isLoading := false;
    }
  }
}
