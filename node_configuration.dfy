/** The node configuration panel (src/components/NodeConfiguration.tsx): a
    count field and an id field, the parser that turns the id text into a
    roster, and the three handlers behind the panel's inputs and buttons. */
module NodeConfiguration {
  import opened Types
  import opened Text
  import IntSeq
  import SimulatorReducer
  import opened SimulatorContext

  // ---------------------------------------------------------------------
  // Parsing the id field

  /** `.map(id => parseInt(id.trim()))` over the pieces of the text. */
  function ParsePieces(pieces: seq<string>): (r: seq<Option<int>>)
    ensures |r| == |pieces|
    ensures forall i :: 0 <= i < |pieces| ==> r[i] == ParseInt(Trim(pieces[i]))
  {
    seq(|pieces|, i requires 0 <= i < |pieces| => ParseInt(Trim(pieces[i])))
  }

  /** `.filter(id => !isNaN(id) && id > 0)`: the positive numbers, in
      order. */
  function Positives(values: seq<Option<int>>): (r: seq<int>)
    ensures forall i :: 0 <= i < |r| ==> r[i] > 0
  {
    if values == [] then []
    else (if values[0].Some? && values[0].value > 0 then [values[0].value] else []) + Positives(values[1..])
  }

  /** The ids `handleApplyConfiguration` reads from the id field: the text
      split at commas, each piece trimmed and parsed, the positive numbers
      kept, sorted ascending and stripped of repeats. */
  function ParseNodeIds(text: string): (r: seq<int>)
  {
    IntSeq.Dedupe(IntSeq.Sort(Positives(ParsePieces(Split(text, ',')))))
  }

  /** A number survives the filter exactly when it is positive and some
      value is that number. */
  lemma {:induction false} PositivesMember(values: seq<Option<int>>, x: int)
    ensures x in Positives(values) <==> x > 0 && Some(x) in values
  {
    if values != [] {
      PositivesMember(values[1..], x);
      assert values == [values[0]] + values[1..];
    }
  }

  /** `x` is a positive number that some comma-separated piece of `text`
      reads as once trimmed. */
  predicate WrittenId(text: string, x: int)
  {
    var pieces := Split(text, ',');
    x > 0 && exists i :: 0 <= i < |pieces| && ParseInt(Trim(pieces[i])) == Some(x)
  }

  /** The parsed roster is strictly ascending and positive, and holds
      exactly the positive numbers written between the commas. */
  lemma ParseNodeIdsSpec(text: string)
    ensures var r := ParseNodeIds(text);
      && IntSeq.StrictlyIncreasing(r)
      && (forall i :: 0 <= i < |r| ==> r[i] > 0)
    ensures forall x :: x in ParseNodeIds(text) <==> WrittenId(text, x)
  {
    var pieces := Split(text, ',');
    var values := ParsePieces(pieces);
    var kept := Positives(values);
    var sorted := IntSeq.Sort(kept);
    IntSeq.SortSpec(kept);
    IntSeq.DedupeOfSorted(sorted);
    var r := IntSeq.Dedupe(sorted);
    assert r == ParseNodeIds(text);
    forall x
      ensures x in r <==> WrittenId(text, x)
    {
      assert x in r <==> x in sorted;
      assert x in sorted <==> x in multiset(sorted);
      assert x in kept <==> x in multiset(kept);
      PositivesMember(values, x);
      WrittenIdParsed(text, x);
    }
    forall i | 0 <= i < |r|
      ensures r[i] > 0
    {
      assert r[i] in r;
    }
  }

  lemma WrittenIdParsed(text: string, x: int)
    ensures WrittenId(text, x) <==> x > 0 && Some(x) in ParsePieces(Split(text, ','))
  {
    var pieces := Split(text, ',');
    var values := ParsePieces(pieces);
    if Some(x) in values {
      var i :| 0 <= i < |values| && values[i] == Some(x);
      assert ParseInt(Trim(pieces[i])) == Some(x);
    }
    if WrittenId(text, x) {
      var i :| 0 <= i < |pieces| && ParseInt(Trim(pieces[i])) == Some(x);
      assert values[i] == Some(x);
    }
  }

  /** `ids.join(', ')` of positive ids splits at commas into the first
      printed id and then each further one behind a blank; after `pad`,
      white space without commas, the pieces parse back to the ids. */
  lemma {:induction false} PositivePiecesOfJoined(pad: string, ids: seq<int>)
    requires ids != [] && forall i :: 0 <= i < |ids| ==> ids[i] > 0
    requires forall i :: 0 <= i < |pad| ==> IsWhitespace(pad[i])
    ensures Positives(ParsePieces(Split(pad + JoinIds(ids), ','))) == ids
    decreases |ids|
  {
    if |ids| == 1 {
      OneId(pad, ids);
    } else {
      PositivePiecesOfJoined(" ", ids[1..]);
      MoreIds(pad, ids);
    }
  }

  lemma OneId(pad: string, ids: seq<int>)
    requires |ids| == 1 && ids[0] > 0
    requires forall i :: 0 <= i < |pad| ==> IsWhitespace(pad[i])
    ensures Positives(ParsePieces(Split(pad + JoinIds(ids), ','))) == ids
  {
    HeadPiece(pad, ids[0]);
    JoinedHead(pad, ids);
    OnePiece(pad + IntToString(ids[0]), ids[0]);
  }

  lemma MoreIds(pad: string, ids: seq<int>)
    requires |ids| > 1 && ids[0] > 0
    requires forall i :: 0 <= i < |pad| ==> IsWhitespace(pad[i])
    requires Positives(ParsePieces(Split(" " + JoinIds(ids[1..]), ','))) == ids[1..]
    ensures Positives(ParsePieces(Split(pad + JoinIds(ids), ','))) == ids
  {
    HeadPiece(pad, ids[0]);
    JoinedHead(pad, ids);
    MorePieces(pad + IntToString(ids[0]), ids[0], JoinIds(ids[1..]), ids[1..]);
  }

  /** The joined ids after `pad`: the padded first id, then ", " and the
      joined rest, if any. */
  lemma JoinedHead(pad: string, ids: seq<int>)
    requires ids != []
    ensures |ids| == 1 ==> pad + JoinIds(ids) == pad + IntToString(ids[0])
    ensures |ids| > 1 ==> pad + JoinIds(ids) == (pad + IntToString(ids[0])) + ", " + JoinIds(ids[1..])
    ensures ids == [ids[0]] + ids[1..]
  {
    if |ids| > 1 {
      JoinIdsCons(ids);
    }
  }

  /** A piece without a comma that reads as a positive number is that one
      number. */
  lemma OnePiece(head: string, n: int)
    requires n > 0 && ',' !in head && ParseInt(Trim(head)) == Some(n)
    ensures Positives(ParsePieces(Split(head, ','))) == [n]
  {
    SplitWhole(head, ',');
    ParsePiecesOne(head, n);
    PositivesCons(n, []);
  }

  /** A piece without a comma that reads as a positive number, then ", "
      and more text: the number, then what the blank-led rest yields. */
  lemma MorePieces(head: string, n: int, rest: string, more: seq<int>)
    requires n > 0 && ',' !in head && ParseInt(Trim(head)) == Some(n)
    requires Positives(ParsePieces(Split(" " + rest, ','))) == more
    ensures Positives(ParsePieces(Split(head + ", " + rest, ','))) == [n] + more
  {
    Regroup(head, rest);
    SplitAfterPiece(head, ',', " " + rest);
    var tail := Split(" " + rest, ',');
    ParsePiecesCons(head, tail);
    PositivesCons(n, ParsePieces(tail));
  }

  lemma ParsePiecesOne(head: string, n: int)
    requires ParseInt(Trim(head)) == Some(n)
    ensures ParsePieces([head]) == [Some(n)] + []
  {
  }

  lemma PositivesCons(n: int, values: seq<Option<int>>)
    requires n > 0
    ensures Positives([Some(n)] + values) == [n] + Positives(values)
  {
    var all := [Some(n)] + values;
    assert all[0] == Some(n) && all[1..] == values;
  }

  /** A printed natural number after white space has no comma and reads
      back, trimmed, as the number. */
  lemma HeadPiece(pad: string, n: int)
    requires n >= 0
    requires forall i :: 0 <= i < |pad| ==> IsWhitespace(pad[i])
    ensures ',' !in pad + IntToString(n)
    ensures ParseInt(Trim(pad + IntToString(n))) == Some(n)
  {
    assert IntToString(n) == NatToString(n);
    ParseIntOfNatToString(n, pad);
    NoCommaInPadded(pad, NatToString(n));
  }

  /** White space followed by digits holds no comma. */
  lemma NoCommaInPadded(pad: string, digits: string)
    requires forall i :: 0 <= i < |pad| ==> IsWhitespace(pad[i])
    requires AllDigits(digits)
    ensures ',' !in pad + digits
  {
    assert ',' !in pad by {
      forall i | 0 <= i < |pad| ensures pad[i] != ',' {
        assert IsWhitespace(pad[i]);
      }
    }
    assert ',' !in digits by {
      forall i | 0 <= i < |digits| ensures digits[i] != ',' {
        assert IsDigit(digits[i]);
      }
    }
  }

  lemma JoinIdsCons(ids: seq<int>)
    requires |ids| > 1
    ensures JoinIds(ids) == IntToString(ids[0]) + ", " + JoinIds(ids[1..])
  {
    assert Render(ids)[1..] == Render(ids[1..]);
  }

  lemma Regroup(head: string, rest: string)
    ensures head + ", " + rest == head + [','] + (" " + rest)
  {
    assert ", " == [','] + " ";
  }

  lemma ParsePiecesCons(a: string, tail: seq<string>)
    ensures ParsePieces([a] + tail) == [ParseInt(Trim(a))] + ParsePieces(tail)
  {
  }

  /** The id field written by the panel reads back as the same roster:
      parsing `ids.join(', ')` of strictly ascending positive ids gives the
      ids. */
  lemma ParseJoinRoundTrip(ids: seq<int>)
    requires IntSeq.StrictlyIncreasing(ids)
    requires forall i :: 0 <= i < |ids| ==> ids[i] > 0
    ensures ParseNodeIds(JoinIds(ids)) == ids
  {
    if ids == [] {
      assert JoinIds(ids) == "";
      assert Split("", ',') == [""];
      assert TrimStart("") == "";
      assert ParsePieces([""]) == [None];
    } else {
      PositivePiecesOfJoined("", ids);
      assert "" + JoinIds(ids) == JoinIds(ids);
    }
    IntSeq.SortOfSorted(ids);
    IntSeq.DedupeOfStrictlyIncreasing(ids);
  }

  /** Applying a configuration twice reads the same roster both times:
      the text the first apply writes back parses to what it applied. */
  lemma ApplyIsStable(text: string)
    ensures ParseNodeIds(JoinIds(ParseNodeIds(text))) == ParseNodeIds(text)
  {
    ParseNodeIdsSpec(text);
    ParseJoinRoundTrip(ParseNodeIds(text));
  }

  // ---------------------------------------------------------------------
  // The count field

  /** `Array.from({ length: count }, (_, i) => i + 1)`: 1 to `count`, and
      nothing for a count below one. */
  function Sequential(count: int): (r: seq<int>)
    ensures |r| == if count < 0 then 0 else count
    ensures forall i :: 0 <= i < |r| ==> r[i] == i + 1
  {
    seq(if count < 0 then 0 else count, i => i + 1)
  }

  /** The ids the count field writes read back as 1 to `count`. */
  lemma SequentialRoundTrip(count: int)
    ensures ParseNodeIds(JoinIds(Sequential(count))) == Sequential(count)
  {
    ParseJoinRoundTrip(Sequential(count));
  }

  /** `parseInt(e.target.value) || 2`: the typed count, or 2 when the text
      is not a number or reads as 0. */
  function CountInput(text: string): (count: int)
    ensures count != 0
    ensures ParseInt(text).Some? && ParseInt(text).value != 0 ==> count == ParseInt(text).value
    ensures ParseInt(text).None? || ParseInt(text) == Some(0) ==> count == 2
  {
    match ParseInt(text)
    case Some(n) => if n != 0 then n else 2
    case None => 2
  }

  /** The text the reset button writes. */
  const ResetText: string := "1, 2, 3, 4, 5"

  /** The reset text is the default roster written as the panel writes
      rosters, so it reads back as that roster. */
  lemma ResetTextIsDefaultRoster()
    ensures JoinIds(SimulatorReducer.DefaultNodeIds()) == ResetText
    ensures ParseNodeIds(ResetText) == SimulatorReducer.DefaultNodeIds()
    ensures |SimulatorReducer.DefaultNodeIds()| == 5
  {
    DefaultRendered();
    DefaultJoined();
    ParseJoinRoundTrip(SimulatorReducer.DefaultNodeIds());
  }

  lemma DefaultRendered()
    ensures Render(SimulatorReducer.DefaultNodeIds()) == ["1", "2", "3", "4", "5"]
  {
    assert IntToString(1) == "1" && IntToString(2) == "2" && IntToString(3) == "3";
    assert IntToString(4) == "4" && IntToString(5) == "5";
  }

  lemma DefaultJoined()
    ensures Join(["1", "2", "3", "4", "5"], ", ") == ResetText
  {
    assert Join(["5"], ", ") == "5";
    assert Join(["4", "5"], ", ") == "4, 5";
    assert Join(["3", "4", "5"], ", ") == "3, 4, 5";
    assert Join(["2", "3", "4", "5"], ", ") == "2, 3, 4, 5";
  }

  // ---------------------------------------------------------------------
  // The panel

  /** The panel's two pieces of component state. */
  class Panel {
    /** The count field. */
    var nodeCount: int
    /** The id field's text. */
    var nodeIds: string

    /** Mounting: the count and the ids of the current roster. */
    constructor (s: SimulatorState)
      ensures nodeCount == |s.processes| && nodeIds == JoinIds(Ids(s.processes))
    {
      nodeCount := |s.processes|;
      nodeIds := JoinIds(Ids(s.processes));
    }

    /** Typing into the id field. */
    method EditIds(text: string)
      modifies this
      ensures nodeIds == text && nodeCount == old(nodeCount)
    {
      nodeIds := text;
    }

    /** `handleNodeCountChange(count)`: the count, and the ids 1 to
        `count` written into the id field. */
    method HandleNodeCountChange(count: int)
      modifies this
      ensures nodeCount == count && nodeIds == JoinIds(Sequential(count))
    {
      nodeCount := count;
      nodeIds := JoinIds(Sequential(count));
    }

    /** Typing into the count field, `onChange` of the number input. */
    method EditCount(text: string)
      modifies this
      ensures nodeCount == CountInput(text) && nodeIds == JoinIds(Sequential(CountInput(text)))
    {
      HandleNodeCountChange(CountInput(text));
    }

    /** `handleReset`: back to five nodes and their ids; the simulator is
        not touched. */
    method HandleReset()
      modifies this
      ensures nodeCount == 5 && nodeIds == ResetText
    {
      nodeCount := 5;
      nodeIds := ResetText;
    }

    /** `handleApplyConfiguration`: with no usable id the user is alerted
        and nothing else happens; otherwise the parsed roster is applied. */
    method HandleApplyConfiguration(sim: Simulator) returns (alerted: bool)
      requires sim.Valid()
      modifies this, sim, sim.loop, sim.orchestrator
      ensures sim.Valid()
      ensures alerted <==> ParseNodeIds(old(nodeIds)) == []
      ensures alerted ==>
        && nodeCount == old(nodeCount) && nodeIds == old(nodeIds)
        && sim.state == old(sim.state) && sim.nonce == old(sim.nonce)
        && unchanged(sim.loop) && unchanged(sim.orchestrator)
      ensures !alerted ==> Applied(sim, ParseNodeIds(old(nodeIds)))
    {
      var ids := ParseNodeIds(nodeIds);
      if ids == [] {
        alerted := true;
        return;
      }
      alerted := false;
      Apply(sim, ids);
    }

    /** What applying `ids` leaves: the fields rewritten from the roster,
        and the simulator as `configureNodes(ids)` leaves it. */
    twostate predicate Applied(sim: Simulator, ids: seq<int>)
      reads this, sim, sim.loop, sim.orchestrator
    {
      && nodeCount == |ids| && nodeIds == JoinIds(ids)
      && (old(sim.state).isElectionInProgress ==>
            sim.state == old(sim.state) && sim.nonce == old(sim.nonce)
            && unchanged(sim.loop) && unchanged(sim.orchestrator))
      && (!old(sim.state).isElectionInProgress ==>
            && sim.state == AfterConfigure(old(sim.state), ids, sim.loadTime, old(sim.loop.now), old(sim.nonce))
            && sim.nonce == old(sim.nonce) + 1
            && sim.orchestrator.pendingElections == map[]
            && (forall t :: t in sim.loop.timers <==> t in old(sim.loop.timers) && !t.event.ElectionTimeout?)
            && sim.loop.now == old(sim.loop.now) && sim.loop.serial == old(sim.loop.serial)
            && sim.loop.nextHandle == old(sim.loop.nextHandle))
    }

    /** `configureNodes(uniqueIds)`, then the count and the ids written
        back from the roster, whether or not the simulator took it. */
    method Apply(sim: Simulator, ids: seq<int>)
      requires sim.Valid()
      modifies this, sim, sim.loop, sim.orchestrator
      ensures sim.Valid()
      ensures Applied(sim, ids)
    {
      sim.ConfigureNodes(ids);
      nodeCount := |ids|;
      nodeIds := JoinIds(ids);
    }
  }
}
