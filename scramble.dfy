/**
 * The move-sequence helpers of src/AppContext.tsx: the random
 * domino-reduction state generator `randomDrState` and the move inverter `invert`.
 * Move sequences are space-separated tokens.
 */
module Scramble {
  import opened Wrappers
  import opened Strings

  /** The quarter turns drawn at even positions. */
  const QuarterTurns: seq<string> := ["U", "U'", "D", "D'"]

  /** The half turns drawn at odd positions. */
  const HalfTurns: seq<string> := ["F2", "B2", "R2", "L2"]

  /** The number of loop rounds; each pushes one quarter turn and one half turn. */
  const Rounds: nat := 250

  /**
   * The 500 draws `Math.floor(Math.random() * 4)` the loop makes, in order: draw
   * 2i picks round i's quarter turn, draw 2i+1 its half turn.
   */
  predicate ValidChoices(choices: seq<nat>)
  {
    |choices| == 2 * Rounds && forall k :: 0 <= k < |choices| ==> choices[k] < 4
  }

  /** The move the k-th draw selects. */
  function DrMoves(choices: seq<nat>): seq<string>
    requires ValidChoices(choices)
  {
    seq(|choices|, k requires 0 <= k < |choices| => if k % 2 == 0 then QuarterTurns[choices[k]] else HalfTurns[choices[k]])
  }

  /** The string `randomDrState` returns for the given draws. */
  function DrState(choices: seq<nat>): string
    requires ValidChoices(choices)
  {
    Join(DrMoves(choices), ' ')
  }

  /**
   * The generated state has exactly 500 tokens: quarter turns of U/D at even
   * positions and half turns of F/B/R/L at odd positions, each the one its draw picks.
   */
  lemma DrStateTokens(choices: seq<nat>)
    requires ValidChoices(choices)
    ensures var ts := Split(DrState(choices), ' ');
            |ts| == 500 &&
            forall k :: 0 <= k < |ts| ==>
              (k % 2 == 0 ==> ts[k] in QuarterTurns && ts[k] == QuarterTurns[choices[k]]) &&
              (k % 2 == 1 ==> ts[k] in HalfTurns && ts[k] == HalfTurns[choices[k]])
  {
    SplitJoin(DrMoves(choices), ' ');
  }

  /** `randomDrState`: 250 rounds, each pushing a quarter turn, then a half turn; then a join. */
  method RandomDrState(choices: seq<nat>) returns (r: string)
    requires ValidChoices(choices)
    ensures r == DrState(choices)
  {
    var moves: seq<string> := [];
    for i := 0 to Rounds
      invariant |moves| == 2 * i
      invariant forall k :: 0 <= k < 2 * i ==> moves[k] == DrMoves(choices)[k]
    {
      moves := moves + [QuarterTurns[choices[2 * i]]];
      moves := moves + [HalfTurns[choices[2 * i + 1]]];
    }
    assert moves == DrMoves(choices);
    r := Join(moves, ' ');
  }

  // ---------------------------------------------------------------------------
  // invert
  // ---------------------------------------------------------------------------

  /** `m[k]` on a JavaScript string: `undefined` unless 0 <= k < |m|, so `m[-1]` is always undefined. */
  function CharAt(m: string, k: int): (r: Option<char>)
    ensures r.Some? <==> 0 <= k < |m|
    ensures r.Some? ==> r.value == m[k]
  {
    if 0 <= k < |m| then Some(m[k]) else None
  }

  /**
   * The body of the loop in `invert`, classifying the token by its character at
   * position k: a half turn is kept, a primed turn loses everything after its
   * first character, anything else gets a prime.
   */
  function InvertMoveAt(m: string, k: int): string
  {
    if CharAt(m, k) == Some('2') then m
    else if CharAt(m, k) == Some('\'') then [m[0]]
    else m + "'"
  }

  /** The loop body as written, which looks at `m[-1]`: every token just gets a prime. */
  function InvertMoveAsWritten(m: string): (r: string)
    ensures r == m + "'"
  {
    InvertMoveAt(m, -1)
  }

  /**
   * `invert` as written: the tokens in reverse order, each with a prime appended,
   * whatever it was.
   */
  method Invert(scramble: string) returns (r: string)
    ensures var ms := Split(scramble, ' ');
            var out := Split(r, ' ');
            |out| == |ms| && forall k :: 0 <= k < |ms| ==> out[k] == ms[|ms| - 1 - k] + "'"
  {
    var moves := Reverse(Split(scramble, ' '));
    var movesOut: seq<string> := [];
    for i := 0 to |moves|
      invariant |movesOut| == i
      invariant forall k :: 0 <= k < i ==> movesOut[k] == moves[k] + "'"
    {
      movesOut := movesOut + [InvertMoveAsWritten(moves[i])];
    }
    r := Join(movesOut, ' ');
    SplitJoin(movesOut, ' ');
    assert Split(r, ' ') == movesOut;
  }

  /** Two example tokens under `invert` as written: neither a half turn nor a double inversion comes back. */
  lemma InvertAsWrittenNotInvolution()
    ensures InvertMoveAsWritten("F2") == "F2'"
    ensures InvertMoveAsWritten(InvertMoveAsWritten("R")) == "R''"
  {
  }

  /** The move tokens the intended inversion is meant for: a face, then nothing, a prime or a 2. */
  predicate WellFormedMove(m: string)
  {
    |m| >= 1 && m[0] != ' ' && m[0] != '\'' && m[0] != '2' &&
    (|m| == 1 || (|m| == 2 && (m[1] == '\'' || m[1] == '2')))
  }

  /** The intended loop body, classifying by the last character. */
  function InvertMove(m: string): string
  {
    InvertMoveAt(m, |m| - 1)
  }

  /** Reversed order, each token inverted by its last character. */
  function InvertMoves(ms: seq<string>): (r: seq<string>)
    ensures |r| == |ms|
  {
    seq(|ms|, k requires 0 <= k < |ms| => InvertMove(ms[|ms| - 1 - k]))
  }

  /** `invert` as evidently intended: the last character decides. */
  function InvertIntended(scramble: string): string
  {
    Join(InvertMoves(Split(scramble, ' ')), ' ')
  }

  /** The intended inversion maps a well-formed move to a well-formed move, and back. */
  lemma InvertMoveInvolution(m: string)
    requires WellFormedMove(m)
    ensures WellFormedMove(InvertMove(m)) && InvertMove(InvertMove(m)) == m
  {
    if |m| == 2 && m[1] == '\'' {
      assert [m[0]] + "'" == m;
    }
  }

  /** The intended inversion undoes itself on a sequence of well-formed moves. */
  lemma InvertIntendedInvolution(scramble: string)
    requires forall k :: 0 <= k < |Split(scramble, ' ')| ==> WellFormedMove(Split(scramble, ' ')[k])
    ensures InvertIntended(InvertIntended(scramble)) == scramble
  {
    var ms := Split(scramble, ' ');
    var inv := InvertMoves(ms);
    forall k | 0 <= k < |inv|
      ensures WellFormedMove(inv[k]) && InvertMove(inv[k]) == ms[|ms| - 1 - k]
    {
      InvertMoveInvolution(ms[|ms| - 1 - k]);
    }
    SplitJoin(inv, ' ');
    assert InvertMoves(inv) == ms;
  }

  /** Splitting a join of the given moves gives them back; the intended inversion maps them to `out`. */
  lemma InvertIntendedOn(ms: seq<string>, out: seq<string>)
    requires |ms| >= 1 && forall k :: 0 <= k < |ms| ==> ' ' !in ms[k]
    requires |out| == |ms| && forall k :: 0 <= k < |ms| ==> InvertMove(ms[|ms| - 1 - k]) == out[k]
    ensures InvertIntended(Join(ms, ' ')) == Join(out, ' ')
  {
    SplitJoin(ms, ' ');
    assert InvertMoves(ms) == out;
  }

  /** The intended inversion on the examples "R U R'" and "F2". */
  lemma InvertIntendedExamples()
    ensures InvertIntended("R U R'") == "R U' R'"
    ensures InvertIntended("F2") == "F2"
  {
    assert Join(["R", "U", "R'"], ' ') == "R U R'" by {
      assert Join(["R'"], ' ') == "R'";
      assert ["R", "U", "R'"][1..] == ["U", "R'"] && ["U", "R'"][1..] == ["R'"];
    }
    assert Join(["R", "U'", "R'"], ' ') == "R U' R'" by {
      assert Join(["R'"], ' ') == "R'";
      assert ["R", "U'", "R'"][1..] == ["U'", "R'"] && ["U'", "R'"][1..] == ["R'"];
    }
    assert InvertMove("R'") == "R" && InvertMove("U") == "U'" && InvertMove("R") == "R'";
    InvertIntendedOn(["R", "U", "R'"], ["R", "U'", "R'"]);
    assert InvertMove("F2") == "F2";
    InvertIntendedOn(["F2"], ["F2"]);
  }
}
