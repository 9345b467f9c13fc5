/**
 * The solution corpus (src/db.tsx): the records read from the comma-separated
 * data file and the `getCases` filter query over them.
 */
module Db {
  import opened Wrappers
  import opened Strings

  /** One documented move sequence for a case, with its difficulty metadata. */
  datatype Solution = Solution(caseId: int, length: int, eoBreaking: bool, trigger: int, solution: string)

  /** A case; `tetrad` and `corners` are null when their column is empty. */
  datatype Case = Case(id: int, rzp: string, arm: string, pairs: int,
                       tetrad: Option<string>, corners: Option<string>,
                       solutions: seq<Solution>)

  /** What `readFromFile` returns: the sparse `cases` array, keyed by id, and every solution in file order. */
  datatype Data = Data(cases: map<int, Case>, solutions: seq<Solution>)

  /** A solution line whose owning case has not been declared: the source dereferences `undefined`. */
  datatype ParseError = UndefinedCase(caseId: int)

  /** `getCases` called before the file has finished loading. */
  datatype QueryError = FileNotLoaded

  // ---------------------------------------------------------------------------
  // Reading the file
  // ---------------------------------------------------------------------------

  predicate IsDigits(s: string)
  {
    forall i :: 0 <= i < |s| ==> '0' <= s[i] <= '9'
  }

  /** A field `parseInt` reads in full: one or more decimal digits. */
  predicate IsDecimal(s: string)
  {
    |s| > 0 && IsDigits(s)
  }

  /** `parseInt` on a field of decimal digits. */
  function ParseDecimal(s: string): nat
    requires IsDigits(s)
  {
    if |s| == 0 then 0
    else ParseDecimal(s[..|s| - 1]) * 10 + (s[|s| - 1] - '0') as int
  }

  /** The columns of one line. */
  function Fields(line: string): (f: seq<string>)
    ensures |f| >= 1
  {
    Split(line, ',')
  }

  predicate IsCaseLine(line: string)
  {
    Fields(line)[0] == "case"
  }

  predicate IsSolutionLine(line: string)
  {
    Fields(line)[0] == "solution"
  }

  /**
   * The lines this model reads: a `case` line has the seven columns the source
   * reads and decimal id and pair count; a `solution` line has six columns and
   * decimal case id, length and trigger. Any other line is ignored by the source.
   */
  predicate WellFormedLine(line: string)
  {
    var f := Fields(line);
    (f[0] == "case" ==> |f| >= 7 && IsDecimal(f[1]) && IsDecimal(f[4])) &&
    (f[0] == "solution" ==> |f| >= 6 && IsDecimal(f[1]) && IsDecimal(f[2]) && IsDecimal(f[4]))
  }

  predicate WellFormed(lines: seq<string>)
  {
    forall i :: 0 <= i < |lines| ==> WellFormedLine(lines[i])
  }

  /** An empty column becomes null. */
  function NullIfEmpty(field: string): (r: Option<string>)
    ensures r.None? <==> field == ""
    ensures r.Some? ==> r.value == field
  {
    if field == "" then None else Some(field)
  }

  /** The record a `case` line declares, with no solutions yet. */
  function CaseOf(line: string): Case
    requires IsCaseLine(line) && WellFormedLine(line)
  {
    var f := Fields(line);
    Case(ParseDecimal(f[1]), f[2], f[3], ParseDecimal(f[4]), NullIfEmpty(f[5]), NullIfEmpty(f[6]), [])
  }

  /** The record a `solution` line declares. */
  function SolutionOf(line: string): Solution
    requires IsSolutionLine(line) && WellFormedLine(line)
  {
    var f := Fields(line);
    Solution(ParseDecimal(f[1]), ParseDecimal(f[2]), f[3] == "1", ParseDecimal(f[4]), f[5])
  }

  /** The effect of one line on what has been read so far. */
  function Step(d: Data, line: string): Result<Data, ParseError>
    requires WellFormedLine(line)
  {
    if IsCaseLine(line) then
      var c := CaseOf(line);
      Ok(d.(cases := d.cases[c.id := c]))
    else if IsSolutionLine(line) then
      var s := SolutionOf(line);
      if s.caseId in d.cases then
        var owner := d.cases[s.caseId];
        Ok(Data(d.cases[s.caseId := owner.(solutions := owner.solutions + [s])], d.solutions + [s]))
      else
        Err(UndefinedCase(s.caseId))
    else
      Ok(d)
  }

  /** What reading the lines in order yields: the specification of ReadFromFile. */
  function Parse(lines: seq<string>): Result<Data, ParseError>
    requires WellFormed(lines)
  {
    if |lines| == 0 then Ok(Data(map[], []))
    else
      match Parse(lines[..|lines| - 1])
      case Err(e) => Err(e)
      case Ok(d) => Step(d, lines[|lines| - 1])
  }

  /** Once reading has failed, later lines do not matter. */
  lemma {:induction false} ParseFailureSticks(lines: seq<string>, i: nat)
    requires WellFormed(lines)
    requires i <= |lines|
    requires Parse(lines[..i]).Err?
    ensures Parse(lines) == Parse(lines[..i])
    decreases |lines| - i
  {
    if i < |lines| {
      assert lines[..i + 1][..i] == lines[..i];
      ParseFailureSticks(lines, i + 1);
    } else {
      assert lines[..i] == lines;
    }
  }

  /**
   * The body of `readFromFile` once the file's text has been split into lines:
   * one pass that assigns a fresh case at its id, or appends a solution to the
   * global list and to its owning case's list.
   */
  method ReadFromFile(text: seq<string>) returns (r: Result<Data, ParseError>)
    requires WellFormed(text)
    ensures r == Parse(text)
  {
    var cases: map<int, Case> := map[];
    var solutions: seq<Solution> := [];
    for i := 0 to |text|
      invariant Parse(text[..i]) == Ok(Data(cases, solutions))
    {
      assert text[..i + 1][..i] == text[..i];
      var lineData := Split(text[i], ',');
      if lineData[0] == "case" {
        var id := ParseDecimal(lineData[1]);
        cases := cases[id := Case(id, lineData[2], lineData[3], ParseDecimal(lineData[4]),
                                  NullIfEmpty(lineData[5]), NullIfEmpty(lineData[6]), [])];
      } else if lineData[0] == "solution" {
        var soln := Solution(ParseDecimal(lineData[1]), ParseDecimal(lineData[2]), lineData[3] == "1",
                             ParseDecimal(lineData[4]), lineData[5]);
        solutions := solutions + [soln];
        if soln.caseId !in cases {
          ParseFailureSticks(text, i + 1);
          return Err(UndefinedCase(soln.caseId));
        }
        cases := cases[soln.caseId := cases[soln.caseId].(solutions := cases[soln.caseId].solutions + [soln])];
      }
    }
    assert text[..|text|] == text;
    r := Ok(Data(cases, solutions));
  }

  // ---------------------------------------------------------------------------
  // What reading the file guarantees
  // ---------------------------------------------------------------------------

  /** A `case` line stores, at its id, a fresh case with no solutions, its columns copied. */
  lemma CaseLineStored(d: Data, line: string)
    requires WellFormedLine(line) && IsCaseLine(line)
    ensures var f := Fields(line);
            var id := ParseDecimal(f[1]);
            Step(d, line).Ok? &&
            var e := Step(d, line).value;
            e.solutions == d.solutions &&
            e.cases.Keys == d.cases.Keys + {id} &&
            (forall x :: x in d.cases && x != id ==> e.cases[x] == d.cases[x]) &&
            e.cases[id].id == id && e.cases[id].rzp == f[2] && e.cases[id].arm == f[3] &&
            e.cases[id].pairs == ParseDecimal(f[4]) &&
            (e.cases[id].tetrad.None? <==> f[5] == "") &&
            (e.cases[id].tetrad.Some? ==> e.cases[id].tetrad.value == f[5]) &&
            (e.cases[id].corners.None? <==> f[6] == "") &&
            (e.cases[id].corners.Some? ==> e.cases[id].corners.value == f[6]) &&
            e.cases[id].solutions == []
  {
  }

  /**
   * A `solution` line appends its record to the global list and to its owning
   * case's list, and fails exactly when that case is not there; the record is
   * EO-breaking exactly when the fourth column is "1".
   */
  lemma SolutionLineStored(d: Data, line: string)
    requires WellFormedLine(line) && IsSolutionLine(line)
    ensures var f := Fields(line);
            var s := SolutionOf(line);
            s.caseId == ParseDecimal(f[1]) && s.length == ParseDecimal(f[2]) &&
            (s.eoBreaking <==> f[3] == "1") && s.trigger == ParseDecimal(f[4]) && s.solution == f[5] &&
            (Step(d, line).Err? <==> s.caseId !in d.cases) &&
            (Step(d, line).Ok? ==>
               var e := Step(d, line).value;
               e.solutions == d.solutions + [s] &&
               e.cases.Keys == d.cases.Keys &&
               e.cases[s.caseId] == d.cases[s.caseId].(solutions := d.cases[s.caseId].solutions + [s]) &&
               (forall x :: x in d.cases && x != s.caseId ==> e.cases[x] == d.cases[x]))
  {
  }

  /** A line whose first column is neither "case" nor "solution" changes nothing. */
  lemma OtherLineIgnored(d: Data, line: string)
    requires WellFormedLine(line) && !IsCaseLine(line) && !IsSolutionLine(line)
    ensures Step(d, line) == Ok(d)
  {
  }

  /** The ids the case lines declare. */
  function DeclaredIds(lines: seq<string>): set<int>
    requires WellFormed(lines)
  {
    if |lines| == 0 then {}
    else
      var last := lines[|lines| - 1];
      DeclaredIds(lines[..|lines| - 1]) + (if IsCaseLine(last) then {CaseOf(last).id} else {})
  }

  /** The records of the solution lines, in file order. */
  function SolutionRecords(lines: seq<string>): seq<Solution>
    requires WellFormed(lines)
  {
    if |lines| == 0 then []
    else
      var last := lines[|lines| - 1];
      SolutionRecords(lines[..|lines| - 1]) + (if IsSolutionLine(last) then [SolutionOf(last)] else [])
  }

  /** Line j is a solution line whose case no earlier line declared. */
  predicate UndeclaredOwner(lines: seq<string>, j: int)
    requires WellFormed(lines)
  {
    0 <= j < |lines| && IsSolutionLine(lines[j]) &&
    SolutionOf(lines[j]).caseId !in DeclaredIds(lines[..j])
  }

  /** Every solution refers to a case that is present. */
  predicate Consistent(d: Data)
  {
    forall k :: 0 <= k < |d.solutions| ==> d.solutions[k].caseId in d.cases
  }

  /** One line's effect on the declared ids and on the global list. */
  lemma StepEffect(d: Data, line: string)
    requires WellFormedLine(line)
    ensures Step(d, line).Err? <==> IsSolutionLine(line) && SolutionOf(line).caseId !in d.cases
    ensures Step(d, line).Ok? ==>
              var e := Step(d, line).value;
              e.cases.Keys == d.cases.Keys + (if IsCaseLine(line) then {CaseOf(line).id} else {}) &&
              e.solutions == d.solutions + (if IsSolutionLine(line) then [SolutionOf(line)] else [])
  {
  }

  /** Line j of a longer list has the same status as in its prefix. */
  lemma UndeclaredOwnerPrefix(lines: seq<string>, j: int)
    requires WellFormed(lines) && 0 <= j < |lines| - 1
    ensures UndeclaredOwner(lines, j) <==> UndeclaredOwner(lines[..|lines| - 1], j)
  {
    assert lines[..j] == lines[..|lines| - 1][..j];
  }

  /**
   * Reading succeeds exactly when every solution line comes after a line
   * declaring its case.
   */
  lemma {:induction false} ParseFailsExactly(lines: seq<string>)
    requires WellFormed(lines)
    ensures Parse(lines).Err? <==> exists j :: UndeclaredOwner(lines, j)
  {
    if |lines| > 0 {
      var n := |lines|;
      var p := lines[..n - 1];
      ParseFailsExactly(p);
      ParseSucceeds(p);
      forall j | 0 <= j < n - 1
        ensures UndeclaredOwner(lines, j) <==> UndeclaredOwner(p, j)
      {
        UndeclaredOwnerPrefix(lines, j);
      }
      if Parse(p).Err? {
        var j :| UndeclaredOwner(p, j);
        assert UndeclaredOwner(lines, j);
      } else {
        StepEffect(Parse(p).value, lines[n - 1]);
        assert lines[..n - 1] == p;
        if Parse(lines).Err? {
          assert UndeclaredOwner(lines, n - 1);
        } else {
          assert !UndeclaredOwner(lines, n - 1);
        }
      }
    }
  }

  /**
   * On success the cases are those declared, the global list holds one record
   * per solution line in file order, and every solution's case is present.
   */
  lemma {:induction false} ParseSucceeds(lines: seq<string>)
    requires WellFormed(lines)
    ensures Parse(lines).Ok? ==>
              Parse(lines).value.cases.Keys == DeclaredIds(lines) &&
              Parse(lines).value.solutions == SolutionRecords(lines) &&
              Consistent(Parse(lines).value)
  {
    if |lines| > 0 && Parse(lines).Ok? {
      var n := |lines|;
      var p := lines[..n - 1];
      ParseSucceeds(p);
      var d := Parse(p).value;
      StepEffect(d, lines[n - 1]);
      var e := Parse(lines).value;
      forall k | 0 <= k < |e.solutions|
        ensures e.solutions[k].caseId in e.cases
      {
        if k < |d.solutions| {
          assert e.solutions[k] == d.solutions[k];
        }
      }
    }
  }

  /**
   * Reading succeeds exactly when every solution line comes after a line
   * declaring its case; then the cases are those declared, the global list holds
   * one record per solution line in file order, and every solution's case is present.
   */
  lemma ParseOutcome(lines: seq<string>)
    requires WellFormed(lines)
    ensures Parse(lines).Err? <==> exists j :: UndeclaredOwner(lines, j)
    ensures Parse(lines).Ok? ==>
              Parse(lines).value.cases.Keys == DeclaredIds(lines) &&
              Parse(lines).value.solutions == SolutionRecords(lines) &&
              Consistent(Parse(lines).value)
  {
    ParseFailsExactly(lines);
    ParseSucceeds(lines);
  }

  /** No two case lines declare the same id. */
  predicate UniqueCaseIds(lines: seq<string>)
    requires WellFormed(lines)
  {
    forall i, j :: 0 <= i < j < |lines| && IsCaseLine(lines[i]) && IsCaseLine(lines[j]) ==>
      CaseOf(lines[i]).id != CaseOf(lines[j]).id
  }

  /** The solutions of one case, in the order of the list. */
  function SolutionsFor(sols: seq<Solution>, id: int): seq<Solution>
  {
    if |sols| == 0 then []
    else SolutionsFor(sols[..|sols| - 1], id) + (if sols[|sols| - 1].caseId == id then [sols[|sols| - 1]] else [])
  }

  lemma {:induction false} SolutionsForNone(sols: seq<Solution>, id: int)
    requires forall k :: 0 <= k < |sols| ==> sols[k].caseId != id
    ensures SolutionsFor(sols, id) == []
  {
    if |sols| > 0 {
      SolutionsForNone(sols[..|sols| - 1], id);
    }
  }

  lemma {:induction false} SolutionsForHolds(sols: seq<Solution>, k: nat)
    requires k < |sols|
    ensures sols[k] in SolutionsFor(sols, sols[k].caseId)
  {
    if k < |sols| - 1 {
      SolutionsForHolds(sols[..|sols| - 1], k);
    }
  }

  /** Every declared id has a case line declaring it. */
  lemma {:induction false} DeclaredIdsWitness(lines: seq<string>, x: int)
    requires WellFormed(lines)
    requires x in DeclaredIds(lines)
    ensures exists i :: 0 <= i < |lines| && IsCaseLine(lines[i]) && CaseOf(lines[i]).id == x
  {
    var n := |lines|;
    var p := lines[..n - 1];
    if x in DeclaredIds(p) {
      DeclaredIdsWitness(p, x);
      var i :| 0 <= i < |p| && IsCaseLine(p[i]) && CaseOf(p[i]).id == x;
      assert lines[i] == p[i];
    } else {
      assert IsCaseLine(lines[n - 1]) && CaseOf(lines[n - 1]).id == x;
    }
  }

  /** Dropping the last line keeps the case ids unique. */
  lemma UniqueCaseIdsPrefix(lines: seq<string>)
    requires WellFormed(lines) && |lines| > 0 && UniqueCaseIds(lines)
    ensures UniqueCaseIds(lines[..|lines| - 1])
  {
    var p := lines[..|lines| - 1];
    forall i, j | 0 <= i < j < |p| && IsCaseLine(p[i]) && IsCaseLine(p[j])
      ensures CaseOf(p[i]).id != CaseOf(p[j]).id
    {
      assert p[i] == lines[i] && p[j] == lines[j];
    }
  }

  /** With unique ids, the last case line declares an id no earlier line declared. */
  lemma FreshCaseId(lines: seq<string>)
    requires WellFormed(lines) && |lines| > 0 && UniqueCaseIds(lines) && IsCaseLine(lines[|lines| - 1])
    ensures CaseOf(lines[|lines| - 1]).id !in DeclaredIds(lines[..|lines| - 1])
  {
    var p := lines[..|lines| - 1];
    if CaseOf(lines[|lines| - 1]).id in DeclaredIds(p) {
      DeclaredIdsWitness(p, CaseOf(lines[|lines| - 1]).id);
      assert false;
    }
  }

  /** With unique ids, each case's list is the sub-list of the global list with its id. */
  lemma {:induction false} ParseGroupsByCase(lines: seq<string>)
    requires WellFormed(lines)
    requires UniqueCaseIds(lines)
    ensures Parse(lines).Ok? ==>
              var d := Parse(lines).value;
              forall x :: x in d.cases ==> d.cases[x].solutions == SolutionsFor(d.solutions, x)
  {
    if |lines| > 0 && Parse(lines).Ok? {
      var n := |lines|;
      var p := lines[..n - 1];
      var last := lines[n - 1];
      UniqueCaseIdsPrefix(lines);
      ParseGroupsByCase(p);
      ParseSucceeds(p);
      var d := Parse(p).value;
      var e := Parse(lines).value;
      if IsCaseLine(last) {
        FreshCaseId(lines);
        SolutionsForNone(d.solutions, CaseOf(last).id);
      } else if IsSolutionLine(last) {
        assert e.solutions[..|e.solutions| - 1] == d.solutions;
      }
    }
  }

  /**
   * When every case is declared once, each case's list holds exactly the
   * solutions of that case, in file order, so every solution in the global list
   * appears in its owning case's list.
   */
  lemma ParseGroupsSolutions(lines: seq<string>)
    requires WellFormed(lines)
    requires UniqueCaseIds(lines)
    ensures Parse(lines).Ok? ==>
              var d := Parse(lines).value;
              (forall x :: x in d.cases ==> d.cases[x].solutions == SolutionsFor(d.solutions, x)) &&
              (forall k :: 0 <= k < |d.solutions| ==>
                 d.solutions[k].caseId in d.cases && d.solutions[k] in d.cases[d.solutions[k].caseId].solutions)
  {
    ParseGroupsByCase(lines);
    ParseSucceeds(lines);
    if Parse(lines).Ok? {
      var e := Parse(lines).value;
      forall k | 0 <= k < |e.solutions|
        ensures e.solutions[k] in e.cases[e.solutions[k].caseId].solutions
      {
        SolutionsForHolds(e.solutions, k);
      }
    }
  }

  // ---------------------------------------------------------------------------
  // The getCases query
  // ---------------------------------------------------------------------------

  /**
   * The filter of `getCases`: a solution is kept unless it is longer than
   * `maxLength` or its trigger lies outside [minTrigger, maxTrigger]. There is
   * no lower bound on the length, and neither `eoBreaking` nor the moves are read.
   */
  predicate Matches(s: Solution, maxLength: int, maxTrigger: int, minTrigger: int)
  {
    !(s.length > maxLength) && !(s.trigger > maxTrigger) && !(s.trigger < minTrigger)
  }

  /** `solutions.filter(...)`: the matching solutions, each a solution of the list. */
  function MatchingSolutions(sols: seq<Solution>, maxLength: int, maxTrigger: int, minTrigger: int): (m: seq<Solution>)
    ensures |m| <= |sols|
    ensures forall k :: 0 <= k < |m| ==> m[k] in sols && Matches(m[k], maxLength, maxTrigger, minTrigger)
  {
    if |sols| == 0 then []
    else
      (if Matches(sols[0], maxLength, maxTrigger, minTrigger) then [sols[0]] else []) +
      MatchingSolutions(sols[1..], maxLength, maxTrigger, minTrigger)
  }

  /** `.map(s => cases[s.caseId])`. */
  function CaseLookup(cases: map<int, Case>, sols: seq<Solution>): (r: seq<Case>)
    requires forall k :: 0 <= k < |sols| ==> sols[k].caseId in cases
    ensures |r| == |sols|
  {
    seq(|sols|, k requires 0 <= k < |sols| => cases[sols[k].caseId])
  }

  /**
   * `getCases(max_length, max_trigger, min_trigger)`: fails before the file is
   * loaded; otherwise one case per matching solution.
   */
  function GetCases(data: Option<Data>, maxLength: int, maxTrigger: int, minTrigger: int): (r: Result<seq<Case>, QueryError>)
    requires data.Some? ==> Consistent(data.value)
    ensures r.Err? <==> data.None?
  {
    match data
    case None => Err(FileNotLoaded)
    case Some(d) => Ok(CaseLookup(d.cases, MatchingSolutions(d.solutions, maxLength, maxTrigger, minTrigger)))
  }

  /** `a` is `b` with some elements left out and the rest kept in order. */
  predicate IsSubsequence<T(==)>(a: seq<T>, b: seq<T>)
    decreases |b|
  {
    |a| == 0 || (|b| > 0 && ((a[0] == b[0] && IsSubsequence(a[1..], b[1..])) || IsSubsequence(a, b[1..])))
  }

  lemma {:induction false} MatchingIsSubsequence(sols: seq<Solution>, maxLength: int, maxTrigger: int, minTrigger: int)
    ensures IsSubsequence(MatchingSolutions(sols, maxLength, maxTrigger, minTrigger), sols)
  {
    if |sols| > 0 {
      MatchingIsSubsequence(sols[1..], maxLength, maxTrigger, minTrigger);
      var m := MatchingSolutions(sols, maxLength, maxTrigger, minTrigger);
      var rest := MatchingSolutions(sols[1..], maxLength, maxTrigger, minTrigger);
      if Matches(sols[0], maxLength, maxTrigger, minTrigger) {
        assert m[0] == sols[0] && m[1..] == rest;
      } else {
        assert m == rest;
      }
    }
  }

  lemma {:induction false} MatchingMultiplicity(sols: seq<Solution>, maxLength: int, maxTrigger: int, minTrigger: int, x: Solution)
    ensures multiset(MatchingSolutions(sols, maxLength, maxTrigger, minTrigger))[x] ==
            if Matches(x, maxLength, maxTrigger, minTrigger) then multiset(sols)[x] else 0
  {
    if |sols| > 0 {
      MatchingMultiplicity(sols[1..], maxLength, maxTrigger, minTrigger, x);
      var head := if Matches(sols[0], maxLength, maxTrigger, minTrigger) then [sols[0]] else [];
      var rest := MatchingSolutions(sols[1..], maxLength, maxTrigger, minTrigger);
      assert MatchingSolutions(sols, maxLength, maxTrigger, minTrigger) == head + rest;
      assert multiset(head + rest) == multiset(head) + multiset(rest);
      assert sols == [sols[0]] + sols[1..];
      assert multiset(sols) == multiset([sols[0]]) + multiset(sols[1..]);
    }
  }

  /**
   * The filter keeps exactly the matching solutions: in list order, and each as
   * many times as it occurs in the list.
   */
  lemma MatchingSolutionsExact(sols: seq<Solution>, maxLength: int, maxTrigger: int, minTrigger: int)
    ensures var m := MatchingSolutions(sols, maxLength, maxTrigger, minTrigger);
            IsSubsequence(m, sols) &&
            forall x :: multiset(m)[x] == if Matches(x, maxLength, maxTrigger, minTrigger) then multiset(sols)[x] else 0
  {
    MatchingIsSubsequence(sols, maxLength, maxTrigger, minTrigger);
    forall x {
      MatchingMultiplicity(sols, maxLength, maxTrigger, minTrigger, x);
    }
  }

  /** A matching solution at position k reappears in the filtered list. */
  lemma {:induction false} MatchIsKept(sols: seq<Solution>, maxLength: int, maxTrigger: int, minTrigger: int, k: nat)
    requires k < |sols| && Matches(sols[k], maxLength, maxTrigger, minTrigger)
    ensures sols[k] in MatchingSolutions(sols, maxLength, maxTrigger, minTrigger)
  {
    if k > 0 {
      MatchIsKept(sols[1..], maxLength, maxTrigger, minTrigger, k - 1);
    }
  }

  /**
   * The query result has exactly one entry per matching solution, in the order
   * of the solutions list: the entry for the k-th match is that solution's case.
   */
  lemma GetCasesOnePerMatch(d: Data, maxLength: int, maxTrigger: int, minTrigger: int)
    requires Consistent(d)
    ensures var m := MatchingSolutions(d.solutions, maxLength, maxTrigger, minTrigger);
            var r := GetCases(Some(d), maxLength, maxTrigger, minTrigger);
            r.Ok? && |r.value| == |m| &&
            forall k :: 0 <= k < |m| ==> r.value[k] == d.cases[m[k].caseId]
  {
  }

  /** Each entry of the result is the case of some matching solution. */
  lemma GetCasesOnlyMatches(d: Data, maxLength: int, maxTrigger: int, minTrigger: int, i: nat)
    requires Consistent(d)
    requires i < |GetCases(Some(d), maxLength, maxTrigger, minTrigger).value|
    ensures exists k :: 0 <= k < |d.solutions| && Matches(d.solutions[k], maxLength, maxTrigger, minTrigger) &&
                        d.cases[d.solutions[k].caseId] == GetCases(Some(d), maxLength, maxTrigger, minTrigger).value[i]
  {
    var m := MatchingSolutions(d.solutions, maxLength, maxTrigger, minTrigger);
    var k :| 0 <= k < |d.solutions| && d.solutions[k] == m[i];
  }

  /** The case of every matching solution is in the result. */
  lemma GetCasesEveryMatch(d: Data, maxLength: int, maxTrigger: int, minTrigger: int, k: nat)
    requires Consistent(d)
    requires k < |d.solutions| && Matches(d.solutions[k], maxLength, maxTrigger, minTrigger)
    ensures d.cases[d.solutions[k].caseId] in GetCases(Some(d), maxLength, maxTrigger, minTrigger).value
  {
    var m := MatchingSolutions(d.solutions, maxLength, maxTrigger, minTrigger);
    MatchIsKept(d.solutions, maxLength, maxTrigger, minTrigger, k);
    var i :| 0 <= i < |m| && m[i] == d.solutions[k];
    assert GetCases(Some(d), maxLength, maxTrigger, minTrigger).value[i] == d.cases[d.solutions[k].caseId];
  }

  /**
   * A case is in the result exactly when some matching solution belongs to it.
   */
  lemma GetCasesMembers(d: Data, maxLength: int, maxTrigger: int, minTrigger: int, c: Case)
    requires Consistent(d)
    ensures var r := GetCases(Some(d), maxLength, maxTrigger, minTrigger);
            r.Ok? &&
            (c in r.value <==>
               exists k :: 0 <= k < |d.solutions| && Matches(d.solutions[k], maxLength, maxTrigger, minTrigger) &&
                           d.cases[d.solutions[k].caseId] == c)
  {
    var r := GetCases(Some(d), maxLength, maxTrigger, minTrigger).value;
    if c in r {
      var i :| 0 <= i < |r| && r[i] == c;
      GetCasesOnlyMatches(d, maxLength, maxTrigger, minTrigger, i);
    }
    forall k | 0 <= k < |d.solutions| && Matches(d.solutions[k], maxLength, maxTrigger, minTrigger)
      ensures d.cases[d.solutions[k].caseId] in r
    {
      GetCasesEveryMatch(d, maxLength, maxTrigger, minTrigger, k);
    }
  }

  /**
   * No deduplication: a case with two matching solutions is returned twice.
   */
  lemma GetCasesKeepsDuplicates()
    ensures var c := Case(1, "x", "y", 2, None, None, []);
            var s1 := Solution(1, 3, false, 1, "R U R'");
            var s2 := Solution(1, 4, true, 2, "R' U' R");
            GetCases(Some(Data(map[1 := c], [s1, s2])), 5, 4, 1) == Ok([c, c])
  {
    var c := Case(1, "x", "y", 2, None, None, []);
    var s1 := Solution(1, 3, false, 1, "R U R'");
    var s2 := Solution(1, 4, true, 2, "R' U' R");
    assert [s1, s2][1..] == [s2];
    assert MatchingSolutions([s1, s2], 5, 4, 1) == [s1, s2];
    assert CaseLookup(map[1 := c], [s1, s2]) == [c, c];
  }

  lemma {:induction false} NoMatchesNoCases(sols: seq<Solution>, maxLength: int, maxTrigger: int, minTrigger: int)
    requires forall k :: 0 <= k < |sols| ==> !Matches(sols[k], maxLength, maxTrigger, minTrigger)
    ensures MatchingSolutions(sols, maxLength, maxTrigger, minTrigger) == []
  {
    if |sols| > 0 {
      NoMatchesNoCases(sols[1..], maxLength, maxTrigger, minTrigger);
    }
  }

  /** An empty trigger range selects nothing. */
  lemma GetCasesEmptyTriggerRange(d: Data, maxLength: int, maxTrigger: int, minTrigger: int)
    requires Consistent(d)
    requires minTrigger > maxTrigger
    ensures GetCases(Some(d), maxLength, maxTrigger, minTrigger) == Ok([])
  {
    NoMatchesNoCases(d.solutions, maxLength, maxTrigger, minTrigger);
  }

  /** The two lists agree on everything the filter and the lookup read. */
  predicate SameQueryKeys(a: seq<Solution>, b: seq<Solution>)
  {
    |a| == |b| &&
    forall k :: 0 <= k < |a| ==>
      a[k].caseId == b[k].caseId && a[k].length == b[k].length && a[k].trigger == b[k].trigger
  }

  lemma {:induction false} MatchingKeysAgree(a: seq<Solution>, b: seq<Solution>, maxLength: int, maxTrigger: int, minTrigger: int)
    requires SameQueryKeys(a, b)
    ensures SameQueryKeys(MatchingSolutions(a, maxLength, maxTrigger, minTrigger),
                          MatchingSolutions(b, maxLength, maxTrigger, minTrigger))
  {
    if |a| > 0 {
      MatchingKeysAgree(a[1..], b[1..], maxLength, maxTrigger, minTrigger);
    }
  }

  /**
   * Only the case id, length and trigger of each solution decide the result: its
   * `eoBreaking` flag and its moves are never consulted.
   */
  lemma GetCasesIgnoresEoAndMoves(d: Data, e: Data, maxLength: int, maxTrigger: int, minTrigger: int)
    requires Consistent(d) && Consistent(e)
    requires d.cases == e.cases
    requires SameQueryKeys(d.solutions, e.solutions)
    ensures GetCases(Some(d), maxLength, maxTrigger, minTrigger) == GetCases(Some(e), maxLength, maxTrigger, minTrigger)
  {
    MatchingKeysAgree(d.solutions, e.solutions, maxLength, maxTrigger, minTrigger);
    var a := MatchingSolutions(d.solutions, maxLength, maxTrigger, minTrigger);
    var b := MatchingSolutions(e.solutions, maxLength, maxTrigger, minTrigger);
    assert CaseLookup(d.cases, a) == CaseLookup(e.cases, b);
  }

  lemma {:induction false} MatchingMonotone(sols: seq<Solution>,
                                            maxLength: int, maxTrigger: int, minTrigger: int,
                                            maxLength': int, maxTrigger': int, minTrigger': int)
    requires maxLength <= maxLength' && maxTrigger <= maxTrigger' && minTrigger' <= minTrigger
    ensures IsSubsequence(MatchingSolutions(sols, maxLength, maxTrigger, minTrigger),
                          MatchingSolutions(sols, maxLength', maxTrigger', minTrigger'))
  {
    if |sols| > 0 {
      MatchingMonotone(sols[1..], maxLength, maxTrigger, minTrigger, maxLength', maxTrigger', minTrigger');
      var m := MatchingSolutions(sols, maxLength, maxTrigger, minTrigger);
      var m' := MatchingSolutions(sols, maxLength', maxTrigger', minTrigger');
      var rest := MatchingSolutions(sols[1..], maxLength, maxTrigger, minTrigger);
      var rest' := MatchingSolutions(sols[1..], maxLength', maxTrigger', minTrigger');
      if Matches(sols[0], maxLength, maxTrigger, minTrigger) {
        assert m[0] == m'[0] && m[1..] == rest && m'[1..] == rest';
      } else if Matches(sols[0], maxLength', maxTrigger', minTrigger') {
        assert m == rest && |m'| > 0 && m'[1..] == rest';
      } else {
        assert m == rest && m' == rest';
      }
    }
  }

  lemma {:induction false} LookupKeepsSubsequence(cases: map<int, Case>, a: seq<Solution>, b: seq<Solution>)
    requires forall k :: 0 <= k < |a| ==> a[k].caseId in cases
    requires forall k :: 0 <= k < |b| ==> b[k].caseId in cases
    requires IsSubsequence(a, b)
    ensures IsSubsequence(CaseLookup(cases, a), CaseLookup(cases, b))
    decreases |b|
  {
    var ra, rb := CaseLookup(cases, a), CaseLookup(cases, b);
    if |a| > 0 {
      assert rb[1..] == CaseLookup(cases, b[1..]);
      if a[0] == b[0] && IsSubsequence(a[1..], b[1..]) {
        LookupKeepsSubsequence(cases, a[1..], b[1..]);
        assert ra[1..] == CaseLookup(cases, a[1..]);
      } else {
        LookupKeepsSubsequence(cases, a, b[1..]);
      }
    }
  }

  /**
   * Widening the filter (a larger maximum length or trigger, a smaller minimum
   * trigger) only adds cases: the narrower result is a subsequence of the wider one.
   */
  lemma GetCasesMonotone(d: Data,
                         maxLength: int, maxTrigger: int, minTrigger: int,
                         maxLength': int, maxTrigger': int, minTrigger': int)
    requires Consistent(d)
    requires maxLength <= maxLength' && maxTrigger <= maxTrigger' && minTrigger' <= minTrigger
    ensures var r := GetCases(Some(d), maxLength, maxTrigger, minTrigger);
            var r' := GetCases(Some(d), maxLength', maxTrigger', minTrigger');
            r.Ok? && r'.Ok? && IsSubsequence(r.value, r'.value)
  {
    MatchingMonotone(d.solutions, maxLength, maxTrigger, minTrigger, maxLength', maxTrigger', minTrigger');
    LookupKeepsSubsequence(d.cases, MatchingSolutions(d.solutions, maxLength, maxTrigger, minTrigger),
                           MatchingSolutions(d.solutions, maxLength', maxTrigger', minTrigger'));
  }
}
