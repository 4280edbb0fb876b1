/** Merging scan results: utils/scanner/scanner.go. */
module ScanMerge {
  import opened Basics
  import opened Text
  import opened Ordering

  datatype Reason =
    | NoReason
    | SourceNotDeclared | EndpointNotDeclared | ArtifactMissing        // nothing of this type to scan
    | SourceUnreachable | EndpointUrlInvalid | EndpointUnreachable
    | ScannerTimeout | ScannerCrashed | ScannerUnavailable | ScannerFailed | ScannerUnparsable | LlmNotConfigured
  {
    predicate IsFailure() {
      !NoReason? && !SourceNotDeclared? && !EndpointNotDeclared? && !ArtifactMissing?
    }
  }

  datatype Severity = Error | Warning | Info
  datatype Finding = Finding(severity: Severity, message: string)

  datatype ScanResult = ScanResult(safe: bool, skipped: bool, partial: bool, skippedReason: string, reason: Reason,
                                   findings: seq<Finding>, version: string, analyzers: seq<string>,
                                   notices: seq<string>)

  /** A nil result is None. */
  type Results = seq<Option<ScanResult>>

  const NO_RUNNERS := ScanResult(false, true, false, "no runners", NoReason, [], "", [], [])

  // ----- what a merge can see of its inputs -----

  datatype Summary = Summary(
    ran: bool,            // some result was not skipped
    clean: bool,          // every one that ran was safe, and there are no findings at all
    reduced: bool,        // some result was skipped or partial
    text: string,         // the reasons given for that, joined
    reason: Reason, findings: seq<Finding>, notices: seq<string>, analyzers: set<string>)

  const ZERO := Summary(false, true, false, "", NoReason, [], [], {})

  /** The first real failure, else the first reason of any kind. */
  function Better(a: Reason, b: Reason): Reason {
    if a.IsFailure() then a else if b.IsFailure() then b else if !a.NoReason? then a else b
  }

  function JoinText(a: string, b: string): string {
    if a == "" then b else if b == "" then a else a + "; " + b
  }

  function Combine(a: Summary, b: Summary): Summary {
    Summary(a.ran || b.ran, a.clean && b.clean, a.reduced || b.reduced, JoinText(a.text, b.text),
            Better(a.reason, b.reason), a.findings + b.findings, a.notices + b.notices, a.analyzers + b.analyzers)
  }

  function Single(o: Option<ScanResult>): Summary {
    match o
    case None => ZERO
    case Some(r) =>
      Summary(!r.skipped, (r.skipped || r.safe) && r.findings == [], r.skipped || r.partial,
              if r.skipped || r.partial then r.skippedReason else "", r.reason, r.findings, r.notices,
              Elems(r.analyzers))
  }

  function Sum(xs: Results): Summary {
    if xs == [] then ZERO else Combine(Sum(xs[..|xs| - 1]), Single(xs[|xs| - 1]))
  }

  /** The elements of a set in byte order. */
  ghost function SortedList(s: set<string>): (r: seq<string>)
    ensures Sorted(r, Less) && Elems(r) == s
  {
    if s == {} then []
    else
      var x :| x in s;
      var rest := SortedList(s - {x});
      LessStrictTotal();
      assert x !in Elems(rest);
      InsertSorted(x, rest, Less);
      InsertElems(x, rest);
      Insert(x, rest, Less)
  }

  lemma InsertElems(x: string, xs: seq<string>)
    ensures Elems(Insert(x, xs, Less)) == Elems(xs) + {x}
  {
    SameMultisetSameElems(Insert(x, xs, Less), xs + [x]);
    assert forall y :: y in xs + [x] <==> y in xs || y == x;
  }

  ghost function Finish(s: Summary): ScanResult {
    var partial := s.ran && s.reduced;
    ScanResult(s.ran && s.clean, !s.ran, partial,
               if !s.ran || partial then s.text else "", if !s.ran || partial then s.reason else NoReason,
               s.findings, "", SortedList(s.analyzers), s.notices)
  }

  ghost function Merge(xs: Results): Option<ScanResult> {
    if xs == [] then Some(NO_RUNNERS) else if |xs| == 1 then xs[0] else Some(Finish(Sum(xs)))
  }

  /** The texts given by skipped and partial results, in order. */
  function Texts(xs: Results): seq<string> {
    if xs == [] then []
    else
      var t := Single(xs[|xs| - 1]).text;
      Texts(xs[..|xs| - 1]) + if t == "" then [] else [t]
  }

  predicate Gives(x: Option<ScanResult>, failure: bool) {
    && x.Some? && !x.value.reason.NoReason?
    && (failure ==> x.value.reason !in {SourceNotDeclared, EndpointNotDeclared, ArtifactMissing})
  }

  predicate FirstToGive(xs: Results, failure: bool, i: int) {
    0 <= i < |xs| && Gives(xs[i], failure) && forall j | 0 <= j < i :: !Gives(xs[j], failure)
  }

  /** The first failure among the results, else the first reason, else none. */
  ghost predicate ReasonIs(xs: Results, r: Reason) {
    if exists i :: FirstToGive(xs, true, i) then exists i :: FirstToGive(xs, true, i) && r == xs[i].value.reason
    else if exists i :: FirstToGive(xs, false, i) then exists i :: FirstToGive(xs, false, i) && r == xs[i].value.reason
    else r.NoReason?
  }

  /** The merge in the words of its documentation, except that the texts and the reason are passed on
      by partial results too. */
  lemma MergeMeaning(xs: Results)
    requires |xs| >= 2
    ensures var m := Merge(xs).value;
      && (m.skipped <==> forall x | x in xs && x.Some? :: x.value.skipped)
      && (m.partial <==> !m.skipped && exists x | x in xs && x.Some? :: x.value.skipped || x.value.partial)
      && (m.safe <==> !m.skipped && forall x | x in xs && x.Some? ::
            (x.value.skipped || x.value.safe) && x.value.findings == [])
      && m.skippedReason == (if m.skipped || m.partial then Join(Texts(xs), "; ") else "")
      && (if m.skipped || m.partial then ReasonIs(xs, m.reason) else m.reason.NoReason?)
      && m.findings == Flat(FindingsOf(xs)) && m.notices == Flat(NoticesOf(xs))
      && m.version == "" && Sorted(m.analyzers, Less)
      && (forall a :: a in m.analyzers <==> exists x | x in xs && x.Some? :: a in x.value.analyzers)
  {
    hide ReasonIs, Texts, FindingsOf, NoticesOf, SortedList;
    SumMeaning(xs);
    SumText(xs);
    SumReason(xs);
    SumLists(xs);
    assert forall a :: a in SortedList(Sum(xs).analyzers) <==> a in Elems(SortedList(Sum(xs).analyzers));
  }

  /** What each result found and noted. */
  function FindingsOf(xs: Results): (r: seq<seq<Finding>>)
    ensures |r| == |xs|
  {
    seq(|xs|, i requires 0 <= i < |xs| => if xs[i].Some? then xs[i].value.findings else [])
  }

  function NoticesOf(xs: Results): (r: seq<seq<string>>)
    ensures |r| == |xs|
  {
    seq(|xs|, i requires 0 <= i < |xs| => if xs[i].Some? then xs[i].value.notices else [])
  }

  lemma {:induction false} SumLists(xs: Results)
    ensures Sum(xs).findings == Flat(FindingsOf(xs)) && Sum(xs).notices == Flat(NoticesOf(xs))
    ensures forall a :: a in Sum(xs).analyzers <==> exists x | x in xs && x.Some? :: a in x.value.analyzers
  {
    hide JoinText, Better;
    if xs != [] {
      var init, last := xs[..|xs| - 1], xs[|xs| - 1];
      SumLists(init);
      var f := if last.Some? then last.value.findings else [];
      var n := if last.Some? then last.value.notices else [];
      assert FindingsOf(xs) == FindingsOf(init) + [f] && NoticesOf(xs) == NoticesOf(init) + [n];
      FlatSnoc(FindingsOf(init), f);
      FlatSnoc(NoticesOf(init), n);
      assert forall x :: x in xs <==> x in init || x == last by { assert xs == init + [last]; }
    }
  }

  lemma {:induction false} SumText(xs: Results)
    ensures Sum(xs).text == Join(Texts(xs), "; ") && forall t | t in Texts(xs) :: t != ""
  {
    hide Single;
    if xs != [] {
      var init := xs[..|xs| - 1];
      SumText(init);
      AppendReason(Texts(init), Single(xs[|xs| - 1]).text);
      assert Texts(init) + [] == Texts(init);
    }
  }

  lemma {:induction false} SumReason(xs: Results)
    ensures ReasonIs(xs, Sum(xs).reason)
    ensures Sum(xs).reason.IsFailure() <==> exists i :: FirstToGive(xs, true, i)
    ensures !Sum(xs).reason.NoReason? <==> exists i :: FirstToGive(xs, false, i)
  {
    if xs != [] {
      var n := |xs| - 1;
      SumReason(xs[..n]);
      FirstInLonger(xs, true);
      FirstInLonger(xs, false);
      var a, b := Sum(xs[..n]).reason, Single(xs[n]).reason;
      if a.IsFailure() {
        var i :| FirstToGive(xs[..n], true, i) && a == xs[..n][i].value.reason;
        assert FirstToGive(xs, true, i);
      } else if b.IsFailure() {
        assert FirstToGive(xs, true, n);
      } else if !a.NoReason? {
        var i :| FirstToGive(xs[..n], false, i) && a == xs[..n][i].value.reason;
        assert FirstToGive(xs, false, i);
      } else if !b.NoReason? {
        assert FirstToGive(xs, false, n);
      }
    }
  }

  /** Who is the first in a list with one more result. */
  lemma FirstInLonger(xs: Results, failure: bool)
    requires xs != []
    ensures var n := |xs| - 1;
      && (forall i | i < n :: FirstToGive(xs[..n], failure, i) <==> FirstToGive(xs, failure, i))
      && (FirstToGive(xs, failure, n) <==> Gives(xs[n], failure) && !exists i :: FirstToGive(xs[..n], failure, i))
  {
    var n := |xs| - 1;
    assert forall j | 0 <= j < n :: xs[..n][j] == xs[j];
    FirstOrNone(xs[..n], failure);
    forall i | i < n ensures FirstToGive(xs[..n], failure, i) <==> FirstToGive(xs, failure, i) {
      assert 0 <= i ==> xs[..n][i] == xs[i];
    }
    assert forall i | FirstToGive(xs[..n], failure, i) :: Gives(xs[i], failure);
  }

  /** If nobody is the first to give one, nobody gives one. */
  lemma {:induction false} FirstOrNone(xs: Results, failure: bool)
    ensures (exists i :: FirstToGive(xs, failure, i)) || forall j | 0 <= j < |xs| :: !Gives(xs[j], failure)
  {
    if xs != [] {
      var n := |xs| - 1;
      FirstOrNone(xs[..n], failure);
      if i :| FirstToGive(xs[..n], failure, i) {
        assert FirstToGive(xs, failure, i);
      } else if Gives(xs[n], failure) {
        assert forall j | 0 <= j < n :: xs[..n][j] == xs[j];
        assert FirstToGive(xs, failure, n);
      }
    }
  }

  lemma {:induction false} SumMeaning(xs: Results)
    ensures Sum(xs).ran <==> exists x | x in xs && x.Some? :: !x.value.skipped
    ensures Sum(xs).reduced <==> exists x | x in xs && x.Some? :: x.value.skipped || x.value.partial
    ensures Sum(xs).clean <==> forall x | x in xs && x.Some? ::
      (x.value.skipped || x.value.safe) && x.value.findings == []
  {
    if xs != [] {
      var init, last := xs[..|xs| - 1], xs[|xs| - 1];
      SumMeaning(init);
      assert forall x :: x in xs <==> x in init || x == last by { assert xs == init + [last]; }
    }
  }

  // ----- the merge as the code runs it -----

  method PickFailureReason(xs: Results) returns (r: Reason)
    ensures r == Sum(xs).reason
  {
    r := NoReason;
    for i := 0 to |xs|
      invariant r == Sum(xs[..i]).reason && !r.IsFailure()
    {
      assert xs[..i + 1][..i] == xs[..i];
      if xs[i].Some? && !xs[i].value.reason.NoReason? {
        if xs[i].value.reason.IsFailure() {
          FirstFailureWins(xs, i + 1);
          return xs[i].value.reason;
        }
        if r.NoReason? { r := xs[i].value.reason; }
      }
    }
    assert xs[..|xs|] == xs;
  }

  lemma {:induction false} FirstFailureWins(xs: Results, i: nat)
    requires i <= |xs| && Sum(xs[..i]).reason.IsFailure()
    ensures Sum(xs).reason == Sum(xs[..i]).reason
  {
    if i == |xs| {
      assert xs[..i] == xs;
    } else {
      assert xs[..|xs| - 1][..i] == xs[..i];
      FirstFailureWins(xs[..|xs| - 1], i);
    }
  }

  method UnionAnalyzers(xs: Results) returns (r: seq<string>)
    ensures r == SortedList(Sum(xs).analyzers)
  {
    hide SortedList, JoinText, Better;
    var seen: set<string> := {};
    for i := 0 to |xs|
      invariant seen == Sum(xs[..i]).analyzers
    {
      assert xs[..i + 1][..i] == xs[..i];
      if xs[i].Some? {
        var names := xs[i].value.analyzers;
        ghost var before := seen;
        for j := 0 to |names|
          invariant seen == before + Elems(names[..j])
        {
          assert names[..j + 1] == names[..j] + [names[j]];
          ElemsSnoc(names[..j], names[j]);
          seen := seen + {names[j]};
        }
        assert names[..|names|] == names;
      }
    }
    assert xs[..|xs|] == xs;
    r := SortNames(seen);
  }

  /** The keys of a map, collected in no particular order, then sorted. */
  method SortNames(all: set<string>) returns (r: seq<string>)
    ensures r == SortedList(all)
  {
    hide Less, Insert, SortedList;
    var seen, names: seq<string> := all, [];
    while seen != {}
      invariant Distinct(names) && Elems(names) + seen == all && Elems(names) !! seen
    {
      var a :| a in seen;
      ElemsSnoc(names, a);
      assert a !in Elems(names);
      names := names + [a];
      seen := seen - {a};
    }
    r := Sort(names, Less);
    LessStrictTotal();
    SortSorts(names, Less);
    SameMultisetSameElems(r, names);
    forall x ensures x in r <==> x in SortedList(all) {
      assert x in Elems(SortedList(all)) <==> x in Elems(names);
    }
    SortedUnique(r, SortedList(all), Less);
  }

  method MergeResults(xs: Results) returns (r: Option<ScanResult>)
    ensures r == Merge(xs)
  {
    if |xs| == 0 { return Some(NO_RUNNERS); }
    if |xs| == 1 { return xs[0]; }
    var safe, skipped, partial := true, true, false;
    var skipReasons: seq<string>, skips := [], 0;
    var findings: seq<Finding>, notices: seq<string> := [], [];
    for i := 0 to |xs|
      invariant var s := Sum(xs[..i]);
        && skipped == !s.ran && (safe && findings == [] <==> s.clean) && (partial || skips > 0 <==> s.reduced)
        && (partial ==> !skipped) && skips >= 0
        && findings == s.findings && notices == s.notices && Join(skipReasons, "; ") == s.text
      invariant forall t | t in skipReasons :: t != ""
    {
      assert xs[..i + 1][..i] == xs[..i];
      if xs[i].Some? {
        var x := xs[i].value;
        if !x.skipped {
          skipped := false;
          if !x.safe { safe := false; }
          if x.partial {
            partial := true;
            AppendReason(skipReasons, x.skippedReason);
            if x.skippedReason != "" { skipReasons := skipReasons + [x.skippedReason]; }
          }
        } else {
          skips := skips + 1;
          AppendReason(skipReasons, x.skippedReason);
          if x.skippedReason != "" { skipReasons := skipReasons + [x.skippedReason]; }
        }
        findings := findings + x.findings;
        notices := notices + x.notices;
      }
    }
    assert xs[..|xs|] == xs;
    var analyzers := UnionAnalyzers(xs);
    if !skipped && skips > 0 { partial := true; }
    if skipped { safe := false; }
    var text, reason := "", NoReason;
    if skipped || partial {
      text := Join(skipReasons, "; ");
      reason := PickFailureReason(xs);
    }
    if |findings| > 0 { safe := false; }
    r := Some(ScanResult(safe, skipped, partial, text, reason, findings, "", analyzers, notices));
  }

  lemma AppendReason(reasons: seq<string>, t: string)
    requires forall x | x in reasons :: x != ""
    ensures JoinText(Join(reasons, "; "), t) ==
      if t == "" then Join(reasons, "; ") else Join(reasons + [t], "; ")
    ensures reasons != [] ==> Join(reasons, "; ") != ""
  {
    if reasons != [] {
      assert reasons[0] in reasons;
      JoinConcat(reasons, [t], "; ");
    } else {
      assert reasons + [t] == [t];
    }
  }

  // ----- RunAll -----

  datatype RunOutcome = Ran(result: ScanResult) | RunFailed(error: string)
  datatype AllOutcome = Merged(result: ScanResult) | AllFailed(error: string)

  function Successes(runs: seq<RunOutcome>): (r: Results)
    ensures r == [] <==> forall x | x in runs :: x.RunFailed?
    ensures forall x | x in r :: x.Some?
  {
    if runs == [] then []
    else
      var last := runs[|runs| - 1];
      var rest := Successes(runs[..|runs| - 1]);
      assert forall x :: x in runs <==> x in runs[..|runs| - 1] || x == last by {
        assert runs == runs[..|runs| - 1] + [last];
      }
      assert last in runs;
      if last.Ran? then rest + [Some(last.result)] else rest
  }

  /** The results of the runs that succeeded, in order. */
  lemma {:induction false} SuccessesConcat(a: seq<RunOutcome>, b: seq<RunOutcome>)
    ensures Successes(a + b) == Successes(a) + Successes(b)
  {
    if b == [] {
      assert a + b == a;
    } else {
      assert (a + b)[..|a + b| - 1] == a + b[..|b| - 1];
      SuccessesConcat(a, b[..|b| - 1]);
    }
  }

  lemma OneRun(x: RunOutcome)
    ensures Successes([x]) == if x.Ran? then [Some(x.result)] else []
  {
    assert [x][..0] == [];
  }

  lemma {:induction false} SuccessesElems(runs: seq<RunOutcome>, x: ScanResult)
    ensures Some(x) in Successes(runs) <==> Ran(x) in runs
  {
    if runs != [] {
      SuccessesElems(runs[..|runs| - 1], x);
      assert runs == runs[..|runs| - 1] + [runs[|runs| - 1]];
    }
  }

  /** Whatever was merged: it has exactly the findings of the runs that succeeded, and is safe only if
      none of them ran unsafe. */
  lemma RunAllMeaning(runs: seq<RunOutcome>)
    requires Successes(runs) != []
    ensures Merge(Successes(runs)).Some?
    ensures var m := Merge(Successes(runs)).value;
      && (forall f :: f in m.findings <==> exists x :: Ran(x) in runs && f in x.findings)
      && (m.safe ==> forall x | Ran(x) in runs :: x.skipped || x.safe)
  {
    hide FindingsOf, ReasonIs, NoticesOf;
    var xs := Successes(runs);
    MergeIsSome(xs);
    forall x ensures Some(x) in xs <==> Ran(x) in runs { SuccessesElems(runs, x); }
    var m := Merge(xs).value;
    if |xs| == 1 {
      assert xs[0] in xs;
    } else {
      MergeMeaning(xs);
      forall f ensures f in m.findings <==> exists x :: Ran(x) in runs && f in x.findings {
        FindingsElems(xs, f);
      }
      forall x | Ran(x) in runs && m.safe ensures x.skipped || x.safe {
        assert Some(x) in xs;
      }
    }
  }

  lemma FindingsElems(xs: Results, f: Finding)
    requires forall x | x in xs :: x.Some?
    ensures f in Flat(FindingsOf(xs)) <==> exists x :: Some(x) in xs && f in x.findings
  {
    FlatElems(FindingsOf(xs), f);
    if l :| l in FindingsOf(xs) && f in l {
      var i :| 0 <= i < |xs| && FindingsOf(xs)[i] == l;
      assert xs[i] in xs && Some(xs[i].value) in xs;
    }
    if x :| Some(x) in xs && f in x.findings {
      var i :| 0 <= i < |xs| && xs[i] == Some(x);
      assert FindingsOf(xs)[i] in FindingsOf(xs);
    }
  }

  lemma MergeNothing()
    ensures Merge([]) == Some(NO_RUNNERS)
  {
  }

  lemma MergeIsSome(xs: Results)
    requires forall x | x in xs :: x.Some?
    ensures Merge(xs).Some?
  {
    assert xs != [] ==> xs[0] in xs;
  }

  /** RunAll: failed runners are left out; only if every one failed is there an error. */
  method RunAll(runs: seq<RunOutcome>) returns (r: AllOutcome)
    ensures r.AllFailed? <==> runs != [] && forall x | x in runs :: x.RunFailed?
    ensures r.Merged? ==> Some(r.result) == Merge(Successes(runs))
    ensures r.AllFailed? ==> r.error == runs[|runs| - 1].error
    ensures runs == [] ==> r == Merged(ScanResult(false, true, false, "no runners", NoReason, [], "", [], []))
    ensures r.Merged? && runs != [] ==>
      && (forall f :: f in r.result.findings <==> exists x :: Ran(x) in runs && f in x.findings)
      && (r.result.safe ==> forall x | Ran(x) in runs :: x.skipped || x.safe)
  {
    hide Merge;
    var results: Results, lastErr: Option<string> := [], None;
    for i := 0 to |runs|
      invariant results == Successes(runs[..i])
      invariant results == [] && i > 0 ==> runs[i - 1].RunFailed? && lastErr == Some(runs[i - 1].error)
      invariant i == 0 ==> lastErr == None
    {
      assert runs[..i + 1][..i] == runs[..i];
      match runs[i]
      case RunFailed(e) => lastErr := Some(e);
      case Ran(x) => results := results + [Some(x)];
    }
    assert runs[..|runs|] == runs;
    if |results| == 0 && lastErr.Some? { return AllFailed(lastErr.value); }
    var m := MergeResults(results);
    MergeIsSome(results);
    if results != [] { RunAllMeaning(runs); } else { MergeNothing(); }
    r := Merged(m.value);
  }

  // ----- nested merges flatten -----

  lemma CombineAssociative(a: Summary, b: Summary, c: Summary)
    ensures Combine(Combine(a, b), c) == Combine(a, Combine(b, c))
  {
    assert a.findings + b.findings + c.findings == a.findings + (b.findings + c.findings);
    assert a.notices + b.notices + c.notices == a.notices + (b.notices + c.notices);
    assert JoinText(JoinText(a.text, b.text), c.text) == JoinText(a.text, JoinText(b.text, c.text));
  }

  lemma CombineZero(a: Summary)
    ensures Combine(ZERO, a) == a == Combine(a, ZERO)
  {
  }

  lemma {:induction false} SumConcat(xs: Results, ys: Results)
    ensures Sum(xs + ys) == Combine(Sum(xs), Sum(ys))
  {
    hide Combine, Single;
    if ys == [] {
      assert xs + ys == xs;
      CombineZero(Sum(xs));
    } else {
      var init, last := ys[..|ys| - 1], ys[|ys| - 1];
      assert (xs + ys)[..|xs + ys| - 1] == xs + init;
      SumConcat(xs, init);
      CombineAssociative(Sum(xs), Sum(init), Single(last));
    }
  }

  predicate AllNil(xs: Results) { forall x | x in xs :: x.None? }

  lemma {:induction false} SumShape(xs: Results)
    ensures var s := Sum(xs);
      && (s.clean ==> s.findings == []) && (!s.ran && s.findings == [] ==> s.clean) && (s.text != "" ==> s.reduced)
      && (!s.ran ==> s.reduced == !AllNil(xs)) && (AllNil(xs) ==> !s.ran && s.reason.NoReason?)
  {
    if xs != [] {
      var init, last := xs[..|xs| - 1], xs[|xs| - 1];
      assert forall x :: x in xs <==> x in init || x == last by { assert xs == init + [last]; }
      SumShape(init);
    }
  }

  /** A merge of several nils counts as a skip, although none of its inputs does. */
  predicate NilsMerged(xs: Results) { |xs| >= 2 && AllNil(xs) }

  /** Some result ran, and none was skipped or partial. */
  predicate Complete(xs: Results) { Sum(xs).ran && !Sum(xs).reduced }

  /** The reason that a merged result carries: a complete merge drops the reasons of its inputs. */
  function Kept(xs: Results): Reason {
    if |xs| >= 2 && Complete(xs) then NoReason else Sum(xs).reason
  }

  /** Seen from outside, a merged result sums up its inputs. */
  lemma MergedSummary(xs: Results)
    requires xs != []
    ensures Single(Merge(xs)) == Sum(xs).(reduced := Sum(xs).reduced || NilsMerged(xs), reason := Kept(xs))
  {
    SumShape(xs);
    if |xs| == 1 {
      SumOfOne(xs[0]);
      assert xs == [xs[0]];
    }
  }

  /** Merging merges is merging everything at once, in every field, except that several nils merged
      first turn an otherwise complete result into a partial one, and that a partial result misses the
      reasons of a part that was complete. */
  lemma MergeFlattens(xs: Results, ys: Results)
    requires xs != [] && ys != []
    ensures Merge([Merge(xs), Merge(ys)]) == Merge(xs + ys) <==>
      && !(NilsMerged(xs) && Complete(ys)) && !(NilsMerged(ys) && Complete(xs))
      && (Complete(xs + ys) || Better(Kept(xs), Kept(ys)) == Better(Sum(xs).reason, Sum(ys).reason))
  {
    hide Single, AllNil, SortedList;
    MergedSummary(xs);
    MergedSummary(ys);
    SumShape(xs);
    SumShape(ys);
    SumConcat(xs, ys);
    SumOfTwo(Merge(xs), Merge(ys));
  }

  /** Results that give a reason only when they are skipped or partial. */
  predicate WellFormed(xs: Results) {
    forall x | x in xs && x.Some? && !x.value.reason.NoReason? :: x.value.skipped || x.value.partial
  }

  /** For these no reason is ever dropped. */
  lemma {:induction false} WellFormedKeeps(xs: Results)
    requires WellFormed(xs)
    ensures !Sum(xs).reason.NoReason? ==> Sum(xs).reduced
    ensures Kept(xs) == Sum(xs).reason
  {
    if xs != [] {
      var init, last := xs[..|xs| - 1], xs[|xs| - 1];
      assert xs == init + [last] && last in xs;
      assert forall x | x in init :: x in xs;
      WellFormedKeeps(init);
    }
  }

  /** A reason on a complete result is lost by nesting. */
  lemma LostReason()
    ensures var ok := ScanResult(true, false, false, "", ScannerFailed, [], "", [], []);
      var skip := NO_RUNNERS;
      Merge([Merge([Some(ok), Some(ok)]), Some(skip)]).value.reason.NoReason?
      && Merge([Some(ok), Some(ok), Some(skip)]).value.reason == ScannerFailed
  {
    var ok := ScanResult(true, false, false, "", ScannerFailed, [], "", [], []);
    var a, skip := Some(ok), Some(NO_RUNNERS);
    SumOfTwo(a, a);
    SumOfTwo(Merge([a, a]), skip);
    SumConcat([a, a], [skip]);
    SumOfOne(skip);
    assert [a, a] + [skip] == [a, a, skip];
  }

  lemma SumOfOne(a: Option<ScanResult>)
    ensures Sum([a]) == Single(a)
  {
    var xs: Results := [a];
    assert xs[..0] == [];
    CombineZero(Single(a));
  }

  lemma SumOfTwo(a: Option<ScanResult>, b: Option<ScanResult>)
    ensures Sum([a, b]) == Combine(Single(a), Single(b))
  {
    var xs: Results := [a, b];
    assert xs[..1] == [a];
    SumOfOne(a);
  }

  /** A partial result passes its text and its reason on. */
  lemma PartialPassesReason()
    ensures var ok := Some(ScanResult(true, false, false, "", NoReason, [], "", [], []));
      var skip := Some(ScanResult(false, true, false, "no source", SourceNotDeclared, [], "", [], []));
      var m := Merge([skip, ok]).value; m.partial && m.skippedReason == "no source" && m.reason == SourceNotDeclared
  {
    var ok := Some(ScanResult(true, false, false, "", NoReason, [], "", [], []));
    var skip := Some(ScanResult(false, true, false, "no source", SourceNotDeclared, [], "", [], []));
    SumOfTwo(skip, ok);
  }

  /** Two nils merged first: the same clean result comes out partial instead of complete. */
  lemma NilsMakePartial()
    ensures var ok := Some(ScanResult(true, false, false, "", NoReason, [], "", [], []));
      Merge([Merge([None, None]), Merge([ok])]).value.partial && !Merge([None, None] + [ok]).value.partial
  {
    var ok := Some(ScanResult(true, false, false, "", NoReason, [], "", [], []));
    var nils: Results := [None, None];
    SumOfTwo(None, None);
    SumOfTwo(Merge(nils), Merge([ok]));
    SumConcat(nils, [ok]);
    SumOfOne(ok);
  }

  // ----- nesting to any depth -----

  /** Nested merge calls; a nil result is Leaf(None). */
  datatype Tree = Leaf(result: Option<ScanResult>) | Node(children: seq<Tree>)

  ghost function Eval(t: Tree): Option<ScanResult>
    decreases t, 1
  {
    match t
    case Leaf(r) => r
    case Node(ts) => Merge(EvalAll(ts))
  }

  ghost function EvalAll(ts: seq<Tree>): (r: Results)
    ensures |r| == |ts|
    decreases ts, 0
  {
    if ts == [] then [] else [Eval(ts[0])] + EvalAll(ts[1..])
  }

  /** The results at the leaves; a merge of nothing is its own "no runners" result. */
  function Leaves(t: Tree): Results
    decreases t, 1
  {
    match t
    case Leaf(r) => [r]
    case Node(ts) => if ts == [] then [Some(NO_RUNNERS)] else LeavesAll(ts)
  }

  function LeavesAll(ts: seq<Tree>): Results
    decreases ts, 0
  {
    if ts == [] then [] else Leaves(ts[0]) + LeavesAll(ts[1..])
  }

  /** Somewhere inside, several nils and nothing else are merged. */
  predicate NilsInside(t: Tree)
    decreases t, 1
  {
    match t
    case Leaf(_) => false
    case Node(ts) => NilsMerged(LeavesAll(ts)) || NilsInAny(ts)
  }

  predicate NilsInAny(ts: seq<Tree>)
    decreases ts, 0
  {
    ts != [] && (NilsInside(ts[0]) || NilsInAny(ts[1..]))
  }

  lemma {:induction false} LeavesCount(t: Tree)
    ensures |Leaves(t)| >= 1
    decreases t, 1
  {
    if t.Node? { LeavesAllCount(t.children); }
  }

  lemma {:induction false} LeavesAllCount(ts: seq<Tree>)
    ensures |LeavesAll(ts)| >= |ts|
    decreases ts, 0
  {
    if ts != [] {
      LeavesCount(ts[0]);
      LeavesAllCount(ts[1..]);
    }
  }

  /** Only a single nil, however deeply wrapped, evaluates to nil. */
  lemma {:induction false} EvalIsNil(t: Tree)
    ensures Eval(t).None? <==> |Leaves(t)| == 1 && AllNil(Leaves(t))
    decreases t, 1
  {
    if t.Node? && t.children != [] {
      var ts := t.children;
      LeavesAllCount(ts);
      if |ts| == 1 {
        EvalIsNil(ts[0]);
        assert Leaves(t) == Leaves(ts[0]) && EvalAll(ts)[0] == Eval(ts[0]);
      }
    }
  }

  lemma {:induction false} EvalsAreNil(ts: seq<Tree>)
    requires !NilsInAny(ts)
    ensures AllNil(EvalAll(ts)) <==> AllNil(LeavesAll(ts))
    ensures AllNil(EvalAll(ts)) ==> |LeavesAll(ts)| == |ts|
    decreases ts, 0
  {
    if ts != [] {
      var t, rest := ts[0], ts[1..];
      EvalsAreNil(rest);
      EvalIsNil(t);
      LeavesCount(t);
      assert AllNil(EvalAll(ts)) <==> Eval(t).None? && AllNil(EvalAll(rest)) by { NilConcat([Eval(t)], EvalAll(rest)); }
      NilConcat(Leaves(t), LeavesAll(rest));
      if AllNil(Leaves(t)) && t.Node? {
        assert !NilsMerged(Leaves(t));
      }
    }
  }

  lemma NilConcat(xs: Results, ys: Results)
    ensures AllNil(xs + ys) <==> AllNil(xs) && AllNil(ys)
    ensures |xs| == 1 ==> (AllNil(xs) <==> xs[0].None?)
  {
  }

  /** The reason that survives the nested merges. */
  function Surviving(t: Tree): Reason
    decreases t, 1
  {
    match t
    case Leaf(r) => Single(r).reason
    case Node(ts) =>
      if |ts| >= 2 && Complete(LeavesAll(ts)) && !NilsInAny(ts) then NoReason
      else if ts == [] then NoReason
      else SurvivingAll(ts)
  }

  function SurvivingAll(ts: seq<Tree>): Reason
    decreases ts, 0
  {
    if ts == [] then NoReason else Better(Surviving(ts[0]), SurvivingAll(ts[1..]))
  }

  /** Seen from outside, a nested merge sums up its leaves, reduced if nils were merged inside, with the
      reason that survives. */
  lemma {:induction false} NestedSummary(t: Tree)
    ensures Single(Eval(t)) ==
      Sum(Leaves(t)).(reduced := Sum(Leaves(t)).reduced || NilsInside(t), reason := Surviving(t))
    decreases t, 1
  {
    hide Combine, Sum, AllNil, Merge, SortedList, Better;
    SumShape(Leaves(t));
    if t.Leaf? || t.children == [] {
      SumOfOne(Leaves(t)[0]);
      assert Leaves(t) == [Leaves(t)[0]];
      assert Merge([]) == Some(NO_RUNNERS) by { MergeOfNone(); }
      NilsOfNone();
    } else {
      var ts := t.children;
      NestedSummaries(ts);
      MergedSummary(EvalAll(ts));
      LeavesAllCount(ts);
      if !NilsInAny(ts) { EvalsAreNil(ts); }
      assert NilsMerged(EvalAll(ts)) ==> NilsMerged(LeavesAll(ts)) || NilsInAny(ts);
      if NilsMerged(LeavesAll(ts)) && !NilsInAny(ts) {
        assert |ts| >= 2 && NilsMerged(EvalAll(ts));
      }
    }
  }

  lemma MergeOfNone()
    ensures Merge([]) == Some(NO_RUNNERS)
  {
  }

  lemma NilsOfNone()
    ensures !NilsMerged([])
  {
  }

  lemma {:induction false} NestedSummaries(ts: seq<Tree>)
    ensures Sum(EvalAll(ts)) ==
      Sum(LeavesAll(ts)).(reduced := Sum(LeavesAll(ts)).reduced || NilsInAny(ts), reason := SurvivingAll(ts))
    decreases ts, 0
  {
    hide Single, Merge, Better;
    if ts != [] {
      var one, rest := [Eval(ts[0])], ts[1..];
      NestedSummary(ts[0]);
      NestedSummaries(rest);
      SumConcat(one, EvalAll(rest));
      SumConcat(Leaves(ts[0]), LeavesAll(rest));
      SumOfOne(one[0]);
    }
  }

  /** However the calls nest, the outcome is one merge of all the leaves, except that several nils
      merged on their own inside turn an otherwise complete result into a partial one, and that a
      partial or skipped result may miss the reason of a part that was complete. */
  lemma {:induction false} NestedMerges(t: Tree)
    ensures Eval(t) == Merge(Leaves(t)) <==>
      && !(NilsInside(t) && Complete(Leaves(t)))
      && (Complete(Leaves(t)) || Surviving(t) == Sum(Leaves(t)).reason)
    decreases t, 1
  {
    hide Combine, Single, AllNil, SortedList, Better;
    SumShape(Leaves(t));
    if t.Leaf? || t.children == [] {
      SumOfOne(Leaves(t)[0]);
      assert Leaves(t) == [Leaves(t)[0]];
      NoReasonHere();
    } else {
      var ts := t.children;
      LeavesAllCount(ts);
      if |ts| == 1 {
        assert LeavesAll(ts[1..]) == [] && !NilsInAny(ts[1..]);
        assert Leaves(t) == Leaves(ts[0]) && EvalAll(ts) == [Eval(ts[0])];
        assert SurvivingAll(ts) == Surviving(ts[0]) by {
          assert SurvivingAll(ts[1..]) == NoReason;
          NothingBetter(Surviving(ts[0]));
        }
        NestedMerges(ts[0]);
      } else {
        NestedSummaries(ts);
      }
    }
  }

  lemma NothingBetter(r: Reason)
    ensures Better(r, NoReason) == r
  {
  }

  lemma NoReasonHere()
    ensures Single(Some(NO_RUNNERS)).reason == NoReason
  {
  }
}
