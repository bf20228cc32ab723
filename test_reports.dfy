/** The CI report summaries of `tests/auto-test-reports/parse_junit_and_coverage.py`: the
    JUnit totals and failed test cases, the coverage missed-line tally and its top list,
    and the name test for report folders. An XML document is given as its element tree. */
module TestReports {
  import opened PyStr

  /** An XML element: its tag, its attributes and its child elements in document order. */
  datatype Element = Element(tag: string, attrs: map<string, string>, children: seq<Element>)

  /** `e.get(k)` */
  function Get(e: Element, k: string): (r: Option<string>)
    ensures r.Some? <==> k in e.attrs
    ensures r.Some? ==> r.value == e.attrs[k]
  {
    if k in e.attrs then Some(e.attrs[k]) else None
  }

  /** The `.//` axis of ElementTree: every element below `e` in document order, `e` itself
      excluded. */
  function Descendants(e: Element): seq<Element>
    decreases e, |e.children| + 1
  {
    DescendantsFrom(e, 0)
  }

  /** The descendants reached through children `i..` of `e`. */
  function DescendantsFrom(e: Element, i: nat): seq<Element>
    requires i <= |e.children|
    decreases e, |e.children| - i
  {
    if i == |e.children| then []
    else [e.children[i]] + Descendants(e.children[i]) + DescendantsFrom(e, i + 1)
  }

  /** The elements of `es` with tag `tag`, in order (`findall` over a list of candidates). */
  function Tagged(es: seq<Element>, tag: string): (r: seq<Element>)
    ensures |r| <= |es|
  {
    if es == [] then []
    else (if es[0].tag == tag then [es[0]] else []) + Tagged(es[1..], tag)
  }

  /** `findall` keeps exactly the elements with the tag. */
  lemma {:induction false} TaggedMembers(es: seq<Element>, tag: string)
    ensures forall x :: x in Tagged(es, tag) <==> x in es && x.tag == tag
    decreases |es|
  {
    if es != [] {
      TaggedMembers(es[1..], tag);
      assert es == [es[0]] + es[1..];
    }
  }

  /** `e.find(tag)`: the first child with that tag. */
  function Find(e: Element, tag: string): (r: Option<Element>)
  {
    var found := Tagged(e.children, tag);
    if found == [] then None else Some(found[0])
  }

  /** `find` gives a child with the tag, and `None` only when no child has it. */
  lemma FindSpec(e: Element, tag: string)
    ensures Find(e, tag).Some? ==> Find(e, tag).value in e.children && Find(e, tag).value.tag == tag
    ensures Find(e, tag).None? <==> forall x :: x in e.children ==> x.tag != tag
  {
    TaggedMembers(e.children, tag);
  }

  // ---------------------------------------------------------------------
  // parse_junit: totals

  /** The counters of the summary: the keys of the `total` dict. */
  datatype Counter = Tests | Failures | Errors | Skipped

  /** The suite attribute a counter is read from. */
  function AttrName(c: Counter): string {
    match c
    case Tests => "tests"
    case Failures => "failures"
    case Errors => "errors"
    case Skipped => "skipped"
  }

  /** The counters in the order the source visits them. */
  const COUNTERS := [Tests, Failures, Errors, Skipped]

  /** What attribute `c` of a suite adds to its total: `if v: total[k] += int(v)`.
      `None` stands for the `ValueError` that `int` raises. */
  function Contribution(suite: Element, c: Counter): Option<int> {
    match Get(suite, AttrName(c))
    case None => Some(0)
    case Some(v) => if v == [] then Some(0) else ParseInt(v)
  }

  /** A counter makes `int()` raise exactly when its attribute is present, not empty and
      not an integer; an absent or empty attribute adds nothing. */
  lemma ContributionSpec(suite: Element, c: Counter)
    ensures Contribution(suite, c).None? <==>
      AttrName(c) in suite.attrs && suite.attrs[AttrName(c)] != [] && ParseInt(suite.attrs[AttrName(c)]).None?
    ensures AttrName(c) !in suite.attrs || suite.attrs[AttrName(c)] == [] ==> Contribution(suite, c) == Some(0)
    ensures AttrName(c) in suite.attrs && ParseInt(suite.attrs[AttrName(c)]).Some? ==>
      Contribution(suite, c) == ParseInt(suite.attrs[AttrName(c)])
  {
  }

  /** The amount counter `c` of a suite adds (zero when it would raise). */
  function Value(suite: Element, c: Counter): int {
    match Contribution(suite, c)
    case Some(n) => n
    case None => 0
  }

  /** The `total` dict: one number per counter. */
  datatype Counts = Counts(tests: int, failures: int, errors: int, skipped: int)

  const NO_COUNTS := Counts(0, 0, 0, 0)

  /** `total[k]` */
  function CountOf(t: Counts, c: Counter): int {
    match c
    case Tests => t.tests
    case Failures => t.failures
    case Errors => t.errors
    case Skipped => t.skipped
  }

  /** `total[k] += n`: that counter goes up by `n`, the others stay. */
  function AddTo(t: Counts, c: Counter, n: int): (r: Counts)
    ensures CountOf(r, c) == CountOf(t, c) + n
    ensures forall d: Counter :: d != c ==> CountOf(r, d) == CountOf(t, d)
  {
    match c
    case Tests => t.(tests := t.tests + n)
    case Failures => t.(failures := t.failures + n)
    case Errors => t.(errors := t.errors + n)
    case Skipped => t.(skipped := t.skipped + n)
  }

  /** Counter-wise addition of two totals. */
  function Plus(a: Counts, b: Counts): Counts {
    Counts(a.tests + b.tests, a.failures + b.failures, a.errors + b.errors, a.skipped + b.skipped)
  }

  /** Each counter of a sum of totals is the sum of that counter. */
  lemma PlusCounts(a: Counts, b: Counts)
    ensures forall c: Counter :: CountOf(Plus(a, b), c) == CountOf(a, c) + CountOf(b, c)
  {
    forall c: Counter ensures CountOf(Plus(a, b), c) == CountOf(a, c) + CountOf(b, c) {
      match c
      case Tests =>
      case Failures =>
      case Errors =>
      case Skipped =>
    }
  }

  /** Adding to one counter commutes with adding totals. */
  lemma PlusAddTo(a: Counts, b: Counts, c: Counter, n: int)
    ensures Plus(a, AddTo(b, c, n)) == AddTo(Plus(a, b), c, n)
  {
  }

  /** The counter loop of one suite over its first `j` counters: what they add, or `None`
      once one of them raises. */
  function SuiteCounts(suite: Element, j: nat): Option<Counts>
    requires j <= |COUNTERS|
  {
    if j == 0 then Some(NO_COUNTS)
    else match SuiteCounts(suite, j - 1)
      case None => None
      case Some(t) =>
        match Contribution(suite, COUNTERS[j - 1])
        case None => None
        case Some(n) => Some(AddTo(t, COUNTERS[j - 1], n))
  }

  /** Once a counter has raised, the rest of the loop does not run. */
  lemma {:induction false} SuiteCountsStaysNone(suite: Element, j: nat, k: nat)
    requires j <= k <= |COUNTERS|
    requires SuiteCounts(suite, j).None?
    ensures SuiteCounts(suite, k).None?
    decreases k
  {
    if j < k {
      SuiteCountsStaysNone(suite, j, k - 1);
    }
  }

  /** The loop over the first `j` counters raises exactly when one of them does; otherwise
      those counters hold their attribute values and the others are still zero. */
  lemma {:induction false} SuiteCountsUpTo(suite: Element, j: nat)
    requires j <= |COUNTERS|
    ensures SuiteCounts(suite, j).Some? <==> forall m :: 0 <= m < j ==> Contribution(suite, COUNTERS[m]).Some?
    ensures SuiteCounts(suite, j).Some? ==> forall m :: 0 <= m < |COUNTERS| ==>
      CountOf(SuiteCounts(suite, j).value, COUNTERS[m]) == if m < j then Value(suite, COUNTERS[m]) else 0
  {
    if j > 0 {
      SuiteCountsUpTo(suite, j - 1);
      assert forall m :: 0 <= m < |COUNTERS| && m != j - 1 ==> COUNTERS[m] != COUNTERS[j - 1];
    }
  }

  /** The position of a counter in the loop. */
  function Position(c: Counter): (m: nat)
    ensures m < |COUNTERS| && COUNTERS[m] == c
  {
    match c
    case Tests => 0
    case Failures => 1
    case Errors => 2
    case Skipped => 3
  }

  /** A suite raises exactly when one of its four counters does; otherwise it adds each
      counter's attribute value. */
  lemma SuiteCountsSpec(suite: Element)
    ensures SuiteCounts(suite, 4).Some? <==> forall c: Counter :: Contribution(suite, c).Some?
    ensures SuiteCounts(suite, 4).Some? ==>
      forall c: Counter :: CountOf(SuiteCounts(suite, 4).value, c) == Value(suite, c)
  {
    SuiteCountsUpTo(suite, 4);
    if SuiteCounts(suite, 4).Some? {
      forall c: Counter
        ensures Contribution(suite, c).Some?
        ensures CountOf(SuiteCounts(suite, 4).value, c) == Value(suite, c)
      {
        var m := Position(c);
        assert Contribution(suite, COUNTERS[m]).Some?;
      }
    } else {
      var m :| 0 <= m < 4 && Contribution(suite, COUNTERS[m]).None?;
      var c := COUNTERS[m];
      assert Contribution(suite, c).None?;
    }
  }

  /** The totals over the first `i` suites, or `None` once a suite raises. */
  function Sum(suites: seq<Element>, i: nat): Option<Counts>
    requires i <= |suites|
  {
    if i == 0 then Some(NO_COUNTS)
    else match Sum(suites, i - 1)
      case None => None
      case Some(t) =>
        match SuiteCounts(suites[i - 1], |COUNTERS|)
        case None => None
        case Some(d) => Some(Plus(t, d))
  }

  /** Once a suite has raised, the summary raises. */
  lemma {:induction false} SumStaysNone(suites: seq<Element>, i: nat, n: nat)
    requires i <= n <= |suites|
    requires Sum(suites, i).None?
    ensures Sum(suites, n).None?
    decreases n
  {
    if i < n {
      SumStaysNone(suites, i, n - 1);
    }
  }

  /** The summary raises exactly when one of the suites does. */
  lemma {:induction false} SumSpec(suites: seq<Element>, i: nat)
    requires i <= |suites|
    ensures Sum(suites, i).Some? <==> forall j :: 0 <= j < i ==> SuiteCounts(suites[j], 4).Some?
  {
    if i > 0 {
      SumSpec(suites, i - 1);
    }
  }

  /** The sum of counter `k` over the first `i` suites. */
  function Total(suites: seq<Element>, k: Counter, i: nat): int
    requires i <= |suites|
  {
    if i == 0 then 0 else Total(suites, k, i - 1) + Value(suites[i - 1], k)
  }

  /** A total only counts suites that carry the attribute: suites without it leave it at 0. */
  lemma {:induction false} TotalWithoutAttribute(suites: seq<Element>, k: Counter, i: nat)
    requires i <= |suites|
    requires forall j :: 0 <= j < i ==> AttrName(k) !in suites[j].attrs
    ensures Total(suites, k, i) == 0
  {
    if i > 0 {
      TotalWithoutAttribute(suites, k, i - 1);
    }
  }

  /** Suites split into two runs add up separately. */
  lemma {:induction false} TotalConcat(a: seq<Element>, b: seq<Element>, k: Counter, i: nat)
    requires i <= |b|
    ensures Total(a + b, k, |a| + i) == Total(a, k, |a|) + Total(b, k, i)
  {
    if i == 0 {
      TotalPrefix(a, b, k, |a|);
    } else {
      TotalConcat(a, b, k, i - 1);
      assert (a + b)[|a| + i - 1] == b[i - 1];
    }
  }

  /** A total over a prefix does not look past it. */
  lemma {:induction false} TotalPrefix(a: seq<Element>, b: seq<Element>, k: Counter, i: nat)
    requires i <= |a|
    ensures Total(a + b, k, i) == Total(a, k, i)
  {
    if i > 0 {
      TotalPrefix(a, b, k, i - 1);
      assert (a + b)[i - 1] == a[i - 1];
    }
  }

  /** Each counter of the totals is the sum of that attribute over the suites. */
  lemma {:induction false} SumIsTotal(suites: seq<Element>, c: Counter, i: nat)
    requires i <= |suites|
    requires Sum(suites, i).Some?
    ensures CountOf(Sum(suites, i).value, c) == Total(suites, c, i)
  {
    if i > 0 {
      SumIsTotal(suites, c, i - 1);
      SuiteCountsSpec(suites[i - 1]);
      PlusCounts(Sum(suites, i - 1).value, SuiteCounts(suites[i - 1], 4).value);
    }
  }

  // ---------------------------------------------------------------------
  // parse_junit: failed test cases

  /** One entry of the failed list: `(classname, name, msg)`. */
  datatype Failure = Failure(classname: Option<string>, name: Option<string>, message: string)

  /** A test case counts as failed when it has a `failure` or an `error` child. */
  predicate Fails(tc: Element) {
    Find(tc, "failure").Some? || Find(tc, "error").Some?
  }

  /** The element the message is read from: the `failure` child when there is one, else
      the `error` child. */
  function FailureNode(tc: Element): (r: Option<Element>)
    ensures r.Some? <==> Fails(tc)
    ensures Find(tc, "failure").Some? ==> r == Find(tc, "failure")
    ensures Find(tc, "failure").None? ==> r == Find(tc, "error")
  {
    match Find(tc, "failure")
    case Some(f) => Some(f)
    case None => Find(tc, "error")
  }

  /** `tc.find("failure") or tc.find("error")` as written: `or` tests the truth of an
      `Element`, which is false for an element without children, so a childless `failure`
      is passed over. */
  function FailureNodeAsWritten(tc: Element): (r: Option<Element>)
    ensures r.Some? && r != FailureNode(tc) ==> Find(tc, "failure").Some? && Find(tc, "failure").value.children == []
  {
    var f := Find(tc, "failure");
    if f.Some? && f.value.children != [] then f else Find(tc, "error")
  }

  /** `(node.get("message") or "").strip()`, or `""` without a node. */
  function Message(node: Option<Element>): (m: string)
    ensures node.None? || "message" !in node.value.attrs ==> m == []
  {
    match node
    case None => []
    case Some(n) => if "message" in n.attrs then Strip(n.attrs["message"]) else []
  }

  function Entry(tc: Element): Failure {
    Failure(Get(tc, "classname"), Get(tc, "name"), Message(FailureNode(tc)))
  }

  function EntryAsWritten(tc: Element): Failure {
    Failure(Get(tc, "classname"), Get(tc, "name"), Message(FailureNodeAsWritten(tc)))
  }

  /** The elements of `s` that `keep` accepts, in their order. */
  function Filter<T>(s: seq<T>, keep: T -> bool): (r: seq<T>)
    ensures |r| <= |s|
  {
    if s == [] then []
    else
      var init := s[..|s| - 1];
      var last := s[|s| - 1];
      assert s == init + [last];
      Filter(init, keep) + (if keep(last) then [last] else [])
  }

  /** An element is kept exactly when it is in `s` and accepted. */
  lemma {:induction false} FilterMembers<T>(s: seq<T>, keep: T -> bool)
    ensures forall x :: x in Filter(s, keep) <==> x in s && keep(x)
    decreases |s|
  {
    if s != [] {
      var init := s[..|s| - 1];
      FilterMembers(init, keep);
      assert s == init + [s[|s| - 1]];
    }
  }

  /** The filter works element by element, so it keeps the order across a concatenation. */
  lemma {:induction false} FilterConcat<T>(a: seq<T>, b: seq<T>, keep: T -> bool)
    ensures Filter(a + b, keep) == Filter(a, keep) + Filter(b, keep)
    decreases |b|
  {
    if b == [] {
      assert a + b == a;
    } else {
      var init := b[..|b| - 1];
      assert a + b == (a + init) + [b[|b| - 1]];
      assert (a + b)[..|a + b| - 1] == a + init;
      FilterConcat(a, init, keep);
    }
  }

  /** When every element is accepted, all of them are kept, in their order. */
  lemma {:induction false} FilterAll<T>(s: seq<T>, keep: T -> bool)
    requires forall j :: 0 <= j < |s| ==> keep(s[j])
    ensures Filter(s, keep) == s
    decreases |s|
  {
    if s != [] {
      var init := s[..|s| - 1];
      FilterAll(init, keep);
      assert s == init + [s[|s| - 1]];
    }
  }

  /** When no element is accepted, nothing is kept. */
  lemma {:induction false} FilterNone<T>(s: seq<T>, keep: T -> bool)
    requires forall j :: 0 <= j < |s| ==> !keep(s[j])
    ensures Filter(s, keep) == []
    decreases |s|
  {
    if s != [] {
      FilterNone(s[..|s| - 1], keep);
    }
  }

  /** Filtering one element longer a prefix of `s`. */
  lemma FilterStep<T>(s: seq<T>, j: nat, keep: T -> bool)
    requires j < |s|
    ensures Filter(s[..j + 1], keep) == Filter(s[..j], keep) + (if keep(s[j]) then [s[j]] else [])
  {
    assert s[..j + 1][..j] == s[..j];
  }

  /** The failed test cases among `cases`, in document order. */
  function FailingCases(cases: seq<Element>): seq<Element> {
    Filter(cases, Fails)
  }

  /** The entries of a list of test cases. */
  function Entries(cases: seq<Element>): (r: seq<Failure>)
    ensures |r| == |cases| && forall j :: 0 <= j < |r| ==> r[j] == Entry(cases[j])
  {
    seq(|cases|, j requires 0 <= j < |cases| => Entry(cases[j]))
  }

  /** The list of failed entries: one per failed test case, in document order. */
  function FailedList(cases: seq<Element>): seq<Failure> {
    Entries(FailingCases(cases))
  }

  /** One more test case adds its entry exactly when it failed. */
  lemma FailedListAppend(cases: seq<Element>, tc: Element)
    ensures FailedList(cases + [tc]) == FailedList(cases) + (if Fails(tc) then [Entry(tc)] else [])
  {
    assert (cases + [tc])[..|cases|] == cases;
  }

  /** The test cases of the first `i` suites, suite by suite (`s.findall("testcase")`). */
  function CasesUpTo(suites: seq<Element>, i: nat): seq<Element>
    requires i <= |suites|
  {
    if i == 0 then [] else CasesUpTo(suites, i - 1) + Tagged(suites[i - 1].children, "testcase")
  }

  /** The suites' test cases are the first ones in the cases of a longer run of suites. */
  lemma {:induction false} CasesPrefix(suites: seq<Element>, i: nat, n: nat)
    requires i <= n <= |suites|
    ensures CasesUpTo(suites, i) <= CasesUpTo(suites, n)
    decreases n
  {
    if i < n {
      CasesPrefix(suites, i, n - 1);
    }
  }

  /** `float(time or 0.0)` does not raise: the `time` attribute is absent, empty or a float. */
  predicate TimeParses(tc: Element) {
    match Get(tc, "time")
    case None => true
    case Some(v) => v == [] || FloatText(v)
  }

  /** Every element of `s` satisfies `ok`. */
  predicate All<T>(s: seq<T>, ok: T -> bool)
    decreases |s|
  {
    s == [] || (All(s[..|s| - 1], ok) && ok(s[|s| - 1]))
  }

  /** `All` holds exactly when each element satisfies `ok`. */
  lemma {:induction false} AllSpec<T>(s: seq<T>, ok: T -> bool)
    ensures All(s, ok) <==> forall k :: 0 <= k < |s| ==> ok(s[k])
    decreases |s|
  {
    if s != [] {
      var init := s[..|s| - 1];
      AllSpec(init, ok);
      assert forall k :: 0 <= k < |init| ==> init[k] == s[k];
    }
  }

  /** One element that fails `ok` makes `All` fail. */
  lemma AllFailsAt<T>(s: seq<T>, ok: T -> bool, t: nat)
    requires t < |s| && !ok(s[t])
    ensures !All(s, ok)
  {
    AllSpec(s, ok);
  }

  /** `All` over two runs holds exactly when it holds over each. */
  lemma {:induction false} AllConcat<T>(a: seq<T>, b: seq<T>, ok: T -> bool)
    ensures All(a + b, ok) <==> All(a, ok) && All(b, ok)
    decreases |b|
  {
    if b == [] {
      assert a + b == a;
    } else {
      var init := b[..|b| - 1];
      assert (a + b)[..|a + b| - 1] == a + init;
      AllConcat(a, init, ok);
    }
  }

  /** No test case among `cases` makes `float()` raise. */
  predicate TimesParse(cases: seq<Element>) {
    All(cases, TimeParses)
  }

  /** Extending a prefix of `s` by one element. */
  lemma PrefixStep<T>(before: seq<T>, s: seq<T>, t: nat)
    requires t < |s|
    ensures before + s[..t + 1] == (before + s[..t]) + [s[t]]
    ensures s[..t + 1][..t] == s[..t]
  {
  }

  // ---------------------------------------------------------------------
  // parse_junit: the suites and the whole summary

  /** `root.findall(".//testsuite")` as written: the root itself is never among them. */
  function SuitesAsWritten(root: Element): (r: seq<Element>)
    ensures forall s :: s in r ==> s.tag == "testsuite"
  {
    TaggedMembers(Descendants(root), "testsuite");
    Tagged(Descendants(root), "testsuite")
  }

  /** The suites the source means to read, "both `<testsuites>` and a single `<testsuite>`":
      the root when it is a suite, then the suites below it (`root.iter("testsuite")`). */
  function Suites(root: Element): (r: seq<Element>)
    ensures forall s :: s in r ==> s.tag == "testsuite"
    ensures root.tag == "testsuite" ==> r == [root] + SuitesAsWritten(root)
    ensures root.tag != "testsuite" ==> r == SuitesAsWritten(root)
  {
    (if root.tag == "testsuite" then [root] else []) + SuitesAsWritten(root)
  }

  /** The summary: the four totals and the failed entries. */
  datatype Report = Report(totals: Counts, failed: seq<Failure>)

  /** A run of suites with its test cases makes `parse_junit` raise: an `int()` of a counter
      or a `float()` of a test case time fails. */
  predicate Raises(suites: seq<Element>) {
    Sum(suites, |suites|).None? || !TimesParse(CasesUpTo(suites, |suites|))
  }

  /** `parse_junit` without the list of durations. `None` when an `int()` or a `float()`
      raises. */
  method ParseJunit(root: Element) returns (r: Option<Report>)
    ensures r.None? <==> Raises(Suites(root))
    ensures r.Some? ==> r.value == Report(Sum(Suites(root), |Suites(root)|).value,
                                          FailedList(CasesUpTo(Suites(root), |Suites(root)|)))
  {
    r := ParseSuites(Suites(root));
  }

  /** The suite loop of `parse_junit`. */
  method ParseSuites(suites: seq<Element>) returns (r: Option<Report>)
    ensures r.None? <==> Raises(suites)
    ensures r.Some? ==> r.value == Report(Sum(suites, |suites|).value, FailedList(CasesUpTo(suites, |suites|)))
  {
    var total := NO_COUNTS;
    var failed: seq<Failure> := [];
    var i := 0;
    while i < |suites|
      invariant 0 <= i <= |suites|
      invariant Sum(suites, i) == Some(total)
      invariant TimesParse(CasesUpTo(suites, i))
      invariant failed == FailedList(CasesUpTo(suites, i))
    {
      var ok;
      ok, total, failed := SuiteStep(total, failed, suites, i);
      if !ok {
        r := None;
        return;
      }
      i := i + 1;
    }
    r := Some(Report(total, failed));
  }

  /** One pass of the suite loop: the counters, then the test cases. */
  method SuiteStep(total: Counts, failed: seq<Failure>, suites: seq<Element>, i: nat)
    returns (ok: bool, total': Counts, failed': seq<Failure>)
    requires i < |suites|
    requires Sum(suites, i) == Some(total)
    requires TimesParse(CasesUpTo(suites, i))
    requires failed == FailedList(CasesUpTo(suites, i))
    ensures !ok ==> Raises(suites)
    ensures ok ==> Sum(suites, i + 1) == Some(total')
    ensures ok ==> TimesParse(CasesUpTo(suites, i + 1))
    ensures ok ==> failed' == FailedList(CasesUpTo(suites, i + 1))
  {
    var s := suites[i];
    var added := AddSuite(total, s);
    if added.None? {
      SumStaysNone(suites, i + 1, |suites|);
      return false, total, failed;
    }
    var cases := AddCases(failed, CasesUpTo(suites, i), Tagged(s.children, "testcase"));
    if cases.None? {
      CasesUpToRaises(suites, i);
      return false, total, failed;
    }
    return true, added.value, cases.value;
  }

  /** A test case time that raises in suite `i` raises for the whole run. */
  lemma CasesUpToRaises(suites: seq<Element>, i: nat)
    requires i < |suites|
    requires !TimesParse(CasesUpTo(suites, i + 1))
    ensures !TimesParse(CasesUpTo(suites, |suites|))
  {
    CasesPrefix(suites, i + 1, |suites|);
    var a := CasesUpTo(suites, i + 1);
    var all := CasesUpTo(suites, |suites|);
    assert all == a + all[|a|..];
    AllConcat(a, all[|a|..], TimeParses);
  }

  /** The counter loop of one suite: `None` when one of its attributes raises, else the
      totals with this suite added. */
  method AddSuite(total: Counts, s: Element) returns (r: Option<Counts>)
    ensures r.None? <==> SuiteCounts(s, |COUNTERS|).None?
    ensures r.Some? ==> r.value == Plus(total, SuiteCounts(s, |COUNTERS|).value)
  {
    var t := total;
    var j := 0;
    while j < |COUNTERS|
      invariant 0 <= j <= |COUNTERS|
      invariant SuiteCounts(s, j).Some?
      invariant t == Plus(total, SuiteCounts(s, j).value)
    {
      var k := COUNTERS[j];
      var c := Contribution(s, k);
      if c.None? {
        SuiteCountsStaysNone(s, j + 1, |COUNTERS|);
        r := None;
        return;
      }
      PlusAddTo(total, SuiteCounts(s, j).value, k, c.value);
      t := AddTo(t, k, c.value);
      j := j + 1;
    }
    r := Some(t);
  }

  /** One more test case of a suite: the times parse when they did and its own does, and
      its entry is added exactly when it failed. */
  lemma CaseStep(before: seq<Element>, tcs: seq<Element>, t: nat)
    requires t < |tcs|
    ensures TimesParse(tcs[..t + 1]) <==> TimesParse(tcs[..t]) && TimeParses(tcs[t])
    ensures FailedList(before + tcs[..t + 1]) ==
      FailedList(before + tcs[..t]) + (if Fails(tcs[t]) then [Entry(tcs[t])] else [])
  {
    PrefixStep(before, tcs, t);
    FailedListAppend(before + tcs[..t], tcs[t]);
  }

  /** A time that does not parse makes the whole list fail to parse. */
  lemma CaseRaises(before: seq<Element>, tcs: seq<Element>, t: nat)
    requires t < |tcs| && !TimeParses(tcs[t])
    ensures !TimesParse(before + tcs)
  {
    AllConcat(before, tcs, TimeParses);
    AllFailsAt(tcs, TimeParses, t);
  }

  /** The test case loop of one suite: `None` when a `float()` of a time raises, else the
      failed list with this suite's failed cases added. */
  method AddCases(failed: seq<Failure>, ghost before: seq<Element>, tcs: seq<Element>)
    returns (r: Option<seq<Failure>>)
    requires TimesParse(before)
    requires failed == FailedList(before)
    ensures r.None? <==> !TimesParse(before + tcs)
    ensures r.Some? ==> r.value == FailedList(before + tcs)
  {
    var acc := failed;
    var t := 0;
    assert before + tcs[..0] == before;
    while t < |tcs|
      invariant 0 <= t <= |tcs|
      invariant TimesParse(tcs[..t])
      invariant acc == FailedList(before + tcs[..t])
    {
      var tc := tcs[t];
      CaseStep(before, tcs, t);
      if !TimeParses(tc) {
        CaseRaises(before, tcs, t);
        return None;
      }
      if Fails(tc) {
        acc := acc + [Entry(tc)];
      }
      t := t + 1;
    }
    assert tcs[..t] == tcs;
    AllConcat(before, tcs, TimeParses);
    r := Some(acc);
  }

  // ---------------------------------------------------------------------
  // Findings in parse_junit

  /** No element among `es` has the tag, so `findall` finds none. */
  lemma {:induction false} TaggedNone(es: seq<Element>, tag: string)
    requires forall x :: x in es ==> x.tag != tag
    ensures Tagged(es, tag) == []
    decreases |es|
  {
    if es != [] {
      assert es[0] in es;
      TaggedNone(es[1..], tag);
    }
  }

  /** As written, a document whose root is the only `<testsuite>` yields no suites, so its
      counters and failed cases are lost: the totals are all zero and the list is empty. */
  lemma SingleSuiteLostAsWritten(root: Element)
    requires root.tag == "testsuite"
    requires forall x :: x in Descendants(root) ==> x.tag != "testsuite"
    ensures SuitesAsWritten(root) == []
    ensures Sum(SuitesAsWritten(root), 0) == Some(NO_COUNTS)
    ensures CasesUpTo(SuitesAsWritten(root), 0) == []
  {
    TaggedNone(Descendants(root), "testsuite");
  }

  /** Corrected, that root is the one suite read, so the summary carries its test cases
      and, by `OneSuiteTotals`, its counters. */
  lemma SingleSuiteRead(root: Element)
    requires root.tag == "testsuite"
    requires forall x :: x in Descendants(root) ==> x.tag != "testsuite"
    ensures Suites(root) == [root]
    ensures CasesUpTo(Suites(root), 1) == Tagged(root.children, "testcase")
  {
    TaggedNone(Descendants(root), "testsuite");
    assert SuitesAsWritten(root) == [];
  }

  /** The totals of a single suite are its own counters. */
  lemma OneSuiteTotals(s: Element)
    ensures Sum([s], 1) == SuiteCounts(s, |COUNTERS|)
  {
  }

  /** As written, a childless `<failure message="m"/>` is passed over by `or`, so the entry
      of its test case carries no message; the corrected entry carries `m` stripped. */
  lemma ChildlessFailureMessage(tc: Element, m: string)
    requires Find(tc, "failure").Some?
    requires Find(tc, "failure").value.children == []
    requires Find(tc, "failure").value.attrs == map["message" := m]
    requires Find(tc, "error").None?
    ensures Fails(tc)
    ensures EntryAsWritten(tc).message == []
    ensures Entry(tc).message == Strip(m)
  {
  }

  // ---------------------------------------------------------------------
  // parse_coverage: the overall rate

  /** `x or y` on attribute values: `x` when it is a non-empty string, else `y`. */
  function Or(x: Option<string>, y: Option<string>): Option<string> {
    if x.Some? && x.value != [] then x else y
  }

  /** `root.get("line-rate") or root.get("line_rate") or ""` */
  function RateText(root: Element): string {
    var v := Or(Or(Get(root, "line-rate"), Get(root, "line_rate")), Some([]));
    v.value
  }

  /** The source prefers `line-rate`, falls back on `line_rate`, and is empty without
      either spelling. */
  lemma RateChoice(root: Element)
    ensures "line-rate" in root.attrs && root.attrs["line-rate"] != [] ==>
      RateText(root) == root.attrs["line-rate"]
    ensures ("line-rate" !in root.attrs || root.attrs["line-rate"] == []) && "line_rate" in root.attrs ==>
      RateText(root) == root.attrs["line_rate"]
    ensures "line-rate" !in root.attrs && "line_rate" !in root.attrs ==> RateText(root) == []
  {
  }

  /** The rate text the percentage `float(line_rate) * 100` is computed from, or `None`: no
      rate, or one `float()` rejects (the exception is caught). */
  function Percent(root: Element): (p: Option<string>)
    ensures p.Some? <==> RateText(root) != [] && FloatText(RateText(root))
    ensures p.Some? ==> p.value == RateText(root)
  {
    var rate := RateText(root);
    if rate != [] && FloatText(rate) then Some(rate) else None
  }

  /** With neither attribute there is no percentage. */
  lemma NoRateNoPercent(root: Element)
    requires "line-rate" !in root.attrs && "line_rate" !in root.attrs
    ensures Percent(root).None?
  {
    RateChoice(root);
  }

  /** A rate written as `a.b` in digits, like `0.85`, gives a percentage computed from it. */
  lemma DecimalRatePercent(root: Element, a: string, b: string)
    requires DigitBody(a) && DigitBody(b)
    requires "line-rate" in root.attrs && root.attrs["line-rate"] == a + "." + b
    ensures Percent(root) == Some(a + "." + b)
  {
    RateChoice(root);
    FractionIsFloatText(a, b);
  }

  // ---------------------------------------------------------------------
  // parse_coverage: the missed-line tally

  /** One entry of the `missed` dict: a file name (`None` when the class has no
      `filename`) and its number of missed lines. */
  datatype FileMisses = FileMisses(file: Option<string>, missed: nat)

  /** The keys of the dict, in insertion order. */
  function Files(t: seq<FileMisses>): (r: seq<Option<string>>)
    ensures |r| == |t| && forall i :: 0 <= i < |t| ==> r[i] == t[i].file
  {
    seq(|t|, i requires 0 <= i < |t| => t[i].file)
  }

  /** `missed[f]` of the `defaultdict`: the count of the first entry for `f`, 0 when absent. */
  function CountIn(t: seq<FileMisses>, f: Option<string>): nat {
    if t == [] then 0 else if t[0].file == f then t[0].missed else CountIn(t[1..], f)
  }

  /** `missed[f] += 1`: the entry for `f` goes up by one, or a new entry `(f, 1)` is
      appended at the end. */
  function Bump(t: seq<FileMisses>, f: Option<string>): (r: seq<FileMisses>)
    ensures |r| == |t| || |r| == |t| + 1
  {
    if t == [] then [FileMisses(f, 1)]
    else if t[0].file == f then [t[0].(missed := t[0].missed + 1)] + t[1..]
    else [t[0]] + Bump(t[1..], f)
  }

  /** Bumping `f` adds one to the count of `f` and leaves every other count alone. */
  lemma {:induction false} BumpCount(t: seq<FileMisses>, f: Option<string>, g: Option<string>)
    ensures CountIn(Bump(t, f), g) == CountIn(t, g) + (if g == f then 1 else 0)
    decreases |t|
  {
    if t != [] && t[0].file != f {
      BumpCount(t[1..], f, g);
      assert Bump(t, f)[1..] == Bump(t[1..], f);
    }
  }

  /** Bumping keeps the keys in their order and appends `f` when it is new. */
  lemma {:induction false} BumpFiles(t: seq<FileMisses>, f: Option<string>)
    ensures Files(Bump(t, f)) == if f in Files(t) then Files(t) else Files(t) + [f]
    decreases |t|
  {
    if t == [] {
    } else if t[0].file == f {
      assert Files(t)[0] == f;
      assert Files(Bump(t, f)) == Files(t);
    } else {
      BumpFiles(t[1..], f);
      assert Files(t) == [t[0].file] + Files(t[1..]);
      assert f in Files(t) <==> f in Files(t[1..]);
      assert Bump(t, f) == [t[0]] + Bump(t[1..], f);
      FilesCons(t[0], Bump(t[1..], f));
    }
  }

  /** The files of an entry list with one more entry in front. */
  lemma FilesCons(x: FileMisses, rest: seq<FileMisses>)
    ensures Files([x] + rest) == [x.file] + Files(rest)
  {
    var l, r := Files([x] + rest), [x.file] + Files(rest);
    assert |l| == |r|;
    forall i | 0 <= i < |l| ensures l[i] == r[i] {
      if i > 0 {
        assert ([x] + rest)[i] == rest[i - 1];
      }
    }
  }

  /** Bumping keeps every count positive. */
  lemma {:induction false} BumpPositive(t: seq<FileMisses>, f: Option<string>)
    requires forall i :: 0 <= i < |t| ==> t[i].missed > 0
    ensures forall i :: 0 <= i < |Bump(t, f)| ==> Bump(t, f)[i].missed > 0
    decreases |t|
  {
    if t != [] && t[0].file != f {
      BumpPositive(t[1..], f);
      assert Bump(t, f) == [t[0]] + Bump(t[1..], f);
    }
  }

  /** The dict after one `missed[f] += 1` per event, in order. */
  function Tally(events: seq<Option<string>>): seq<FileMisses>
    decreases |events|
  {
    if events == [] then []
    else Bump(Tally(events[..|events| - 1]), events[|events| - 1])
  }

  /** One more event bumps the tally of the others. */
  lemma TallyAppend(events: seq<Option<string>>, f: Option<string>)
    ensures Tally(events + [f]) == Bump(Tally(events), f)
  {
    assert (events + [f])[..|events|] == events;
  }

  /** The tally counts each file as often as it occurs among the events, its keys are the
      files that occur, each once, in the order they first occur, and no count is zero:
      a file without missed lines never appears. */
  lemma {:induction false} TallySpec(events: seq<Option<string>>)
    ensures forall g :: CountIn(Tally(events), g) == multiset(events)[g]
    ensures forall g :: g in Files(Tally(events)) <==> g in events
    ensures forall i, j :: 0 <= i < j < |Tally(events)| ==> Tally(events)[i].file != Tally(events)[j].file
    ensures forall i :: 0 <= i < |Tally(events)| ==> Tally(events)[i].missed > 0
    decreases |events|
  {
    if events != [] {
      var init := events[..|events| - 1];
      var f := events[|events| - 1];
      assert events == init + [f];
      TallySpec(init);
      var t := Tally(init);
      forall g ensures CountIn(Bump(t, f), g) == multiset(events)[g] {
        BumpCount(t, f, g);
      }
      BumpFiles(t, f);
      BumpPositive(t, f);
      BumpDistinct(t, f);
    }
  }

  /** Bumping keeps the keys distinct. */
  lemma BumpDistinct(t: seq<FileMisses>, f: Option<string>)
    requires forall i, j :: 0 <= i < j < |t| ==> t[i].file != t[j].file
    ensures forall i, j :: 0 <= i < j < |Bump(t, f)| ==> Bump(t, f)[i].file != Bump(t, f)[j].file
  {
    BumpFiles(t, f);
    var r := Bump(t, f);
    assert forall i :: 0 <= i < |r| ==> r[i].file == Files(r)[i];
    assert forall i :: 0 <= i < |t| ==> t[i].file == Files(t)[i];
  }

  /** `f` repeated `n` times. */
  function Repeat(f: Option<string>, n: nat): (r: seq<Option<string>>)
    ensures |r| == n && forall i :: 0 <= i < n ==> r[i] == f
  {
    seq(n, _ => f)
  }

  /** One more event for `f` bumps the tally. */
  lemma TallyRepeatStep(before: seq<Option<string>>, f: Option<string>, k: nat)
    ensures Tally(before + Repeat(f, k + 1)) == Bump(Tally(before + Repeat(f, k)), f)
  {
    assert before + Repeat(f, k + 1) == (before + Repeat(f, k)) + [f];
    TallyAppend(before + Repeat(f, k), f);
  }

  /** A `<line>` the tally counts: it has `hits` and `number`, and `int(hits)` is 0; an
      `int()` that raises is passed over. */
  predicate MissedLine(line: Element) {
    Get(line, "hits").Some? && Get(line, "number").Some? && ParseInt(Get(line, "hits").value) == Some(0)
  }

  /** The missed lines of one `<class>`: its `.//line` elements the tally counts. */
  function MissedLines(cls: Element): seq<Element> {
    Filter(Tagged(Descendants(cls), "line"), MissedLine)
  }

  /** The events of one class: its `filename` once per missed line. */
  function ClassRun(cls: Element): seq<Option<string>> {
    Repeat(Get(cls, "filename"), |MissedLines(cls)|)
  }

  /** The events of the first `i` classes: each class's `filename` once per missed line. */
  function ClassEvents(classes: seq<Element>, i: nat): seq<Option<string>>
    requires i <= |classes|
  {
    if i == 0 then []
    else ClassEvents(classes, i - 1) + ClassRun(classes[i - 1])
  }

  /** The classes of a coverage report (`root.findall(".//class")`). */
  function Classes(root: Element): seq<Element> {
    Tagged(Descendants(root), "class")
  }

  /** All events of a coverage report. */
  function CoverageEvents(root: Element): seq<Option<string>> {
    ClassEvents(Classes(root), |Classes(root)|)
  }

  // ---------------------------------------------------------------------
  // parse_coverage: the top list

  /** Inserts `x` into `t` after every entry with at least its count. */
  function Insert(t: seq<FileMisses>, x: FileMisses): (r: seq<FileMisses>)
    ensures |r| == |t| + 1
  {
    if t == [] then [x]
    else if t[0].missed >= x.missed then [t[0]] + Insert(t[1..], x)
    else [x] + t
  }

  /** `sorted(items, key=lambda kv: -kv[1])`: by descending count, and stable, because each
      entry is inserted after the earlier entries with the same count. */
  function SortDesc(s: seq<FileMisses>): seq<FileMisses>
    decreases |s|
  {
    if s == [] then [] else Insert(SortDesc(s[..|s| - 1]), s[|s| - 1])
  }

  predicate Descending(t: seq<FileMisses>) {
    forall i, j :: 0 <= i < j < |t| ==> t[i].missed >= t[j].missed
  }

  /** Inserting adds exactly `x`. */
  lemma {:induction false} InsertPerm(t: seq<FileMisses>, x: FileMisses)
    ensures multiset(Insert(t, x)) == multiset(t) + multiset{x}
    decreases |t|
  {
    if t != [] {
      assert t == [t[0]] + t[1..];
      if t[0].missed >= x.missed {
        InsertPerm(t[1..], x);
      }
    }
  }

  /** Inserting under a bound on every count keeps every count under it. */
  lemma {:induction false} InsertBound(t: seq<FileMisses>, x: FileMisses, b: nat)
    requires forall j :: 0 <= j < |t| ==> t[j].missed <= b
    requires x.missed <= b
    ensures forall j :: 0 <= j < |Insert(t, x)| ==> Insert(t, x)[j].missed <= b
    decreases |t|
  {
    if t != [] && t[0].missed >= x.missed {
      InsertBound(t[1..], x, b);
      assert Insert(t, x) == [t[0]] + Insert(t[1..], x);
    }
  }

  /** Inserting keeps the order descending. */
  lemma {:induction false} InsertDescending(t: seq<FileMisses>, x: FileMisses)
    requires Descending(t)
    ensures Descending(Insert(t, x))
    decreases |t|
  {
    if t != [] && t[0].missed >= x.missed {
      var rest := Insert(t[1..], x);
      InsertDescending(t[1..], x);
      InsertBound(t[1..], x, t[0].missed);
      assert Insert(t, x) == [t[0]] + rest;
    }
  }

  /** The sort orders by descending count and is a permutation. */
  lemma {:induction false} SortDescSpec(s: seq<FileMisses>)
    ensures Descending(SortDesc(s))
    ensures multiset(SortDesc(s)) == multiset(s)
    decreases |s|
  {
    if s != [] {
      var init := s[..|s| - 1];
      SortDescSpec(init);
      InsertPerm(SortDesc(init), s[|s| - 1]);
      InsertDescending(SortDesc(init), s[|s| - 1]);
      assert s == init + [s[|s| - 1]];
    }
  }

  /** Whether an entry has count `n`. */
  function HasCount(n: nat): FileMisses -> bool {
    (x: FileMisses) => x.missed == n
  }

  /** Inserting `x` appends it after the entries with its count and leaves the others in
      their order. */
  lemma {:induction false} InsertStable(t: seq<FileMisses>, x: FileMisses, n: nat)
    requires Descending(t)
    ensures Filter(Insert(t, x), HasCount(n)) == Filter(t, HasCount(n)) + Filter([x], HasCount(n))
    decreases |t|
  {
    var h := HasCount(n);
    if t == [] {
      assert Insert(t, x) == [x];
      assert Filter(t, h) == [];
    } else if t[0].missed >= x.missed {
      assert Descending(t[1..]) by {
        forall i, j | 0 <= i < j < |t[1..]| ensures t[1..][i].missed >= t[1..][j].missed {
          assert t[1..][i] == t[i + 1] && t[1..][j] == t[j + 1];
        }
      }
      InsertStable(t[1..], x, n);
      InsertFrontStable(t, x, n);
    } else {
      InsertBeforeStable(t, x, n);
    }
  }

  /** The step of `InsertStable` when `x` goes after the first entry. */
  lemma InsertFrontStable(t: seq<FileMisses>, x: FileMisses, n: nat)
    requires t != [] && t[0].missed >= x.missed
    requires Filter(Insert(t[1..], x), HasCount(n)) == Filter(t[1..], HasCount(n)) + Filter([x], HasCount(n))
    ensures Filter(Insert(t, x), HasCount(n)) == Filter(t, HasCount(n)) + Filter([x], HasCount(n))
  {
    var h := HasCount(n);
    assert Insert(t, x) == [t[0]] + Insert(t[1..], x);
    assert t == [t[0]] + t[1..];
    FilterConcat([t[0]], t[1..], h);
    FilterConcat([t[0]], Insert(t[1..], x), h);
    assert Filter(Insert(t, x), h) == Filter([t[0]], h) + (Filter(t[1..], h) + Filter([x], h));
  }

  /** The step of `InsertStable` when `x` goes in front. */
  lemma InsertBeforeStable(t: seq<FileMisses>, x: FileMisses, n: nat)
    requires Descending(t) && t != [] && t[0].missed < x.missed
    ensures Filter(Insert(t, x), HasCount(n)) == Filter(t, HasCount(n)) + Filter([x], HasCount(n))
  {
    var h := HasCount(n);
    assert Insert(t, x) == [x] + t;
    FilterConcat([x], t, h);
    if x.missed == n {
      forall j | 0 <= j < |t| ensures !h(t[j]) {
        assert t[0].missed >= t[j].missed;
      }
      FilterNone(t, h);
    } else {
      assert Filter([x], h) == [] by { assert [x][..0] == []; }
    }
  }

  /** The sort is stable: the entries with any one count keep their order. */
  lemma {:induction false} SortDescStable(s: seq<FileMisses>, n: nat)
    ensures Filter(SortDesc(s), HasCount(n)) == Filter(s, HasCount(n))
    decreases |s|
  {
    if s != [] {
      var init := s[..|s| - 1];
      var x := s[|s| - 1];
      SortDescStable(init, n);
      SortDescSpec(init);
      InsertStable(SortDesc(init), x, n);
      assert s == init + [x];
      FilterConcat(init, [x], HasCount(n));
    }
  }

  /** `s[:n]` in Python: a negative `n` counts from the end. */
  function TakePy<T>(s: seq<T>, n: int): (r: seq<T>)
    ensures r <= s
    ensures n >= 0 ==> |r| == if n <= |s| then n else |s|
    ensures n < 0 ==> |r| == if |s| + n >= 0 then |s| + n else 0
  {
    if n >= 0 then (if n <= |s| then s[..n] else s)
    else if |s| + n >= 0 then s[..|s| + n] else []
  }

  /** The top list holds files with at least as many missed lines as any file left out. */
  lemma TopIsLargest(t: seq<FileMisses>, n: int)
    ensures forall i, j :: 0 <= i < |TakePy(SortDesc(t), n)| <= j < |SortDesc(t)| ==>
      TakePy(SortDesc(t), n)[i].missed >= SortDesc(t)[j].missed
  {
    SortDescSpec(t);
  }

  /** `parse_coverage`: the percentage's source and the top list of files by missed lines. */
  method ParseCoverage(root: Element, topN: int) returns (percent: Option<string>, top: seq<FileMisses>)
    ensures percent == Percent(root)
    ensures top == TakePy(SortDesc(Tally(CoverageEvents(root))), topN)
  {
    percent := Percent(root);
    var missed := TallyClasses(Classes(root));
    top := TakePy(SortDesc(missed), topN);
  }

  /** The class loop of `parse_coverage`. */
  method TallyClasses(classes: seq<Element>) returns (missed: seq<FileMisses>)
    ensures missed == Tally(ClassEvents(classes, |classes|))
  {
    missed := [];
    ghost var events := [];
    var i := 0;
    while i < |classes|
      invariant 0 <= i <= |classes|
      invariant events == ClassEvents(classes, i)
      invariant missed == Tally(events)
    {
      missed := AddClass(missed, events, classes[i]);
      events := events + ClassRun(classes[i]);
      i := i + 1;
    }
  }

  /** The test on one `<line>`: it has `hits` and `number`, and `int(hits)` is 0. */
  method CheckLine(line: Element) returns (counted: bool)
    ensures counted == MissedLine(line)
  {
    var hits := Get(line, "hits");
    var number := Get(line, "number");
    counted := false;
    if hits.Some? && number.Some? {
      var n := ParseInt(hits.value);
      if n == Some(0) {
        counted := true;
      }
    }
  }

  /** The line loop of one `<class>`. */
  method AddClass(missed: seq<FileMisses>, ghost before: seq<Option<string>>, cls: Element)
    returns (r: seq<FileMisses>)
    requires missed == Tally(before)
    ensures r == Tally(before + ClassRun(cls))
  {
    var fname := Get(cls, "filename");
    var lines := Tagged(Descendants(cls), "line");
    r := missed;
    var j := 0;
    ghost var k := 0;
    assert before + Repeat(fname, 0) == before;
    while j < |lines|
      invariant 0 <= j <= |lines|
      invariant k == |Filter(lines[..j], MissedLine)|
      invariant r == Tally(before + Repeat(fname, k))
    {
      var counted := CheckLine(lines[j]);
      FilterStep(lines, j, MissedLine);
      if counted {
        TallyRepeatStep(before, fname, k);
        r := Bump(r, fname);
        k := k + 1;
      }
      j := j + 1;
    }
    assert lines[..j] == lines;
  }

  // ---------------------------------------------------------------------
  // Report folder names

  /** `_normalize`: the alphanumeric characters of `s.lower()`. */
  function Normalize(s: string): (r: string)
    ensures forall i :: 0 <= i < |r| ==> IsLower(r[i]) || IsDigit(r[i])
  {
    var l := Lower(s);
    AlnumsFrom(l);
    assert forall c :: c in l ==> !IsUpper(c);
    Alnums(l)
  }

  /** The filter keeps only characters of its input. */
  lemma {:induction false} AlnumsFrom(s: string)
    ensures forall c :: c in Alnums(s) ==> c in s
    decreases |s|
  {
    if s != [] {
      AlnumsFrom(s[1..]);
    }
  }

  /** A string of alphanumeric characters is its own filter. */
  lemma {:induction false} AlnumsKeep(s: string)
    requires forall i :: 0 <= i < |s| ==> IsAlnum(s[i])
    ensures Alnums(s) == s
    decreases |s|
  {
    if s != [] {
      AlnumsKeep(s[1..]);
    }
  }

  /** `lower()` leaves a string without uppercase letters as it is. */
  lemma LowerKeep(s: string)
    requires forall i :: 0 <= i < |s| ==> !IsUpper(s[i])
    ensures Lower(s) == s
  {
  }

  /** Normalizing twice is normalizing once. */
  lemma NormalizeIdempotent(s: string)
    ensures Normalize(Normalize(s)) == Normalize(s)
  {
    var n := Normalize(s);
    assert Lower(n) == n;
    AlnumsKeep(n);
  }

  /** Normalizing works piece by piece. */
  lemma NormalizeConcat(a: string, b: string)
    ensures Normalize(a + b) == Normalize(a) + Normalize(b)
  {
    assert Lower(a + b) == Lower(a) + Lower(b);
    AlnumsConcat(Lower(a), Lower(b));
  }

  /** The name test for report folders: `'testreports' in n or ('test' in n and 'report' in n)`
      on the normalized name. */
  predicate IsReportFolder(name: string) {
    var n := Normalize(name);
    Contains(n, "testreports") || (Contains(n, "test") && Contains(n, "report"))
  }

  /** The first alternative adds nothing: a folder is a report folder exactly when its
      normalized name contains both `test` and `report`. */
  lemma ReportFolderIff(name: string)
    ensures IsReportFolder(name) <==> Contains(Normalize(name), "test") && Contains(Normalize(name), "report")
  {
    var n := Normalize(name);
    if Contains(n, "testreports") {
      ContainsAt(n, "testreports");
      var i :| InfixAt(n, "testreports", i);
      assert "testreports" == "test" + "reports" && "reports" == "report" + "s";
      InfixSplit(n, "test", "reports", i);
      InfixSplit(n, "report", "s", i + 4);
      ContainsAt(n, "test");
      ContainsAt(n, "report");
    }
  }

  /** An occurrence of `a + b` holds an occurrence of `a` and, right after it, one of `b`. */
  lemma InfixSplit(s: string, a: string, b: string, i: int)
    requires InfixAt(s, a + b, i)
    ensures InfixAt(s, a, i) && InfixAt(s, b, i + |a|)
  {
    assert s[i..i + |a|] == (a + b)[..|a|];
    assert s[i + |a|..i + |a| + |b|] == (a + b)[|a|..];
  }

  /** `_save_into_workspace`'s folder name `test-reports_<iso>`. */
  function SavedFolderName(iso: string): string {
    "test-reports_" + iso
  }

  /** The folder the script saves into always passes the report-folder test, whatever the
      timestamp. */
  lemma SavedFolderIsReport(iso: string)
    ensures IsReportFolder(SavedFolderName(iso))
  {
    var name := SavedFolderName(iso);
    assert name == "test" + ['-'] + "reports" + ['_'] + iso;
    NormalizeJoined("test", '-', "reports", '_');
    NormalizeConcat("test" + ['-'] + "reports" + ['_'], iso);
    assert "test" + "reports" == "testreports";
    assert StartsWith(Normalize(name), "testreports");
  }

  /** Two words joined and followed by punctuation normalize to the two words. */
  lemma NormalizeJoined(a: string, c: char, b: string, d: char)
    requires forall i :: 0 <= i < |a| ==> IsLower(a[i]) || IsDigit(a[i])
    requires forall i :: 0 <= i < |b| ==> IsLower(b[i]) || IsDigit(b[i])
    requires !IsAlnum(c) && !IsAlnum(d)
    ensures Normalize(a + [c] + b + [d]) == a + b
  {
    NormalizeConcat(a + [c] + b, [d]);
    NormalizeConcat(a + [c], b);
    NormalizeConcat(a, [c]);
    NormalizeWord(a);
    NormalizeWord(b);
    NormalizeSeparator(c);
    NormalizeSeparator(d);
  }

  /** A word of lowercase letters and digits normalizes to itself. */
  lemma NormalizeWord(w: string)
    requires forall i :: 0 <= i < |w| ==> IsLower(w[i]) || IsDigit(w[i])
    ensures Normalize(w) == w
  {
    LowerKeep(w);
    AlnumsKeep(w);
  }

  /** A punctuation character normalizes to nothing. */
  lemma NormalizeSeparator(c: char)
    requires !IsAlnum(c)
    ensures Normalize([c]) == []
  {
    assert Lower([c]) == [c];
    assert [c][1..] == [];
  }
}
