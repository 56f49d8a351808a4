/**
 * `extract_counts`: the (passed, failed, skipped) triple read from the first
 * mapping of the document that matches one of five known key sets.
 */
module Counts {
  import opened Wrappers
  import opened Json
  import opened PyText
  import opened Traversal

  datatype Counts = Counts(passed: int, failed: int, skipped: int)

  const Zero := Counts(0, 0, 0)

  /** `unwrap(v)`: a mapping holding `_value` stands for that value. */
  function Unwrap(v: Json): Json {
    if v.JObject? && HasKey(v.members, "_value") then Get(v.members, "_value").value else v
  }

  /** `int(v)` on a value of the tree; None stands for the exception it raises. */
  function PyInt(v: Json): Option<int> {
    match v
    case JInt(i) => Some(i)
    case JBool(b) => Some(if b then 1 else 0)
    case JString(s) => ParseInt(s)
    case _ => None
  }

  /** `int(unwrap(v) or 0)`, the coercion every count goes through. */
  function Coerce(v: Json): Option<int> {
    PyInt(Or(Unwrap(v), JInt(0)))
  }

  /** Falsy values (None, False, 0, "", [], {}) count as 0. */
  lemma CoerceFalsy(v: Json)
    requires !Truthy(v)
    ensures Coerce(v) == Some(0)
  {
  }

  /** A number counts as itself, bare or wrapped as {"_value": n}. */
  lemma CoerceNumber(n: int)
    ensures Coerce(JInt(n)) == Some(n)
    ensures Coerce(JObject([Member("_value", JInt(n))])) == Some(n)
  {
    assert Get([Member("_value", JInt(n))], "_value") == Some(JInt(n));
  }

  /** A numeric string counts as the number it spells, as `int(str(n)) == n`. */
  lemma CoerceNumericText(n: int)
    ensures Coerce(JString(IntText(n))) == Some(n)
  {
    var t := IntText(n);
    assert Truthy(JString(t)) && Unwrap(JString(t)) == JString(t);
    assert Or(Unwrap(JString(t)), JInt(0)) == JString(t);
    ParseIntText("", n);
    assert "" + t == t;
    assert ParseInt(t) == Some(n);
  }

  /** Text that starts with a letter, such as "ten", is not a number and does not coerce. */
  lemma CoerceRejectsWord(t: string)
    requires |t| > 0 && !IsBlank(NumberBlanks, t[0]) && !IsBlank(NumberBlanks, t[|t| - 1])
    requires !IsDigit(t[0]) && t[0] != '-' && t[0] != '+'
    ensures Coerce(JString(t)) == None
  {
    ParseRejectsWord(t);
  }

  /** A non-empty list and a doubly wrapped value do not coerce. */
  lemma CoerceRejectsContainers(n: int)
    ensures Coerce(JArray([JInt(n)])) == None
    ensures Coerce(JObject([Member("_value", JObject([Member("_value", JInt(n))]))])) == None
  {
    var inner := JObject([Member("_value", JInt(n))]);
    assert Get([Member("_value", inner)], "_value") == Some(inner);
  }

  /** The five key sets, in the order they are tried on each mapping. */
  datatype Pattern =
    | SummaryTests     // passedTests, failedTests, skippedTests
    | TotalTestCount   // totalTestCount with failedTests or testsFailedCount
    | PassedFailed     // passed, failed, skipped
    | TestsCount       // testsPassedCount, testsFailedCount, testsSkippedCount
    | PlainCount       // passedCount, failedCount, skippedCount

  const Patterns: seq<Pattern> := [SummaryTests, TotalTestCount, PassedFailed, TestsCount, PlainCount]

  /** The key-set test that selects a pattern for a mapping. */
  predicate Applies(p: Pattern, ms: seq<Member>) {
    match p
    case SummaryTests => HasKey(ms, "passedTests") && HasKey(ms, "failedTests")
    case TotalTestCount =>
      HasKey(ms, "totalTestCount") && (HasKey(ms, "failedTests") || HasKey(ms, "testsFailedCount"))
    case PassedFailed => HasKey(ms, "passed") && HasKey(ms, "failed")
    case TestsCount => HasKey(ms, "testsPassedCount") && HasKey(ms, "testsFailedCount")
    case PlainCount => HasKey(ms, "passedCount") && HasKey(ms, "failedCount")
  }

  /** `int(unwrap(node.get(key, 0)) or 0)` */
  function Field(ms: seq<Member>, key: string): Option<int> {
    Coerce(GetOr(ms, key, JInt(0)))
  }

  /** Three fields read directly; one that does not coerce spoils the triple. */
  function ReadTriple(ms: seq<Member>, pk: string, fk: string, sk: string): Option<Counts> {
    var p, f, s := Field(ms, pk), Field(ms, fk), Field(ms, sk);
    if p.Some? && f.Some? && s.Some? then Some(Counts(p.value, f.value, s.value)) else None
  }

  function Max(a: int, b: int): int {
    if a < b then b else a
  }

  /**
   * The totalTestCount pattern: failed from failedTests, else testsFailedCount;
   * skipped from skippedTests, else testsSkippedCount; passed is what remains
   * of the total, but never below zero.
   */
  function ReadTotal(ms: seq<Member>): Option<Counts> {
    var t := Field(ms, "totalTestCount");
    var f := Coerce(GetOr(ms, "failedTests", GetOr(ms, "testsFailedCount", JInt(0))));
    var s := Coerce(GetOr(ms, "skippedTests", GetOr(ms, "testsSkippedCount", JInt(0))));
    if t.Some? && f.Some? && s.Some? then
      Some(Counts(Max(t.value - f.value - s.value, 0), f.value, s.value))
    else None
  }

  /** One pattern on one mapping: None if its keys are absent or a field does not coerce. */
  function TryPattern(p: Pattern, ms: seq<Member>): Option<Counts> {
    if !Applies(p, ms) then None
    else
      match p
      case SummaryTests => ReadTriple(ms, "passedTests", "failedTests", "skippedTests")
      case TotalTestCount => ReadTotal(ms)
      case PassedFailed => ReadTriple(ms, "passed", "failed", "skipped")
      case TestsCount => ReadTriple(ms, "testsPassedCount", "testsFailedCount", "testsSkippedCount")
      case PlainCount => ReadTriple(ms, "passedCount", "failedCount", "skippedCount")
  }

  /** The counts of the first pattern of `ps` that yields any on the mapping `ms`. */
  function FirstPattern(ps: seq<Pattern>, ms: seq<Member>): Option<Counts> {
    if ps == [] then None
    else
      var here := TryPattern(ps[0], ms);
      if here.Some? then here else FirstPattern(ps[1..], ms)
  }

  /**
   * FirstPattern gives nothing exactly when no pattern yields anything, and
   * otherwise what the first pattern that yields something gives.
   */
  lemma {:induction false} FirstPatternIsFirst(ps: seq<Pattern>, ms: seq<Member>)
    ensures FirstPattern(ps, ms).None? <==> forall i | 0 <= i < |ps| :: TryPattern(ps[i], ms).None?
    ensures FirstPattern(ps, ms).Some? ==>
      exists i | 0 <= i < |ps| :: TryPattern(ps[i], ms) == FirstPattern(ps, ms) && forall j | 0 <= j < i :: TryPattern(ps[j], ms).None?
  {
    if ps != [] && TryPattern(ps[0], ms).None? {
      var rest := ps[1..];
      FirstPatternIsFirst(rest, ms);
      assert forall i | 1 <= i < |ps| :: rest[i - 1] == ps[i];
      if FirstPattern(rest, ms).Some? {
        var i :| 0 <= i < |rest| && TryPattern(rest[i], ms) == FirstPattern(rest, ms) && forall j | 0 <= j < i :: TryPattern(rest[j], ms).None?;
        assert TryPattern(ps[i + 1], ms) == FirstPattern(ps, ms);
        assert forall j | 1 <= j < i + 1 :: TryPattern(ps[j], ms) == TryPattern(rest[j - 1], ms);
      }
    }
  }

  /**
   * The counts one mapping yields: the first pattern, in the fixed order, whose
   * keys are present and whose fields all coerce. Non-mappings yield nothing.
   */
  function MatchNode(node: Json): Option<Counts> {
    if node.JObject? then FirstPattern(Patterns, node.members) else None
  }

  /** The counts of the first node of `nodes` that yields any. */
  function FirstMatch(nodes: seq<Json>): (r: Option<Counts>)
    ensures r.None? <==> forall i | 0 <= i < |nodes| :: MatchNode(nodes[i]).None?
    ensures r.Some? ==>
      exists i | 0 <= i < |nodes| :: MatchNode(nodes[i]) == r && forall j | 0 <= j < i :: MatchNode(nodes[j]).None?
  {
    if nodes == [] then None
    else
      var here := MatchNode(nodes[0]);
      if here.Some? then here
      else
        var r := FirstMatch(nodes[1..]);
        assert forall i | 1 <= i < |nodes| :: nodes[1..][i - 1] == nodes[i];
        r
  }

  /**
   * `extract_counts(data)`: the counts of the first mapping in pre-order that
   * yields any; (0, 0, 0) when none does. It never fails.
   */
  function ExtractCounts(data: Json): (r: Counts)
    ensures FirstMatch(DeepIter(data)).Some? ==> FirstMatch(DeepIter(data)) == Some(r)
    ensures var nodes := DeepIter(data);
      || (exists i | 0 <= i < |nodes| :: MatchNode(nodes[i]) == Some(r) && forall j | 0 <= j < i :: MatchNode(nodes[j]).None?)
      || (r == Zero && forall i | 0 <= i < |nodes| :: MatchNode(nodes[i]).None?)
  {
    var found := FirstMatch(DeepIter(data));
    if found.Some? then found.value else Zero
  }

  /** A mapping that yields counts decides the result before anything nested in it. */
  lemma RootMappingWins(data: Json)
    requires data.JObject? && MatchNode(data).Some?
    ensures ExtractCounts(data) == MatchNode(data).value
  {
    assert DeepIter(data)[0] == data;
  }

  /** A missing or falsy field counts as 0. */
  lemma FieldDefault(ms: seq<Member>, key: string)
    requires !HasKey(ms, key) || !Truthy(Get(ms, key).value)
    ensures Field(ms, key) == Some(0)
  {
    CoerceFalsy(GetOr(ms, key, JInt(0)));
  }

  /** The first pattern decides the mapping when it yields counts. */
  lemma FirstPatternWins(ms: seq<Member>)
    requires TryPattern(SummaryTests, ms).Some?
    ensures MatchNode(JObject(ms)) == TryPattern(SummaryTests, ms)
  {
    assert Patterns[0] == SummaryTests;
  }

  /**
   * A mapping with passedTests and failedTests gives their values after
   * unwrapping, with skippedTests's value (0 when it is missing) as the
   * skipped count.
   */
  lemma SummaryTestsCounts(ms: seq<Member>, p: int, f: int, s: int)
    requires HasKey(ms, "passedTests") && HasKey(ms, "failedTests")
    requires Field(ms, "passedTests") == Some(p) && Field(ms, "failedTests") == Some(f)
    requires Field(ms, "skippedTests") == Some(s)
    ensures MatchNode(JObject(ms)) == Some(Counts(p, f, s))
  {
    assert TryPattern(SummaryTests, ms) == Some(Counts(p, f, s)) by {
      assert Applies(SummaryTests, ms);
      assert ReadTriple(ms, "passedTests", "failedTests", "skippedTests") == Some(Counts(p, f, s));
    }
    FirstPatternWins(ms);
  }

  /** In particular a missing or falsy skippedTests counts 0. */
  lemma SummaryTestsPattern(ms: seq<Member>, p: int, f: int)
    requires HasKey(ms, "passedTests") && HasKey(ms, "failedTests")
    requires Field(ms, "passedTests") == Some(p) && Field(ms, "failedTests") == Some(f)
    requires !HasKey(ms, "skippedTests") || !Truthy(Get(ms, "skippedTests").value)
    ensures MatchNode(JObject(ms)) == Some(Counts(p, f, 0))
  {
    FieldDefault(ms, "skippedTests");
    SummaryTestsCounts(ms, p, f, 0);
  }

  /**
   * The totalTestCount pattern, reached when the passedTests pattern yields
   * nothing: failedTests wins over testsFailedCount, skippedTests over
   * testsSkippedCount, and passed = max(total - failed - skipped, 0) >= 0.
   */
  lemma TotalTestCountPattern(ms: seq<Member>, t: int, f: int, s: int)
    requires TryPattern(SummaryTests, ms).None?
    requires HasKey(ms, "totalTestCount") && (HasKey(ms, "failedTests") || HasKey(ms, "testsFailedCount"))
    requires Field(ms, "totalTestCount") == Some(t)
    requires Field(ms, if HasKey(ms, "failedTests") then "failedTests" else "testsFailedCount") == Some(f)
    requires Field(ms, if HasKey(ms, "skippedTests") then "skippedTests" else "testsSkippedCount") == Some(s)
    ensures MatchNode(JObject(ms)) == Some(Counts(Max(t - f - s, 0), f, s))
    ensures MatchNode(JObject(ms)).value.passed >= 0
  {
    assert TryPattern(TotalTestCount, ms) == Some(Counts(Max(t - f - s, 0), f, s)) by {
      assert Applies(TotalTestCount, ms);
      assert ReadTotal(ms) == Some(Counts(Max(t - f - s, 0), f, s));
    }
    assert Patterns[0] == SummaryTests && Patterns[1..][0] == TotalTestCount;
    assert FirstPattern(Patterns, ms) == FirstPattern(Patterns[1..], ms);
  }

  /** {"passedTests": "many", "failedTests": 1, "totalTestCount": 5} */
  const FallThroughDoc: seq<Member> :=
    [Member("passedTests", JString("many")), Member("failedTests", JInt(1)), Member("totalTestCount", JInt(5))]

  lemma FallThroughSummaryFails()
    ensures TryPattern(SummaryTests, FallThroughDoc).None?
  {
    var ms := FallThroughDoc;
    assert Get(ms, "passedTests") == Some(JString("many"));
    var t := "many";
    assert !IsBlank(NumberBlanks, t[0]) && !IsBlank(NumberBlanks, t[3]) && !IsDigit(t[0]);
    CoerceRejectsWord(t);
  }

  lemma FallThroughFields()
    ensures HasKey(FallThroughDoc, "totalTestCount") && HasKey(FallThroughDoc, "failedTests")
    ensures Field(FallThroughDoc, "totalTestCount") == Some(5)
    ensures Field(FallThroughDoc, "failedTests") == Some(1)
  {
    var ms := FallThroughDoc;
    assert ms[2].key == "totalTestCount" && ms[1].key == "failedTests";
    assert Get(ms, "totalTestCount") == Some(JInt(5));
    assert Get(ms, "failedTests") == Some(JInt(1));
  }

  lemma FallThroughNoSkipped()
    ensures !HasKey(FallThroughDoc, "skippedTests") && Field(FallThroughDoc, "testsSkippedCount") == Some(0)
  {
    var ms := FallThroughDoc;
    assert |ms[0].key| == 11 && |ms[1].key| == 11 && |ms[2].key| == 14;
    FieldDefault(ms, "testsSkippedCount");
  }

  /** A pattern whose field does not coerce is skipped, and the later patterns are still tried. */
  lemma FailedCoercionFallsThrough()
    ensures ExtractCounts(JObject(FallThroughDoc)) == Counts(4, 1, 0)
  {
    FallThroughSummaryFails();
    FallThroughFields();
    FallThroughNoSkipped();
    TotalTestCountPattern(FallThroughDoc, 5, 1, 0);
    RootMappingWins(JObject(FallThroughDoc));
  }

  /** [{"passed": []}, {"passed": 3, "failed": 0}] */
  const LaterDoc: seq<Json> :=
    [JObject([Member("passed", JArray([]))]), JObject([Member("passed", JInt(3)), Member("failed", JInt(0))])]

  lemma LaterDocWalk()
    ensures DeepIter(JArray(LaterDoc)) == LaterDoc
  {
    var a, b := LaterDoc[0], LaterDoc[1];
    assert DeepIter(a) == [a] by {
      assert DeepIterMembers(a.members[1..]) == [];
    }
    assert DeepIter(b) == [b] by {
      assert b.members[1..][1..] == [];
    }
    assert DeepIterItems([b]) == [b];
    assert LaterDoc[1..] == [b];
  }

  lemma LaterDocFirstYieldsNothing()
    ensures MatchNode(LaterDoc[0]).None?
  {
    assert forall i | 0 <= i < |Patterns| :: !Applies(Patterns[i], LaterDoc[0].members);
  }

  lemma LaterDocSecondYields()
    ensures MatchNode(LaterDoc[1]) == Some(Counts(3, 0, 0))
  {
    var ms := LaterDoc[1].members;
    assert !HasKey(ms, "passedTests") && !HasKey(ms, "totalTestCount");
    assert HasKey(ms, "passed") && HasKey(ms, "failed") by {
      assert ms[0].key == "passed" && ms[1].key == "failed";
    }
    assert Field(ms, "passed") == Some(3) by {
      assert Get(ms, "passed") == Some(JInt(3));
    }
    assert Field(ms, "failed") == Some(0) by {
      assert Get(ms, "failed") == Some(JInt(0));
    }
    FieldDefault(ms, "skipped");
    assert TryPattern(PassedFailed, ms) == Some(Counts(3, 0, 0));
    assert Patterns[2] == PassedFailed;
  }

  /** A mapping that yields nothing is passed over; the next one in pre-order decides. */
  lemma LaterMappingDecides()
    ensures ExtractCounts(JArray(LaterDoc)) == Counts(3, 0, 0)
  {
    LaterDocWalk();
    LaterDocFirstYieldsNothing();
    LaterDocSecondYields();
  }

  /** {"passedTests": 10, "failedTests": 2, "skippedTests": 1} */
  const SummaryDoc: seq<Member> :=
    [Member("passedTests", JInt(10)), Member("failedTests", JInt(2)), Member("skippedTests", JInt(1))]

  lemma SummaryDocFields()
    ensures HasKey(SummaryDoc, "passedTests") && HasKey(SummaryDoc, "failedTests")
    ensures Field(SummaryDoc, "passedTests") == Some(10)
    ensures Field(SummaryDoc, "failedTests") == Some(2)
    ensures Field(SummaryDoc, "skippedTests") == Some(1)
  {
    SummaryDocPassed();
    SummaryDocFailed();
    SummaryDocSkipped();
  }

  lemma SummaryDocPassed()
    ensures Get(SummaryDoc, "passedTests") == Some(JInt(10))
  {
    assert SummaryDoc[0].key == "passedTests";
  }

  lemma SummaryDocFailed()
    ensures Get(SummaryDoc, "failedTests") == Some(JInt(2))
  {
    var ms := SummaryDoc;
    assert ms[0].key != "failedTests";
    assert ms[1..][0] == Member("failedTests", JInt(2));
  }

  lemma SummaryDocSkipped()
    ensures Get(SummaryDoc, "skippedTests") == Some(JInt(1))
  {
    var ms := SummaryDoc;
    assert ms[0].key != "skippedTests";
    assert ms[1..][0].key != "skippedTests";
    assert ms[1..][1..][0] == Member("skippedTests", JInt(1));
  }

  /** {"passedTests": 10, "failedTests": 2, "skippedTests": 1} gives (10, 2, 1). */
  lemma ScenarioSummary()
    ensures ExtractCounts(JObject(SummaryDoc)) == Counts(10, 2, 1)
  {
    SummaryDocFields();
    assert TryPattern(SummaryTests, SummaryDoc) == Some(Counts(10, 2, 1)) by {
      assert Applies(SummaryTests, SummaryDoc);
    }
    FirstPatternWins(SummaryDoc);
    RootMappingWins(JObject(SummaryDoc));
  }

  /** {"totalTestCount":100,"failedTests":5} gives (95, 5, 0). */
  lemma ScenarioTotal()
    ensures ExtractCounts(JObject([
              Member("totalTestCount", JInt(100)),
              Member("failedTests", JInt(5))])) == Counts(95, 5, 0)
  {
    var ms := [Member("totalTestCount", JInt(100)), Member("failedTests", JInt(5))];
    assert !HasKey(ms, "passedTests");
    assert HasKey(ms, "totalTestCount") && HasKey(ms, "failedTests") by {
      assert ms[0].key == "totalTestCount" && ms[1].key == "failedTests";
    }
    assert Field(ms, "totalTestCount") == Some(100) by {
      assert Get(ms, "totalTestCount") == Some(JInt(100));
    }
    assert Field(ms, "failedTests") == Some(5) by {
      assert Get(ms, "failedTests") == Some(JInt(5));
    }
    assert !HasKey(ms, "skippedTests") && !HasKey(ms, "testsSkippedCount");
    FieldDefault(ms, "testsSkippedCount");
    TotalTestCountPattern(ms, 100, 5, 0);
    RootMappingWins(JObject(ms));
  }

  /** {} gives (0, 0, 0). */
  lemma ScenarioEmpty()
    ensures ExtractCounts(JObject([])) == Zero
  {
    assert DeepIter(JObject([])) == [JObject([])];
    assert forall i | 0 <= i < |Patterns| :: !Applies(Patterns[i], []);
  }
}
