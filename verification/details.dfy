/**
 * `_extract_details_from_summary`: one "Failed" record per entry of the
 * top-level `testFailures` list that has a test name.
 */
module Details {
  import opened Wrappers
  import opened Json
  import opened PyText

  /** A row of the details table. */
  datatype Detail = Detail(name: string, status: string, suite: string, failure: string, testId: string)

  /** Failure texts are cut to this many characters. */
  const FailureLimit: nat := 100

  /**
   * The suite shown for a test: the second-to-last `/`-segment of its
   * identifier when that is non-empty, otherwise the target name.
   */
  function SuiteOf(testId: string, target: string): string {
    var suite :=
      if testId != "" && '/' in testId then
        var parts := Split(testId, '/');
        if |parts| >= 2 then parts[|parts| - 2] else target
      else "";
    if suite != "" then suite else target
  }

  /** Cutting `<prefix>/<suite>/<test>` at '/' gives the pieces of the prefix, then the suite and the test. */
  lemma SplitThree(prefix: string, suite: string, test: string)
    requires '/' !in suite && '/' !in test
    ensures Split(prefix + "/" + suite + "/" + test, '/') == Split(prefix, '/') + [suite] + [test]
  {
    assert prefix + "/" + suite + "/" + test == (prefix + "/" + suite) + ['/'] + test;
    assert prefix + "/" + suite == prefix + ['/'] + suite;
    SplitAppend(prefix + "/" + suite, '/', test);
    SplitAppend(prefix, '/', suite);
    SplitNoSep(suite, '/');
    SplitNoSep(test, '/');
  }

  /** An identifier `<...>/<suite>/<test>` with a non-empty suite names that suite. */
  lemma SuiteOfThree(prefix: string, suite: string, test: string, target: string)
    requires '/' !in suite && '/' !in test
    ensures SuiteOf(prefix + "/" + suite + "/" + test, target) == if suite != "" then suite else target
  {
    var id := prefix + "/" + suite + "/" + test;
    SplitThree(prefix, suite, test);
    var parts := Split(id, '/');
    assert parts[|parts| - 2] == suite;
    assert id[|prefix|] == '/';
  }

  /** An identifier `<suite>/<test>` names its suite. */
  lemma SuiteOfTwo(prefix: string, test: string, target: string)
    requires prefix != "" && '/' !in prefix && '/' !in test
    ensures SuiteOf(prefix + "/" + test, target) == prefix
  {
    SplitNoSep(prefix, '/');
    SplitNoSep(test, '/');
    assert prefix + "/" + test == prefix + ['/'] + test;
    SplitAppend(prefix, '/', test);
    assert (prefix + "/" + test)[|prefix|] == '/';
  }

  /** An identifier `<...>/<suite>/<test>` names its suite; one without a slash falls back to the target. */
  lemma SuiteFromIdentifier(prefix: string, suite: string, test: string, target: string)
    requires '/' !in suite && '/' !in test
    ensures suite != "" ==> SuiteOf(prefix + "/" + suite + "/" + test, target) == suite
    ensures prefix != "" && '/' !in prefix ==> SuiteOf(prefix + "/" + test, target) == prefix
    ensures suite == "" ==> SuiteOf(prefix + "/" + suite + "/" + test, target) == target
    ensures SuiteOf(test, target) == target
  {
    SuiteOfThree(prefix, suite, test, target);
    if prefix != "" && '/' !in prefix {
      SuiteOfTwo(prefix, test, target);
    }
  }

  /** The record a `testFailures` entry gives: None when it is skipped. */
  function RecordOf(entry: Json): Result<Option<Detail>, Fault> {
    if !entry.JObject? then Ok(None)
    else
      var ms := entry.members;
      var name := Or(Or(GetOrNull(ms, "testName"), GetOrNull(ms, "testIdentifierString")), JString(""));
      var id := Or(Or(GetOrNull(ms, "testIdentifierString"), GetOrNull(ms, "testIdentifierURL")), JString(""));
      var target := Or(GetOrNull(ms, "targetName"), JString(""));
      var text := Or(GetOrNull(ms, "failureText"), JString(""));
      if !Truthy(name) then Ok(None)
      else if !name.JString? then Err(NotText("testName"))
      else if !id.JString? then Err(NotText("testIdentifierString"))
      else if !target.JString? then Err(NotText("targetName"))
      else if !text.JString? then Err(NotText("failureText"))
      else Ok(Some(Detail(name.s, "Failed", SuiteOf(id.s, target.s), Truncate(text.s, FailureLimit), id.s)))
  }

  /**
   * An entry is skipped exactly when it is not a mapping or has neither a
   * testName nor a testIdentifierString that is truthy. A record it gives is
   * "Failed"; its name is testName, else testIdentifierString; its
   * identifier is testIdentifierString, else testIdentifierURL, else ""; its
   * suite is taken from that identifier with targetName as the fallback; and
   * its failure text is the first 100 characters of failureText.
   */
  lemma RecordShape(entry: Json)
    ensures RecordOf(entry) == Ok(None) <==>
      || !entry.JObject?
      || (!Truthy(GetOrNull(entry.members, "testName")) && !Truthy(GetOrNull(entry.members, "testIdentifierString")))
    ensures RecordOf(entry).Ok? && RecordOf(entry).value.Some? ==>
      var d := RecordOf(entry).value.value;
      var ms := entry.members;
      var text := GetOrNull(ms, "failureText");
      && d.status == "Failed"
      && d.name != ""
      && d.name == TextOrEmpty(Or(GetOrNull(ms, "testName"), GetOrNull(ms, "testIdentifierString")))
      && d.testId == TextOrEmpty(Or(GetOrNull(ms, "testIdentifierString"), GetOrNull(ms, "testIdentifierURL")))
      && d.suite == SuiteOf(d.testId, TextOrEmpty(GetOrNull(ms, "targetName")))
      && d.failure == Truncate(TextOrEmpty(text), FailureLimit)
      && |d.failure| <= FailureLimit
      && (if text.JString? then d.failure <= text.s else d.failure == "")
  {
  }

  /** The records of a list of entries, in order; the first fault ends the walk. */
  function Records(entries: seq<Json>): Result<seq<Detail>, Fault> {
    if entries == [] then Ok([])
    else
      match Records(entries[..|entries| - 1])
      case Err(e) => Err(e)
      case Ok(ds) =>
        match RecordOf(entries[|entries| - 1])
        case Err(e) => Err(e)
        case Ok(None) => Ok(ds)
        case Ok(Some(d)) => Ok(ds + [d])
  }

  /** A fault among the first entries is the result for the whole list. */
  lemma {:induction false} RecordsFaultSticks(entries: seq<Json>, k: nat, e: Fault)
    requires k <= |entries| && Records(entries[..k]) == Err(e)
    ensures Records(entries) == Err(e)
    decreases |entries| - k
  {
    if k < |entries| {
      assert entries[..k + 1][..k] == entries[..k];
      RecordsFaultSticks(entries, k + 1, e);
    } else {
      assert entries[..k] == entries;
    }
  }

  /** Every record is a "Failed" one with a name and a failure text of at most 100 characters. */
  lemma {:induction false} RecordsAreFailures(entries: seq<Json>)
    requires Records(entries).Ok?
    ensures var ds := Records(entries).value;
      forall k | 0 <= k < |ds| :: ds[k].status == "Failed" && ds[k].name != "" && |ds[k].failure| <= FailureLimit
  {
    if entries != [] {
      RecordsAreFailures(entries[..|entries| - 1]);
      RecordShape(entries[|entries| - 1]);
    }
  }

  /** The records of a list are those of all entries but the last, then the last entry's record, if any. */
  lemma RecordsSnoc(entries: seq<Json>)
    requires entries != [] && Records(entries).Ok?
    ensures var init, last := entries[..|entries| - 1], entries[|entries| - 1];
      && Records(init).Ok? && RecordOf(last).Ok?
      && Records(entries).value == Records(init).value + if RecordOf(last).value.Some? then [RecordOf(last).value.value] else []
  {
  }

  /** There is at most one record per entry, and none exactly when every entry is skipped. */
  lemma {:induction false} RecordsCount(entries: seq<Json>)
    requires Records(entries).Ok?
    ensures |Records(entries).value| <= |entries|
    ensures Records(entries).value == [] <==> forall k | 0 <= k < |entries| :: RecordOf(entries[k]) == Ok(None)
  {
    if entries != [] {
      var init, last := entries[..|entries| - 1], entries[|entries| - 1];
      RecordsSnoc(entries);
      RecordsCount(init);
      if Records(entries).value == [] {
        assert Records(init).value == [] && RecordOf(last) == Ok(None);
        forall k | 0 <= k < |entries| ensures RecordOf(entries[k]) == Ok(None) {
          if k < |init| {
            assert entries[k] == init[k];
          } else {
            assert entries[k] == last;
          }
        }
      } else if Records(init).value == [] {
        assert RecordOf(entries[|entries| - 1]) != Ok(None);
      } else {
        var k :| 0 <= k < |init| && RecordOf(init[k]) != Ok(None);
        assert entries[k] == init[k];
      }
    }
  }

  /** What `_extract_details_from_summary` returns; None stands for "no details". */
  function DetailsOf(data: Json): Result<Option<seq<Detail>>, Fault> {
    if !data.JObject? then Ok(None)
    else
      var failures := Get(data.members, "testFailures");
      if failures.Some? && failures.value.JArray? then
        match Records(failures.value.items)
        case Err(e) => Err(e)
        case Ok(ds) => Ok(if ds == [] then None else Some(ds))
      else Ok(None)
  }

  /**
   * The records are collected entry by entry, as the loop of the source
   * appends them.
   */
  method ExtractDetails(data: Json) returns (r: Result<Option<seq<Detail>>, Fault>)
    ensures r == DetailsOf(data)
    ensures r.Ok? && r.value.Some? ==>
      && r.value.value != []
      && forall k | 0 <= k < |r.value.value| :: r.value.value[k].status == "Failed" && r.value.value[k].name != ""
  {
    if !data.JObject? {
      return Ok(None);
    }
    var details: seq<Detail> := [];
    var failures := Get(data.members, "testFailures");
    if failures.Some? && failures.value.JArray? {
      var entries := failures.value.items;
      var i := 0;
      while i < |entries|
        invariant 0 <= i <= |entries|
        invariant Records(entries[..i]) == Ok(details)
      {
        assert entries[..i + 1][..i] == entries[..i];
        var record := RecordOf(entries[i]);
        match record {
          case Err(e) =>
            RecordsFaultSticks(entries, i + 1, e);
            return Err(e);
          case Ok(None) =>
          case Ok(Some(d)) =>
            details := details + [d];
        }
        i := i + 1;
      }
      assert entries[..i] == entries;
      RecordsAreFailures(entries);
    }
    r := if details == [] then Ok(None) else Ok(Some(details));
  }

  /**
   * No details when the input is not a mapping, or when testFailures is
   * missing or not a list.
   */
  lemma NoDetails(data: Json)
    requires !data.JObject? || !HasKey(data.members, "testFailures") || !Get(data.members, "testFailures").value.JArray?
    ensures DetailsOf(data) == Ok(None)
  {
  }

  /** {"testName": "testFoo", "testIdentifierString": "SuiteA/testFoo", "failureText": "expected true"} */
  const FooEntry: Json := JObject([
    Member("testName", JString("testFoo")),
    Member("testIdentifierString", JString("SuiteA/testFoo")),
    Member("failureText", JString("expected true"))])

  const FooDetail := Detail("testFoo", "Failed", "SuiteA", "expected true", "SuiteA/testFoo")

  lemma FooSuite()
    ensures SuiteOf("SuiteA/testFoo", "") == "SuiteA"
  {
    var suite, test := "SuiteA", "testFoo";
    assert '/' !in suite && '/' !in test;
    SuiteOfTwo(suite, test, "");
    assert suite + "/" + test == "SuiteA/testFoo";
  }

  lemma FooNames()
    ensures GetOrNull(FooEntry.members, "testName") == JString("testFoo")
    ensures GetOrNull(FooEntry.members, "testIdentifierString") == JString("SuiteA/testFoo")
  {
  }

  lemma FooOthers()
    ensures GetOrNull(FooEntry.members, "targetName") == JNull
    ensures GetOrNull(FooEntry.members, "failureText") == JString("expected true")
  {
    var ms := FooEntry.members;
    assert |ms[0].key| == 8 && |ms[1].key| == 20 && |ms[2].key| == 11;
  }

  /**
   * An entry with a non-empty testName, a testIdentifierString, a target
   * (a string, or none), and a failureText gives the record built from them.
   * When the identifier is empty, the URL must be absent or falsy, since it
   * would otherwise stand in for the identifier.
   */
  lemma RecordOfTexts(ms: seq<Member>, name: string, id: string, target: string, text: string)
    requires name != ""
    requires GetOrNull(ms, "testName") == JString(name)
    requires GetOrNull(ms, "testIdentifierString") == JString(id)
    requires id != "" || !Truthy(GetOrNull(ms, "testIdentifierURL"))
    requires GetOrNull(ms, "targetName") == JString(target) || (GetOrNull(ms, "targetName") == JNull && target == "")
    requires GetOrNull(ms, "failureText") == JString(text)
    ensures RecordOf(JObject(ms)) == Ok(Some(Detail(name, "Failed", SuiteOf(id, target), Truncate(text, FailureLimit), id)))
  {
  }

  lemma FooRecord()
    ensures RecordOf(FooEntry) == Ok(Some(FooDetail))
  {
    FooNames();
    FooOthers();
    RecordOfTexts(FooEntry.members, "testFoo", "SuiteA/testFoo", "", "expected true");
    FooSuite();
    assert Truncate("expected true", FailureLimit) == "expected true";
  }

  /** A one-entry list gives that entry's record. */
  lemma RecordsOne(e: Json, d: Detail)
    requires RecordOf(e) == Ok(Some(d))
    ensures Records([e]) == Ok([d])
  {
    var es := [e];
    assert es[..|es| - 1] == [];
    assert es[|es| - 1] == e;
    assert Records(es[..|es| - 1]) == Ok([]);
    assert [] + [d] == [d];
  }

  /** A summary whose testFailures holds the testFoo entry gives exactly its record. */
  lemma ScenarioFooDetails()
    ensures DetailsOf(JObject([Member("testFailures", JArray([FooEntry]))])) == Ok(Some([FooDetail]))
  {
    FooRecord();
    RecordsOne(FooEntry, FooDetail);
    assert Get([Member("testFailures", JArray([FooEntry]))], "testFailures") == Some(JArray([FooEntry]));
  }
}
