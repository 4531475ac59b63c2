/** Properties of the Firehose report model that relate several values, and
    the renderings that unittests/Firehose/FirehoseTest.cpp expects of the
    serializer. */
module FirehoseFacts {
  import opened Strings
  import opened Xml
  import opened Firehose

  // ---------------------------------------------------------------------
  // Absent values and default arguments
  // ---------------------------------------------------------------------

  /** The absent values are built from absent parts only; the absent trace
      and the absent results each hold one absent element, so the empty
      trace and the empty results are present values. */
  lemma AbsentValuesAreBuiltFromAbsentParts()
    ensures DummyRange.p1 == DummyPoint && DummyRange.p2 == DummyPoint
    ensures DummyLocation.file == DummyFile && DummyLocation.func == DummyFunction
    ensures DummyLocation.range == DummyRange && DummyLocation.point == DummyPoint
    ensures DummyState.location == DummyLocation && DummyState.notes == DummyNotes
    ensures DummyTrace.states == [DummyState] && Trace([]) != DummyTrace
    ensures DummyIssue.message == DummyMessage && DummyIssue.location == DummyLocation
    ensures DummyIssue.trace == DummyTrace
    ensures DummyResults.issues == [DummyIssue] && Results([]) != DummyResults
    ensures DummyMetadata.generator == DummyGenerator
    ensures DummyAnalysis.metadata == DummyMetadata && DummyAnalysis.results == DummyResults
  {
  }

  /** An argument left out of a constructor call is the absent value of its
      type. */
  lemma OmittedArgumentsAreAbsent(file: File, func: Function, location: Location, message: Message, id: string)
    ensures LocationOfRange(file, func).range == DummyRange
    ensures State(location).notes == DummyNotes
    ensures Issue(message, location).trace == DummyTrace
    ensures Failure(id, message).location == DummyLocation
  {
  }

  // ---------------------------------------------------------------------
  // Location
  // ---------------------------------------------------------------------

  /** A location built from a range renders file, function and range, and
      no point element. */
  lemma LocationOfRangeXml(file: File, func: Function, range: Range)
    requires LocationOfRange(file, func, range) != DummyLocation
    ensures LocationOfRange(file, func, range).ToXml()
         == "<location>\n" + (Line(file.ToXml()) + Line(func.ToXml()) + Line(range.ToXml())) + "</location>"
  {
    var loc := LocationOfRange(file, func, range);
    loc.XmlFramed();
    assert Line(loc.point.ToXml()) == "";
    var body := Line(file.ToXml()) + Line(func.ToXml()) + Line(range.ToXml());
    assert body + "" == body;
  }

  /** A location built from a point renders file, function and point, and
      no range element. */
  lemma LocationOfPointXml(file: File, func: Function, point: Point)
    requires LocationOfPoint(file, func, point) != DummyLocation
    ensures LocationOfPoint(file, func, point).ToXml()
         == "<location>\n" + (Line(file.ToXml()) + Line(func.ToXml()) + Line(point.ToXml())) + "</location>"
  {
    var loc := LocationOfPoint(file, func, point);
    loc.XmlFramed();
    assert Line(loc.range.ToXml()) == "";
    var front := Line(file.ToXml()) + Line(func.ToXml());
    assert front + "" == front;
  }

  // ---------------------------------------------------------------------
  // Trace and Results
  // ---------------------------------------------------------------------

  /** A trace with no states is not the absent trace and renders as its two
      tags on lines of their own. */
  lemma EmptyTraceRendersTags()
    ensures Trace([]) != DummyTrace
    ensures Trace([]).ToXml() == "<trace>\n</trace>"
  {
    assert StatesXml([]) == [];
    assert Lines([]) == "";
    assert Trace([]).ToXml() == TraceOpen + "\n" + "" + TraceClose;
  }

  /** Results with no issues are not the absent results and render as the
      two tags on lines of their own. */
  lemma EmptyResultsRendersTags()
    ensures Results([]) != DummyResults
    ensures Results([]).ToXml() == "<results>\n</results>"
  {
    assert IssuesXml([]) == [];
    assert Lines([]) == "";
    assert Results([]).ToXml() == ResultsOpen + "\n" + "" + ResultsClose;
  }

  /** The states of a trace appear in the markup in sequence order: the
      markup of the states of `xs` comes before that of the states of `ys`. */
  lemma TraceXmlOrder(xs: seq<State>, ys: seq<State>)
    requires Trace(xs + ys) != DummyTrace
    ensures Trace(xs + ys).ToXml() == "<trace>\n" + (Lines(StatesXml(xs)) + Lines(StatesXml(ys))) + "</trace>"
  {
    StatesXmlConcat(xs, ys);
    LinesConcat(StatesXml(xs), StatesXml(ys));
    assert Trace(xs + ys).ToXml() == TraceOpen + "\n" + Lines(StatesXml(xs + ys)) + TraceClose;
    assert TraceOpen + "\n" == "<trace>\n";
  }

  /** When no state is absent, each state's markup is followed by a newline,
      in order, between the tags. */
  lemma TraceXmlAllPresent(states: seq<State>)
    requires forall s :: s in states ==> s != DummyState
    ensures Trace(states) != DummyTrace
    ensures Trace(states).ToXml() == "<trace>\n" + Terminated(StatesXml(states), "\n") + "</trace>"
  {
    assert DummyState !in states;
    var children := StatesXml(states);
    forall x | x in children
      ensures x != ""
    {
      var k :| 0 <= k < |children| && children[k] == x;
      MapMarkupAt(states, StateXml, k);
      assert states[k] in states;
    }
    LinesAllPresent(children);
    assert Trace(states).ToXml() == TraceOpen + "\n" + Lines(children) + TraceClose;
    assert TraceOpen + "\n" == "<trace>\n";
  }

  /** The issues of a results list appear in the markup in sequence order. */
  lemma ResultsXmlOrder(xs: seq<Issue>, ys: seq<Issue>)
    requires Results(xs + ys) != DummyResults
    ensures Results(xs + ys).ToXml() == "<results>\n" + (Lines(IssuesXml(xs)) + Lines(IssuesXml(ys))) + "</results>"
  {
    IssuesXmlConcat(xs, ys);
    LinesConcat(IssuesXml(xs), IssuesXml(ys));
    assert Results(xs + ys).ToXml() == ResultsOpen + "\n" + Lines(IssuesXml(xs + ys)) + ResultsClose;
    assert ResultsOpen + "\n" == "<results>\n";
  }

  /** When no issue is absent, each issue's markup is followed by a newline,
      in order, between the tags. */
  lemma ResultsXmlAllPresent(issues: seq<Issue>)
    requires forall i :: i in issues ==> i != DummyIssue
    ensures Results(issues) != DummyResults
    ensures Results(issues).ToXml() == "<results>\n" + Terminated(IssuesXml(issues), "\n") + "</results>"
  {
    assert DummyIssue !in issues;
    var children := IssuesXml(issues);
    forall x | x in children
      ensures x != ""
    {
      var k :| 0 <= k < |children| && children[k] == x;
      MapMarkupAt(issues, IssueXml, k);
      assert issues[k] in issues;
    }
    LinesAllPresent(children);
    assert Results(issues).ToXml() == ResultsOpen + "\n" + Lines(children) + ResultsClose;
    assert ResultsOpen + "\n" == "<results>\n";
  }

  // ---------------------------------------------------------------------
  // Issue
  // ---------------------------------------------------------------------

  /** An issue whose trace was left out renders message and location only. */
  lemma IssueAbsentTraceOmitted(message: Message, location: Location)
    requires Issue(message, location) != DummyIssue
    ensures Issue(message, location).ToXml()
         == "<issue>\n" + (Line(message.ToXml()) + Line(location.ToXml())) + "</issue>"
  {
    var issue := Issue(message, location);
    issue.XmlFramed();
    assert Line(issue.trace.ToXml()) == "";
    var body := Line(message.ToXml()) + Line(location.ToXml());
    assert body + "" == body;
  }

  /** An issue with an empty trace still renders that trace's two tags,
      after message and location. */
  lemma IssueEmptyTraceShown(message: Message, location: Location)
    ensures Issue(message, location, Trace([])) != DummyIssue
    ensures Issue(message, location, Trace([])).ToXml()
         == "<issue>\n" + (Line(message.ToXml()) + Line(location.ToXml()) + "<trace>\n</trace>\n") + "</issue>"
  {
    var issue := Issue(message, location, Trace([]));
    EmptyTraceRendersTags();
    assert issue.trace != DummyTrace;
    issue.XmlFramed();
    var trace := "<trace>\n</trace>";
    assert Line(issue.trace.ToXml()) == trace + "\n";
    assert trace + "\n" == "<trace>\n</trace>\n";
  }

  // ---------------------------------------------------------------------
  // Renderings spelled out in the unit tests
  // ---------------------------------------------------------------------

  /** `mkString` of "abra", "", "cadabra", "" with a blank separator. */
  lemma MkStringDropsEmptyPieces()
    ensures MkString(["abra", "", "cadabra", ""], " ") == "abra cadabra"
  {
    var ss := ["abra", "", "cadabra", ""];
    NonEmptyConcat(["abra", ""], ["cadabra", ""]);
    assert ss == ["abra", ""] + ["cadabra", ""];
    assert NonEmpty(["abra", ""]) == ["abra"];
    assert NonEmpty(["cadabra", ""]) == ["cadabra"];
    assert NonEmpty(ss) == ["abra", "cadabra"];
  }

  /** The point at column 10, line 4. */
  lemma PointXmlExample()
    ensures Point(10, 4).ToXml() == "<point column=\"10\" line=\"4\"/>"
  {
    assert NumberToString(10) == "10" by {
      assert NumberToString(1) == "1";
    }
    assert NumberToString(4) == "4";
  }

  /** The generator named "klee" at version "1.2.0". */
  lemma GeneratorXmlExample()
    ensures Generator("klee", "1.2.0").ToXml() == "<generator name=\"klee\" version=\"1.2.0\"/>"
  {
  }

  /** A report without issues still renders its empty results element,
      after the metadata. */
  lemma AnalysisWithoutIssuesXml(metadata: Metadata)
    ensures Analysis(metadata, Results([])) != DummyAnalysis
    ensures Analysis(metadata, Results([])).ToXml()
         == "<analysis>\n" + (Line(metadata.ToXml()) + "<results>\n</results>\n") + "</analysis>"
  {
    var analysis := Analysis(metadata, Results([]));
    EmptyResultsRendersTags();
    analysis.XmlFramed();
    var results := "<results>\n</results>";
    assert Line(analysis.results.ToXml()) == results + "\n";
    assert results + "\n" == "<results>\n</results>\n";
  }
}
