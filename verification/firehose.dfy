/** The Firehose report value model of include/klee/Firehose.h and its XML
    serialization from lib/Support/Firehose.cpp.

    Every C++ class is an immutable value, so each becomes a datatype: its
    getters are the datatype's fields, its copy constructor is the identity
    on values, its `operator==` is the member `Equals` and its `toXML()` the
    member `ToXml`. Each type has one reserved "absent" value (the `dummy*()`
    functions of the header, here the constants `Dummy*`); `ToXml` renders
    the absent value as the empty string, and composite elements drop empty
    children when they join their pieces. */
module Firehose {
  import opened Strings
  import opened Xml

  /** The source's `unsigned`: 32 bits. */
  type Unsigned = x: nat | x < 0x1_0000_0000

  // ---------------------------------------------------------------------
  // Point, Range
  // ---------------------------------------------------------------------

  datatype Point = Point(column: Unsigned, line: Unsigned) {
    /** `Point::operator==`: column and line compared. */
    function Equals(that: Point): (r: bool)
      ensures r <==> this == that
    {
      column == that.column && line == that.line
    }

    /** `Point::toXML`: both numbers in decimal as attributes. */
    function ToXml(): (r: string)
      ensures r == "" <==> this == DummyPoint
      ensures r != "" ==>
        r == "<point column=\"" + NumberToString(column) + "\" line=\"" + NumberToString(line) + "\"/>"
    {
      if Equals(DummyPoint) then ""
      else
        var xml := "<point column=\"" + NumberToString(column) + "\" line=\""
                   + NumberToString(line) + "\"/>";
        xml
    }

    /** Rendering never leaves a blank line: the markup is empty or every
        line of it has text. */
    lemma XmlNoBlankLine()
      ensures ToXml() == "" || NoBlankLine(ToXml())
    {
      if ToXml() != "" {
        NoNewlineNoBlankLine(ToXml());
      }
    }
  }

  const DummyPoint: Point := Point(0, 0)

  datatype Range = Range(p1: Point, p2: Point) {
    /** `Range::operator==`: both end points compared. */
    function Equals(that: Range): (r: bool)
      ensures r <==> this == that
    {
      p1.Equals(that.p1) && p2.Equals(that.p2)
    }

    /** `Range::toXML`: a `range` element holding the present end points. */
    function ToXml(): (r: string)
      ensures r == "" <==> this == DummyRange
    {
      if Equals(DummyRange) then ""
      else Element(RangeOpen, [p1.ToXml(), p2.ToXml()], RangeClose)
    }

    /** A present range renders as its tags around its present children, one
        per line, in order. */
    lemma XmlFramed()
      requires this != DummyRange
      ensures ToXml() == "<range>\n" + (Line(p1.ToXml()) + Line(p2.ToXml())) + "</range>"
    {
      var a, b := p1.ToXml(), p2.ToXml();
      var body := Line(a) + Line(b);
      LinesOfTwo(a, b);
      assert Lines([a, b]) == body;
      assert ToXml() == RangeOpen + "\n" + Lines([a, b]) + RangeClose;
      assert RangeOpen + "\n" == "<range>\n";
      assert ToXml() == "<range>\n" + body + "</range>";
    }

    /** Rendering never leaves a blank line: the markup is empty or every
        line of it has text. */
    lemma XmlNoBlankLine()
      ensures ToXml() == "" || NoBlankLine(ToXml())
    {
      p1.XmlNoBlankLine();
      p2.XmlNoBlankLine();
      if this != DummyRange {
        ElementNoBlankLine(RangeOpen, [p1.ToXml(), p2.ToXml()], RangeClose);
      }
    }
  }

  const DummyRange: Range := Range(DummyPoint, DummyPoint)
  const RangeOpen: Tag := "<range>"
  const RangeClose: Tag := "</range>"

  // ---------------------------------------------------------------------
  // File, Function
  // ---------------------------------------------------------------------

  datatype File = File(path: string) {
    /** `File::operator==`: the paths compared. */
    function Equals(that: File): (r: bool)
      ensures r <==> this == that
    {
      path == that.path
    }

    /** The path puts no blank line into the markup. */
    predicate Clean() {
      NoDoubleNewline(path)
    }

    /** `File::toXML`: the path inserted verbatim, without escaping. */
    function ToXml(): (r: string)
      ensures r == "" <==> this == DummyFile
      ensures r != "" ==> r == "<file given-path=\"" + path + "\"/>"
    {
      if Equals(DummyFile) then ""
      else
        "<file given-path=\"" + path + "\"/>"
    }

    /** Rendering never leaves a blank line: the markup is empty or every
        line of it has text. */
    lemma XmlNoBlankLine()
      requires Clean()
      ensures ToXml() == "" || NoBlankLine(ToXml())
    {
      NoBlankLineWrapped("<file given-path=\"", path, "\"/>");
    }
  }

  const DummyFile: File := File("")

  datatype Function = Function(name: string) {
    /** `Function::operator==`: the names compared. */
    function Equals(that: Function): (r: bool)
      ensures r <==> this == that
    {
      name == that.name
    }

    predicate Clean() {
      NoDoubleNewline(name)
    }

    /** `Function::toXML`: the name inserted verbatim. */
    function ToXml(): (r: string)
      ensures r == "" <==> this == DummyFunction
      ensures r != "" ==> r == "<function name=\"" + name + "\"/>"
    {
      if Equals(DummyFunction) then ""
      else
        "<function name=\"" + name + "\"/>"
    }

    /** Rendering never leaves a blank line: the markup is empty or every
        line of it has text. */
    lemma XmlNoBlankLine()
      requires Clean()
      ensures ToXml() == "" || NoBlankLine(ToXml())
    {
      NoBlankLineWrapped("<function name=\"", name, "\"/>");
    }
  }

  const DummyFunction: Function := Function("")

  // ---------------------------------------------------------------------
  // Location
  // ---------------------------------------------------------------------

  /** A location: a file, a function and a span that is either a range or a
      point. The two C++ constructors are LocationOfRange and
      LocationOfPoint; each sets the span it does not take to its absent
      value. The datatype's own constructor `Location(...)` stands for no
      source constructor: it can also build a value with both spans
      present, which no C++ constructor does. Lemmas stated for every
      location therefore also cover such values. */
  datatype Location = Location(file: File, func: Function, range: Range, point: Point) {
    /** `Location::operator==`: all four fields compared. */
    function Equals(that: Location): (r: bool)
      ensures r <==> this == that
    {
      file.Equals(that.file) && func.Equals(that.func)
      && range.Equals(that.range) && point.Equals(that.point)
    }

    /** Never both a range and a point. */
    predicate AtMostOneSpan() {
      range == DummyRange || point == DummyPoint
    }

    predicate Clean() {
      file.Clean() && func.Clean()
    }

    /** `Location::toXML`: file, function, range and point in that order,
        each only when present. */
    function ToXml(): (r: string)
      ensures r == "" <==> this == DummyLocation
    {
      if Equals(DummyLocation) then ""
      else Element(LocationOpen, [file.ToXml(), func.ToXml(), range.ToXml(), point.ToXml()], LocationClose)
    }

    /** A present location renders as its tags around its present children, one
        per line, in order. */
    lemma XmlFramed()
      requires this != DummyLocation
      ensures ToXml() == "<location>\n" + (Line(file.ToXml()) + Line(func.ToXml()) + Line(range.ToXml()) + Line(point.ToXml())) + "</location>"
    {
      var a, b, c, d := file.ToXml(), func.ToXml(), range.ToXml(), point.ToXml();
      var body := Line(a) + Line(b) + Line(c) + Line(d);
      LinesOfFour(a, b, c, d);
      assert Lines([a, b, c, d]) == body;
      assert ToXml() == LocationOpen + "\n" + Lines([a, b, c, d]) + LocationClose;
      assert LocationOpen + "\n" == "<location>\n";
      assert ToXml() == "<location>\n" + body + "</location>";
    }

    /** Rendering never leaves a blank line: the markup is empty or every
        line of it has text. */
    lemma XmlNoBlankLine()
      requires Clean()
      ensures ToXml() == "" || NoBlankLine(ToXml())
    {
      file.XmlNoBlankLine();
      func.XmlNoBlankLine();
      range.XmlNoBlankLine();
      point.XmlNoBlankLine();
      if this != DummyLocation {
        ElementNoBlankLine(LocationOpen, [file.ToXml(), func.ToXml(), range.ToXml(), point.ToXml()], LocationClose);
      }
    }
  }

  /** `Location(file, function, range = dummyRange())`: the point is absent. */
  function LocationOfRange(file: File, func: Function, range: Range := DummyRange): (loc: Location)
    ensures loc.file == file && loc.func == func && loc.range == range
    ensures loc.point == DummyPoint
    ensures loc.AtMostOneSpan()
  {
    Location(file, func, range, DummyPoint)
  }

  /** `Location(file, function, point)`: the range is absent. */
  function LocationOfPoint(file: File, func: Function, point: Point): (loc: Location)
    ensures loc.file == file && loc.func == func && loc.point == point
    ensures loc.range == DummyRange
    ensures loc.AtMostOneSpan()
  {
    Location(file, func, DummyRange, point)
  }

  const DummyLocation: Location := LocationOfRange(DummyFile, DummyFunction, DummyRange)
  const LocationOpen: Tag := "<location>"
  const LocationClose: Tag := "</location>"

  // ---------------------------------------------------------------------
  // Message, Notes (the two kinds of Text)
  // ---------------------------------------------------------------------

  datatype Message = Message(text: string) {
    /** `Message::operator==`: the texts compared. */
    function Equals(that: Message): (r: bool)
      ensures r <==> this == that
    {
      text == that.text
    }

    predicate Clean() {
      NoDoubleNewline(text)
    }

    /** `Message::toXML`: the text inserted verbatim. */
    function ToXml(): (r: string)
      ensures r == "" <==> this == DummyMessage
      ensures r != "" ==> r == "<message>" + text + "</message>"
    {
      if Equals(DummyMessage) then ""
      else
        "<message>" + text + "</message>"
    }

    /** Rendering never leaves a blank line: the markup is empty or every
        line of it has text. */
    lemma XmlNoBlankLine()
      requires Clean()
      ensures ToXml() == "" || NoBlankLine(ToXml())
    {
      NoBlankLineWrapped("<message>", text, "</message>");
    }
  }

  const DummyMessage: Message := Message("")

  datatype Notes = Notes(text: string) {
    /** `Notes::operator==`: the texts compared. */
    function Equals(that: Notes): (r: bool)
      ensures r <==> this == that
    {
      text == that.text
    }

    predicate Clean() {
      NoDoubleNewline(text)
    }

    /** `Notes::toXML`: the text inserted verbatim. */
    function ToXml(): (r: string)
      ensures r == "" <==> this == DummyNotes
      ensures r != "" ==> r == "<notes>" + text + "</notes>"
    {
      if Equals(DummyNotes) then ""
      else
        "<notes>" + text + "</notes>"
    }

    /** Rendering never leaves a blank line: the markup is empty or every
        line of it has text. */
    lemma XmlNoBlankLine()
      requires Clean()
      ensures ToXml() == "" || NoBlankLine(ToXml())
    {
      NoBlankLineWrapped("<notes>", text, "</notes>");
    }
  }

  const DummyNotes: Notes := Notes("")

  // ---------------------------------------------------------------------
  // State, Trace
  // ---------------------------------------------------------------------

  /** One step of a trace; the notes default to absent. */
  datatype State = State(location: Location, notes: Notes := DummyNotes) {
    /** `State::operator==`: location and notes compared. */
    function Equals(that: State): (r: bool)
      ensures r <==> this == that
    {
      location.Equals(that.location) && notes.Equals(that.notes)
    }

    predicate Clean() {
      location.Clean() && notes.Clean()
    }

    /** `State::toXML`: location, then notes, each only when present. */
    function ToXml(): (r: string)
      ensures r == "" <==> this == DummyState
    {
      if Equals(DummyState) then ""
      else Element(StateOpen, [location.ToXml(), notes.ToXml()], StateClose)
    }

    /** A present state renders as its tags around its present children, one
        per line, in order. */
    lemma XmlFramed()
      requires this != DummyState
      ensures ToXml() == "<state>\n" + (Line(location.ToXml()) + Line(notes.ToXml())) + "</state>"
    {
      var a, b := location.ToXml(), notes.ToXml();
      var body := Line(a) + Line(b);
      LinesOfTwo(a, b);
      assert Lines([a, b]) == body;
      assert ToXml() == StateOpen + "\n" + Lines([a, b]) + StateClose;
      assert StateOpen + "\n" == "<state>\n";
      assert ToXml() == "<state>\n" + body + "</state>";
    }

    /** Rendering never leaves a blank line: the markup is empty or every
        line of it has text. */
    lemma XmlNoBlankLine()
      requires Clean()
      ensures ToXml() == "" || NoBlankLine(ToXml())
    {
      location.XmlNoBlankLine();
      notes.XmlNoBlankLine();
      if this != DummyState {
        ElementNoBlankLine(StateOpen, [location.ToXml(), notes.ToXml()], StateClose);
      }
    }
  }

  const DummyState: State := State(DummyLocation, DummyNotes)
  const StateOpen: Tag := "<state>"
  const StateClose: Tag := "</state>"

  /** `std::vector<T>::operator==`: equal lengths and pairwise equal
      elements under the element type's `operator==`, given as `eq`. */
  function SeqEqual<T(==,!new)>(xs: seq<T>, ys: seq<T>, eq: (T, T) -> bool): (r: bool)
    requires forall a, b :: eq(a, b) <==> a == b
    ensures r <==> xs == ys
  {
    if |xs| != |ys| then false
    else if xs == [] then true
    else
      assert xs == [xs[0]] + xs[1..] && ys == [ys[0]] + ys[1..];
      eq(xs[0], ys[0]) && SeqEqual(xs[1..], ys[1..], eq)
  }

  /** `State::operator==` as a function value. */
  function StateEquals(a: State, b: State): bool {
    a.Equals(b)
  }

  /** The markup of each state, in order. */
  function StateXml(s: State): string {
    s.ToXml()
  }

  function StatesXml(states: seq<State>): seq<string> {
    MapMarkup(states, StateXml)
  }

  lemma StatesXmlConcat(xs: seq<State>, ys: seq<State>)
    ensures StatesXml(xs + ys) == StatesXml(xs) + StatesXml(ys)
  {
    MapMarkupConcat(xs, ys, StateXml);
  }

  datatype Trace = Trace(states: seq<State>) {
    /** `Trace::operator==`: the state sequences compared element-wise. */
    function Equals(that: Trace): (r: bool)
      ensures r <==> this == that
    {
      SeqEqual(states, that.states, StateEquals)
    }

    predicate Clean() {
      forall s :: s in states ==> s.Clean()
    }

    /** `Trace::toXML`: the states' markup in sequence order. */
    function ToXml(): (r: string)
      ensures r == "" <==> this == DummyTrace
    {
      if Equals(DummyTrace) then ""
      else
        Element(TraceOpen, StatesXml(states), TraceClose)
    }


    /** Rendering never leaves a blank line: the markup is empty or every
        line of it has text. */
    lemma XmlNoBlankLine()
      requires Clean()
      ensures ToXml() == "" || NoBlankLine(ToXml())
    {
      if this != DummyTrace {
        forall x | x in StatesXml(states)
          ensures x == "" || NoBlankLine(x)
        {
          var k :| 0 <= k < |states| && StatesXml(states)[k] == x;
          MapMarkupAt(states, StateXml, k);
          assert states[k] in states;
          states[k].XmlNoBlankLine();
        }
        ElementNoBlankLine(TraceOpen, StatesXml(states), TraceClose);
      }
    }

    /** The loop of `Trace::toXML`: collects the opening tag, each state's
        markup and the closing tag, then joins them. */
    method RenderXml() returns (r: string)
      ensures r == ToXml()
    {
      if Equals(DummyTrace) {
        return "";
      }
      var children := MapMarkupLoop(states, StateXml);
      MkStringFramed(TraceOpen, children, TraceClose);
      r := MkStringLoop([TraceOpen] + children + [TraceClose], "\n");
    }
  }

  /** The absent trace holds exactly one absent state, so the empty trace is
      a present one. */
  const DummyTrace: Trace := Trace([DummyState])
  const TraceOpen: Tag := "<trace>"
  const TraceClose: Tag := "</trace>"

  // ---------------------------------------------------------------------
  // Issue, Failure, Info
  // ---------------------------------------------------------------------

  /** A located defect; the trace defaults to absent. */
  datatype Issue = Issue(message: Message, location: Location, trace: Trace := DummyTrace) {
    /** `Issue::operator==`: message, location and trace compared. */
    function Equals(that: Issue): (r: bool)
      ensures r <==> this == that
    {
      message.Equals(that.message) && location.Equals(that.location) && trace.Equals(that.trace)
    }

    predicate Clean() {
      message.Clean() && location.Clean() && trace.Clean()
    }

    /** `Issue::toXML`: message, location, trace, each only when present. */
    function ToXml(): (r: string)
      ensures r == "" <==> this == DummyIssue
    {
      if Equals(DummyIssue) then ""
      else Element(IssueOpen, [message.ToXml(), location.ToXml(), trace.ToXml()], IssueClose)
    }

    /** A present issue renders as its tags around its present children, one
        per line, in order. */
    lemma XmlFramed()
      requires this != DummyIssue
      ensures ToXml() == "<issue>\n" + (Line(message.ToXml()) + Line(location.ToXml()) + Line(trace.ToXml())) + "</issue>"
    {
      var a, b, c := message.ToXml(), location.ToXml(), trace.ToXml();
      var body := Line(a) + Line(b) + Line(c);
      LinesOfThree(a, b, c);
      assert Lines([a, b, c]) == body;
      assert ToXml() == IssueOpen + "\n" + Lines([a, b, c]) + IssueClose;
      assert IssueOpen + "\n" == "<issue>\n";
      assert ToXml() == "<issue>\n" + body + "</issue>";
    }

    /** Rendering never leaves a blank line: the markup is empty or every
        line of it has text. */
    lemma XmlNoBlankLine()
      requires Clean()
      ensures ToXml() == "" || NoBlankLine(ToXml())
    {
      message.XmlNoBlankLine();
      location.XmlNoBlankLine();
      trace.XmlNoBlankLine();
      if this != DummyIssue {
        ElementNoBlankLine(IssueOpen, [message.ToXml(), location.ToXml(), trace.ToXml()], IssueClose);
      }
    }
  }

  const DummyIssue: Issue := Issue(DummyMessage, DummyLocation, DummyTrace)
  const IssueOpen: Tag := "<issue>"
  const IssueClose: Tag := "</issue>"

  /** The data of a `Failure`: a taxonomy id, a message and a location that
      defaults to absent. */
  datatype Failure = Failure(id: string, message: Message, location: Location := DummyLocation)

  /** The data of an `Info`: a taxonomy id and a message, and no location. */
  datatype Info = Info(id: string, message: Message)

  /** The two ids the header allows a Failure to carry. */
  predicate IsFailureId(id: string) {
    id == "symbol-loading" || id == "external-call"
  }

  /** The `Failure` constructor with the id restriction the header documents
      for its callers. */
  function MakeFailure(id: string, message: Message, location: Location := DummyLocation): (f: Failure)
    requires IsFailureId(id)
    ensures IsFailureId(f.id)
    ensures f.id == id && f.message == message && f.location == location
  {
    Failure(id, message, location)
  }

  /** The header's absent Failure and Info; the absent Failure is built with
      the empty id, outside the documented restriction. */
  const DummyFailure: Failure := Failure("", DummyMessage, DummyLocation)
  const DummyInfo: Info := Info("", DummyMessage)

  // ---------------------------------------------------------------------
  // Results
  // ---------------------------------------------------------------------

  /** `Issue::operator==` as a function value. */
  function IssueEquals(a: Issue, b: Issue): bool {
    a.Equals(b)
  }

  function IssueXml(i: Issue): string {
    i.ToXml()
  }

  function IssuesXml(issues: seq<Issue>): seq<string> {
    MapMarkup(issues, IssueXml)
  }

  lemma IssuesXmlConcat(xs: seq<Issue>, ys: seq<Issue>)
    ensures IssuesXml(xs + ys) == IssuesXml(xs) + IssuesXml(ys)
  {
    MapMarkupConcat(xs, ys, IssueXml);
  }


  datatype Results = Results(issues: seq<Issue>) {
    /** `Results::operator==`: the issue sequences compared element-wise. */
    function Equals(that: Results): (r: bool)
      ensures r <==> this == that
    {
      SeqEqual(issues, that.issues, IssueEquals)
    }

    predicate Clean() {
      forall i :: i in issues ==> i.Clean()
    }

    /** `Results::toXML`: the issues' markup in sequence order. */
    function ToXml(): (r: string)
      ensures r == "" <==> this == DummyResults
    {
      if Equals(DummyResults) then ""
      else
        Element(ResultsOpen, IssuesXml(issues), ResultsClose)
    }


    /** Rendering never leaves a blank line: the markup is empty or every
        line of it has text. */
    lemma XmlNoBlankLine()
      requires Clean()
      ensures ToXml() == "" || NoBlankLine(ToXml())
    {
      if this != DummyResults {
        forall x | x in IssuesXml(issues)
          ensures x == "" || NoBlankLine(x)
        {
          var k :| 0 <= k < |issues| && IssuesXml(issues)[k] == x;
          MapMarkupAt(issues, IssueXml, k);
          assert issues[k] in issues;
          issues[k].XmlNoBlankLine();
        }
        ElementNoBlankLine(ResultsOpen, IssuesXml(issues), ResultsClose);
      }
    }

    /** The loop of `Results::toXML`. */
    method RenderXml() returns (r: string)
      ensures r == ToXml()
    {
      if Equals(DummyResults) {
        return "";
      }
      var children := MapMarkupLoop(issues, IssueXml);
      MkStringFramed(ResultsOpen, children, ResultsClose);
      r := MkStringLoop([ResultsOpen] + children + [ResultsClose], "\n");
    }
  }

  /** The absent results hold exactly one absent issue. */
  const DummyResults: Results := Results([DummyIssue])
  const ResultsOpen: Tag := "<results>"
  const ResultsClose: Tag := "</results>"

  // ---------------------------------------------------------------------
  // Generator, Metadata, Analysis
  // ---------------------------------------------------------------------

  datatype Generator = Generator(name: string, version: string) {
    /** `Generator::operator==`: name and version compared. */
    function Equals(that: Generator): (r: bool)
      ensures r <==> this == that
    {
      name == that.name && version == that.version
    }

    predicate Clean() {
      NoDoubleNewline(name) && NoDoubleNewline(version)
    }

    /** `Generator::toXML`: name and version inserted verbatim. */
    function ToXml(): (r: string)
      ensures r == "" <==> this == DummyGenerator
      ensures r != "" ==> r == "<generator name=\"" + name + "\" version=\"" + version + "\"/>"
    {
      if Equals(DummyGenerator) then ""
      else
        "<generator name=\"" + name + "\" version=\"" + version + "\"/>"
    }

    /** Rendering never leaves a blank line: the markup is empty or every
        line of it has text. */
    lemma XmlNoBlankLine()
      requires Clean()
      ensures ToXml() == "" || NoBlankLine(ToXml())
    {
      NoBlankLineTwoAttributes("<generator name=\"", name, "\" version=\"", version, "\"/>");
    }
  }

  const DummyGenerator: Generator := Generator("", "")

  datatype Metadata = Metadata(generator: Generator) {
    /** `Metadata::operator==`: the generators compared. */
    function Equals(that: Metadata): (r: bool)
      ensures r <==> this == that
    {
      generator.Equals(that.generator)
    }

    predicate Clean() {
      generator.Clean()
    }

    /** `Metadata::toXML`: a `metadata` element holding the generator. */
    function ToXml(): (r: string)
      ensures r == "" <==> this == DummyMetadata
    {
      if Equals(DummyMetadata) then ""
      else Element(MetadataOpen, [generator.ToXml()], MetadataClose)
    }

    /** A present metadata renders as its tags around its present children, one
        per line, in order. */
    lemma XmlFramed()
      requires this != DummyMetadata
      ensures ToXml() == "<metadata>\n" + Line(generator.ToXml()) + "</metadata>"
    {
      var a := generator.ToXml();
      LinesOfOne(a);
      assert ToXml() == MetadataOpen + "\n" + Lines([a]) + MetadataClose;
      assert MetadataOpen + "\n" == "<metadata>\n";
    }

    /** Rendering never leaves a blank line: the markup is empty or every
        line of it has text. */
    lemma XmlNoBlankLine()
      requires Clean()
      ensures ToXml() == "" || NoBlankLine(ToXml())
    {
      generator.XmlNoBlankLine();
      if this != DummyMetadata {
        ElementNoBlankLine(MetadataOpen, [generator.ToXml()], MetadataClose);
      }
    }
  }

  const DummyMetadata: Metadata := Metadata(DummyGenerator)
  const MetadataOpen: Tag := "<metadata>"
  const MetadataClose: Tag := "</metadata>"

  /** A whole report: metadata and results. */
  datatype Analysis = Analysis(metadata: Metadata, results: Results) {
    /** `Analysis::operator==`: metadata and results compared. */
    function Equals(that: Analysis): (r: bool)
      ensures r <==> this == that
    {
      metadata.Equals(that.metadata) && results.Equals(that.results)
    }

    predicate Clean() {
      metadata.Clean() && results.Clean()
    }

    /** `Analysis::toXML`: metadata, then results, each only when present. */
    function ToXml(): (r: string)
      ensures r == "" <==> this == DummyAnalysis
    {
      if Equals(DummyAnalysis) then ""
      else Element(AnalysisOpen, [metadata.ToXml(), results.ToXml()], AnalysisClose)
    }

    /** A present analysis renders as its tags around its present children, one
        per line, in order. */
    lemma XmlFramed()
      requires this != DummyAnalysis
      ensures ToXml() == "<analysis>\n" + (Line(metadata.ToXml()) + Line(results.ToXml())) + "</analysis>"
    {
      var a, b := metadata.ToXml(), results.ToXml();
      var body := Line(a) + Line(b);
      LinesOfTwo(a, b);
      assert Lines([a, b]) == body;
      assert ToXml() == AnalysisOpen + "\n" + Lines([a, b]) + AnalysisClose;
      assert AnalysisOpen + "\n" == "<analysis>\n";
      assert ToXml() == "<analysis>\n" + body + "</analysis>";
    }

    /** Rendering never leaves a blank line: the markup is empty or every
        line of it has text. */
    lemma XmlNoBlankLine()
      requires Clean()
      ensures ToXml() == "" || NoBlankLine(ToXml())
    {
      metadata.XmlNoBlankLine();
      results.XmlNoBlankLine();
      if this != DummyAnalysis {
        ElementNoBlankLine(AnalysisOpen, [metadata.ToXml(), results.ToXml()], AnalysisClose);
      }
    }
  }

  const DummyAnalysis: Analysis := Analysis(DummyMetadata, DummyResults)
  const AnalysisOpen: Tag := "<analysis>"
  const AnalysisClose: Tag := "</analysis>"
}
