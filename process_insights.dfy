/**
 * The insight report schema (`insightSchema`) and `processInsights`.
 *
 * The report is a typed datatype; `Validate` reads a raw JSON value the way
 * the schema parses it (every field required, the declared type, the numeric
 * bounds, unknown keys dropped) and yields the typed report or nothing, and
 * `Encode` writes a typed report back as a JSON value.
 */
module ProcessInsights {
  import opened Wrappers
  import opened Json

  // ---------------------------------------------------------------------------
  // The report
  // ---------------------------------------------------------------------------

  datatype CodeStructure = CodeStructure(description: string)

  datatype ComplexArea = ComplexArea(area: string, complexity: real, refactoringSuggestions: seq<string>)

  datatype ComplexityAnalysis = ComplexityAnalysis(complexAreas: seq<ComplexArea>, overallComplexity: real)

  datatype DocumentationCoverage =
    DocumentationCoverage(wellDocumented: seq<string>, needsAttention: seq<string>, overallCoverage: real)

  datatype DependencyTracker =
    DependencyTracker(external: seq<string>, internal: seq<string>, dependencyRelations: string)

  datatype Severity = Low | Medium | High | Critical

  datatype Vulnerability = Vulnerability(severity: Severity, description: string)

  datatype CodeHealthMetrics = CodeHealthMetrics(
    codeQuality: real,
    testCoverage: real,
    securityVulnerabilities: seq<Vulnerability>,
    cyclomaticComplexity: real,
    codeDuplication: real,
    maintainabilityIndex: real,
    codeChurn: real)

  datatype InsightReport = InsightReport(
    codeStructure: CodeStructure,
    complexityAnalysis: ComplexityAnalysis,
    documentationCoverage: DocumentationCoverage,
    dependencyTracker: DependencyTracker,
    codeHealthMetrics: CodeHealthMetrics)

  predicate Percentage(x: real) { 0.0 <= x <= 100.0 }

  /** The numeric bounds of the schema; the complexity figures are unbounded. */
  predicate Valid(r: InsightReport) {
    var h := r.codeHealthMetrics;
    Percentage(r.documentationCoverage.overallCoverage) &&
    Percentage(h.codeQuality) && Percentage(h.testCoverage) &&
    h.cyclomaticComplexity >= 0.0 &&
    Percentage(h.codeDuplication) && Percentage(h.maintainabilityIndex) &&
    h.codeChurn >= 0.0
  }

  // ---------------------------------------------------------------------------
  // Severity names
  // ---------------------------------------------------------------------------

  function SeverityName(s: Severity): string {
    match s
    case Low => "low"
    case Medium => "medium"
    case High => "high"
    case Critical => "critical"
  }

  /** The enum accepts exactly the four names. */
  function ParseSeverity(name: string): (r: Option<Severity>)
    ensures r.Some? ==> SeverityName(r.value) == name
    ensures r.None? ==> name !in {"low", "medium", "high", "critical"}
  {
    if name == "low" then Some(Low)
    else if name == "medium" then Some(Medium)
    else if name == "high" then Some(High)
    else if name == "critical" then Some(Critical)
    else None
  }

  lemma SeverityRoundTrip(s: Severity)
    ensures ParseSeverity(SeverityName(s)) == Some(s)
  {
  }

  // ---------------------------------------------------------------------------
  // Validation of a raw value
  // ---------------------------------------------------------------------------

  function AsString(v: Value): Option<string> {
    if v.Str? then Some(v.s) else None
  }

  function AsNumber(v: Value): Option<real> {
    if v.Num? then Some(v.n) else None
  }

  /** `z.array(z.string())` on the elements of an array. */
  function Strings(items: seq<Value>): (r: Option<seq<string>>)
    ensures r.Some? <==> forall i :: 0 <= i < |items| ==> items[i].Str?
    ensures r.Some? ==> |r.value| == |items| && forall i :: 0 <= i < |items| ==> r.value[i] == items[i].s
  {
    if items == [] then Some([])
    else match (AsString(items[0]), Strings(items[1..]))
      case (Some(s), Some(rest)) => Some([s] + rest)
      case _ => None
  }

  function StringArray(v: Value): Option<seq<string>> {
    if v.Arr? then Strings(v.items) else None
  }

  function Area(v: Value): Option<ComplexArea> {
    if !v.Obj? then None
    else
      var m := v.fields;
      match (AsString(Field(m, "area")), AsNumber(Field(m, "complexity")), StringArray(Field(m, "refactoringSuggestions")))
      case (Some(a), Some(c), Some(rs)) => Some(ComplexArea(a, c, rs))
      case _ => None
  }

  function Areas(items: seq<Value>): (r: Option<seq<ComplexArea>>)
    ensures r.Some? <==> forall i :: 0 <= i < |items| ==> Area(items[i]).Some?
    ensures r.Some? ==> |r.value| == |items| && forall i :: 0 <= i < |items| ==> Some(r.value[i]) == Area(items[i])
  {
    if items == [] then Some([])
    else match (Area(items[0]), Areas(items[1..]))
      case (Some(a), Some(rest)) => Some([a] + rest)
      case _ => None
  }

  function VulnerabilityOf(v: Value): Option<Vulnerability> {
    if !v.Obj? then None
    else
      var m := v.fields;
      match (AsString(Field(m, "severity")), AsString(Field(m, "description")))
      case (Some(name), Some(d)) =>
        (match ParseSeverity(name)
         case Some(s) => Some(Vulnerability(s, d))
         case None => None)
      case _ => None
  }

  function Vulnerabilities(items: seq<Value>): (r: Option<seq<Vulnerability>>)
    ensures r.Some? <==> forall i :: 0 <= i < |items| ==> VulnerabilityOf(items[i]).Some?
    ensures r.Some? ==> |r.value| == |items| && forall i :: 0 <= i < |items| ==> Some(r.value[i]) == VulnerabilityOf(items[i])
  {
    if items == [] then Some([])
    else match (VulnerabilityOf(items[0]), Vulnerabilities(items[1..]))
      case (Some(x), Some(rest)) => Some([x] + rest)
      case _ => None
  }

  /** A number that must lie in [lo, hi] (`hi` absent: no upper bound). */
  function Bounded(v: Value, lo: real, hi: Option<real>): Option<real> {
    if v.Num? && lo <= v.n && (hi.None? || v.n <= hi.value) then Some(v.n) else None
  }

  function CodeStructureOf(v: Value): Option<CodeStructure> {
    if !v.Obj? then None
    else match AsString(Field(v.fields, "description"))
      case Some(d) => Some(CodeStructure(d))
      case None => None
  }

  function ComplexityAnalysisOf(v: Value): Option<ComplexityAnalysis> {
    if !v.Obj? then None
    else
      var m := v.fields;
      var areas := if Field(m, "complexAreas").Arr? then Areas(Field(m, "complexAreas").items) else None;
      match (areas, AsNumber(Field(m, "overallComplexity")))
      case (Some(a), Some(o)) => Some(ComplexityAnalysis(a, o))
      case _ => None
  }

  function DocumentationCoverageOf(v: Value): Option<DocumentationCoverage> {
    if !v.Obj? then None
    else
      var m := v.fields;
      match (StringArray(Field(m, "wellDocumented")), StringArray(Field(m, "needsAttention")),
             Bounded(Field(m, "overallCoverage"), 0.0, Some(100.0)))
      case (Some(w), Some(n), Some(c)) => Some(DocumentationCoverage(w, n, c))
      case _ => None
  }

  function DependencyTrackerOf(v: Value): Option<DependencyTracker> {
    if !v.Obj? then None
    else
      var m := v.fields;
      match (StringArray(Field(m, "external")), StringArray(Field(m, "internal")),
             AsString(Field(m, "dependencyRelations")))
      case (Some(e), Some(i), Some(d)) => Some(DependencyTracker(e, i, d))
      case _ => None
  }

  function CodeHealthMetricsOf(v: Value): Option<CodeHealthMetrics> {
    if !v.Obj? then None
    else
      var m := v.fields;
      var vulns := if Field(m, "securityVulnerabilities").Arr? then Vulnerabilities(Field(m, "securityVulnerabilities").items) else None;
      match (Bounded(Field(m, "codeQuality"), 0.0, Some(100.0)),
             Bounded(Field(m, "testCoverage"), 0.0, Some(100.0)),
             vulns,
             Bounded(Field(m, "cyclomaticComplexity"), 0.0, None),
             Bounded(Field(m, "codeDuplication"), 0.0, Some(100.0)),
             Bounded(Field(m, "maintainabilityIndex"), 0.0, Some(100.0)),
             Bounded(Field(m, "codeChurn"), 0.0, None))
      case (Some(q), Some(t), Some(s), Some(cc), Some(d), Some(mi), Some(ch)) =>
        Some(CodeHealthMetrics(q, t, s, cc, d, mi, ch))
      case _ => None
  }

  /**
   * `insightSchema.parse`: the typed report, or nothing when any field is
   * missing, has the wrong type or is out of bounds. A result is always valid;
   * `ValidateCovers` says exactly which values are accepted with which report.
   */
  function Validate(v: Value): (r: Option<InsightReport>)
    ensures r.Some? ==> Valid(r.value)
  {
    if !v.Obj? then None
    else
      var m := v.fields;
      match (CodeStructureOf(Field(m, "codeStructure")),
             ComplexityAnalysisOf(Field(m, "complexityAnalysis")),
             DocumentationCoverageOf(Field(m, "documentationCoverage")),
             DependencyTrackerOf(Field(m, "dependencyTracker")),
             CodeHealthMetricsOf(Field(m, "codeHealthMetrics")))
      case (Some(a), Some(b), Some(c), Some(d), Some(e)) => Some(InsightReport(a, b, c, d, e))
      case _ => None
  }

  // ---------------------------------------------------------------------------
  // Writing a report as JSON, and the round trip
  // ---------------------------------------------------------------------------

  function StringValues(ss: seq<string>): (vs: seq<Value>)
    ensures |vs| == |ss| && forall i :: 0 <= i < |ss| ==> vs[i] == Str(ss[i])
  {
    if ss == [] then [] else [Str(ss[0])] + StringValues(ss[1..])
  }

  function AreaValue(a: ComplexArea): Value {
    Obj(map[
      "area" := Str(a.area),
      "complexity" := Num(a.complexity),
      "refactoringSuggestions" := Arr(StringValues(a.refactoringSuggestions))])
  }

  function AreaValues(areas: seq<ComplexArea>): (vs: seq<Value>)
    ensures |vs| == |areas| && forall i :: 0 <= i < |areas| ==> vs[i] == AreaValue(areas[i])
  {
    if areas == [] then [] else [AreaValue(areas[0])] + AreaValues(areas[1..])
  }

  function VulnerabilityValue(x: Vulnerability): Value {
    Obj(map["severity" := Str(SeverityName(x.severity)), "description" := Str(x.description)])
  }

  function VulnerabilityValues(xs: seq<Vulnerability>): (vs: seq<Value>)
    ensures |vs| == |xs| && forall i :: 0 <= i < |xs| ==> vs[i] == VulnerabilityValue(xs[i])
  {
    if xs == [] then [] else [VulnerabilityValue(xs[0])] + VulnerabilityValues(xs[1..])
  }

  function CodeStructureValue(c: CodeStructure): Value {
    Obj(map["description" := Str(c.description)])
  }

  function ComplexityAnalysisValue(c: ComplexityAnalysis): Value {
    Obj(map[
      "complexAreas" := Arr(AreaValues(c.complexAreas)),
      "overallComplexity" := Num(c.overallComplexity)])
  }

  function DocumentationCoverageValue(d: DocumentationCoverage): Value {
    Obj(map[
      "wellDocumented" := Arr(StringValues(d.wellDocumented)),
      "needsAttention" := Arr(StringValues(d.needsAttention)),
      "overallCoverage" := Num(d.overallCoverage)])
  }

  function DependencyTrackerValue(d: DependencyTracker): Value {
    Obj(map[
      "external" := Arr(StringValues(d.external)),
      "internal" := Arr(StringValues(d.internal)),
      "dependencyRelations" := Str(d.dependencyRelations)])
  }

  function CodeHealthMetricsValue(h: CodeHealthMetrics): Value {
    Obj(map[
      "codeQuality" := Num(h.codeQuality),
      "testCoverage" := Num(h.testCoverage),
      "securityVulnerabilities" := Arr(VulnerabilityValues(h.securityVulnerabilities)),
      "cyclomaticComplexity" := Num(h.cyclomaticComplexity),
      "codeDuplication" := Num(h.codeDuplication),
      "maintainabilityIndex" := Num(h.maintainabilityIndex),
      "codeChurn" := Num(h.codeChurn)])
  }

  /** The report as the JSON object the schema describes. */
  function Encode(r: InsightReport): Value {
    Obj(map[
      "codeStructure" := CodeStructureValue(r.codeStructure),
      "complexityAnalysis" := ComplexityAnalysisValue(r.complexityAnalysis),
      "documentationCoverage" := DocumentationCoverageValue(r.documentationCoverage),
      "dependencyTracker" := DependencyTrackerValue(r.dependencyTracker),
      "codeHealthMetrics" := CodeHealthMetricsValue(r.codeHealthMetrics)])
  }

  lemma {:induction false} StringsRoundTrip(ss: seq<string>)
    ensures Strings(StringValues(ss)) == Some(ss)
  {
    if ss != [] {
      StringsRoundTrip(ss[1..]);
      assert StringValues(ss)[1..] == StringValues(ss[1..]);
      assert [ss[0]] + ss[1..] == ss;
    }
  }

  lemma AreaRoundTrip(a: ComplexArea)
    ensures Area(AreaValue(a)) == Some(a)
  {
    StringsRoundTrip(a.refactoringSuggestions);
  }

  lemma {:induction false} AreasRoundTrip(areas: seq<ComplexArea>)
    ensures Areas(AreaValues(areas)) == Some(areas)
  {
    if areas != [] {
      AreaRoundTrip(areas[0]);
      AreasRoundTrip(areas[1..]);
      assert AreaValues(areas)[1..] == AreaValues(areas[1..]);
      assert [areas[0]] + areas[1..] == areas;
    }
  }

  lemma VulnerabilityRoundTrip(x: Vulnerability)
    ensures VulnerabilityOf(VulnerabilityValue(x)) == Some(x)
  {
    SeverityRoundTrip(x.severity);
  }

  lemma {:induction false} VulnerabilitiesRoundTrip(xs: seq<Vulnerability>)
    ensures Vulnerabilities(VulnerabilityValues(xs)) == Some(xs)
  {
    if xs != [] {
      VulnerabilityRoundTrip(xs[0]);
      VulnerabilitiesRoundTrip(xs[1..]);
      assert VulnerabilityValues(xs)[1..] == VulnerabilityValues(xs[1..]);
      assert [xs[0]] + xs[1..] == xs;
    }
  }

  lemma ComplexityAnalysisRoundTrip(c: ComplexityAnalysis)
    ensures ComplexityAnalysisOf(ComplexityAnalysisValue(c)) == Some(c)
  {
    AreasRoundTrip(c.complexAreas);
  }

  lemma DocumentationCoverageRoundTrip(d: DocumentationCoverage)
    ensures DocumentationCoverageOf(DocumentationCoverageValue(d)) ==
      if Percentage(d.overallCoverage) then Some(d) else None
  {
    StringsRoundTrip(d.wellDocumented);
    StringsRoundTrip(d.needsAttention);
  }

  lemma DependencyTrackerRoundTrip(d: DependencyTracker)
    ensures DependencyTrackerOf(DependencyTrackerValue(d)) == Some(d)
  {
    StringsRoundTrip(d.external);
    StringsRoundTrip(d.internal);
  }

  predicate HealthInBounds(h: CodeHealthMetrics) {
    Percentage(h.codeQuality) && Percentage(h.testCoverage) &&
    h.cyclomaticComplexity >= 0.0 &&
    Percentage(h.codeDuplication) && Percentage(h.maintainabilityIndex) &&
    h.codeChurn >= 0.0
  }

  lemma CodeHealthMetricsRoundTrip(h: CodeHealthMetrics)
    ensures CodeHealthMetricsOf(CodeHealthMetricsValue(h)) == if HealthInBounds(h) then Some(h) else None
  {
    VulnerabilitiesRoundTrip(h.securityVulnerabilities);
  }

  /**
   * A written report is accepted back exactly when it satisfies the bounds:
   * every typed report within bounds passes the schema unchanged, and one
   * out-of-bounds number rejects the whole report.
   */
  lemma EncodeValidate(r: InsightReport)
    ensures Validate(Encode(r)) == if Valid(r) then Some(r) else None
  {
    ComplexityAnalysisRoundTrip(r.complexityAnalysis);
    DocumentationCoverageRoundTrip(r.documentationCoverage);
    DependencyTrackerRoundTrip(r.dependencyTracker);
    CodeHealthMetricsRoundTrip(r.codeHealthMetrics);
    EncodedSections(r);
    var m := Encode(r).fields;
    ValidateBySections(m,
      CodeStructureOf(Field(m, "codeStructure")),
      ComplexityAnalysisOf(Field(m, "complexityAnalysis")),
      DocumentationCoverageOf(Field(m, "documentationCoverage")),
      DependencyTrackerOf(Field(m, "dependencyTracker")),
      CodeHealthMetricsOf(Field(m, "codeHealthMetrics")));
  }

  lemma EncodedSections(r: InsightReport)
    ensures Encode(r).Obj?
    ensures var m := Encode(r).fields;
      Field(m, "codeStructure") == CodeStructureValue(r.codeStructure) &&
      Field(m, "complexityAnalysis") == ComplexityAnalysisValue(r.complexityAnalysis) &&
      Field(m, "documentationCoverage") == DocumentationCoverageValue(r.documentationCoverage) &&
      Field(m, "dependencyTracker") == DependencyTrackerValue(r.dependencyTracker) &&
      Field(m, "codeHealthMetrics") == CodeHealthMetricsValue(r.codeHealthMetrics)
  {
  }

  lemma ValidateBySections(m: map<string, Value>, a: Option<CodeStructure>, b: Option<ComplexityAnalysis>,
                           c: Option<DocumentationCoverage>, d: Option<DependencyTracker>, e: Option<CodeHealthMetrics>)
    requires a == CodeStructureOf(Field(m, "codeStructure"))
    requires b == ComplexityAnalysisOf(Field(m, "complexityAnalysis"))
    requires c == DocumentationCoverageOf(Field(m, "documentationCoverage"))
    requires d == DependencyTrackerOf(Field(m, "dependencyTracker"))
    requires e == CodeHealthMetricsOf(Field(m, "codeHealthMetrics"))
    ensures Validate(Obj(m)) ==
      if a.Some? && b.Some? && c.Some? && d.Some? && e.Some?
      then Some(InsightReport(a.value, b.value, c.value, d.value, e.value)) else None
  {
  }

  // ---------------------------------------------------------------------------
  // Acceptance characterised by covering
  // ---------------------------------------------------------------------------

  /** Each level of the schema accepts a value with a given result exactly when the value covers its JSON. */
  lemma StringsCover(items: seq<Value>, ss: seq<string>)
    ensures Strings(items) == Some(ss) <==> Covers(Arr(items), Arr(StringValues(ss)))
  {
    var vs := StringValues(ss);
    assert Covers(Arr(items), Arr(vs)) <==>
      |items| == |vs| && forall i :: 0 <= i < |vs| ==> Covers(items[i], vs[i]);
    assert forall i :: 0 <= i < |vs| && i < |items| ==> (Covers(items[i], vs[i]) <==> items[i] == Str(ss[i]));
    if Strings(items) == Some(ss) {
      assert forall i :: 0 <= i < |vs| ==> items[i] == Str(ss[i]);
    }
    if Covers(Arr(items), Arr(vs)) {
      var r := Strings(items);
      assert r.Some?;
      assert r.value == ss;
    }
  }

  lemma StringArrayCover(v: Value, ss: seq<string>)
    ensures StringArray(v) == Some(ss) <==> Covers(v, Arr(StringValues(ss)))
  {
    if v.Arr? {
      StringsCover(v.items, ss);
    }
  }

  lemma AreaCover(v: Value, a: ComplexArea)
    ensures Area(v) == Some(a) <==> Covers(v, AreaValue(a))
  {
    var f := AreaValue(a).fields;
    assert f.Keys == {"area", "complexity", "refactoringSuggestions"};
    if v.Obj? {
      StringArrayCover(Field(v.fields, "refactoringSuggestions"), a.refactoringSuggestions);
    }
  }

  lemma AreasCover(items: seq<Value>, areas: seq<ComplexArea>)
    ensures Areas(items) == Some(areas) <==> Covers(Arr(items), Arr(AreaValues(areas)))
  {
    var vs := AreaValues(areas);
    forall i | 0 <= i < |items| && i < |areas|
      ensures Area(items[i]) == Some(areas[i]) <==> Covers(items[i], vs[i])
    {
      AreaCover(items[i], areas[i]);
    }
    if Covers(Arr(items), Arr(vs)) {
      assert Areas(items).value == areas;
    }
  }

  lemma VulnerabilityCover(v: Value, x: Vulnerability)
    ensures VulnerabilityOf(v) == Some(x) <==> Covers(v, VulnerabilityValue(x))
  {
    var f := VulnerabilityValue(x).fields;
    assert f.Keys == {"severity", "description"};
    SeverityRoundTrip(x.severity);
  }

  lemma VulnerabilitiesCover(items: seq<Value>, xs: seq<Vulnerability>)
    ensures Vulnerabilities(items) == Some(xs) <==> Covers(Arr(items), Arr(VulnerabilityValues(xs)))
  {
    var vs := VulnerabilityValues(xs);
    forall i | 0 <= i < |items| && i < |xs|
      ensures VulnerabilityOf(items[i]) == Some(xs[i]) <==> Covers(items[i], vs[i])
    {
      VulnerabilityCover(items[i], xs[i]);
    }
    if Covers(Arr(items), Arr(vs)) {
      assert Vulnerabilities(items).value == xs;
    }
  }

  lemma CodeStructureCover(v: Value, c: CodeStructure)
    ensures CodeStructureOf(v) == Some(c) <==> Covers(v, CodeStructureValue(c))
  {
    assert CodeStructureValue(c).fields.Keys == {"description"};
  }

  lemma ComplexityAnalysisCover(v: Value, c: ComplexityAnalysis)
    ensures ComplexityAnalysisOf(v) == Some(c) <==> Covers(v, ComplexityAnalysisValue(c))
  {
    assert ComplexityAnalysisValue(c).fields.Keys == {"complexAreas", "overallComplexity"};
    if v.Obj? && Field(v.fields, "complexAreas").Arr? {
      AreasCover(Field(v.fields, "complexAreas").items, c.complexAreas);
    }
  }

  lemma DocumentationCoverageCover(v: Value, d: DocumentationCoverage)
    ensures DocumentationCoverageOf(v) == Some(d) <==>
      Percentage(d.overallCoverage) && Covers(v, DocumentationCoverageValue(d))
  {
    assert DocumentationCoverageValue(d).fields.Keys == {"wellDocumented", "needsAttention", "overallCoverage"};
    if v.Obj? {
      StringArrayCover(Field(v.fields, "wellDocumented"), d.wellDocumented);
      StringArrayCover(Field(v.fields, "needsAttention"), d.needsAttention);
    }
  }

  lemma DependencyTrackerCover(v: Value, d: DependencyTracker)
    ensures DependencyTrackerOf(v) == Some(d) <==> Covers(v, DependencyTrackerValue(d))
  {
    assert DependencyTrackerValue(d).fields.Keys == {"external", "internal", "dependencyRelations"};
    if v.Obj? {
      StringArrayCover(Field(v.fields, "external"), d.external);
      StringArrayCover(Field(v.fields, "internal"), d.internal);
    }
  }

  /** A bounded number: the exact number, within its bounds. */
  lemma BoundedCover(x: Value, lo: real, hi: Option<real>, n: real)
    ensures Bounded(x, lo, hi) == Some(n) <==> lo <= n && (hi.None? || n <= hi.value) && Covers(x, Num(n))
  {
  }


  /** A value covering the metrics object covers each of its seven fields ... */
  lemma HealthFieldsFrom(m: map<string, Value>, h: CodeHealthMetrics)
    requires Covers(Obj(m), CodeHealthMetricsValue(h))
    ensures Covers(Field(m, "codeQuality"), Num(h.codeQuality)) &&
      Covers(Field(m, "testCoverage"), Num(h.testCoverage)) &&
      Covers(Field(m, "securityVulnerabilities"), Arr(VulnerabilityValues(h.securityVulnerabilities))) &&
      Covers(Field(m, "cyclomaticComplexity"), Num(h.cyclomaticComplexity)) &&
      Covers(Field(m, "codeDuplication"), Num(h.codeDuplication)) &&
      Covers(Field(m, "maintainabilityIndex"), Num(h.maintainabilityIndex)) &&
      Covers(Field(m, "codeChurn"), Num(h.codeChurn))
  {
    var f := CodeHealthMetricsValue(h).fields;
    assert Covers(Field(m, "codeQuality"), Num(h.codeQuality)) by {
      assert f["codeQuality"] == Num(h.codeQuality);
      CoversAt(Obj(m), f, "codeQuality");
    }
    assert Covers(Field(m, "testCoverage"), Num(h.testCoverage)) by {
      assert f["testCoverage"] == Num(h.testCoverage);
      CoversAt(Obj(m), f, "testCoverage");
    }
    assert Covers(Field(m, "securityVulnerabilities"), Arr(VulnerabilityValues(h.securityVulnerabilities))) by {
      assert f["securityVulnerabilities"] == Arr(VulnerabilityValues(h.securityVulnerabilities));
      CoversAt(Obj(m), f, "securityVulnerabilities");
    }
    assert Covers(Field(m, "cyclomaticComplexity"), Num(h.cyclomaticComplexity)) by {
      assert f["cyclomaticComplexity"] == Num(h.cyclomaticComplexity);
      CoversAt(Obj(m), f, "cyclomaticComplexity");
    }
    assert Covers(Field(m, "codeDuplication"), Num(h.codeDuplication)) by {
      assert f["codeDuplication"] == Num(h.codeDuplication);
      CoversAt(Obj(m), f, "codeDuplication");
    }
    assert Covers(Field(m, "maintainabilityIndex"), Num(h.maintainabilityIndex)) by {
      assert f["maintainabilityIndex"] == Num(h.maintainabilityIndex);
      CoversAt(Obj(m), f, "maintainabilityIndex");
    }
    assert Covers(Field(m, "codeChurn"), Num(h.codeChurn)) by {
      assert f["codeChurn"] == Num(h.codeChurn);
      CoversAt(Obj(m), f, "codeChurn");
    }
  }

  /** ... and covering the seven fields is enough. */
  lemma HealthFieldsTo(m: map<string, Value>, h: CodeHealthMetrics)
    requires Covers(Field(m, "codeQuality"), Num(h.codeQuality)) &&
      Covers(Field(m, "testCoverage"), Num(h.testCoverage)) &&
      Covers(Field(m, "securityVulnerabilities"), Arr(VulnerabilityValues(h.securityVulnerabilities))) &&
      Covers(Field(m, "cyclomaticComplexity"), Num(h.cyclomaticComplexity)) &&
      Covers(Field(m, "codeDuplication"), Num(h.codeDuplication)) &&
      Covers(Field(m, "maintainabilityIndex"), Num(h.maintainabilityIndex)) &&
      Covers(Field(m, "codeChurn"), Num(h.codeChurn))
    ensures Covers(Obj(m), CodeHealthMetricsValue(h))
  {
    var f := CodeHealthMetricsValue(h).fields;
    forall k | k in f ensures k in m && Covers(m[k], f[k]) {
    }
  }


  lemma CodeHealthMetricsCover(v: Value, h: CodeHealthMetrics)
    ensures CodeHealthMetricsOf(v) == Some(h) <==> HealthInBounds(h) && Covers(v, CodeHealthMetricsValue(h))
  {
    if v.Obj? {
      var m := v.fields;
      var xs := Field(m, "securityVulnerabilities");
      var vulns := if xs.Arr? then Vulnerabilities(xs.items) else None;
      HealthBySections(m, vulns);
      BoundedCover(Field(m, "codeQuality"), 0.0, Some(100.0), h.codeQuality);
      BoundedCover(Field(m, "testCoverage"), 0.0, Some(100.0), h.testCoverage);
      BoundedCover(Field(m, "cyclomaticComplexity"), 0.0, None, h.cyclomaticComplexity);
      BoundedCover(Field(m, "codeDuplication"), 0.0, Some(100.0), h.codeDuplication);
      BoundedCover(Field(m, "maintainabilityIndex"), 0.0, Some(100.0), h.maintainabilityIndex);
      BoundedCover(Field(m, "codeChurn"), 0.0, None, h.codeChurn);
      if xs.Arr? {
        VulnerabilitiesCover(xs.items, h.securityVulnerabilities);
      }
      assert vulns == Some(h.securityVulnerabilities) <==> Covers(xs, Arr(VulnerabilityValues(h.securityVulnerabilities)));
      if CodeHealthMetricsOf(v) == Some(h) {
        assert HealthInBounds(h);
        HealthFieldsTo(m, h);
      }
      if HealthInBounds(h) && Covers(v, CodeHealthMetricsValue(h)) {
        HealthFieldsFrom(m, h);
      }
    }
  }

  /** `CodeHealthMetricsOf` on an object, by the results for its seven fields. */
  lemma HealthBySections(m: map<string, Value>, vulns: Option<seq<Vulnerability>>)
    requires var xs := Field(m, "securityVulnerabilities");
      vulns == if xs.Arr? then Vulnerabilities(xs.items) else None
    ensures var q := Bounded(Field(m, "codeQuality"), 0.0, Some(100.0));
      var t := Bounded(Field(m, "testCoverage"), 0.0, Some(100.0));
      var cc := Bounded(Field(m, "cyclomaticComplexity"), 0.0, None);
      var d := Bounded(Field(m, "codeDuplication"), 0.0, Some(100.0));
      var mi := Bounded(Field(m, "maintainabilityIndex"), 0.0, Some(100.0));
      var ch := Bounded(Field(m, "codeChurn"), 0.0, None);
      CodeHealthMetricsOf(Obj(m)) ==
        if q.Some? && t.Some? && vulns.Some? && cc.Some? && d.Some? && mi.Some? && ch.Some?
        then Some(CodeHealthMetrics(q.value, t.value, vulns.value, cc.value, d.value, mi.value, ch.value))
        else None
  {
  }



  /** A value covering a whole report covers each of its five sections ... */
  lemma SectionFieldsFrom(m: map<string, Value>, r: InsightReport)
    requires Covers(Obj(m), Encode(r))
    ensures Covers(Field(m, "codeStructure"), CodeStructureValue(r.codeStructure)) &&
      Covers(Field(m, "complexityAnalysis"), ComplexityAnalysisValue(r.complexityAnalysis)) &&
      Covers(Field(m, "documentationCoverage"), DocumentationCoverageValue(r.documentationCoverage)) &&
      Covers(Field(m, "dependencyTracker"), DependencyTrackerValue(r.dependencyTracker)) &&
      Covers(Field(m, "codeHealthMetrics"), CodeHealthMetricsValue(r.codeHealthMetrics))
  {
    var f := Encode(r).fields;
    assert Covers(Field(m, "codeStructure"), CodeStructureValue(r.codeStructure)) by {
      assert f["codeStructure"] == CodeStructureValue(r.codeStructure);
      CoversAt(Obj(m), f, "codeStructure");
    }
    assert Covers(Field(m, "complexityAnalysis"), ComplexityAnalysisValue(r.complexityAnalysis)) by {
      assert f["complexityAnalysis"] == ComplexityAnalysisValue(r.complexityAnalysis);
      CoversAt(Obj(m), f, "complexityAnalysis");
    }
    assert Covers(Field(m, "documentationCoverage"), DocumentationCoverageValue(r.documentationCoverage)) by {
      assert f["documentationCoverage"] == DocumentationCoverageValue(r.documentationCoverage);
      CoversAt(Obj(m), f, "documentationCoverage");
    }
    assert Covers(Field(m, "dependencyTracker"), DependencyTrackerValue(r.dependencyTracker)) by {
      assert f["dependencyTracker"] == DependencyTrackerValue(r.dependencyTracker);
      CoversAt(Obj(m), f, "dependencyTracker");
    }
    assert Covers(Field(m, "codeHealthMetrics"), CodeHealthMetricsValue(r.codeHealthMetrics)) by {
      assert f["codeHealthMetrics"] == CodeHealthMetricsValue(r.codeHealthMetrics);
      CoversAt(Obj(m), f, "codeHealthMetrics");
    }
  }

  /** ... and covering the five sections is enough. */
  lemma SectionFieldsTo(m: map<string, Value>, r: InsightReport)
    requires Covers(Field(m, "codeStructure"), CodeStructureValue(r.codeStructure)) &&
      Covers(Field(m, "complexityAnalysis"), ComplexityAnalysisValue(r.complexityAnalysis)) &&
      Covers(Field(m, "documentationCoverage"), DocumentationCoverageValue(r.documentationCoverage)) &&
      Covers(Field(m, "dependencyTracker"), DependencyTrackerValue(r.dependencyTracker)) &&
      Covers(Field(m, "codeHealthMetrics"), CodeHealthMetricsValue(r.codeHealthMetrics))
    ensures Covers(Obj(m), Encode(r))
  {
    var f := Encode(r).fields;
    forall k | k in f ensures k in m && Covers(m[k], f[k]) {
    }
  }


  /**
   * `insightSchema.parse` accepts a value with a given report exactly when the
   * report is within bounds and the value carries every field of the report's
   * JSON, at every depth, with that field's value: nothing missing, nothing
   * mistyped, no default filled in, and unknown keys anywhere ignored.
   */
  lemma ValidateCovers(v: Value, r: InsightReport)
    ensures Validate(v) == Some(r) <==> Valid(r) && Covers(v, Encode(r))
  {
    if v.Obj? {
      var m := v.fields;
      CodeStructureCover(Field(m, "codeStructure"), r.codeStructure);
      ComplexityAnalysisCover(Field(m, "complexityAnalysis"), r.complexityAnalysis);
      DocumentationCoverageCover(Field(m, "documentationCoverage"), r.documentationCoverage);
      DependencyTrackerCover(Field(m, "dependencyTracker"), r.dependencyTracker);
      CodeHealthMetricsCover(Field(m, "codeHealthMetrics"), r.codeHealthMetrics);
      ValidateBySections(m,
        CodeStructureOf(Field(m, "codeStructure")),
        ComplexityAnalysisOf(Field(m, "complexityAnalysis")),
        DocumentationCoverageOf(Field(m, "documentationCoverage")),
        DependencyTrackerOf(Field(m, "dependencyTracker")),
        CodeHealthMetricsOf(Field(m, "codeHealthMetrics")));
      if Validate(v) == Some(r) {
        SectionFieldsTo(m, r);
      }
      if Valid(r) && Covers(v, Encode(r)) {
        SectionFieldsFrom(m, r);
      }
    }
  }

  /**
   * Adding keys anywhere inside an accepted value, at any depth, leaves the
   * parse unchanged.
   */
  lemma AddedKeysIgnored(w: Value, v: Value)
    requires Covers(w, v) && Validate(v).Some?
    ensures Validate(w) == Validate(v)
  {
    var r := Validate(v).value;
    ValidateCovers(v, r);
    CoversTransitive(w, v, Encode(r));
    ValidateCovers(w, r);
  }

  /** The five sections every report must have. */
  const Sections: seq<string> :=
    ["codeStructure", "complexityAnalysis", "documentationCoverage", "dependencyTracker", "codeHealthMetrics"]

  /** A value lacking any one of the five sections is rejected. */
  lemma MissingSectionRejected(v: Value, k: nat)
    requires v.Obj? && k < |Sections| && Sections[k] !in v.fields
    ensures Validate(v).None?
  {
  }

  /** One malformed vulnerability (say, an unknown severity) rejects the whole report. */
  lemma BadVulnerabilityRejected(v: Value, i: nat)
    requires v.Obj? && "codeHealthMetrics" in v.fields
    requires var h := v.fields["codeHealthMetrics"];
      h.Obj? && "securityVulnerabilities" in h.fields && h.fields["securityVulnerabilities"].Arr? &&
      i < |h.fields["securityVulnerabilities"].items| &&
      VulnerabilityOf(h.fields["securityVulnerabilities"].items[i]).None?
    ensures Validate(v).None?
  {
  }

  /** One malformed complex area rejects the whole report. */
  lemma BadAreaRejected(v: Value, i: nat)
    requires v.Obj? && "complexityAnalysis" in v.fields
    requires var c := v.fields["complexityAnalysis"];
      c.Obj? && "complexAreas" in c.fields && c.fields["complexAreas"].Arr? &&
      i < |c.fields["complexAreas"].items| &&
      Area(c.fields["complexAreas"].items[i]).None?
    ensures Validate(v).None?
  {
  }

  /** The complexity figures carry no bound: changing them keeps a report valid, negative values included. */
  lemma ComplexityUnbounded(r: InsightReport, overall: real, perArea: seq<real>)
    requires Valid(r)
    requires |perArea| == |r.complexityAnalysis.complexAreas|
    ensures var areas := r.complexityAnalysis.complexAreas;
      Valid(r.(complexityAnalysis := ComplexityAnalysis(
        seq(|areas|, i requires 0 <= i < |areas| => areas[i].(complexity := perArea[i])), overall)))
  {
  }

  /** Keys outside the schema are dropped: the result depends only on the five sections. */
  lemma UnknownKeysIgnored(m: map<string, Value>, extra: map<string, Value>)
    requires forall k :: k in extra ==> k !in Sections
    ensures Validate(Obj(m + extra)) == Validate(Obj(m))
  {
    forall k | k in Sections ensures Field(m + extra, k) == Field(m, k) {
    }
  }

  // ---------------------------------------------------------------------------
  // processInsights
  // ---------------------------------------------------------------------------

  const PromptPrefix := "Process the following information to generate insights: "

  /** Why `processInsights` rejects: the completion call failed, or its reply did not fit the schema. */
  datatype ExtractionError = CallFailed(cause: JsError) | SchemaMismatch(reply: Value)

  /**
   * `processInsights(information)`: one structured-completion call on the
   * prompt, with the reply checked against the schema. `generate` stands for
   * the completion service and returns its raw JSON reply.
   */
  function ProcessInsights(information: string, generate: string -> Result<Value, JsError>)
    : (r: Result<InsightReport, ExtractionError>)
    ensures r.Ok? ==> Valid(r.value)
    ensures r.Ok? <==> generate(PromptPrefix + information).Ok? && Validate(generate(PromptPrefix + information).value).Some?
    ensures r.Ok? ==> Validate(generate(PromptPrefix + information).value) == Some(r.value)
  {
    match generate(PromptPrefix + information)
    case Err(e) => Err(CallFailed(e))
    case Ok(reply) =>
      match Validate(reply)
      case None => Err(SchemaMismatch(reply))
      case Some(report) => Ok(report)
  }
}
