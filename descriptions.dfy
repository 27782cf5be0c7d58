/**
 * `generate_description`: a one-sentence description picked by the first
 * keyword group, in a fixed priority order, found in the lower-cased name,
 * with project-based fallbacks. The chain of `if`/`elif` tests is written
 * here as an ordered table of rules tried top-down.
 */
module Descriptions {
  import opened Wrappers
  import opened Text

  datatype Rule = Rule(keywords: seq<string>, sentence: string)

  const RULES: seq<Rule> := [
    Rule(["hourly"], "Monitors hourly trends and real-time performance metrics."),
    Rule(["daily"], "Tracks daily metrics and day-over-day performance changes."),
    Rule(["alert"], "Automated alerting dashboard for proactive issue detection."),
    Rule(["investigation", "analysis"], "Deep-dive analysis tool for investigating performance patterns."),
    Rule(["historical", "seasonality"], "Historical trend analysis for understanding seasonal patterns and YoY changes."),
    Rule(["revenue"], "Revenue tracking and financial performance monitoring."),
    Rule(["triage"], "Triage dashboard for prioritizing and managing operational issues."),
    Rule(["margin"], "Margin analysis for profitability and cost optimization insights."),
    Rule(["health", "status"], "Health status overview for quick operational assessment."),
    Rule(["jira", "roadmap"], "Project tracking dashboard for Jira tickets and roadmap progress."),
    Rule(["constraint"], "Market constraints monitoring and capacity management."),
    Rule(["user data"], "User data metrics and audience insights dashboard."),
    Rule(["spend"], "Spend tracking and budget utilization analysis."),
    Rule(["full data"], "Comprehensive data exploration with flexible filtering options."),
    Rule(["trend"], "Trend analysis dashboard for tracking performance over time."),
    Rule(["test", "playground"], "Development/test version for feature experimentation."),
    Rule(["publisher"], "Publisher-focused performance metrics and analytics."),
    Rule(["advertiser"], "Advertiser performance tracking and campaign analytics."),
    Rule(["roi"], "ROI tracking and return on investment analysis."),
    Rule(["loss"], "Revenue loss tracking and recovery opportunity identification."),
    Rule(["cpa", "cvr"], "CPA/CVR analysis for conversion optimization insights."),
    Rule(["proactive"], "Proactive monitoring dashboard for early issue detection."),
    Rule(["supply"], "Supply-side metrics and inventory management dashboard."),
    Rule(["readiness"], "Readiness assessment and migration tracking dashboard.")
  ]

  /** Some keyword of the rule is a substring of `text`. */
  predicate Matches(rule: Rule, text: string) {
    exists k | k in rule.keywords :: Contains(text, k)
  }

  /** The first rule at or after `from` that matches `text`. */
  function FirstMatch(text: string, from: nat): (r: Option<nat>)
    requires from <= |RULES|
    ensures r.Some? ==> from <= r.value < |RULES| && Matches(RULES[r.value], text)
    ensures r.Some? ==> forall j :: from <= j < r.value ==> !Matches(RULES[j], text)
    ensures r.None? ==> forall j :: from <= j < |RULES| ==> !Matches(RULES[j], text)
    decreases |RULES| - from
  {
    if from == |RULES| then None
    else if Matches(RULES[from], text) then Some(from)
    else FirstMatch(text, from + 1)
  }

  /** The sentence used when no keyword is found. */
  function ProjectFallback(project: string): string {
    if project == "ROC Protocol" then "ROC Protocol operational dashboard for real-time monitoring."
    else if project == "Triage" then "Triage tool for operational analysis and decision support."
    else if project == "ROC" then "ROC team dashboard for business intelligence and reporting."
    else "Analytics dashboard for " + project + " insights and monitoring."
  }

  /**
   * The source's third argument, the data sources, is never read, so the
   * model leaves it out.
   */
  function GenerateDescription(name: string, project: string): string {
    match FirstMatch(Lower(name), 0)
    case Some(i) => RULES[i].sentence
    case None => ProjectFallback(project)
  }

  /** The sentence of the first matching rule, in table order, is the description. */
  lemma DescriptionOfFirstMatch(name: string, project: string, i: nat)
    requires i < |RULES| && Matches(RULES[i], Lower(name))
    requires forall j :: 0 <= j < i ==> !Matches(RULES[j], Lower(name))
    ensures GenerateDescription(name, project) == RULES[i].sentence
  {
    var m := FirstMatch(Lower(name), 0);
    assert m.Some?;
  }

  /** With no keyword in the name, the project decides. */
  lemma DescriptionWithoutKeyword(name: string, project: string)
    requires forall j :: 0 <= j < |RULES| ==> !Matches(RULES[j], Lower(name))
    ensures project == "ROC Protocol" ==>
      GenerateDescription(name, project) == "ROC Protocol operational dashboard for real-time monitoring."
    ensures project == "Triage" ==>
      GenerateDescription(name, project) == "Triage tool for operational analysis and decision support."
    ensures project == "ROC" ==>
      GenerateDescription(name, project) == "ROC team dashboard for business intelligence and reporting."
    ensures project !in {"ROC Protocol", "Triage", "ROC"} ==>
      GenerateDescription(name, project) == "Analytics dashboard for " + project + " insights and monitoring."
  {
    assert FirstMatch(Lower(name), 0).None?;
  }

  /** Every description is a table sentence or a project fallback. */
  lemma DescriptionRange(name: string, project: string)
    ensures || (exists i :: 0 <= i < |RULES| && GenerateDescription(name, project) == RULES[i].sentence)
            || GenerateDescription(name, project) == ProjectFallback(project)
  {
    var m := FirstMatch(Lower(name), 0);
    if m.Some? {
      assert GenerateDescription(name, project) == RULES[m.value].sentence;
    }
  }

  /** "hourly" is tried first, so a name with "hourly" anywhere gets the hourly sentence, "alert" or not. */
  lemma HourlyComesFirst(name: string, project: string)
    requires Contains(Lower(name), "hourly")
    ensures GenerateDescription(name, project) == "Monitors hourly trends and real-time performance metrics."
  {
    assert "hourly" in RULES[0].keywords;
    DescriptionOfFirstMatch(name, project, 0);
  }

  /** The name "Hourly Alerts" is described as hourly, not as alerting. */
  lemma HourlyAlertsExample(project: string)
    ensures GenerateDescription("Hourly Alerts", project) == "Monitors hourly trends and real-time performance metrics."
  {
    var low := Lower("Hourly Alerts");
    assert low[0..6] == "hourly";
    assert OccursAt(low, "hourly", 0);
    HourlyComesFirst("Hourly Alerts", project);
  }
}
