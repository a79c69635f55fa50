/** The values a review produces: findings with their category and severity, and the scored result. */
module Review {
  import opened Wrappers

  datatype Category = Security | Quality | Testing | Architecture

  /** Ordered from the least to the most severe. */
  datatype Severity = Low | Medium | High | Critical

  /** One finding of the report; `file` and `line` point into the code for file-scoped findings. */
  datatype Finding = Finding(
    agent: string,
    category: Category,
    severity: Severity,
    title: string,
    description: string,
    file: Option<string>,
    line: Option<int>,
    suggestion: Option<string>)

  /** The findings of a run, in the order the rules produced them, and its score. */
  datatype Analysis = Analysis(findings: seq<Finding>, score: int)

  /** What the user asked to review: a repository or a pull request. */
  datatype AnalysisType = Repo | Pr
}
