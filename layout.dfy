/**
 * How a job is laid out when serialised: every member has a fixed position,
 * may be renamed by an alias, and may ask to be left out while it holds its
 * default value. The table is walked in order, so the order of the keys in
 * the output is decided by the table and by nothing else.
 */
module Layout {
  import opened Wrappers
  import J = Jobs

  /** The eleven serialised members of a job. */
  datatype Field =
    | Name | RunsOn | Needs | If | Environment | Defaults | Steps
    | TimeoutInMinutes | Strategy | EnvironmentVariables | Outputs

  /** One row of the layout: position, alias if any, and whether a default value is left out. */
  datatype Member = Member(order: nat, field: Field, alias: Option<string>, omitDefaults: bool)

  /**
   * A rendered key: an alias written as given, or a member's property name,
   * to which the serialiser's naming convention is then applied.
   */
  datatype Key = Alias(text: string) | Property(name: string)

  function PropertyName(f: Field): string {
    match f
    case Name => "Name"
    case RunsOn => "RunsOn"
    case Needs => "Needs"
    case If => "If"
    case Environment => "Environment"
    case Defaults => "Defaults"
    case Steps => "Steps"
    case TimeoutInMinutes => "TimeoutInMinutes"
    case Strategy => "Strategy"
    case EnvironmentVariables => "EnvironmentVariables"
    case Outputs => "Outputs"
  }

  /** The layout attributes of the tag job's members. */
  const Table: seq<Member> := [
    Member(0, Name, None, true),
    Member(1, RunsOn, Some("runs-on"), false),
    Member(2, Needs, Some("needs"), true),
    Member(3, If, Some("if"), true),
    Member(4, Environment, None, true),
    Member(5, Defaults, None, true),
    Member(6, Steps, None, false),
    Member(7, TimeoutInMinutes, Some("timeout-minutes"), true),
    Member(8, Strategy, None, true),
    Member(9, EnvironmentVariables, Some("env"), true),
    Member(10, Outputs, None, true)
  ]

  function KeyOf(m: Member): Key {
    match m.alias
    case Some(a) => Alias(a)
    case None => Property(PropertyName(m.field))
  }

  /** The member holds its type's default: `null`, or 0 for the timeout. */
  predicate AtDefault(job: J.Job, f: Field) {
    match f
    case Name => job.name.None?
    case RunsOn => job.runsOn.None?
    case Needs => job.needs.None?
    case If => job.condition.None?
    case Environment => job.environment.None?
    case Defaults => job.defaults.None?
    case Steps => job.steps.None?
    case TimeoutInMinutes => job.timeoutInMinutes == 0
    case Strategy => job.strategy.None?
    case EnvironmentVariables => job.env.None?
    case Outputs => job.outputs.None?
  }

  predicate Rendered(m: Member, job: J.Job) {
    !(m.omitDefaults && AtDefault(job, m.field))
  }

  /** The rows of `table` that are written for `job`, in table order. */
  function Render(table: seq<Member>, job: J.Job): seq<Member>
    decreases |table|
  {
    if table == [] then []
    else (if Rendered(table[0], job) then [table[0]] else []) + Render(table[1..], job)
  }

  function Keys(ms: seq<Member>): seq<Key> {
    seq(|ms|, i requires 0 <= i < |ms| => KeyOf(ms[i]))
  }

  /** The keys written for `job`, in output order. */
  function RenderedKeys(job: J.Job): seq<Key> {
    Keys(Render(Table, job))
  }

  /** Positions strictly increase along the rows. */
  predicate Increasing(ms: seq<Member>) {
    forall i, j :: 0 <= i < j < |ms| ==> ms[i].order < ms[j].order
  }

  /** No two rows produce the same key. */
  predicate DistinctKeys(ms: seq<Member>) {
    forall i, j :: 0 <= i < j < |ms| ==> KeyOf(ms[i]) != KeyOf(ms[j])
  }
}
