# ADotNet tag job, modelled in Dafny

ADotNet describes GitHub Actions workflows as C# objects and serialises them
to YAML. This project models one of them, the tag job
(`ADotNet/Models/Pipelines/GithubPipelines/DotNets/TagJob.cs`). It runs once a
release pull request has been merged. It reads the project's version and
release notes, tags the commit and publishes a GitHub release. The model has
two parts:

- **The template.** `Jobs.TagJob` is a pure function. It takes the five
  constructor arguments, plus the platform line break that stands for
  `System.Environment.NewLine`, and returns a `Jobs.Job` value. It sets the
  run target, the one-element `needs` list, the five-clause `if` expression
  and the fixed list of eight steps. `Steps.Step` is a sum type with one
  variant per kind of step the template uses. Each variant records exactly
  the arguments the template passes to it.
- **The serialisation layout.** `Layout.Table` has one row per serialised
  member, with its position, its alias and its omit-defaults flag.
  `Layout.RenderedKeys` walks the table in order. It keeps a row's key unless
  the row omits defaults and the member holds its default value.

Modules:

- `Wrappers` defines `Option`. `None` is a member left at `null`.
- `Text` holds the string predicates: starts with, ends with, contains and join.
- `Steps` holds the step variants and the "reads the outputs of step `id`"
  relation.
- `Jobs` holds the job record and the template.
- `TagJobProperties` holds what the template promises.
- `Layout` and `LayoutProperties` hold the member table and what it promises.

In the template's expressions and shell text, a step reads the outputs of
step `id` when one of its texts contains `steps.<id>.outputs.`.

## Model

| member | source | states |
|---|---|---|
| Jobs.TagJob | ADotNet/Models/Pipelines/GithubPipelines/DotNets/TagJob.cs:16-96 | the constructor as a function of its five arguments and the line break; it has no contract of its own: TagJobMembers, StepOrder, TokenPlacement, TagAndReleaseAgree, the two produced-before-use lemmas and TagJobKeys state what it builds |
| Jobs.Condition | ADotNet/Models/Pipelines/GithubPipelines/DotNets/TagJob.cs:26-31 | the `if` expression, concatenated line by line as in the constructor; no contract of its own: ConditionIsConjunction and ConditionShape state its structure |
| Jobs.TagSteps | ADotNet/Models/Pipelines/GithubPipelines/DotNets/TagJob.cs:33-95 | the eight-step list; no contract of its own: StepOrder, RunsOnReachesExtractions, TokenPlacement, TagAndReleaseAgree and the produced-before-use lemmas state its content |
| Layout.Table | ADotNet/Models/Pipelines/GithubPipelines/DotNets/TagJob.cs:98-130 | the `YamlMember` attributes as rows of position, member, alias and omit-defaults flag; TablePositions, TableShape and Aliases state its shape |
| Layout.Render | ADotNet/Models/Pipelines/GithubPipelines/DotNets/TagJob.cs:98-130 | walks the rows in order and keeps those not left out at their default; no contract of its own: RenderedRows and RenderKeepsOrder state that it keeps exactly the rendered rows, in order |
| Layout.RenderedKeys | ADotNet/Models/Pipelines/GithubPipelines/DotNets/TagJob.cs:98-130 | the keys written for a job, in output order; no contract of its own: OmitDefaults, OnlyTableKeys, RenderedInPositionOrder and TagJobKeys state which keys and in what order |
| TagJobProperties.TagJobMembers | ADotNet/Models/Pipelines/GithubPipelines/DotNets/TagJob.cs:16-33 | `runs-on` is the `runsOn` argument, `needs` is exactly `[dependsOn]`, `if` and the steps are set, every other member stays `null`, and the timeout stays 0 |
| TagJobProperties.RunsOnReachesExtractions | ADotNet/Models/Pipelines/GithubPipelines/DotNets/TagJob.cs:23-69 | the job's run target is also handed to both property extractions, which are the steps at 2 and 4 and the only extraction steps |
| TagJobProperties.ConditionIsConjunction | ADotNet/Models/Pipelines/GithubPipelines/DotNets/TagJob.cs:26-31 | the `if` expression is exactly its five clauses joined by ` && ` and a line break |
| TagJobProperties.ConditionShape | ADotNet/Models/Pipelines/GithubPipelines/DotNets/TagJob.cs:26-31 | the `if` expression starts with the dependency-success clause and a line break, contains the base-branch clause for `branchName`, and ends with the labels clause and no line break |
| TagJobProperties.StepOrder | ADotNet/Models/Pipelines/GithubPipelines/DotNets/TagJob.cs:33-95 | there are exactly eight steps, and each has the fixed variant and display name for its position: checkout, configure Git, extract version, display version, extract release notes, display release notes, create tag, create release |
| TagJobProperties.TokenPlacement | ADotNet/Models/Pipelines/GithubPipelines/DotNets/TagJob.cs:35-94 | the checkout step's only input is the token under key `token`, and the release step carries the same token |
| TagJobProperties.TagAndReleaseAgree | ADotNet/Models/Pipelines/GithubPipelines/DotNets/TagJob.cs:79-94 | the tag step and the release step use the same tag name, `v` followed by the extracted version expression; the release is named by the tag message `Release - <tag name>`; the release uses `actions/create-release@v1` |
| TagJobProperties.VersionProducedBeforeUse | ADotNet/Models/Pipelines/GithubPipelines/DotNets/TagJob.cs:49-94 | when the run target, project path and token do not themselves contain `steps.extract_version.outputs.`: step 2 produces `extract_version`, exactly steps 3, 6 and 7 read its outputs, so it is produced before every use |
| TagJobProperties.ReleaseNotesProducedBeforeUse | ADotNet/Models/Pipelines/GithubPipelines/DotNets/TagJob.cs:63-94 | when the run target, project path and token do not themselves contain `steps.extract_package_release_notes.outputs.`: step 4 produces `extract_package_release_notes`, exactly steps 5 and 7 read its outputs, so it is produced before every use |
| TagJobProperties.VersionNonReaders | ADotNet/Models/Pipelines/GithubPipelines/DotNets/TagJob.cs:35-77 | when the run target, project path and token do not themselves read the version: the checkout, configure, both extraction and release-notes display steps do not read it |
| TagJobProperties.ReleaseNotesNonReaders | ADotNet/Models/Pipelines/GithubPipelines/DotNets/TagJob.cs:35-84 | when the run target, project path and token do not themselves read the release notes: no step before the notes display, and not the tag step, reads them |
| TagJobProperties.TokenReadingVersionBreaksOrder | ADotNet/Models/Pipelines/GithubPipelines/DotNets/TagJob.cs:35-55 | with a token that itself reads the version, the checkout step reads it before step 2 produces it, so the version is not produced before use: the proviso on the lemmas above is needed |
| LayoutProperties.TablePositions | ADotNet/Models/Pipelines/GithubPipelines/DotNets/TagJob.cs:98-130 | the table has eleven rows whose positions run 0 to 10 in table order |
| LayoutProperties.TableShape | ADotNet/Models/Pipelines/GithubPipelines/DotNets/TagJob.cs:98-130 | the positions strictly increase, each member appears once, and no two rows produce the same key |
| LayoutProperties.Aliases | ADotNet/Models/Pipelines/GithubPipelines/DotNets/TagJob.cs:101-127 | the aliases are exactly `runs-on`, `needs`, `if`, `timeout-minutes` and `env`, each on its own member |
| LayoutProperties.RenderedRows | ADotNet/Models/Pipelines/GithubPipelines/DotNets/TagJob.cs:98-130 | a row is written exactly when it is in the table and is not a defaulted member that omits defaults |
| LayoutProperties.RenderKeepsOrder | ADotNet/Models/Pipelines/GithubPipelines/DotNets/TagJob.cs:98-130 | leaving rows out keeps the remaining rows in increasing position order |
| LayoutProperties.RenderedInPositionOrder | ADotNet/Models/Pipelines/GithubPipelines/DotNets/TagJob.cs:98-130 | for every job, the written keys come out in position order, whatever order the members were assigned in |
| LayoutProperties.KeyWrittenIffRendered | ADotNet/Models/Pipelines/GithubPipelines/DotNets/TagJob.cs:98-130 | when keys are distinct, a row's key is written if and only if its row is rendered |
| LayoutProperties.OmitDefaults | ADotNet/Models/Pipelines/GithubPipelines/DotNets/TagJob.cs:98-130 | `runs-on` and the steps are always written; every other key is written if and only if its member is not at its default (`null`, or 0 for the timeout) |
| LayoutProperties.KeysFromRows | ADotNet/Models/Pipelines/GithubPipelines/DotNets/TagJob.cs:98-130 | for any table, every written key is the key of one of its rows |
| LayoutProperties.OnlyTableKeys | ADotNet/Models/Pipelines/GithubPipelines/DotNets/TagJob.cs:98-130 | every written key comes from a row of the table |
| LayoutProperties.SameDefaultsSameKeys | ADotNet/Models/Pipelines/GithubPipelines/DotNets/TagJob.cs:98-130 | two jobs whose members are set in the same places write the same keys in the same order |
| LayoutProperties.KeysOfFourMemberJob | ADotNet/Models/Pipelines/GithubPipelines/DotNets/TagJob.cs:98-130 | a job that sets only `runs-on`, `needs`, `if` and the steps writes exactly those four keys, in that order |
| LayoutProperties.TagJobKeys | ADotNet/Models/Pipelines/GithubPipelines/DotNets/TagJob.cs:16-130 | for all arguments, the tag job writes exactly `runs-on`, `needs`, `if` and `Steps`, in that order |

## Left out

- The bodies of `CheckoutTaskV3`, `ConfigureGitTask`, `ExtractProjectPropertyTask`,
  `CreateGitHubTagTask`, `CreateGitHubReleaseTask` and `GithubTask` are not part of
  this model. Each step is a record of the arguments the template gives it. The
  shell text and action references those classes compose are not modelled.
- The `DefaultValues` and `Strategy` classes are not part of this model. They
  appear only as "set" or "not set".
- The YAML text itself is left out: the serialiser's formatting, quoting and
  escaping. Its naming convention is left out too. An unaliased key is given as
  the member's property name (`Key.Property("Steps")`), not as the text the
  naming convention would emit.
- Both the template and the layout model treat a member as at its default
  only when it is `null`, or 0 for the timeout. This follows the serialiser's
  `OmitDefaults`, which compares with the type's default value. So an empty
  string or an empty list is still written, although one might read "default"
  as "empty".
- `System.Environment.NewLine` is the `newline` parameter, restricted to `"\n"`
  or `"\r\n"`.
- The `new` hiding of the base `Job` properties is not modelled. It is a
  language mechanism and changes no value.
- Nothing checks that a step sets only one of `uses` and `run`, or that `needs`
  names an existing job. The code checks neither.
- The `if` expression and the shell strings are opaque text. They are never
  parsed or evaluated.
- `null` constructor arguments are left out. Every argument is a string.
- `Jobs.Job.timeoutInMinutes` is an unbounded integer, not a 32-bit one. The
  template never changes it from 0.
- VersionProducedBeforeUse, ReleaseNotesProducedBeforeUse, VersionNonReaders
  and ReleaseNotesNonReaders assume that the run target, project path and
  token do not themselves contain the output reference in question
  (`steps.<id>.outputs.`). Such a caller-supplied string makes an earlier step
  read that output too, as TokenReadingVersionBreaksOrder shows.
- ADotNet.Infrastructure.Build/Program.cs is not part of this model. It is an
  entry point that builds a fixed pipeline, reads the process environment and
  writes a file.
- The workflow types other than this job are not part of this model. These
  include pipelines, events, other jobs and other step kinds.
