/**
 * The job record of a GitHub Actions workflow and the tag-job template that
 * fills it in: on a merged release pull request, read the project's version
 * and release notes, tag the commit and publish a GitHub release.
 */
module Jobs {
  import opened Wrappers
  import opened Text
  import opened Steps

  /** The `DefaultValues` class is not part of this model; only whether it is set matters. */
  datatype DefaultValues = DefaultValues(settings: map<string, string>)

  /** The `Strategy` class is not part of this model; only whether it is set matters. */
  datatype Strategy = Strategy(settings: map<string, string>)

  /** The eleven serialised members of a job; `None` is a member left at `null`. */
  datatype Job = Job(
    name: Option<string>,
    runsOn: Option<string>,
    needs: Option<seq<string>>,
    condition: Option<string>,
    environment: Option<string>,
    defaults: Option<DefaultValues>,
    steps: Option<seq<Step>>,
    timeoutInMinutes: int,
    strategy: Option<Strategy>,
    env: Option<map<string, string>>,
    outputs: Option<map<string, string>>)

  /** A job whose members all hold their initial values. */
  const Unset := Job(None, None, None, None, None, None, None, 0, None, None, None)

  /** `System.Environment.NewLine`: a line feed, or a carriage return and line feed. */
  type Newline = s: string | s == "\n" || s == "\r\n" witness "\n"

  const VersionId := "extract_version"
  const ReleaseNotesId := "extract_package_release_notes"

  /** `${{ steps.extract_version.outputs.version_number }}` */
  const VersionNumber := Expr(OutputRef(VersionId) + "version_number")
  /** `${{ steps.extract_package_release_notes.outputs.package_release_notes }}` */
  const PackageReleaseNotes := Expr(OutputRef(ReleaseNotesId) + "package_release_notes")
  const TagName := "v" + VersionNumber
  const TagMessage := "Release - " + TagName

  /** The five conditions under which the tag job runs, in the order they are written. */
  function Clauses(dependsOn: string, branchName: string): seq<string> {
    [ "needs." + dependsOn + ".result == 'success'",
      "github.event.pull_request.merged",
      "github.event.pull_request.base.ref == '" + branchName + "'",
      "startsWith(github.event.pull_request.title, 'RELEASES:')",
      "contains(github.event.pull_request.labels.*.name, 'RELEASES')" ]
  }

  /** The `if` expression, built line by line as the constructor builds it. */
  function Condition(dependsOn: string, branchName: string, newline: Newline): string {
    "needs." + dependsOn + ".result == 'success' && " + newline
    + "github.event.pull_request.merged && " + newline
    + "github.event.pull_request.base.ref == '" + branchName + "' && " + newline
    + "startsWith(github.event.pull_request.title, 'RELEASES:') && " + newline
    + "contains(github.event.pull_request.labels.*.name, 'RELEASES')"
  }

  /** The fixed eight-step recipe. */
  function TagSteps(runsOn: string, projectRelativePath: string, githubToken: string): seq<Step> {
    [ CheckoutV3("Checkout code", [("token", githubToken)]),
      ConfigureGit("Configure Git"),
      ExtractProjectProperty("Extract Version", VersionId, projectRelativePath,
                             "Version", "version_number", runsOn),
      Generic("Display Version", "echo \"Version number: " + VersionNumber + "\""),
      ExtractProjectProperty("Extract Package Release Notes", ReleaseNotesId, projectRelativePath,
                             "PackageReleaseNotes", "package_release_notes", runsOn),
      Generic("Display Package Release Notes",
              "echo \"Package Release Notes: " + PackageReleaseNotes + "\""),
      CreateTag("Create GitHub Tag", TagName, TagMessage),
      CreateRelease("Create GitHub Release", "actions/create-release@v1",
                    TagMessage, TagName, PackageReleaseNotes, githubToken) ]
  }

  /** The `TagJob` constructor: sets four members of a fresh job and leaves the rest unset. */
  function TagJob(runsOn: string, dependsOn: string, projectRelativePath: string,
                  githubToken: string, branchName: string, newline: Newline): Job
  {
    Unset.(runsOn := Some(runsOn),
           needs := Some([dependsOn]),
           condition := Some(Condition(dependsOn, branchName, newline)),
           steps := Some(TagSteps(runsOn, projectRelativePath, githubToken)))
  }
}
