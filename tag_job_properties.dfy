/** What the tag-job template promises, stated over `Jobs.TagJob`. */
module TagJobProperties {
  import opened Wrappers
  import opened Text
  import opened Steps
  import opened Jobs

  /** Only `runs-on`, `needs`, `if` and the steps are set; every other member keeps its initial value. */
  lemma TagJobMembers(runsOn: string, dependsOn: string, path: string, token: string,
                      branch: string, newline: Newline)
    ensures var j := TagJob(runsOn, dependsOn, path, token, branch, newline);
      && j.runsOn == Some(runsOn)
      && j.needs == Some([dependsOn])
      && j.condition.Some? && j.steps.Some?
      && j.name.None? && j.environment.None? && j.defaults.None?
      && j.timeoutInMinutes == 0 && j.strategy.None?
      && j.env.None? && j.outputs.None?
  {
  }

  /** The run target given to the job is also given to both property extractions, which sit at 2 and 4 and nowhere else. */
  lemma RunsOnReachesExtractions(runsOn: string, dependsOn: string, path: string, token: string,
                                 branch: string, newline: Newline)
    ensures var s := TagJob(runsOn, dependsOn, path, token, branch, newline).steps.value;
      && |s| == 8
      && s[2].ExtractProjectProperty? && s[2].runsOn == runsOn
      && s[4].ExtractProjectProperty? && s[4].runsOn == runsOn
      && forall i :: 0 <= i < |s| && s[i].ExtractProjectProperty? ==> i == 2 || i == 4
  {
  }

  /** Regroups the constructor's line-by-line concatenation into clauses and separators. */
  lemma Regroup(c0a: string, d: string, c0b: string, c1: string, c2a: string, b: string, c2b: string,
                c3: string, c4: string, and: string, nl: string)
    ensures c0a + d + (c0b + and) + nl + (c1 + and) + nl + c2a + b + (c2b + and) + nl + (c3 + and) + nl + c4
         == Join([c0a + d + c0b, c1, c2a + b + c2b, c3, c4], and + nl)
  {
    var cs := [c0a + d + c0b, c1, c2a + b + c2b, c3, c4];
    var sep := and + nl;
    var c2 := c2a + b + c2b;
    assert cs[3..][1..] == cs[4..];
    assert Join(cs[3..], sep) == c3 + sep + c4;
    assert cs[2..][1..] == cs[3..];
    assert Join(cs[2..], sep) == c2 + sep + (c3 + sep + c4);
    assert cs[1..][1..] == cs[2..];
    assert Join(cs[1..], sep) == c1 + sep + (c2 + sep + (c3 + sep + c4));
    assert Join(cs, sep) == c0a + d + c0b + sep + (c1 + sep + (c2 + sep + (c3 + sep + c4)));
  }

  /** The `if` expression is exactly its five clauses joined by `&&` and a line break. */
  lemma ConditionIsConjunction(dependsOn: string, branch: string, newline: Newline)
    ensures |Clauses(dependsOn, branch)| == 5
    ensures Condition(dependsOn, branch, newline) == Join(Clauses(dependsOn, branch), " && " + newline)
  {
    assert ".result == 'success' && " == ".result == 'success'" + " && ";
    assert "github.event.pull_request.merged && " == "github.event.pull_request.merged" + " && ";
    assert "' && " == "'" + " && ";
    assert "startsWith(github.event.pull_request.title, 'RELEASES:') && "
        == "startsWith(github.event.pull_request.title, 'RELEASES:')" + " && ";
    Regroup("needs.", dependsOn, ".result == 'success'", "github.event.pull_request.merged",
            "github.event.pull_request.base.ref == '", branch, "'",
            "startsWith(github.event.pull_request.title, 'RELEASES:')",
            "contains(github.event.pull_request.labels.*.name, 'RELEASES')", " && ", newline);
  }

  /** The `if` expression: the dependency clause first, the branch clause inside, the labels clause last. */
  lemma ConditionShape(dependsOn: string, branch: string, newline: Newline)
    ensures var c := Condition(dependsOn, branch, newline);
      && StartsWith(c, "needs." + dependsOn + ".result == 'success' && " + newline)
      && Contains(c, "github.event.pull_request.base.ref == '" + branch + "'")
      && EndsWith(c, "contains(github.event.pull_request.labels.*.name, 'RELEASES')")
      && !EndsWith(c, newline)
  {
    var cs := Clauses(dependsOn, branch);
    var sep := " && " + newline;
    ConditionIsConjunction(dependsOn, branch, newline);
    JoinStartsWith(cs, sep);
    assert cs[0] + sep == "needs." + dependsOn + ".result == 'success' && " + newline by {
      assert ".result == 'success' && " == ".result == 'success'" + " && ";
    }
    JoinContains(cs, sep, 2);
    JoinEndsWith(cs, sep);
    LastCharDecides(Join(cs, sep), cs[4], newline);
  }

  /** The eight steps, by variant and display name, in the fixed order. */
  lemma StepOrder(runsOn: string, dependsOn: string, path: string, token: string,
                  branch: string, newline: Newline)
    ensures var s := TagJob(runsOn, dependsOn, path, token, branch, newline).steps.value;
      && |s| == 8
      && s[0].CheckoutV3? && s[1].ConfigureGit? && s[2].ExtractProjectProperty?
      && s[3].Generic? && s[4].ExtractProjectProperty? && s[5].Generic?
      && s[6].CreateTag? && s[7].CreateRelease?
      && seq(|s|, i requires 0 <= i < |s| => s[i].name)
         == [ "Checkout code", "Configure Git", "Extract Version", "Display Version",
              "Extract Package Release Notes", "Display Package Release Notes",
              "Create GitHub Tag", "Create GitHub Release" ]
  {
  }

  /** The token authenticates the checkout, as its only input, and the release. */
  lemma TokenPlacement(runsOn: string, dependsOn: string, path: string, token: string,
                       branch: string, newline: Newline)
    ensures var s := TagJob(runsOn, dependsOn, path, token, branch, newline).steps.value;
      && |s| == 8
      && s[0].CheckoutV3? && s[0].inputs == [("token", token)]
      && s[7].CreateRelease? && s[7].token == token
  {
  }

  /** Tag and release share one tag name, and the release is named by the tag message. */
  lemma TagAndReleaseAgree(runsOn: string, dependsOn: string, path: string, token: string,
                           branch: string, newline: Newline)
    ensures var s := TagJob(runsOn, dependsOn, path, token, branch, newline).steps.value;
      && |s| == 8 && s[6].CreateTag? && s[7].CreateRelease?
      && s[6].tagName == s[7].tagName == "v" + Expr("steps.extract_version.outputs.version_number")
      && s[7].releaseName == s[6].tagMessage == "Release - " + s[6].tagName
      && s[7].uses == "actions/create-release@v1"
  {
  }

  /** An expression that reads `steps.<id>.outputs.<name>` mentions step `id`. */
  lemma ExprReads(id: string, name: string)
    ensures Contains(Expr(OutputRef(id) + name), OutputRef(id))
  {
    assert OutputRef(id) <= (OutputRef(id) + name)[0..];
    ContainsExtend("${{ ", OutputRef(id) + name, " }}", OutputRef(id));
  }

  /** The checkout step does not read step `id`: its fixed texts lack `c` and its token does not read it. */
  lemma CheckoutReadsNot(name: string, key: string, token: string, id: string, c: char)
    requires c in OutputRef(id) && c !in name && c !in key && !Contains(token, OutputRef(id))
    ensures !Mentions(CheckoutV3(name, [(key, token)]), id)
  {
    var step := CheckoutV3(name, [(key, token)]);
    assert Texts(step) == [name, key, token] by {
      assert InputTexts([(key, token)][1..]) == [];
    }
    NotMentioned(step, id, c);
  }

  /** The git configuration step reads no output whose reference has a character its name lacks. */
  lemma ConfigureGitReadsNot(name: string, id: string, c: char)
    requires c in OutputRef(id) && c !in name
    ensures !Mentions(ConfigureGit(name), id)
  {
    NotMentioned(ConfigureGit(name), id, c);
  }

  /** A property extraction does not read step `id`: its own names lack `c` and the caller text does not read it. */
  lemma ExtractionReadsNot(name: string, stepId: string, path: string, property: string,
                           variable: string, runsOn: string, id: string, c: char)
    requires c in OutputRef(id)
    requires c !in name && c !in stepId && c !in property && c !in variable
    requires !Contains(path, OutputRef(id)) && !Contains(runsOn, OutputRef(id))
    ensures !Mentions(ExtractProjectProperty(name, stepId, path, property, variable, runsOn), id)
  {
    NotMentioned(ExtractProjectProperty(name, stepId, path, property, variable, runsOn), id, c);
  }

  /** A shell step reads no output whose reference has a character its texts lack. */
  lemma GenericReadsNot(name: string, run: string, id: string, c: char)
    requires c in OutputRef(id) && c !in name && c !in run
    ensures !Mentions(Generic(name, run), id)
  {
    NotMentioned(Generic(name, run), id, c);
  }

  /** A tag step reads no output whose reference has a character its texts lack. */
  lemma TagReadsNot(name: string, tagName: string, tagMessage: string, id: string, c: char)
    requires c in OutputRef(id) && c !in name && c !in tagName && c !in tagMessage
    ensures !Mentions(CreateTag(name, tagName, tagMessage), id)
  {
    NotMentioned(CreateTag(name, tagName, tagMessage), id, c);
  }

  /** The steps at 3, 6 and 7 read the version. */
  lemma VersionReaders(runsOn: string, dependsOn: string, path: string, token: string,
                       branch: string, newline: Newline)
    ensures var s := TagJob(runsOn, dependsOn, path, token, branch, newline).steps.value;
      |s| == 8 && Mentions(s[3], VersionId) && Mentions(s[6], VersionId) && Mentions(s[7], VersionId)
  {
    var s := TagJob(runsOn, dependsOn, path, token, branch, newline).steps.value;
    var r := OutputRef(VersionId);
    ExprReads(VersionId, "version_number");
    ContainsExtend("echo \"Version number: ", VersionNumber, "\"", r);
    assert Texts(s[3])[1] == "echo \"Version number: " + VersionNumber + "\"";
    ContainsExtend("v", VersionNumber, "", r);
    assert "v" + VersionNumber + "" == TagName;
    assert Texts(s[6])[1] == TagName && Texts(s[7])[3] == TagName;
  }

  /** The steps at 5 and 7 read the release notes. */
  lemma ReleaseNotesReaders(runsOn: string, dependsOn: string, path: string, token: string,
                            branch: string, newline: Newline)
    ensures var s := TagJob(runsOn, dependsOn, path, token, branch, newline).steps.value;
      |s| == 8 && Mentions(s[5], ReleaseNotesId) && Mentions(s[7], ReleaseNotesId)
  {
    var s := TagJob(runsOn, dependsOn, path, token, branch, newline).steps.value;
    var r := OutputRef(ReleaseNotesId);
    ExprReads(ReleaseNotesId, "package_release_notes");
    ContainsExtend("echo \"Package Release Notes: ", PackageReleaseNotes, "\"", r);
    assert Texts(s[5])[1] == "echo \"Package Release Notes: " + PackageReleaseNotes + "\"";
    assert Texts(s[7])[4] == PackageReleaseNotes;
  }

  /** Characters that occur in the two output references. */
  lemma ReferenceCharacters()
    ensures '.' in OutputRef(VersionId) && 'v' in OutputRef(VersionId)
    ensures '.' in OutputRef(ReleaseNotesId) && 'k' in OutputRef(ReleaseNotesId)
  {
  }

  /** The release-notes display step has no `v`, so it cannot read the version. */
  lemma NotesDisplayLacksV()
    ensures 'v' !in "Display Package Release Notes"
    ensures 'v' !in "echo \"Package Release Notes: " + PackageReleaseNotes + "\""
  {
  }

  /** The version display step has no `k`, so it cannot read the release notes. */
  lemma VersionDisplayLacksK()
    ensures 'k' !in "Display Version"
    ensures 'k' !in "echo \"Version number: " + VersionNumber + "\""
  {
  }

  /** The tag step has no `k`, so it cannot read the release notes. */
  lemma TagLacksK()
    ensures 'k' !in "Create GitHub Tag" && 'k' !in TagName && 'k' !in TagMessage
  {
  }

  /** The checkout step does not read step `id` unless its token does. */
  lemma CheckoutStepReadsNothing(token: string, id: string)
    requires !Contains(token, OutputRef(id))
    ensures !Mentions(CheckoutV3("Checkout code", [("token", token)]), id)
  {
    assert '.' in OutputRef(id);
    CheckoutReadsNot("Checkout code", "token", token, id, '.');
  }

  /** The git configuration step reads no step output. */
  lemma ConfigureStepReadsNothing(id: string)
    ensures !Mentions(ConfigureGit("Configure Git"), id)
  {
    assert '.' in OutputRef(id);
    ConfigureGitReadsNot("Configure Git", id, '.');
  }

  /** The version extraction does not read step `id` unless its caller text does. */
  lemma VersionExtractionReadsNothing(path: string, runsOn: string, id: string)
    requires !Contains(path, OutputRef(id)) && !Contains(runsOn, OutputRef(id))
    ensures !Mentions(ExtractProjectProperty("Extract Version", VersionId, path, "Version",
                                             "version_number", runsOn), id)
  {
    assert '.' in OutputRef(id);
    ExtractionReadsNot("Extract Version", VersionId, path, "Version", "version_number", runsOn, id, '.');
  }

  /** The release-notes extraction does not read step `id` unless its caller text does. */
  lemma NotesExtractionReadsNothing(path: string, runsOn: string, id: string)
    requires !Contains(path, OutputRef(id)) && !Contains(runsOn, OutputRef(id))
    ensures !Mentions(ExtractProjectProperty("Extract Package Release Notes", ReleaseNotesId, path,
                                             "PackageReleaseNotes", "package_release_notes", runsOn), id)
  {
    assert '.' in OutputRef(id);
    ExtractionReadsNot("Extract Package Release Notes", ReleaseNotesId, path, "PackageReleaseNotes",
                       "package_release_notes", runsOn, id, '.');
  }

  /** The release-notes display step does not read the version. */
  lemma NotesDisplayReadsNoVersion()
    ensures !Mentions(Generic("Display Package Release Notes",
                              "echo \"Package Release Notes: " + PackageReleaseNotes + "\""), VersionId)
  {
    ReferenceCharacters();
    NotesDisplayLacksV();
    GenericReadsNot("Display Package Release Notes",
                    "echo \"Package Release Notes: " + PackageReleaseNotes + "\"", VersionId, 'v');
  }

  /** The version display step does not read the release notes. */
  lemma VersionDisplayReadsNoNotes()
    ensures !Mentions(Generic("Display Version", "echo \"Version number: " + VersionNumber + "\""),
                      ReleaseNotesId)
  {
    ReferenceCharacters();
    VersionDisplayLacksK();
    GenericReadsNot("Display Version", "echo \"Version number: " + VersionNumber + "\"", ReleaseNotesId, 'k');
  }

  /** The tag step does not read the release notes. */
  lemma TagReadsNoNotes()
    ensures !Mentions(CreateTag("Create GitHub Tag", TagName, TagMessage), ReleaseNotesId)
  {
    ReferenceCharacters();
    TagLacksK();
    TagReadsNot("Create GitHub Tag", TagName, TagMessage, ReleaseNotesId, 'k');
  }

  /** No step other than those at 3, 6 and 7 reads the version. */
  lemma VersionNonReaders(runsOn: string, dependsOn: string, path: string, token: string,
                          branch: string, newline: Newline)
    requires !Contains(runsOn, OutputRef(VersionId)) && !Contains(path, OutputRef(VersionId))
    requires !Contains(token, OutputRef(VersionId))
    ensures var s := TagJob(runsOn, dependsOn, path, token, branch, newline).steps.value;
      && |s| == 8
      && !Mentions(s[0], VersionId) && !Mentions(s[1], VersionId) && !Mentions(s[2], VersionId)
      && !Mentions(s[4], VersionId) && !Mentions(s[5], VersionId)
  {
    CheckoutStepReadsNothing(token, VersionId);
    ConfigureStepReadsNothing(VersionId);
    VersionExtractionReadsNothing(path, runsOn, VersionId);
    NotesExtractionReadsNothing(path, runsOn, VersionId);
    NotesDisplayReadsNoVersion();
  }

  /** No step other than those at 5 and 7 reads the release notes. */
  lemma ReleaseNotesNonReaders(runsOn: string, dependsOn: string, path: string, token: string,
                               branch: string, newline: Newline)
    requires !Contains(runsOn, OutputRef(ReleaseNotesId)) && !Contains(path, OutputRef(ReleaseNotesId))
    requires !Contains(token, OutputRef(ReleaseNotesId))
    ensures var s := TagJob(runsOn, dependsOn, path, token, branch, newline).steps.value;
      && |s| == 8
      && !Mentions(s[0], ReleaseNotesId) && !Mentions(s[1], ReleaseNotesId)
      && !Mentions(s[2], ReleaseNotesId) && !Mentions(s[3], ReleaseNotesId)
      && !Mentions(s[4], ReleaseNotesId) && !Mentions(s[6], ReleaseNotesId)
  {
    CheckoutStepReadsNothing(token, ReleaseNotesId);
    ConfigureStepReadsNothing(ReleaseNotesId);
    VersionExtractionReadsNothing(path, runsOn, ReleaseNotesId);
    VersionDisplayReadsNoNotes();
    NotesExtractionReadsNothing(path, runsOn, ReleaseNotesId);
    TagReadsNoNotes();
  }

  /**
   * Exactly the steps at 3, 6 and 7 read the version; the step producing it
   * sits at 2, before all of them, provided the caller-supplied text does
   * not itself read the version.
   */
  lemma VersionProducedBeforeUse(runsOn: string, dependsOn: string, path: string, token: string,
                                 branch: string, newline: Newline)
    requires !Contains(runsOn, OutputRef(VersionId)) && !Contains(path, OutputRef(VersionId))
    requires !Contains(token, OutputRef(VersionId))
    ensures var s := TagJob(runsOn, dependsOn, path, token, branch, newline).steps.value;
      && |s| == 8
      && Produces(s[2], VersionId)
      && (forall j :: 0 <= j < |s| ==> (Mentions(s[j], VersionId) <==> j in {3, 6, 7}))
      && ProducedBeforeUse(s, VersionId)
  {
    var s := TagJob(runsOn, dependsOn, path, token, branch, newline).steps.value;
    VersionReaders(runsOn, dependsOn, path, token, branch, newline);
    VersionNonReaders(runsOn, dependsOn, path, token, branch, newline);
    ReadersOfEight(s, VersionId, {3, 6, 7});
    BeforeAllReaders(s, VersionId, 2, {3, 6, 7});
  }

  /**
   * Exactly the steps at 5 and 7 read the release notes; the step producing
   * them sits at 4, before both, provided the caller-supplied text does not
   * itself read the release notes.
   */
  lemma ReleaseNotesProducedBeforeUse(runsOn: string, dependsOn: string, path: string, token: string,
                                      branch: string, newline: Newline)
    requires !Contains(runsOn, OutputRef(ReleaseNotesId)) && !Contains(path, OutputRef(ReleaseNotesId))
    requires !Contains(token, OutputRef(ReleaseNotesId))
    ensures var s := TagJob(runsOn, dependsOn, path, token, branch, newline).steps.value;
      && |s| == 8
      && Produces(s[4], ReleaseNotesId)
      && (forall j :: 0 <= j < |s| ==> (Mentions(s[j], ReleaseNotesId) <==> j in {5, 7}))
      && ProducedBeforeUse(s, ReleaseNotesId)
  {
    var s := TagJob(runsOn, dependsOn, path, token, branch, newline).steps.value;
    ReleaseNotesReaders(runsOn, dependsOn, path, token, branch, newline);
    ReleaseNotesNonReaders(runsOn, dependsOn, path, token, branch, newline);
    ReadersOfEight(s, ReleaseNotesId, {5, 7});
    BeforeAllReaders(s, ReleaseNotesId, 4, {5, 7});
  }

  /**
   * The proviso above cannot be dropped: a token that itself reads the
   * version makes the checkout step, which runs first, a reader too.
   */
  lemma TokenReadingVersionBreaksOrder(runsOn: string, dependsOn: string, path: string,
                                       branch: string, newline: Newline)
    ensures var s := TagJob(runsOn, dependsOn, path, OutputRef(VersionId), branch, newline).steps.value;
      && Mentions(s[0], VersionId)
      && !ProducedBeforeUse(s, VersionId)
  {
    var token := OutputRef(VersionId);
    var s := TagJob(runsOn, dependsOn, path, token, branch, newline).steps.value;
    assert Texts(s[0])[2] == token by {
      assert InputTexts([("token", token)]) == ["token", token] + InputTexts([]);
    }
    assert token <= token[0..];
    assert Contains(Texts(s[0])[2], token);
    forall p | 0 <= p < |s| && Produces(s[p], VersionId)
      ensures !(p < 0)
    {
    }
  }
}
