/**
 * The step variants the tag-job template uses. The task classes compose
 * their own shell text and action references from these arguments; that
 * composition is not part of this model, so each variant records exactly the
 * arguments the template hands it.
 */
module Steps {
  import opened Text

  /** A dictionary of named inputs, in insertion order. */
  type Inputs = seq<(string, string)>

  datatype Step =
    | CheckoutV3(name: string, inputs: Inputs)
    | ConfigureGit(name: string)
    | ExtractProjectProperty(name: string, id: string, projectPath: string,
                             property: string, variable: string, runsOn: string)
    | Generic(name: string, run: string)
    | CreateTag(name: string, tagName: string, tagMessage: string)
    | CreateRelease(name: string, uses: string, releaseName: string,
                    tagName: string, notes: string, token: string)

  /** The keys and values of a dictionary, in order. */
  function InputTexts(inputs: Inputs): seq<string> {
    if inputs == [] then [] else [inputs[0].0, inputs[0].1] + InputTexts(inputs[1..])
  }

  /** Every piece of text a step carries, keys and values of its inputs included. */
  function Texts(step: Step): seq<string> {
    match step
    case CheckoutV3(name, inputs) => [name] + InputTexts(inputs)
    case ConfigureGit(name) => [name]
    case ExtractProjectProperty(name, id, path, property, variable, runsOn) =>
      [name, id, path, property, variable, runsOn]
    case Generic(name, run) => [name, run]
    case CreateTag(name, tagName, tagMessage) => [name, tagName, tagMessage]
    case CreateRelease(name, uses, releaseName, tagName, notes, token) =>
      [name, uses, releaseName, tagName, notes, token]
  }

  /** The runner's expression `${{ e }}`. */
  function Expr(e: string): string {
    "${{ " + e + " }}"
  }

  /** The prefix by which an expression reads an output of the step with this id. */
  function OutputRef(id: string): string {
    "steps." + id + ".outputs."
  }

  /** Some text of `step` reads an output of the step with id `id`. */
  predicate Mentions(step: Step, id: string) {
    exists k :: 0 <= k < |Texts(step)| && Contains(Texts(step)[k], OutputRef(id))
  }

  /** A text that lacks one character of the reference does not read the outputs of step `id`. */
  lemma DoesNotRead(text: string, id: string, c: char)
    requires c in OutputRef(id) && c !in text
    ensures !Contains(text, OutputRef(id))
  {
    MissingCharExcludes(text, OutputRef(id), c);
  }

  /**
   * A step none of whose texts reads the outputs of step `id` does not
   * mention `id`; a text lacking a character of the reference reads none.
   */
  lemma NotMentioned(step: Step, id: string, c: char)
    requires c in OutputRef(id)
    requires forall k :: 0 <= k < |Texts(step)| ==>
      c !in Texts(step)[k] || !Contains(Texts(step)[k], OutputRef(id))
    ensures !Mentions(step, id)
  {
    forall k | 0 <= k < |Texts(step)| && c !in Texts(step)[k]
      ensures !Contains(Texts(step)[k], OutputRef(id))
    {
      DoesNotRead(Texts(step)[k], id, c);
    }
  }

  /** In an eight-step list, the steps reading the outputs of `id` are those named in `readers`. */
  lemma ReadersOfEight(s: seq<Step>, id: string, readers: set<nat>)
    requires |s| == 8
    requires 0 in readers <==> Mentions(s[0], id)
    requires 1 in readers <==> Mentions(s[1], id)
    requires 2 in readers <==> Mentions(s[2], id)
    requires 3 in readers <==> Mentions(s[3], id)
    requires 4 in readers <==> Mentions(s[4], id)
    requires 5 in readers <==> Mentions(s[5], id)
    requires 6 in readers <==> Mentions(s[6], id)
    requires 7 in readers <==> Mentions(s[7], id)
    ensures forall j :: 0 <= j < |s| ==> (Mentions(s[j], id) <==> j in readers)
  {
    forall j | 0 <= j < |s|
      ensures Mentions(s[j], id) <==> j in readers
    {
      if j < 4 {
        if j == 0 {} else if j == 1 {} else if j == 2 {} else {}
      } else {
        if j == 4 {} else if j == 5 {} else if j == 6 {} else {}
      }
    }
  }

  /** A producer placed before every reader of its outputs is produced before use. */
  lemma BeforeAllReaders(s: seq<Step>, id: string, p: nat, readers: set<nat>)
    requires p < |s| && Produces(s[p], id)
    requires forall j :: 0 <= j < |s| ==> (Mentions(s[j], id) <==> j in readers)
    requires forall j :: j in readers ==> p < j
    ensures ProducedBeforeUse(s, id)
  {
  }

  /** `step` publishes outputs under the id `id`. */
  predicate Produces(step: Step, id: string) {
    step.ExtractProjectProperty? && step.id == id
  }

  /**
   * The runner resolves `steps.<id>.outputs.*` only once step `<id>` has run,
   * so the producing step must come before every step that reads its outputs.
   */
  predicate ProducedBeforeUse(steps: seq<Step>, id: string) {
    exists p :: 0 <= p < |steps| && Produces(steps[p], id) &&
      forall j :: 0 <= j < |steps| && Mentions(steps[j], id) ==> p < j
  }
}
