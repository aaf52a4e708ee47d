/** The scenario data model: one generated attack storyboard and its phased steps. */
module Types {
  import opened Wrappers

  /** The difficulty tier the user selects; its label is the enum's string value. */
  datatype Complexity = Beginner | Intermediate | Advanced {

    function Label(): (r: string) {
      match this
      case Beginner => "Beginner"
      case Intermediate => "Intermediate"
      case Advanced => "Advanced"
    }
  }

  /** One step of the kill chain.  The five text fields are copied from the
      model's JSON without validation, so at run time any of them may be
      undefined (None) although the declared type says string. */
  datatype Step = Step(
    id: string,
    phase: Option<string>,
    title: Option<string>,
    description: Option<string>,
    mitreTechnique: Option<string>,
    visualPrompt: Option<string>,
    imageUrl: Option<string>,
    isLoadingImage: Option<bool>)

  /** One complete generated scenario. */
  datatype Scenario = Scenario(
    id: string,
    attackVector: Option<string>,
    threatActor: Option<string>,
    summary: Option<string>,
    steps: seq<Step>,
    timestamp: int,
    sampleLogs: Option<string>,
    attackFlowDiagram: Option<string>,
    mitigationLessons: Option<string>)

  /** Two steps agree on everything except the two image fields. */
  predicate SameText(a: Step, b: Step) {
    && a.id == b.id
    && a.phase == b.phase
    && a.title == b.title
    && a.description == b.description
    && a.mitreTechnique == b.mitreTechnique
    && a.visualPrompt == b.visualPrompt
  }

  /** Two scenarios agree on every field except the step list. */
  predicate SameHeader(a: Scenario, b: Scenario) {
    a.(steps := b.steps) == b
  }
}
