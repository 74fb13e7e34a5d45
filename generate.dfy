/** `POST /api/generate-workout`: checks the prompt, assembles the text sent
    to the generative model and returns the model's raw answer. */
module Generate {
  import opened Wrappers
  import opened Http
  import opened Text

  /** The parsed request body; a field is None when it is missing. */
  datatype GenerateRequest = GenerateRequest(prompt: Option<string>, fitnessLevel: Option<string>, workoutGoal: Option<string>)

  /** What a call to the model yields: its text, or an exception with an optional message. */
  datatype Generation = Answer(text: string) | Threw(message: Option<string>)

  const ModelName := "gemini-2.0-flash"
  const FitnessLabel := "\nFitness Level: "
  const GoalLabel := "\nPrimary Goal: "
  const Instructions :=
    "\n\nPlease provide a detailed workout plan that includes:\n"
    + "1. A weekly schedule\n"
    + "2. Specific exercises with sets and reps\n"
    + "3. Rest periods\n"
    + "4. Progression guidelines\n"
    + "5. Brief nutrition tips related to the goal"
  const PromptRequired := "Prompt is required"
  const GenerateFailed := "Failed to generate workout"

  /** The line a hint contributes: its caption and value when the hint is present, nothing otherwise. */
  function HintLine(caption: string, hint: Option<string>): (line: string)
  {
    if Present(hint) then caption + hint.value else ""
  }

  /** The text sent to the model. */
  function EnhancedPrompt(prompt: string, fitnessLevel: Option<string>, workoutGoal: Option<string>): (e: string)
  {
    prompt + HintLine(FitnessLabel, fitnessLevel) + HintLine(GoalLabel, workoutGoal) + Instructions
  }

  /** The message of a failed generation: `error.message || 'Failed to generate workout'`. */
  function FailureMessage(message: Option<string>): (text: string)
  {
    if Present(message) then message.value else GenerateFailed
  }

  /** Where each part sits in the text sent to the model: the user's prompt
      first and verbatim; right after it the fitness line when a fitness
      level is given, and nothing when it is not; then likewise the goal
      line; then the fixed instructions, which end the text. The offsets and
      the length determine the text completely. */
  lemma EnhancedPromptLayout(prompt: string, fitnessLevel: Option<string>, workoutGoal: Option<string>)
    ensures var e := EnhancedPrompt(prompt, fitnessLevel, workoutGoal);
      var fitnessEnd := |prompt| + (if Present(fitnessLevel) then |FitnessLabel| + |fitnessLevel.value| else 0);
      var goalEnd := fitnessEnd + (if Present(workoutGoal) then |GoalLabel| + |workoutGoal.value| else 0);
      && OccursAt(e, 0, prompt)
      && (Present(fitnessLevel) ==> OccursAt(e, |prompt|, FitnessLabel + fitnessLevel.value))
      && (Present(workoutGoal) ==> OccursAt(e, fitnessEnd, GoalLabel + workoutGoal.value))
      && OccursAt(e, goalEnd, Instructions)
      && |e| == goalEnd + |Instructions|
      && EndsWith(e, Instructions)
  {
    ConcatLayout(prompt, HintLine(FitnessLabel, fitnessLevel), HintLine(GoalLabel, workoutGoal), Instructions);
  }

  /** The generative model service, with the log of the requests it received. */
  class GenerativeModel {
    /** What the service answers to a (model, prompt) request. */
    const respond: (string, string) -> Generation
    var requests: seq<(string, string)>

    constructor (respond: (string, string) -> Generation)
      ensures this.respond == respond && requests == []
    {
      this.respond := respond;
      requests := [];
    }

    method GenerateContent(model: string, prompt: string) returns (g: Generation)
      modifies this
      ensures requests == old(requests) + [(model, prompt)]
      ensures g == respond(model, prompt)
    {
      requests := requests + [(model, prompt)];
      g := respond(model, prompt);
    }
  }

  /** Builds the text sent to the model by successive appends to one variable. */
  method BuildEnhancedPrompt(prompt: string, fitnessLevel: Option<string>, workoutGoal: Option<string>)
    returns (enhanced: string)
    ensures enhanced == EnhancedPrompt(prompt, fitnessLevel, workoutGoal)
  {
    enhanced := prompt;
    if Present(fitnessLevel) {
      enhanced := enhanced + FitnessLabel + fitnessLevel.value;
    }
    assert enhanced == prompt + HintLine(FitnessLabel, fitnessLevel);
    if Present(workoutGoal) {
      enhanced := enhanced + GoalLabel + workoutGoal.value;
    }
    assert enhanced == prompt + HintLine(FitnessLabel, fitnessLevel) + HintLine(GoalLabel, workoutGoal);
    enhanced := enhanced + Instructions;
  }

  /** `POST /api/generate-workout`. `request` is Failure(message) when the
      body is not JSON. A missing or empty prompt is refused before the model
      is asked anything; otherwise the model is asked once and its text is
      returned unchanged. */
  method GenerateWorkout(request: Result<GenerateRequest, string>, service: GenerativeModel)
    returns (r: Reply<string>)
    modifies service
    ensures request.Failure? ==>
      r == Fail(500, FailureMessage(Some(request.error))) && service.requests == old(service.requests)
    ensures request.Success? && !Present(request.value.prompt) ==>
      r == Fail(400, PromptRequired) && service.requests == old(service.requests)
    ensures request.Success? && Present(request.value.prompt) ==>
      var sent := EnhancedPrompt(request.value.prompt.value, request.value.fitnessLevel, request.value.workoutGoal);
      && service.requests == old(service.requests) + [(ModelName, sent)]
      && match service.respond(ModelName, sent)
         case Answer(text) => r == Ok(text)
         case Threw(message) => r == Fail(500, FailureMessage(message))
  {
    if request.Failure? {
      return Fail(500, FailureMessage(Some(request.error)));
    }
    var body := request.value;
    if !Present(body.prompt) {
      return Fail(400, PromptRequired);
    }
    var enhanced := BuildEnhancedPrompt(body.prompt.value, body.fitnessLevel, body.workoutGoal);
    var generation := service.GenerateContent(ModelName, enhanced);
    match generation
    case Answer(text) =>
      r := Ok(text);
    case Threw(message) =>
      r := Fail(500, FailureMessage(message));
  }
}
