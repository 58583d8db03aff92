/** The program's start: checking the command line, choosing the model file,
    binding to the packet queue and running the decision loop. */
module Startup {
  import opened Bytes
  import opened Features
  import opened DecisionLoop

  /** The model names the program accepts on its command line. */
  const ACCEPTED_MODELS: seq<string> := ["knn", "dt"]

  /** The queue number the program binds to. */
  const QUEUE: nat := 1

  const PREPROCESSOR_PATH: string := "Models/preprocessor.pkl"

  /** What the command line selects: the usage text (too few arguments), the
      wrong-name message, or the file name of an accepted model. */
  datatype Selection = Usage | WrongModelName | Selected(modelFile: string)

  function Select(argv: seq<string>): (s: Selection)
    ensures s == Usage <==> |argv| < 2
    ensures s == WrongModelName <==> |argv| >= 2 && argv[1] !in ACCEPTED_MODELS
    ensures s.Selected? ==> s.modelFile == argv[1] + ".pkl"
  {
    if |argv| < 2 then Usage
    else if argv[1] in ACCEPTED_MODELS then Selected(argv[1] + ".pkl")
    else WrongModelName
  }

  /** Only "knn.pkl" and "dt.pkl" can ever be selected. */
  lemma SelectedFileIsAccepted(argv: seq<string>)
    ensures Select(argv).Selected? ==>
              Select(argv).modelFile == "knn.pkl" || Select(argv).modelFile == "dt.pkl"
  {
  }

  /** Only the first argument after the program name matters. */
  lemma ExtraArgumentsIgnored(argv: seq<string>)
    requires |argv| >= 2
    ensures Select(argv) == Select(argv[..2])
  {
  }

  /** What the program cannot decide itself: which queues it may bind to (it
      binds queue QUEUE), the packets the queue delivers, the host's byte order, and
      what loading a file yields. */
  datatype Environment = Environment(
    mayBind: nat -> bool,
    events: seq<Event>,
    host: ByteOrder,
    loadTransform: string -> (Frame<int> -> seq<real>),
    loadModel: string -> (Frame<real> -> int))

  /** How a run ends. `Served` carries the loaded model's path and the
      loop's final state. */
  datatype Outcome = UsagePrinted | WrongModelPrinted | AccessDenied | Served(modelPath: string, state: LoopState)

  /** The pipeline the program assembles for a selected model file. */
  function PipelineFor(modelFile: string, env: Environment): (p: Pipeline)
    ensures p.columns == SHIPPED_COLUMNS && p.host == env.host
    ensures p.transform == env.loadTransform(PREPROCESSOR_PATH)
    ensures p.predict == env.loadModel("Models/" + modelFile)
  {
    Pipeline(SHIPPED_COLUMNS, env.loadTransform(PREPROCESSOR_PATH),
             env.loadModel("Models/" + modelFile), env.host)
  }

  /** The outcome of running the program with these arguments. */
  function Program(argv: seq<string>, env: Environment): (o: Outcome)
    ensures o == UsagePrinted <==> |argv| < 2
    ensures o == WrongModelPrinted <==> |argv| >= 2 && argv[1] !in ACCEPTED_MODELS
    ensures o == AccessDenied <==> |argv| >= 2 && argv[1] in ACCEPTED_MODELS && !env.mayBind(QUEUE)
    ensures o.Served? ==> o.modelPath == "Models/" + argv[1] + ".pkl"
    ensures o.Served? ==> o.state == Run(env.events, PipelineFor(argv[1] + ".pkl", env))
  {
    match Select(argv)
    case Usage => UsagePrinted
    case WrongModelName => WrongModelPrinted
    case Selected(file) =>
      if !env.mayBind(QUEUE) then AccessDenied
      else Served("Models/" + file, Run(env.events, PipelineFor(file, env)))
  }

  /** The program as a sequence of steps. */
  method Launch(argv: seq<string>, env: Environment) returns (o: Outcome)
    ensures o == Program(argv, env)
  {
    if |argv| < 2 {
      return UsagePrinted;
    }
    if argv[1] !in ACCEPTED_MODELS {
      return WrongModelPrinted;
    }
    var modelFile := argv[1] + ".pkl";
    var preprocess := env.loadTransform(PREPROCESSOR_PATH);
    var model := env.loadModel("Models/" + modelFile);
    if !env.mayBind(QUEUE) {
      return AccessDenied;
    }
    var state := Serve(env.events, Pipeline(SHIPPED_COLUMNS, preprocess, model, env.host));
    o := Served("Models/" + modelFile, state);
  }

  /** As shipped, a served run never issues a verdict: the first packet the
      queue delivers crashes the loop on the 10-against-19 shape error. */
  lemma ShippedProgramNeverDecides(argv: seq<string>, env: Environment)
    requires Program(argv, env).Served?
    ensures Program(argv, env).state.verdicts == []
    ensures Program(argv, env).state.stop.Crashed? <==> |Packets(env.events)| > 0
  {
    var file := Select(argv).modelFile;
    MismatchedColumnsNeverDecide(env.events, PipelineFor(file, env));
  }
}
